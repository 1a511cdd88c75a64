/** The client that changes a camera's IVA configuration: read, compare with the
    baseline, write, verify up to three times, roll back, verify again. */
module ConfigClient {
  import opened Text
  import opened AreaConfiguration
  import opened AreaPayload
  import Json

  datatype Kind =
    | NoRequest
    | FetchOptions | FetchCapabilities | FetchConfiguration
    | PreflightConfiguration
    | PutUpdate | DeleteUpdate | VerifyUpdate
    | PutRollback | VerifyRollback

  datatype Capability = Capability(channel: int, ivaAreaSupported: bool, maxResolution: Resolution)

  /** The update under way; an idle client holds `NoUpdate`. */
  datatype Update = Update(
    channel: int,
    baselineRaw: Json.Fields,
    intended: Json.Fields,
    rollback: Json.Fields,
    deletedAreaIndex: int,
    attempt: nat)

  const NoUpdate := Update(-1, map[], map[], map[], -1, 0)

  const MAX_ATTEMPTS := 3

  datatype Client = Client(
    connectionValid: bool,
    kind: Kind,
    replyPending: bool,
    timerActive: bool,
    update: Update,
    options: Option<seq<ChannelOptions>>,
    capabilities: Option<seq<Capability>>,
    configuration: Option<Configuration>)
  {
    predicate Busy() {
      replyPending || timerActive
    }
  }

  datatype Output =
    | Get(kind: Kind)
    | Put(kind: Kind, payload: Json.Fields)
    | Delete(channel: int, areaIndex: int)
    | RequestFailed
    | OptionsReceived
    | CapabilitiesReceived
    | ConfigurationReceived(configuration: Configuration)
    | ApplyStarted(channel: int)
    | ApplySucceeded(channel: int, configuration: Configuration)
    | ApplyFailed(channel: int, rollbackSucceeded: bool)

  /** What a finished request brings: `None` where the body cannot be read as that. */
  datatype Reply =
    | Failure
    | Success(options: Option<seq<ChannelOptions>>, capabilities: Option<seq<Capability>>, document: Option<Json.Value>)

  // ---------- lookups ----------

  function OptionsFor(options: seq<ChannelOptions>, channel: int): Option<ChannelOptions> {
    if options == [] then None
    else if options[0].channel == channel then Some(options[0])
    else OptionsFor(options[1..], channel)
  }

  function CapabilityFor(capabilities: seq<Capability>, channel: int): Option<Capability> {
    if capabilities == [] then None
    else if capabilities[0].channel == channel then Some(capabilities[0])
    else CapabilityFor(capabilities[1..], channel)
  }

  /** The stored container of a channel, and the empty object when there is none. */
  function ChannelObject(configuration: Configuration, channel: int): Json.Fields {
    match FindChannel(configuration.channels, channel)
    case None => map[]
    case Some(found) => found.rawContainer
  }

  function RawEnabled(container: Json.Fields): bool {
    "enable" in container && container["enable"] == Json.Bool(true)
  }

  /** Options and capability of the channel as the client last read them. */
  function ChannelFacts(c: Client, channel: int): Option<(ChannelOptions, Resolution)> {
    if c.options.None? || c.capabilities.None? then None
    else
      var options := OptionsFor(c.options.value, channel);
      var capability := CapabilityFor(c.capabilities.value, channel);
      if options.None? || capability.None? || !capability.value.ivaAreaSupported
         || capability.value.maxResolution.None?
      then None
      else Some((options.value, capability.value.maxResolution))
  }

  function WithoutIndex(areas: seq<Area>, areaIndex: int): seq<Area> {
    if areas == [] then []
    else
      var before := WithoutIndex(areas[..|areas| - 1], areaIndex);
      if areas[|areas| - 1].areaIndex == areaIndex then before else before + [areas[|areas| - 1]]
  }

  predicate HasIndex(areas: seq<Area>, areaIndex: int) {
    exists a <- areas :: a.areaIndex == areaIndex
  }

  lemma OneMoreArea(areas: seq<Area>, area: Area, areaIndex: int)
    ensures WithoutIndex(areas + [area], areaIndex)
         == WithoutIndex(areas, areaIndex) + if area.areaIndex == areaIndex then [] else [area]
    ensures HasIndex(areas + [area], areaIndex) <==> HasIndex(areas, areaIndex) || area.areaIndex == areaIndex
  {
    var all := areas + [area];
    assert all[..|areas|] == areas && all[|areas|] == area;
    if HasIndex(areas, areaIndex) {
      var a :| a in areas && a.areaIndex == areaIndex;
      assert a in all;
    }
  }

  // ---------- what a call asks for ----------

  /** What the camera is to hold afterwards, and what it held before. */
  datatype Goal = Goal(
    channel: int32,
    enabled: bool,
    areas: seq<Area>,
    goodEnabled: bool,
    goodAreas: seq<Area>,
    baselineRaw: Json.Fields)

  /** The goal, once both payloads can be built and the channel's facts are known. */
  function CheckedGoal(c: Client, goal: Goal): Option<Goal> {
    var facts := ChannelFacts(c, goal.channel);
    if facts.None? || goal.baselineRaw == map[] then None
    else
      var (options, resolution) := facts.value;
      if !PayloadAccepted(goal.channel, goal.areas, options, resolution)
         || !PayloadAccepted(goal.channel, goal.goodAreas, options, resolution)
      then None
      else Some(goal)
  }

  function GoodGoal(configuration: Configuration, channel: int32, enabled: bool, areas: seq<Area>): Goal {
    var raw := ChannelObject(configuration, channel);
    Goal(channel, enabled, areas, RawEnabled(raw), OnChannel(configuration.areas, channel), raw)
  }

  function IntendedPayload(goal: Goal): Json.Fields {
    Payload(goal.channel, goal.enabled, goal.areas)
  }

  function RollbackPayload(goal: Goal): Json.Fields {
    Payload(goal.channel, goal.goodEnabled, goal.goodAreas)
  }

  function ApplyGoal(c: Client, channel: int32, enabled: bool, areas: seq<Area>): Option<Goal> {
    if c.Busy() || !c.connectionValid || c.configuration.None? then None
    else
      match CheckedGoal(c, GoodGoal(c.configuration.value, channel, enabled, areas))
      case None => None
      case Some(goal) => if IntendedPayload(goal) == RollbackPayload(goal) then None else Some(goal)
  }

  function DeleteGoal(c: Client, channel: int32, areaIndex: int): Option<Goal> {
    if c.Busy() || !c.connectionValid || c.configuration.None? then None
    else
      var areas := OnChannel(c.configuration.value.areas, channel);
      var enabled := RawEnabled(ChannelObject(c.configuration.value, channel));
      if !HasIndex(areas, areaIndex) then None
      else CheckedGoal(c, GoodGoal(c.configuration.value, channel, enabled, WithoutIndex(areas, areaIndex)))
  }

  // ---------- steps ----------

  function Send(c: Client, kind: Kind): Client {
    c.(kind := kind, replyPending := true)
  }

  function Begin(c: Client, goal: Goal): Update {
    c.update.(channel := goal.channel, baselineRaw := goal.baselineRaw,
              intended := IntendedPayload(goal), rollback := RollbackPayload(goal))
  }

  function CallApply(c: Client, channel: int32, enabled: bool, areas: seq<Area>): (Client, seq<Output>) {
    match ApplyGoal(c, channel, enabled, areas)
    case None => (c, [ApplyFailed(channel, false)])
    case Some(goal) =>
      (Send(c.(update := Begin(c, goal)), PreflightConfiguration), [ApplyStarted(channel), Get(PreflightConfiguration)])
  }

  function CallDelete(c: Client, channel: int32, areaIndex: int): (Client, seq<Output>) {
    match DeleteGoal(c, channel, areaIndex)
    case None => (c, [ApplyFailed(channel, false)])
    case Some(goal) =>
      (Send(c.(update := Begin(c, goal).(deletedAreaIndex := areaIndex)), PreflightConfiguration),
       [ApplyStarted(channel), Get(PreflightConfiguration)])
  }

  function CallFetch(c: Client): (Client, seq<Output>) {
    if c.Busy() || !c.connectionValid then (c, [RequestFailed])
    else (Send(c, FetchOptions), [Get(FetchOptions)])
  }

  /** One more read after a pause; the pause grows but always ends. */
  function ScheduleVerification(c: Client, kind: Kind): Client {
    c.(update := c.update.(attempt := c.update.attempt + 1), kind := kind, timerActive := true)
  }

  function TimerFires(c: Client): (Client, seq<Output>) {
    if !c.timerActive then (c, []) else (Send(c.(timerActive := false), c.kind), [Get(c.kind)])
  }

  function FinishFailure(c: Client, rollbackSucceeded: bool): (Client, seq<Output>) {
    (c.(update := NoUpdate), [ApplyFailed(c.update.channel, rollbackSucceeded)])
  }

  function FirstVerification(c: Client, kind: Kind): Client {
    ScheduleVerification(c.(update := c.update.(attempt := 0)), kind)
  }

  function ProcessFailure(c: Client, kind: Kind): (Client, seq<Output>) {
    match kind
    case FetchOptions => (c, [RequestFailed])
    case FetchCapabilities => (c, [RequestFailed])
    case FetchConfiguration => (c, [RequestFailed])
    // the camera may have taken the write although the request failed
    case PutUpdate => (FirstVerification(c, VerifyUpdate), [])
    case DeleteUpdate => (FirstVerification(c, VerifyUpdate), [])
    case _ => FinishFailure(c, false)
  }

  function ReadConfiguration(document: Option<Json.Value>): Option<Configuration> {
    if document.None? then None else ParseDocument(document.value)
  }

  function Store(c: Client, configuration: Configuration): Client {
    c.(configuration := Some(configuration))
  }

  function ProcessPreflight(c: Client, configuration: Configuration): (Client, seq<Output>) {
    var current := ChannelObject(configuration, c.update.channel);
    if current == map[] || current != c.update.baselineRaw then
      var (next, outputs) := FinishFailure(Store(c, configuration), false);
      (next, [ConfigurationReceived(configuration)] + outputs)
    else if c.update.deletedAreaIndex >= 0 then
      (Send(c, DeleteUpdate), [Delete(c.update.channel, c.update.deletedAreaIndex)])
    else (Send(c, PutUpdate), [Put(PutUpdate, c.update.intended)])
  }

  ghost function ProcessVerifyUpdate(c: Client, configuration: Configuration): (Client, seq<Output>) {
    if ChannelMatches(c.update.intended, configuration) then
      (Store(c, configuration).(update := NoUpdate),
       [ConfigurationReceived(configuration), ApplySucceeded(c.update.channel, configuration)])
    else if c.update.attempt < MAX_ATTEMPTS then (ScheduleVerification(c, VerifyUpdate), [])
    else (Send(c, PutRollback), [Put(PutRollback, c.update.rollback)])
  }

  ghost function ProcessVerifyRollback(c: Client, configuration: Configuration): (Client, seq<Output>) {
    if ChannelMatches(c.update.rollback, configuration) then
      var (next, outputs) := FinishFailure(Store(c, configuration), true);
      (next, [ConfigurationReceived(configuration)] + outputs)
    else if c.update.attempt < MAX_ATTEMPTS then (ScheduleVerification(c, VerifyRollback), [])
    else FinishFailure(c, false)
  }

  ghost function ProcessDocument(c: Client, kind: Kind, configuration: Configuration): (Client, seq<Output>) {
    if kind == FetchConfiguration then (Store(c, configuration), [ConfigurationReceived(configuration)])
    else if ChannelFacts(c, c.update.channel).None? then FinishFailure(c, false)
    else
      match kind
      case PreflightConfiguration => ProcessPreflight(c, configuration)
      case VerifyUpdate => ProcessVerifyUpdate(c, configuration)
      case VerifyRollback => ProcessVerifyRollback(c, configuration)
      case _ => (c, [])
  }

  ghost function ProcessSuccess(c: Client, kind: Kind, reply: Reply): (Client, seq<Output>)
    requires reply.Success?
  {
    match kind
    case FetchOptions =>
      if reply.options.None? then (c, [RequestFailed])
      else (Send(c.(options := reply.options), FetchCapabilities), [OptionsReceived, Get(FetchCapabilities)])
    case FetchCapabilities =>
      if reply.capabilities.None? then (c, [RequestFailed])
      else (Send(c.(capabilities := reply.capabilities), FetchConfiguration), [CapabilitiesReceived, Get(FetchConfiguration)])
    case PutUpdate => (FirstVerification(c, VerifyUpdate), [])
    case DeleteUpdate => (FirstVerification(c, VerifyUpdate), [])
    case PutRollback => (FirstVerification(c, VerifyRollback), [])
    case _ =>
      var configuration := ReadConfiguration(reply.document);
      if configuration.None? then ProcessFailure(c, kind) else ProcessDocument(c, kind, configuration.value)
  }

  ghost function FinishRequest(c: Client, reply: Reply): (Client, seq<Output>) {
    var freed := c.(replyPending := false, kind := NoRequest);
    if !c.replyPending then (freed, [])
    else if reply.Failure? then ProcessFailure(freed, c.kind)
    else ProcessSuccess(freed, c.kind, reply)
  }
}

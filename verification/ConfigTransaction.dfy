/** The client together with a camera that may lose, delay, alter or refuse a write. */
module ConfigTransaction {
  import opened Text
  import opened AreaConfiguration
  import opened AreaPayload
  import opened AreaRoundTrip
  import opened ConfigClient
  import Json

  // ---------- client, camera, and an observer ----------

  /** What an observer of the calls, requests and signals notes about the update under way. */
  datatype Job = Job(
    goal: Goal,
    deletedAreaIndex: int,
    atStart: Option<Json.Value>,
    requests: nat,
    writes: nat,
    sawBaseline: bool)

  datatype Journal = Journal(job: Option<Job>, started: nat, ended: nat)

  /** `stored` is what a read of the camera would return; `None` is not JSON. */
  datatype System = System(client: Client, stored: Option<Json.Value>, journal: Journal)

  datatype Event =
    | Apply(channel: int32, enabled: bool, areas: seq<Area>)
    | DeleteArea(channel: int32, areaIndex: int32)
    | Fetch
    | Timer
    | CameraStores(document: Option<Json.Value>)
    | RequestFails
    | RequestSucceeds(options: Option<seq<ChannelOptions>>, capabilities: Option<seq<Capability>>)

  predicate IsWrite(kind: Kind) {
    kind == PutUpdate || kind == DeleteUpdate || kind == PutRollback
  }

  /** A write is on its way or is being verified, and may still take effect. */
  predicate IsWriting(kind: Kind) {
    IsWrite(kind) || kind == VerifyUpdate || kind == VerifyRollback
  }

  /** Nobody else writes: the camera changes only between a write and the end of its verification,
      at any time and in whatever way. */
  predicate Possible(s: System, e: Event) {
    match e
    case CameraStores(_) => IsWriting(s.client.kind)
    case Timer => s.client.timerActive
    case RequestFails => s.client.replyPending
    case RequestSucceeds(_, _) => s.client.replyPending
    case _ => true
  }

  ghost function Step(s: System, e: Event): (Client, seq<Output>) {
    match e
    case Apply(channel, enabled, areas) => CallApply(s.client, channel, enabled, areas)
    case DeleteArea(channel, areaIndex) => CallDelete(s.client, channel, areaIndex)
    case Fetch => CallFetch(s.client)
    case Timer => TimerFires(s.client)
    case CameraStores(_) => (s.client, [])
    case RequestFails => FinishRequest(s.client, Failure)
    case RequestSucceeds(options, capabilities) =>
      FinishRequest(s.client, Success(options, capabilities, s.stored))
  }

  function GoalOf(c: Client, e: Event): Option<Goal> {
    match e
    case Apply(channel, enabled, areas) => ApplyGoal(c, channel, enabled, areas)
    case DeleteArea(channel, areaIndex) => DeleteGoal(c, channel, areaIndex)
    case _ => None
  }

  predicate IsCall(e: Event) {
    e.Apply? || e.DeleteArea?
  }

  /** A call that is answered at once with a failure, and starts nothing. */
  predicate TurnedDown(c: Client, e: Event) {
    IsCall(e) && GoalOf(c, e) == None
  }

  /** The channel as it would be read from a camera that holds this. */
  function StoredChannel(stored: Option<Json.Value>, channel: int): Json.Fields {
    match ReadConfiguration(stored)
    case None => map[]
    case Some(configuration) => ChannelObject(configuration, channel)
  }

  /** A preflight read that shows the baseline. */
  predicate ReadsBaseline(s: System, e: Event) {
    && e.RequestSucceeds? && s.client.kind == PreflightConfiguration && s.journal.job.Some?
    && StoredChannel(s.stored, s.journal.job.value.goal.channel) == s.journal.job.value.goal.baselineRaw
  }

  function Opened(s: System, e: Event): Journal {
    match GoalOf(s.client, e)
    case None => s.journal
    case Some(goal) =>
      Journal(Some(Job(goal, if e.DeleteArea? then e.areaIndex else -1, s.stored, 0, 0, false)),
              s.journal.started + 1, s.journal.ended)
  }

  function Counted(job: Job, o: Output): Job {
    match o
    case Get(_) => job.(requests := job.requests + 1)
    case Put(_, _) => job.(requests := job.requests + 1, writes := job.writes + 1)
    case Delete(_, _) => job.(requests := job.requests + 1, writes := job.writes + 1)
    case _ => job
  }

  function Noted(j: Journal, o: Output): Journal {
    if j.job.None? then j
    else if o.ApplySucceeded? || o.ApplyFailed? then Journal(None, j.started, j.ended + 1)
    else j.(job := Some(Counted(j.job.value, o)))
  }

  function NotedAll(j: Journal, outputs: seq<Output>): Journal
    decreases |outputs|
  {
    if outputs == [] then j else NotedAll(Noted(j, outputs[0]), outputs[1..])
  }

  function WithBaseline(s: System, e: Event, j: Journal): Journal {
    if j.job.Some? && ReadsBaseline(s, e) then j.(job := Some(j.job.value.(sawBaseline := true))) else j
  }

  /** What the observer has noted after a step; the failure of a call that was turned down is not the job's. */
  function Observed(s: System, e: Event, outputs: seq<Output>): Journal {
    if TurnedDown(s.client, e) then s.journal else NotedAll(WithBaseline(s, e, Opened(s, e)), outputs)
  }

  ghost function Next(s: System, e: Event): System {
    var (client, outputs) := Step(s, e);
    System(client, if e.CameraStores? then e.document else s.stored, Observed(s, e, outputs))
  }

  ghost predicate Runs(s: System, events: seq<Event>)
    decreases |events|
  {
    events == [] || (Possible(s, events[0]) && Runs(Next(s, events[0]), events[1..]))
  }

  ghost function After(s: System, events: seq<Event>): System
    decreases |events|
  {
    if events == [] then s else After(Next(s, events[0]), events[1..])
  }

  // ---------- the invariant ----------

  predicate IsTransaction(kind: Kind) {
    kind == PreflightConfiguration || IsWrite(kind) || kind == VerifyUpdate || kind == VerifyRollback
  }

  predicate Timed(c: Client) {
    && !(c.replyPending && c.timerActive)
    && (c.Busy() <==> c.kind != NoRequest)
    && (c.timerActive ==> c.kind == VerifyUpdate || c.kind == VerifyRollback)
  }

  /** Requests sent so far, phase by phase. */
  predicate InPhase(c: Client, job: Job) {
    var attempt := c.update.attempt;
    var waiting := if c.timerActive then 1 else 0;
    match c.kind
    case PreflightConfiguration => attempt == 0 && job.requests == 1 && job.writes == 0
    case PutUpdate => attempt == 0 && job.requests == 2 && job.writes == 1 && job.deletedAreaIndex == -1
    case DeleteUpdate => attempt == 0 && job.requests == 2 && job.writes == 1 && job.deletedAreaIndex >= 0
    case VerifyUpdate => 1 <= attempt <= MAX_ATTEMPTS && job.requests == 2 + attempt - waiting && job.writes == 1
    case PutRollback => attempt == MAX_ATTEMPTS && job.requests == 6 && job.writes == 2
    case VerifyRollback => 1 <= attempt <= MAX_ATTEMPTS && job.requests == 6 + attempt - waiting && job.writes == 2
    case _ => false
  }

  /** The client pursues exactly the goal of the call. */
  predicate Pursues(c: Client, job: Job) {
    && c.update.channel == job.goal.channel
    && c.update.baselineRaw == job.goal.baselineRaw
    && c.update.intended == IntendedPayload(job.goal)
    && c.update.rollback == RollbackPayload(job.goal)
    && c.update.deletedAreaIndex == job.deletedAreaIndex
    && -1 <= job.deletedAreaIndex
    && CheckedGoal(c, job.goal) == Some(job.goal)
  }

  predicate JobSound(s: System, job: Job) {
    && Pursues(s.client, job) && InPhase(s.client, job)
    && (job.sawBaseline <==> s.client.kind != PreflightConfiguration)
    && (job.writes == 0 ==> s.stored == job.atStart)
  }

  predicate Sound(s: System) {
    && Timed(s.client)
    && (s.journal.job.Some? <==> IsTransaction(s.client.kind))
    && (s.journal.job.None? ==> s.client.update == NoUpdate)
    && (s.journal.job.Some? ==> JobSound(s, s.journal.job.value))
    && s.journal.started == s.journal.ended + if s.journal.job.Some? then 1 else 0
  }

  function Fresh(connectionValid: bool, stored: Option<Json.Value>): System {
    System(Client(connectionValid, NoRequest, false, false, NoUpdate, None, None, None), stored, Journal(None, 0, 0))
  }

  lemma FreshIsSound(connectionValid: bool, stored: Option<Json.Value>)
    ensures Sound(Fresh(connectionValid, stored))
  {
  }

  lemma NotedOne(j: Journal, o: Output)
    ensures NotedAll(j, [o]) == Noted(j, o)
  {
    assert [o][1..] == [];
  }

  lemma NotedTwo(j: Journal, a: Output, b: Output)
    ensures NotedAll(j, [a, b]) == Noted(Noted(j, a), b)
  {
    assert [a, b][1..] == [b];
    NotedOne(Noted(j, a), b);
  }

  // ---------- every event keeps the invariant ----------

  lemma StartedGoal(c: Client, e: Event, goal: Goal)
    requires GoalOf(c, e) == Some(goal)
    ensures !c.Busy() && CheckedGoal(c, goal) == Some(goal)
    ensures (e.Apply? && goal.channel == e.channel) || (e.DeleteArea? && goal.channel == e.channel && e.areaIndex >= 0)
  {
    if e.DeleteArea? {
      DeletedIndexIsValid(c, e);
    }
  }

  /** An accepted call opens a job and sends the preflight read. */
  lemma StartStep(s: System, e: Event, goal: Goal)
    requires GoalOf(s.client, e) == Some(goal) && (e.DeleteArea? || s.client.update == NoUpdate)
    ensures
      var deleted := if e.DeleteArea? then e.areaIndex else -1;
      var update := s.client.update.(channel := goal.channel, baselineRaw := goal.baselineRaw,
                                     intended := IntendedPayload(goal), rollback := RollbackPayload(goal),
                                     deletedAreaIndex := deleted);
      Step(s, e) == (Send(s.client.(update := update), PreflightConfiguration),
                     [ApplyStarted(goal.channel), Get(PreflightConfiguration)])
  {
    StartedGoal(s.client, e, goal);
  }

  lemma StartKeeps(s: System, e: Event, goal: Goal)
    requires Sound(s) && GoalOf(s.client, e) == Some(goal)
    ensures Sound(Next(s, e))
    ensures Next(s, e).journal.job == Some(Job(goal, if e.DeleteArea? then e.areaIndex else -1, s.stored, 1, 0, false))
  {
    StartedGoal(s.client, e, goal);
    StartStep(s, e, goal);
    var j := Opened(s, e);
    NotedTwo(j, ApplyStarted(goal.channel), Get(PreflightConfiguration));
    CheckedStays(s.client, Next(s, e).client, goal);
  }

  lemma CheckedStays(c: Client, next: Client, goal: Goal)
    requires c.options == next.options && c.capabilities == next.capabilities
    ensures CheckedGoal(next, goal) == CheckedGoal(c, goal)
  {
  }

  /** A call that is turned down fails at once, and neither client nor camera nor job change. */
  lemma TurnedDownChangesNothing(s: System, e: Event)
    requires TurnedDown(s.client, e)
    ensures Step(s, e) == (s.client, [ApplyFailed(e.channel, false)])
    ensures Next(s, e) == s
  {
  }

  lemma FetchKeeps(s: System)
    requires Sound(s)
    ensures Sound(Next(s, Fetch))
    ensures Next(s, Fetch).journal == s.journal || s.journal.job.None?
  {
    var (client, outputs) := Step(s, Fetch);
    assert outputs == [outputs[0]];
    NotedOne(s.journal, outputs[0]);
  }

  /** An index that can be deleted is a real one: the baseline with it could be rebuilt. */
  lemma DeletedIndexIsValid(c: Client, e: Event)
    requires e.DeleteArea? && DeleteGoal(c, e.channel, e.areaIndex).Some?
    ensures e.areaIndex >= 0
  {
    var areas := OnChannel(c.configuration.value.areas, e.channel);
    var a :| a in areas && a.areaIndex == e.areaIndex;
    var i :| 0 <= i < |areas| && areas[i] == a;
  }

  lemma TimerKeeps(s: System)
    requires Sound(s) && Possible(s, Timer)
    ensures Sound(Next(s, Timer))
  {
    NotedOne(s.journal, Get(s.client.kind));
  }

  lemma StoreKeeps(s: System, e: Event)
    requires Sound(s) && e.CameraStores? && Possible(s, e)
    ensures Sound(Next(s, e))
  {
  }

  lemma FailureKeeps(s: System)
    requires Sound(s) && Possible(s, RequestFails)
    ensures Sound(Next(s, RequestFails))
  {
    var (client, outputs) := Step(s, RequestFails);
    if outputs != [] {
      NotedOne(s.journal, outputs[0]);
      assert outputs == [outputs[0]];
    }
  }

  lemma FetchedKeeps(s: System, e: Event)
    requires Sound(s) && e.RequestSucceeds? && Possible(s, e) && !IsTransaction(s.client.kind)
    ensures Sound(Next(s, e))
  {
    var (client, outputs) := Step(s, e);
    if |outputs| == 1 {
      assert outputs == [outputs[0]];
      NotedOne(s.journal, outputs[0]);
    } else {
      NotedTwo(s.journal, outputs[0], outputs[1]);
    }
  }

  lemma WrittenKeeps(s: System, e: Event)
    requires Sound(s) && e.RequestSucceeds? && Possible(s, e) && IsWrite(s.client.kind)
    ensures Sound(Next(s, e))
  {
  }

  function Freed(c: Client): Client {
    c.(replyPending := false, kind := NoRequest)
  }

  predicate IsRead(kind: Kind) {
    kind == PreflightConfiguration || kind == VerifyUpdate || kind == VerifyRollback
  }

  /** What a finished read does; options and capability cannot have disappeared. */
  ghost function AfterRead(c: Client, kind: Kind, configuration: Option<Configuration>): (Client, seq<Output>) {
    if configuration.None? then FinishFailure(c, false)
    else if kind == PreflightConfiguration then ProcessPreflight(c, configuration.value)
    else if kind == VerifyUpdate then ProcessVerifyUpdate(c, configuration.value)
    else ProcessVerifyRollback(c, configuration.value)
  }

  lemma ReadStep(s: System, e: Event)
    requires Sound(s) && e.RequestSucceeds? && Possible(s, e) && IsRead(s.client.kind)
    ensures Step(s, e) == AfterRead(Freed(s.client), s.client.kind, ReadConfiguration(s.stored))
  {
    CheckedStays(s.client, Freed(s.client), s.journal.job.value.goal);
  }

  lemma NotedEnd(j: Journal, outputs: seq<Output>)
    requires j.job.Some? && (|outputs| == 1 || (|outputs| == 2 && outputs[0].ConfigurationReceived?))
    requires outputs[|outputs| - 1].ApplyFailed? || outputs[|outputs| - 1].ApplySucceeded?
    ensures NotedAll(j, outputs) == Journal(None, j.started, j.ended + 1)
  {
    if |outputs| == 1 {
      assert outputs == [outputs[0]];
      NotedOne(j, outputs[0]);
    } else {
      assert outputs == [outputs[0], outputs[1]];
      NotedTwo(j, outputs[0], outputs[1]);
    }
  }

  /** A terminal signal closes the job. */
  lemma JobEnds(s: System, e: Event)
    requires Sound(s) && s.journal.job.Some? && (e.RequestSucceeds? || e.RequestFails?) && Possible(s, e)
    requires
      var (client, outputs) := Step(s, e);
      && !client.Busy() && client.kind == NoRequest && client.update == NoUpdate
      && |outputs| > 0 && (outputs[|outputs| - 1].ApplyFailed? || outputs[|outputs| - 1].ApplySucceeded?)
      && (|outputs| == 1 || (|outputs| == 2 && outputs[0].ConfigurationReceived?))
    ensures Sound(Next(s, e))
    ensures Next(s, e).journal == Journal(None, s.journal.started, s.journal.ended + 1)
  {
    NotedEnd(WithBaseline(s, e, s.journal), Step(s, e).1);
  }

  /** A write that the client decides on continues the job. */
  lemma JobWrites(s: System, e: Event, o: Output)
    requires Sound(s) && s.journal.job.Some? && e.RequestSucceeds? && Possible(s, e)
    requires Step(s, e).1 == [o] && (o.Put? || o.Delete?)
    ensures
      var job := WithBaseline(s, e, s.journal).job.value;
      Next(s, e).journal
        == s.journal.(job := Some(job.(requests := job.requests + 1, writes := job.writes + 1)))
  {
    NotedOne(WithBaseline(s, e, s.journal), o);
  }

  lemma PreflightKeeps(s: System, e: Event)
    requires Sound(s) && e.RequestSucceeds? && Possible(s, e) && s.client.kind == PreflightConfiguration
    ensures Sound(Next(s, e))
  {
    ReadStep(s, e);
    var (client, outputs) := Step(s, e);
    if client.update == NoUpdate {
      JobEnds(s, e);
    } else {
      JobWrites(s, e, outputs[0]);
      CheckedStays(s.client, client, s.journal.job.value.goal);
    }
  }

  lemma AgainKeeps(s: System, e: Event)
    requires Sound(s) && e.RequestSucceeds? && Possible(s, e)
    requires s.client.kind == VerifyUpdate || s.client.kind == VerifyRollback
    requires s.client.update.attempt < MAX_ATTEMPTS
    requires Step(s, e) == (ScheduleVerification(Freed(s.client), s.client.kind), [])
    ensures Sound(Next(s, e))
  {
    CheckedStays(s.client, Step(s, e).0, s.journal.job.value.goal);
  }

  lemma VerifyUpdateKeeps(s: System, e: Event)
    requires Sound(s) && e.RequestSucceeds? && Possible(s, e) && s.client.kind == VerifyUpdate
    ensures Sound(Next(s, e))
  {
    ReadStep(s, e);
    var (client, outputs) := Step(s, e);
    if client.update == NoUpdate {
      JobEnds(s, e);
    } else if outputs == [] {
      AgainKeeps(s, e);
    } else {
      JobWrites(s, e, outputs[0]);
      CheckedStays(s.client, client, s.journal.job.value.goal);
    }
  }

  lemma VerifyRollbackKeeps(s: System, e: Event)
    requires Sound(s) && e.RequestSucceeds? && Possible(s, e) && s.client.kind == VerifyRollback
    ensures Sound(Next(s, e))
  {
    ReadStep(s, e);
    if Step(s, e).0.update == NoUpdate {
      JobEnds(s, e);
    } else {
      AgainKeeps(s, e);
    }
  }

  /** Every event keeps the invariant. */
  lemma NextKeeps(s: System, e: Event)
    requires Sound(s) && Possible(s, e)
    ensures Sound(Next(s, e))
  {
    match e {
      case Timer => TimerKeeps(s);
      case CameraStores(_) => StoreKeeps(s, e);
      case RequestFails => FailureKeeps(s);
      case RequestSucceeds(_, _) =>
        if s.client.kind == PreflightConfiguration {
          PreflightKeeps(s, e);
        } else if IsWrite(s.client.kind) {
          WrittenKeeps(s, e);
        } else if s.client.kind == VerifyUpdate {
          VerifyUpdateKeeps(s, e);
        } else if s.client.kind == VerifyRollback {
          VerifyRollbackKeeps(s, e);
        } else {
          FetchedKeeps(s, e);
        }
      case Fetch => FetchKeeps(s);
      case _ =>
        match GoalOf(s.client, e) {
          case None => TurnedDownChangesNothing(s, e);
          case Some(goal) => StartKeeps(s, e, goal);
        }
    }
  }

  /** So does every run, whatever the camera and the network do. */
  lemma {:induction false} EveryRunIsSound(s: System, events: seq<Event>)
    requires Sound(s) && Runs(s, events)
    ensures Sound(After(s, events))
    decreases |events|
  {
    if events != [] {
      NextKeeps(s, events[0]);
      EveryRunIsSound(Next(s, events[0]), events[1..]);
    }
  }
}

/** The fire revision ledger: what one delivery does to the ledgers, to the
    delivery fingerprints and to the alarm shown for a channel. */
module FireLedger {
  import opened Text
  import opened FireEventAdapter
  import Json
  import Seen = SeenEvents

  // ---------- deliveries and their identities ----------

  datatype Sink = RetainedState | LifecycleEvent | ManualOrEvent

  datatype Delivery = Delivery(event: FireEvent, topic: string, retained: bool)
  {
    function Channel(): string { event.channelId }
    function Sink(): Sink { SinkOf(topic, retained) }
    predicate StateOnly() { IsStateOnly(topic, retained) }
    function State(): StateIdentity { StateIdentityOf(event) }
    function Revised(): EventIdentity { EventIdentity(event.revision, State()) }
    function Key(): DeliveryKey { DeliveryKey(Sink(), event.deliveryId, event.revision) }
    function Identity(): DeliveryIdentity { DeliveryIdentity(event.channelId, event.revision, event.payload) }
    predicate Revisioned() { event.revisionPresent }
  }

  function SinkOf(topic: string, retained: bool): Sink {
    if "parking/fire/" <= topic then RetainedState
    else if "parking/v1/events/" <= topic then LifecycleEvent
    else if retained then RetainedState
    else ManualOrEvent
  }

  predicate IsStateOnly(topic: string, retained: bool) {
    retained || "parking/fire/" <= topic
  }

  /** The lifecycle identity of an event: every field but the delivery's own ones. */
  datatype StateIdentity = StateIdentity(
    eventId: string, alarmId: string, action: Action, eventType: string, channelId: string, sourceId: string,
    alarmKind: string, alarmState: string, ackState: string, activePresent: bool, active: bool)

  function StateIdentityOf(e: FireEvent): StateIdentity {
    StateIdentity(e.eventId, e.alarmId, e.action, e.eventType, e.channelId, e.sourceId,
                  e.alarmKind, e.alarmState, e.ackState, e.activePresent, e.active)
  }

  datatype EventIdentity = EventIdentity(revision: nat, state: StateIdentity)
  datatype DeliveryKey = DeliveryKey(sink: Sink, deliveryId: string, revision: nat)
  datatype DeliveryIdentity = DeliveryIdentity(channelId: string, revision: nat, payload: Json.Fields)

  // ---------- the ledgers ----------

  datatype Ledger = Ledger(
    versionedSeen: bool,
    lastApplied: nat,
    state: StateIdentity,
    eventById: map<string, EventIdentity>,
    deliveryIdBySink: map<Sink, string>,
    historyRecorded: bool)

  datatype Book = Book(ledgers: map<string, Ledger>, deliveries: map<DeliveryKey, DeliveryIdentity>)

  datatype Refusal =
    | NotRefused
    | RevisionlessAfterVersioned
    | DeliveryReused
    | EventIdReused
    | RevisionReused
    | SinkRevisionReused

  datatype Verdict = Verdict(accepted: bool, applyState: bool, recordHistory: bool, revisioned: bool, refusal: Refusal)

  function Refuse(revisioned: bool, refusal: Refusal): Verdict {
    Verdict(false, false, false, revisioned, refusal)
  }

  predicate Versioned(book: Book, channel: string) {
    channel in book.ledgers && book.ledgers[channel].versionedSeen
  }

  function DeliveryIdAt(ledger: Ledger, sink: Sink): string {
    if sink in ledger.deliveryIdBySink then ledger.deliveryIdBySink[sink] else ""
  }

  function Register(book: Book, d: Delivery): map<DeliveryKey, DeliveryIdentity> {
    if d.Key() in book.deliveries then book.deliveries else book.deliveries[d.Key() := d.Identity()]
  }

  /** Decides what a delivery may do, and books it when it is to be remembered. */
  function Preflight(book: Book, d: Delivery): (Book, Verdict) {
    if !d.Revisioned() then
      if Versioned(book, d.Channel()) then (book, Refuse(false, RevisionlessAfterVersioned))
      else (book, Verdict(true, true, !d.StateOnly(), false, NotRefused))
    else if d.Key() in book.deliveries && book.deliveries[d.Key()] != d.Identity() then
      (book, Refuse(true, DeliveryReused))
    else if Versioned(book, d.Channel()) then
      var ledger := book.ledgers[d.Channel()];
      if d.event.eventId in ledger.eventById && ledger.eventById[d.event.eventId] != d.Revised() then
        (book, Refuse(true, EventIdReused))
      else if d.event.revision < ledger.lastApplied then
        (book, Verdict(true, false, false, true, NotRefused))
      else if d.event.revision == ledger.lastApplied then
        PreflightAgain(book, d, ledger)
      else PreflightNew(book, d)
    else PreflightNew(book, d)
  }

  /** Another delivery of the revision that is already shown. */
  function PreflightAgain(book: Book, d: Delivery, ledger: Ledger): (Book, Verdict) {
    var known := DeliveryIdAt(ledger, d.Sink());
    if ledger.state != d.State() then (book, Refuse(true, RevisionReused))
    else if known != "" && known != d.event.deliveryId then (book, Refuse(true, SinkRevisionReused))
    else
      var history := !d.StateOnly() && !ledger.historyRecorded;
      var booked := ledger.(
        deliveryIdBySink := if known == "" then ledger.deliveryIdBySink[d.Sink() := d.event.deliveryId]
                            else ledger.deliveryIdBySink,
        historyRecorded := ledger.historyRecorded || history);
      (Book(book.ledgers[d.Channel() := booked], Register(book, d)),
       Verdict(true, false, history, true, NotRefused))
  }

  /** The first delivery of a newer revision. */
  function PreflightNew(book: Book, d: Delivery): (Book, Verdict) {
    var events := if d.Channel() in book.ledgers then book.ledgers[d.Channel()].eventById else map[];
    var ledger := Ledger(true, d.event.revision, d.State(), events[d.event.eventId := d.Revised()],
                         map[d.Sink() := d.event.deliveryId], !d.StateOnly());
    (Book(book.ledgers[d.Channel() := ledger], Register(book, d)),
     Verdict(true, true, !d.StateOnly(), true, NotRefused))
  }

  // ---------- the alarm shown for a channel ----------

  datatype Alarm = Alarm(alarmId: string, alarmState: string, ackState: string, active: bool, acknowledged: bool)

  const NoAlarm := Alarm("", "", "", false, false)

  datatype FireState = FireState(
    book: Book,
    fireChannels: set<string>,
    fireAlarms: map<string, Alarm>,
    ackKeys: set<(string, string)>,
    seen: Seen.Seen)

  datatype Effect =
    | StateChanged
    | ConfirmationRequested(channel: string, alarmId: string)
    | ConfirmationClosed(channel: string)
    | HistoryLogged(id: string, channel: string, action: Action)
    | ContractError(channel: string)
    | ParseError

  function AlarmOn(s: FireState, channel: string): Alarm {
    if channel in s.fireAlarms then s.fireAlarms[channel] else NoAlarm
  }

  /** The id under which an event is logged; older messages may carry none. */
  function HistoryId(e: FireEvent): string {
    if e.eventId == "" then e.channelId + "|" + e.alarmId + "|" + e.eventType + "|" + e.alarmState else e.eventId
  }

  function LogHistory(s: FireState, e: FireEvent): (FireState, seq<Effect>) {
    var (seen, isNew) := Seen.Remember(s.seen, HistoryId(e));
    (s.(seen := seen), if isNew then [HistoryLogged(HistoryId(e), e.channelId, e.action)] else [])
  }

  function MaybeLogHistory(s: FireState, e: FireEvent, record: bool): (FireState, seq<Effect>) {
    if record then LogHistory(s, e) else (s, [])
  }

  /** Shows an alarm, reporting a change only when there is one. */
  function Show(s: FireState, channel: string, alarm: Alarm): (FireState, seq<Effect>) {
    var next := s.(fireChannels := s.fireChannels + {channel},
                   fireAlarms := if AlarmOn(s, channel) != alarm then s.fireAlarms[channel := alarm] else s.fireAlarms);
    (next, if channel !in s.fireChannels || AlarmOn(s, channel) != alarm then [StateChanged] else [])
  }

  function ActivatedAlarm(previous: Alarm, e: FireEvent, revisioned: bool): Alarm {
    if !revisioned && previous.active && previous.acknowledged && (e.alarmId == "" || previous.alarmId == e.alarmId)
    then previous
    else Alarm(e.alarmId, if e.alarmState == "" then "OPEN" else e.alarmState,
               if e.ackState == "" then "unacked" else e.ackState, true, false)
  }

  function Activated(s: FireState, e: FireEvent, revisioned: bool): (FireState, seq<Effect>) {
    var previous := AlarmOn(s, e.channelId);
    var keys := if previous.active && previous.alarmId != e.alarmId
                then s.ackKeys - {(e.channelId, previous.alarmId)} else s.ackKeys;
    var confirm := !previous.active || previous.alarmId != e.alarmId || (revisioned && previous.acknowledged);
    var (shown, changed) := Show(s.(ackKeys := keys), e.channelId, ActivatedAlarm(previous, e, revisioned));
    (shown, changed + if confirm then [ConfirmationRequested(e.channelId, e.alarmId)] else [])
  }

  function AcknowledgedState(s: FireState, e: FireEvent): (FireState, seq<Effect>) {
    var (shown, changed) := Show(s, e.channelId, Alarm(e.alarmId, "ACKNOWLEDGED", "acknowledged", true, true));
    (shown.(ackKeys := s.ackKeys - {(e.channelId, e.alarmId)}), [ConfirmationClosed(e.channelId)] + changed)
  }

  function ClearedState(s: FireState, e: FireEvent): (FireState, seq<Effect>) {
    var previous := AlarmOn(s, e.channelId);
    var keys := if previous.alarmId != "" then s.ackKeys - {(e.channelId, previous.alarmId)} else s.ackKeys;
    var changed := e.channelId in s.fireChannels || e.channelId in s.fireAlarms;
    (s.(ackKeys := keys - {(e.channelId, e.alarmId)},
        fireChannels := s.fireChannels - {e.channelId},
        fireAlarms := s.fireAlarms - {e.channelId}),
     [ConfirmationClosed(e.channelId)] + if changed then [StateChanged] else [])
  }

  /** An unversioned acknowledgement or clear must name the alarm that is shown. */
  predicate MismatchesShownAlarm(s: FireState, d: Delivery) {
    var previous := AlarmOn(s, d.Channel());
    match d.event.action
    case Acknowledge =>
      (!d.retained && !previous.active) || (previous.active && previous.alarmId != d.event.alarmId)
    case Clear => previous.active && previous.alarmId != d.event.alarmId
    case _ => false
  }

  function ApplyAction(s: FireState, e: FireEvent, revisioned: bool): (FireState, seq<Effect>) {
    match e.action
    case Activate => Activated(s, e, revisioned)
    case Acknowledge => AcknowledgedState(s, e)
    case Clear => ClearedState(s, e)
    case _ => (s, [])
  }

  /** What a decided delivery does to the alarm and to the event log. */
  function Act(booked: FireState, d: Delivery, verdict: Verdict): (FireState, seq<Effect>) {
    if !verdict.accepted then (booked, [ContractError(d.Channel())])
    else if !verdict.applyState then MaybeLogHistory(booked, d.event, verdict.recordHistory)
    else if !verdict.revisioned && MismatchesShownAlarm(booked, d) then (booked, [ContractError(d.Channel())])
    else
      var (applied, effects) := ApplyAction(booked, d.event, verdict.revisioned);
      var (logged, history) := MaybeLogHistory(applied, d.event, verdict.recordHistory);
      (logged, effects + history)
  }

  /** One delivery, from admission to the alarm and the event log. */
  function Deliver(s: FireState, d: Delivery): (FireState, seq<Effect>) {
    var (book, verdict) := Preflight(s.book, d);
    Act(s.(book := book), d, verdict)
  }

  // ---------- runs ----------

  function Run(s: FireState, ds: seq<Delivery>): FireState {
    if ds == [] then s else Deliver(Run(s, ds[..|ds| - 1]), ds[|ds| - 1]).0
  }

  function Verdicts(s: FireState, d: Delivery): Verdict {
    Preflight(s.book, d).1
  }

  lemma BookAfter(s: FireState, d: Delivery)
    ensures Deliver(s, d).0.book == Preflight(s.book, d).0
  {
  }

  lemma PreflightKeepsOtherLedgers(book: Book, d: Delivery, channel: string)
    requires channel != d.Channel()
    ensures channel in Preflight(book, d).0.ledgers <==> channel in book.ledgers
    ensures channel in book.ledgers ==> Preflight(book, d).0.ledgers[channel] == book.ledgers[channel]
  {
  }

  lemma ActionKeepsOtherAlarms(s: FireState, e: FireEvent, revisioned: bool, channel: string)
    requires channel != e.channelId
    ensures AlarmOn(ApplyAction(s, e, revisioned).0, channel) == AlarmOn(s, channel)
    ensures channel in ApplyAction(s, e, revisioned).0.fireChannels <==> channel in s.fireChannels
  {
  }

  /** Only the channel of the delivery is touched. */
  lemma OtherChannelsAreUntouched(s: FireState, d: Delivery, channel: string)
    requires channel != d.Channel()
    ensures AlarmOn(Deliver(s, d).0, channel) == AlarmOn(s, channel)
    ensures channel in Deliver(s, d).0.fireChannels <==> channel in s.fireChannels
    ensures channel in Deliver(s, d).0.book.ledgers <==> channel in s.book.ledgers
    ensures channel in s.book.ledgers ==> Deliver(s, d).0.book.ledgers[channel] == s.book.ledgers[channel]
  {
    BookAfter(s, d);
    PreflightKeepsOtherLedgers(s.book, d, channel);
    var (book, verdict) := Preflight(s.book, d);
    ActionKeepsOtherAlarms(s.(book := book), d.event, verdict.revisioned, channel);
    DeliverShows(s, d);
  }

  /** The alarm part of a delivery: nothing, or the action on the booked state. */
  lemma DeliverShows(s: FireState, d: Delivery)
    ensures
      var next := Deliver(s, d).0;
      var (book, verdict) := Preflight(s.book, d);
      var booked := s.(book := book);
      if verdict.applyState && (verdict.revisioned || !MismatchesShownAlarm(booked, d)) then
        var applied := ApplyAction(booked, d.event, verdict.revisioned).0;
        next.fireChannels == applied.fireChannels && next.fireAlarms == applied.fireAlarms
      else
        next.fireChannels == s.fireChannels && next.fireAlarms == s.fireAlarms
  {
  }
}

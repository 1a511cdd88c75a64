/** The controller's fire handling: fields updated in place by each message,
    tied method by method to the ledger functions. */
module FireController {
  import opened Text
  import opened FireEventAdapter
  import opened FireLedger
  import opened FireSafety
  import Json
  import Seen = SeenEvents

  class ParkingController {
    var ledgers: map<string, Ledger>
    var deliveryFingerprints: map<DeliveryKey, DeliveryIdentity>
    var fireChannels: set<string>
    var fireAlarms: map<string, Alarm>
    var fireAckCommandKeys: set<(string, string)>
    var seenEventIds: set<string>
    var seenEventOrder: seq<string>
    var effects: seq<Effect>

    ghost function State(): FireState
      reads this
    {
      FireState(Book(ledgers, deliveryFingerprints), fireChannels, fireAlarms, fireAckCommandKeys,
                Seen.Seen(seenEventIds, seenEventOrder))
    }

    constructor ()
      ensures State() == Initial && effects == []
    {
      ledgers, deliveryFingerprints := map[], map[];
      fireChannels, fireAlarms, fireAckCommandKeys := {}, map[], {};
      seenEventIds, seenEventOrder := {}, [];
      effects := [];
    }

    method RememberServerEventId(id: string) returns (isNew: bool)
      modifies `seenEventIds, `seenEventOrder
      ensures (State().seen, isNew) == Seen.Remember(old(State().seen), id)
    {
      if id == "" {
        return true;
      }
      if id in seenEventIds {
        return false;
      }
      seenEventIds := seenEventIds + {id};
      seenEventOrder := seenEventOrder + [id];
      ghost var grown := Seen.Seen(seenEventIds, seenEventOrder);
      while |seenEventOrder| > Seen.SEEN_EVENT_LIMIT
        invariant Seen.Trim(Seen.Seen(seenEventIds, seenEventOrder)) == Seen.Trim(grown)
        decreases |seenEventOrder|
      {
        seenEventIds := seenEventIds - {seenEventOrder[0]};
        seenEventOrder := seenEventOrder[1..];
      }
      return true;
    }

    /** Admission of one delivery against the ledgers and the fingerprints. */
    method PreflightFireEvent(event: FireEvent, topic: string, retained: bool) returns (verdict: Verdict)
      modifies `ledgers, `deliveryFingerprints
      ensures (State().book, verdict) == Preflight(old(State().book), Delivery(event, topic, retained))
    {
      var d := Delivery(event, topic, retained);
      var stateOnly := IsStateOnly(topic, retained);
      var channel := event.channelId;
      if !event.revisionPresent {
        if channel in ledgers && ledgers[channel].versionedSeen {
          return Refuse(false, RevisionlessAfterVersioned);
        }
        return Verdict(true, true, !stateOnly, false, NotRefused);
      }
      var key := d.Key();
      var registered := key in deliveryFingerprints;
      if registered && deliveryFingerprints[key] != d.Identity() {
        return Refuse(true, DeliveryReused);
      }
      if channel in ledgers && ledgers[channel].versionedSeen {
        var ledger := ledgers[channel];
        if event.eventId in ledger.eventById && ledger.eventById[event.eventId] != d.Revised() {
          return Refuse(true, EventIdReused);
        }
        if event.revision < ledger.lastApplied {
          return Verdict(true, false, false, true, NotRefused);
        }
        if event.revision == ledger.lastApplied {
          if ledger.state != d.State() {
            return Refuse(true, RevisionReused);
          }
          var known := DeliveryIdAt(ledger, d.Sink());
          if known != "" && known != event.deliveryId {
            return Refuse(true, SinkRevisionReused);
          }
          if known == "" {
            ledger := ledger.(deliveryIdBySink := ledger.deliveryIdBySink[d.Sink() := event.deliveryId]);
          }
          if !registered {
            deliveryFingerprints := deliveryFingerprints[key := d.Identity()];
          }
          var recordHistory := !stateOnly && !ledger.historyRecorded;
          if recordHistory {
            ledger := ledger.(historyRecorded := true);
          }
          ledgers := ledgers[channel := ledger];
          return Verdict(true, false, recordHistory, true, NotRefused);
        }
      }
      var events := if channel in ledgers then ledgers[channel].eventById else map[];
      ledgers := ledgers[channel := Ledger(true, event.revision, d.State(), events[event.eventId := d.Revised()],
                                           map[d.Sink() := event.deliveryId], !stateOnly)];
      if !registered {
        deliveryFingerprints := deliveryFingerprints[key := d.Identity()];
      }
      return Verdict(true, true, !stateOnly, true, NotRefused);
    }

    method RecordChannelFireEvent(event: FireEvent)
      modifies `seenEventIds, `seenEventOrder, `effects
      ensures State() == LogHistory(old(State()), event).0
      ensures effects == old(effects) + LogHistory(old(State()), event).1
    {
      var isNew := RememberServerEventId(HistoryId(event));
      if !isNew {
        return;
      }
      effects := effects + [HistoryLogged(HistoryId(event), event.channelId, event.action)];
    }

    method ShowAlarm(channel: string, updated: Alarm) returns (changed: bool)
      modifies `fireChannels, `fireAlarms
      ensures (State(), if changed then [StateChanged] else []) == Show(old(State()), channel, updated)
    {
      changed := false;
      var previous := if channel in fireAlarms then fireAlarms[channel] else NoAlarm;
      if channel !in fireChannels {
        fireChannels := fireChannels + {channel};
        changed := true;
      }
      if previous != updated {
        fireAlarms := fireAlarms[channel := updated];
        changed := true;
      }
      assert fireChannels == old(fireChannels) + {channel};
    }

    method Activate(event: FireEvent, revisioned: bool)
      modifies `fireChannels, `fireAlarms, `fireAckCommandKeys, `effects
      ensures State() == Activated(old(State()), event, revisioned).0
      ensures effects == old(effects) + Activated(old(State()), event, revisioned).1
    {
      var channel := event.channelId;
      var previous := if channel in fireAlarms then fireAlarms[channel] else NoAlarm;
      if previous.active && previous.alarmId != event.alarmId {
        fireAckCommandKeys := fireAckCommandKeys - {(channel, previous.alarmId)};
      }
      var confirm := !previous.active || previous.alarmId != event.alarmId || (revisioned && previous.acknowledged);
      var updated := AlarmAfter(previous, event, revisioned);
      ShowAndReport(channel, updated);
      if confirm {
        effects := effects + [ConfirmationRequested(channel, event.alarmId)];
      }
    }

    /** The alarm to show: an acknowledged one that is merely repeated stays as it is. */
    method AlarmAfter(previous: Alarm, event: FireEvent, revisioned: bool) returns (updated: Alarm)
      ensures updated == ActivatedAlarm(previous, event, revisioned)
    {
      updated := Alarm(event.alarmId, if event.alarmState == "" then "OPEN" else event.alarmState,
                       if event.ackState == "" then "unacked" else event.ackState, true, false);
      if !revisioned && previous.active && previous.acknowledged
         && (event.alarmId == "" || previous.alarmId == event.alarmId) {
        updated := previous;
      }
    }

    method ShowAndReport(channel: string, updated: Alarm)
      modifies `fireChannels, `fireAlarms, `effects
      ensures State() == Show(old(State()), channel, updated).0
      ensures effects == old(effects) + Show(old(State()), channel, updated).1
    {
      var changed := ShowAlarm(channel, updated);
      if changed {
        effects := effects + [StateChanged];
      }
    }

    method AcknowledgeAlarm(event: FireEvent)
      modifies `fireChannels, `fireAlarms, `fireAckCommandKeys, `effects
      ensures State() == AcknowledgedState(old(State()), event).0
      ensures effects == old(effects) + AcknowledgedState(old(State()), event).1
    {
      var changed := ShowAlarm(event.channelId, Alarm(event.alarmId, "ACKNOWLEDGED", "acknowledged", true, true));
      fireAckCommandKeys := fireAckCommandKeys - {(event.channelId, event.alarmId)};
      effects := effects + [ConfirmationClosed(event.channelId)];
      if changed {
        effects := effects + [StateChanged];
      }
    }

    method ClearAlarm(event: FireEvent)
      modifies `fireChannels, `fireAlarms, `fireAckCommandKeys, `effects
      ensures State() == ClearedState(old(State()), event).0
      ensures effects == old(effects) + ClearedState(old(State()), event).1
    {
      var channel := event.channelId;
      var previous := if channel in fireAlarms then fireAlarms[channel] else NoAlarm;
      if previous.alarmId != "" {
        fireAckCommandKeys := fireAckCommandKeys - {(channel, previous.alarmId)};
      }
      fireAckCommandKeys := fireAckCommandKeys - {(channel, event.alarmId)};
      var changed := channel in fireChannels || channel in fireAlarms;
      fireChannels := fireChannels - {channel};
      fireAlarms := fireAlarms - {channel};
      effects := effects + [ConfirmationClosed(channel)];
      if changed {
        effects := effects + [StateChanged];
      }
    }

    method ApplyChannelFireEvent(event: FireEvent, topic: string, retained: bool)
      requires IsFireAction(event.action)
      modifies this
      ensures State() == Deliver(old(State()), Delivery(event, topic, retained)).0
      ensures effects == old(effects) + Deliver(old(State()), Delivery(event, topic, retained)).1
    {
      var verdict := PreflightFireEvent(event, topic, retained);
      ActOnVerdict(event, topic, retained, verdict);
    }

    /** The part of the method above that follows the verdict. */
    method ActOnVerdict(event: FireEvent, topic: string, retained: bool, verdict: Verdict)
      requires IsFireAction(event.action)
      modifies `fireChannels, `fireAlarms, `fireAckCommandKeys, `seenEventIds, `seenEventOrder, `effects
      ensures State() == Act(old(State()), Delivery(event, topic, retained), verdict).0
      ensures effects == old(effects) + Act(old(State()), Delivery(event, topic, retained), verdict).1
    {
      if !verdict.accepted {
        effects := effects + [ContractError(event.channelId)];
        return;
      }
      if !verdict.applyState {
        if verdict.recordHistory {
          RecordChannelFireEvent(event);
        }
        return;
      }
      var previous := if event.channelId in fireAlarms then fireAlarms[event.channelId] else NoAlarm;
      var named := previous.alarmId == event.alarmId;
      if !verdict.revisioned
         && ((event.action == FireEventAdapter.Acknowledge && ((!retained && !previous.active) || (previous.active && !named)))
             || (event.action == FireEventAdapter.Clear && previous.active && !named)) {
        effects := effects + [ContractError(event.channelId)];
        return;
      }
      ChangeAlarm(event, verdict.revisioned);
      if verdict.recordHistory {
        RecordChannelFireEvent(event);
      }
    }

    method ChangeAlarm(event: FireEvent, revisioned: bool)
      requires IsFireAction(event.action)
      modifies `fireChannels, `fireAlarms, `fireAckCommandKeys, `effects
      ensures State() == ApplyAction(old(State()), event, revisioned).0
      ensures effects == old(effects) + ApplyAction(old(State()), event, revisioned).1
    {
      match event.action {
        case Activate => Activate(event, revisioned);
        case Acknowledge => AcknowledgeAlarm(event);
        case Clear => ClearAlarm(event);
      }
    }

    /** A message from the broker: decoding, routing by topic, then delivery. */
    method HandleMqttMessage(topic: string, message: Option<Json.Fields>, retained: bool)
      modifies this
      ensures State() == Receive(old(State()), Message(topic, message, retained)).0
      ensures effects == old(effects) + Receive(old(State()), Message(topic, message, retained)).1
    {
      var m := Message(topic, message, retained);
      var route := Route(m);
      if route.Fire? {
        RoutedEventsAreValidated(m);
      }
      FollowRoute(route);
    }

    method FollowRoute(route: Routing)
      requires route.Fire? ==> IsFireAction(route.delivery.event.action)
      modifies this
      ensures State() == Follow(old(State()), route).0
      ensures effects == old(effects) + Follow(old(State()), route).1
    {
      if route.Rejected? {
        effects := effects + [route.report];
      } else if route.Fire? {
        ApplyChannelFireEvent(route.delivery.event, route.delivery.topic, route.delivery.retained);
      }
    }
  }

  const Initial := FireState(Book(map[], map[]), {}, map[], {}, Seen.Nothing)

  // ---------- messages from the broker ----------

  /** `None` is a payload that is not a JSON object. */
  datatype Message = Message(topic: string, fields: Option<Json.Fields>, retained: bool)

  /** The camera channel a topic ends in, or the empty text: the letters CH and
      a number from 1 to 4, with any number of leading zeros. */
  function TopicChannel(topic: string): (channel: string)
    ensures channel == "" || IsChannelId(channel)
  {
    var s := Upper(Trim(LastSection(topic, '/')));
    if !("CH" <= s) then ""
    else
      var digits := Trim(s[2..]);
      var number := if "+" <= digits then digits[1..] else digits;
      if number == "" || !AllDigits(number) then ""
      else
        var n := ParseDecimal(number);
        if 1 <= n <= 4 then "CH" + [DigitChar(n)] else ""
  }

  datatype Routing = Rejected(report: Effect) | Ignored | Fire(delivery: Delivery)

  /** The topic rules for a decoded message; messages about parking slots are not fire messages. */
  function RouteEvent(event: FireEvent, topic: string, topicChannel: string, retained: bool): Routing {
    if event.action == Invalid then Rejected(ContractError(if event.channelId == "" then "SYSTEM" else event.channelId))
    else if IsFireAction(event.action) then
      // only the two fire topics of the event's own channel may carry fire events
      if ("parking/fire/" <= topic || "parking/v1/events/" <= topic) && topicChannel == event.channelId
      then Fire(Delivery(event, topic, retained))
      else Rejected(ContractError(event.channelId))
    else if "parking/fire/" <= topic then Rejected(ContractError("SYSTEM"))
    else Ignored
  }

  function Route(m: Message): Routing {
    if m.fields == None then Rejected(ParseError)
    else RouteEvent(Parse(m.fields.value), m.topic, TopicChannel(m.topic), m.retained)
  }

  function Follow(s: FireState, route: Routing): (FireState, seq<Effect>) {
    match route
    case Rejected(report) => (s, [report])
    case Ignored => (s, [])
    case Fire(d) => Deliver(s, d)
  }

  function Receive(s: FireState, m: Message): (FireState, seq<Effect>) {
    Follow(s, Route(m))
  }

  /** What reaches the ledger is valid and came in on a topic of its own channel. */
  lemma RoutedEventsAreValidated(m: Message)
    requires Route(m).Fire?
    ensures Validated(Route(m).delivery.event)
    ensures Route(m).delivery.topic == m.topic && Route(m).delivery.retained == m.retained
    ensures TopicChannel(m.topic) == Route(m).delivery.event.channelId
  {
    RoutedEvent(Parse(m.fields.value), m.topic, TopicChannel(m.topic), m.retained);
    ParsedEventsAreValidated(m.fields.value);
  }

  lemma RoutedEvent(event: FireEvent, topic: string, topicChannel: string, retained: bool)
    requires RouteEvent(event, topic, topicChannel, retained).Fire?
    ensures RouteEvent(event, topic, topicChannel, retained) == Fire(Delivery(event, topic, retained))
    ensures IsFireAction(event.action) && topicChannel == event.channelId
  {
  }

  function ReceiveAll(s: FireState, ms: seq<Message>): FireState {
    if ms == [] then s else Receive(ReceiveAll(s, ms[..|ms| - 1]), ms[|ms| - 1]).0
  }

  /** Whatever the broker sends, the alarms stay sound, the ledgers well kept and
      the memory of logged events well formed. */
  lemma {:induction false} EveryInboxIsSafe(ms: seq<Message>)
    ensures AlarmsAreSound(ReceiveAll(Initial, ms))
    ensures WellKept(ReceiveAll(Initial, ms).book)
    ensures Seen.Valid(ReceiveAll(Initial, ms).seen)
  {
    if ms != [] {
      var before := ReceiveAll(Initial, ms[..|ms| - 1]);
      EveryInboxIsSafe(ms[..|ms| - 1]);
      ReceiveIsSafe(before, ms[|ms| - 1]);
    }
  }

  lemma ReceiveIsSafe(s: FireState, m: Message)
    requires AlarmsAreSound(s) && WellKept(s.book) && Seen.Valid(s.seen)
    ensures AlarmsAreSound(Receive(s, m).0)
    ensures WellKept(Receive(s, m).0.book)
    ensures Seen.Valid(Receive(s, m).0.seen)
  {
    if Route(m).Fire? {
      RoutedEventsAreValidated(m);
      DeliverIsSafe(s, Route(m).delivery);
    }
  }

  lemma DeliverIsSafe(s: FireState, d: Delivery)
    requires AlarmsAreSound(s) && WellKept(s.book) && Seen.Valid(s.seen) && Validated(d.event)
    ensures AlarmsAreSound(Deliver(s, d).0)
    ensures WellKept(Deliver(s, d).0.book)
    ensures Seen.Valid(Deliver(s, d).0.seen)
  {
    DeliveryKeepsAlarmsSound(s, d);
    BookAfter(s, d);
    PreflightKeepsBook(s.book, d);
    Seen.RememberKeepsValid(s.seen, HistoryId(d.event));
  }

  // ---------- the textual delivery key ----------

  const SEPARATOR: char := 0x1f as char

  function SinkName(sink: Sink): (name: string)
    ensures SEPARATOR !in name
  {
    match sink
    case RetainedState => "RETAINED_STATE"
    case LifecycleEvent => "LIFECYCLE_EVENT"
    case ManualOrEvent => "MANUAL_OR_EVENT"
  }

  function KeyText(key: DeliveryKey): string {
    SinkName(key.sink) + [SEPARATOR] + key.deliveryId + [SEPARATOR] + Decimal(key.revision)
  }

  lemma FirstSeparator(prefix: string, rest: string)
    requires SEPARATOR !in prefix
    ensures FirstIndex(prefix + [SEPARATOR] + rest, SEPARATOR) == |prefix|
  {
    var s := prefix + [SEPARATOR] + rest;
    assert forall k :: 0 <= k < |prefix| ==> s[k] == prefix[k] && prefix[k] in prefix;
    assert s[|prefix|] == SEPARATOR;
  }

  /** The text in front of the first separator is fixed when it holds no separator itself. */
  lemma SameHeads(a: string, x: string, b: string, y: string, s: string)
    requires SEPARATOR !in a && SEPARATOR !in b
    requires s == a + [SEPARATOR] + x == b + [SEPARATOR] + y
    ensures a == b && x == y
  {
    FirstSeparator(a, x);
    FirstSeparator(b, y);
    assert a == s[..|a|] && b == s[..|a|];
    assert x == s[|a| + 1..] && y == s[|a| + 1..];
  }

  /** The text in front of the last separator is fixed when no separator follows it. */
  lemma LastSeparator(a: string, x: string, b: string, y: string)
    requires a + [SEPARATOR] + x == b + [SEPARATOR] + y
    requires AllDigits(x) && AllDigits(y)
    ensures a == b && x == y
  {
    var s := a + [SEPARATOR] + x;
    assert s[|a|] == SEPARATOR && s[|b|] == SEPARATOR;
    assert forall k :: |a| < k < |s| ==> s[k] == x[k - |a| - 1] && IsDigit(s[k]);
    assert forall k :: |b| < k < |s| ==> s[k] == y[k - |b| - 1] && IsDigit(s[k]);
    assert |a| == |b|;
    assert a == s[..|a|] && b == s[..|b|];
    assert x == s[|a| + 1..] && y == s[|b| + 1..];
  }

  /** The textual key identifies sink, delivery id and revision even when the
      delivery id contains the separator itself. */
  lemma KeyTextIsInjective(k: DeliveryKey, l: DeliveryKey)
    requires KeyText(k) == KeyText(l)
    ensures k == l
  {
    var kDigits, lDigits := Decimal(k.revision), Decimal(l.revision);
    SameHeads(SinkName(k.sink), k.deliveryId + [SEPARATOR] + kDigits,
              SinkName(l.sink), l.deliveryId + [SEPARATOR] + lDigits, KeyText(k));
    SinkNamesDiffer(k.sink, l.sink);
    LastSeparator(k.deliveryId, kDigits, l.deliveryId, lDigits);
    DecimalIsInjective(k.revision, l.revision);
  }

  lemma SinkNamesDiffer(a: Sink, b: Sink)
    requires SinkName(a) == SinkName(b)
    ensures a == b
  {
    assert SinkName(RetainedState)[0] == 'R' && SinkName(LifecycleEvent)[0] == 'L' && SinkName(ManualOrEvent)[0] == 'M';
  }
}

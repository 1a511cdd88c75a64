/** Fire messages on the wire: which key each field of an event comes from, and
    which messages are the three kinds of fire message. */
module FireWire {
  import opened Text
  import opened FireEventAdapter
  import Json

  // ---------- the keys ----------

  datatype Key =
    | EventIdKey | DeliveryIdKey | AlarmIdKey | SourceIdKey | ChannelKey
    | TypeKey | KindKey | AlarmKey | StateKey | AckKey | ScopeKey
    | ActiveKey | RevisionKey

  function Name(k: Key): string {
    match k
    case EventIdKey => "event_id"
    case DeliveryIdKey => "delivery_id"
    case AlarmIdKey => "alarm_id"
    case SourceIdKey => "source_id"
    case ChannelKey => "channel_id"
    case TypeKey => "event_type"
    case KindKey => "alarm_kind"
    case AlarmKey => "alarm"
    case StateKey => "alarm_state"
    case AckKey => "ack_state"
    case ScopeKey => "scope"
    case ActiveKey => "active"
    case RevisionKey => "fire_revision"
  }

  function KeyOf(name: string): Option<Key> {
    if |name| == 5 then if name == "alarm" then Some(AlarmKey) else if name == "scope" then Some(ScopeKey) else None
    else if |name| == 6 then if name == "active" then Some(ActiveKey) else None
    else if |name| == 8 then if name == "event_id" then Some(EventIdKey) else if name == "alarm_id" then Some(AlarmIdKey) else None
    else if |name| == 9 then if name == "source_id" then Some(SourceIdKey) else if name == "ack_state" then Some(AckKey) else None
    else if |name| == 10 then
      if name == "channel_id" then Some(ChannelKey)
      else if name == "event_type" then Some(TypeKey)
      else if name == "alarm_kind" then Some(KindKey) else None
    else if name == "delivery_id" then Some(DeliveryIdKey)
    else if name == "alarm_state" then Some(StateKey)
    else if name == "fire_revision" then Some(RevisionKey)
    else None
  }

  lemma KeyOfName(k: Key)
    ensures KeyOf(Name(k)) == Some(k)
  {
    match k
    case EventIdKey => assert "event_id"[0] == 'e';
    case AlarmIdKey => assert "alarm_id"[0] == 'a' && "event_id"[0] == 'e';
    case SourceIdKey => assert "source_id"[0] == 's';
    case AckKey => assert "ack_state"[0] == 'a' && "source_id"[0] == 's';
    case ChannelKey => assert "channel_id"[0] == 'c';
    case TypeKey => assert "event_type"[0] == 'e' && "channel_id"[0] == 'c';
    case KindKey => assert "alarm_kind"[0] == 'a' && "channel_id"[0] == 'c' && "event_type"[0] == 'e';
    case ScopeKey => assert "scope"[0] == 's' && "alarm"[0] == 'a';
    case StateKey => assert "alarm_state"[0] == 'a' && "delivery_id"[0] == 'd';
    case _ =>
  }

  const NAMES: set<string> := {
    "event_id", "delivery_id", "alarm_id", "source_id", "channel_id", "event_type", "alarm_kind", "alarm",
    "alarm_state", "ack_state", "scope", "active", "fire_revision" }

  // ---------- writing an event ----------

  function ValueAt(e: FireEvent, k: Key): Option<Json.Value> {
    match k
    case EventIdKey => Some(Json.String(e.eventId))
    case DeliveryIdKey => if e.revisionPresent then Some(Json.String(e.deliveryId)) else None
    case AlarmIdKey => Some(Json.String(e.alarmId))
    case SourceIdKey => Some(Json.String(e.sourceId))
    case ChannelKey => Some(Json.String(e.channelId))
    case TypeKey => Some(Json.String(e.eventType))
    case KindKey => Some(Json.String(e.alarmKind))
    case AlarmKey => if e.action == Clear then None else Some(Json.String("FIRE_SUSPECTED"))
    case StateKey => Some(Json.String(e.alarmState))
    case AckKey => Some(Json.String(e.ackState))
    case ScopeKey => Some(Json.String(e.scope))
    case ActiveKey => Some(Json.Bool(e.active))
    case RevisionKey => if e.revisionPresent then Some(Json.Number(e.revision as real)) else None
  }

  /** Every field under its own key. */
  function Encode(e: FireEvent): Json.Fields {
    map name | name in NAMES && KeyOf(name).Some? && ValueAt(e, KeyOf(name).value).Some? ::
      ValueAt(e, KeyOf(name).value).value
  }

  lemma NameIsListed(k: Key)
    ensures Name(k) in NAMES
  {
  }

  lemma EncodedAt(e: FireEvent, k: Key)
    ensures Json.Get(Encode(e), Name(k)) == ValueAt(e, k)
  {
    KeyOfName(k);
    NameIsListed(k);
  }

  predicate IsUpper(text: string) {
    IsTrimmed(text) && Upper(text) == text
  }

  predicate IsLower(text: string) {
    IsTrimmed(text) && Lower(text) == text
  }

  /** An event as a fire message can carry it: valid, its texts in normal form, and its type that of its action. */
  predicate OnTheWire(e: FireEvent) {
    && Validated(e) && e.activePresent
    && IsTrimmed(e.eventId) && IsTrimmed(e.deliveryId) && IsTrimmed(e.alarmId) && IsTrimmed(e.sourceId)
    && IsUpper(e.eventType) && IsUpper(e.alarmKind) && IsUpper(e.alarmState) && IsUpper(e.scope) && IsLower(e.ackState)
    && (e.scope == "" || e.scope == "CAMERA_CHANNEL")
    && (e.revisionPresent || (e.revision == 0 && e.deliveryId == ""))
    && (match e.action
        case Activate => e.eventType == "FIRE_SUSPECTED"
        case Acknowledge => e.eventType == "FIRE_ACKNOWLEDGED" || e.eventType == "FIRE_ALARM_ACK"
        case _ => e.eventType == "FIRE_CLEARED"
                  && (e.alarmKind == "" || e.alarmKind == "NONE" || e.alarmKind == "FIRE_SUSPECTED"))
  }

  // ---------- the round trip ----------

  /** The message holds each field of the event under its key; what it holds under other keys is free. */
  ghost predicate Carries(m: Json.Fields, e: FireEvent) {
    forall k: Key :: Json.Get(m, Name(k)) == ValueAt(e, k)
  }

  lemma EncodedCarries(e: FireEvent)
    ensures Carries(Encode(e), e)
  {
    forall k: Key
      ensures Json.Get(Encode(e), Name(k)) == ValueAt(e, k)
    {
      EncodedAt(e, k);
    }
  }

  lemma CarriedText(m: Json.Fields, e: FireEvent, k: Key, text: string)
    requires Carries(m, e) && ValueAt(e, k) == Some(Json.String(text)) && IsTrimmed(text)
    ensures TextField(m, Name(k)) == text
  {
    TrimmedStays(text);
  }

  lemma CarriedIds(m: Json.Fields, e: FireEvent)
    requires Carries(m, e) && OnTheWire(e)
    ensures TextField(m, "event_id") == e.eventId
    ensures TextField(m, "alarm_id") == e.alarmId
    ensures TextField(m, "source_id") == e.sourceId
  {
    CarriedText(m, e, EventIdKey, e.eventId);
    CarriedText(m, e, AlarmIdKey, e.alarmId);
    CarriedText(m, e, SourceIdKey, e.sourceId);
  }

  lemma CarriedNames(m: Json.Fields, e: FireEvent)
    requires Carries(m, e) && OnTheWire(e)
    ensures UpperField(m, "event_type") == e.eventType
    ensures UpperField(m, "alarm_kind") == e.alarmKind
    ensures UpperField(m, "alarm_state") == e.alarmState
    ensures UpperField(m, "scope") == e.scope
    ensures Lower(TextField(m, "ack_state")) == e.ackState
  {
    CarriedText(m, e, TypeKey, e.eventType);
    CarriedText(m, e, KindKey, e.alarmKind);
    CarriedText(m, e, StateKey, e.alarmState);
    CarriedText(m, e, ScopeKey, e.scope);
    CarriedText(m, e, AckKey, e.ackState);
  }

  lemma SuspicionIsNormal()
    ensures IsTrimmed("FIRE_SUSPECTED") && Upper("FIRE_SUSPECTED") == "FIRE_SUSPECTED"
  {
  }

  lemma CarriedAlarm(m: Json.Fields, e: FireEvent)
    requires Carries(m, e)
    ensures UpperField(m, "alarm") == if e.action == Clear then "" else "FIRE_SUSPECTED"
  {
    assert Name(AlarmKey) == "alarm";
    if e.action != Clear {
      SuspicionIsNormal();
      CarriedText(m, e, AlarmKey, "FIRE_SUSPECTED");
    }
  }

  lemma CarriedRevision(m: Json.Fields, e: FireEvent)
    requires Carries(m, e) && OnTheWire(e)
    ensures "fire_revision" in m <==> e.revisionPresent
    ensures "delivery_id" in m <==> e.revisionPresent
    ensures TextField(m, "delivery_id") == e.deliveryId
    ensures e.revisionPresent ==> ExactRevision(Json.Get(m, "fire_revision")) == Some(e.revision)
  {
    assert Name(DeliveryIdKey) == "delivery_id" && Name(RevisionKey) == "fire_revision";
    if e.revisionPresent {
      CarriedText(m, e, DeliveryIdKey, e.deliveryId);
      assert (e.revision as real).Floor == e.revision;
    }
  }

  lemma CarriedChannel(m: Json.Fields, e: FireEvent)
    requires Carries(m, e) && OnTheWire(e)
    ensures NormalizeChannelId(Json.AsText(Json.Get(m, "channel_id"))) == e.channelId
    ensures Json.Get(m, "active") == Some(Json.Bool(e.active))
  {
    assert Name(ChannelKey) == "channel_id" && Name(ActiveKey) == "active";
    ChannelStays(e.channelId);
  }

  lemma CarriedIsRead(m: Json.Fields, e: FireEvent)
    requires Carries(m, e) && OnTheWire(e)
    ensures
      var r := Read(m);
      && r.event == e.(action := NotFire, revisionPresent := false, revision := 0, payload := m)
      && !r.activeMistyped
      && r.kind == KindOf(e.eventType) && r.alarmKind == AlarmNameOf(e.alarmKind)
      && r.alarm == (if e.action == Clear then Blank else NamesSuspicion)
      && r.claimsRevision == e.revisionPresent && r.hasDelivery == e.revisionPresent
      && (e.revisionPresent ==> r.exactRevision == Some(e.revision))
  {
    CarriedIds(m, e);
    CarriedNames(m, e);
    CarriedAlarm(m, e);
    CarriedRevision(m, e);
    CarriedChannel(m, e);
  }

  lemma CarriedIsDecided(r: Reading, e: FireEvent)
    requires OnTheWire(e) && !r.activeMistyped
    requires r.event == e.(action := NotFire, revisionPresent := false, revision := 0, payload := r.event.payload)
    requires r.kind == KindOf(e.eventType) && r.alarmKind == AlarmNameOf(e.alarmKind)
    requires r.alarm == (if e.action == Clear then Blank else NamesSuspicion)
    requires r.claimsRevision == e.revisionPresent && r.hasDelivery == e.revisionPresent
    requires e.revisionPresent ==> r.exactRevision == Some(e.revision)
    ensures Decide(r) == e.(payload := r.event.payload)
  {
    var claimed := e.(action := NotFire, payload := r.event.payload);
    assert Decide(r) == Routed(r, claimed);
    CarriedIsClassified(r, e, claimed);
  }

  lemma CarriedIsClassified(r: Reading, e: FireEvent, claimed: FireEvent)
    requires OnTheWire(e) && claimed == e.(action := NotFire, payload := claimed.payload)
    requires r.kind == KindOf(e.eventType) && r.alarmKind == AlarmNameOf(e.alarmKind)
    requires r.alarm == (if e.action == Clear then Blank else NamesSuspicion)
    ensures Routed(r, claimed) == e.(payload := claimed.payload)
  {
    assert Classify(r, claimed) == e.action;
  }

  /** What a message holds under the keys of an event is what is decoded, field by field. */
  lemma CarriedIsParsed(m: Json.Fields, e: FireEvent)
    requires Carries(m, e) && OnTheWire(e)
    ensures Parse(m) == e.(payload := m)
  {
    CarriedIsRead(m, e);
    CarriedIsDecided(Read(m), e);
  }

  /** Writing an event and decoding it again gives it back. */
  lemma WireRoundTrip(e: FireEvent)
    requires OnTheWire(e)
    ensures Parse(Encode(e)) == e.(payload := Encode(e))
  {
    EncodedCarries(e);
    CarriedIsParsed(Encode(e), e);
  }

  // ---------- what is accepted ----------

  /** A decoded fire event could have been sent as it is. */
  lemma DecodedIsOnTheWire(m: Json.Fields)
    requires IsFireAction(Parse(m).action)
    ensures OnTheWire(Parse(m))
  {
    var r := Read(m);
    ParsedEventsAreValidated(m);
    DecidedTexts(r);
    NormalTexts(m);
    DecidedKind(r, r.event.eventType, r.event.alarmKind);
    if !Parse(m).revisionPresent {
      assert TextField(m, "delivery_id") == "";
    }
  }

  lemma DecidedKind(r: Reading, eventType: string, alarmKind: string)
    requires IsFireAction(Decide(r).action)
    requires r.event.action == NotFire && r.kind == KindOf(eventType) && r.alarmKind == AlarmNameOf(alarmKind)
    ensures r.event.activePresent && (r.event.scope == "" || r.event.scope == "CAMERA_CHANNEL")
    ensures
      match Decide(r).action
      case Activate => eventType == "FIRE_SUSPECTED"
      case Acknowledge => eventType == "FIRE_ACKNOWLEDGED" || eventType == "FIRE_ALARM_ACK"
      case _ => eventType == "FIRE_CLEARED"
                && (alarmKind == "" || alarmKind == "NONE" || alarmKind == "FIRE_SUSPECTED")
  {
    AcceptedMessages(r);
  }

  lemma NormalText(text: string)
    ensures IsTrimmed(Trim(text)) && IsUpper(Upper(Trim(text))) && IsLower(Lower(Trim(text)))
  {
    TrimTrims(text);
    CaseKeepsTrimmed(Trim(text));
    UpperIsIdempotent(Trim(text));
    LowerIsIdempotent(Trim(text));
  }

  predicate TextsAreNormal(e: FireEvent) {
    && IsTrimmed(e.eventId) && IsTrimmed(e.deliveryId) && IsTrimmed(e.alarmId) && IsTrimmed(e.sourceId)
    && IsUpper(e.eventType) && IsUpper(e.alarmKind) && IsUpper(e.alarmState) && IsUpper(e.scope) && IsLower(e.ackState)
  }

  lemma NormalTexts(m: Json.Fields)
    ensures TextsAreNormal(Read(m).event)
  {
    NormalIds(m);
    NormalNames(m);
  }

  lemma NormalIds(m: Json.Fields)
    ensures IsTrimmed(TextField(m, "event_id")) && IsTrimmed(TextField(m, "delivery_id"))
    ensures IsTrimmed(TextField(m, "alarm_id")) && IsTrimmed(TextField(m, "source_id"))
  {
    NormalText(Json.AsText(Json.Get(m, "event_id")));
    NormalText(Json.AsText(Json.Get(m, "delivery_id")));
    NormalText(Json.AsText(Json.Get(m, "alarm_id")));
    NormalText(Json.AsText(Json.Get(m, "source_id")));
  }

  lemma NormalNames(m: Json.Fields)
    ensures IsUpper(UpperField(m, "event_type")) && IsUpper(UpperField(m, "alarm_kind"))
    ensures IsUpper(UpperField(m, "alarm_state")) && IsUpper(UpperField(m, "scope"))
    ensures IsLower(Lower(TextField(m, "ack_state")))
  {
    NormalText(Json.AsText(Json.Get(m, "event_type")));
    NormalText(Json.AsText(Json.Get(m, "alarm_kind")));
    NormalText(Json.AsText(Json.Get(m, "alarm_state")));
    NormalText(Json.AsText(Json.Get(m, "scope")));
    NormalText(Json.AsText(Json.Get(m, "ack_state")));
  }

  /** Decoding decides action and revision; it takes every text as it was read. */
  lemma DecidedTexts(r: Reading)
    requires r.event.action == NotFire
    ensures Decide(r) == r.event.(action := Decide(r).action, revisionPresent := Decide(r).revisionPresent,
                                  revision := Decide(r).revision)
    ensures !Decide(r).revisionPresent ==> Decide(r).revision == r.event.revision
  {
  }

  /** The text of a field as messages write it, in capitals where case does not matter. */
  function Upright(m: Json.Fields, key: string): string {
    Upper(Trim(Json.AsText(Json.Get(m, key))))
  }

  function Plain(m: Json.Fields, key: string): string {
    Trim(Json.AsText(Json.Get(m, key)))
  }

  /** The alarm is named a suspicion of fire, under its newer or its older name. */
  predicate SaysFire(m: Json.Fields) {
    Upright(m, "alarm_kind") == "FIRE_SUSPECTED" || Upright(m, "alarm") == "FIRE_SUSPECTED"
  }

  /** The message either claims no revision, or an exact positive one with delivery and event id. */
  predicate ClaimsWell(m: Json.Fields) {
    "fire_revision" in m || "delivery_id" in m ==>
      && "fire_revision" in m && m["fire_revision"].Number?
      && Json.IsIntegral(m["fire_revision"].n) && 1.0 <= m["fire_revision"].n <= 9007199254740991.0
      && Plain(m, "delivery_id") != "" && Plain(m, "event_id") != ""
  }

  predicate NamesChannel(m: Json.Fields, channel: string) {
    && |channel| == 3 && channel[..2] == "CH" && '1' <= channel[2] <= '4'
    && (Upright(m, "channel_id") == channel || Upright(m, "channel_id") == "CH0" + channel[2..])
  }

  /** What every fire message must say: its channel, its alarm, whether it is active, and no foreign scope. */
  predicate IsAddressed(m: Json.Fields, channel: string) {
    && NamesChannel(m, channel)
    && (Upright(m, "scope") == "" || Upright(m, "scope") == "CAMERA_CHANNEL")
    && Plain(m, "alarm_id") != ""
    && ClaimsWell(m)
  }

  predicate RaisesAlarm(m: Json.Fields) {
    && Upright(m, "event_type") == "FIRE_SUSPECTED" && SaysFire(m) && Plain(m, "event_id") != ""
    && Upright(m, "alarm_state") == "OPEN" && Json.Get(m, "active") == Some(Json.Bool(true))
  }

  predicate AcknowledgesAlarm(m: Json.Fields) {
    && (Upright(m, "event_type") == "FIRE_ACKNOWLEDGED" || Upright(m, "event_type") == "FIRE_ALARM_ACK") && SaysFire(m)
    && Upright(m, "alarm_state") == "ACKNOWLEDGED" && Lower(Plain(m, "ack_state")) == "acknowledged"
    && Json.Get(m, "active") == Some(Json.Bool(true))
  }

  predicate ClearsAlarm(m: Json.Fields) {
    && Upright(m, "event_type") == "FIRE_CLEARED"
    && Upright(m, "alarm_kind") in {"", "NONE", "FIRE_SUSPECTED"} && Upright(m, "alarm") in {"", "NONE", "FIRE_SUSPECTED"}
    && Upright(m, "alarm_state") == "RESOLVED" && Lower(Plain(m, "ack_state")) == "resolved"
    && Json.Get(m, "active") == Some(Json.Bool(false))
  }

  predicate HasFireType(m: Json.Fields) {
    Upright(m, "event_type") in {"FIRE_SUSPECTED", "FIRE_CLEARED", "FIRE_ACKNOWLEDGED", "FIRE_ALARM_ACK"}
  }

  /** The active flag is there and is no flag. */
  predicate IsMistyped(m: Json.Fields) {
    "active" in m && m["active"] != Json.Null && !m["active"].Bool?
  }

  lemma ChannelNamed(m: Json.Fields, channel: string)
    ensures NormalizeChannelId(Json.AsText(Json.Get(m, "channel_id"))) == channel && channel != "" <==> NamesChannel(m, channel)
  {
    var s := Upright(m, "channel_id");
    if NamesChannel(m, channel) && s == "CH0" + channel[2..] {
      assert s[..3] == "CH0" && s[3] == channel[2];
      assert channel == "CH" + [channel[2]];
    }
    if |s| == 4 && s[..3] == "CH0" && '1' <= s[3] <= '4' && channel == "CH" + [s[3]] {
      assert channel[2..] == [s[3]];
      assert s == "CH0" + channel[2..];
    }
  }

  lemma ClaimRead(m: Json.Fields)
    ensures ClaimsWell(m) <==>
            (Read(m).claimsRevision ==>
               Read(m).exactRevision.Some? && Read(m).hasDelivery && TextField(m, "delivery_id") != "" && TextField(m, "event_id") != "")
  {
    ExactNumber(Json.Get(m, "fire_revision"));
  }

  lemma ExactNumber(v: Option<Json.Value>)
    ensures ExactRevision(v).Some?
       <==> v.Some? && v.value.Number? && Json.IsIntegral(v.value.n) && 1.0 <= v.value.n <= 9007199254740991.0
  {
  }

  lemma AddressRead(m: Json.Fields, channel: string)
    ensures IsAddressed(m, channel) && Json.Get(m, "active").Some? && Json.Get(m, "active").value.Bool?
       <==> WellFormedEnvelope(Read(m)) && Read(m).event.channelId == channel
  {
    ChannelNamed(m, channel);
    ClaimRead(m);
  }

  lemma RaiseRead(m: Json.Fields)
    requires Json.Get(m, "active").Some? && Json.Get(m, "active").value.Bool?
    ensures
      var r := Read(m);
      RaisesAlarm(m) <==> r.event.active && r.kind == Suspected && r.NamesFire()
                          && r.event.eventId != "" && r.event.alarmState == "OPEN"
  {
    KindsOf(Upright(m, "event_type"));
  }

  lemma AcknowledgeRead(m: Json.Fields)
    requires Json.Get(m, "active").Some? && Json.Get(m, "active").value.Bool?
    ensures
      var r := Read(m);
      AcknowledgesAlarm(m) <==> r.event.active && r.kind == Acknowledged && r.NamesFire()
                                && r.event.alarmState == "ACKNOWLEDGED" && r.event.ackState == "acknowledged"
  {
    KindsOf(Upright(m, "event_type"));
  }

  lemma ClearRead(m: Json.Fields)
    requires Json.Get(m, "active").Some? && Json.Get(m, "active").value.Bool?
    ensures
      var r := Read(m);
      ClearsAlarm(m) <==> !r.event.active && r.kind == Cleared
                          && r.alarmKind != NamesOther && r.alarm != NamesOther
                          && r.event.alarmState == "RESOLVED" && r.event.ackState == "resolved"
  {
    KindsOf(Upright(m, "event_type"));
  }

  lemma KindsOf(text: string)
    ensures KindOf(text) == Suspected <==> text == "FIRE_SUSPECTED"
    ensures KindOf(text) == Cleared <==> text == "FIRE_CLEARED"
    ensures KindOf(text) == Acknowledged <==> text == "FIRE_ACKNOWLEDGED" || text == "FIRE_ALARM_ACK"
  {
    assert "FIRE_SUSPECTED"[5] == 'S' && "FIRE_CLEARED"[5] == 'C';
    assert "FIRE_ACKNOWLEDGED"[5] == 'A' && "FIRE_ALARM_ACK"[5] == 'A';
  }

  /** The contract of the wire: a message is taken as an activation, an acknowledgement or a clear of
      a channel exactly when it says so, key by key. */
  lemma WireContract(m: Json.Fields, channel: string)
    ensures Parse(m).action == Activate && Parse(m).channelId == channel <==> IsAddressed(m, channel) && RaisesAlarm(m)
    ensures Parse(m).action == Acknowledge && Parse(m).channelId == channel <==> IsAddressed(m, channel) && AcknowledgesAlarm(m)
    ensures Parse(m).action == Clear && Parse(m).channelId == channel <==> IsAddressed(m, channel) && ClearsAlarm(m)
  {
    var r := Read(m);
    DecisionContract(r, channel);
    AddressRead(m, channel);
    if Json.Get(m, "active").Some? && Json.Get(m, "active").value.Bool? {
      RaiseRead(m);
      AcknowledgeRead(m);
      ClearRead(m);
    }
  }

  /** A message that neither has a fire type nor names a fire is none; any other one that is not
      accepted is a broken fire message. */
  lemma ForeignMessages(m: Json.Fields)
    ensures Parse(m).action == NotFire <==> !IsMistyped(m) && !HasFireType(m) && !SaysFire(m)
  {
    AcceptedMessages(Read(m));
    ForeignRead(m);
  }

  lemma ForeignRead(m: Json.Fields)
    ensures Read(m).activeMistyped <==> IsMistyped(m)
    ensures Read(m).kind == OtherKind <==> !HasFireType(m)
    ensures Read(m).NamesFire() <==> SaysFire(m)
  {
    KindsOf(Upright(m, "event_type"));
  }

  lemma DecisionContract(r: Reading, channel: string)
    requires r.event.action == NotFire
    ensures
      var addressed := WellFormedEnvelope(r) && r.event.channelId == channel;
      && (Decide(r).action == Activate && Decide(r).channelId == channel
          <==> addressed && r.event.active && r.kind == Suspected && r.NamesFire()
               && r.event.eventId != "" && r.event.alarmState == "OPEN")
      && (Decide(r).action == Acknowledge && Decide(r).channelId == channel
          <==> addressed && r.event.active && r.kind == Acknowledged && r.NamesFire()
               && r.event.alarmState == "ACKNOWLEDGED" && r.event.ackState == "acknowledged")
      && (Decide(r).action == Clear && Decide(r).channelId == channel
          <==> addressed && !r.event.active && r.kind == Cleared
               && r.alarmKind != NamesOther && r.alarm != NamesOther
               && r.event.alarmState == "RESOLVED" && r.event.ackState == "resolved")
  {
    AcceptedMessages(r);
    DecidedTexts(r);
  }

  // ---------- each field has its own key ----------

  /** The text an event holds for a key. */
  function TextOf(e: FireEvent, k: Key): string {
    match k
    case EventIdKey => e.eventId
    case DeliveryIdKey => e.deliveryId
    case AlarmIdKey => e.alarmId
    case SourceIdKey => e.sourceId
    case ChannelKey => e.channelId
    case TypeKey => e.eventType
    case KindKey => e.alarmKind
    case StateKey => e.alarmState
    case AckKey => e.ackState
    case ScopeKey => e.scope
    case _ => ""
  }

  /** Two messages that agree under one key give the same text for it, whatever else they hold. */
  lemma FieldsAreIndependent(m: Json.Fields, n: Json.Fields, k: Key)
    requires Json.Get(m, Name(k)) == Json.Get(n, Name(k))
    ensures TextOf(Parse(m), k) == TextOf(Parse(n), k)
  {
    DecidedTexts(Read(m));
    DecidedTexts(Read(n));
  }

  /** Revision and flag of a decoded fire event are the values in the message, not roundings of them. */
  lemma DecodedValues(m: Json.Fields)
    requires IsFireAction(Parse(m).action)
    ensures Json.Get(m, "active") == Some(Json.Bool(Parse(m).active))
    ensures Parse(m).revisionPresent ==> Json.Get(m, "fire_revision") == Some(Json.Number(Parse(m).revision as real))
  {
    var r := Read(m);
    AcceptedMessages(r);
    ClaimedRevision(r);
  }

  lemma ClaimedRevision(r: Reading)
    requires r.event.action == NotFire && !r.event.revisionPresent && IsFireAction(Decide(r).action)
    ensures Decide(r).revisionPresent ==> r.exactRevision == Some(Decide(r).revision)
    ensures Decide(r).active == r.event.active
  {
  }
}

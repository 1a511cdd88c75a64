/** Decoding of fire messages: from a JSON object to a validated fire event. */
module FireEventAdapter {
  import opened Text
  import Json

  datatype Action = NotFire | Activate | Acknowledge | Clear | Invalid

  datatype FireEvent = FireEvent(
    action: Action,
    eventId: string,
    deliveryId: string,
    alarmId: string,
    eventType: string,
    channelId: string,
    sourceId: string,
    alarmKind: string,
    alarmState: string,
    ackState: string,
    scope: string,
    activePresent: bool,
    active: bool,
    revisionPresent: bool,
    revision: nat,
    payload: Json.Fields)

  /** Revisions above 2^53 - 1 are not exact in a JSON number. */
  const MAX_EXACT_REVISION: nat := 9007199254740991

  function TextField(message: Json.Fields, key: string): string {
    Trim(Json.AsText(Json.Get(message, key)))
  }

  function UpperField(message: Json.Fields, key: string): string {
    Upper(TextField(message, key))
  }

  /** `CH1` to `CH4`, also written `CH01` to `CH04`; anything else is unknown. */
  function NormalizeChannelId(raw: string): (channel: string)
    ensures channel == "" || IsChannelId(channel)
  {
    var s := Upper(Trim(raw));
    if |s| == 3 && s[..2] == "CH" && '1' <= s[2] <= '4' then s
    else if |s| == 4 && s[..3] == "CH0" && '1' <= s[3] <= '4' then "CH" + [s[3]]
    else ""
  }

  predicate IsChannelId(channel: string) {
    |channel| == 3 && channel[..2] == "CH" && '1' <= channel[2] <= '4'
  }

  predicate ActiveIsPresent(message: Json.Fields) {
    "active" in message && message["active"] != Json.Null
  }

  predicate ActiveFlag(message: Json.Fields) {
    ActiveIsPresent(message) && message["active"] == Json.Bool(true)
  }

  datatype EventKind = Suspected | Cleared | Acknowledged | OtherKind

  function KindOf(eventType: string): EventKind {
    if eventType == "FIRE_SUSPECTED" then Suspected
    else if eventType == "FIRE_CLEARED" then Cleared
    else if eventType == "FIRE_ACKNOWLEDGED" || eventType == "FIRE_ALARM_ACK" then Acknowledged
    else OtherKind
  }

  /** The value of `alarm_kind`, or of its older name `alarm`. */
  datatype AlarmName = Blank | NamesNone | NamesSuspicion | NamesOther

  function AlarmNameOf(text: string): AlarmName {
    if text == "" then Blank
    else if text == "NONE" then NamesNone
    else if text == "FIRE_SUSPECTED" then NamesSuspicion
    else NamesOther
  }

  /** A positive integer that a JSON number represents exactly. */
  function ExactRevision(v: Option<Json.Value>): (revision: Option<nat>)
    ensures revision.Some? ==> 1 <= revision.value <= MAX_EXACT_REVISION
  {
    if v.Some? && v.value.Number? && Json.IsIntegral(v.value.n) && 1 <= v.value.n.Floor <= MAX_EXACT_REVISION
    then Some(v.value.n.Floor)
    else None
  }

  /** The fields read from the message before any validation. */
  datatype Reading = Reading(
    event: FireEvent,
    activeMistyped: bool,
    kind: EventKind,
    alarmKind: AlarmName,
    alarm: AlarmName,
    claimsRevision: bool,
    exactRevision: Option<nat>,
    hasDelivery: bool)
  {
    predicate NamesFire() {
      alarmKind == NamesSuspicion || alarm == NamesSuspicion
    }

    /** A revision counts only as an exact one, with all three ids. */
    predicate ClaimIsComplete() {
      exactRevision.Some? && hasDelivery && event.deliveryId != "" && event.eventId != "" && event.alarmId != ""
    }
  }

  function Read(message: Json.Fields): Reading {
    Reading(
      FireEvent(NotFire, TextField(message, "event_id"), TextField(message, "delivery_id"),
                TextField(message, "alarm_id"), UpperField(message, "event_type"),
                NormalizeChannelId(Json.AsText(Json.Get(message, "channel_id"))),
                TextField(message, "source_id"), UpperField(message, "alarm_kind"),
                UpperField(message, "alarm_state"), Lower(TextField(message, "ack_state")),
                UpperField(message, "scope"), ActiveIsPresent(message), ActiveFlag(message),
                false, 0, message),
      ActiveIsPresent(message) && !message["active"].Bool?,
      KindOf(UpperField(message, "event_type")),
      AlarmNameOf(UpperField(message, "alarm_kind")),
      AlarmNameOf(UpperField(message, "alarm")),
      "fire_revision" in message || "delivery_id" in message,
      ExactRevision(Json.Get(message, "fire_revision")),
      "delivery_id" in message)
  }

  function Parse(message: Json.Fields): FireEvent {
    Decide(Read(message))
  }

  function Decide(r: Reading): FireEvent {
    if r.activeMistyped then r.event.(action := Invalid)
    else if r.kind == OtherKind && !r.NamesFire() then r.event
    else if r.claimsRevision && !r.ClaimIsComplete() then r.event.(action := Invalid)
    else if r.claimsRevision
    then Routed(r, r.event.(revisionPresent := true, revision := r.exactRevision.value))
    else Routed(r, r.event)
  }

  /** A fire message must name a known channel and concern cameras. */
  function Routed(r: Reading, event: FireEvent): FireEvent {
    if event.channelId == "" || (event.scope != "" && event.scope != "CAMERA_CHANNEL")
    then event.(action := Invalid)
    else event.(action := Classify(r, event))
  }

  /** The event-type specific rules, applied after the common ones. */
  function Classify(r: Reading, event: FireEvent): Action {
    match r.kind
    case Acknowledged =>
      if !r.NamesFire() then Invalid
      else if event.alarmId == "" then Invalid
      else if event.alarmState != "ACKNOWLEDGED" then Invalid
      else if event.ackState != "acknowledged" then Invalid
      else if !event.activePresent || !event.active then Invalid
      else Acknowledge
    case Cleared =>
      if event.alarmId == "" then Invalid
      else if r.alarmKind == NamesOther then Invalid
      else if r.alarm == NamesOther then Invalid
      else if event.alarmState != "RESOLVED" then Invalid
      else if event.ackState != "resolved" then Invalid
      else if !event.activePresent || event.active then Invalid
      else Clear
    case OtherKind => Invalid
    case Suspected =>
      if !r.NamesFire() then Invalid
      else if event.eventId == "" || event.alarmId == "" then Invalid
      else if event.alarmState != "OPEN" then Invalid
      else if !event.activePresent || !event.active then Invalid
      else Activate
  }

  // ---------- the decoder itself ----------

  /** Field by field into a blank event. */
  method ReadObject(message: Json.Fields) returns (r: Reading)
    ensures r == Read(message)
  {
    var event := FireEvent(NotFire, "", "", "", "", "", "", "", "", "", "", false, false, false, 0, message);
    event := event.(eventId := TextField(message, "event_id"));
    event := event.(deliveryId := TextField(message, "delivery_id"));
    event := event.(alarmId := TextField(message, "alarm_id"));
    event := event.(eventType := UpperField(message, "event_type"));
    event := event.(channelId := NormalizeChannelId(Json.AsText(Json.Get(message, "channel_id"))));
    event := event.(sourceId := TextField(message, "source_id"));
    event := event.(alarmKind := UpperField(message, "alarm_kind"));
    event := event.(alarmState := UpperField(message, "alarm_state"));
    event := event.(ackState := Lower(TextField(message, "ack_state")));
    event := event.(scope := UpperField(message, "scope"));
    var mistyped := false;
    if "active" in message && message["active"] != Json.Null {
      event := event.(activePresent := true);
      if message["active"].Bool? {
        event := event.(active := message["active"].b);
      } else {
        mistyped := true;
      }
    }
    r := Reading(event, mistyped, KindOf(event.eventType), AlarmNameOf(event.alarmKind),
                 AlarmNameOf(UpperField(message, "alarm")),
                 "fire_revision" in message || "delivery_id" in message,
                 ExactRevision(Json.Get(message, "fire_revision")), "delivery_id" in message);
  }

  /** The checks in their order, each failure an early return. */
  method DecideReading(r: Reading) returns (event: FireEvent)
    ensures event == Decide(r)
  {
    event := r.event;
    if r.activeMistyped {
      return event.(action := Invalid);
    }
    if r.kind == OtherKind && !r.NamesFire() {
      return;
    }
    if r.claimsRevision {
      if r.exactRevision.None? || !r.hasDelivery || event.deliveryId == "" {
        return event.(action := Invalid);
      }
      if event.eventId == "" || event.alarmId == "" {
        return event.(action := Invalid);
      }
      event := event.(revisionPresent := true, revision := r.exactRevision.value);
    }
    if event.channelId == "" {
      return event.(action := Invalid);
    }
    if event.scope != "" && event.scope != "CAMERA_CHANNEL" {
      return event.(action := Invalid);
    }
    match r.kind {
      case Acknowledged =>
        if !r.NamesFire() || event.alarmId == "" || event.alarmState != "ACKNOWLEDGED"
           || event.ackState != "acknowledged" || !event.activePresent || !event.active {
          return event.(action := Invalid);
        }
        return event.(action := Acknowledge);
      case Cleared =>
        if event.alarmId == "" || r.alarmKind == NamesOther || r.alarm == NamesOther || event.alarmState != "RESOLVED"
           || event.ackState != "resolved" || !event.activePresent || event.active {
          return event.(action := Invalid);
        }
        return event.(action := Clear);
      case OtherKind =>
        return event.(action := Invalid);
      case Suspected =>
        if !r.NamesFire() || event.eventId == "" || event.alarmId == "" || event.alarmState != "OPEN"
           || !event.activePresent || !event.active {
          return event.(action := Invalid);
        }
        return event.(action := Activate);
    }
  }

  method ParseObject(message: Json.Fields) returns (event: FireEvent)
    ensures event == Parse(message)
  {
    var r := ReadObject(message);
    event := DecideReading(r);
  }

  // ---------- what is read ----------

  /** How the text of a field is read. */
  datatype Style = AsWritten | UpperCase | LowerCase | ChannelName | NoText

  function StyleOf(key: string): Style {
    if key == "event_id" || key == "delivery_id" || key == "alarm_id" || key == "source_id" then AsWritten
    else if key == "event_type" || key == "alarm_kind" || key == "alarm_state" || key == "scope" || key == "alarm"
    then UpperCase
    else if key == "ack_state" then LowerCase
    else if key == "channel_id" then ChannelName
    else NoText
  }

  function ReadAs(style: Style, text: string): string {
    match style
    case AsWritten => Trim(text)
    case UpperCase => Upper(Trim(text))
    case LowerCase => Lower(Trim(text))
    case ChannelName => NormalizeChannelId(text)
    case NoText => text
  }

  /** The message with each text written back as it was read. */
  function Rewritten(message: Json.Fields): Json.Fields {
    map key | key in message ::
      if StyleOf(key) == NoText then message[key]
      else Json.String(ReadAs(StyleOf(key), Json.AsText(Some(message[key]))))
  }

  lemma ReadAsIsIdempotent(style: Style, text: string)
    ensures ReadAs(style, ReadAs(style, text)) == ReadAs(style, text)
  {
    TrimTrims(text);
    TrimmedStays(Trim(text));
    CaseKeepsTrimmed(Trim(text));
    TrimmedStays(Upper(Trim(text)));
    TrimmedStays(Lower(Trim(text)));
    UpperIsIdempotent(Trim(text));
    LowerIsIdempotent(Trim(text));
    if style == ChannelName {
      ChannelStays(NormalizeChannelId(text));
    }
  }

  lemma ChannelStays(channel: string)
    requires channel == "" || IsChannelId(channel)
    ensures NormalizeChannelId(channel) == channel
  {
    TrimmedStays(channel);
    if channel != "" {
      assert channel[0] == channel[..2][0] && channel[1] == channel[..2][1];
      assert Upper(channel) == channel;
    }
  }

  lemma RewrittenField(message: Json.Fields, key: string, style: Style)
    requires StyleOf(key) == style && style != NoText
    ensures ReadAs(style, Json.AsText(Json.Get(Rewritten(message), key)))
            == ReadAs(style, Json.AsText(Json.Get(message, key)))
  {
    ReadAsIsIdempotent(style, Json.AsText(Json.Get(message, key)));
  }

  /** The two messages are read alike, text by text. */
  predicate SameTexts(a: Json.Fields, b: Json.Fields) {
    && TextField(a, "event_id") == TextField(b, "event_id")
    && TextField(a, "delivery_id") == TextField(b, "delivery_id")
    && TextField(a, "alarm_id") == TextField(b, "alarm_id")
    && TextField(a, "source_id") == TextField(b, "source_id")
    && UpperField(a, "event_type") == UpperField(b, "event_type")
    && UpperField(a, "alarm_kind") == UpperField(b, "alarm_kind")
    && UpperField(a, "alarm_state") == UpperField(b, "alarm_state")
    && UpperField(a, "scope") == UpperField(b, "scope")
    && UpperField(a, "alarm") == UpperField(b, "alarm")
    && Lower(TextField(a, "ack_state")) == Lower(TextField(b, "ack_state"))
    && NormalizeChannelId(Json.AsText(Json.Get(a, "channel_id")))
       == NormalizeChannelId(Json.AsText(Json.Get(b, "channel_id")))
  }

  predicate SameValues(a: Json.Fields, b: Json.Fields) {
    && Json.Get(a, "active") == Json.Get(b, "active")
    && Json.Get(a, "fire_revision") == Json.Get(b, "fire_revision")
    && ("delivery_id" in a <==> "delivery_id" in b)
  }

  lemma RewrittenIds(message: Json.Fields)
    ensures TextField(Rewritten(message), "event_id") == TextField(message, "event_id")
    ensures TextField(Rewritten(message), "delivery_id") == TextField(message, "delivery_id")
    ensures TextField(Rewritten(message), "alarm_id") == TextField(message, "alarm_id")
    ensures TextField(Rewritten(message), "source_id") == TextField(message, "source_id")
  {
    RewrittenField(message, "event_id", AsWritten);
    RewrittenField(message, "delivery_id", AsWritten);
    RewrittenField(message, "alarm_id", AsWritten);
    RewrittenField(message, "source_id", AsWritten);
  }

  lemma RewrittenNames(message: Json.Fields)
    ensures UpperField(Rewritten(message), "event_type") == UpperField(message, "event_type")
    ensures UpperField(Rewritten(message), "alarm_kind") == UpperField(message, "alarm_kind")
    ensures UpperField(Rewritten(message), "alarm_state") == UpperField(message, "alarm_state")
    ensures UpperField(Rewritten(message), "scope") == UpperField(message, "scope")
    ensures UpperField(Rewritten(message), "alarm") == UpperField(message, "alarm")
  {
    RewrittenField(message, "event_type", UpperCase);
    RewrittenField(message, "alarm_kind", UpperCase);
    RewrittenField(message, "alarm_state", UpperCase);
    RewrittenField(message, "scope", UpperCase);
    RewrittenField(message, "alarm", UpperCase);
  }

  lemma RewrittenAck(message: Json.Fields)
    ensures Lower(TextField(Rewritten(message), "ack_state")) == Lower(TextField(message, "ack_state"))
  {
    RewrittenField(message, "ack_state", LowerCase);
  }

  lemma RewrittenChannel(message: Json.Fields)
    ensures NormalizeChannelId(Json.AsText(Json.Get(Rewritten(message), "channel_id")))
            == NormalizeChannelId(Json.AsText(Json.Get(message, "channel_id")))
  {
    RewrittenField(message, "channel_id", ChannelName);
  }

  lemma RewrittenTexts(message: Json.Fields)
    ensures SameTexts(Rewritten(message), message)
  {
    RewrittenIds(message);
    RewrittenNames(message);
    RewrittenAck(message);
    RewrittenChannel(message);
  }

  lemma RewrittenValues(message: Json.Fields)
    ensures SameValues(Rewritten(message), message)
  {
    assert StyleOf("active") == NoText && StyleOf("fire_revision") == NoText;
  }

  lemma ReadAlike(a: Json.Fields, b: Json.Fields)
    requires SameTexts(a, b) && SameValues(a, b)
    ensures Read(a) == Read(b).(event := Read(b).event.(payload := a))
  {
  }

  /** Writing every text back as it was read changes neither the reading nor the event: surrounding
      white space, letter case and the zero in a channel name make no difference. */
  lemma ReadingIsStable(message: Json.Fields)
    ensures Read(Rewritten(message)) == Read(message).(event := Read(message).event.(payload := Rewritten(message)))
    ensures Parse(Rewritten(message)) == Parse(message).(payload := Rewritten(message))
  {
    RewrittenTexts(message);
    RewrittenValues(message);
    ReadAlike(Rewritten(message), message);
    PayloadDecidesNothing(Read(message), Rewritten(message));
  }

  lemma PayloadDecidesNothing(r: Reading, payload: Json.Fields)
    ensures Decide(r.(event := r.event.(payload := payload))) == Decide(r).(payload := payload)
  {
    var q := r.(event := r.event.(payload := payload));
    if r.activeMistyped || (r.kind == OtherKind && !r.NamesFire()) {
      assert Decide(q) == Decide(r).(payload := payload);
    } else if r.claimsRevision {
      if r.ClaimIsComplete() {
        var event := r.event.(revisionPresent := true, revision := r.exactRevision.value);
        assert Decide(r) == Routed(r, event);
        RouteIgnoresPayload(r, event, payload);
        assert Decide(q) == Routed(q, event.(payload := payload));
      } else {
        assert !q.ClaimIsComplete();
      }
    } else {
      RouteIgnoresPayload(r, r.event, payload);
    }
  }

  lemma RouteIgnoresPayload(r: Reading, event: FireEvent, payload: Json.Fields)
    ensures Routed(r.(event := r.event.(payload := payload)), event.(payload := payload))
            == Routed(r, event).(payload := payload)
  {
    ClassIgnoresPayload(r, event, payload);
  }

  lemma ClassIgnoresPayload(r: Reading, event: FireEvent, payload: Json.Fields)
    ensures Classify(r.(event := r.event.(payload := payload)), event.(payload := payload)) == Classify(r, event)
  {
  }

  // ---------- what the decoded event guarantees ----------

  predicate IsFireAction(action: Action) {
    action == Activate || action == Acknowledge || action == Clear
  }

  /** What the revision ledger and the alarm state rely on. */
  predicate Validated(event: FireEvent) {
    && IsFireAction(event.action)
    && IsChannelId(event.channelId)
    && event.alarmId != ""
    && (event.action == Activate ==> event.eventId != "" && event.alarmState == "OPEN" && event.active)
    && (event.action == Acknowledge ==>
          event.alarmState == "ACKNOWLEDGED" && event.ackState == "acknowledged" && event.active)
    && (event.action == Clear ==> event.alarmState == "RESOLVED" && event.ackState == "resolved" && !event.active)
    && (event.revisionPresent ==>
          1 <= event.revision <= MAX_EXACT_REVISION && event.deliveryId != "" && event.eventId != "")
  }

  /** Every event the decoder hands on has been validated, and it is revisioned
      exactly when the message carries a revision or a delivery id. */
  lemma ParsedEventsAreValidated(message: Json.Fields)
    requires IsFireAction(Parse(message).action)
    ensures Validated(Parse(message))
    ensures Parse(message).revisionPresent <==> "fire_revision" in message || "delivery_id" in message
    ensures Parse(message).payload == message
  {
    var r := Read(message);
    DecisionIsValidated(r);
  }

  lemma DecisionIsValidated(r: Reading)
    requires IsFireAction(Decide(r).action)
    requires r.event.action == NotFire && !r.event.revisionPresent
    requires r.event.channelId == "" || IsChannelId(r.event.channelId)
    requires r.exactRevision.Some? ==> 1 <= r.exactRevision.value <= MAX_EXACT_REVISION
    ensures Validated(Decide(r))
    ensures Decide(r).revisionPresent == r.claimsRevision
    ensures Decide(r).payload == r.event.payload
  {
  }

  /** The part of the wire contract shared by the three fire messages. */
  predicate WellFormedEnvelope(r: Reading) {
    && r.event.channelId != ""
    && (r.event.scope == "" || r.event.scope == "CAMERA_CHANNEL")
    && r.event.alarmId != ""
    && !r.activeMistyped && r.event.activePresent
    && (r.claimsRevision ==>
          r.exactRevision.Some? && r.hasDelivery && r.event.deliveryId != "" && r.event.eventId != "")
  }

  /** The wire contract, message by message: each kind is accepted exactly under
      its own conditions, so no message is accepted as two kinds. */
  lemma AcceptedMessages(r: Reading)
    requires r.event.action == NotFire
    ensures Decide(r).action == Activate <==>
            && WellFormedEnvelope(r) && r.event.active && r.kind == Suspected && r.NamesFire()
            && r.event.eventId != "" && r.event.alarmState == "OPEN"
    ensures Decide(r).action == Acknowledge <==>
            && WellFormedEnvelope(r) && r.event.active && r.kind == Acknowledged && r.NamesFire()
            && r.event.alarmState == "ACKNOWLEDGED" && r.event.ackState == "acknowledged"
    ensures Decide(r).action == Clear <==>
            && WellFormedEnvelope(r) && !r.event.active && r.kind == Cleared
            && r.alarmKind != NamesOther && r.alarm != NamesOther
            && r.event.alarmState == "RESOLVED" && r.event.ackState == "resolved"
    ensures Decide(r).action == NotFire <==> !r.activeMistyped && r.kind == OtherKind && !r.NamesFire()
  {
  }
}

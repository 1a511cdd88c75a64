/** Which broker messages reach the fire ledger: their topics and their payloads. */
module FireRouting {
  import opened Text
  import opened FireEventAdapter
  import opened FireWire
  import opened FireLedger
  import opened FireController
  import Json

  // ---------- the channel of a topic ----------

  lemma {:induction false} LastSectionOf(s: string, section: string, sep: char)
    requires sep !in section
    ensures LastSection(s + [sep] + section, sep) == section
    decreases |s|
  {
    var whole := s + [sep] + section;
    var i := FirstIndex(whole, sep);
    assert whole[|s|] == sep;
    assert i <= |s|;
    var rest := whole[i + 1..];
    if i == |s| {
      assert rest == section;
      NoSeparator(section, sep);
    } else {
      assert rest == s[i + 1..] + [sep] + section;
      LastSectionOf(s[i + 1..], section, sep);
    }
    LastOfSplit(whole, sep);
  }

  lemma NoSeparator(s: string, sep: char)
    requires sep !in s
    ensures Split(s, sep) == [s]
  {
    assert forall k :: 0 <= k < |s| ==> s[k] in s;
  }

  lemma LastOfSplit(s: string, sep: char)
    requires FirstIndex(s, sep) < |s|
    ensures LastSection(s, sep) == LastSection(s[FirstIndex(s, sep) + 1..], sep)
  {
    var i := FirstIndex(s, sep);
    var rest := Split(s[i + 1..], sep);
    assert Split(s, sep) == [s[..i]] + rest;
  }

  lemma ChannelSection(digits: string)
    requires digits != "" && AllDigits(digits)
    ensures Upper(Trim("CH" + digits)) == "CH" + digits && ("CH" + digits)[2..] == digits
    ensures Trim(digits) == digits && !("+" <= digits)
    ensures '/' !in "CH" + digits
  {
    var s := "CH" + digits;
    assert s[|s| - 1] == digits[|digits| - 1];
    TrimmedStays(s);
    TrimmedStays(digits);
    assert Upper(s) == s;
  }

  /** A topic that ends in CH and a number has that channel if the number is 1 to 4, and none otherwise. */
  lemma TopicNumber(t: string, digits: string)
    requires digits != "" && AllDigits(digits)
    ensures TopicChannel(t + "/" + "CH" + digits)
         == if 1 <= ParseDecimal(digits) <= 4 then "CH" + Decimal(ParseDecimal(digits)) else ""
  {
    assert t + "/" + "CH" + digits == t + ['/'] + ("CH" + digits);
    ChannelSection(digits);
    LastSectionOf(t, "CH" + digits, '/');
  }

  lemma TopicOfChannel(t: string, channel: string)
    requires IsChannelId(channel)
    ensures TopicChannel(t + "/" + channel) == channel
  {
    var digits := channel[2..];
    assert channel == "CH" + digits;
    assert digits[..0] == [];
    assert t + "/" + channel == t + "/" + "CH" + digits;
    TopicNumber(t, digits);
  }

  // ---------- what reaches the ledger ----------

  /** The two topics on which fire messages of a channel are sent. */
  predicate IsFireTopic(topic: string, channel: string) {
    topic == "parking/fire/" + channel || topic == "parking/v1/events/" + channel
  }

  lemma FireTopic(topic: string, channel: string)
    requires IsFireTopic(topic, channel) && IsChannelId(channel)
    ensures "parking/fire/" <= topic || "parking/v1/events/" <= topic
    ensures TopicChannel(topic) == channel
  {
    if topic == "parking/fire/" + channel {
      assert topic == "parking/fire" + "/" + channel;
      TopicOfChannel("parking/fire", channel);
    } else {
      assert topic == "parking/v1/events" + "/" + channel;
      TopicOfChannel("parking/v1/events", channel);
    }
  }

  /** A message that carries an event, on a fire topic of its channel, is delivered as that event. */
  lemma SentIsDelivered(s: FireState, e: FireEvent, fields: Json.Fields, topic: string, retained: bool)
    requires OnTheWire(e) && Carries(fields, e) && IsFireTopic(topic, e.channelId)
    ensures Receive(s, Message(topic, Some(fields), retained))
         == Deliver(s, Delivery(e.(payload := fields), topic, retained))
  {
    CarriedIsParsed(fields, e);
    FireTopic(topic, e.channelId);
  }

  /** Whether an event that came in on a topic may be delivered. */
  predicate MayBeDelivered(event: FireEvent, topic: string) {
    && IsFireAction(event.action)
    && ("parking/fire/" <= topic || "parking/v1/events/" <= topic)
    && TopicChannel(topic) == event.channelId
  }

  /** What is reported of an event that may not. */
  function Complaint(event: FireEvent, topic: string): seq<Effect> {
    if event.action == Invalid && event.channelId == "" then [ContractError("SYSTEM")]
    else if event.action == Invalid || IsFireAction(event.action) then [ContractError(event.channelId)]
    else if "parking/fire/" <= topic then [ContractError("SYSTEM")]
    else []
  }

  /** Nothing else is: a message changes the state only as a delivery of the fire event in it, and then
      its topic starts like a fire topic and ends in the event's channel. Anything else is reported or ignored. */
  lemma OnlySentIsDelivered(s: FireState, fields: Json.Fields, topic: string, retained: bool)
    ensures
      var event := Parse(fields);
      Receive(s, Message(topic, Some(fields), retained))
        == if MayBeDelivered(event, topic) then Deliver(s, Delivery(event, topic, retained))
           else (s, Complaint(event, topic))
  {
    FollowedEvent(s, Parse(fields), topic, retained);
  }

  lemma FollowedEvent(s: FireState, event: FireEvent, topic: string, retained: bool)
    ensures Follow(s, RouteEvent(event, topic, TopicChannel(topic), retained))
         == if MayBeDelivered(event, topic) then Deliver(s, Delivery(event, topic, retained))
            else (s, Complaint(event, topic))
  {
    if MayBeDelivered(event, topic) {
      assert RouteEvent(event, topic, TopicChannel(topic), retained) == Fire(Delivery(event, topic, retained));
    } else {
      assert !RouteEvent(event, topic, TopicChannel(topic), retained).Fire?;
    }
  }

  lemma AnotherChannelIsRefused(s: FireState, e: FireEvent, fields: Json.Fields, topic: string, channel: string, retained: bool)
    requires OnTheWire(e) && Carries(fields, e)
    requires IsChannelId(channel) && IsFireTopic(topic, channel) && channel != e.channelId
    ensures Receive(s, Message(topic, Some(fields), retained)) == (s, [ContractError(e.channelId)])
  {
    CarriedIsParsed(fields, e);
    FireTopic(topic, channel);
  }
}

/** What is sent to the camera: every write says what it is meant to say, key by key, and
    stays within the limits that the camera has reported. */
module ConfigLimits {
  import opened Text
  import opened Polygon
  import opened AreaConfiguration
  import opened AreaPayload
  import opened AreaRoundTrip
  import opened ConfigClient
  import opened ConfigTransaction
  import opened ConfigOutcomes
  import Json

  // ---------- a camera that stores what it is sent ----------

  lemma TextsAreStored(texts: seq<string>)
    ensures StoresTexts(Some(Json.Array(TextValues(texts))), texts)
  {
  }

  lemma UnmovedIsRedrawn(points: seq<Point>)
    requires points != []
    ensures Redrawn(points, points)
  {
    assert Rotated(points, 0) == points;
    assert TurnedInto(points, points, 0);
  }

  lemma PolygonIsStored(points: seq<Point>)
    requires points != []
    ensures StoresPolygon(Some(Json.Array(PixelValues(points))), points)
  {
    var values := PixelValues(points);
    forall i | 0 <= i < |values|
      ensures IsNumericPoint(values[i]) && NumericPoint(values[i]) == points[i]
    {
      assert values[i] == PixelValue(points[i]);
    }
    assert NumericPoints(values) == points;
    UnmovedIsRedrawn(points);
  }

  lemma DefinitionKeys(area: Area)
    ensures Definition(area).Object?
    ensures
      var fields := Definition(area).fields;
      && Json.Get(fields, "name") == Some(Json.String(Trim(area.name)))
      && Json.Get(fields, "index") == Some(Json.Number(area.areaIndex as real))
      && Json.Get(fields, "appearanceDuration") == Some(Json.Number(area.appearanceDuration as real))
      && Json.Get(fields, "intrusionDuration") == Some(Json.Number(area.intrusionDuration as real))
      && Json.Get(fields, "loiteringDuration") == Some(Json.Number(area.loiteringDuration as real))
  {
  }

  lemma DefinitionLists(area: Area)
    ensures
      var fields := Definition(area).fields;
      && Json.Get(fields, "detectionModes") == Some(Json.Array(TextValues(area.detectionModes)))
      && Json.Get(fields, "objectTypeFilter") == Some(Json.Array(TextValues(area.objectTypeFilter)))
      && Json.Get(fields, "areaCoordinates") == Some(Json.Array(PixelValues(area.coordinates)))
      && Json.Get(fields, "handoverIndex") == Json.Get(area.rawDefinition, "handoverIndex")
  {
  }

  /** A written definition stores its rule, and keeps the handover index it came with. */
  lemma WrittenIsStored(area: Area)
    requires area.coordinates != []
    ensures Stores(Definition(area), area)
    ensures Json.Get(Definition(area).fields, "handoverIndex") == Json.Get(area.rawDefinition, "handoverIndex")
  {
    DefinitionKeys(area);
    DefinitionLists(area);
    TextsAreStored(area.detectionModes);
    TextsAreStored(area.objectTypeFilter);
    PolygonIsStored(area.coordinates);
    TrimIsIdempotent(area.name);
  }

  /** Identity order: the definitions as they were written. */
  function Upwards(n: nat): (order: seq<nat>)
    ensures |order| == n && forall i :: 0 <= i < n ==> order[i] == i
  {
    seq(n, i requires 0 <= i < n => i)
  }

  lemma DefinitionsAreStored(areas: seq<Area>)
    requires forall a <- areas :: a.coordinates != []
    ensures StoresAll(Definitions(areas), areas, Upwards(|areas|))
  {
    forall k | 0 <= k < |areas|
      ensures Stores(Definitions(areas)[k], areas[k])
    {
      assert areas[k] in areas;
      WrittenIsStored(areas[k]);
      assert Definitions(areas)[k] == Definition(areas[k]);
    }
  }

  lemma PayloadKeys(channel: int32, enabled: bool, areas: seq<Area>)
    requires channel >= 0
    ensures HoldsChannel(Json.Object(Payload(channel, enabled, areas)), channel, enabled)
    ensures Payload(channel, enabled, areas)["definedArea"] == Json.Array(Definitions(areas))
  {
    WholeNumber(channel);
    assert "channel" != "enable" && "channel" != "definedArea" && "enable" != "definedArea";
  }

  /** A payload put in the place of the channel's container stores the channel, whatever the other
      containers hold. */
  lemma WrittenPayloadIsStored(document: Json.Value, channel: int32, enabled: bool, areas: seq<Area>, at: nat)
    requires channel >= 0 && forall a <- areas :: a.coordinates != []
    requires document.Object? && "ivaArea" in document.fields && document.fields["ivaArea"].Array?
    requires
      var items := document.fields["ivaArea"].items;
      && at < |items| && items[at] == Json.Object(Payload(channel, enabled, areas)) && OnlyAt(items, channel, at)
    ensures StoresChannel(document, channel, enabled, areas, at, Upwards(|areas|))
  {
    PayloadKeys(channel, enabled, areas);
    DefinitionsAreStored(areas);
  }

  // ---------- the limits ----------

  predicate InRange(value: int, range: IntegerRange) {
    range.minimum <= value <= range.maximum
  }

  predicate IsPixel(v: Json.Value, width: nat, height: nat) {
    && v.Object? && "x" in v.fields && "y" in v.fields && v.fields["x"].Number? && v.fields["y"].Number?
    && Json.IsIntegral(v.fields["x"].n) && 0.0 <= v.fields["x"].n <= width as real
    && Json.IsIntegral(v.fields["y"].n) && 0.0 <= v.fields["y"].n <= height as real
  }

  predicate ArePixels(v: Option<Json.Value>, count: IntegerRange, width: nat, height: nat) {
    && v.Some? && v.value.Array? && InRange(|v.value.items|, count)
    && forall p <- v.value.items :: IsPixel(p, width, height)
  }

  predicate AreOffered(v: Option<Json.Value>, offered: seq<string>) {
    v.Some? && v.value.Array? && forall t <- v.value.items :: t.String? && t.s in offered
  }

  predicate IsInRange(v: Option<Json.Value>, range: IntegerRange) {
    && v.Some? && v.value.Number? && Json.IsIntegral(v.value.n) && InRange(v.value.n.Floor, range)
  }

  /** A definition that respects what the camera offers for the channel. */
  predicate Respects(v: Json.Value, options: ChannelOptions, width: nat, height: nat) {
    && v.Object?
    && Trim(Json.AsText(Json.Get(v.fields, "name"))) != ""
    && IsInRange(Json.Get(v.fields, "index"), options.areaIndex)
    && ArePixels(Json.Get(v.fields, "areaCoordinates"), options.coordinateCount, width, height)
    && IsInRange(Json.Get(v.fields, "appearanceDuration"), options.appearanceDuration)
    && IsInRange(Json.Get(v.fields, "intrusionDuration"), options.intrusionDuration)
    && IsInRange(Json.Get(v.fields, "loiteringDuration"), options.loiteringDuration)
    && AreOffered(Json.Get(v.fields, "detectionModes"), options.detectionModes)
    && AreOffered(Json.Get(v.fields, "objectTypeFilter"), options.objectTypeFilters)
  }

  lemma PixelsWithin(points: seq<Point>, count: IntegerRange, width: nat, height: nat)
    ensures ArePixels(Some(Json.Array(PixelValues(points))), count, width, height)
       <==> PixelsAccepted(points, Some((width, height))) && InRange(|points|, count)
  {
    var values := PixelValues(points);
    forall i | 0 <= i < |points|
      ensures IsPixel(values[i], width, height) <==> PixelAccepted(points[i], Some((width, height)))
    {
      assert values[i] == PixelValue(points[i]);
    }
    if forall p <- values :: IsPixel(p, width, height) {
      forall i | 0 <= i < |points|
        ensures PixelAccepted(points[i], Some((width, height)))
      {
        assert values[i] in values;
      }
    }
  }

  lemma TextsOffered(texts: seq<string>, offered: seq<string>)
    ensures AreOffered(Some(Json.Array(TextValues(texts))), offered) <==> Supported(texts, offered)
  {
    var values := TextValues(texts);
    if Supported(texts, offered) {
      forall t <- values
        ensures t.String? && t.s in offered
      {
        var i :| 0 <= i < |values| && values[i] == t;
        assert texts[i] in texts;
      }
    }
    if forall t <- values :: t.String? && t.s in offered {
      forall t <- texts
        ensures t in offered
      {
        var i :| 0 <= i < |texts| && texts[i] == t;
        assert values[i] in values;
      }
    }
  }

  lemma NumberWithin(n: int32, range: IntegerRange)
    ensures IsInRange(Some(Json.Number(n as real)), range) && range.minimum >= 0 <==> range.Contains(n)
  {
  }

  /** The camera never offers a negative number. */
  predicate AreSane(options: ChannelOptions) {
    && options.areaIndex.minimum >= 0 && options.coordinateCount.minimum >= 0
    && options.appearanceDuration.minimum >= 0 && options.intrusionDuration.minimum >= 0
    && options.loiteringDuration.minimum >= 0
  }

  /** An area is accepted exactly when it is one of the channel and its written definition respects the
      limits, none of which is negative. */
  lemma AcceptedExactly(area: Area, channel: int32, options: ChannelOptions, width: nat, height: nat)
    ensures AreaAccepted(area, channel, options, Some((width, height)))
       <==> area.channel == channel && AreSane(options) && Respects(Definition(area), options, width, height)
  {
    DefinitionKeys(area);
    DefinitionLists(area);
    TrimIsIdempotent(area.name);
    PixelsWithin(area.coordinates, options.coordinateCount, width, height);
    TextsOffered(area.detectionModes, options.detectionModes);
    TextsOffered(area.objectTypeFilter, options.objectTypeFilters);
    NumberWithin(area.areaIndex, options.areaIndex);
    NumberWithin(area.appearanceDuration, options.appearanceDuration);
    NumberWithin(area.intrusionDuration, options.intrusionDuration);
    NumberWithin(area.loiteringDuration, options.loiteringDuration);
  }

  // ---------- what the client knows of a channel ----------

  ghost predicate IsFirstOptions(all: seq<ChannelOptions>, channel: int, options: ChannelOptions) {
    exists k :: 0 <= k < |all| && all[k] == options && options.channel == channel
                && forall i :: 0 <= i < k ==> all[i].channel != channel
  }

  ghost predicate IsFirstCapability(all: seq<Capability>, channel: int, capability: Capability) {
    exists k :: 0 <= k < |all| && all[k] == capability && capability.channel == channel
                && forall i :: 0 <= i < k ==> all[i].channel != channel
  }

  lemma {:induction false} FirstOptions(all: seq<ChannelOptions>, channel: int, options: ChannelOptions)
    ensures OptionsFor(all, channel) == Some(options) <==> IsFirstOptions(all, channel, options)
  {
    if all != [] {
      if all[0].channel == channel {
        if IsFirstOptions(all, channel, options) {
          var k :| 0 <= k < |all| && all[k] == options && options.channel == channel
                   && forall i :: 0 <= i < k ==> all[i].channel != channel;
          assert k == 0;
        }
      } else {
        FirstOptions(all[1..], channel, options);
        LaterOptions(all, channel, options);
      }
    }
  }

  lemma LaterOptions(all: seq<ChannelOptions>, channel: int, options: ChannelOptions)
    requires all != [] && all[0].channel != channel
    ensures IsFirstOptions(all, channel, options) <==> IsFirstOptions(all[1..], channel, options)
  {
    if IsFirstOptions(all[1..], channel, options) {
      var k :| 0 <= k < |all[1..]| && all[1..][k] == options && options.channel == channel
               && forall i :: 0 <= i < k ==> all[1..][i].channel != channel;
      assert all[k + 1] == options;
      assert forall i :: 0 < i < k + 1 ==> all[i] == all[1..][i - 1];
    }
    if IsFirstOptions(all, channel, options) {
      var k :| 0 <= k < |all| && all[k] == options && options.channel == channel
               && forall i :: 0 <= i < k ==> all[i].channel != channel;
      assert all[1..][k - 1] == options;
      assert forall i :: 0 <= i < k - 1 ==> all[1..][i] == all[i + 1];
    }
  }

  lemma {:induction false} FirstCapability(all: seq<Capability>, channel: int, capability: Capability)
    ensures CapabilityFor(all, channel) == Some(capability) <==> IsFirstCapability(all, channel, capability)
  {
    if all != [] {
      if all[0].channel == channel {
        if IsFirstCapability(all, channel, capability) {
          var k :| 0 <= k < |all| && all[k] == capability && capability.channel == channel
                   && forall i :: 0 <= i < k ==> all[i].channel != channel;
          assert k == 0;
        }
      } else {
        FirstCapability(all[1..], channel, capability);
        LaterCapability(all, channel, capability);
      }
    }
  }

  lemma LaterCapability(all: seq<Capability>, channel: int, capability: Capability)
    requires all != [] && all[0].channel != channel
    ensures IsFirstCapability(all, channel, capability) <==> IsFirstCapability(all[1..], channel, capability)
  {
    if IsFirstCapability(all[1..], channel, capability) {
      var k :| 0 <= k < |all[1..]| && all[1..][k] == capability && capability.channel == channel
               && forall i :: 0 <= i < k ==> all[1..][i].channel != channel;
      assert all[k + 1] == capability;
      assert forall i :: 0 < i < k + 1 ==> all[i] == all[1..][i - 1];
    }
    if IsFirstCapability(all, channel, capability) {
      var k :| 0 <= k < |all| && all[k] == capability && capability.channel == channel
               && forall i :: 0 <= i < k ==> all[i].channel != channel;
      assert all[1..][k - 1] == capability;
      assert forall i :: 0 <= i < k - 1 ==> all[1..][i] == all[i + 1];
    }
  }

  /** The camera has reported these options and this resolution for the channel, and supports areas on it. */
  ghost predicate Reported(c: Client, channel: int, options: ChannelOptions, width: nat, height: nat) {
    && c.options.Some? && IsFirstOptions(c.options.value, channel, options)
    && c.capabilities.Some?
    && exists capability ::
         && IsFirstCapability(c.capabilities.value, channel, capability)
         && capability.ivaAreaSupported && capability.maxResolution == Some((width, height))
  }

  lemma FactsAreReported(c: Client, channel: int, options: ChannelOptions, width: nat, height: nat)
    ensures ChannelFacts(c, channel) == Some((options, Some((width, height)))) <==> Reported(c, channel, options, width, height)
  {
    if c.options.Some? && c.capabilities.Some? {
      FirstOptions(c.options.value, channel, options);
      if CapabilityFor(c.capabilities.value, channel).Some? {
        FirstCapability(c.capabilities.value, channel, CapabilityFor(c.capabilities.value, channel).value);
      }
      forall capability: Capability
        ensures IsFirstCapability(c.capabilities.value, channel, capability)
                ==> CapabilityFor(c.capabilities.value, channel) == Some(capability)
      {
        FirstCapability(c.capabilities.value, channel, capability);
      }
    }
  }

  // ---------- every write within the limits ----------

  /** A payload of this channel whose definitions respect the limits and have different indexes. */
  ghost predicate IsWithin(payload: Json.Fields, channel: int, options: ChannelOptions, width: nat, height: nat) {
    && Json.Get(payload, "channel") == Some(Json.Number(channel as real))
    && "definedArea" in payload && payload["definedArea"].Array?
    && (forall v <- payload["definedArea"].items :: Respects(v, options, width, height))
    && (forall i, j :: 0 <= i < j < |payload["definedArea"].items| ==>
          Json.Get(FieldsOf(payload["definedArea"].items[i]), "index") != Json.Get(FieldsOf(payload["definedArea"].items[j]), "index"))
  }

  lemma AcceptedIsWithin(channel: int32, enabled: bool, areas: seq<Area>, options: ChannelOptions, width: nat, height: nat)
    requires PayloadAccepted(channel, areas, options, Some((width, height)))
    ensures IsWithin(Payload(channel, enabled, areas), channel, options, width, height)
  {
    PayloadKeys(channel, enabled, areas);
    var items := Definitions(areas);
    forall v <- items
      ensures Respects(v, options, width, height)
    {
      var i :| 0 <= i < |items| && items[i] == v;
      AcceptedExactly(areas[i], channel, options, width, height);
    }
    forall i, j | 0 <= i < j < |items|
      ensures Json.Get(FieldsOf(items[i]), "index") != Json.Get(FieldsOf(items[j]), "index")
    {
      DefinitionKeys(areas[i]);
      DefinitionKeys(areas[j]);
    }
  }

  /** In every run, whatever is written to the camera stays within the limits it has reported for the channel. */
  lemma WritesStayWithin(s: System, e: Event, kind: Kind, payload: Json.Fields)
    requires Reachable(s) && Possible(s, e) && Put(kind, payload) in Step(s, e).1
    ensures s.journal.job.Some?
    ensures exists options: ChannelOptions, width: nat, height: nat ::
              && Reported(s.client, s.journal.job.value.goal.channel, options, width, height)
              && IsWithin(payload, s.journal.job.value.goal.channel, options, width, height)
  {
    ReachableIsSound(s);
    WritesAreGuarded(s, e, Put(kind, payload));
    var goal := s.journal.job.value.goal;
    var (options, resolution) := ChannelFacts(s.client, goal.channel).value;
    var (width, height) := resolution.value;
    FactsAreReported(s.client, goal.channel, options, width, height);
    AcceptedIsWithin(goal.channel, goal.enabled, goal.areas, options, width, height);
    AcceptedIsWithin(goal.channel, goal.goodEnabled, goal.goodAreas, options, width, height);
  }

  // ---------- when a call starts ----------

  /** Nothing is under way, and the client has read the channel before. */
  predicate IsReady(c: Client, channel: int) {
    && !c.replyPending && !c.timerActive && c.connectionValid && c.configuration.Some?
    && ChannelObject(c.configuration.value, channel) != map[]
  }

  /** These areas could be written to the channel as the camera reports it. */
  ghost predicate CanBeWritten(c: Client, channel: int32, areas: seq<Area>) {
    exists options: ChannelOptions, width: nat, height: nat ::
      Reported(c, channel, options, width, height) && PayloadAccepted(channel, areas, options, Some((width, height)))
  }

  lemma FactsForWriting(c: Client, channel: int32, areas: seq<Area>)
    ensures CanBeWritten(c, channel, areas)
       <==> ChannelFacts(c, channel).Some?
            && PayloadAccepted(channel, areas, ChannelFacts(c, channel).value.0, ChannelFacts(c, channel).value.1)
  {
    if ChannelFacts(c, channel).Some? {
      var (options, resolution) := ChannelFacts(c, channel).value;
      var (width, height) := resolution.value;
      FactsAreReported(c, channel, options, width, height);
    }
    if CanBeWritten(c, channel, areas) {
      var options: ChannelOptions, width: nat, height: nat :|
        Reported(c, channel, options, width, height) && PayloadAccepted(channel, areas, options, Some((width, height)));
      FactsAreReported(c, channel, options, width, height);
    }
  }

  /** An apply call starts a change exactly when the client is ready, both the areas asked for and those
      read before could be written, and the two are written differently. */
  lemma ApplyStartsExactly(s: System, call: Event)
    requires call.Apply?
    ensures ApplyStarted(call.channel) in Step(s, call).1
       <==> && IsReady(s.client, call.channel)
            && var read := OnChannel(s.client.configuration.value.areas, call.channel);
            && CanBeWritten(s.client, call.channel, call.areas) && CanBeWritten(s.client, call.channel, read)
            && Payload(call.channel, call.enabled, call.areas)
               != Payload(call.channel, RawEnabled(ChannelObject(s.client.configuration.value, call.channel)), read)
  {
    if s.client.configuration.Some? {
      FactsForWriting(s.client, call.channel, call.areas);
      FactsForWriting(s.client, call.channel, OnChannel(s.client.configuration.value.areas, call.channel));
    }
  }

  lemma {:induction false} FewerAreAccepted(channel: int32, areas: seq<Area>, areaIndex: int, options: ChannelOptions, resolution: Resolution)
    requires PayloadAccepted(channel, areas, options, resolution)
    ensures PayloadAccepted(channel, WithoutIndex(areas, areaIndex), options, resolution)
    ensures forall a <- WithoutIndex(areas, areaIndex) :: a in areas
  {
    if areas != [] {
      var n := |areas| - 1;
      assert areas == areas[..n] + [areas[n]];
      FewerAreAccepted(channel, areas[..n], areaIndex, options, resolution);
      var before := WithoutIndex(areas[..n], areaIndex);
      forall i | 0 <= i < |before|
        ensures before[i].areaIndex != areas[n].areaIndex
      {
        assert before[i] in areas[..n];
      }
    }
  }

  /** A delete call starts a change exactly when the client is ready, it has read an area of that index,
      and the areas read could be written back. */
  lemma DeleteStartsExactly(s: System, call: Event)
    requires call.DeleteArea?
    ensures ApplyStarted(call.channel) in Step(s, call).1
       <==> && IsReady(s.client, call.channel)
            && var read := OnChannel(s.client.configuration.value.areas, call.channel);
            && (exists a <- read :: a.areaIndex == call.areaIndex)
            && CanBeWritten(s.client, call.channel, read)
  {
    if s.client.configuration.Some? {
      var read := OnChannel(s.client.configuration.value.areas, call.channel);
      FactsForWriting(s.client, call.channel, read);
      if CanBeWritten(s.client, call.channel, read) {
        var (options, resolution) := ChannelFacts(s.client, call.channel).value;
        FewerAreAccepted(call.channel, read, call.areaIndex, options, resolution);
      }
    }
  }
}

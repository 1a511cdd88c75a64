/** Writing a channel, reading it back, and comparing: what a match means, and
    that an honest camera always produces one. */
module AreaRoundTrip {
  import opened Text
  import opened Polygon
  import opened AreaConfiguration
  import opened AreaPayload
  import Json

  // ---------- the written definition, read by the comparison ----------

  lemma {:induction false} StringItemsOfTexts(texts: seq<string>)
    ensures StringItems(TextValues(texts)) == texts
  {
    if texts != [] {
      var n := |texts| - 1;
      StringItemsOfTexts(texts[..n]);
      assert TextValues(texts)[..n] == TextValues(texts[..n]);
      assert texts == texts[..n] + [texts[n]];
    }
  }

  lemma PointsOfPixels(points: seq<Point>)
    ensures AllPoints(PixelValues(points)) && PointsOf(PixelValues(points)) == points
  {
    var items := PixelValues(points);
    forall i | 0 <= i < |items|
      ensures PointOf(items[i]) == Some(points[i])
    {
      assert items[i] == PixelValue(points[i]);
    }
  }

  lemma WholeNumber(n: int32)
    ensures Json.AsInt(Json.Number(n as real), -1) == n
  {
  }

  /** What the comparison reads out of a written definition. */
  lemma DefinitionFields(area: Area)
    ensures
      var fields := FieldsOf(Definition(area));
      && IndexOf(Definition(area)) == area.areaIndex
      && Trim(Json.AsText(Json.Get(fields, "name"))) == Trim(area.name)
      && TextsOf(Json.Get(fields, "detectionModes")) == area.detectionModes
      && TextsOf(Json.Get(fields, "objectTypeFilter")) == area.objectTypeFilter
      && Json.Get(fields, "areaCoordinates") == Some(Json.Array(PixelValues(area.coordinates)))
  {
    WholeNumber(area.areaIndex);
    TrimIsIdempotent(area.name);
    StringItemsOfTexts(area.detectionModes);
    StringItemsOfTexts(area.objectTypeFilter);
  }

  lemma DefinitionDurations(area: Area, actual: Area)
    ensures DurationsAgree(FieldsOf(Definition(area)), actual)
       <==> actual.appearanceDuration == area.appearanceDuration
            && actual.intrusionDuration == area.intrusionDuration
            && actual.loiteringDuration == area.loiteringDuration
  {
    WholeNumber(area.appearanceDuration);
    WholeNumber(area.intrusionDuration);
    WholeNumber(area.loiteringDuration);
  }

  /** Two records of the same rule: equal index, name and durations, the same modes and
      filters in any order, and one polygon drawn from another vertex or the other way round. */
  ghost predicate SameArea(written: Area, actual: Area) {
    && actual.areaIndex == written.areaIndex
    && Trim(actual.name) == Trim(written.name)
    && multiset(actual.detectionModes) == multiset(written.detectionModes)
    && multiset(actual.objectTypeFilter) == multiset(written.objectTypeFilter)
    && actual.appearanceDuration == written.appearanceDuration
    && actual.intrusionDuration == written.intrusionDuration
    && actual.loiteringDuration == written.loiteringDuration
    && Matches(written.coordinates, actual.coordinates)
  }

  /** The comparison with a written definition accepts exactly the records of the same rule. */
  lemma DefinitionMatches(written: Area, actual: Area)
    ensures AreaMatches(Definition(written), actual) <==> SameArea(written, actual)
  {
    DefinitionFields(written);
    DefinitionDurations(written, actual);
    PointsOfPixels(written.coordinates);
  }

  // ---------- counting ----------

  ghost predicate Injective(order: seq<nat>) {
    forall i, j :: 0 <= i < j < |order| ==> order[i] != order[j]
  }

  ghost predicate Below(order: seq<nat>, n: nat) {
    forall i :: 0 <= i < |order| ==> order[i] < n
  }

  ghost function Numbers(n: nat): (s: set<int>)
    ensures forall x :: x in s <==> 0 <= x < n
    ensures |s| == n
  {
    if n == 0 then {} else
      assert n - 1 !in Numbers(n - 1);
      Numbers(n - 1) + {n - 1}
  }

  ghost function Elements(order: seq<nat>): (s: set<int>)
    ensures forall x :: x in s <==> x in order
  {
    if order == [] then {} else
      assert order == order[..|order| - 1] + [order[|order| - 1]];
      Elements(order[..|order| - 1]) + {order[|order| - 1]}
  }

  lemma {:induction false} CountDistinct(order: seq<nat>)
    requires Injective(order)
    ensures |Elements(order)| == |order|
  {
    if order != [] {
      var n := |order| - 1;
      CountDistinct(order[..n]);
      assert order[n] !in order[..n];
    }
  }

  /** n different numbers below n are all of them. */
  lemma EveryNumberIsHit(order: seq<nat>, n: nat, x: nat)
    requires Injective(order) && Below(order, n) && |order| == n && x < n
    ensures x in order
  {
    CountDistinct(order);
    if x !in order {
      OneIsMissed(Elements(order), n, x);
    }
  }

  lemma OneIsMissed(hit: set<int>, n: nat, x: nat)
    requires x < n && x !in hit && forall y <- hit :: 0 <= y < n
    ensures |hit| < n
  {
    var rest := Numbers(n) - {x};
    assert Numbers(n) == rest + {x};
    SubsetIsSmaller(hit, rest);
  }

  lemma SubsetIsSmaller(a: set<int>, b: set<int>)
    requires a <= b
    ensures |a| <= |b|
  {
    assert b == a + (b - a) && a !! (b - a);
  }

  // ---------- what a match means ----------

  ghost predicate FoundIn(written: Area, actual: seq<Area>) {
    exists k :: 0 <= k < |actual| && SameArea(written, actual[k])
  }

  ghost predicate WantedBy(actual: Area, written: seq<Area>) {
    exists i :: 0 <= i < |written| && SameArea(written[i], actual)
  }

  ghost predicate EachMatched(written: seq<Area>, actual: seq<Area>) {
    forall i :: 0 <= i < |written| ==> FoundIn(written[i], actual)
  }

  ghost predicate EachWanted(written: seq<Area>, actual: seq<Area>) {
    forall k :: 0 <= k < |actual| ==> WantedBy(actual[k], written)
  }

  /** Index for index, the same areas: nothing missing, nothing extra, no index twice. */
  ghost predicate SameAreas(written: seq<Area>, actual: seq<Area>) {
    && DistinctIndexes(written) && DistinctIndexes(actual)
    && (forall i :: 0 <= i < |written| ==> written[i].areaIndex >= 0)
    && |written| == |actual|
    && EachMatched(written, actual) && EachWanted(written, actual)
  }

  ghost predicate ChannelIs(channel: int, enabled: bool, written: seq<Area>, configuration: Configuration) {
    var found := FindChannel(configuration.channels, channel);
    && found.Some? && found.value.enabled == enabled
    && SameAreas(written, OnChannel(configuration.areas, channel))
  }

  ghost function PlaceOf(written: Area, actual: seq<Area>): (k: nat)
    requires FoundIn(written, actual)
    ensures k < |actual| && SameArea(written, actual[k])
  {
    var k :| 0 <= k < |actual| && SameArea(written, actual[k]);
    k
  }

  ghost function Places(written: seq<Area>, actual: seq<Area>): (places: seq<nat>)
    requires EachMatched(written, actual)
    ensures |places| == |written| && Below(places, |actual|)
    ensures forall i :: 0 <= i < |written| ==> places[i] < |actual| && SameArea(written[i], actual[places[i]])
  {
    seq(|written|, i requires 0 <= i < |written| => PlaceOf(written[i], actual))
  }

  lemma PlacesDiffer(written: seq<Area>, actual: seq<Area>)
    requires DistinctIndexes(written) && EachMatched(written, actual)
    ensures Injective(Places(written, actual))
  {
    var places := Places(written, actual);
    forall i, j | 0 <= i < j < |places|
      ensures places[i] != places[j]
    {
      assert SameArea(written[i], actual[places[i]]) && SameArea(written[j], actual[places[j]]);
    }
  }

  /** Equally many areas with different indexes, each written one found: so nothing else is there. */
  lemma NothingElse(written: seq<Area>, actual: seq<Area>)
    requires DistinctIndexes(written) && |written| == |actual| && EachMatched(written, actual)
    ensures EachWanted(written, actual)
  {
    var places := Places(written, actual);
    PlacesDiffer(written, actual);
    forall k | 0 <= k < |actual|
      ensures WantedBy(actual[k], written)
    {
      EveryNumberIsHit(places, |actual|, k);
      var i :| 0 <= i < |places| && places[i] == k;
      assert SameArea(written[i], actual[k]);
    }
  }

  lemma PayloadFields(channel: int32, enabled: bool, areas: seq<Area>)
    ensures
      var payload := Payload(channel, enabled, areas);
      && IntField(payload, "channel") == channel
      && ("enable" in payload && payload["enable"] == Json.Bool(true) <==> enabled)
      && ExpectedItems(payload) == Some(Definitions(areas))
  {
    WholeNumber(channel);
  }

  lemma DefinitionIndexes(areas: seq<Area>)
    ensures ExpectedIndexesValid(Definitions(areas))
       <==> DistinctIndexes(areas) && forall i :: 0 <= i < |areas| ==> areas[i].areaIndex >= 0
  {
    var items := Definitions(areas);
    forall i | 0 <= i < |areas|
      ensures IndexOf(items[i]) == areas[i].areaIndex
    {
      assert items[i] == Definition(areas[i]);
      DefinitionFields(areas[i]);
    }
  }

  lemma DefinitionsMatched(written: seq<Area>, actual: seq<Area>)
    ensures (forall i :: 0 <= i < |written| ==> HasMatch(Definitions(written)[i], actual))
       <==> EachMatched(written, actual)
  {
    var items := Definitions(written);
    forall i | 0 <= i < |written|
      ensures HasMatch(items[i], actual) <==> FoundIn(written[i], actual)
    {
      assert items[i] == Definition(written[i]);
      MatchOfOne(written[i], actual);
    }
  }

  lemma MatchOfOne(written: Area, actual: seq<Area>)
    ensures HasMatch(Definition(written), actual) <==> FoundIn(written, actual)
  {
    if HasMatch(Definition(written), actual) {
      var a :| a in actual && AreaMatches(Definition(written), a);
      DefinitionMatches(written, a);
    }
    if k :| 0 <= k < |actual| && SameArea(written, actual[k]) {
      DefinitionMatches(written, actual[k]);
      assert actual[k] in actual;
    }
  }

  /** The verification of a written channel succeeds exactly when the camera holds that channel. */
  lemma MatchMeansSameChannel(channel: int32, enabled: bool, written: seq<Area>, configuration: Configuration)
    ensures ChannelMatches(Payload(channel, enabled, written), configuration)
       <==> ChannelIs(channel, enabled, written, configuration)
  {
    var actual := OnChannel(configuration.areas, channel);
    PayloadFields(channel, enabled, written);
    DefinitionIndexes(written);
    DefinitionsMatched(written, actual);
    if AreasMatch(Definitions(written), actual) {
      NothingElse(written, actual);
    }
  }

  // ---------- a camera that stores what was written ----------

  /** The vertices from another start, in either direction, each coordinate off by at most one. */
  ghost predicate Redrawn(drawn: seq<Point>, stored: seq<Point>) {
    |stored| == |drawn| && exists k :: 0 <= k < |drawn| && TurnedInto(drawn, stored, k)
  }

  ghost predicate TurnedInto(drawn: seq<Point>, stored: seq<Point>, k: nat)
    requires k < |drawn|
  {
    Close(Rotated(drawn, k), stored) || Close(Reversed(Rotated(drawn, k)), stored)
  }

  ghost predicate Close(p: seq<Point>, q: seq<Point>) {
    |p| == |q| && forall i :: 0 <= i < |p| ==> Near(p[i], q[i])
  }

  lemma CloseMatches(p: seq<Point>, q: seq<Point>)
    requires Close(p, q) && p != []
    ensures Matches(p, q)
  {
    assert AlignsForward(p, q, 0);
    MatchAt(p, q, 0);
  }

  lemma RedrawnMatches(drawn: seq<Point>, stored: seq<Point>)
    requires Redrawn(drawn, stored)
    ensures Matches(drawn, stored)
  {
    var k :| 0 <= k < |drawn| && TurnedInto(drawn, stored, k);
    var turned := Rotated(drawn, k);
    if Close(turned, stored) {
      CloseMatches(turned, stored);
    } else {
      CloseMatches(Reversed(turned), stored);
      ExpectedMayMove(turned, stored, 0);
    }
    ExpectedMayMove(drawn, stored, k);
  }

  ghost predicate StoresTexts(v: Option<Json.Value>, texts: seq<string>) {
    exists shuffled :: v == Some(Json.Array(TextValues(shuffled))) && multiset(shuffled) == multiset(texts)
  }

  ghost predicate StoresPolygon(v: Option<Json.Value>, drawn: seq<Point>) {
    && v.Some? && v.value.Array?
    && (forall i :: 0 <= i < |v.value.items| ==> IsNumericPoint(v.value.items[i]))
    && Redrawn(drawn, NumericPoints(v.value.items))
  }

  /** A stored definition of this rule; it may hold further keys. */
  ghost predicate Stores(v: Json.Value, area: Area) {
    && v.Object?
    && Trim(Json.AsText(Json.Get(v.fields, "name"))) == Trim(area.name)
    && Json.Get(v.fields, "index") == Some(Json.Number(area.areaIndex as real))
    && Json.Get(v.fields, "appearanceDuration") == Some(Json.Number(area.appearanceDuration as real))
    && Json.Get(v.fields, "intrusionDuration") == Some(Json.Number(area.intrusionDuration as real))
    && Json.Get(v.fields, "loiteringDuration") == Some(Json.Number(area.loiteringDuration as real))
    && StoresTexts(Json.Get(v.fields, "detectionModes"), area.detectionModes)
    && StoresTexts(Json.Get(v.fields, "objectTypeFilter"), area.objectTypeFilter)
    && StoresPolygon(Json.Get(v.fields, "areaCoordinates"), area.coordinates)
  }

  /** The definitions in some other order. */
  ghost predicate StoresAll(items: seq<Json.Value>, areas: seq<Area>, order: seq<nat>) {
    && |items| == |areas| == |order|
    && Injective(order) && Below(order, |areas|)
    && forall k :: 0 <= k < |items| ==> Stores(items[k], areas[order[k]])
  }

  ghost predicate ReadsAlone(v: Json.Value) {
    ParseContainer(v, Configuration([], [])).Some?
  }

  /** A document with one container for this channel, at position `at`, and readable ones for others. */
  ghost predicate StoresChannel(document: Json.Value, channel: int32, enabled: bool, areas: seq<Area>,
                                at: nat, order: seq<nat>)
  {
    && document.Object? && "ivaArea" in document.fields && document.fields["ivaArea"].Array?
    && var items := document.fields["ivaArea"].items;
    && at < |items|
    && HoldsChannel(items[at], channel, enabled)
    && StoresAll(items[at].fields["definedArea"].items, areas, order)
    && OnlyAt(items, channel, at)
  }

  ghost predicate HoldsChannel(v: Json.Value, channel: int32, enabled: bool) {
    IsContainer(v) && ContainerChannel(v) == channel && v.fields["enable"] == Json.Bool(enabled)
  }

  ghost predicate OnlyAt(items: seq<Json.Value>, channel: int32, at: nat) {
    forall k :: 0 <= k < |items| && k != at ==>
      ReadsAlone(items[k]) && IsContainer(items[k]) && ContainerChannel(items[k]) != channel
  }

  // ---------- reading a stored definition ----------

  /** The values an option offers are trimmed and not empty. */
  ghost predicate TrimmedTextsOnly(texts: seq<string>) {
    forall t <- texts :: t != "" && Trim(t) == t
  }

  ghost predicate UsableOptions(options: ChannelOptions) {
    && TrimmedTextsOnly(options.detectionModes) && TrimmedTextsOnly(options.objectTypeFilters)
    && options.coordinateCount.minimum >= 3
  }

  lemma StoredTextsRead(fields: Json.Fields, key: string, oldKey: string, texts: seq<string>)
    requires StoresTexts(Json.Get(fields, key), texts) && TrimmedTextsOnly(texts)
    ensures ParseStrings(fields, key, oldKey).Some?
    ensures multiset(ParseStrings(fields, key, oldKey).value) == multiset(texts)
  {
    var shuffled :| Json.Get(fields, key) == Some(Json.Array(TextValues(shuffled)))
                    && multiset(shuffled) == multiset(texts);
    var items := TextValues(shuffled);
    forall i | 0 <= i < |items|
      ensures IsNonEmptyText(items[i]) && Trim(Json.AsText(Some(items[i]))) == shuffled[i]
    {
      assert shuffled[i] in multiset(shuffled);
      assert shuffled[i] in texts;
      assert items[i] == Json.String(shuffled[i]);
    }
    assert TrimmedTexts(items) == shuffled;
  }

  lemma StoredNumbersRead(fields: Json.Fields, n: int32)
    requires n >= 0
    ensures Json.Get(fields, "index") == Some(Json.Number(n as real)) ==> ParseAreaIndex(fields) == Some(n)
  {
    WholeNumber(n);
  }

  lemma StoredDurationRead(fields: Json.Fields, key: string, oldKey: string, n: int32)
    requires n >= 0 && Json.Get(fields, key) == Some(Json.Number(n as real))
    ensures ParseDuration(fields, key, oldKey) == Some(n)
  {
    WholeNumber(n);
  }

  lemma StoredPolygonRead(fields: Json.Fields, drawn: seq<Point>)
    requires StoresPolygon(Json.Get(fields, "areaCoordinates"), drawn) && |drawn| >= 3
    ensures ParseCoordinates(fields).Some?
    ensures Matches(drawn, ParseCoordinates(fields).value)
  {
    RedrawnMatches(drawn, NumericPoints(Json.Get(fields, "areaCoordinates").value.items));
  }

  /** A rule that was accepted for writing can be read back from where it is stored. */
  lemma StoredDefinitionRead(v: Json.Value, area: Area, channel: int32, options: ChannelOptions, resolution: Resolution)
    requires Stores(v, area) && AreaAccepted(area, channel, options, resolution) && UsableOptions(options)
    ensures ParseDefinition(v, channel).Some?
    ensures SameArea(area, ParseDefinition(v, channel).value)
  {
    var fields := v.fields;
    AcceptedTexts(area, channel, options, resolution);
    StoredNumbersRead(fields, area.areaIndex);
    StoredTextsRead(fields, "detectionModes", "detection_modes", area.detectionModes);
    StoredTextsRead(fields, "objectTypeFilter", "object_type_filter", area.objectTypeFilter);
    StoredDurationRead(fields, "appearanceDuration", "appearance_duration", area.appearanceDuration);
    StoredDurationRead(fields, "intrusionDuration", "intrusion_duration", area.intrusionDuration);
    StoredDurationRead(fields, "loiteringDuration", "loitering_duration", area.loiteringDuration);
    StoredPolygonRead(fields, area.coordinates);
    TrimIsIdempotent(Json.AsText(Json.Get(fields, "name")));
    TrimIsIdempotent(area.name);
  }

  /** A definition of this rule under the keys of older firmware, its index as a number or as text. */
  ghost predicate StoresOld(v: Json.Value, area: Area) {
    && v.Object?
    && "index" !in v.fields && "detectionModes" !in v.fields && "objectTypeFilter" !in v.fields
    && "appearanceDuration" !in v.fields && "intrusionDuration" !in v.fields && "loiteringDuration" !in v.fields
    && Trim(Json.AsText(Json.Get(v.fields, "name"))) == Trim(area.name)
    && (Json.Get(v.fields, "areaIndex") == Some(Json.Number(area.areaIndex as real))
        || (area.areaIndex >= 0 && Json.Get(v.fields, "areaIndex") == Some(Json.String(Decimal(area.areaIndex)))))
    && Json.Get(v.fields, "appearance_duration") == Some(Json.Number(area.appearanceDuration as real))
    && Json.Get(v.fields, "intrusion_duration") == Some(Json.Number(area.intrusionDuration as real))
    && Json.Get(v.fields, "loitering_duration") == Some(Json.Number(area.loiteringDuration as real))
    && StoresTexts(Json.Get(v.fields, "detection_modes"), area.detectionModes)
    && StoresTexts(Json.Get(v.fields, "object_type_filter"), area.objectTypeFilter)
    && StoresPolygon(Json.Get(v.fields, "areaCoordinates"), area.coordinates)
  }

  lemma OldTextsRead(fields: Json.Fields, key: string, oldKey: string, texts: seq<string>)
    requires key !in fields && StoresTexts(Json.Get(fields, oldKey), texts) && TrimmedTextsOnly(texts)
    ensures ParseStrings(fields, key, oldKey).Some?
    ensures multiset(ParseStrings(fields, key, oldKey).value) == multiset(texts)
  {
    StoredTextsRead(fields, oldKey, oldKey, texts);
    assert FirstValue(fields, key, oldKey) == FirstValue(fields, oldKey, oldKey);
  }

  lemma OldDurationRead(fields: Json.Fields, key: string, oldKey: string, n: int32)
    requires n >= 0 && key !in fields && Json.Get(fields, oldKey) == Some(Json.Number(n as real))
    ensures ParseDuration(fields, key, oldKey) == Some(n)
  {
    WholeNumber(n);
  }

  lemma DecimalIsInteger(n: nat)
    ensures ParseInteger(Decimal(n)) == Some(n)
  {
    var digits := Decimal(n);
    TrimmedStays(digits);
    DecimalRoundTrip(n);
    assert IsDigit(digits[0]);
  }

  lemma OldIndexRead(fields: Json.Fields, n: int32)
    requires n >= 0 && "index" !in fields
    requires Json.Get(fields, "areaIndex") == Some(Json.Number(n as real))
             || Json.Get(fields, "areaIndex") == Some(Json.String(Decimal(n)))
    ensures ParseAreaIndex(fields) == Some(n)
  {
    WholeNumber(n);
    DecimalIsInteger(n);
  }

  /** So is a rule under the keys of older firmware. */
  lemma OldDefinitionRead(v: Json.Value, area: Area, channel: int32, options: ChannelOptions, resolution: Resolution)
    requires StoresOld(v, area) && AreaAccepted(area, channel, options, resolution) && UsableOptions(options)
    ensures ParseDefinition(v, channel).Some?
    ensures SameArea(area, ParseDefinition(v, channel).value)
  {
    var fields := v.fields;
    AcceptedTexts(area, channel, options, resolution);
    OldIndexRead(fields, area.areaIndex);
    OldTextsRead(fields, "detectionModes", "detection_modes", area.detectionModes);
    OldTextsRead(fields, "objectTypeFilter", "object_type_filter", area.objectTypeFilter);
    OldDurationRead(fields, "appearanceDuration", "appearance_duration", area.appearanceDuration);
    OldDurationRead(fields, "intrusionDuration", "intrusion_duration", area.intrusionDuration);
    OldDurationRead(fields, "loiteringDuration", "loitering_duration", area.loiteringDuration);
    StoredPolygonRead(fields, area.coordinates);
    TrimIsIdempotent(Json.AsText(Json.Get(fields, "name")));
    TrimIsIdempotent(area.name);
  }

  lemma AcceptedTexts(area: Area, channel: int32, options: ChannelOptions, resolution: Resolution)
    requires AreaAccepted(area, channel, options, resolution) && UsableOptions(options)
    ensures TrimmedTextsOnly(area.detectionModes) && TrimmedTextsOnly(area.objectTypeFilter)
  {
  }

  // ---------- reading a stored channel ----------

  lemma StoredAreasRead(items: seq<Json.Value>, areas: seq<Area>, order: seq<nat>,
                        channel: int32, options: ChannelOptions, resolution: Resolution)
    requires StoresAll(items, areas, order) && UsableOptions(options)
    requires PayloadAccepted(channel, areas, options, resolution)
    ensures ParseDefinitions(items, channel).Some?
    ensures SameAreas(areas, ParseDefinitions(items, channel).value)
    ensures forall a <- ParseDefinitions(items, channel).value :: a.channel == channel
  {
    forall k | 0 <= k < |items|
      ensures ParseDefinition(items[k], channel).Some?
      ensures SameArea(areas[order[k]], ParseDefinition(items[k], channel).value)
    {
      StoredDefinitionRead(items[k], areas[order[k]], channel, options, resolution);
    }
    DefinitionsAllRead(items, channel);
    var read := ParseDefinitions(items, channel).value;
    forall k | 0 <= k < |items|
      ensures SameArea(areas[order[k]], read[k]) && read[k].channel == channel
    {
      DefinitionsInOrder(items, channel, k);
    }
    ReorderedAreasAreSame(areas, read, order);
  }

  lemma ReorderedAreasAreSame(areas: seq<Area>, read: seq<Area>, order: seq<nat>)
    requires |areas| == |read| == |order| && Injective(order) && Below(order, |areas|)
    requires forall k :: 0 <= k < |read| ==> SameArea(areas[order[k]], read[k])
    requires DistinctIndexes(areas) && forall i :: 0 <= i < |areas| ==> areas[i].areaIndex >= 0
    ensures SameAreas(areas, read)
  {
    forall i, j | 0 <= i < j < |read|
      ensures read[i].areaIndex != read[j].areaIndex
    {
      assert SameArea(areas[order[i]], read[i]) && SameArea(areas[order[j]], read[j]);
    }
    forall i | 0 <= i < |areas|
      ensures FoundIn(areas[i], read)
    {
      EveryNumberIsHit(order, |areas|, i);
      var k :| 0 <= k < |order| && order[k] == i;
      assert SameArea(areas[i], read[k]);
    }
    forall k | 0 <= k < |read|
      ensures WantedBy(read[k], areas)
    {
      assert SameArea(areas[order[k]], read[k]);
    }
  }

  // ---------- reading the document ----------

  lemma {:induction false} FindInAppended(channels: seq<Channel>, last: Channel, channel: int)
    ensures FindChannel(channels + [last], channel)
         == if FindChannel(channels, channel).Some? then FindChannel(channels, channel)
            else if last.channel == channel then Some(last) else None
  {
    if channels != [] {
      FindInAppended(channels[1..], last, channel);
      assert (channels + [last])[1..] == channels[1..] + [last];
    }
  }

  lemma AreasCarryChannel(items: seq<Json.Value>, channel: int32)
    requires ParseDefinitions(items, channel).Some?
    ensures forall a <- ParseDefinitions(items, channel).value :: a.channel == channel
  {
    var read := ParseDefinitions(items, channel).value;
    forall k | 0 <= k < |read|
      ensures read[k].channel == channel
    {
      DefinitionsInOrder(items, channel, k);
    }
  }

  /** Reading one more container: what it adds on this channel. */
  lemma ContainerAdds(v: Json.Value, before: Configuration, channel: int32)
    requires IsContainer(v) && ReadsAlone(v)
    ensures ParseContainer(v, before).Some?
    ensures
      var after := ParseContainer(v, before).value;
      var own := ParseDefinitions(v.fields["definedArea"].items, ContainerChannel(v)).value;
      OnChannel(after.areas, channel)
        == OnChannel(before.areas, channel) + if ContainerChannel(v) == channel then own else []
    ensures
      var after := ParseContainer(v, before).value;
      FindChannel(after.channels, channel)
        == if FindChannel(before.channels, channel).Some? then FindChannel(before.channels, channel)
           else if ContainerChannel(v) == channel then Some(Channel(channel, v.fields["enable"].b, v.fields)) else None
  {
    var items := v.fields["definedArea"].items;
    var at := ContainerChannel(v);
    var own := ParseDefinitions(items, at).value;
    AreasCarryChannel(items, at);
    OnChannelOfConcat(before.areas, own, channel);
    if at == channel {
      OnChannelAll(own, channel);
    } else {
      OnChannelNone(own, channel);
    }
    FindInAppended(before.channels, Channel(at, v.fields["enable"].b, v.fields), channel);
  }

  /** Containers of other channels contribute nothing. */
  lemma {:induction false} OthersReadNothing(items: seq<Json.Value>, channel: int32)
    requires forall k :: 0 <= k < |items| ==>
               ReadsAlone(items[k]) && IsContainer(items[k]) && ContainerChannel(items[k]) != channel
    ensures ParseContainers(items).Some?
    ensures OnChannel(ParseContainers(items).value.areas, channel) == []
    ensures FindChannel(ParseContainers(items).value.channels, channel) == None
  {
    if items != [] {
      var n := |items| - 1;
      OthersReadNothing(items[..n], channel);
      ContainerAdds(items[n], ParseContainers(items[..n]).value, channel);
    }
  }

  /** The channel is read from its own container alone. */
  lemma {:induction false} ChannelRead(items: seq<Json.Value>, channel: int32, at: nat)
    requires at < |items| && OnlyAt(items, channel, at)
    requires IsContainer(items[at]) && ReadsAlone(items[at]) && ContainerChannel(items[at]) == channel
    ensures ParseContainers(items).Some?
    ensures OnChannel(ParseContainers(items).value.areas, channel)
         == ParseDefinitions(items[at].fields["definedArea"].items, channel).value
    ensures FindChannel(ParseContainers(items).value.channels, channel)
         == Some(Channel(channel, items[at].fields["enable"].b, items[at].fields))
  {
    var n := |items| - 1;
    if at == n {
      OthersReadNothing(items[..n], channel);
    } else {
      ChannelRead(items[..n], channel, at);
    }
    ContainerAdds(items[n], ParseContainers(items[..n]).value, channel);
  }

  /** Build, store, read back, compare: whatever order the camera keeps areas, modes and filters
      in, wherever it starts a polygon, and whatever else it stores, the verification succeeds. */
  lemma WrittenChannelIsVerified(document: Json.Value, channel: int32, enabled: bool, areas: seq<Area>,
                                 options: ChannelOptions, resolution: Resolution, at: nat, order: seq<nat>)
    requires PayloadAccepted(channel, areas, options, resolution) && UsableOptions(options)
    requires StoresChannel(document, channel, enabled, areas, at, order)
    ensures ParseDocument(document).Some?
    ensures ChannelMatches(Payload(channel, enabled, areas), ParseDocument(document).value)
  {
    var items := document.fields["ivaArea"].items;
    StoredAreasRead(items[at].fields["definedArea"].items, areas, order, channel, options, resolution);
    ChannelRead(items, channel, at);
    MatchMeansSameChannel(channel, enabled, areas, ParseDocument(document).value);
  }
}

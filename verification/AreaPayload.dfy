/** The payload the client writes for one channel, and the comparison of that
    payload with what the camera reports afterwards. */
module AreaPayload {
  import opened Text
  import opened Polygon
  import opened AreaConfiguration
  import Json
  import Sorting

  datatype IntegerRange = IntegerRange(minimum: int, maximum: int)
  {
    predicate Contains(value: int) {
      0 <= minimum <= maximum && minimum <= value <= maximum
    }
  }

  datatype ChannelOptions = ChannelOptions(
    channel: int,
    areaIndex: IntegerRange,
    coordinateCount: IntegerRange,
    appearanceDuration: IntegerRange,
    intrusionDuration: IntegerRange,
    loiteringDuration: IntegerRange,
    detectionModes: seq<string>,
    objectTypeFilters: seq<string>)

  /** `None` when the camera reports no valid resolution. */
  type Resolution = Option<(nat, nat)>

  // ---------- building ----------

  predicate Supported(values: seq<string>, supported: seq<string>) {
    forall v <- values :: v in supported
  }

  predicate PixelAccepted(p: Point, resolution: Resolution) {
    && 0.0 <= p.x && 0.0 <= p.y && Json.IsIntegral(p.x) && Json.IsIntegral(p.y)
    && (resolution.Some? ==> p.x <= resolution.value.0 as real && p.y <= resolution.value.1 as real)
  }

  predicate PixelsAccepted(points: seq<Point>, resolution: Resolution) {
    forall i :: 0 <= i < |points| ==> PixelAccepted(points[i], resolution)
  }

  /** The rules one edited area has to meet, apart from the uniqueness of its index. */
  predicate AreaAccepted(area: Area, channel: int, options: ChannelOptions, resolution: Resolution) {
    && area.channel == channel
    && Trim(area.name) != ""
    && options.areaIndex.Contains(area.areaIndex)
    && options.coordinateCount.Contains(|area.coordinates|)
    && options.appearanceDuration.Contains(area.appearanceDuration)
    && options.intrusionDuration.Contains(area.intrusionDuration)
    && options.loiteringDuration.Contains(area.loiteringDuration)
    && Supported(area.detectionModes, options.detectionModes)
    && Supported(area.objectTypeFilter, options.objectTypeFilters)
    && PixelsAccepted(area.coordinates, resolution)
  }

  predicate DistinctIndexes(areas: seq<Area>) {
    forall i, j :: 0 <= i < j < |areas| ==> areas[i].areaIndex != areas[j].areaIndex
  }

  function PixelValue(p: Point): Json.Value {
    Json.Object(map["x" := Json.Number(p.x), "y" := Json.Number(p.y)])
  }

  function PixelValues(points: seq<Point>): (values: seq<Json.Value>)
    ensures |values| == |points|
  {
    seq(|points|, i requires 0 <= i < |points| => PixelValue(points[i]))
  }

  function TextValues(texts: seq<string>): (values: seq<Json.Value>)
    ensures |values| == |texts|
  {
    seq(|texts|, i requires 0 <= i < |texts| => Json.String(texts[i]))
  }

  function Definition(area: Area): Json.Value {
    var fields := map[
      "appearanceDuration" := Json.Number(area.appearanceDuration as real),
      "areaCoordinates" := Json.Array(PixelValues(area.coordinates)),
      "detectionModes" := Json.Array(TextValues(area.detectionModes)),
      "index" := Json.Number(area.areaIndex as real),
      "intrusionDuration" := Json.Number(area.intrusionDuration as real),
      "loiteringDuration" := Json.Number(area.loiteringDuration as real),
      "name" := Json.String(Trim(area.name)),
      "objectTypeFilter" := Json.Array(TextValues(area.objectTypeFilter))];
    Json.Object(if "handoverIndex" in area.rawDefinition
                then fields["handoverIndex" := area.rawDefinition["handoverIndex"]] else fields)
  }

  function Definitions(areas: seq<Area>): (values: seq<Json.Value>)
    ensures |values| == |areas|
  {
    seq(|areas|, i requires 0 <= i < |areas| => Definition(areas[i]))
  }

  function Payload(channel: int32, enabled: bool, areas: seq<Area>): Json.Fields {
    map["channel" := Json.Number(channel as real), "enable" := Json.Bool(enabled),
        "definedArea" := Json.Array(Definitions(areas))]
  }

  predicate PayloadAccepted(channel: int32, areas: seq<Area>, options: ChannelOptions, resolution: Resolution) {
    && 0 <= channel && options.channel == channel
    && (forall i :: 0 <= i < |areas| ==> AreaAccepted(areas[i], channel, options, resolution))
    && DistinctIndexes(areas)
  }

  method AcceptArea(area: Area, channel: int32, options: ChannelOptions, resolution: Resolution)
    returns (definition: Option<Json.Value>)
    ensures definition == if AreaAccepted(area, channel, options, resolution) then Some(Definition(area)) else None
  {
    if area.channel != channel || Trim(area.name) == "" || !options.areaIndex.Contains(area.areaIndex) {
      return None;
    }
    if !options.coordinateCount.Contains(|area.coordinates|)
       || !options.appearanceDuration.Contains(area.appearanceDuration)
       || !options.intrusionDuration.Contains(area.intrusionDuration)
       || !options.loiteringDuration.Contains(area.loiteringDuration)
       || !Supported(area.detectionModes, options.detectionModes)
       || !Supported(area.objectTypeFilter, options.objectTypeFilters) {
      return None;
    }
    var coordinates: seq<Json.Value> := [];
    for i := 0 to |area.coordinates|
      invariant PixelsAccepted(area.coordinates[..i], resolution)
      invariant coordinates == PixelValues(area.coordinates[..i])
    {
      var point := area.coordinates[i];
      assert point in area.coordinates;
      if !PixelAccepted(point, resolution) {
        return None;
      }
      coordinates := coordinates + [PixelValue(point)];
    }
    assert area.coordinates[..|area.coordinates|] == area.coordinates;
    var fields := map[
      "appearanceDuration" := Json.Number(area.appearanceDuration as real),
      "areaCoordinates" := Json.Array(coordinates),
      "detectionModes" := Json.Array(TextValues(area.detectionModes)),
      "index" := Json.Number(area.areaIndex as real),
      "intrusionDuration" := Json.Number(area.intrusionDuration as real),
      "loiteringDuration" := Json.Number(area.loiteringDuration as real),
      "name" := Json.String(Trim(area.name)),
      "objectTypeFilter" := Json.Array(TextValues(area.objectTypeFilter))];
    if "handoverIndex" in area.rawDefinition {
      fields := fields["handoverIndex" := area.rawDefinition["handoverIndex"]];
    }
    return Some(Json.Object(fields));
  }

  method BuildChannelPayload(channel: int32, enabled: bool, areas: seq<Area>, options: ChannelOptions,
                             resolution: Resolution)
    returns (payload: Option<Json.Fields>)
    ensures payload == if PayloadAccepted(channel, areas, options, resolution)
                       then Some(Payload(channel, enabled, areas)) else None
  {
    if channel < 0 || options.channel != channel {
      return None;
    }
    var indexes: set<int> := {};
    var definitions: seq<Json.Value> := [];
    for i := 0 to |areas|
      invariant forall k :: 0 <= k < i ==> AreaAccepted(areas[k], channel, options, resolution)
      invariant DistinctIndexes(areas[..i])
      invariant forall x :: x in indexes <==> exists k :: 0 <= k < i && areas[k].areaIndex == x
      invariant definitions == Definitions(areas[..i])
    {
      var area := areas[i];
      var definition := AcceptArea(area, channel, options, resolution);
      if definition == None {
        return None;
      }
      if area.areaIndex in indexes {
        return None;
      }
      indexes := indexes + {area.areaIndex as int};
      definitions := definitions + [definition.value];
    }
    assert areas[..|areas|] == areas;
    return Some(map["channel" := Json.Number(channel as real), "enable" := Json.Bool(enabled),
                    "definedArea" := Json.Array(definitions)]);
  }

  // ---------- comparing one area ----------

  /** The texts of an array value, in any order; other items and other values are skipped. */
  function TextsOf(v: Option<Json.Value>): seq<string> {
    if v.Some? && v.value.Array? then StringItems(v.value.items) else []
  }

  function StringItems(items: seq<Json.Value>): seq<string> {
    if items == [] then []
    else StringItems(items[..|items| - 1])
         + if items[|items| - 1].String? then [items[|items| - 1].s] else []
  }

  function IndexOf(v: Json.Value): int {
    if v.Object? && "index" in v.fields then Json.AsInt(v.fields["index"], -1) else -1
  }

  function FieldsOf(v: Json.Value): Json.Fields {
    if v.Object? then v.fields else map[]
  }

  function IntField(fields: Json.Fields, key: string): int {
    if key in fields then Json.AsInt(fields[key], -1) else -1
  }

  predicate DurationsAgree(fields: Json.Fields, area: Area) {
    && IntField(fields, "appearanceDuration") == area.appearanceDuration
    && IntField(fields, "intrusionDuration") == area.intrusionDuration
    && IntField(fields, "loiteringDuration") == area.loiteringDuration
  }

  /** What it means for a reported area to be the expected one. */
  ghost predicate AreaMatches(expected: Json.Value, actual: Area) {
    var fields := FieldsOf(expected);
    && actual.areaIndex == IndexOf(expected)
    && Trim(actual.name) == Trim(Json.AsText(Json.Get(fields, "name")))
    && multiset(TextsOf(Json.Get(fields, "detectionModes"))) == multiset(actual.detectionModes)
    && multiset(TextsOf(Json.Get(fields, "objectTypeFilter"))) == multiset(actual.objectTypeFilter)
    && DurationsAgree(fields, actual)
    && PolygonAccepted(Json.Get(fields, "areaCoordinates"), actual.coordinates)
  }

  method CompareArea(expected: Json.Value, actual: Area) returns (ok: bool)
    ensures ok <==> AreaMatches(expected, actual)
  {
    var fields := FieldsOf(expected);
    if actual.areaIndex != IndexOf(expected) {
      return false;
    }
    if Trim(actual.name) != Trim(Json.AsText(Json.Get(fields, "name"))) {
      return false;
    }
    var expectedModes := TextsOf(Json.Get(fields, "detectionModes"));
    var expectedFilters := TextsOf(Json.Get(fields, "objectTypeFilter"));
    Sorting.SameSortedForm(expectedModes, actual.detectionModes);
    Sorting.SameSortedForm(expectedFilters, actual.objectTypeFilter);
    if Sorting.Sort(expectedModes) != Sorting.Sort(actual.detectionModes) {
      return false;
    }
    if Sorting.Sort(expectedFilters) != Sorting.Sort(actual.objectTypeFilter) {
      return false;
    }
    if !DurationsAgree(fields, actual) {
      return false;
    }
    ok := PolygonMatches(Json.Get(fields, "areaCoordinates"), actual.coordinates);
  }

  // ---------- comparing a channel ----------

  /** The first channel entry with this number, if any. */
  function FindChannel(channels: seq<Channel>, channel: int): Option<Channel> {
    if channels == [] then None
    else if channels[0].channel == channel then Some(channels[0])
    else FindChannel(channels[1..], channel)
  }

  function ExpectedItems(payload: Json.Fields): Option<seq<Json.Value>> {
    if "definedArea" in payload && payload["definedArea"].Array? then Some(payload["definedArea"].items) else None
  }

  predicate ExpectedIndexesValid(items: seq<Json.Value>) {
    && (forall i :: 0 <= i < |items| ==> IndexOf(items[i]) >= 0)
    && (forall i, j :: 0 <= i < j < |items| ==> IndexOf(items[i]) != IndexOf(items[j]))
  }

  ghost predicate HasMatch(item: Json.Value, areas: seq<Area>) {
    exists a <- areas :: AreaMatches(item, a)
  }

  ghost predicate AreasMatch(items: seq<Json.Value>, areas: seq<Area>) {
    && ExpectedIndexesValid(items) && DistinctIndexes(areas)
    && |items| == |areas|
    && forall i :: 0 <= i < |items| ==> HasMatch(items[i], areas)
  }

  /** What the verification of a written channel decides. */
  ghost predicate ChannelMatches(payload: Json.Fields, configuration: Configuration) {
    var channel := IntField(payload, "channel");
    var found := FindChannel(configuration.channels, channel);
    && found.Some?
    && found.value.enabled == ("enable" in payload && payload["enable"] == Json.Bool(true))
    && ExpectedItems(payload).Some?
    && AreasMatch(ExpectedItems(payload).value, OnChannel(configuration.areas, channel))
  }

  method CollectExpected(items: seq<Json.Value>) returns (expected: Option<map<int, Json.Value>>)
    ensures expected.Some? <==> ExpectedIndexesValid(items)
    ensures expected.Some? ==> IndexedItems(expected.value, items)
  {
    var m: map<int, Json.Value> := map[];
    for k := 0 to |items|
      invariant ExpectedIndexesValid(items[..k])
      invariant IndexedItems(m, items[..k])
    {
      var index := IndexOf(items[k]);
      OneMoreItem(m, items, k);
      if index < 0 || index in m {
        return None;
      }
      m := m[index := items[k]];
    }
    assert items[..|items|] == items;
    return Some(m);
  }

  /** The items under their indexes, one entry each. */
  ghost predicate IndexedItems(m: map<int, Json.Value>, items: seq<Json.Value>) {
    && (forall x <- m :: exists i :: 0 <= i < |items| && IndexOf(items[i]) == x)
    && (forall i :: 0 <= i < |items| ==> IndexOf(items[i]) in m && m[IndexOf(items[i])] == items[i])
    && |m| == |items|
  }

  lemma OneMoreItem(m: map<int, Json.Value>, items: seq<Json.Value>, k: nat)
    requires k < |items| && ExpectedIndexesValid(items[..k]) && IndexedItems(m, items[..k])
    ensures
      var index := IndexOf(items[k]);
      if index < 0 || index in m then !ExpectedIndexesValid(items)
      else ExpectedIndexesValid(items[..k + 1]) && IndexedItems(m[index := items[k]], items[..k + 1])
  {
    var index := IndexOf(items[k]);
    if index in m {
      var i :| 0 <= i < k && IndexOf(items[..k][i]) == index;
      assert items[..k][i] == items[i];
    } else if index >= 0 {
      assert items[..k + 1] == items[..k] + [items[k]];
      ItemAdded(m, items[..k], items[k]);
    }
  }

  lemma ItemAdded(m: map<int, Json.Value>, items: seq<Json.Value>, item: Json.Value)
    requires ExpectedIndexesValid(items) && IndexedItems(m, items)
    requires IndexOf(item) >= 0 && IndexOf(item) !in m
    ensures ExpectedIndexesValid(items + [item]) && IndexedItems(m[IndexOf(item) := item], items + [item])
  {
    var all := items + [item];
    assert all[|items|] == item;
    assert forall i :: 0 <= i < |items| ==> all[i] == items[i];
  }

  method CollectActual(areas: seq<Area>, channel: int) returns (actual: Option<map<int, Area>>)
    ensures actual.Some? <==> DistinctIndexes(OnChannel(areas, channel))
    ensures actual.Some? ==> Indexed(actual.value, OnChannel(areas, channel))
  {
    var m: map<int, Area> := map[];
    for k := 0 to |areas|
      invariant DistinctIndexes(OnChannel(areas[..k], channel))
      invariant Indexed(m, OnChannel(areas[..k], channel))
    {
      ghost var before := OnChannel(areas[..k], channel);
      var area := areas[k];
      OneMoreOnChannel(areas, k, channel);
      if area.channel == channel {
        IndexSeenBefore(m, before, area);
        if area.areaIndex as int in m {
          NotDistinctLater(areas, k + 1, channel);
          return None;
        }
        IndexedGrows(m, before, area);
        m := m[area.areaIndex as int := area];
      }
    }
    assert areas[..|areas|] == areas;
    return Some(m);
  }

  lemma OneMoreOnChannel(areas: seq<Area>, k: nat, channel: int)
    requires k < |areas|
    ensures OnChannel(areas[..k + 1], channel)
         == OnChannel(areas[..k], channel) + if areas[k].channel == channel then [areas[k]] else []
  {
    assert areas[..k + 1][..k] == areas[..k];
  }

  lemma IndexSeenBefore(m: map<int, Area>, before: seq<Area>, area: Area)
    requires Indexed(m, before) && DistinctIndexes(before)
    ensures DistinctIndexes(before + [area]) <==> area.areaIndex as int !in m
  {
    var all := before + [area];
    if area.areaIndex as int in m {
      var i :| 0 <= i < |before| && before[i].areaIndex == area.areaIndex;
      assert all[i].areaIndex == all[|before|].areaIndex;
    }
  }

  /** The map holds exactly these areas, each under its index. */
  ghost predicate Indexed(m: map<int, Area>, areas: seq<Area>) {
    && |m| == |areas|
    && (forall i :: 0 <= i < |areas| ==> areas[i].areaIndex as int in m && m[areas[i].areaIndex as int] == areas[i])
    && (forall x <- m :: exists i :: 0 <= i < |areas| && areas[i].areaIndex == x)
  }

  lemma IndexedGrows(m: map<int, Area>, areas: seq<Area>, area: Area)
    requires Indexed(m, areas) && area.areaIndex as int !in m
    ensures Indexed(m[area.areaIndex as int := area], areas + [area])
  {
    var next := m[area.areaIndex as int := area];
    forall x <- next
      ensures exists i :: 0 <= i < |areas + [area]| && (areas + [area])[i].areaIndex == x
    {
      if x == area.areaIndex {
        assert (areas + [area])[|areas|].areaIndex == x;
      } else {
        var i :| 0 <= i < |areas| && areas[i].areaIndex == x;
        assert (areas + [area])[i].areaIndex == x;
      }
    }
  }

  lemma {:induction false} NotDistinctLater(areas: seq<Area>, k: nat, channel: int)
    requires k <= |areas| && !DistinctIndexes(OnChannel(areas[..k], channel))
    ensures !DistinctIndexes(OnChannel(areas, channel))
  {
    var a := areas[..k];
    var b := areas[k..];
    assert areas == a + b;
    OnChannelOfConcat(a, b, channel);
    var some := OnChannel(a, channel);
    var i, j :| 0 <= i < j < |some| && some[i].areaIndex == some[j].areaIndex;
    assert OnChannel(areas, channel)[i] == some[i] && OnChannel(areas, channel)[j] == some[j];
  }

  method PayloadMatchesChannel(payload: Json.Fields, configuration: Configuration) returns (ok: bool)
    ensures ok <==> ChannelMatches(payload, configuration)
  {
    var channel := IntField(payload, "channel");
    var found := FindChannel(configuration.channels, channel);
    if found.None? {
      return false;
    }
    if found.value.enabled != ("enable" in payload && payload["enable"] == Json.Bool(true)) {
      return false;
    }
    var items := ExpectedItems(payload);
    if items.None? {
      return false;
    }
    var expected := CollectExpected(items.value);
    if expected.None? {
      return false;
    }
    var actual := CollectActual(configuration.areas, channel);
    if actual.None? {
      return false;
    }
    if |expected.value| != |actual.value| {
      return false;
    }
    ok := CompareAll(items.value, expected.value, OnChannel(configuration.areas, channel), actual.value);
  }

  /** The loop over the expected areas. The table yields them in no particular
      order; the order of the payload stands for it. */
  method CompareAll(items: seq<Json.Value>, expected: map<int, Json.Value>,
                    ghost areas: seq<Area>, actual: map<int, Area>)
    returns (ok: bool)
    requires forall i :: 0 <= i < |items| ==> IndexOf(items[i]) in expected && expected[IndexOf(items[i])] == items[i]
    requires Indexed(actual, areas)
    ensures ok <==> forall i :: 0 <= i < |items| ==> HasMatch(items[i], areas)
  {
    for k := 0 to |items|
      invariant forall i :: 0 <= i < k ==> HasMatch(items[i], areas)
    {
      var index := IndexOf(items[k]);
      OnlyOwnIndexMatches(items[k], areas, actual);
      if index !in actual {
        return false;
      }
      var same := CompareArea(expected[index], actual[index]);
      if !same {
        return false;
      }
    }
    return true;
  }

  lemma OnlyOwnIndexMatches(item: Json.Value, areas: seq<Area>, actual: map<int, Area>)
    requires Indexed(actual, areas)
    ensures HasMatch(item, areas) <==> IndexOf(item) in actual && AreaMatches(item, actual[IndexOf(item)])
  {
    if HasMatch(item, areas) {
      var a :| a in areas && AreaMatches(item, a);
      var i :| 0 <= i < |areas| && areas[i] == a;
    }
    if IndexOf(item) in actual && AreaMatches(item, actual[IndexOf(item)]) {
      var i :| 0 <= i < |areas| && areas[i].areaIndex == IndexOf(item);
      assert areas[i] in areas && AreaMatches(item, areas[i]);
    }
  }
}

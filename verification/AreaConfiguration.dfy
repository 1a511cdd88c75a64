/** The camera's IVA configuration: the records the client works on, and the
    reading of a JSON document into them. */
module AreaConfiguration {
  import opened Text
  import opened Polygon
  import Json

  /** The C++ integers of the records. */
  type int32 = x: int | Json.INT_MIN <= x <= Json.INT_MAX

  datatype Area = Area(
    channel: int32,
    areaIndex: int32,
    name: string,
    detectionModes: seq<string>,
    objectTypeFilter: seq<string>,
    coordinates: seq<Point>,
    appearanceDuration: int32,
    intrusionDuration: int32,
    loiteringDuration: int32,
    rawDefinition: Json.Fields)

  datatype Channel = Channel(channel: int32, enabled: bool, rawContainer: Json.Fields)

  datatype Configuration = Configuration(channels: seq<Channel>, areas: seq<Area>)

  // ---------- fields ----------

  /** The value of the first key that is defined. */
  function FirstValue(fields: Json.Fields, key: string, oldKey: string): Option<Json.Value> {
    if key in fields then Some(fields[key]) else Json.Get(fields, oldKey)
  }

  predicate IsMissing(v: Option<Json.Value>) {
    v.None? || v.value.Null?
  }

  /** -1 stands for an index that is not given. */
  function ParseAreaIndex(fields: Json.Fields): Option<int32> {
    var v := FirstValue(fields, "index", "areaIndex");
    if IsMissing(v) then Some(-1)
    else if v.value.Number? then
      var n := Json.AsInt(v.value, -1);
      if v.value.n == n as real && n >= 0 then Some(n) else None
    else if v.value.String? then
      match ParseInteger(v.value.s)
      case Some(n) => if 0 <= n <= Json.INT_MAX then Some(n) else None
      case None => None
    else None
  }

  predicate IsNonEmptyText(v: Json.Value) {
    v.String? && Trim(v.s) != ""
  }

  function TrimmedTexts(items: seq<Json.Value>): (texts: seq<string>)
    requires forall i :: 0 <= i < |items| ==> IsNonEmptyText(items[i])
    ensures |texts| == |items|
  {
    seq(|items|, i requires 0 <= i < |items| => Trim(Json.AsText(Some(items[i]))))
  }

  function ParseStrings(fields: Json.Fields, key: string, oldKey: string): Option<seq<string>> {
    var v := FirstValue(fields, key, oldKey);
    if IsMissing(v) then Some([])
    else if !v.value.Array? then None
    else if forall i :: 0 <= i < |v.value.items| ==> IsNonEmptyText(v.value.items[i])
    then Some(TrimmedTexts(v.value.items))
    else None
  }

  /** -1 stands for a duration that is not given. */
  function ParseDuration(fields: Json.Fields, key: string, oldKey: string): Option<int32> {
    var v := FirstValue(fields, key, oldKey);
    if IsMissing(v) then Some(-1)
    else if !v.value.Number? then None
    else
      var n := Json.AsInt(v.value, -1);
      if v.value.n == n as real && n >= 0 then Some(n) else None
  }

  predicate IsNumericPoint(v: Json.Value) {
    v.Object? && "x" in v.fields && v.fields["x"].Number? && "y" in v.fields && v.fields["y"].Number?
  }

  function NumericPoint(v: Json.Value): Point
    requires IsNumericPoint(v)
  {
    Point(v.fields["x"].n, v.fields["y"].n)
  }

  function NumericPoints(items: seq<Json.Value>): (points: seq<Point>)
    requires forall i :: 0 <= i < |items| ==> IsNumericPoint(items[i])
    ensures |points| == |items|
  {
    seq(|items|, i requires 0 <= i < |items| && IsNumericPoint(items[i]) => NumericPoint(items[i]))
  }

  function ParseCoordinates(fields: Json.Fields): Option<seq<Point>> {
    var v := Json.Get(fields, "areaCoordinates");
    if v.None? || !v.value.Array? || |v.value.items| < 3 then None
    else if forall i :: 0 <= i < |v.value.items| ==> IsNumericPoint(v.value.items[i])
    then Some(NumericPoints(v.value.items))
    else None
  }

  // ---------- definitions, containers, documents ----------

  function ParseDefinition(v: Json.Value, channel: int32): Option<Area> {
    if !v.Object? then None
    else
      var fields := v.fields;
      var name := Trim(Json.AsText(Json.Get(fields, "name")));
      var index := ParseAreaIndex(fields);
      var modes := ParseStrings(fields, "detectionModes", "detection_modes");
      var filter := ParseStrings(fields, "objectTypeFilter", "object_type_filter");
      var points := ParseCoordinates(fields);
      var appearance := ParseDuration(fields, "appearanceDuration", "appearance_duration");
      var intrusion := ParseDuration(fields, "intrusionDuration", "intrusion_duration");
      var loitering := ParseDuration(fields, "loiteringDuration", "loitering_duration");
      if name == "" || index.None? || modes.None? || filter.None? || points.None?
         || appearance.None? || intrusion.None? || loitering.None?
      then None
      else Some(Area(channel, index.value, name, modes.value, filter.value, points.value,
                     appearance.value, intrusion.value, loitering.value, fields))
  }

  function ParseDefinitions(items: seq<Json.Value>, channel: int32): (areas: Option<seq<Area>>)
    ensures areas.Some? ==> |areas.value| == |items|
  {
    if items == [] then Some([])
    else
      match ParseDefinitions(items[..|items| - 1], channel)
      case None => None
      case Some(before) =>
        match ParseDefinition(items[|items| - 1], channel)
        case None => None
        case Some(area) => Some(before + [area])
  }

  predicate IsContainer(v: Json.Value) {
    && v.Object?
    && "channel" in v.fields && v.fields["channel"].Number?
    && v.fields["channel"].n == Json.AsInt(v.fields["channel"], -1) as real && Json.AsInt(v.fields["channel"], -1) >= 0
    && "enable" in v.fields && v.fields["enable"].Bool?
    && "definedArea" in v.fields && v.fields["definedArea"].Array?
  }

  function ContainerChannel(v: Json.Value): (channel: int32)
    requires IsContainer(v)
  {
    Json.AsInt(v.fields["channel"], -1)
  }

  /** One element of the `ivaArea` array, added to what was read before it. */
  function ParseContainer(v: Json.Value, before: Configuration): Option<Configuration> {
    if !IsContainer(v) then None
    else
      var channel := ContainerChannel(v);
      match ParseDefinitions(v.fields["definedArea"].items, channel)
      case None => None
      case Some(areas) =>
        Some(Configuration(before.channels + [Channel(channel, v.fields["enable"].b, v.fields)], before.areas + areas))
  }

  function ParseContainers(items: seq<Json.Value>): Option<Configuration> {
    if items == [] then Some(Configuration([], []))
    else
      match ParseContainers(items[..|items| - 1])
      case None => None
      case Some(before) => ParseContainer(items[|items| - 1], before)
  }

  function ParseDocument(document: Json.Value): Option<Configuration> {
    if !document.Object? || "ivaArea" !in document.fields || !document.fields["ivaArea"].Array? then None
    else ParseContainers(document.fields["ivaArea"].items)
  }

  /** The texts of a field, read one by one. */
  method ReadStrings(fields: Json.Fields, key: string, oldKey: string) returns (texts: Option<seq<string>>)
    ensures texts == ParseStrings(fields, key, oldKey)
  {
    var v := FirstValue(fields, key, oldKey);
    if IsMissing(v) {
      return Some([]);
    }
    if !v.value.Array? {
      return None;
    }
    var values := v.value.items;
    var items: seq<string> := [];
    for index := 0 to |values|
      invariant forall i :: 0 <= i < index ==> IsNonEmptyText(values[i])
      invariant |items| == index
      invariant forall i :: 0 <= i < index ==> items[i] == Trim(Json.AsText(Some(values[i])))
    {
      var item := values[index];
      if !item.String? || Trim(item.s) == "" {
        return None;
      }
      items := items + [Trim(item.s)];
    }
    assert items == TrimmedTexts(values);
    return Some(items);
  }

  /** The vertices of an area, read one by one. */
  method ReadCoordinates(fields: Json.Fields) returns (points: Option<seq<Point>>)
    ensures points == ParseCoordinates(fields)
  {
    var v := Json.Get(fields, "areaCoordinates");
    if v.None? || !v.value.Array? || |v.value.items| < 3 {
      return None;
    }
    var values := v.value.items;
    var coordinates: seq<Point> := [];
    for index := 0 to |values|
      invariant forall i :: 0 <= i < index ==> IsNumericPoint(values[i])
      invariant |coordinates| == index
      invariant forall i :: 0 <= i < index ==> coordinates[i] == NumericPoint(values[i])
    {
      if !IsNumericPoint(values[index]) {
        return None;
      }
      coordinates := coordinates + [NumericPoint(values[index])];
    }
    assert coordinates == NumericPoints(values);
    return Some(coordinates);
  }

  /** One definition, each field an early return when it is malformed. */
  method ReadDefinition(v: Json.Value, channel: int32) returns (area: Option<Area>)
    ensures area == ParseDefinition(v, channel)
  {
    if !v.Object? {
      return None;
    }
    var fields := v.fields;
    var name := Trim(Json.AsText(Json.Get(fields, "name")));
    if name == "" {
      return None;
    }
    var index := ParseAreaIndex(fields);
    if index.None? {
      return None;
    }
    var modes := ReadStrings(fields, "detectionModes", "detection_modes");
    if modes.None? {
      return None;
    }
    var filter := ReadStrings(fields, "objectTypeFilter", "object_type_filter");
    if filter.None? {
      return None;
    }
    var points := ReadCoordinates(fields);
    if points.None? {
      return None;
    }
    var appearance := ParseDuration(fields, "appearanceDuration", "appearance_duration");
    var intrusion := ParseDuration(fields, "intrusionDuration", "intrusion_duration");
    var loitering := ParseDuration(fields, "loiteringDuration", "loitering_duration");
    if appearance.None? || intrusion.None? || loitering.None? {
      return None;
    }
    return Some(Area(channel, index.value, name, modes.value, filter.value, points.value,
                     appearance.value, intrusion.value, loitering.value, fields));
  }

  /** The reader itself: loops that append to the lists and stop at the first malformed element. */
  method Parse(document: Json.Value) returns (result: Option<Configuration>)
    ensures result == ParseDocument(document)
  {
    if !document.Object? {
      return None;
    }
    if "ivaArea" !in document.fields || !document.fields["ivaArea"].Array? {
      return None;
    }
    var containers := document.fields["ivaArea"].items;
    var parsed := Configuration([], []);
    for i := 0 to |containers|
      invariant ParseContainers(containers[..i]) == Some(parsed)
    {
      assert containers[..i + 1][..i] == containers[..i];
      var container := containers[i];
      if !IsContainer(container) {
        ParseContainersFails(containers, i + 1);
        return None;
      }
      var channel := ContainerChannel(container);
      var channels := parsed.channels + [Channel(channel, container.fields["enable"].b, container.fields)];
      var areas := AppendDefinitions(container.fields["definedArea"].items, channel, parsed.areas);
      if areas.None? {
        ParseContainersFails(containers, i + 1);
        return None;
      }
      parsed := Configuration(channels, areas.value);
    }
    assert containers[..|containers|] == containers;
    return Some(parsed);
  }

  /** The inner loop: the definitions of one container. */
  method AppendDefinitions(items: seq<Json.Value>, channel: int32, before: seq<Area>)
    returns (areas: Option<seq<Area>>)
    ensures areas == match ParseDefinitions(items, channel)
                     case None => None
                     case Some(read) => Some(before + read)
  {
    var all := before;
    ghost var read: seq<Area> := [];
    for j := 0 to |items|
      invariant ParseDefinitions(items[..j], channel) == Some(read)
      invariant all == before + read
    {
      assert items[..j + 1][..j] == items[..j];
      var area := ReadDefinition(items[j], channel);
      if area.None? {
        ParseDefinitionsFails(items, j + 1, channel);
        return None;
      }
      all := all + [area.value];
      read := read + [area.value];
    }
    assert items[..|items|] == items;
    return Some(all);
  }

  lemma {:induction false} ParseDefinitionsFails(items: seq<Json.Value>, k: nat, channel: int32)
    requires k <= |items| && ParseDefinitions(items[..k], channel) == None
    ensures ParseDefinitions(items, channel) == None
  {
    if k == |items| {
      assert items[..k] == items;
    } else {
      assert items[..k] == items[..|items| - 1][..k];
      ParseDefinitionsFails(items[..|items| - 1], k, channel);
    }
  }

  lemma {:induction false} ParseContainersFails(items: seq<Json.Value>, k: nat)
    requires k <= |items| && ParseContainers(items[..k]) == None
    ensures ParseContainers(items) == None
  {
    if k == |items| {
      assert items[..k] == items;
    } else {
      assert items[..k] == items[..|items| - 1][..k];
      ParseContainersFails(items[..|items| - 1], k);
    }
  }

  // ---------- what was read ----------

  function OnChannel(areas: seq<Area>, channel: int): (some: seq<Area>)
    ensures forall a <- some :: a in areas && a.channel == channel
  {
    if areas == [] then []
    else
      var before := OnChannel(areas[..|areas| - 1], channel);
      if areas[|areas| - 1].channel == channel then before + [areas[|areas| - 1]] else before
  }

  lemma {:induction false} OnChannelOfConcat(a: seq<Area>, b: seq<Area>, channel: int)
    ensures OnChannel(a + b, channel) == OnChannel(a, channel) + OnChannel(b, channel)
  {
    if b == [] {
      assert a + b == a;
    } else {
      OnChannelOfConcat(a, b[..|b| - 1], channel);
      assert (a + b)[..|a + b| - 1] == a + b[..|b| - 1];
    }
  }

  lemma {:induction false} OnChannelAll(areas: seq<Area>, channel: int)
    requires forall a <- areas :: a.channel == channel
    ensures OnChannel(areas, channel) == areas
  {
    if areas != [] {
      assert areas[|areas| - 1] in areas;
      OnChannelAll(areas[..|areas| - 1], channel);
    }
  }

  lemma {:induction false} OnChannelNone(areas: seq<Area>, channel: int)
    requires forall a <- areas :: a.channel != channel
    ensures OnChannel(areas, channel) == []
  {
    if areas != [] {
      assert areas[|areas| - 1] in areas;
      OnChannelNone(areas[..|areas| - 1], channel);
    }
  }

  /** The areas read from a container are its definitions, in order. */
  lemma {:induction false} DefinitionsInOrder(items: seq<Json.Value>, channel: int32, k: nat)
    requires k < |items| && ParseDefinitions(items, channel).Some?
    ensures ParseDefinition(items[k], channel) == Some(ParseDefinitions(items, channel).value[k])
    ensures ParseDefinitions(items, channel).value[k].channel == channel
  {
    if k < |items| - 1 {
      DefinitionsInOrder(items[..|items| - 1], channel, k);
    }
  }

  /** A list of definitions is read exactly when each of them is. */
  lemma {:induction false} DefinitionsAllRead(items: seq<Json.Value>, channel: int32)
    requires forall k :: 0 <= k < |items| ==> ParseDefinition(items[k], channel).Some?
    ensures ParseDefinitions(items, channel).Some?
  {
    if items != [] {
      DefinitionsAllRead(items[..|items| - 1], channel);
    }
  }
}

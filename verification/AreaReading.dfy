/** Which documents of a camera are read, and what is read from them, key by key. */
module AreaReading {
  import opened Text
  import opened Polygon
  import opened AreaConfiguration
  import Json

  // ---------- fields ----------

  predicate IsLeftOut(v: Option<Json.Value>) {
    v == None || v == Some(Json.Null)
  }

  /** A field, under its key or else under the key of older firmware. */
  function Field(fields: Json.Fields, key: string, oldKey: string): Option<Json.Value> {
    if key in fields then Some(fields[key]) else if oldKey in fields then Some(fields[oldKey]) else None
  }

  /** The number is this one of 0 to 2147483647; a field that is left out is read as -1. */
  predicate SaysNumber(v: Option<Json.Value>, n: int32) {
    if IsLeftOut(v) then n == -1 else n >= 0 && v == Some(Json.Number(n as real))
  }

  /** An index may also be given as text. */
  predicate SaysIndex(v: Option<Json.Value>, n: int32) {
    SaysNumber(v, n) || (v.Some? && v.value.String? && n >= 0 && ParseInteger(v.value.s) == Some(n))
  }

  predicate SaysTexts(v: Option<Json.Value>, texts: seq<string>) {
    if IsLeftOut(v) then texts == []
    else
      && v.value.Array? && |v.value.items| == |texts|
      && forall i :: 0 <= i < |texts| ==>
           texts[i] != "" && v.value.items[i].String? && Trim(v.value.items[i].s) == texts[i]
  }

  predicate SaysPoints(v: Option<Json.Value>, points: seq<Point>) {
    && v.Some? && v.value.Array? && |v.value.items| == |points| >= 3
    && forall i :: 0 <= i < |points| ==>
         && v.value.items[i].Object?
         && Json.Get(v.value.items[i].fields, "x") == Some(Json.Number(points[i].x))
         && Json.Get(v.value.items[i].fields, "y") == Some(Json.Number(points[i].y))
  }

  lemma NumberSaid(fields: Json.Fields, key: string, oldKey: string, n: int32)
    ensures ParseDuration(fields, key, oldKey) == Some(n) <==> SaysNumber(Field(fields, key, oldKey), n)
  {
    assert (n as real).Floor == n;
  }

  lemma IndexSaid(fields: Json.Fields, n: int32)
    ensures ParseAreaIndex(fields) == Some(n) <==> SaysIndex(Field(fields, "index", "areaIndex"), n)
  {
    assert (n as real).Floor == n;
  }

  lemma TextsSaid(fields: Json.Fields, key: string, oldKey: string, texts: seq<string>)
    ensures ParseStrings(fields, key, oldKey) == Some(texts) <==> SaysTexts(Field(fields, key, oldKey), texts)
  {
    var v := Field(fields, key, oldKey);
    if !IsLeftOut(v) && v.value.Array? {
      TextsOfItems(v.value.items, texts);
    }
  }

  lemma TextsOfItems(items: seq<Json.Value>, texts: seq<string>)
    ensures (forall i :: 0 <= i < |items| ==> IsNonEmptyText(items[i])) && TrimmedTexts(items) == texts
       <==> |items| == |texts| && forall i :: 0 <= i < |texts| ==> texts[i] != "" && items[i].String? && Trim(items[i].s) == texts[i]
  {
    if |items| == |texts| && forall i :: 0 <= i < |texts| ==> texts[i] != "" && items[i].String? && Trim(items[i].s) == texts[i] {
      assert forall i :: 0 <= i < |items| ==> IsNonEmptyText(items[i]);
      assert TrimmedTexts(items) == texts;
    }
  }

  lemma PointsSaid(fields: Json.Fields, points: seq<Point>)
    ensures ParseCoordinates(fields) == Some(points) <==> SaysPoints(Json.Get(fields, "areaCoordinates"), points)
  {
    var v := Json.Get(fields, "areaCoordinates");
    if v.Some? && v.value.Array? {
      PointsOfItems(v.value.items, points);
    }
  }

  predicate IsPointOf(v: Json.Value, p: Point) {
    v.Object? && Json.Get(v.fields, "x") == Some(Json.Number(p.x)) && Json.Get(v.fields, "y") == Some(Json.Number(p.y))
  }

  lemma PointsOfItems(items: seq<Json.Value>, points: seq<Point>)
    ensures (forall i :: 0 <= i < |items| ==> IsNumericPoint(items[i])) && NumericPoints(items) == points
       <==> |items| == |points| && forall i :: 0 <= i < |points| ==> IsPointOf(items[i], points[i])
  {
    if (forall i :: 0 <= i < |items| ==> IsNumericPoint(items[i])) && NumericPoints(items) == points {
      forall i | 0 <= i < |points|
        ensures IsPointOf(items[i], points[i])
      {
        assert NumericPoint(items[i]) == points[i];
      }
    }
    if |items| == |points| && forall i :: 0 <= i < |points| ==> IsPointOf(items[i], points[i]) {
      forall i | 0 <= i < |items|
        ensures IsNumericPoint(items[i]) && NumericPoint(items[i]) == points[i]
      {
        assert IsPointOf(items[i], points[i]);
      }
      assert NumericPoints(items) == points;
    }
  }

  // ---------- definitions ----------

  predicate SaysRules(fields: Json.Fields, area: Area) {
    && SaysTexts(Field(fields, "detectionModes", "detection_modes"), area.detectionModes)
    && SaysTexts(Field(fields, "objectTypeFilter", "object_type_filter"), area.objectTypeFilter)
    && SaysNumber(Field(fields, "appearanceDuration", "appearance_duration"), area.appearanceDuration)
    && SaysNumber(Field(fields, "intrusionDuration", "intrusion_duration"), area.intrusionDuration)
    && SaysNumber(Field(fields, "loiteringDuration", "loitering_duration"), area.loiteringDuration)
  }

  /** The definition says all of the area. */
  predicate Defines(v: Json.Value, channel: int32, area: Area) {
    && v.Object? && area.rawDefinition == v.fields && area.channel == channel
    && area.name != "" && Trim(Json.AsText(Json.Get(v.fields, "name"))) == area.name
    && SaysIndex(Field(v.fields, "index", "areaIndex"), area.areaIndex)
    && SaysPoints(Json.Get(v.fields, "areaCoordinates"), area.coordinates)
    && SaysRules(v.fields, area)
  }

  /** A definition is read as an area exactly when it says all of it. */
  lemma DefinitionIsReadExactly(v: Json.Value, channel: int32, area: Area)
    ensures ParseDefinition(v, channel) == Some(area) <==> Defines(v, channel, area)
  {
    if v.Object? {
      IndexSaid(v.fields, area.areaIndex);
      PointsSaid(v.fields, area.coordinates);
      TextsSaid(v.fields, "detectionModes", "detection_modes", area.detectionModes);
      TextsSaid(v.fields, "objectTypeFilter", "object_type_filter", area.objectTypeFilter);
      NumberSaid(v.fields, "appearanceDuration", "appearance_duration", area.appearanceDuration);
      NumberSaid(v.fields, "intrusionDuration", "intrusion_duration", area.intrusionDuration);
      NumberSaid(v.fields, "loiteringDuration", "loitering_duration", area.loiteringDuration);
    }
  }

  // ---------- documents ----------

  predicate SaysContainer(v: Json.Value, ch: Channel) {
    && v.Object? && ch.rawContainer == v.fields && ch.channel >= 0
    && Json.Get(v.fields, "channel") == Some(Json.Number(ch.channel as real))
    && Json.Get(v.fields, "enable") == Some(Json.Bool(ch.enabled))
    && "definedArea" in v.fields && v.fields["definedArea"].Array?
  }

  function DefinitionsOf(v: Json.Value): seq<Json.Value> {
    if v.Object? && "definedArea" in v.fields && v.fields["definedArea"].Array? then v.fields["definedArea"].items else []
  }

  /** These areas are what the definitions say, one by one. */
  ghost predicate DefineAll(definitions: seq<Json.Value>, channel: int32, areas: seq<Area>) {
    |areas| == |definitions| && forall j :: 0 <= j < |areas| ==> Defines(definitions[j], channel, areas[j])
  }

  /** The containers say these channels and areas, in their order. */
  ghost predicate SayAll(items: seq<Json.Value>, now: Configuration)
    decreases |items|
  {
    if items == [] then now == Configuration([], [])
    else
      var n, v := |items| - 1, items[|items| - 1];
      && |now.channels| == |items| && SaysContainer(v, now.channels[n])
      && |DefinitionsOf(v)| <= |now.areas|
      && var before := |now.areas| - |DefinitionsOf(v)|;
      && DefineAll(DefinitionsOf(v), now.channels[n].channel, now.areas[before..])
      && SayAll(items[..n], Configuration(now.channels[..n], now.areas[..before]))
  }

  lemma {:induction false} DefinitionsSaid(definitions: seq<Json.Value>, channel: int32, areas: seq<Area>)
    ensures ParseDefinitions(definitions, channel) == Some(areas) <==> DefineAll(definitions, channel, areas)
  {
    if definitions != [] && |areas| == |definitions| {
      var n := |definitions| - 1;
      DefinitionsSaid(definitions[..n], channel, areas[..n]);
      DefinitionIsReadExactly(definitions[n], channel, areas[n]);
      assert areas == areas[..n] + [areas[n]];
      LastDefined(definitions, channel, areas);
    }
  }

  lemma LastDefined(definitions: seq<Json.Value>, channel: int32, areas: seq<Area>)
    requires |areas| == |definitions| > 0
    ensures
      var n := |definitions| - 1;
      DefineAll(definitions, channel, areas)
      <==> DefineAll(definitions[..n], channel, areas[..n]) && Defines(definitions[n], channel, areas[n])
  {
    var n := |definitions| - 1;
    if DefineAll(definitions[..n], channel, areas[..n]) && Defines(definitions[n], channel, areas[n]) {
      forall j | 0 <= j < |areas|
        ensures Defines(definitions[j], channel, areas[j])
      {
        if j < n {
          assert definitions[..n][j] == definitions[j] && areas[..n][j] == areas[j];
        }
      }
    }
    if DefineAll(definitions, channel, areas) {
      forall j | 0 <= j < n
        ensures Defines(definitions[..n][j], channel, areas[..n][j])
      {
        assert Defines(definitions[j], channel, areas[j]);
      }
    }
  }

  lemma ContainerSaid(v: Json.Value, ch: Channel)
    ensures IsContainer(v) && Channel(ContainerChannel(v), v.fields["enable"].b, v.fields) == ch <==> SaysContainer(v, ch)
  {
    assert (ch.channel as real).Floor == ch.channel;
  }

  lemma ContainerAdds(v: Json.Value, before: Configuration, now: Configuration)
    ensures ParseContainer(v, before) == Some(now)
       <==> && |now.channels| == |before.channels| + 1 && now.channels[..|before.channels|] == before.channels
            && |now.areas| == |before.areas| + |DefinitionsOf(v)| && now.areas[..|before.areas|] == before.areas
            && SaysContainer(v, now.channels[|before.channels|])
            && DefineAll(DefinitionsOf(v), now.channels[|before.channels|].channel, now.areas[|before.areas|..])
  {
    if |now.channels| == |before.channels| + 1 && |now.areas| >= |before.areas| {
      ContainerSaid(v, now.channels[|before.channels|]);
      DefinitionsSaid(DefinitionsOf(v), now.channels[|before.channels|].channel, now.areas[|before.areas|..]);
      assert now.channels == now.channels[..|before.channels|] + [now.channels[|before.channels|]];
      assert now.areas == now.areas[..|before.areas|] + now.areas[|before.areas|..];
    }
    if ParseContainer(v, before) == Some(now) {
      ContainerSaid(v, Channel(ContainerChannel(v), v.fields["enable"].b, v.fields));
    }
  }

  lemma {:induction false} ContainersSaid(items: seq<Json.Value>, now: Configuration)
    ensures ParseContainers(items) == Some(now) <==> SayAll(items, now)
    decreases |items|
  {
    if items != [] {
      var n, v := |items| - 1, items[|items| - 1];
      if ParseContainers(items) == Some(now) {
        var before := ParseContainers(items[..n]).value;
        ContainersSaid(items[..n], before);
        ContainerAdds(v, before, now);
        SaidAsMany(items[..n], before);
      }
      if SayAll(items, now) {
        var k := |now.areas| - |DefinitionsOf(v)|;
        var before := Configuration(now.channels[..n], now.areas[..k]);
        ContainersSaid(items[..n], before);
        ContainerAdds(v, before, now);
      }
    }
  }

  lemma SaidAsMany(items: seq<Json.Value>, now: Configuration)
    requires SayAll(items, now)
    ensures |now.channels| == |items|
  {
  }

  /** A document is read as a configuration exactly when it says all of it: every container and every
      definition is well formed, and nothing else is read. */
  lemma DocumentIsReadExactly(document: Json.Value, now: Configuration)
    ensures ParseDocument(document) == Some(now)
       <==> && document.Object? && "ivaArea" in document.fields && document.fields["ivaArea"].Array?
            && SayAll(document.fields["ivaArea"].items, now)
  {
    if document.Object? && "ivaArea" in document.fields && document.fields["ivaArea"].Array? {
      ContainersSaid(document.fields["ivaArea"].items, now);
    }
  }
}

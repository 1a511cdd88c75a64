/** Reading and saving the region of interest of a parking slot: tagged requests,
    and a save that counts only once a second read confirms it. */
module ParkingRoi {
  import opened Text
  import opened SlotIds
  import Json

  datatype Roi = Roi(x: real, y: real, width: real, height: real)
  {
    predicate Valid() {
      && 0.0 <= x < 1.0 && 0.0 <= y < 1.0 && 0.0 < width && 0.0 < height
      && x + width <= 1.0000001 && y + height <= 1.0000001
    }

    predicate NearlyEquals(other: Roi) {
      Close(x, other.x) && Close(y, other.y) && Close(width, other.width) && Close(height, other.height)
    }
  }

  predicate Close(a: real, b: real) {
    -0.000001 <= a - b <= 0.000001
  }

  // ---------- zones ----------

  function ZoneId(mapper: Mapper, slot: string): string {
    var mapped := mapper.ToZone(slot);
    NormalizeSlotId(if mapped == "" then slot else mapped)
  }

  function WithoutDashes(s: string): string {
    if s == [] then []
    else (if s[0] == '-' then [] else [s[0]]) + WithoutDashes(s[1..])
  }

  function ServerSlotId(mapper: Mapper, zone: string): string {
    var id := mapper.ToServer(NormalizeSlotId(zone));
    if "EV-" <= id || "P-" <= id then WithoutDashes(id) else id
  }

  predicate IsZoneNumber(s: string) {
    s != "" && AllDigits(s) && 0 < ParseDecimal(s) <= Json.INT_MAX
  }

  predicate IsRoiZone(zone: string) {
    ("EV-" <= zone && IsZoneNumber(zone[3..])) || ("P-" <= zone && IsZoneNumber(zone[2..]))
  }

  // ---------- tags ----------

  const MAX_GENERATION: nat := 0xffff_ffff_ffff_ffff

  /** The fields of a request tag. */
  datatype Tag = Tag(kind: string, generation: nat, zone: string, flag: string)

  function TagText(kind: string, generation: nat, zone: string, applied: bool): string {
    Join(["parking-roi", kind, Decimal(generation), zone, if applied then "1" else "0"], '|')
  }

  function ReadTag(text: string): Option<Tag> {
    var parts := Split(text, '|');
    if |parts| < 5 || parts[2] == "" || !AllDigits(parts[2]) || ParseDecimal(parts[2]) > MAX_GENERATION then None
    else Some(Tag(parts[1], ParseDecimal(parts[2]), parts[3], parts[4]))
  }

  lemma DigitsHoldNoSeparator(s: string)
    requires AllDigits(s)
    ensures '|' !in s
  {
  }

  lemma ZonesHoldNoSeparator(zone: string)
    requires IsRoiZone(zone)
    ensures '|' !in zone
  {
    var digits := if "EV-" <= zone && IsZoneNumber(zone[3..]) then zone[3..] else zone[2..];
    DigitsHoldNoSeparator(digits);
    assert zone == "EV-" + digits || zone == "P-" + digits;
  }

  /** Splitting a tag gives back what it was made of. */
  lemma TagRoundTrip(kind: string, generation: nat, zone: string, applied: bool)
    requires '|' !in kind && '|' !in zone && generation <= MAX_GENERATION
    ensures ReadTag(TagText(kind, generation, zone, applied))
         == Some(Tag(kind, generation, zone, if applied then "1" else "0"))
  {
    var parts := ["parking-roi", kind, Decimal(generation), zone, if applied then "1" else "0"];
    DigitsHoldNoSeparator(Decimal(generation));
    SplitOfJoin(parts, '|');
    DecimalRoundTrip(generation);
  }

  // ---------- documents ----------

  function RoiOf(v: Json.Value): Option<Roi> {
    if v.Object? && "x" in v.fields && "y" in v.fields && "width" in v.fields && "height" in v.fields
       && v.fields["x"].Number? && v.fields["y"].Number? && v.fields["width"].Number? && v.fields["height"].Number?
    then
      var roi := Roi(v.fields["x"].n, v.fields["y"].n, v.fields["width"].n, v.fields["height"].n);
      if roi.Valid() then Some(roi) else None
    else None
  }

  function RoiToJson(roi: Roi): Json.Value {
    Json.Object(map["x" := Json.Number(roi.x), "y" := Json.Number(roi.y),
                    "width" := Json.Number(roi.width), "height" := Json.Number(roi.height)])
  }

  /** A region that is sent is a region that can be read. */
  lemma RoiRoundTrip(roi: Roi)
    requires roi.Valid()
    ensures RoiOf(RoiToJson(roi)) == Some(roi)
  {
  }

  function SlotText(fields: Json.Fields): string {
    Upper(Trim(Json.AsText(Json.Get(fields, "slotId"))))
  }

  datatype Single = Single(slot: string, roi: Roi, appliedImmediately: bool)

  function ParseSingle(v: Json.Value): Option<Single> {
    if !v.Object? then None
    else
      var fields := v.fields;
      if SlotText(fields) == "" || "roi" !in fields || !fields["roi"].Object? then None
      else if "success" in fields && fields["success"] != Json.Bool(true) then None
      else
        match RoiOf(fields["roi"])
        case None => None
        case Some(roi) =>
          Some(Single(SlotText(fields), roi, Json.Get(fields, "appliedImmediately") == Some(Json.Bool(true))))
  }

  function ParseItems(items: seq<Json.Value>): Option<map<string, Roi>> {
    if items == [] then Some(map[])
    else
      match ParseItems(items[..|items| - 1])
      case None => None
      case Some(before) =>
        var item := items[|items| - 1];
        if !item.Object? || SlotText(item.fields) == "" || "roi" !in item.fields then None
        else
          match RoiOf(item.fields["roi"])
          case None => None
          case Some(roi) => Some(before[SlotText(item.fields) := roi])
  }

  function ParseList(v: Json.Value): Option<map<string, Roi>> {
    if !v.Object? || "items" !in v.fields || !v.fields["items"].Array? then None
    else ParseItems(v.fields["items"].items)
  }

  /** Every listed slot has a zone of its own. */
  predicate ZonesAreClear(mapper: Mapper, rois: map<string, Roi>) {
    && (forall slot <- rois :: IsRoiZone(ZoneId(mapper, slot)))
    && (forall a <- rois, b <- rois :: a != b ==> ZoneId(mapper, a) != ZoneId(mapper, b))
  }

  function ZoneRois(mapper: Mapper, rois: map<string, Roi>): map<string, Roi>
    requires ZonesAreClear(mapper, rois)
  {
    map slot <- rois :: ZoneId(mapper, slot) := rois[slot]
  }

  // ---------- requests and replies ----------

  datatype Output =
    | SentGet(slot: string, tag: string)
    | SentPut(slot: string, body: Json.Value, tag: string)
    | Listed(rois: map<string, Roi>, generation: nat)
    | Received(zone: string, roi: Roi, generation: nat, afterSave: bool, appliedImmediately: bool)
    | Failed(zone: string, generation: nat, saving: bool)
    | SaveLogged(zone: string)

  /** `ready` is whether there is a server to ask. */
  datatype Requests = Requests(ready: bool, pending: set<string>, expected: map<string, Roi>)

  function RequestList(s: Requests, generation: nat): (Requests, seq<Output>) {
    if !s.ready then (s, [Failed("", generation, false)])
    else
      var tag := TagText("list", generation, "", false);
      (s.(pending := s.pending + {tag}), [SentGet("", tag)])
  }

  function RequestOne(s: Requests, mapper: Mapper, slot: string, generation: nat): (Requests, seq<Output>) {
    var zone := ZoneId(mapper, slot);
    if !IsRoiZone(zone) || !s.ready || ServerSlotId(mapper, zone) == "" then (s, [Failed(zone, generation, false)])
    else
      var tag := TagText("get", generation, zone, false);
      (s.(pending := s.pending + {tag}), [SentGet(ServerSlotId(mapper, zone), tag)])
  }

  function Update(s: Requests, mapper: Mapper, slot: string, roi: Roi, generation: nat): (Requests, seq<Output>) {
    var zone := ZoneId(mapper, slot);
    if !IsRoiZone(zone) || !roi.Valid() || !s.ready || ServerSlotId(mapper, zone) == ""
    then (s, [Failed(zone, generation, true)])
    else
      var tag := TagText("put", generation, zone, false);
      (s.(pending := s.pending + {tag}, expected := s.expected[tag := roi]),
       [SentPut(ServerSlotId(mapper, zone), RoiToJson(roi), tag)])
  }

  function Removed(s: Requests, text: string): Requests {
    s.(pending := s.pending - {text}, expected := s.expected - {text})
  }

  function ListReply(tag: Tag, mapper: Mapper, v: Json.Value): seq<Output> {
    match ParseList(v)
    case None => [Failed("", tag.generation, false)]
    case Some(rois) =>
      if ZonesAreClear(mapper, rois) then [Listed(ZoneRois(mapper, rois), tag.generation)]
      else [Failed("", tag.generation, false)]
  }

  /** The reply to a save starts the confirming read. */
  function PutReply(s: Requests, tag: Tag, mapper: Mapper, reply: Single, expected: Option<Roi>): (Requests, seq<Output>) {
    var server := ServerSlotId(mapper, tag.zone);
    if expected.None? || server == "" then (s, [Failed(tag.zone, tag.generation, true)])
    else
      var verify := TagText("verify", tag.generation, tag.zone, reply.appliedImmediately);
      (s.(pending := s.pending + {verify}, expected := s.expected[verify := expected.value]), [SentGet(server, verify)])
  }

  function ReadReply(tag: Tag, zone: string, reply: Single, expected: Option<Roi>): seq<Output> {
    var afterSave := tag.kind == "verify";
    if afterSave && (expected.None? || !reply.roi.NearlyEquals(expected.value))
    then [Failed(tag.zone, tag.generation, true)]
    else [Received(zone, reply.roi, tag.generation, afterSave, afterSave && tag.flag == "1")]
         + if afterSave then [SaveLogged(zone)] else []
  }

  /** What a reply does once its tag has been taken off the tables. */
  function Answer(s: Requests, tag: Tag, mapper: Mapper, v: Json.Value, expected: Option<Roi>): (Requests, seq<Output>) {
    if tag.kind == "list" then (s, ListReply(tag, mapper, v))
    else
      match ParseSingle(v)
      case None => (s, [Failed(tag.zone, tag.generation, tag.kind != "get")])
      case Some(reply) =>
        var zone := ZoneId(mapper, reply.slot);
        if zone != tag.zone then (s, [Failed(tag.zone, tag.generation, tag.kind != "get")])
        else if tag.kind == "put" then PutReply(s, tag, mapper, reply, expected)
        else (s, ReadReply(tag, zone, reply, expected))
  }

  function ExpectedFor(s: Requests, text: string): Option<Roi> {
    if text in s.expected then Some(s.expected[text]) else None
  }

  function Response(s: Requests, text: string, mapper: Mapper, v: Json.Value): (Requests, seq<Output>) {
    if text !in s.pending then (s, [])
    else
      match ReadTag(text)
      case None => (Removed(s, text), [])
      case Some(tag) => Answer(Removed(s, text), tag, mapper, v, ExpectedFor(s, text))
  }

  function Error(s: Requests, text: string): (Requests, seq<Output>) {
    if text !in s.pending then (s, [])
    else
      match ReadTag(text)
      case None => (Removed(s, text), [])
      case Some(tag) =>
        (Removed(s, text), [Failed(tag.zone, tag.generation, tag.kind == "put" || tag.kind == "verify")])
  }

  function ErrorAll(s: Requests, order: seq<string>): (Requests, seq<Output>)
    decreases |order|
  {
    if order == [] then (s, [])
    else
      var (before, outputs) := ErrorAll(s, order[..|order| - 1]);
      var (next, more) := Error(before, order[|order| - 1]);
      (next, outputs + more)
  }

  /** Another server: every open request fails, in the order the table yields the tags. */
  function Rebuild(s: Requests, order: seq<string>, ready: bool): (Requests, seq<Output>) {
    var (failed, outputs) := ErrorAll(s, order);
    (Requests(ready, {}, map[]), outputs)
  }

  // ---------- the requests as fields of the controller ----------

  class ParkingController {
    const mapper: Mapper
    var ready: bool
    var pendingParkingRoiTags: set<string>
    var pendingParkingRoiExpectedValues: map<string, Roi>
    var outputs: seq<Output>

    ghost function State(): Requests
      reads this
    {
      Requests(ready, pendingParkingRoiTags, pendingParkingRoiExpectedValues)
    }

    constructor (mapper: Mapper, ready: bool)
      ensures State() == Requests(ready, {}, map[]) && outputs == [] && this.mapper == mapper
    {
      this.mapper, this.ready := mapper, ready;
      pendingParkingRoiTags, pendingParkingRoiExpectedValues, outputs := {}, map[], [];
    }

    method RequestParkingRois(generation: nat)
      modifies `pendingParkingRoiTags, `outputs
      ensures State() == RequestList(old(State()), generation).0
      ensures outputs == old(outputs) + RequestList(old(State()), generation).1
    {
      if !ready {
        outputs := outputs + [Failed("", generation, false)];
        return;
      }
      var tag := TagText("list", generation, "", false);
      pendingParkingRoiTags := pendingParkingRoiTags + {tag};
      outputs := outputs + [SentGet("", tag)];
    }

    method RequestParkingRoi(slot: string, generation: nat)
      modifies `pendingParkingRoiTags, `outputs
      ensures State() == RequestOne(old(State()), mapper, slot, generation).0
      ensures outputs == old(outputs) + RequestOne(old(State()), mapper, slot, generation).1
    {
      var zone := ZoneId(mapper, slot);
      var server := ServerSlotId(mapper, zone);
      if !IsRoiZone(zone) || !ready || server == "" {
        outputs := outputs + [Failed(zone, generation, false)];
        return;
      }
      var tag := TagText("get", generation, zone, false);
      pendingParkingRoiTags := pendingParkingRoiTags + {tag};
      outputs := outputs + [SentGet(server, tag)];
    }

    method UpdateParkingRoi(slot: string, roi: Roi, generation: nat)
      modifies `pendingParkingRoiTags, `pendingParkingRoiExpectedValues, `outputs
      ensures State() == Update(old(State()), mapper, slot, roi, generation).0
      ensures outputs == old(outputs) + Update(old(State()), mapper, slot, roi, generation).1
    {
      var zone := ZoneId(mapper, slot);
      var server := ServerSlotId(mapper, zone);
      if !IsRoiZone(zone) || !roi.Valid() || !ready || server == "" {
        outputs := outputs + [Failed(zone, generation, true)];
        return;
      }
      var tag := TagText("put", generation, zone, false);
      pendingParkingRoiTags := pendingParkingRoiTags + {tag};
      pendingParkingRoiExpectedValues := pendingParkingRoiExpectedValues[tag := roi];
      outputs := outputs + [SentPut(server, RoiToJson(roi), tag)];
    }

    method ApplyParkingRoiResponse(text: string, document: Json.Value)
      modifies `pendingParkingRoiTags, `pendingParkingRoiExpectedValues, `outputs
      ensures State() == Response(old(State()), text, mapper, document).0
      ensures outputs == old(outputs) + Response(old(State()), text, mapper, document).1
    {
      if text !in pendingParkingRoiTags {
        return;
      }
      pendingParkingRoiTags := pendingParkingRoiTags - {text};
      var expected := if text in pendingParkingRoiExpectedValues
                      then Some(pendingParkingRoiExpectedValues[text]) else None;
      pendingParkingRoiExpectedValues := pendingParkingRoiExpectedValues - {text};
      var tag := ReadTag(text);
      if tag.None? {
        return;
      }
      FollowReply(tag.value, document, expected);
    }

    /** The part of the method above that knows the tag. */
    method FollowReply(tag: Tag, document: Json.Value, expected: Option<Roi>)
      modifies `pendingParkingRoiTags, `pendingParkingRoiExpectedValues, `outputs
      ensures State() == Answer(old(State()), tag, mapper, document, expected).0
      ensures outputs == old(outputs) + Answer(old(State()), tag, mapper, document, expected).1
    {
      if tag.kind == "list" {
        FollowListReply(tag, document);
        return;
      }
      var reply := ParseSingle(document);
      if reply.None? || ZoneId(mapper, reply.value.slot) != tag.zone {
        outputs := outputs + [Failed(tag.zone, tag.generation, tag.kind != "get")];
        return;
      }
      if tag.kind == "put" {
        var server := ServerSlotId(mapper, tag.zone);
        if expected.None? || server == "" {
          outputs := outputs + [Failed(tag.zone, tag.generation, true)];
          return;
        }
        var verify := TagText("verify", tag.generation, tag.zone, reply.value.appliedImmediately);
        pendingParkingRoiTags := pendingParkingRoiTags + {verify};
        pendingParkingRoiExpectedValues := pendingParkingRoiExpectedValues[verify := expected.value];
        outputs := outputs + [SentGet(server, verify)];
        return;
      }
      FollowRead(tag, reply.value, expected);
    }

    method FollowListReply(tag: Tag, document: Json.Value)
      modifies `outputs
      ensures State() == old(State()) && outputs == old(outputs) + ListReply(tag, mapper, document)
    {
      var serverRois := ParseList(document);
      if serverRois.None? || !ZonesAreClear(mapper, serverRois.value) {
        outputs := outputs + [Failed("", tag.generation, false)];
        return;
      }
      outputs := outputs + [Listed(ZoneRois(mapper, serverRois.value), tag.generation)];
    }

    /** The reply to a plain read or to the confirming one. */
    method FollowRead(tag: Tag, reply: Single, expected: Option<Roi>)
      modifies `outputs
      ensures State() == old(State()) && outputs == old(outputs) + ReadReply(tag, tag.zone, reply, expected)
    {
      var afterSave := tag.kind == "verify";
      if afterSave && (expected.None? || !reply.roi.NearlyEquals(expected.value)) {
        outputs := outputs + [Failed(tag.zone, tag.generation, true)];
        return;
      }
      var verifiedAppliedImmediately := afterSave && tag.flag == "1";
      outputs := outputs + [Received(tag.zone, reply.roi, tag.generation, afterSave, verifiedAppliedImmediately)];
      if afterSave {
        outputs := outputs + [SaveLogged(tag.zone)];
      }
    }

    method ApplyParkingRoiError(text: string)
      modifies `pendingParkingRoiTags, `pendingParkingRoiExpectedValues, `outputs
      ensures State() == Error(old(State()), text).0
      ensures outputs == old(outputs) + Error(old(State()), text).1
    {
      if text !in pendingParkingRoiTags {
        return;
      }
      pendingParkingRoiTags := pendingParkingRoiTags - {text};
      pendingParkingRoiExpectedValues := pendingParkingRoiExpectedValues - {text};
      var tag := ReadTag(text);
      if tag.Some? {
        outputs := outputs + [Failed(tag.value.zone, tag.value.generation,
                                     tag.value.kind == "put" || tag.value.kind == "verify")];
      }
    }

    method RebuildApiClient(order: seq<string>, ready: bool)
      modifies this
      ensures State() == Rebuild(old(State()), order, ready).0
      ensures outputs == old(outputs) + Rebuild(old(State()), order, ready).1
    {
      ghost var start, log := State(), outputs;
      for i := 0 to |order|
        invariant State() == ErrorAll(start, order[..i]).0
        invariant outputs == log + ErrorAll(start, order[..i]).1
      {
        assert order[..i + 1][..i] == order[..i];
        ApplyParkingRoiError(order[i]);
      }
      assert order[..|order|] == order;
      pendingParkingRoiTags := {};
      pendingParkingRoiExpectedValues := map[];
      this.ready := ready;
    }
  }
}

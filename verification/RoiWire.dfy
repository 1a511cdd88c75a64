/** Regions of parking slots seen from the server: what its replies say, key by key, which
    slot is asked for, and when an honest server gets a save confirmed. */
module RoiWire {
  import opened Text
  import opened SlotIds
  import opened ParkingRoi
  import opened RoiSaves
  import Json

  // ---------- replies ----------

  /** The region lies in the unit square, up to a rounding margin on its far sides. */
  predicate IsInside(roi: Roi) {
    && 0.0 <= roi.x < 1.0 && 0.0 <= roi.y < 1.0 && roi.width > 0.0 && roi.height > 0.0
    && roi.x + roi.width <= 1.0000001 && roi.y + roi.height <= 1.0000001
  }

  predicate Holds(v: Json.Value, key: string, n: real) {
    v.Object? && Json.Get(v.fields, key) == Some(Json.Number(n))
  }

  predicate IsRegion(v: Json.Value, roi: Roi) {
    Holds(v, "x", roi.x) && Holds(v, "y", roi.y) && Holds(v, "width", roi.width) && Holds(v, "height", roi.height)
  }

  /** A document is read as a region exactly when it holds its four numbers and the region is inside. */
  lemma RegionIsReadExactly(v: Json.Value, roi: Roi)
    ensures RoiOf(v) == Some(roi) <==> IsRegion(v, roi) && IsInside(roi)
  {
  }

  /** The region is sent under the same four keys. */
  lemma RegionIsSent(roi: Roi)
    ensures IsRegion(RoiToJson(roi), roi)
  {
    assert "x" != "y" && "width" != "height";
  }

  predicate NamesSlot(v: Json.Value, slot: string) {
    v.Object? && slot != "" && Upper(Trim(Json.AsText(Json.Get(v.fields, "slotId")))) == slot
  }

  /** A reply about one slot: its name, its region, and no failure reported. */
  predicate Describes(v: Json.Value, slot: string, roi: Roi, applied: bool) {
    && NamesSlot(v, slot)
    && "roi" in v.fields && IsRegion(v.fields["roi"], roi) && IsInside(roi)
    && ("success" in v.fields ==> v.fields["success"] == Json.Bool(true))
    && (applied <==> Json.Get(v.fields, "appliedImmediately") == Some(Json.Bool(true)))
  }

  /** A reply is read exactly as what it describes. */
  lemma ReplyIsReadExactly(v: Json.Value, slot: string, roi: Roi, applied: bool)
    ensures ParseSingle(v) == Some(Single(slot, roi, applied)) <==> Describes(v, slot, roi, applied)
  {
    if v.Object? && "roi" in v.fields {
      RegionIsReadExactly(v.fields["roi"], roi);
    }
  }

  // ---------- a save, confirmed or not ----------

  /** Each coordinate differs by at most a millionth. */
  predicate IsClose(a: Roi, b: Roi) {
    && a.x - b.x <= 0.000001 && b.x - a.x <= 0.000001 && a.y - b.y <= 0.000001 && b.y - a.y <= 0.000001
    && a.width - b.width <= 0.000001 && b.width - a.width <= 0.000001
    && a.height - b.height <= 0.000001 && b.height - a.height <= 0.000001
  }

  lemma NearnessIsClose(a: Roi, b: Roi)
    ensures a.NearlyEquals(b) <==> IsClose(a, b)
  {
  }

  predicate CanBeAsked(s: Requests, mapper: Mapper, slot: string) {
    s.ready && IsRoiZone(ZoneId(mapper, slot)) && ServerSlotId(mapper, ZoneId(mapper, slot)) != ""
  }

  /** A save is sent, under a tag of its own zone and generation, exactly when the slot can be asked for
      and the region is inside. */
  lemma SaveIsSentExactly(s: Requests, mapper: Mapper, slot: string, roi: Roi, generation: nat)
    ensures
      var zone := ZoneId(mapper, slot);
      var tag := TagText("put", generation, zone, false);
      var (next, outputs) := Step(s, mapper, Save(slot, roi, generation));
      if CanBeAsked(s, mapper, slot) && IsInside(roi)
      then next == s.(pending := s.pending + {tag}, expected := s.expected[tag := roi])
           && outputs == [SentPut(ServerSlotId(mapper, zone), RoiToJson(roi), tag)]
      else next == s && outputs == [Failed(zone, generation, true)]
  {
  }

  /** So is a plain read, for any slot that can be asked for. */
  lemma ReadIsSentExactly(s: Requests, mapper: Mapper, slot: string, generation: nat)
    ensures
      var zone := ZoneId(mapper, slot);
      var tag := TagText("get", generation, zone, false);
      var (next, outputs) := Step(s, mapper, AskOne(slot, generation));
      if CanBeAsked(s, mapper, slot)
      then next == s.(pending := s.pending + {tag}) && outputs == [SentGet(ServerSlotId(mapper, zone), tag)]
      else next == s && outputs == [Failed(zone, generation, false)]
  {
  }

  lemma TagIsRead(kind: string, generation: nat, zone: string, applied: bool)
    requires (kind == "put" || kind == "verify" || kind == "get") && IsRoiZone(zone) && generation <= MAX_GENERATION
    ensures ReadTag(TagText(kind, generation, zone, applied)) == Some(Tag(kind, generation, zone, if applied then "1" else "0"))
  {
    ZonesHoldNoSeparator(zone);
    TagRoundTrip(kind, generation, zone, applied);
  }

  lemma AnswerToTag(s: Requests, mapper: Mapper, text: string, tag: Tag, v: Json.Value)
    requires text in s.pending && ReadTag(text) == Some(tag)
    ensures Step(s, mapper, Reply(text, v)) == Answer(Removed(s, text), tag, mapper, v, ExpectedFor(s, text))
  {
  }

  lemma PutIsAnswered(s: Requests, mapper: Mapper, tag: Tag, v: Json.Value, slot: string, returned: Roi, applied: bool, roi: Roi)
    requires tag.kind == "put" && ServerSlotId(mapper, tag.zone) != ""
    requires ParseSingle(v) == Some(Single(slot, returned, applied)) && ZoneId(mapper, slot) == tag.zone
    ensures
      var verify := TagText("verify", tag.generation, tag.zone, applied);
      Answer(s, tag, mapper, v, Some(roi))
        == (s.(pending := s.pending + {verify}, expected := s.expected[verify := roi]),
            [SentGet(ServerSlotId(mapper, tag.zone), verify)])
  {
    assert "put" != "list";
  }

  lemma ReadIsAnswered(s: Requests, mapper: Mapper, tag: Tag, v: Json.Value, slot: string, returned: Roi, ignored: bool, expected: Option<Roi>)
    requires tag.kind == "get" || tag.kind == "verify"
    requires ParseSingle(v) == Some(Single(slot, returned, ignored))
    ensures
      Answer(s, tag, mapper, v, expected)
        == (s, if ZoneId(mapper, slot) != tag.zone then [Failed(tag.zone, tag.generation, tag.kind == "verify")]
               else ReadReply(tag, tag.zone, Single(slot, returned, ignored), expected))
  {
    assert "get" != "list" && "verify" != "list" && "get" != "put" && "verify" != "put" && "get" != "verify";
  }

  /** The reply to an open save that describes its own zone starts the confirming read, which expects the
      region asked for and carries whether it was applied at once. */
  lemma SaveReplyAsksAgain(s: Requests, mapper: Mapper, zone: string, roi: Roi, generation: nat,
                           v: Json.Value, slot: string, returned: Roi, applied: bool)
    requires IsRoiZone(zone) && ServerSlotId(mapper, zone) != "" && generation <= MAX_GENERATION
    requires
      var tag := TagText("put", generation, zone, false);
      tag in s.pending && tag in s.expected && s.expected[tag] == roi
    requires Describes(v, slot, returned, applied) && ZoneId(mapper, slot) == zone
    ensures
      var tag, verify := TagText("put", generation, zone, false), TagText("verify", generation, zone, applied);
      var (next, outputs) := Step(s, mapper, Reply(tag, v));
      && outputs == [SentGet(ServerSlotId(mapper, zone), verify)]
      && verify in next.pending && verify in next.expected && next.expected[verify] == roi
  {
    var text, tag := TagText("put", generation, zone, false), Tag("put", generation, zone, "0");
    TagIsRead("put", generation, zone, false);
    ReplyIsReadExactly(v, slot, returned, applied);
    AnswerToTag(s, mapper, text, tag, v);
    PutIsAnswered(Removed(s, text), mapper, tag, v, slot, returned, applied, roi);
  }

  /** The reply to the confirming read announces the save exactly when it returns the zone's region within
      a millionth of the one asked for; it announces the region returned, and the flag of the first reply. */
  lemma ConfirmingReplyDecides(s: Requests, mapper: Mapper, zone: string, roi: Roi, generation: nat, applied: bool,
                               v: Json.Value, slot: string, returned: Roi, ignored: bool)
    requires IsRoiZone(zone) && generation <= MAX_GENERATION
    requires
      var verify := TagText("verify", generation, zone, applied);
      verify in s.pending && verify in s.expected && s.expected[verify] == roi
    requires Describes(v, slot, returned, ignored)
    ensures
      Step(s, mapper, Reply(TagText("verify", generation, zone, applied), v)).1
        == if ZoneId(mapper, slot) == zone && IsClose(returned, roi)
           then [Received(zone, returned, generation, true, applied), SaveLogged(zone)]
           else [Failed(zone, generation, true)]
  {
    var text, tag := TagText("verify", generation, zone, applied), Tag("verify", generation, zone, if applied then "1" else "0");
    TagIsRead("verify", generation, zone, applied);
    ReplyIsReadExactly(v, slot, returned, ignored);
    AnswerToTag(s, mapper, text, tag, v);
    ReadIsAnswered(Removed(s, text), mapper, tag, v, slot, returned, ignored, Some(roi));
    NearnessIsClose(returned, roi);
    assert [Received(zone, returned, generation, true, applied)] + [SaveLogged(zone)]
        == [Received(zone, returned, generation, true, applied), SaveLogged(zone)];
  }

  /** A server that stores what it is sent and answers for the right slot gets the save confirmed. */
  lemma HonestServerConfirms(s: Requests, mapper: Mapper, slot: string, roi: Roi, generation: nat,
                             first: Json.Value, second: Json.Value, name: string, applied: bool, ignored: bool)
    requires CanBeAsked(s, mapper, slot) && IsInside(roi) && generation <= MAX_GENERATION
    requires ZoneId(mapper, name) == ZoneId(mapper, slot)
    requires Describes(first, name, roi, applied) && Describes(second, name, roi, ignored)
    ensures
      var zone := ZoneId(mapper, slot);
      var asked := Step(s, mapper, Save(slot, roi, generation)).0;
      var taken := Step(asked, mapper, Reply(TagText("put", generation, zone, false), first)).0;
      Step(taken, mapper, Reply(TagText("verify", generation, zone, applied), second)).1
        == [Received(zone, roi, generation, true, applied), SaveLogged(zone)]
  {
    var zone := ZoneId(mapper, slot);
    SaveIsSentExactly(s, mapper, slot, roi, generation);
    var asked := Step(s, mapper, Save(slot, roi, generation)).0;
    SaveReplyAsksAgain(asked, mapper, zone, roi, generation, first, name, roi, applied);
    var taken := Step(asked, mapper, Reply(TagText("put", generation, zone, false), first)).0;
    ConfirmingReplyDecides(taken, mapper, zone, roi, generation, applied, second, name, roi, ignored);
  }

  /** The reply to a plain read is announced with the region it describes, for its own zone only. */
  lemma ReadReplyIsAnnounced(s: Requests, mapper: Mapper, zone: string, generation: nat,
                             v: Json.Value, slot: string, returned: Roi, ignored: bool)
    requires IsRoiZone(zone) && generation <= MAX_GENERATION && TagText("get", generation, zone, false) in s.pending
    requires Describes(v, slot, returned, ignored)
    ensures
      Step(s, mapper, Reply(TagText("get", generation, zone, false), v)).1
        == if ZoneId(mapper, slot) == zone then [Received(zone, returned, generation, false, false)]
           else [Failed(zone, generation, false)]
  {
    var text, tag := TagText("get", generation, zone, false), Tag("get", generation, zone, "0");
    TagIsRead("get", generation, zone, false);
    ReplyIsReadExactly(v, slot, returned, ignored);
    AnswerToTag(s, mapper, text, tag, v);
    ReadIsAnswered(Removed(s, text), mapper, tag, v, slot, returned, ignored, ExpectedFor(s, text));
    assert "get" != "verify";
    assert [Received(zone, returned, generation, false, false)] + [] == [Received(zone, returned, generation, false, false)];
  }

  /** An error ends the request it answers, and is reported for its zone and generation. */
  lemma ErrorIsReported(s: Requests, mapper: Mapper, kind: string, generation: nat, zone: string, applied: bool)
    requires (kind == "put" || kind == "verify" || kind == "get") && IsRoiZone(zone) && generation <= MAX_GENERATION
    requires TagText(kind, generation, zone, applied) in s.pending
    ensures
      var text := TagText(kind, generation, zone, applied);
      var (next, outputs) := Step(s, mapper, Fails(text));
      && text !in next.pending && text !in next.expected
      && outputs == [Failed(zone, generation, kind != "get")]
  {
    TagIsRead(kind, generation, zone, applied);
    assert "get" != "put" && "get" != "verify";
  }

  // ---------- lists ----------

  /** An element of a list: the name of its slot and its region. */
  predicate IsItem(v: Json.Value, slot: string, roi: Roi) {
    NamesSlot(v, slot) && "roi" in v.fields && IsRegion(v.fields["roi"], roi) && IsInside(roi)
  }

  ghost predicate IsSomeItem(v: Json.Value) {
    exists slot: string, roi: Roi :: IsItem(v, slot, roi)
  }

  ghost predicate AreItems(items: seq<Json.Value>) {
    forall v <- items :: IsSomeItem(v)
  }

  /** The last element that names the slot gives it this region. */
  ghost predicate IsLastItem(items: seq<Json.Value>, slot: string, roi: Roi, k: nat) {
    k < |items| && IsItem(items[k], slot, roi) && forall i :: k < i < |items| ==> !NamesSlot(items[i], slot)
  }

  ghost predicate Gives(items: seq<Json.Value>, slot: string, roi: Roi) {
    exists k: nat :: IsLastItem(items, slot, roi, k)
  }

  /** The map holds what the elements give. */
  ghost predicate AreGiven(rois: map<string, Roi>, items: seq<Json.Value>) {
    forall slot, roi :: (slot in rois && rois[slot] == roi) <==> Gives(items, slot, roi)
  }

  lemma ItemIsRead(v: Json.Value, slot: string, roi: Roi)
    ensures IsItem(v, slot, roi)
       <==> v.Object? && SlotText(v.fields) == slot && slot != "" && "roi" in v.fields && RoiOf(v.fields["roi"]) == Some(roi)
  {
    if v.Object? && "roi" in v.fields {
      RegionIsReadExactly(v.fields["roi"], roi);
    }
  }

  lemma EarlierItem(items: seq<Json.Value>, slot: string, roi: Roi, k: nat)
    requires k < |items| - 1
    ensures IsLastItem(items, slot, roi, k)
       <==> !NamesSlot(items[|items| - 1], slot) && IsLastItem(items[..|items| - 1], slot, roi, k)
  {
    assert forall i :: k < i < |items| - 1 ==> items[i] == items[..|items| - 1][i];
  }

  lemma LastGives(items: seq<Json.Value>, slot: string, roi: Roi)
    requires items != []
    ensures
      var n := |items| - 1;
      Gives(items, slot, roi)
      <==> IsItem(items[n], slot, roi) || (!NamesSlot(items[n], slot) && Gives(items[..n], slot, roi))
  {
    var n := |items| - 1;
    if IsItem(items[n], slot, roi) {
      assert IsLastItem(items, slot, roi, n);
    }
    if Gives(items, slot, roi) {
      var k: nat :| IsLastItem(items, slot, roi, k);
      if k < n {
        EarlierItem(items, slot, roi, k);
      }
    }
    if Gives(items[..n], slot, roi) {
      var k: nat :| IsLastItem(items[..n], slot, roi, k);
      EarlierItem(items, slot, roi, k);
    }
  }

  lemma AllAreItems(items: seq<Json.Value>)
    requires items != []
    ensures AreItems(items) <==> AreItems(items[..|items| - 1]) && IsSomeItem(items[|items| - 1])
  {
    assert items == items[..|items| - 1] + [items[|items| - 1]];
  }

  /** A list is read exactly when all its elements are; of several for one slot the last one counts. */
  lemma {:induction false} ListIsReadExactly(items: seq<Json.Value>)
    ensures ParseItems(items).Some? <==> AreItems(items)
    ensures ParseItems(items).Some? ==> AreGiven(ParseItems(items).value, items)
  {
    if items != [] {
      var n := |items| - 1;
      ListIsReadExactly(items[..n]);
      AllAreItems(items);
      var v := items[n];
      if v.Object? && "roi" in v.fields && RoiOf(v.fields["roi"]).Some? {
        ItemIsRead(v, SlotText(v.fields), RoiOf(v.fields["roi"]).value);
      }
      if slot: string, roi: Roi :| IsItem(v, slot, roi) {
        ItemIsRead(v, slot, roi);
      }
      if ParseItems(items).Some? {
        OneMoreItem(items, v);
      }
    }
  }

  lemma OneMoreItem(items: seq<Json.Value>, v: Json.Value)
    requires items != [] && v == items[|items| - 1] && ParseItems(items).Some?
    requires ParseItems(items[..|items| - 1]).Some?
    requires AreGiven(ParseItems(items[..|items| - 1]).value, items[..|items| - 1])
    ensures AreGiven(ParseItems(items).value, items)
  {
    forall slot, roi
      ensures (slot in ParseItems(items).value && ParseItems(items).value[slot] == roi) <==> Gives(items, slot, roi)
    {
      LastGives(items, slot, roi);
      ItemIsRead(v, slot, roi);
    }
  }

  /** Every slot of the list stands for a zone, and no two of them for the same. */
  ghost predicate AreApart(mapper: Mapper, items: seq<Json.Value>) {
    && (forall slot, roi :: Gives(items, slot, roi) ==> IsRoiZone(ZoneId(mapper, slot)))
    && (forall a, b, p, q :: Gives(items, a, p) && Gives(items, b, q) && a != b ==> ZoneId(mapper, a) != ZoneId(mapper, b))
  }

  ghost predicate GivesZone(mapper: Mapper, items: seq<Json.Value>, zone: string, roi: Roi) {
    exists slot :: ZoneId(mapper, slot) == zone && Gives(items, slot, roi)
  }

  /** The reply to a list request is announced, zone by zone, exactly when it is a list of regions whose slots
      stand for different zones; anything else fails. */
  lemma ListReplyIsAnnounced(s: Requests, mapper: Mapper, generation: nat, fields: Json.Fields, items: seq<Json.Value>)
    requires generation <= MAX_GENERATION && TagText("list", generation, "", false) in s.pending
    requires Json.Get(fields, "items") == Some(Json.Array(items))
    ensures
      var outputs := Step(s, mapper, Reply(TagText("list", generation, "", false), Json.Object(fields))).1;
      if AreItems(items) && AreApart(mapper, items) then
        && |outputs| == 1 && outputs[0].Listed? && outputs[0].generation == generation
        && forall zone, roi :: (zone in outputs[0].rois && outputs[0].rois[zone] == roi) <==> GivesZone(mapper, items, zone, roi)
      else outputs == [Failed("", generation, false)]
  {
    TagRoundTrip("list", generation, "", false);
    ListIsReadExactly(items);
    var tag := Tag("list", generation, "", "0");
    AnswerToTag(s, mapper, TagText("list", generation, "", false), tag, Json.Object(fields));
    ListDecides(mapper, tag, fields, items);
  }

  lemma ListDecides(mapper: Mapper, tag: Tag, fields: Json.Fields, items: seq<Json.Value>)
    requires Json.Get(fields, "items") == Some(Json.Array(items))
    requires ParseItems(items).Some? <==> AreItems(items)
    requires ParseItems(items).Some? ==> AreGiven(ParseItems(items).value, items)
    ensures
      var outputs := ListReply(tag, mapper, Json.Object(fields));
      if AreItems(items) && AreApart(mapper, items) then
        && |outputs| == 1 && outputs[0].Listed? && outputs[0].generation == tag.generation
        && forall zone, roi :: (zone in outputs[0].rois && outputs[0].rois[zone] == roi) <==> GivesZone(mapper, items, zone, roi)
      else outputs == [Failed("", tag.generation, false)]
  {
    assert ParseList(Json.Object(fields)) == ParseItems(items);
    if AreItems(items) {
      var rois := ParseItems(items).value;
      ClearIsApart(mapper, items, rois);
      if AreApart(mapper, items) {
        ZonesGiven(mapper, items, rois);
      }
    }
  }

  lemma ClearIsApart(mapper: Mapper, items: seq<Json.Value>, rois: map<string, Roi>)
    requires AreGiven(rois, items)
    ensures ZonesAreClear(mapper, rois) <==> AreApart(mapper, items)
  {
    if AreApart(mapper, items) {
      forall slot <- rois
        ensures IsRoiZone(ZoneId(mapper, slot))
      {
        assert Gives(items, slot, rois[slot]);
      }
      forall a <- rois, b <- rois | a != b
        ensures ZoneId(mapper, a) != ZoneId(mapper, b)
      {
        assert Gives(items, a, rois[a]) && Gives(items, b, rois[b]);
      }
    }
  }

  lemma ZonesGiven(mapper: Mapper, items: seq<Json.Value>, rois: map<string, Roi>)
    requires AreGiven(rois, items) && ZonesAreClear(mapper, rois)
    ensures forall zone, roi :: (zone in ZoneRois(mapper, rois) && ZoneRois(mapper, rois)[zone] == roi) <==> GivesZone(mapper, items, zone, roi)
  {
    forall zone, roi
      ensures (zone in ZoneRois(mapper, rois) && ZoneRois(mapper, rois)[zone] == roi) <==> GivesZone(mapper, items, zone, roi)
    {
      if zone in ZoneRois(mapper, rois) && ZoneRois(mapper, rois)[zone] == roi {
        var slot :| slot in rois && ZoneId(mapper, slot) == zone;
        assert Gives(items, slot, roi);
      }
      if GivesZone(mapper, items, zone, roi) {
        var slot :| ZoneId(mapper, slot) == zone && Gives(items, slot, roi);
        assert slot in rois && rois[slot] == roi;
      }
    }
  }
}

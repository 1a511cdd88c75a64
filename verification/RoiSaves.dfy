/** Runs of the ROI requests: every call gets exactly one answer, and a save is
    announced only after the server took it and returned it. */
module RoiSaves {
  import opened Text
  import opened SlotIds
  import opened ParkingRoi
  import Json

  datatype Event =
    | AskList(generation: nat)
    | AskOne(slot: string, generation: nat)
    | Save(slot: string, roi: Roi, generation: nat)
    | Reply(tag: string, document: Json.Value)
    | Fails(tag: string)
    | Reconnect(order: seq<string>, ready: bool)

  predicate IsCall(e: Event) {
    e.AskList? || e.AskOne? || e.Save?
  }

  predicate Distinct(order: seq<string>) {
    forall i, j :: 0 <= i < j < |order| ==> order[i] != order[j]
  }

  /** The table yields each open tag once; the other events are free. */
  ghost predicate Possible(s: Requests, e: Event) {
    && (IsCall(e) ==> e.generation <= MAX_GENERATION)
    && (e.Reconnect? ==> Distinct(e.order) && forall t :: t in e.order <==> t in s.pending)
  }

  function Step(s: Requests, mapper: Mapper, e: Event): (Requests, seq<Output>) {
    match e
    case AskList(generation) => RequestList(s, generation)
    case AskOne(slot, generation) => RequestOne(s, mapper, slot, generation)
    case Save(slot, roi, generation) => Update(s, mapper, slot, roi, generation)
    case Reply(tag, document) => Response(s, tag, mapper, document)
    case Fails(tag) => Error(s, tag)
    case Reconnect(order, ready) => Rebuild(s, order, ready)
  }

  function After(mapper: Mapper, ready: bool, events: seq<Event>): Requests {
    if events == [] then Requests(ready, {}, map[])
    else Step(After(mapper, ready, events[..|events| - 1]), mapper, events[|events| - 1]).0
  }

  ghost predicate Runs(mapper: Mapper, ready: bool, events: seq<Event>) {
    events == []
    || (Runs(mapper, ready, events[..|events| - 1])
        && Possible(After(mapper, ready, events[..|events| - 1]), events[|events| - 1]))
  }

  // ---------- the tables ----------

  /** A tag the controller makes. */
  ghost predicate Issued(text: string, tag: Tag) {
    && ReadTag(text) == Some(tag)
    && tag.kind in {"list", "get", "put", "verify"} && tag.generation <= MAX_GENERATION
    && (tag.kind != "list" ==> IsRoiZone(tag.zone))
  }

  predicate IsSaving(tag: Tag) {
    tag.kind == "put" || tag.kind == "verify"
  }

  /** Only tags the controller made are open, and a value is expected exactly for the saving ones. */
  ghost predicate Sound(s: Requests) {
    && (forall text <- s.pending :: ReadTag(text).Some? && Issued(text, ReadTag(text).value))
    && s.expected.Keys <= s.pending
    && (forall text <- s.pending :: ReadTag(text).Some? && (text in s.expected <==> IsSaving(ReadTag(text).value)))
  }

  lemma MadeTagIsIssued(kind: string, generation: nat, zone: string, applied: bool)
    requires kind in {"list", "get", "put", "verify"} && generation <= MAX_GENERATION
    requires if kind == "list" then zone == "" else IsRoiZone(zone)
    ensures Issued(TagText(kind, generation, zone, applied), Tag(kind, generation, zone, if applied then "1" else "0"))
  {
    if kind != "list" {
      ZonesHoldNoSeparator(zone);
    }
    TagRoundTrip(kind, generation, zone, applied);
  }

  lemma OpeningKeeps(s: Requests, text: string, tag: Tag)
    requires Sound(s) && Issued(text, tag) && !IsSaving(tag)
    requires text !in s.expected
    ensures Sound(s.(pending := s.pending + {text}))
  {
  }

  lemma OpeningSaveKeeps(s: Requests, text: string, tag: Tag, roi: Roi)
    requires Sound(s) && Issued(text, tag) && IsSaving(tag)
    ensures Sound(s.(pending := s.pending + {text}, expected := s.expected[text := roi]))
  {
  }

  lemma RemovalKeeps(s: Requests, text: string)
    requires Sound(s)
    ensures Sound(Removed(s, text))
  {
  }

  lemma CallKeeps(s: Requests, mapper: Mapper, e: Event)
    requires Sound(s) && IsCall(e) && Possible(s, e)
    ensures Sound(Step(s, mapper, e).0)
  {
    match e {
      case AskList(generation) =>
        MadeTagIsIssued("list", generation, "", false);
        OpeningKeeps(s, TagText("list", generation, "", false), Tag("list", generation, "", "0"));
      case AskOne(slot, generation) =>
        var zone := ZoneId(mapper, slot);
        if IsRoiZone(zone) {
          MadeTagIsIssued("get", generation, zone, false);
          OpeningKeeps(s, TagText("get", generation, zone, false), Tag("get", generation, zone, "0"));
        }
      case Save(slot, roi, generation) =>
        var zone := ZoneId(mapper, slot);
        if IsRoiZone(zone) {
          MadeTagIsIssued("put", generation, zone, false);
          OpeningSaveKeeps(s, TagText("put", generation, zone, false), Tag("put", generation, zone, "0"), roi);
        }
    }
  }

  lemma ReplyKeeps(s: Requests, mapper: Mapper, text: string, v: Json.Value)
    requires Sound(s)
    ensures Sound(Response(s, text, mapper, v).0)
  {
    RemovalKeeps(s, text);
    if text in s.pending {
      var tag := ReadTag(text).value;
      var rest := Removed(s, text);
      var expected := ExpectedFor(s, text);
      forall reply: Single
        ensures tag.kind == "put" ==> Sound(PutReply(rest, tag, mapper, reply, expected).0)
      {
        if tag.kind == "put" {
          var verify := TagText("verify", tag.generation, tag.zone, reply.appliedImmediately);
          MadeTagIsIssued("verify", tag.generation, tag.zone, reply.appliedImmediately);
          if expected.Some? {
            OpeningSaveKeeps(rest, verify, ReadTag(verify).value, expected.value);
          }
        }
      }
    }
  }

  lemma {:induction false} ErrorsKeep(s: Requests, order: seq<string>)
    requires Sound(s)
    ensures Sound(ErrorAll(s, order).0)
    decreases |order|
  {
    if order != [] {
      ErrorsKeep(s, order[..|order| - 1]);
      RemovalKeeps(ErrorAll(s, order[..|order| - 1]).0, order[|order| - 1]);
    }
  }

  /** The tables stay in step over every run, whatever tags replies carry and however generations are reused. */
  lemma {:induction false} EveryRunIsSound(mapper: Mapper, ready: bool, events: seq<Event>)
    requires Runs(mapper, ready, events)
    ensures Sound(After(mapper, ready, events))
  {
    if events != [] {
      var s := After(mapper, ready, events[..|events| - 1]);
      var e := events[|events| - 1];
      EveryRunIsSound(mapper, ready, events[..|events| - 1]);
      if IsCall(e) {
        CallKeeps(s, mapper, e);
      } else if e.Reply? {
        ReplyKeeps(s, mapper, e.tag, e.document);
      } else if e.Fails? {
        RemovalKeeps(s, e.tag);
      }
    }
  }

  // ---------- each call has one answer ----------

  function Generation(text: string): nat {
    match ReadTag(text)
    case None => 0
    case Some(tag) => tag.generation
  }

  /** Counting is done for one generation, or for all of them together. */
  predicate Selects(g: Option<nat>, generation: nat) {
    g.None? || g.value == generation
  }

  function One(b: bool): nat {
    if b then 1 else 0
  }

  predicate Answered(g: Option<nat>, o: Output) {
    (o.Listed? || o.Received? || o.Failed?) && Selects(g, o.generation)
  }

  function Answers(g: Option<nat>, outputs: seq<Output>): nat {
    if outputs == [] then 0
    else Answers(g, outputs[..|outputs| - 1]) + One(Answered(g, outputs[|outputs| - 1]))
  }

  function OpenTags(g: Option<nat>, pending: set<string>): set<string> {
    set text <- pending | Selects(g, Generation(text))
  }

  /** The tag a step puts on the table. */
  function OpenedTag(s: Requests, mapper: Mapper, e: Event): Option<string> {
    match e
    case AskList(generation) => if s.ready then Some(TagText("list", generation, "", false)) else None
    case AskOne(slot, generation) =>
      var zone := ZoneId(mapper, slot);
      if IsRoiZone(zone) && s.ready && ServerSlotId(mapper, zone) != ""
      then Some(TagText("get", generation, zone, false)) else None
    case Save(slot, roi, generation) =>
      var zone := ZoneId(mapper, slot);
      if IsRoiZone(zone) && roi.Valid() && s.ready && ServerSlotId(mapper, zone) != ""
      then Some(TagText("put", generation, zone, false)) else None
    case Reply(text, document) =>
      if text !in s.pending || ReadTag(text).None? then None
      else OpenedVerify(ReadTag(text).value, mapper, document, ExpectedFor(s, text))
    case _ => None
  }

  /** The tag of the confirming read that the reply to a save starts. */
  function OpenedVerify(tag: Tag, mapper: Mapper, v: Json.Value, expected: Option<Roi>): Option<string> {
    if tag.kind == "put" && expected.Some? && ServerSlotId(mapper, tag.zone) != ""
       && ParseSingle(v).Some? && ZoneId(mapper, ParseSingle(v).value.slot) == tag.zone
    then Some(TagText("verify", tag.generation, tag.zone, ParseSingle(v).value.appliedImmediately))
    else None
  }

  /** The step opens a tag that is open already, so that two requests share one entry. */
  predicate Collides(s: Requests, mapper: Mapper, e: Event) {
    OpenedTag(s, mapper, e).Some? && OpenedTag(s, mapper, e).value in s.pending
  }

  predicate CollidesFor(g: Option<nat>, s: Requests, mapper: Mapper, e: Event) {
    Collides(s, mapper, e) && Selects(g, Generation(OpenedTag(s, mapper, e).value))
  }

  // ---------- counting one step ----------

  lemma AnswersOfOne(g: Option<nat>, o: Output)
    ensures Answers(g, [o]) == One(Answered(g, o))
  {
    assert [o][..0] == [];
  }

  lemma {:induction false} AnswersOfConcat(g: Option<nat>, a: seq<Output>, b: seq<Output>)
    ensures Answers(g, a + b) == Answers(g, a) + Answers(g, b)
  {
    if b == [] {
      assert a + b == a;
    } else {
      AnswersOfConcat(g, a, b[..|b| - 1]);
      assert (a + b)[..|a + b| - 1] == a + b[..|b| - 1];
    }
  }

  lemma TagAdded(g: Option<nat>, pending: set<string>, text: string)
    ensures |OpenTags(g, pending + {text})|
         == |OpenTags(g, pending)| + One(text !in pending && Selects(g, Generation(text)))
  {
    if text in pending {
      assert pending + {text} == pending;
    } else if Selects(g, Generation(text)) {
      assert OpenTags(g, pending + {text}) == OpenTags(g, pending) + {text};
    } else {
      assert OpenTags(g, pending + {text}) == OpenTags(g, pending);
    }
  }

  lemma TagRemoved(g: Option<nat>, pending: set<string>, text: string)
    requires text in pending
    ensures |OpenTags(g, pending - {text})| + One(Selects(g, Generation(text))) == |OpenTags(g, pending)|
  {
    TagAdded(g, pending - {text}, text);
    assert (pending - {text}) + {text} == pending;
  }

  /** What a step answers, leaves open and loses adds up to what was open and called for. */
  ghost predicate Accounted(g: Option<nat>, s: Requests, next: Requests, outputs: seq<Output>, lost: nat, calls: nat) {
    Answers(g, outputs) + |OpenTags(g, next.pending)| + lost == |OpenTags(g, s.pending)| + calls
  }

  /** A call either fails at once or puts its tag on the table. */
  lemma CallOpens(s: Requests, mapper: Mapper, e: Event)
    requires IsCall(e) && Possible(s, e)
    ensures
      var (next, outputs) := Step(s, mapper, e);
      var added := OpenedTag(s, mapper, e);
      && |outputs| == 1
      && if added.None? then next.pending == s.pending && outputs[0].Failed? && outputs[0].generation == e.generation
         else next.pending == s.pending + {added.value} && Generation(added.value) == e.generation
              && (outputs[0].SentGet? || outputs[0].SentPut?)
  {
    match e {
      case AskList(generation) =>
        MadeTagIsIssued("list", generation, "", false);
      case AskOne(slot, generation) =>
        if IsRoiZone(ZoneId(mapper, slot)) {
          MadeTagIsIssued("get", generation, ZoneId(mapper, slot), false);
        }
      case Save(slot, roi, generation) =>
        if IsRoiZone(ZoneId(mapper, slot)) {
          MadeTagIsIssued("put", generation, ZoneId(mapper, slot), false);
        }
    }
  }

  lemma CallAccounted(g: Option<nat>, s: Requests, mapper: Mapper, e: Event)
    requires IsCall(e) && Possible(s, e)
    ensures Accounted(g, s, Step(s, mapper, e).0, Step(s, mapper, e).1,
                      One(CollidesFor(g, s, mapper, e)), One(Selects(g, e.generation)))
  {
    var (next, outputs) := Step(s, mapper, e);
    CallOpens(s, mapper, e);
    assert outputs == [outputs[0]];
    AnswersOfOne(g, outputs[0]);
    var added := OpenedTag(s, mapper, e);
    if added.Some? {
      assert !Answered(g, outputs[0]);
      TagAdded(g, s.pending, added.value);
      assert |OpenTags(g, next.pending)|
          == |OpenTags(g, s.pending)| + One(added.value !in s.pending && Selects(g, e.generation));
    } else {
      assert Answered(g, outputs[0]) <==> Selects(g, e.generation);
      assert !CollidesFor(g, s, mapper, e) && next.pending == s.pending;
    }
  }

  lemma ReadReplyAnswersOnce(g: Option<nat>, tag: Tag, zone: string, reply: Single, expected: Option<Roi>)
    ensures Answers(g, ReadReply(tag, zone, reply, expected)) == One(Selects(g, tag.generation))
  {
    AnswersOfOne(g, Failed(tag.zone, tag.generation, true));
    var received := Received(zone, reply.roi, tag.generation, tag.kind == "verify", tag.kind == "verify" && tag.flag == "1");
    AnswersOfOne(g, received);
    AnswersOfConcat(g, [received], [SaveLogged(zone)]);
    AnswersOfOne(g, SaveLogged(zone));
    assert [received] + [] == [received];
  }

  ghost predicate OpensVerify(s: Requests, next: Requests, tag: Tag, applied: bool, roi: Roi) {
    var verify := TagText("verify", tag.generation, tag.zone, applied);
    next == s.(pending := s.pending + {verify}, expected := s.expected[verify := roi])
  }

  /** Once its tag is off the tables, a reply either gives one answer, of the tag's generation, or
      opens the confirming read. */
  lemma AnswerAnswersOnce(g: Option<nat>, s: Requests, tag: Tag, mapper: Mapper, v: Json.Value, expected: Option<Roi>)
    ensures
      var (next, outputs) := Answer(s, tag, mapper, v, expected);
      var added := OpenedVerify(tag, mapper, v, expected);
      if added.None? then next == s && Answers(g, outputs) == One(Selects(g, tag.generation))
      else Answers(g, outputs) == 0 && next.pending == s.pending + {added.value}
  {
    var (next, outputs) := Answer(s, tag, mapper, v, expected);
    if tag.kind == "list" || tag.kind == "put" || ParseSingle(v).None?
       || ZoneId(mapper, ParseSingle(v).value.slot) != tag.zone {
      assert outputs == [outputs[0]];
      AnswersOfOne(g, outputs[0]);
    } else {
      ReadReplyAnswersOnce(g, tag, tag.zone, ParseSingle(v).value, expected);
    }
  }

  lemma VerifyIsOther(tag: Tag, text: string, applied: bool)
    requires Issued(text, tag) && tag.kind == "put"
    ensures TagText("verify", tag.generation, tag.zone, applied) != text
    ensures Generation(TagText("verify", tag.generation, tag.zone, applied)) == tag.generation
  {
    MadeTagIsIssued("verify", tag.generation, tag.zone, applied);
  }

  lemma ReplyAccounted(g: Option<nat>, s: Requests, mapper: Mapper, e: Event)
    requires Sound(s) && e.Reply?
    ensures Accounted(g, s, Step(s, mapper, e).0, Step(s, mapper, e).1, One(CollidesFor(g, s, mapper, e)), 0)
  {
    if e.tag !in s.pending {
      assert OpenedTag(s, mapper, e).None?;
    } else {
      assert Step(s, mapper, e)
          == Answer(Removed(s, e.tag), ReadTag(e.tag).value, mapper, e.document, ExpectedFor(s, e.tag));
      AnswerAnswersOnce(g, Removed(s, e.tag), ReadTag(e.tag).value, mapper, e.document, ExpectedFor(s, e.tag));
      ReplyOpens(s, mapper, e);
      var added := OpenedTag(s, mapper, e);
      if added.Some? {
        TagReplaced(g, s.pending, e.tag, added.value);
      } else {
        TagRemoved(g, s.pending, e.tag);
        assert !CollidesFor(g, s, mapper, e);
      }
    }
  }

  /** A tag that takes the place of another of its generation leaves as many open, unless it was open already. */
  lemma TagReplaced(g: Option<nat>, pending: set<string>, text: string, added: string)
    requires text in pending && added != text && Generation(added) == Generation(text)
    ensures |OpenTags(g, pending - {text} + {added})| + One(added in pending && Selects(g, Generation(added)))
         == |OpenTags(g, pending)|
  {
    TagRemoved(g, pending, text);
    TagAdded(g, pending - {text}, added);
  }

  lemma ErrorAccounted(g: Option<nat>, s: Requests, text: string)
    requires Sound(s)
    ensures Accounted(g, s, Error(s, text).0, Error(s, text).1, 0, 0)
  {
    if text in s.pending {
      TagRemoved(g, s.pending, text);
      AnswersOfOne(g, Error(s, text).1[0]);
    }
  }

  function FailureOf(text: string): Output
    requires ReadTag(text).Some?
  {
    var tag := ReadTag(text).value;
    Failed(tag.zone, tag.generation, IsSaving(tag))
  }

  lemma {:induction false} ErrorsLeave(s: Requests, order: seq<string>)
    requires Sound(s)
    ensures forall t :: t in ErrorAll(s, order).0.pending <==> t in s.pending && t !in order
    decreases |order|
  {
    if order != [] {
      var rest, last := order[..|order| - 1], order[|order| - 1];
      ErrorsLeave(s, rest);
      ErrorsKeep(s, rest);
      assert order == rest + [last];
    }
  }

  /** One failure for each tag, with its zone and its generation. */
  lemma {:induction false} ErrorsFailEach(s: Requests, order: seq<string>)
    requires Sound(s) && Distinct(order) && forall t <- order :: t in s.pending
    ensures FailEach(order, ErrorAll(s, order).1)
    decreases |order|
  {
    if order != [] {
      var rest, last := order[..|order| - 1], order[|order| - 1];
      assert order == rest + [last];
      ErrorsFailEach(s, rest);
      LastErrorFails(s, order);
      OneMoreFails(rest, ErrorAll(s, rest).1, last);
    }
  }

  ghost predicate FailEach(order: seq<string>, outputs: seq<Output>) {
    |outputs| == |order|
    && forall i :: 0 <= i < |order| ==> ReadTag(order[i]).Some? && outputs[i] == FailureOf(order[i])
  }

  lemma OneMoreFails(order: seq<string>, outputs: seq<Output>, last: string)
    requires FailEach(order, outputs) && ReadTag(last).Some?
    ensures FailEach(order + [last], outputs + [FailureOf(last)])
  {
  }

  lemma LastErrorFails(s: Requests, order: seq<string>)
    requires Sound(s) && order != [] && Distinct(order) && forall t <- order :: t in s.pending
    ensures ErrorAll(s, order).1 == ErrorAll(s, order[..|order| - 1]).1 + [FailureOf(order[|order| - 1])]
  {
    var rest, last := order[..|order| - 1], order[|order| - 1];
    ErrorsLeave(s, rest);
    ErrorsKeep(s, rest);
    assert last in order && last !in rest;
    ErrorFails(ErrorAll(s, rest).0, last);
  }

  lemma ErrorFails(s: Requests, text: string)
    requires Sound(s) && text in s.pending
    ensures Error(s, text).1 == [FailureOf(text)]
  {
  }

  lemma FailureAnswers(g: Option<nat>, text: string)
    requires ReadTag(text).Some?
    ensures Answered(g, FailureOf(text)) <==> Selects(g, Generation(text))
  {
  }

  function Elements(order: seq<string>): set<string> {
    set text <- order
  }

  lemma OneMoreElement(g: Option<nat>, order: seq<string>, last: string)
    requires last !in order
    ensures |OpenTags(g, Elements(order + [last]))|
         == |OpenTags(g, Elements(order))| + One(Selects(g, Generation(last)))
  {
    assert Elements(order + [last]) == Elements(order) + {last};
    TagAdded(g, Elements(order), last);
  }

  lemma {:induction false} FailuresAnswer(g: Option<nat>, order: seq<string>, outputs: seq<Output>)
    requires Distinct(order) && FailEach(order, outputs)
    ensures Answers(g, outputs) == |OpenTags(g, Elements(order))|
    decreases |order|
  {
    if order == [] {
      assert OpenTags(g, Elements(order)) == {};
    } else {
      var n := |order| - 1;
      FailuresAnswer(g, order[..n], outputs[..n]);
      FailureAnswers(g, order[n]);
      assert Answers(g, outputs) == Answers(g, outputs[..n]) + One(Selects(g, Generation(order[n])));
      assert order == order[..n] + [order[n]] && order[n] !in order[..n];
      OneMoreElement(g, order[..n], order[n]);
    }
  }

  /** When the server changes, each open request fails exactly once, in the order of the table, under
      its own zone and generation, and nothing stays open. */
  lemma ReconnectFailsEach(s: Requests, e: Event)
    requires Sound(s) && e.Reconnect? && Possible(s, e)
    ensures Rebuild(s, e.order, e.ready).0 == Requests(e.ready, {}, map[])
    ensures |Rebuild(s, e.order, e.ready).1| == |e.order| == |s.pending|
    ensures forall i :: 0 <= i < |e.order| ==> Rebuild(s, e.order, e.ready).1[i] == FailureOf(e.order[i])
  {
    ErrorsFailEach(s, e.order);
    FailuresAnswer(None, e.order, Rebuild(s, e.order, e.ready).1);
    AllSelected(s.pending);
    assert Elements(e.order) == s.pending;
    AllAnswersCount(Rebuild(s, e.order, e.ready).1);
  }

  lemma AllSelected(pending: set<string>)
    ensures OpenTags(None, pending) == pending
  {
  }

  lemma {:induction false} AllAnswersCount(outputs: seq<Output>)
    requires forall o <- outputs :: o.Failed?
    ensures Answers(None, outputs) == |outputs|
  {
    if outputs != [] {
      assert outputs[|outputs| - 1] in outputs;
      AllAnswersCount(outputs[..|outputs| - 1]);
    }
  }

  lemma ReconnectAccounted(g: Option<nat>, s: Requests, e: Event)
    requires Sound(s) && e.Reconnect? && Possible(s, e)
    ensures Accounted(g, s, Rebuild(s, e.order, e.ready).0, Rebuild(s, e.order, e.ready).1, 0, 0)
  {
    ErrorsFailEach(s, e.order);
    FailuresAnswer(g, e.order, Rebuild(s, e.order, e.ready).1);
    assert Elements(e.order) == s.pending;
    assert OpenTags(g, {}) == {};
  }

  // ---------- counting a run ----------

  function Calls(g: Option<nat>, events: seq<Event>): nat {
    if events == [] then 0
    else
      var e := events[|events| - 1];
      Calls(g, events[..|events| - 1]) + One(IsCall(e) && Selects(g, e.generation))
  }

  function AllAnswers(g: Option<nat>, mapper: Mapper, ready: bool, events: seq<Event>): nat {
    if events == [] then 0
    else AllAnswers(g, mapper, ready, events[..|events| - 1])
         + Answers(g, Step(After(mapper, ready, events[..|events| - 1]), mapper, events[|events| - 1]).1)
  }

  /** The steps of a run that open a tag which is open already. */
  function Collisions(g: Option<nat>, mapper: Mapper, ready: bool, events: seq<Event>): nat {
    if events == [] then 0
    else Collisions(g, mapper, ready, events[..|events| - 1])
         + One(CollidesFor(g, After(mapper, ready, events[..|events| - 1]), mapper, events[|events| - 1]))
  }

  lemma StepAccounted(g: Option<nat>, s: Requests, mapper: Mapper, e: Event)
    requires Sound(s) && Possible(s, e)
    ensures Accounted(g, s, Step(s, mapper, e).0, Step(s, mapper, e).1,
                      One(CollidesFor(g, s, mapper, e)), One(IsCall(e) && Selects(g, e.generation)))
  {
    if IsCall(e) {
      CallAccounted(g, s, mapper, e);
    } else if e.Reply? {
      ReplyAccounted(g, s, mapper, e);
    } else if e.Fails? {
      ErrorAccounted(g, s, e.tag);
    } else {
      ReconnectAccounted(g, s, e);
    }
  }

  /** Over every run, for each generation and altogether: every call has been answered, is open,
      or shares the entry of another request. */
  lemma {:induction false} EveryCallIsAccounted(g: Option<nat>, mapper: Mapper, ready: bool, events: seq<Event>)
    requires Runs(mapper, ready, events)
    ensures Calls(g, events)
         == AllAnswers(g, mapper, ready, events) + |OpenTags(g, After(mapper, ready, events).pending)|
            + Collisions(g, mapper, ready, events)
  {
    if events == [] {
      assert OpenTags(g, {}) == {};
    } else {
      EveryCallIsAccounted(g, mapper, ready, events[..|events| - 1]);
      EveryRunIsSound(mapper, ready, events[..|events| - 1]);
      StepAccounted(g, After(mapper, ready, events[..|events| - 1]), mapper, events[|events| - 1]);
    }
  }

  predicate CollidesAt(g: Option<nat>, mapper: Mapper, ready: bool, events: seq<Event>, k: nat)
    requires k < |events|
  {
    CollidesFor(g, After(mapper, ready, events[..k]), mapper, events[k])
  }

  /** The calls of a generation are answered once each, or still open, exactly when no step opened a
      tag of that generation that was open already: no call whose own tag is open, and no reply to a
      save while a confirming read of that zone, generation and flag is open. */
  lemma CallsAreAnsweredOnce(g: Option<nat>, mapper: Mapper, ready: bool, events: seq<Event>)
    requires Runs(mapper, ready, events)
    ensures Calls(g, events) == AllAnswers(g, mapper, ready, events) + |OpenTags(g, After(mapper, ready, events).pending)|
       <==> forall k :: 0 <= k < |events| ==> !CollidesAt(g, mapper, ready, events, k)
  {
    EveryCallIsAccounted(g, mapper, ready, events);
    NoCollisions(g, mapper, ready, events);
  }

  lemma CollidesInPrefix(g: Option<nat>, mapper: Mapper, ready: bool, events: seq<Event>, n: nat, k: nat)
    requires k < n <= |events|
    ensures CollidesAt(g, mapper, ready, events[..n], k) <==> CollidesAt(g, mapper, ready, events, k)
  {
    assert events[..n][..k] == events[..k];
  }

  lemma {:induction false} NoCollisions(g: Option<nat>, mapper: Mapper, ready: bool, events: seq<Event>)
    ensures Collisions(g, mapper, ready, events) == 0 <==> NoneCollides(g, mapper, ready, events)
  {
    if events != [] {
      NoCollisions(g, mapper, ready, events[..|events| - 1]);
      NoneCollidesSplits(g, mapper, ready, events);
      OneMoreCollision(g, mapper, ready, events);
    }
  }

  ghost predicate NoneCollides(g: Option<nat>, mapper: Mapper, ready: bool, events: seq<Event>) {
    forall k :: 0 <= k < |events| ==> !CollidesAt(g, mapper, ready, events, k)
  }

  lemma NoneCollidesSplits(g: Option<nat>, mapper: Mapper, ready: bool, events: seq<Event>)
    requires events != []
    ensures NoneCollides(g, mapper, ready, events)
       <==> NoneCollides(g, mapper, ready, events[..|events| - 1])
            && !CollidesAt(g, mapper, ready, events, |events| - 1)
  {
    var n := |events| - 1;
    forall k | 0 <= k < n
      ensures CollidesAt(g, mapper, ready, events[..n], k) <==> CollidesAt(g, mapper, ready, events, k)
    {
      CollidesInPrefix(g, mapper, ready, events, n, k);
    }
  }

  lemma OneMoreCollision(g: Option<nat>, mapper: Mapper, ready: bool, events: seq<Event>)
    requires events != []
    ensures Collisions(g, mapper, ready, events)
         == Collisions(g, mapper, ready, events[..|events| - 1]) + One(CollidesAt(g, mapper, ready, events, |events| - 1))
  {
  }

  // ---------- fresh generations never collide ----------

  ghost predicate GenerationsDiffer(pending: set<string>) {
    forall a <- pending, b <- pending :: a != b ==> Generation(a) != Generation(b)
  }

  /** A new call carries a generation that no open request has. */
  ghost predicate IsFresh(s: Requests, e: Event) {
    IsCall(e) ==> forall text <- s.pending :: Generation(text) != e.generation
  }

  ghost predicate AllFresh(mapper: Mapper, ready: bool, events: seq<Event>) {
    events == []
    || (AllFresh(mapper, ready, events[..|events| - 1])
        && IsFresh(After(mapper, ready, events[..|events| - 1]), events[|events| - 1]))
  }

  lemma FreshCallOpensNew(s: Requests, mapper: Mapper, e: Event)
    requires GenerationsDiffer(s.pending) && IsCall(e) && Possible(s, e) && IsFresh(s, e)
    ensures !Collides(s, mapper, e) && GenerationsDiffer(Step(s, mapper, e).0.pending)
  {
    CallOpens(s, mapper, e);
    var added := OpenedTag(s, mapper, e);
    if added.Some? {
      NewGenerationDiffers(s.pending, added.value);
    }
  }

  lemma NewGenerationDiffers(pending: set<string>, added: string)
    requires GenerationsDiffer(pending) && forall text <- pending :: Generation(text) != Generation(added)
    ensures added !in pending && GenerationsDiffer(pending + {added})
  {
  }

  lemma AnswerOpens(s: Requests, tag: Tag, mapper: Mapper, v: Json.Value, expected: Option<Roi>)
    ensures
      var added := OpenedVerify(tag, mapper, v, expected);
      Answer(s, tag, mapper, v, expected).0.pending == if added.None? then s.pending else s.pending + {added.value}
  {
  }

  lemma ReplyOpens(s: Requests, mapper: Mapper, e: Event)
    requires Sound(s) && e.Reply? && e.tag in s.pending
    ensures
      var added := OpenedTag(s, mapper, e);
      if added.None? then Step(s, mapper, e).0.pending == s.pending - {e.tag}
      else Step(s, mapper, e).0.pending == s.pending - {e.tag} + {added.value}
           && added.value != e.tag && Generation(added.value) == Generation(e.tag)
  {
    var tag := ReadTag(e.tag).value;
    AnswerOpens(Removed(s, e.tag), tag, mapper, e.document, ExpectedFor(s, e.tag));
    if OpenedTag(s, mapper, e).Some? {
      VerifyIsOther(tag, e.tag, ParseSingle(e.document).value.appliedImmediately);
    }
  }

  lemma FreshReplyOpensNew(s: Requests, mapper: Mapper, e: Event)
    requires Sound(s) && GenerationsDiffer(s.pending) && e.Reply?
    ensures !Collides(s, mapper, e) && GenerationsDiffer(Step(s, mapper, e).0.pending)
  {
    if e.tag in s.pending {
      ReplyOpens(s, mapper, e);
      var added := OpenedTag(s, mapper, e);
      if added.Some? {
        SuccessorIsNew(s.pending, e.tag, added.value);
      }
    }
  }

  /** A tag that takes the place of another, under the same generation, is new to the table. */
  lemma SuccessorIsNew(pending: set<string>, text: string, added: string)
    requires GenerationsDiffer(pending) && text in pending
    requires added != text && Generation(added) == Generation(text)
    ensures added !in pending && GenerationsDiffer(pending - {text} + {added})
  {
  }

  /** A client that never reuses the generation of an open request loses nothing. */
  lemma {:induction false} FreshRunsNeverCollide(mapper: Mapper, ready: bool, events: seq<Event>)
    requires Runs(mapper, ready, events) && AllFresh(mapper, ready, events)
    ensures Collisions(None, mapper, ready, events) == 0
    ensures GenerationsDiffer(After(mapper, ready, events).pending)
  {
    if events != [] {
      var s := After(mapper, ready, events[..|events| - 1]);
      var e := events[|events| - 1];
      FreshRunsNeverCollide(mapper, ready, events[..|events| - 1]);
      EveryRunIsSound(mapper, ready, events[..|events| - 1]);
      if IsCall(e) {
        FreshCallOpensNew(s, mapper, e);
      } else if e.Reply? {
        FreshReplyOpensNew(s, mapper, e);
      }
    }
  }

  lemma SaveOpens(s: Requests, mapper: Mapper, save: Event)
    requires save.Save? && s.ready && save.roi.Valid()
    requires IsRoiZone(ZoneId(mapper, save.slot)) && ServerSlotId(mapper, ZoneId(mapper, save.slot)) != ""
    ensures
      var tag := TagText("put", save.generation, ZoneId(mapper, save.slot), false);
      OpenedTag(s, mapper, save) == Some(tag) && Step(s, mapper, save).0.pending == s.pending + {tag}
  {
  }

  lemma CollisionsOfTwo(g: Option<nat>, mapper: Mapper, ready: bool, a: Event, b: Event)
    ensures
      var start := Requests(ready, {}, map[]);
      Collisions(g, mapper, ready, [a, b])
        == One(CollidesFor(g, start, mapper, a)) + One(CollidesFor(g, Step(start, mapper, a).0, mapper, b))
  {
    assert [a, b][..1] == [a] && [a][..0] == [];
    assert Collisions(g, mapper, ready, [a])
        == Collisions(g, mapper, ready, []) + One(CollidesFor(g, After(mapper, ready, []), mapper, a));
    assert After(mapper, ready, [a]) == Step(After(mapper, ready, []), mapper, a).0;
  }

  /** Two saves of one zone under one generation collide, so one of them is never answered. */
  lemma ReusedGenerationLosesACall(mapper: Mapper, slot: string, roi: Roi, generation: nat)
    requires IsRoiZone(ZoneId(mapper, slot)) && roi.Valid() && ServerSlotId(mapper, ZoneId(mapper, slot)) != ""
    ensures Collisions(None, mapper, true, [Save(slot, roi, generation), Save(slot, roi, generation)]) == 1
  {
    var save := Save(slot, roi, generation);
    var start := Requests(true, {}, map[]);
    CollisionsOfTwo(None, mapper, true, save, save);
    SaveOpens(start, mapper, save);
    SaveOpens(Step(start, mapper, save).0, mapper, save);
  }

  // ---------- a save is confirmed ----------

  predicate AsksToSave(e: Event, mapper: Mapper, zone: string, generation: nat, roi: Roi) {
    e.Save? && ZoneId(mapper, e.slot) == zone && e.generation == generation && e.roi == roi && roi.Valid()
  }

  /** The server's reply to the save of this zone. */
  predicate TookSave(e: Event, mapper: Mapper, zone: string, generation: nat, applied: bool) {
    && e.Reply? && ReadTag(e.tag).Some? && ReadTag(e.tag).value.kind == "put"
    && ReadTag(e.tag).value.zone == zone && ReadTag(e.tag).value.generation == generation
    && ParseSingle(e.document).Some?
    && ZoneId(mapper, ParseSingle(e.document).value.slot) == zone
    && ParseSingle(e.document).value.appliedImmediately == applied
  }

  ghost predicate SaveAsked(events: seq<Event>, mapper: Mapper, tag: Tag, roi: Roi) {
    exists i :: 0 <= i < |events| && AsksToSave(events[i], mapper, tag.zone, tag.generation, roi)
  }

  ghost predicate SaveTaken(events: seq<Event>, mapper: Mapper, tag: Tag, roi: Roi) {
    exists i, j :: 0 <= i < j < |events| && AsksToSave(events[i], mapper, tag.zone, tag.generation, roi)
                   && TookSave(events[j], mapper, tag.zone, tag.generation, tag.flag == "1")
  }

  ghost predicate Explained(events: seq<Event>, mapper: Mapper, text: string, roi: Roi) {
    && ReadTag(text).Some?
    && (ReadTag(text).value.kind == "put" ==> SaveAsked(events, mapper, ReadTag(text).value, roi))
    && (ReadTag(text).value.kind == "verify" ==> SaveTaken(events, mapper, ReadTag(text).value, roi))
  }

  lemma StaysExplained(events: seq<Event>, e: Event, mapper: Mapper, text: string, roi: Roi)
    requires Explained(events, mapper, text, roi)
    ensures Explained(events + [e], mapper, text, roi)
  {
    var tag := ReadTag(text).value;
    var all := events + [e];
    if SaveAsked(events, mapper, tag, roi) {
      var i :| 0 <= i < |events| && AsksToSave(events[i], mapper, tag.zone, tag.generation, roi);
      assert all[i] == events[i];
    }
    if SaveTaken(events, mapper, tag, roi) {
      var i, j :| 0 <= i < j < |events| && AsksToSave(events[i], mapper, tag.zone, tag.generation, roi)
                  && TookSave(events[j], mapper, tag.zone, tag.generation, tag.flag == "1");
      assert all[i] == events[i] && all[j] == events[j];
    }
  }

  lemma NewSaveExplained(events: seq<Event>, e: Event, mapper: Mapper, text: string)
    requires e.Save? && e.roi.Valid() && e.generation <= MAX_GENERATION
    requires ReadTag(text) == Some(Tag("put", e.generation, ZoneId(mapper, e.slot), "0"))
    ensures Explained(events + [e], mapper, text, e.roi)
  {
    assert (events + [e])[|events|] == e;
  }

  lemma VerifyExplained(events: seq<Event>, e: Event, mapper: Mapper, verify: string, tag: Tag, roi: Roi, applied: bool)
    requires SaveAsked(events, mapper, tag, roi)
    requires TookSave(e, mapper, tag.zone, tag.generation, applied)
    requires ReadTag(verify) == Some(Tag("verify", tag.generation, tag.zone, if applied then "1" else "0"))
    ensures Explained(events + [e], mapper, verify, roi)
  {
    var all := events + [e];
    var i :| 0 <= i < |events| && AsksToSave(events[i], mapper, tag.zone, tag.generation, roi);
    assert all[i] == events[i] && all[|events|] == e;
  }

  ghost predicate AllExplained(events: seq<Event>, mapper: Mapper, s: Requests) {
    forall text <- s.expected :: Explained(events, mapper, text, s.expected[text])
  }

  lemma SaveKeepsExplained(events: seq<Event>, e: Event, mapper: Mapper, s: Requests)
    requires AllExplained(events, mapper, s) && e.Save? && Possible(s, e)
    ensures AllExplained(events + [e], mapper, Step(s, mapper, e).0)
  {
    var next := Step(s, mapper, e).0;
    var zone := ZoneId(mapper, e.slot);
    var tag := TagText("put", e.generation, zone, false);
    if next != s {
      MadeTagIsIssued("put", e.generation, zone, false);
      NewSaveExplained(events, e, mapper, tag);
    }
    forall text <- next.expected
      ensures Explained(events + [e], mapper, text, next.expected[text])
    {
      if !(next != s && text == tag) {
        StaysExplained(events, e, mapper, text, s.expected[text]);
      }
    }
  }

  lemma OldOnesStayExplained(events: seq<Event>, e: Event, mapper: Mapper, s: Requests)
    requires AllExplained(events, mapper, s)
    ensures AllExplained(events + [e], mapper, s)
  {
    forall text <- s.expected
      ensures Explained(events + [e], mapper, text, s.expected[text])
    {
      StaysExplained(events, e, mapper, text, s.expected[text]);
    }
  }

  lemma FewerStayExplained(events: seq<Event>, mapper: Mapper, s: Requests, fewer: Requests)
    requires AllExplained(events, mapper, s)
    requires forall text <- fewer.expected :: text in s.expected && fewer.expected[text] == s.expected[text]
    ensures AllExplained(events, mapper, fewer)
  {
  }

  /** A reply opens a confirming read only when it is the server's acceptance of the save. */
  lemma VerifyOpened(s: Requests, tag: Tag, mapper: Mapper, v: Json.Value, expected: Option<Roi>)
    ensures
      var next := Answer(s, tag, mapper, v, expected).0;
      next == s
      || (tag.kind == "put" && expected.Some? && ParseSingle(v).Some?
          && ZoneId(mapper, ParseSingle(v).value.slot) == tag.zone
          && OpensVerify(s, next, tag, ParseSingle(v).value.appliedImmediately, expected.value))
  {
  }

  lemma OpenedIsExplained(events: seq<Event>, e: Event, mapper: Mapper, rest: Requests, next: Requests,
                          tag: Tag, roi: Roi, applied: bool)
    requires AllExplained(events + [e], mapper, rest) && SaveAsked(events, mapper, tag, roi)
    requires TookSave(e, mapper, tag.zone, tag.generation, applied)
    requires tag.generation <= MAX_GENERATION && IsRoiZone(tag.zone) && OpensVerify(rest, next, tag, applied, roi)
    ensures AllExplained(events + [e], mapper, next)
  {
    MadeTagIsIssued("verify", tag.generation, tag.zone, applied);
    VerifyExplained(events, e, mapper, TagText("verify", tag.generation, tag.zone, applied), tag, roi, applied);
  }

  lemma ReplyKeepsExplained(events: seq<Event>, e: Event, mapper: Mapper, s: Requests)
    requires AllExplained(events, mapper, s) && Sound(s) && e.Reply?
    ensures AllExplained(events + [e], mapper, Step(s, mapper, e).0)
  {
    var next := Step(s, mapper, e).0;
    OldOnesStayExplained(events, e, mapper, s);
    if e.tag in s.pending {
      var rest := Removed(s, e.tag);
      var tag := ReadTag(e.tag).value;
      var expected := ExpectedFor(s, e.tag);
      FewerStayExplained(events + [e], mapper, s, rest);
      VerifyOpened(rest, tag, mapper, e.document, expected);
      if next != rest {
        assert Explained(events, mapper, e.tag, expected.value);
        OpenedIsExplained(events, e, mapper, rest, next, tag, expected.value,
                          ParseSingle(e.document).value.appliedImmediately);
      }
    }
  }

  lemma OthersKeepExplained(events: seq<Event>, e: Event, mapper: Mapper, s: Requests)
    requires AllExplained(events, mapper, s) && !e.Save? && !e.Reply?
    ensures AllExplained(events + [e], mapper, Step(s, mapper, e).0)
  {
    OldOnesStayExplained(events, e, mapper, s);
    FewerStayExplained(events + [e], mapper, s, Step(s, mapper, e).0);
  }

  lemma {:induction false} EveryExpectationIsExplained(mapper: Mapper, ready: bool, events: seq<Event>)
    requires Runs(mapper, ready, events)
    ensures AllExplained(events, mapper, After(mapper, ready, events))
  {
    if events != [] {
      var before := events[..|events| - 1];
      var s := After(mapper, ready, before);
      var e := events[|events| - 1];
      assert events == before + [e];
      EveryRunIsSound(mapper, ready, before);
      EveryExpectationIsExplained(mapper, ready, before);
      if e.Save? {
        SaveKeepsExplained(before, e, mapper, s);
      } else if e.Reply? {
        ReplyKeepsExplained(before, e, mapper, s);
      } else {
        OthersKeepExplained(before, e, mapper, s);
      }
    }
  }

  /** A region is announced as saved only when the server took a save of it and then, asked
      again, returned that zone with the same region up to the tolerance. */
  lemma SavedMeansTakenAndReturned(mapper: Mapper, ready: bool, events: seq<Event>, e: Event,
                                   zone: string, roi: Roi, generation: nat, applied: bool)
    requires Runs(mapper, ready, events)
    requires Received(zone, roi, generation, true, applied) in Step(After(mapper, ready, events), mapper, e).1
    ensures e.Reply? && ReadTag(e.tag).Some? && ReadTag(e.tag).value.kind == "verify"
    ensures ParseSingle(e.document).Some? && ParseSingle(e.document).value.roi == roi
    ensures ZoneId(mapper, ParseSingle(e.document).value.slot) == zone
    ensures exists asked: Roi, i: int, j: int ::
              && 0 <= i < j < |events| && AsksToSave(events[i], mapper, zone, generation, asked)
              && TookSave(events[j], mapper, zone, generation, applied)
              && roi.NearlyEquals(asked)
  {
    var s := After(mapper, ready, events);
    EveryRunIsSound(mapper, ready, events);
    EveryExpectationIsExplained(mapper, ready, events);
    SavedComesFromVerify(s, mapper, e, zone, roi, generation, applied);
    var tag := ReadTag(e.tag).value;
    var asked := ExpectedFor(s, e.tag).value;
    assert Explained(events, mapper, e.tag, asked);
    var i, j :| 0 <= i < j < |events| && AsksToSave(events[i], mapper, tag.zone, tag.generation, asked)
                && TookSave(events[j], mapper, tag.zone, tag.generation, tag.flag == "1");
    assert roi.NearlyEquals(asked);
  }

  lemma SavedComesFromVerify(s: Requests, mapper: Mapper, e: Event,
                             zone: string, roi: Roi, generation: nat, applied: bool)
    requires Sound(s) && Received(zone, roi, generation, true, applied) in Step(s, mapper, e).1
    ensures e.Reply? && e.tag in s.pending && ReadTag(e.tag).Some? && ReadTag(e.tag).value.kind == "verify"
    ensures ParseSingle(e.document).Some? && ParseSingle(e.document).value.roi == roi
    ensures ZoneId(mapper, ParseSingle(e.document).value.slot) == zone
    ensures
      var tag := ReadTag(e.tag).value;
      && tag.zone == zone && tag.generation == generation && applied == (tag.flag == "1")
      && ExpectedFor(s, e.tag).Some? && roi.NearlyEquals(ExpectedFor(s, e.tag).value)
  {
    if e.Reconnect? {
      ErrorsOnlyFail(s, e.order);
    }
  }

  lemma {:induction false} ErrorsOnlyFail(s: Requests, order: seq<string>)
    ensures forall o <- ErrorAll(s, order).1 :: o.Failed?
    decreases |order|
  {
    if order != [] {
      ErrorsOnlyFail(s, order[..|order| - 1]);
    }
  }
}

/** The worker thread and the user interface thread interleaved at the
    granularity of their critical sections, and what holds in every interleaving. */
module FrameThreads {
  import opened FrameMailbox

  /** Where the worker is between two critical sections. */
  datatype Worker =
    | Absent
    | Running(generation: nat, source: string)
    | AboutToPost(generation: nat, source: string)
    | Finished

  /** Where the user interface thread is. */
  datatype Gui =
    | Idle
    | Taken(frame: Frame)                   // the slot was emptied
    | Checked(frame: Frame, current: bool)  // the generation was compared
    | Handled                               // the flag is still set
    | Cleared                               // about to look at the slot again
    | AboutToPostAgain
    | AboutToStart                          // a start was asked for
    | Joining                               // new generation, waiting for the old worker
    | Stopping                              // stop() waits for the worker

  datatype State = State(
    item: Item,
    worker: Worker,
    gui: Gui,
    posted: seq<Message>,
    reconnectArmed: bool,
    reconnectSource: string,
    history: seq<Frame>,   // every enqueue so far
    lost: bool,            // the newest image of this generation was overwritten by a null one
    armedBy: nat)          // the generation whose failure armed the timer

  datatype Step =
    | WorkerEnqueues(decoded: bool, timestampMs: int, wallClockMs: int)
    | WorkerPosts
    | WorkerReports(report: Message)
    | WorkerExits
    | GuiTakes
    | GuiChecks
    | GuiHandles
    | GuiClears
    | GuiRechecks
    | GuiPosts
    | GuiHandlesReport
    | UserSetsSource(source: string)
    | UserStarts
    | UserStops
    | TimerFires
    | GuiBumps
    | GuiJoins

  const Start := State(InitialItem, Absent, Idle, [], false, "", [], false, 0)

  /** A worker's reports carry its own generation and source. */
  predicate OwnReport(m: Message, generation: nat, source: string) {
    match m
    case DeliverFrame => false
    case StatusChanged(g, _) => g == generation
    case ErrorChanged(g, _) => g == generation
    case StreamFailed(g, s, _) => g == generation && s == source
  }

  predicate Enabled(s: State, step: Step) {
    match step
    case WorkerEnqueues(_, _, _) => s.worker.Running?
    case WorkerPosts => s.worker.AboutToPost?
    case WorkerReports(m) => s.worker.Running? && OwnReport(m, s.worker.generation, s.worker.source)
    case WorkerExits => s.worker.Running?
    case GuiTakes => s.gui.Idle? && s.posted != [] && s.posted[0].DeliverFrame?
    case GuiChecks => s.gui.Taken?
    case GuiHandles => s.gui.Checked?
    case GuiClears => s.gui.Handled?
    case GuiRechecks => s.gui.Cleared?
    case GuiPosts => s.gui.AboutToPostAgain?
    case GuiHandlesReport => s.gui.Idle? && s.posted != [] && !s.posted[0].DeliverFrame?
    case UserSetsSource(source) => s.gui.Idle? && source != s.item.source
    case UserStarts => s.gui.Idle?
    case UserStops => s.gui.Idle?
    case TimerFires => s.gui.Idle? && s.reconnectArmed
    case GuiBumps => s.gui.AboutToStart?
    case GuiJoins => (s.gui.Joining? || s.gui.Stopping?) && (s.worker.Absent? || s.worker.Finished?)
  }

  predicate ByWorker(step: Step) {
    step.WorkerEnqueues? || step.WorkerPosts? || step.WorkerReports? || step.WorkerExits?
  }

  ghost function WorkerStep(s: State, step: Step): State
    requires Enabled(s, step)
    requires ByWorker(step)
  {
    match step
    case WorkerEnqueues(decoded, ts, wall) =>
      var image := if decoded then Decoded(|s.history|) else NullImage;
      var frame := Frame(image, ts, wall, s.worker.generation);
      var (item, schedule) := Enqueue(s.item, frame);
      s.(item := item, history := s.history + [frame],
         worker := if schedule then AboutToPost(s.worker.generation, s.worker.source) else s.worker,
         lost := LostAfter(s, frame))
    case WorkerPosts =>
      s.(posted := s.posted + [DeliverFrame], worker := Running(s.worker.generation, s.worker.source))
    case WorkerReports(m) => s.(posted := s.posted + [m])
    case WorkerExits => s.(worker := Finished)
  }

  /** An enqueue loses the newest image when it puts a null image over it. */
  ghost predicate LostAfter(s: State, frame: Frame) {
    if frame.generation != s.item.generation then s.lost
    else if frame.image != NullImage then false
    else if s.item.pending.image != NullImage && s.item.pending.generation == s.item.generation then true
    else s.lost
  }

  ghost function GuiStep(s: State, step: Step): State
    requires Enabled(s, step)
    requires !ByWorker(step)
  {
    match step
    case GuiTakes =>
      var (item, frame) := Take(s.item);
      s.(item := item, gui := Taken(frame), posted := s.posted[1..])
    case GuiChecks => s.(gui := Checked(s.gui.frame, s.gui.frame.generation == s.item.generation))
    case GuiHandles =>
      var frame := s.gui.frame;
      s.(item := if frame.image != NullImage && s.gui.current then Handle(s.item, frame) else s.item, gui := Handled)
    case GuiClears => s.(item := s.item.(deliveryQueued := false), gui := Cleared)
    case GuiRechecks =>
      var (item, again) := Recheck(s.item);
      s.(item := item, gui := if again then AboutToPostAgain else Idle)
    case GuiPosts => s.(posted := s.posted + [DeliverFrame], gui := Idle)
    case GuiHandlesReport =>
      var m := s.posted[0];
      var (item, arm) := Report(s.item, m);
      s.(item := item, posted := s.posted[1..],
         reconnectArmed := s.reconnectArmed || arm,
         reconnectSource := if arm then m.source else s.reconnectSource,
         armedBy := if arm then m.generation else s.armedBy)
    case UserSetsSource(source) => s.(item := ChangeSource(s.item, source), gui := AboutToStart)
    case UserStarts => s.(gui := AboutToStart)
    case UserStops => s.(gui := Stopping)
    case TimerFires =>
      s.(reconnectArmed := false, gui := if s.item.source == s.reconnectSource then AboutToStart else Idle)
    case GuiBumps => s.(item := Bump(s.item), reconnectArmed := false, lost := false, gui := Joining)
    case GuiJoins =>
      if s.gui.Stopping? then s.(worker := Absent, gui := Idle)
      else s.(item := Connecting(s.item), gui := Idle,
              worker := if s.item.source == "" then Absent else Running(s.item.generation, s.item.source))
  }

  ghost function Next(s: State, step: Step): State {
    if !Enabled(s, step) then s
    else if ByWorker(step) then WorkerStep(s, step)
    else GuiStep(s, step)
  }

  /** An interleaving is any sequence of steps; a step that is not enabled does nothing. */
  ghost function Exec(steps: seq<Step>): State {
    if steps == [] then Start else Next(Exec(steps[..|steps| - 1]), steps[|steps| - 1])
  }

  // ---------- delivery tokens ----------

  function Deliveries(posted: seq<Message>): nat {
    if posted == [] then 0
    else Deliveries(posted[..|posted| - 1]) + if posted[|posted| - 1].DeliverFrame? then 1 else 0
  }

  lemma {:induction false} DeliveriesOfTail(posted: seq<Message>)
    requires posted != []
    ensures Deliveries(posted) == Deliveries(posted[1..]) + if posted[0].DeliverFrame? then 1 else 0
  {
    if |posted| > 1 {
      var front := posted[..|posted| - 1];
      DeliveriesOfTail(front);
      assert front[1..] == posted[1..][..|posted| - 2];
    } else {
      assert posted[..0] == [] && posted[1..] == [];
    }
  }

  lemma DeliveriesOfAppend(posted: seq<Message>, m: Message)
    ensures Deliveries(posted + [m]) == Deliveries(posted) + if m.DeliverFrame? then 1 else 0
  {
    assert (posted + [m])[..|posted|] == posted;
  }

  /** Events posted, about to be posted, or being handled before the flag is cleared. */
  ghost function Tokens(s: State): nat {
    Deliveries(s.posted)
    + (if s.worker.AboutToPost? then 1 else 0)
    + (if s.gui.Taken? || s.gui.Checked? || s.gui.Handled? || s.gui.AboutToPostAgain? then 1 else 0)
  }

  /** The flag counts the tokens, and a waiting image is always under way. */
  ghost predicate NoLostWakeUp(s: State) {
    && Tokens(s) == (if s.item.deliveryQueued then 1 else 0)
    && (s.item.pending.image != NullImage ==> s.item.deliveryQueued || s.gui.Cleared?)
  }

  lemma WorkerKeepsWakeUp(s: State, step: Step)
    requires NoLostWakeUp(s) && Enabled(s, step) && ByWorker(step)
    ensures NoLostWakeUp(WorkerStep(s, step))
  {
    match step
    case WorkerPosts => DeliveriesOfAppend(s.posted, DeliverFrame);
    case WorkerReports(m) => DeliveriesOfAppend(s.posted, m);
    case _ =>
  }

  lemma GuiKeepsWakeUp(s: State, step: Step)
    requires NoLostWakeUp(s) && Enabled(s, step) && !ByWorker(step)
    ensures NoLostWakeUp(GuiStep(s, step))
  {
    match step
    case GuiPosts => DeliveriesOfAppend(s.posted, DeliverFrame);
    case GuiTakes => DeliveriesOfTail(s.posted);
    case GuiHandlesReport => DeliveriesOfTail(s.posted);
    case GuiChecks => HandlingKeepsWakeUp(s, step);
    case GuiHandles => HandlingKeepsWakeUp(s, step);
    case GuiClears => HandlingKeepsWakeUp(s, step);
    case GuiRechecks => HandlingKeepsWakeUp(s, step);
    case _ => ControlKeepsWakeUp(s, step);
  }

  lemma HandlingKeepsWakeUp(s: State, step: Step)
    requires NoLostWakeUp(s) && Enabled(s, step)
    requires step.GuiChecks? || step.GuiHandles? || step.GuiClears? || step.GuiRechecks?
    ensures NoLostWakeUp(GuiStep(s, step))
  {
  }

  lemma ControlKeepsWakeUp(s: State, step: Step)
    requires NoLostWakeUp(s) && Enabled(s, step)
    requires step.UserSetsSource? || step.UserStarts? || step.UserStops? || step.TimerFires? || step.GuiBumps? || step.GuiJoins?
    ensures NoLostWakeUp(GuiStep(s, step))
  {
  }

  lemma NextKeepsWakeUp(s: State, step: Step)
    requires NoLostWakeUp(s)
    ensures NoLostWakeUp(Next(s, step))
  {
    if Enabled(s, step) {
      if ByWorker(step) {
        WorkerKeepsWakeUp(s, step);
      } else {
        GuiKeepsWakeUp(s, step);
      }
    }
  }

  // ---------- generations ----------

  ghost predicate FromHistory(history: seq<Frame>, p: Picture, generation: nat) {
    exists f <- history :: f.image != NullImage && PictureOf(f) == p && f.generation == generation
  }

  ghost predicate Held(s: State) {
    s.gui.Taken? || s.gui.Checked?
  }

  /** Who may be running, and where every image comes from. */
  ghost predicate Generations(s: State) {
    && (s.worker.Running? || s.worker.AboutToPost? ==>
          && s.worker.generation <= s.item.generation
          && (s.gui.Joining? <==> s.worker.generation < s.item.generation))
    && (forall f <- s.history :: f.generation <= s.item.generation)
    && (s.gui.Joining? ==> forall f <- s.history :: f.generation < s.item.generation)
    && (s.item.shown.image != NullImage ==> FromHistory(s.history, s.item.shown, s.item.generation))
    && (s.item.pending.image != NullImage ==>
          FromHistory(s.history, PictureOf(s.item.pending), s.item.pending.generation))
    && (Held(s) && s.gui.frame.image != NullImage ==>
          FromHistory(s.history, PictureOf(s.gui.frame), s.gui.frame.generation))
    && (s.gui.Checked? ==> (s.gui.current <==> s.gui.frame.generation == s.item.generation))
    && (forall m <- s.posted :: !m.DeliverFrame? ==> m.generation <= s.item.generation)
    && (s.reconnectArmed && !s.gui.AboutToStart? ==>
          s.armedBy == s.item.generation && s.reconnectSource == s.item.source)
  }

  lemma FromHistoryGrows(history: seq<Frame>, f: Frame, p: Picture, generation: nat)
    requires FromHistory(history, p, generation)
    ensures FromHistory(history + [f], p, generation)
  {
    var g :| g in history && g.image != NullImage && PictureOf(g) == p && g.generation == generation;
    assert g in history + [f];
  }

  lemma EnqueueKeepsGenerations(s: State, step: Step)
    requires Generations(s) && step.WorkerEnqueues? && Enabled(s, step)
    ensures Generations(Next(s, step))
  {
    var next := Next(s, step);
    var f := next.item.pending;
    assert next.history == s.history + [f];
    assert f in next.history;
    if s.item.shown.image != NullImage {
      FromHistoryGrows(s.history, f, s.item.shown, s.item.generation);
    }
    if Held(s) && s.gui.frame.image != NullImage {
      FromHistoryGrows(s.history, f, PictureOf(s.gui.frame), s.gui.frame.generation);
    }
  }

  lemma ReportKeepsGenerations(s: State, step: Step)
    requires Generations(s) && (step.WorkerReports? || step.GuiHandlesReport?)
    ensures Generations(Next(s, step))
  {
    if Enabled(s, step) && step.GuiHandlesReport? {
      assert s.posted[0] in s.posted;
    }
  }

  lemma NextKeepsGenerations(s: State, step: Step)
    requires Generations(s)
    ensures Generations(Next(s, step))
  {
    match step
    case WorkerEnqueues(_, _, _) =>
      if Enabled(s, step) {
        EnqueueKeepsGenerations(s, step);
      }
    case WorkerReports(_) => ReportKeepsGenerations(s, step);
    case GuiHandlesReport => ReportKeepsGenerations(s, step);
    case WorkerPosts => WorkerMoveKeepsGenerations(s, step);
    case WorkerExits => WorkerMoveKeepsGenerations(s, step);
    case GuiTakes => DeliveryKeepsGenerations(s, step);
    case GuiChecks => DeliveryKeepsGenerations(s, step);
    case GuiHandles => DeliveryKeepsGenerations(s, step);
    case GuiClears => DeliveryKeepsGenerations(s, step);
    case GuiRechecks => DeliveryKeepsGenerations(s, step);
    case GuiPosts => DeliveryKeepsGenerations(s, step);
    case _ => ControlKeepsGenerations(s, step);
  }

  lemma WorkerMoveKeepsGenerations(s: State, step: Step)
    requires Generations(s) && (step.WorkerPosts? || step.WorkerExits?)
    ensures Generations(Next(s, step))
  {
  }

  lemma DeliveryKeepsGenerations(s: State, step: Step)
    requires Generations(s)
    requires step.GuiTakes? || step.GuiChecks? || step.GuiHandles? || step.GuiClears? || step.GuiRechecks? || step.GuiPosts?
    ensures Generations(Next(s, step))
  {
  }

  lemma ControlKeepsGenerations(s: State, step: Step)
    requires Generations(s)
    requires step.UserSetsSource? || step.UserStarts? || step.UserStops? || step.TimerFires? || step.GuiBumps? || step.GuiJoins?
    ensures Generations(Next(s, step))
  {
  }

  // ---------- the newest image ----------

  /** The newest non-null image of a generation, if it has one. */
  ghost function Newest(history: seq<Frame>, generation: nat): Frame
    ensures Newest(history, generation).image != NullImage ==> Newest(history, generation) in history
  {
    if history == [] then NoFrame
    else
      var last := history[|history| - 1];
      if last.image != NullImage && last.generation == generation then last
      else Newest(history[..|history| - 1], generation)
  }

  lemma NewestAfter(history: seq<Frame>, f: Frame, generation: nat)
    ensures Newest(history + [f], generation) ==
            if f.image != NullImage && f.generation == generation then f else Newest(history, generation)
  {
    assert (history + [f])[..|history|] == history;
  }

  /** A later generation has no image yet. */
  lemma {:induction false} NewestOfUnusedGeneration(history: seq<Frame>, generation: nat)
    requires forall f <- history :: f.generation < generation
    ensures Newest(history, generation) == NoFrame
  {
    if history != [] {
      assert history[|history| - 1] in history;
      NewestOfUnusedGeneration(history[..|history| - 1], generation);
    }
  }

  predicate IsCurrent(f: Frame, generation: nat) {
    f.image != NullImage && f.generation == generation
  }

  /** Serial numbers identify the enqueues. */
  ghost predicate Numbered(history: seq<Frame>) {
    forall i :: 0 <= i < |history| && history[i].image != NullImage ==> history[i].image == Decoded(i)
  }

  /** The newest image is in the slot, in the hands of the user interface
      thread, or on the screen - unless it was lost. */
  ghost predicate NewestIsUnderWay(s: State) {
    var newest := Newest(s.history, s.item.generation);
    var waiting := IsCurrent(s.item.pending, s.item.generation);
    var held := Held(s) && IsCurrent(s.gui.frame, s.item.generation);
    && (if s.lost then
          newest.image != NullImage && !waiting
          && s.item.shown.image != newest.image && (held ==> s.gui.frame.image != newest.image)
        else if waiting then s.item.pending == newest
        else if held then s.gui.frame == newest
        else s.item.shown == PictureOf(newest))
    && (waiting ==> s.item.pending.image != s.item.shown.image)
    && (waiting && held ==> s.item.pending.image != s.gui.frame.image)
  }

  lemma FreshSerial(history: seq<Frame>, p: Picture, generation: nat)
    requires Numbered(history) && FromHistory(history, p, generation)
    ensures p.image != Decoded(|history|)
  {
    var f :| f in history && f.image != NullImage && PictureOf(f) == p && f.generation == generation;
    var i :| 0 <= i < |history| && history[i] == f;
  }

  lemma EnqueueKeepsNewest(s: State, step: Step)
    requires Generations(s) && Numbered(s.history) && NewestIsUnderWay(s)
    requires step.WorkerEnqueues? && Enabled(s, step)
    ensures Numbered(Next(s, step).history) && NewestIsUnderWay(Next(s, step))
  {
    var f := Next(s, step).item.pending;
    NewestAfter(s.history, f, s.item.generation);
    if s.item.shown.image != NullImage {
      FreshSerial(s.history, s.item.shown, s.item.generation);
    }
    if Held(s) && s.gui.frame.image != NullImage {
      FreshSerial(s.history, PictureOf(s.gui.frame), s.gui.frame.generation);
    }
  }

  lemma BumpStartsAfresh(s: State)
    requires Generations(s) && Enabled(s, GuiBumps)
    ensures NewestIsUnderWay(Next(s, GuiBumps))
  {
    NewestOfUnusedGeneration(s.history, s.item.generation + 1);
  }

  lemma ReportKeepsFrames(item: Item, m: Message)
    ensures Report(item, m).0.shown == item.shown && Report(item, m).0.pending == item.pending
    ensures Report(item, m).0.generation == item.generation
  {
  }

  lemma GuiKeepsNewest(s: State, step: Step)
    requires Generations(s) && NewestIsUnderWay(s)
    requires Enabled(s, step) && !ByWorker(step) && !step.UserSetsSource? && !step.GuiBumps?
    ensures NewestIsUnderWay(GuiStep(s, step))
  {
    if step.GuiHandlesReport? {
      ReportKeepsFrames(s.item, s.posted[0]);
    }
  }

  // ---------- every interleaving ----------

  /** Until a new source is set the newest image is accounted for; a start then clears everything. */
  ghost predicate Invariant(s: State) {
    && NoLostWakeUp(s)
    && Generations(s)
    && Numbered(s.history)
    && (!s.gui.AboutToStart? ==> NewestIsUnderWay(s))
  }

  lemma NextKeepsNewest(s: State, step: Step)
    requires Invariant(s)
    ensures Numbered(Next(s, step).history)
    ensures !Next(s, step).gui.AboutToStart? ==> NewestIsUnderWay(Next(s, step))
  {
    if Enabled(s, step) {
      if step.WorkerEnqueues? {
        if s.gui.AboutToStart? {
          assert Next(s, step).gui == s.gui;
        } else {
          EnqueueKeepsNewest(s, step);
        }
      } else if step.GuiBumps? {
        BumpStartsAfresh(s);
      } else if !ByWorker(step) && !step.UserSetsSource? {
        GuiKeepsNewest(s, step);
      }
    }
  }

  lemma {:induction false} EveryInterleaving(steps: seq<Step>)
    ensures Invariant(Exec(steps))
  {
    if steps != [] {
      var before := Exec(steps[..|steps| - 1]);
      var step := steps[|steps| - 1];
      EveryInterleaving(steps[..|steps| - 1]);
      NextKeepsWakeUp(before, step);
      NextKeepsGenerations(before, step);
      NextKeepsNewest(before, step);
    }
  }

  // ---------- the theorems ----------

  /** No delivery is under way and the user interface thread is idle. */
  ghost predicate AtRest(s: State) {
    s.gui.Idle? && !s.worker.AboutToPost? && Deliveries(s.posted) == 0
  }

  ghost predicate ShowsNewest(s: State) {
    s.item.shown == PictureOf(Newest(s.history, s.item.generation))
  }

  /** At rest nothing waits in the slot, and the screen shows the newest image of
      the current generation exactly when no null image has overwritten it. */
  lemma AtRestShowsNewest(steps: seq<Step>)
    requires AtRest(Exec(steps))
    ensures !Exec(steps).item.deliveryQueued
    ensures Exec(steps).item.pending.image == NullImage
    ensures ShowsNewest(Exec(steps)) <==> !Exec(steps).lost
  {
    EveryInterleaving(steps);
  }

  /** A worker that only hands over real images loses none. */
  lemma {:induction false} RealImagesAreNotLost(steps: seq<Step>)
    requires forall step <- steps :: step.WorkerEnqueues? ==> step.decoded
    ensures !Exec(steps).lost
  {
    if steps != [] {
      RealImagesAreNotLost(steps[..|steps| - 1]);
      assert steps[|steps| - 1] in steps;
    }
  }

  lemma ExecAppend(steps: seq<Step>, step: Step)
    ensures Exec(steps + [step]) == Next(Exec(steps), step)
  {
    assert (steps + [step])[..|steps|] == steps;
  }

  ghost function Follow(s: State, plan: seq<Step>): State
    decreases |plan|
  {
    if plan == [] then s else Follow(Next(s, plan[0]), plan[1..])
  }

  lemma {:induction false} ExecThenFollow(steps: seq<Step>, plan: seq<Step>)
    ensures Exec(steps + plan) == Follow(Exec(steps), plan)
    decreases |plan|
  {
    if plan == [] {
      assert steps + plan == steps;
    } else {
      ExecAppend(steps, plan[0]);
      assert steps + plan == (steps + [plan[0]]) + plan[1..];
      ExecThenFollow(steps + [plan[0]], plan[1..]);
    }
  }

  const SETUP := [UserSetsSource("rtsp"), GuiBumps, GuiJoins]
  const HAND_OVER := [WorkerEnqueues(true, 40, 1040), WorkerPosts, WorkerEnqueues(false, 80, 1080)]
  const DELIVERY := [GuiTakes, GuiChecks, GuiHandles, GuiClears, GuiRechecks]

  ghost function Connected(): State {
    State(InitialItem.(source := "rtsp", status := "Connecting", generation := 1), Running(1, "rtsp"), Idle, [],
          false, "", [], false, 0)
  }

  lemma AfterSetup()
    ensures Follow(Start, SETUP) == Connected()
  {
    var s1 := Next(Start, SETUP[0]);
    var s2 := Next(s1, SETUP[1]);
    assert Follow(Start, SETUP) == Follow(s1, [GuiBumps, GuiJoins]) == Follow(s2, [GuiJoins]) == Next(s2, GuiJoins);
  }

  lemma AfterHandOver(s: State)
    requires s == Connected()
    ensures
      var t := Follow(s, HAND_OVER);
      && t.gui == Idle && t.posted == [DeliverFrame] && t.worker == Running(1, "rtsp")
      && t.lost && t.item.deliveryQueued && t.item.pending == Frame(NullImage, 80, 1080, 1)
  {
    var s1 := Next(s, HAND_OVER[0]);
    var s2 := Next(s1, HAND_OVER[1]);
    var rest := [WorkerPosts, WorkerEnqueues(false, 80, 1080)];
    assert HAND_OVER[1..] == rest && rest[1..] == [WorkerEnqueues(false, 80, 1080)];
    assert Follow(s, HAND_OVER) == Follow(s1, rest) == Follow(s2, rest[1..]) == Next(s2, HAND_OVER[2]);
    assert s1.item.pending.image == Decoded(0);
  }

  lemma AfterDelivery(s: State)
    requires s.gui == Idle && s.posted == [DeliverFrame] && s.worker.Running?
    requires s.lost && s.item.deliveryQueued && s.item.pending.image == NullImage
    ensures Follow(s, DELIVERY).gui == Idle && Follow(s, DELIVERY).posted == []
    ensures Follow(s, DELIVERY).worker == s.worker && Follow(s, DELIVERY).lost
  {
    var s1 := Next(s, GuiTakes);
    var s2 := Next(s1, GuiChecks);
    var s3 := Next(s2, GuiHandles);
    var s4 := Next(s3, GuiClears);
    assert DELIVERY[1..] == [GuiChecks, GuiHandles, GuiClears, GuiRechecks];
    assert Follow(s, DELIVERY) == Follow(s1, DELIVERY[1..]) == Follow(s2, [GuiHandles, GuiClears, GuiRechecks]);
    assert Follow(s2, [GuiHandles, GuiClears, GuiRechecks]) == Follow(s3, [GuiClears, GuiRechecks])
        == Follow(s4, [GuiRechecks]) == Next(s4, GuiRechecks);
  }

  /** A null image can indeed lose the newest one: the run ends at rest with an
      image enqueued by the current generation that is not on the screen. */
  lemma NullImageLosesNewest()
    ensures AtRest(Exec(SETUP + HAND_OVER + DELIVERY))
    ensures !ShowsNewest(Exec(SETUP + HAND_OVER + DELIVERY))
  {
    assert [] + SETUP == SETUP;
    ExecThenFollow([], SETUP);
    ExecThenFollow(SETUP, HAND_OVER);
    ExecThenFollow(SETUP + HAND_OVER, DELIVERY);
    AfterSetup();
    AfterHandOver(Connected());
    AfterDelivery(Exec(SETUP + HAND_OVER));
    AtRestShowsNewest(SETUP + HAND_OVER + DELIVERY);
  }

  /** In every reachable state the screen is empty or shows one enqueue of the
      current generation, image and clocks together. */
  lemma ScreenShowsCurrentGeneration(steps: seq<Step>)
    ensures Exec(steps).item.shown.image == NullImage
            || FromHistory(Exec(steps).history, Exec(steps).item.shown, Exec(steps).item.generation)
  {
    EveryInterleaving(steps);
  }

  lemma {:induction false} GenerationsNeverReturn(steps: seq<Step>, more: seq<Step>)
    ensures Exec(steps).item.generation <= Exec(steps + more).item.generation
  {
    if more == [] {
      assert steps + more == steps;
    } else {
      GenerationsNeverReturn(steps, more[..|more| - 1]);
      OneMoreStep(steps, more);
      StepNeverLowersGeneration(Exec(steps + more[..|more| - 1]), more[|more| - 1]);
    }
  }

  lemma OneMoreStep(steps: seq<Step>, more: seq<Step>)
    requires more != []
    ensures Exec(steps + more) == Next(Exec(steps + more[..|more| - 1]), more[|more| - 1])
  {
    assert (steps + more)[..|steps + more| - 1] == steps + more[..|more| - 1];
  }

  lemma StepNeverLowersGeneration(s: State, step: Step)
    ensures s.item.generation <= Next(s, step).item.generation
  {
  }

  /** Once a generation is superseded, none of its reports ever changes the item
      or arms the timer, however late it is handled. */
  lemma SupersededReportsAreDropped(steps: seq<Step>, more: seq<Step>, m: Message)
    requires !m.DeliverFrame? && m.generation < Exec(steps).item.generation
    ensures Report(Exec(steps + more).item, m) == (Exec(steps + more).item, false)
  {
    GenerationsNeverReturn(steps, more);
  }

  /** A reconnect is only ever started for the current generation and its source. */
  lemma ReconnectIsCurrent(steps: seq<Step>)
    requires Enabled(Exec(steps), TimerFires)
    ensures Exec(steps).armedBy == Exec(steps).item.generation
    ensures Exec(steps).reconnectSource == Exec(steps).item.source
  {
    EveryInterleaving(steps);
  }

  /** While the old worker is waited for, its images may enter the slot but never the screen. */
  lemma OldWorkerNeverShows(steps: seq<Step>)
    requires Exec(steps).gui.Joining?
    ensures Exec(steps).item.shown == NoPicture
  {
    EveryInterleaving(steps);
    JoiningShowsNothing(steps);
  }

  lemma {:induction false} JoiningShowsNothing(steps: seq<Step>)
    ensures Exec(steps).gui.Joining? ==> Exec(steps).item.shown == NoPicture
  {
    if steps != [] {
      JoiningShowsNothing(steps[..|steps| - 1]);
    }
  }
}

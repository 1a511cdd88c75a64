/** Status, failures and reconnection of the stream over every interleaving: what a
    report does when it is handled, and when the reconnect timer is running. */
module FrameReports {
  import opened FrameMailbox
  import opened FrameThreads

  // ---------- one report ----------

  /** A failure report takes effect exactly for the current generation and source: then the failure is
      shown and the reconnect timer runs for that source; otherwise nothing changes. */
  lemma FailureReport(steps: seq<Step>, generation: nat, source: string, text: string)
    requires Enabled(Exec(steps), GuiHandlesReport) && Exec(steps).posted[0] == StreamFailed(generation, source, text)
    ensures
      var s, next := Exec(steps), Exec(steps + [GuiHandlesReport]);
      if generation == s.item.generation && source == s.item.source then
        next.item == s.item.(status := "Reconnecting", error := text)
        && next.reconnectArmed && next.reconnectSource == source
      else
        next.item == s.item && next.reconnectArmed == s.reconnectArmed && next.reconnectSource == s.reconnectSource
  {
    ExecAppend(steps, GuiHandlesReport);
  }

  /** A status report takes effect exactly for the current generation; playing clears the error. */
  lemma StatusReport(steps: seq<Step>, generation: nat, text: string)
    requires Enabled(Exec(steps), GuiHandlesReport) && Exec(steps).posted[0] == StatusChanged(generation, text)
    ensures
      var s, next := Exec(steps), Exec(steps + [GuiHandlesReport]);
      next.item == if generation != s.item.generation then s.item
                   else if text == "Playing" then s.item.(status := text, error := "")
                   else s.item.(status := text)
  {
    ExecAppend(steps, GuiHandlesReport);
  }

  /** So does an error report. */
  lemma ErrorReport(steps: seq<Step>, generation: nat, text: string)
    requires Enabled(Exec(steps), GuiHandlesReport) && Exec(steps).posted[0] == ErrorChanged(generation, text)
    ensures
      var s, next := Exec(steps), Exec(steps + [GuiHandlesReport]);
      next.item == if generation != s.item.generation then s.item else s.item.(error := text)
  {
    ExecAppend(steps, GuiHandlesReport);
  }

  // ---------- when the timer is running ----------

  /** The step at k handles a failure of what was then the current generation and source. */
  ghost predicate FailsAt(steps: seq<Step>, k: nat)
    requires k < |steps|
  {
    var s := Exec(steps[..k]);
    && steps[k] == GuiHandlesReport && s.gui == Idle && s.posted != []
    && s.posted[0].StreamFailed? && s.posted[0].generation == s.item.generation && s.posted[0].source == s.item.source
  }

  /** The step at k starts a worker, or is the timer itself. */
  ghost predicate RestartsAt(steps: seq<Step>, k: nat)
    requires k < |steps|
  {
    (steps[k] == GuiBumps || steps[k] == TimerFires) && Enabled(Exec(steps[..k]), steps[k])
  }

  ghost predicate FailedSince(steps: seq<Step>, k: nat)
    requires k < |steps|
  {
    FailsAt(steps, k) && forall j :: k < j < |steps| ==> !RestartsAt(steps, j)
  }

  ghost predicate Failed(steps: seq<Step>) {
    exists k :: 0 <= k < |steps| && FailedSince(steps, k)
  }

  lemma AtInPrefix(steps: seq<Step>, n: nat, k: nat)
    requires k < n <= |steps|
    ensures FailsAt(steps[..n], k) <==> FailsAt(steps, k)
    ensures RestartsAt(steps[..n], k) <==> RestartsAt(steps, k)
  {
    assert steps[..n][..k] == steps[..k];
  }

  lemma FailedByLast(steps: seq<Step>)
    requires steps != []
    ensures
      var n := |steps| - 1;
      Failed(steps) <==> FailsAt(steps, n) || (Failed(steps[..n]) && !RestartsAt(steps, n))
  {
    var n := |steps| - 1;
    if FailsAt(steps, n) {
      assert FailedSince(steps, n);
    }
    if Failed(steps[..n]) && !RestartsAt(steps, n) {
      var k :| 0 <= k < n && FailedSince(steps[..n], k);
      SinceGrows(steps, k);
    }
    if Failed(steps) && !FailsAt(steps, n) {
      var k :| 0 <= k < |steps| && FailedSince(steps, k);
      SinceGrows(steps, k);
    }
  }

  lemma SinceGrows(steps: seq<Step>, k: nat)
    requires steps != [] && k < |steps| - 1
    ensures FailedSince(steps, k) <==> FailedSince(steps[..|steps| - 1], k) && !RestartsAt(steps, |steps| - 1)
  {
    var n := |steps| - 1;
    AtInPrefix(steps, n, k);
    forall j | k < j < n
      ensures RestartsAt(steps[..n], j) <==> RestartsAt(steps, j)
    {
      AtInPrefix(steps, n, j);
    }
  }

  lemma TimerStep(s: State, step: Step)
    ensures
      var fails := && step == GuiHandlesReport && s.gui == Idle && s.posted != []
                   && s.posted[0].StreamFailed? && s.posted[0].generation == s.item.generation
                   && s.posted[0].source == s.item.source;
      var restarts := (step == GuiBumps || step == TimerFires) && Enabled(s, step);
      Next(s, step).reconnectArmed <==> fails || (s.reconnectArmed && !restarts)
  {
  }

  /** In every interleaving the reconnect timer is running exactly when a failure of the then current
      generation and source has been handled and nothing has been started since. */
  lemma {:induction false} TimerRunsExactly(steps: seq<Step>)
    ensures Exec(steps).reconnectArmed <==> Failed(steps)
  {
    if steps != [] {
      var n := |steps| - 1;
      TimerRunsExactly(steps[..n]);
      FailedByLast(steps);
      TimerStep(Exec(steps[..n]), steps[n]);
    }
  }

  lemma TwoMore(steps: seq<Step>, a: Step, b: Step)
    ensures Exec(steps + [a, b]) == Next(Next(Exec(steps), a), b)
  {
    ExecAppend(steps, a);
    ExecAppend(steps + [a], b);
    assert steps + [a] + [b] == steps + [a, b];
  }

  lemma ThreeMore(steps: seq<Step>, a: Step, b: Step, c: Step)
    ensures Exec(steps + [a, b, c]) == Next(Next(Next(Exec(steps), a), b), c)
  {
    TwoMore(steps, a, b);
    ExecAppend(steps + [a, b], c);
    assert steps + [a, b] + [c] == steps + [a, b, c];
  }

  lemma RestartsFrom(s: State)
    requires Enabled(s, TimerFires) && s.item.source != "" && s.reconnectSource == s.item.source
    requires s.worker.Absent? || s.worker.Finished?
    ensures
      var next := Next(Next(Next(s, TimerFires), GuiBumps), GuiJoins);
      && next.worker == Running(s.item.generation + 1, s.item.source)
      && next.item.status == "Connecting" && next.item.error == "" && next.item.shown.image == NullImage
      && !next.reconnectArmed && next.item.generation == s.item.generation + 1
  {
  }

  /** When the timer fires, and the old worker is gone, a new one runs for the same source under a new
      generation. */
  lemma TimerRestartsStream(steps: seq<Step>)
    requires Enabled(Exec(steps), TimerFires) && Exec(steps).item.source != ""
    requires Exec(steps).worker.Absent? || Exec(steps).worker.Finished?
    ensures
      var s, next := Exec(steps), Exec(steps + [TimerFires, GuiBumps, GuiJoins]);
      && next.worker == Running(s.item.generation + 1, s.item.source)
      && next.item.status == "Connecting" && next.item.error == "" && next.item.shown.image == NullImage
      && !next.reconnectArmed && next.item.generation == s.item.generation + 1
  {
    ReconnectIsCurrent(steps);
    ThreeMore(steps, TimerFires, GuiBumps, GuiJoins);
    RestartsFrom(Exec(steps));
  }

  // ---------- what is shown ----------

  /** A shown picture is one decoded frame of the current generation, with that frame's own two clocks. */
  lemma ShownIsOneFrame(steps: seq<Step>)
    requires Exec(steps).item.shown.image != NullImage
    ensures exists f <- Exec(steps).history ::
              && f.image == Exec(steps).item.shown.image && f.generation == Exec(steps).item.generation
              && f.timestampMs == Exec(steps).item.shown.timestampMs
              && f.wallClockMs == Exec(steps).item.shown.wallClockMs
  {
    ScreenShowsCurrentGeneration(steps);
    var s := Exec(steps);
    var f :| f in s.history && f.image != NullImage && PictureOf(f) == s.item.shown && f.generation == s.item.generation;
    assert f.image == s.item.shown.image;
  }

  /** Handling a frame shows it, with status and error of a playing stream, exactly when it is a real image
      of the current generation. */
  lemma FrameIsShown(steps: seq<Step>, frame: Frame, current: bool)
    requires Exec(steps).gui == Checked(frame, current)
    ensures
      var s, next := Exec(steps), Exec(steps + [GuiHandles]);
      if frame.image != NullImage && frame.generation == s.item.generation then
        next.item.shown == Picture(frame.image, frame.timestampMs, frame.wallClockMs)
        && next.item.status == "Playing" && next.item.error == ""
      else next.item == s.item
  {
    EveryInterleaving(steps);
    ExecAppend(steps, GuiHandles);
  }

  /** Another source empties screen and slot at once, clears the error and starts a worker for itself. */
  lemma NewSourceStarts(steps: seq<Step>, source: string)
    requires Exec(steps).gui == Idle && source != Exec(steps).item.source
    ensures
      var s, next := Exec(steps), Exec(steps + [UserSetsSource(source)]);
      && next.item.source == source && next.item.error == "" && next.gui == AboutToStart
      && next.item.shown.image == NullImage && next.item.pending.image == NullImage
  {
    ExecAppend(steps, UserSetsSource(source));
  }

  // ---------- stopping ----------

  /** Nothing that could start a worker is left. */
  ghost predicate IsQuiet(s: State) {
    && s.worker.Absent? && !s.reconnectArmed && !s.gui.AboutToStart? && !s.gui.Joining?
    && forall m <- s.posted :: m.StreamFailed? ==> m.generation != s.item.generation || m.source != s.item.source
  }

  predicate IsByUser(step: Step) {
    step.UserStarts? || step.UserSetsSource?
  }

  lemma QuietStep(s: State, step: Step)
    requires IsQuiet(s) && !IsByUser(step)
    ensures IsQuiet(Next(s, step))
  {
    if Enabled(s, step) && step == GuiHandlesReport {
      assert s.posted[0] in s.posted;
    }
  }

  /** A stopped stream stays stopped, until the user starts it or sets another source, if the timer is not
      running and no failure of the current generation and source waits to be handled. */
  lemma {:induction false} QuietStaysStopped(steps: seq<Step>, more: seq<Step>)
    requires IsQuiet(Exec(steps)) && forall step <- more :: !IsByUser(step)
    ensures IsQuiet(Exec(steps + more))
  {
    if more == [] {
      assert steps + more == steps;
    } else {
      var front := more[..|more| - 1];
      QuietStaysStopped(steps, front);
      OneMoreStep(steps, more);
      assert more[|more| - 1] in more;
      QuietStep(Exec(steps + front), more[|more| - 1]);
    }
  }

  lemma StopsFrom(s: State)
    requires s.gui == Idle && (s.worker.Absent? || s.worker.Finished?)
    ensures
      var next := Next(Next(s, UserStops), GuiJoins);
      && next.worker == Absent && next.gui == Idle && next.reconnectArmed == s.reconnectArmed
      && next.item.source == s.item.source && next.item.generation == s.item.generation
  {
  }

  /** If the timer is running, stopping does not stop the stream: it comes back by itself. */
  lemma StopDoesNotDisarm(steps: seq<Step>)
    requires Exec(steps).gui == Idle && Exec(steps).reconnectArmed && Exec(steps).item.source != ""
    requires Exec(steps).worker.Absent? || Exec(steps).worker.Finished?
    ensures
      var stopped := Exec(steps + [UserStops, GuiJoins]);
      && stopped.worker == Absent && stopped.gui == Idle
      && Exec(steps + [UserStops, GuiJoins] + [TimerFires, GuiBumps, GuiJoins]).worker
         == Running(Exec(steps).item.generation + 1, Exec(steps).item.source)
  {
    TwoMore(steps, UserStops, GuiJoins);
    StopsFrom(Exec(steps));
    TimerRestartsStream(steps + [UserStops, GuiJoins]);
  }
}

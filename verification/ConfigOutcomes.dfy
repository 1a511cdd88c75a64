/** What the signals of a configuration change mean, over every run of the
    client and the camera, and how long a change can take. */
module ConfigOutcomes {
  import opened Text
  import opened AreaConfiguration
  import opened AreaPayload
  import opened AreaRoundTrip
  import opened ConfigClient
  import opened ConfigTransaction
  import Json

  /** A state some run reaches, from a new client and any camera. */
  ghost predicate Reachable(s: System) {
    exists connectionValid: bool, stored: Option<Json.Value>, events: seq<Event> ::
      Runs(Fresh(connectionValid, stored), events) && s == After(Fresh(connectionValid, stored), events)
  }

  lemma ReachableIsSound(s: System)
    requires Reachable(s)
    ensures Sound(s)
  {
    var connectionValid, stored, events :|
      Runs(Fresh(connectionValid, stored), events) && s == After(Fresh(connectionValid, stored), events);
    FreshIsSound(connectionValid, stored);
    EveryRunIsSound(Fresh(connectionValid, stored), events);
  }

  /** An answer to anything but a read of the transaction ends no change and sends no write. */
  lemma OtherAnswers(s: System, e: Event)
    requires Sound(s) && e.RequestSucceeds? && Possible(s, e) && !IsRead(s.client.kind)
    ensures |Step(s, e).1| <= 2
    ensures forall o <- Step(s, e).1 ::
              !o.ApplySucceeded? && !o.ApplyFailed? && !o.Put? && !o.Delete?
  {
  }

  // ---------- what the signals mean ----------

  /** Success is announced only while the camera holds what the call asked for. */
  lemma SuccessMeansIntended(s: System, e: Event, channel: int, configuration: Configuration)
    requires Reachable(s) && Possible(s, e) && ApplySucceeded(channel, configuration) in Step(s, e).1
    ensures s.journal.job.Some? && Next(s, e).stored == s.stored
    ensures ReadConfiguration(s.stored) == Some(configuration)
    ensures
      var goal := s.journal.job.value.goal;
      && channel == goal.channel
      && ChannelMatches(IntendedPayload(goal), configuration)
      && ChannelIs(channel, goal.enabled, goal.areas, configuration)
  {
    ReachableIsSound(s);
    SuccessComesFromVerify(s, e, channel, configuration);
    ReadStep(s, e);
    var goal := s.journal.job.value.goal;
    MatchMeansSameChannel(goal.channel, goal.enabled, goal.areas, configuration);
  }

  lemma SuccessComesFromVerify(s: System, e: Event, channel: int, configuration: Configuration)
    requires Sound(s) && Possible(s, e) && ApplySucceeded(channel, configuration) in Step(s, e).1
    ensures e.RequestSucceeds? && s.client.kind == VerifyUpdate
  {
    if e.RequestSucceeds? {
      if IsRead(s.client.kind) {
        ReadStep(s, e);
      } else {
        OtherAnswers(s, e);
      }
    }
  }

  /** A failure that claims the rollback succeeded is announced only while the camera
      holds what the client had last read before the change. */
  lemma RollbackMeansRestored(s: System, e: Event, channel: int)
    requires Reachable(s) && Possible(s, e) && ApplyFailed(channel, true) in Step(s, e).1
    ensures s.journal.job.Some? && Next(s, e).stored == s.stored
    ensures ReadConfiguration(s.stored).Some?
    ensures
      var goal := s.journal.job.value.goal;
      && channel == goal.channel
      && ChannelMatches(RollbackPayload(goal), ReadConfiguration(s.stored).value)
      && ChannelIs(channel, goal.goodEnabled, goal.goodAreas, ReadConfiguration(s.stored).value)
  {
    ReachableIsSound(s);
    RollbackComesFromVerify(s, e, channel);
    ReadStep(s, e);
    var goal := s.journal.job.value.goal;
    MatchMeansSameChannel(goal.channel, goal.goodEnabled, goal.goodAreas, ReadConfiguration(s.stored).value);
  }

  lemma RollbackComesFromVerify(s: System, e: Event, channel: int)
    requires Sound(s) && Possible(s, e) && ApplyFailed(channel, true) in Step(s, e).1
    ensures e.RequestSucceeds? && s.client.kind == VerifyRollback
  {
    if e.RequestSucceeds? {
      if IsRead(s.client.kind) {
        ReadStep(s, e);
      } else {
        OtherAnswers(s, e);
      }
    }
  }

  /** A change that fails at the preflight read has written nothing: the camera is as it was at the call. */
  lemma PreflightFailureWroteNothing(s: System, e: Event, channel: int, rollbackSucceeded: bool)
    requires Reachable(s) && Possible(s, e) && s.client.kind == PreflightConfiguration
    requires ApplyFailed(channel, rollbackSucceeded) in Step(s, e).1
    ensures s.journal.job.Some? && !rollbackSucceeded
    ensures s.journal.job.value.writes == 0 && Next(s, e).stored == s.journal.job.value.atStart
  {
    ReachableIsSound(s);
    if e.RequestSucceeds? {
      ReadStep(s, e);
    }
  }

  /** Every write is one of the two the call fixed, and the first one is sent only in answer
      to a preflight read that shows the baseline. */
  lemma WritesAreGuarded(s: System, e: Event, o: Output)
    requires Reachable(s) && Possible(s, e) && o in Step(s, e).1 && (o.Put? || o.Delete?)
    ensures s.journal.job.Some?
    ensures
      var job := s.journal.job.value;
      && (if job.writes == 0 then ReadsBaseline(s, e) && job.goal.baselineRaw != map[] else job.sawBaseline)
      && (if job.writes > 0 then o == Put(PutRollback, RollbackPayload(job.goal))
          else if job.deletedAreaIndex == -1 then o == Put(PutUpdate, IntendedPayload(job.goal))
          else o == Delete(job.goal.channel, job.deletedAreaIndex))
  {
    ReachableIsSound(s);
    WritesComeFromReads(s, e, o);
    ReadStep(s, e);
  }

  lemma WritesComeFromReads(s: System, e: Event, o: Output)
    requires Sound(s) && Possible(s, e) && o in Step(s, e).1 && (o.Put? || o.Delete?)
    ensures e.RequestSucceeds? && (s.client.kind == PreflightConfiguration || s.client.kind == VerifyUpdate)
  {
    if e.RequestSucceeds? {
      if IsRead(s.client.kind) {
        ReadStep(s, e);
      } else {
        OtherAnswers(s, e);
      }
    }
  }

  /** Rebuilding the payload of what was read and comparing it with the configuration it came
      from always succeeds. */
  lemma ParsedRollbackMatches(c: Client, e: Event, goal: Goal, document: Json.Value)
    requires GoalOf(c, e) == Some(goal) && c.configuration == ParseDocument(document)
    ensures ChannelMatches(RollbackPayload(goal), c.configuration.value)
  {
    var configuration := c.configuration.value;
    var areas := OnChannel(configuration.areas, goal.channel);
    StartedGoal(c, e, goal);
    ParsedIsWellFormed(document);
    FoundIsListed(configuration.channels, goal.channel);
    forall i | 0 <= i < |areas|
      ensures SameArea(areas[i], areas[i])
    {
      assert areas[i] in configuration.areas;
      Polygon.MatchesIsReflexive(areas[i].coordinates);
    }
    SameAsItself(areas);
    MatchMeansSameChannel(goal.channel, goal.goodEnabled, goal.goodAreas, configuration);
  }

  lemma SameAsItself(areas: seq<Area>)
    requires DistinctIndexes(areas)
    requires forall i :: 0 <= i < |areas| ==> areas[i].areaIndex >= 0 && SameArea(areas[i], areas[i])
    ensures SameAreas(areas, areas)
  {
  }

  predicate WellFormed(configuration: Configuration) {
    && (forall ch <- configuration.channels :: ch.enabled == RawEnabled(ch.rawContainer))
    && (forall a <- configuration.areas :: |a.coordinates| >= 3)
  }

  lemma {:induction false} FoundIsListed(channels: seq<Channel>, channel: int)
    ensures FindChannel(channels, channel).Some? ==> FindChannel(channels, channel).value in channels
  {
    if channels != [] && channels[0].channel != channel {
      FoundIsListed(channels[1..], channel);
    }
  }

  lemma ParsedIsWellFormed(document: Json.Value)
    requires ParseDocument(document).Some?
    ensures WellFormed(ParseDocument(document).value)
  {
    ContainersAreWellFormed(document.fields["ivaArea"].items);
  }

  lemma {:induction false} ContainersAreWellFormed(items: seq<Json.Value>)
    requires ParseContainers(items).Some?
    ensures WellFormed(ParseContainers(items).value)
  {
    if items != [] {
      var n := |items| - 1;
      ContainersAreWellFormed(items[..n]);
      var definitions := items[n].fields["definedArea"].items;
      var channel := ContainerChannel(items[n]);
      forall k | 0 <= k < |definitions|
        ensures |ParseDefinitions(definitions, channel).value[k].coordinates| >= 3
      {
        DefinitionsInOrder(definitions, channel, k);
      }
    }
  }

  // ---------- an honest camera ----------

  /** When the camera holds what was written, in whatever order and drawing, the next verification succeeds. */
  lemma HonestCameraSucceeds(s: System, e: Event, options: ChannelOptions, resolution: Resolution, at: nat, order: seq<nat>)
    requires Reachable(s) && Possible(s, e) && e.RequestSucceeds? && s.client.kind == VerifyUpdate
    requires ChannelFacts(s.client, s.client.update.channel) == Some((options, resolution)) && UsableOptions(options)
    requires s.journal.job.Some? && s.stored.Some?
    requires
      var goal := s.journal.job.value.goal;
      StoresChannel(s.stored.value, goal.channel, goal.enabled, goal.areas, at, order)
    ensures exists configuration :: ApplySucceeded(s.client.update.channel, configuration) in Step(s, e).1
  {
    ReachableIsSound(s);
    var goal := s.journal.job.value.goal;
    WrittenChannelIsVerified(s.stored.value, goal.channel, goal.enabled, goal.areas, options, resolution, at, order);
    ReadStep(s, e);
    assert ApplySucceeded(s.client.update.channel, ReadConfiguration(s.stored).value) in Step(s, e).1;
  }

  // ---------- how long a change takes ----------

  /** One preflight, one write, three reads, one rollback, three reads. */
  lemma AtMostNineRequests(s: System)
    requires Reachable(s) && s.journal.job.Some?
    ensures s.journal.job.value.requests <= 9 && s.journal.job.value.writes <= 2
  {
    ReachableIsSound(s);
  }

  predicate Progresses(e: Event) {
    e.Timer? || e.RequestFails? || e.RequestSucceeds?
  }

  /** Answers and pauses still to come, at most. */
  function Rank(c: Client): nat {
    var attempt := if c.update.attempt <= MAX_ATTEMPTS then c.update.attempt else MAX_ATTEMPTS;
    var waiting := if c.timerActive then 1 else 0;
    match c.kind
    case PreflightConfiguration => 15
    case PutUpdate => 14
    case DeleteUpdate => 14
    case VerifyUpdate => 14 - 2 * attempt + waiting
    case PutRollback => 7
    case VerifyRollback => 7 - 2 * attempt + waiting
    case _ => 0
  }

  /** A job under way is waiting for an answer or a pause, so something can always happen. */
  lemma NeverStuck(s: System)
    requires Reachable(s) && s.journal.job.Some?
    ensures Possible(s, Timer) || Possible(s, RequestFails)
  {
    ReachableIsSound(s);
  }

  lemma FailureAdvances(s: System)
    requires Sound(s) && s.journal.job.Some? && Possible(s, RequestFails)
    ensures Next(s, RequestFails).journal.job.None? || Rank(Next(s, RequestFails).client) < Rank(s.client)
  {
    var (client, outputs) := Step(s, RequestFails);
    if outputs != [] {
      assert outputs == [outputs[0]];
      NotedOne(s.journal, outputs[0]);
    }
  }

  lemma TimerAdvances(s: System)
    requires Sound(s) && s.journal.job.Some? && Possible(s, Timer)
    ensures Rank(Next(s, Timer).client) < Rank(s.client)
  {
  }

  lemma ReadLowersRank(s: System, e: Event)
    requires Sound(s) && s.journal.job.Some? && e.RequestSucceeds? && Possible(s, e) && IsRead(s.client.kind)
    ensures Step(s, e).0.update == NoUpdate || Rank(Step(s, e).0) < Rank(s.client)
  {
    ReadStep(s, e);
    AfterReadLowersRank(s.client, ReadConfiguration(s.stored));
  }

  lemma AfterReadLowersRank(c: Client, configuration: Option<Configuration>)
    requires c.replyPending && !c.timerActive && IsRead(c.kind)
    requires c.kind == PreflightConfiguration || 1 <= c.update.attempt <= MAX_ATTEMPTS
    ensures
      var next := AfterRead(Freed(c), c.kind, configuration).0;
      next.update == NoUpdate || Rank(next) < Rank(c)
  {
  }

  lemma ReadAdvances(s: System, e: Event)
    requires Sound(s) && s.journal.job.Some? && e.RequestSucceeds? && Possible(s, e) && IsRead(s.client.kind)
    ensures Next(s, e).journal.job.None? || Rank(Next(s, e).client) < Rank(s.client)
  {
    ReadLowersRank(s, e);
    if Step(s, e).0.update == NoUpdate {
      ReadStep(s, e);
      JobEnds(s, e);
    }
  }

  lemma WriteAdvances(s: System, e: Event)
    requires Sound(s) && s.journal.job.Some? && e.RequestSucceeds? && Possible(s, e) && IsWrite(s.client.kind)
    ensures Rank(Next(s, e).client) < Rank(s.client)
  {
  }

  lemma {:induction false} NotingStartsNothing(j: Journal, outputs: seq<Output>)
    ensures NotedAll(j, outputs).started == j.started
    decreases |outputs|
  {
    if outputs != [] {
      NotingStartsNothing(Noted(j, outputs[0]), outputs[1..]);
    }
  }

  lemma BusyStartsNothing(s: System, e: Event)
    requires Sound(s) && s.journal.job.Some?
    ensures GoalOf(s.client, e) == None && Next(s, e).journal.started == s.journal.started
  {
    NotingStartsNothing(WithBaseline(s, e, s.journal), Step(s, e).1);
  }

  /** Each answer and each pause brings the end nearer; nothing else moves it away. */
  lemma RankFalls(s: System, e: Event)
    requires Sound(s) && s.journal.job.Some? && Possible(s, e)
    ensures
      var next := Next(s, e);
      || next.journal.ended == s.journal.ended + 1
      || (next.journal.ended == s.journal.ended && next.journal.job.Some?
          && Rank(next.client) + (if Progresses(e) then 1 else 0) <= Rank(s.client))
  {
    NextKeeps(s, e);
    BusyStartsNothing(s, e);
    match e {
      case Timer => TimerAdvances(s);
      case RequestFails => FailureAdvances(s);
      case RequestSucceeds(_, _) =>
        if IsRead(s.client.kind) {
          ReadAdvances(s, e);
        } else {
          WriteAdvances(s, e);
        }
      case CameraStores(_) =>
      case Fetch => FetchKeeps(s);
      case _ => TurnedDownChangesNothing(s, e);
    }
  }

  function Progress(events: seq<Event>): nat
    decreases |events|
  {
    if events == [] then 0 else (if Progresses(events[0]) then 1 else 0) + Progress(events[1..])
  }

  lemma AfterOne(s: System, events: seq<Event>, k: nat)
    requires k < |events|
    ensures After(s, events[..k + 1]) == After(Next(s, events[0]), events[1..][..k])
  {
    assert events[..k + 1][1..] == events[1..][..k];
    assert events[..k + 1][0] == events[0];
  }

  /** Whatever else happens, fifteen answers and pauses are enough to end any change. */
  lemma {:induction false} EveryChangeEnds(s: System, events: seq<Event>)
    requires Sound(s) && s.journal.job.Some? && Runs(s, events)
    requires Progress(events) >= Rank(s.client)
    ensures exists k :: 0 <= k <= |events| && After(s, events[..k]).journal.ended == s.journal.ended + 1
    ensures Rank(s.client) <= 15
    decreases |events|
  {
    assert Rank(s.client) >= 1;
    var next := Next(s, events[0]);
    RankFalls(s, events[0]);
    NextKeeps(s, events[0]);
    if next.journal.ended == s.journal.ended + 1 {
      AfterOne(s, events, 0);
    } else {
      EveryChangeEnds(next, events[1..]);
      var k :| 0 <= k <= |events| - 1 && After(next, events[1..][..k]).journal.ended == next.journal.ended + 1;
      AfterOne(s, events, k);
    }
  }

  // ---------- one final signal for each call ----------

  predicate IsFinal(o: Output) {
    o.ApplySucceeded? || o.ApplyFailed?
  }

  function Finals(outputs: seq<Output>): nat
    decreases |outputs|
  {
    if outputs == [] then 0 else (if IsFinal(outputs[0]) then 1 else 0) + Finals(outputs[1..])
  }

  lemma FewFinals(outputs: seq<Output>)
    requires |outputs| <= 2 && forall i :: 0 <= i < |outputs| - 1 ==> !IsFinal(outputs[i])
    ensures Finals(outputs) == if outputs != [] && IsFinal(outputs[|outputs| - 1]) then 1 else 0
  {
    if |outputs| == 1 {
      assert outputs[1..] == [];
    } else if |outputs| == 2 {
      assert outputs[1..] == [outputs[1]];
      assert Finals([outputs[1]][1..]) == 0;
    }
  }

  predicate IsAnswer(e: Event) {
    e.RequestFails? || e.RequestSucceeds?
  }

  /** A step emits at most two outputs, and a final signal only as the last one: for the job under
      way when a request is answered, or for a call that is turned down. */
  lemma StepOutputs(s: System, e: Event)
    requires Sound(s) && Possible(s, e)
    ensures
      var outputs := Step(s, e).1;
      && |outputs| <= 2
      && (forall i :: 0 <= i < |outputs| - 1 ==> !IsFinal(outputs[i]))
      && (forall o <- outputs :: IsFinal(o) ==> TurnedDown(s.client, e) || (s.journal.job.Some? && IsAnswer(e)))
  {
    if e.RequestSucceeds? {
      if IsRead(s.client.kind) {
        ReadStep(s, e);
      } else {
        OtherAnswers(s, e);
      }
    }
  }

  /** The shape of a step that ends a change. */
  ghost predicate Ends(s: System, e: Event) {
    EndsAs(s.client.update.channel, Step(s, e).0, Step(s, e).1)
  }

  predicate EndsAs(channel: int, client: Client, outputs: seq<Output>) {
    && !client.Busy() && client.kind == NoRequest && client.update == NoUpdate
    && (|outputs| == 1 || (|outputs| == 2 && outputs[0].ConfigurationReceived?))
    && IsFinal(outputs[|outputs| - 1]) && outputs[|outputs| - 1].channel == channel
  }

  lemma FailureEnds(s: System, o: Output)
    requires Sound(s) && Possible(s, RequestFails) && o in Step(s, RequestFails).1 && IsFinal(o)
    ensures Ends(s, RequestFails) && s.journal.job.Some? && o.channel == s.client.update.channel
  {
  }

  lemma ReadEnds(s: System, e: Event, o: Output)
    requires Sound(s) && e.RequestSucceeds? && Possible(s, e) && o in Step(s, e).1 && IsFinal(o)
    ensures Ends(s, e) && s.journal.job.Some? && o.channel == s.client.update.channel
  {
    if IsRead(s.client.kind) {
      ReadStep(s, e);
      AfterReadEnds(Freed(s.client), s.client.kind, ReadConfiguration(s.stored), o);
    } else {
      OtherAnswers(s, e);
    }
  }

  lemma AfterReadEnds(c: Client, kind: Kind, configuration: Option<Configuration>, o: Output)
    requires !c.Busy() && c.kind == NoRequest && IsRead(kind)
    requires o in AfterRead(c, kind, configuration).1 && IsFinal(o)
    ensures EndsAs(c.update.channel, AfterRead(c, kind, configuration).0, AfterRead(c, kind, configuration).1)
    ensures o.channel == c.update.channel
  {
  }

  /** An answer that leads to a final signal ends the job, under its channel. */
  lemma AnswerEndsJob(s: System, e: Event, o: Output)
    requires Sound(s) && Possible(s, e) && IsAnswer(e) && o in Step(s, e).1 && IsFinal(o)
    ensures s.journal.job.Some? && o.channel == s.journal.job.value.goal.channel
    ensures Next(s, e).journal == Journal(None, s.journal.started, s.journal.ended + 1)
  {
    if e.RequestFails? {
      FailureEnds(s, o);
    } else {
      ReadEnds(s, e, o);
    }
    JobEnds(s, e);
  }

  /** A final signal is the change's own exactly when it comes with an answer. Any other one is the
      immediate failure of a call, which starts nothing and leaves client, camera and change alone. */
  lemma WhoseSignal(s: System, e: Event, o: Output)
    requires Reachable(s) && Possible(s, e) && o in Step(s, e).1 && IsFinal(o)
    ensures IsAnswer(e) <==> s.journal.job.Some? && Next(s, e).journal.job.None?
    ensures IsAnswer(e) ==> s.journal.job.Some? && o.channel == s.journal.job.value.goal.channel
    ensures IsAnswer(e) <==> !IsCall(e)
    ensures IsCall(e) ==> o == ApplyFailed(e.channel, false) && Next(s, e) == s
  {
    ReachableIsSound(s);
    StepOutputs(s, e);
    if IsAnswer(e) {
      AnswerEndsJob(s, e, o);
    } else {
      TurnedDownChangesNothing(s, e);
    }
  }

  function Open(s: System): nat {
    if s.journal.job.Some? then 1 else 0
  }

  lemma StepSignals(s: System, e: Event)
    requires Sound(s) && Possible(s, e)
    ensures Finals(Step(s, e).1) + Open(Next(s, e)) == Open(s) + if IsCall(e) then 1 else 0
  {
    var outputs := Step(s, e).1;
    StepOutputs(s, e);
    FewFinals(outputs);
    if TurnedDown(s.client, e) {
      TurnedDownChangesNothing(s, e);
    } else if outputs != [] && IsFinal(outputs[|outputs| - 1]) {
      assert outputs[|outputs| - 1] in outputs;
      AnswerEndsJob(s, e, outputs[|outputs| - 1]);
    } else {
      NoFinalNoEnd(s, e);
    }
  }

  lemma {:induction false} NotingKeepsJob(j: Journal, outputs: seq<Output>)
    requires forall o <- outputs :: !IsFinal(o)
    ensures NotedAll(j, outputs).job.Some? <==> j.job.Some?
    decreases |outputs|
  {
    if outputs != [] {
      assert outputs[0] in outputs && forall o <- outputs[1..] :: o in outputs;
      NotingKeepsJob(Noted(j, outputs[0]), outputs[1..]);
    }
  }

  lemma NoFinalNoEnd(s: System, e: Event)
    requires Sound(s) && Possible(s, e) && !TurnedDown(s.client, e)
    requires forall o <- Step(s, e).1 :: !IsFinal(o)
    ensures Open(Next(s, e)) == Open(s) + if IsCall(e) then 1 else 0
  {
    match GoalOf(s.client, e) {
      case Some(goal) =>
        StartKeeps(s, e, goal);
        StartedGoal(s.client, e, goal);
      case None =>
        NotingKeepsJob(WithBaseline(s, e, s.journal), Step(s, e).1);
    }
  }

  function Calls(events: seq<Event>): nat
    decreases |events|
  {
    if events == [] then 0 else (if IsCall(events[0]) then 1 else 0) + Calls(events[1..])
  }

  /** The final signals of a whole run. */
  ghost function AllFinals(s: System, events: seq<Event>): nat
    decreases |events|
  {
    if events == [] then 0 else Finals(Step(s, events[0]).1) + AllFinals(Next(s, events[0]), events[1..])
  }

  lemma {:induction false} SignalsMatchCalls(s: System, events: seq<Event>)
    requires Sound(s) && Runs(s, events)
    ensures Calls(events) + Open(s) == AllFinals(s, events) + Open(After(s, events))
    decreases |events|
  {
    if events != [] {
      StepSignals(s, events[0]);
      NextKeeps(s, events[0]);
      SignalsMatchCalls(Next(s, events[0]), events[1..]);
    }
  }

  /** Over every run, each apply or delete call has led to exactly one success or failure,
      except the one whose change is under way. */
  lemma OneSignalPerCall(connectionValid: bool, stored: Option<Json.Value>, events: seq<Event>)
    requires Runs(Fresh(connectionValid, stored), events)
    ensures Calls(events) == AllFinals(Fresh(connectionValid, stored), events)
                             + Open(After(Fresh(connectionValid, stored), events))
  {
    FreshIsSound(connectionValid, stored);
    SignalsMatchCalls(Fresh(connectionValid, stored), events);
  }
}

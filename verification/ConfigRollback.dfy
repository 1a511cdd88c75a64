/** What a successful rollback brings back: the channel that the camera held when the change was asked for. */
module ConfigRollback {
  import opened Text
  import opened AreaConfiguration
  import opened AreaPayload
  import opened AreaRoundTrip
  import opened ConfigClient
  import opened ConfigTransaction
  import opened ConfigOutcomes
  import Json

  // ---------- what the client and the observer know, over every run ----------

  /** What the client holds as the configuration is a document it has parsed. */
  ghost predicate HoldsParsed(c: Client) {
    c.configuration.Some? ==> exists document: Json.Value :: ParseDocument(document) == c.configuration
  }

  /** The rollback keeps the flag of the baseline, and once the preflight read has shown the
      baseline, the camera held it at the call. */
  predicate Witnessed(job: Job) {
    && job.goal.goodEnabled == RawEnabled(job.goal.baselineRaw)
    && (job.sawBaseline ==> StoredChannel(job.atStart, job.goal.channel) == job.goal.baselineRaw)
  }

  ghost predicate WellRead(s: System) {
    && Sound(s) && HoldsParsed(s.client)
    && (s.journal.job.Some? ==> Witnessed(s.journal.job.value))
  }

  /** Only reads of the camera change what the client holds. */
  lemma StepReads(s: System, e: Event)
    requires Sound(s) && Possible(s, e)
    ensures
      var configuration := Step(s, e).0.configuration;
      configuration == s.client.configuration || configuration == ReadConfiguration(s.stored)
  {
    if e.RequestSucceeds? {
      if IsRead(s.client.kind) {
        ReadStep(s, e);
      } else {
        assert !IsTransaction(s.client.kind) || IsWrite(s.client.kind);
      }
    }
  }

  lemma {:induction false} NotingKeepsGoal(j: Journal, outputs: seq<Output>)
    requires NotedAll(j, outputs).job.Some?
    ensures j.job.Some?
    ensures
      var before, after := j.job.value, NotedAll(j, outputs).job.value;
      after.goal == before.goal && after.atStart == before.atStart && after.sawBaseline == before.sawBaseline
    decreases |outputs|
  {
    if outputs != [] {
      NotingKeepsGoal(Noted(j, outputs[0]), outputs[1..]);
    }
  }

  lemma GoalKeepsFlag(c: Client, e: Event, goal: Goal)
    requires GoalOf(c, e) == Some(goal)
    ensures goal.goodEnabled == RawEnabled(goal.baselineRaw)
  {
  }

  lemma JobIsWitnessed(s: System, e: Event)
    requires WellRead(s) && Possible(s, e) && Next(s, e).journal.job.Some?
    ensures Witnessed(Next(s, e).journal.job.value)
  {
    match GoalOf(s.client, e) {
      case Some(goal) =>
        StartKeeps(s, e, goal);
        GoalKeepsFlag(s.client, e, goal);
      case None =>
        if !TurnedDown(s.client, e) {
          NotingKeepsGoal(WithBaseline(s, e, s.journal), Step(s, e).1);
        }
    }
  }

  lemma StaysParsed(s: System, e: Event)
    requires Sound(s) && HoldsParsed(s.client) && Possible(s, e)
    ensures HoldsParsed(Step(s, e).0)
  {
    StepReads(s, e);
    var configuration := Step(s, e).0.configuration;
    if configuration.Some? && configuration != s.client.configuration {
      assert ParseDocument(s.stored.value) == configuration;
    }
  }

  lemma NextIsWellRead(s: System, e: Event)
    requires WellRead(s) && Possible(s, e)
    ensures WellRead(Next(s, e))
  {
    NextKeeps(s, e);
    StaysParsed(s, e);
    if Next(s, e).journal.job.Some? {
      JobIsWitnessed(s, e);
    }
  }

  lemma {:induction false} RunIsWellRead(s: System, events: seq<Event>)
    requires WellRead(s) && Runs(s, events)
    ensures WellRead(After(s, events))
    decreases |events|
  {
    if events != [] {
      NextIsWellRead(s, events[0]);
      RunIsWellRead(Next(s, events[0]), events[1..]);
    }
  }

  lemma ReachableIsWellRead(s: System)
    requires Reachable(s)
    ensures WellRead(s)
  {
    var connectionValid, stored, events :|
      Runs(Fresh(connectionValid, stored), events) && s == After(Fresh(connectionValid, stored), events);
    FreshIsSound(connectionValid, stored);
    RunIsWellRead(Fresh(connectionValid, stored), events);
  }

  // ---------- what is restored ----------

  /** The payload kept for the rollback describes what the client had last read:
      compared with it, it always matches. */
  lemma RollbackIsLastGood(s: System, e: Event, goal: Goal)
    requires Reachable(s) && GoalOf(s.client, e) == Some(goal)
    ensures ChannelMatches(RollbackPayload(goal), s.client.configuration.value)
  {
    ReachableIsWellRead(s);
    var document: Json.Value :| ParseDocument(document) == s.client.configuration;
    ParsedRollbackMatches(s.client, e, goal, document);
  }

  /** The areas that one container of a channel lists. */
  function AreasIn(container: Json.Fields, channel: int32): Option<seq<Area>> {
    if "definedArea" in container && container["definedArea"].Array?
    then ParseDefinitions(container["definedArea"].items, channel)
    else None
  }

  /** Where the client read the channel from one container, the areas to restore are those of its baseline. */
  lemma OneContainerIsBaseline(c: Client, e: Event, goal: Goal, document: Json.Value, at: nat)
    requires GoalOf(c, e) == Some(goal) && c.configuration == ParseDocument(document)
    requires
      var items := document.fields["ivaArea"].items;
      && at < |items| && OnlyAt(items, goal.channel, at)
      && IsContainer(items[at]) && ReadsAlone(items[at]) && ContainerChannel(items[at]) == goal.channel
    ensures AreasIn(goal.baselineRaw, goal.channel) == Some(goal.goodAreas)
  {
    ChannelRead(document.fields["ivaArea"].items, goal.channel, at);
  }

  /** A failure that claims the rollback succeeded is announced only while the camera holds again
      what it held when the change was asked for: the flag, and the areas of the channel's container. */
  lemma RollbackRestoresStart(s: System, e: Event, channel: int)
    requires Reachable(s) && Possible(s, e) && ApplyFailed(channel, true) in Step(s, e).1
    ensures s.journal.job.Some? && s.journal.job.value.goal.channel == channel
    ensures
      var job := s.journal.job.value;
      var start := StoredChannel(job.atStart, channel);
      && start == job.goal.baselineRaw && ReadConfiguration(Next(s, e).stored).Some?
      && (AreasIn(start, channel) == Some(job.goal.goodAreas) ==>
            ChannelIs(channel, RawEnabled(start), AreasIn(start, channel).value,
                      ReadConfiguration(Next(s, e).stored).value))
  {
    ReachableIsWellRead(s);
    RollbackMeansRestored(s, e, channel);
    RollbackComesFromVerify(s, e, channel);
  }
}

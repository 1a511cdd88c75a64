/** What every answer of the camera leads to, told by the requests sent so far: one preflight read,
    one write, up to three reads that verify it, a rollback, and up to three reads that verify that. */
module ConfigAnswers {
  import opened Text
  import opened AreaConfiguration
  import opened AreaPayload
  import opened AreaRoundTrip
  import opened ConfigClient
  import opened ConfigTransaction
  import opened ConfigOutcomes
  import Json

  // ---------- single answers ----------

  ghost predicate IsReadable(stored: Option<Json.Value>) {
    ReadConfiguration(stored).Some?
  }

  /** What the camera holds is read as this flag and these areas on the channel. */
  ghost predicate Shows(stored: Option<Json.Value>, channel: int32, enabled: bool, areas: seq<Area>) {
    IsReadable(stored) && ChannelIs(channel, enabled, areas, ReadConfiguration(stored).value)
  }

  /** The step is followed by a pause and then by this read. */
  ghost predicate PausesAndReads(s: System, e: Event, kind: Kind) {
    && Step(s, e).1 == [] && Possible(Next(s, e), Timer)
    && Step(Next(s, e), Timer).1 == [Get(kind)]
  }

  ghost predicate IsAnswered(s: System, e: Event, kind: Kind) {
    Reachable(s) && Possible(s, e) && e.RequestSucceeds? && s.client.kind == kind && s.journal.job.Some?
  }

  /** The write is sent exactly when the preflight read shows the channel as the client last read it. */
  lemma PreflightAnswer(s: System, e: Event)
    requires IsAnswered(s, e, PreflightConfiguration)
    ensures
      var job := s.journal.job.value;
      var goal := job.goal;
      Step(s, e).1
        == if !IsReadable(s.stored) then [ApplyFailed(goal.channel, false)]
           else if ChannelObject(ReadConfiguration(s.stored).value, goal.channel) != goal.baselineRaw then
             [ConfigurationReceived(ReadConfiguration(s.stored).value), ApplyFailed(goal.channel, false)]
           else if job.deletedAreaIndex == -1 then [Put(PutUpdate, Payload(goal.channel, goal.enabled, goal.areas))]
           else [Delete(goal.channel, job.deletedAreaIndex)]
  {
    ReachableIsSound(s);
    ReadStep(s, e);
  }

  /** Every write is verified, even one whose request failed. */
  lemma WriteAnswer(s: System, e: Event)
    requires Reachable(s) && Possible(s, e) && (e.RequestSucceeds? || e.RequestFails?)
    requires s.client.kind == PutUpdate || s.client.kind == DeleteUpdate
    ensures PausesAndReads(s, e, VerifyUpdate)
  {
    ReachableIsSound(s);
  }

  /** Of the rollback, only one that was answered. */
  lemma RollbackAnswer(s: System, e: Event)
    requires Reachable(s) && Possible(s, e) && s.client.kind == PutRollback && s.journal.job.Some?
    ensures e.RequestSucceeds? ==> PausesAndReads(s, e, VerifyRollback)
    ensures e.RequestFails? ==> Step(s, e).1 == [ApplyFailed(s.journal.job.value.goal.channel, false)]
  {
    ReachableIsSound(s);
  }

  /** A read that cannot be made ends the change. */
  lemma FailedRead(s: System)
    requires Reachable(s) && Possible(s, RequestFails) && IsRead(s.client.kind) && s.journal.job.Some?
    ensures Step(s, RequestFails).1 == [ApplyFailed(s.journal.job.value.goal.channel, false)]
  {
    ReachableIsSound(s);
  }

  /** The change succeeds with the first read that shows what was asked for; the third one that does not
      starts the rollback. */
  lemma VerificationAnswer(s: System, e: Event)
    requires IsAnswered(s, e, VerifyUpdate)
    ensures
      var job := s.journal.job.value;
      var goal := job.goal;
      if !IsReadable(s.stored) then Step(s, e).1 == [ApplyFailed(goal.channel, false)]
      else if Shows(s.stored, goal.channel, goal.enabled, goal.areas) then
        Step(s, e).1 == [ConfigurationReceived(ReadConfiguration(s.stored).value),
                         ApplySucceeded(goal.channel, ReadConfiguration(s.stored).value)]
      else if job.requests < 5 then PausesAndReads(s, e, VerifyUpdate)
      else Step(s, e).1 == [Put(PutRollback, Payload(goal.channel, goal.goodEnabled, goal.goodAreas))]
  {
    ReachableIsSound(s);
    ReadStep(s, e);
    var goal := s.journal.job.value.goal;
    if IsReadable(s.stored) {
      MatchMeansSameChannel(goal.channel, goal.enabled, goal.areas, ReadConfiguration(s.stored).value);
    }
  }

  /** The rollback counts with the first read that shows what the client had last read; the third one that
      does not is given up. */
  lemma RestorationAnswer(s: System, e: Event)
    requires IsAnswered(s, e, VerifyRollback)
    ensures
      var job := s.journal.job.value;
      var goal := job.goal;
      if !IsReadable(s.stored) then Step(s, e).1 == [ApplyFailed(goal.channel, false)]
      else if Shows(s.stored, goal.channel, goal.goodEnabled, goal.goodAreas) then
        Step(s, e).1 == [ConfigurationReceived(ReadConfiguration(s.stored).value), ApplyFailed(goal.channel, true)]
      else if job.requests < 9 then PausesAndReads(s, e, VerifyRollback)
      else Step(s, e).1 == [ApplyFailed(goal.channel, false)]
  {
    ReachableIsSound(s);
    ReadStep(s, e);
    var goal := s.journal.job.value.goal;
    if IsReadable(s.stored) {
      MatchMeansSameChannel(goal.channel, goal.goodEnabled, goal.goodAreas, ReadConfiguration(s.stored).value);
    }
  }

  // ---------- a camera that takes a write late ----------

  const Answered := RequestSucceeds(None, None)

  /** One verification: the pause ends, the camera holds this by now, and the read is answered. */
  function Round(document: Option<Json.Value>): seq<Event> {
    [Timer, CameraStores(document), Answered]
  }

  function Rounds(documents: seq<Option<Json.Value>>): seq<Event> {
    if documents == [] then [] else Round(documents[0]) + Rounds(documents[1..])
  }

  ghost predicate Misses(goal: Goal, documents: seq<Option<Json.Value>>) {
    forall d <- documents :: IsReadable(d) && !Shows(d, goal.channel, goal.enabled, goal.areas)
  }

  /** The write has been answered, and a read is due after a pause. */
  ghost predicate AwaitsRead(s: System) {
    Sound(s) && s.client.kind == VerifyUpdate && s.client.timerActive && s.journal.job.Some?
  }

  /** The state in which the read of a round is answered. */
  ghost function AtRead(s: System, document: Option<Json.Value>): System {
    Next(Next(s, Timer), CameraStores(document))
  }

  lemma ReadIsDue(s: System, document: Option<Json.Value>)
    requires AwaitsRead(s)
    ensures
      var at := AtRead(s, document);
      && Possible(s, Timer) && Possible(Next(s, Timer), CameraStores(document)) && Possible(at, Answered)
      && Sound(at) && at.client.kind == VerifyUpdate && at.stored == document && at.journal.job.Some?
      && at.journal.job.value.goal == s.journal.job.value.goal
      && at.journal.job.value.requests == s.journal.job.value.requests + 1
  {
    NextKeeps(s, Timer);
    NextKeeps(Next(s, Timer), CameraStores(document));
    NotedOne(s.journal, Get(VerifyUpdate));
  }

  lemma AnsweredRead(s: System, document: Option<Json.Value>)
    requires AwaitsRead(s) && IsReadable(document)
    ensures
      var at, job := AtRead(s, document), s.journal.job.value;
      var outputs := Step(at, Answered).1;
      if Shows(document, job.goal.channel, job.goal.enabled, job.goal.areas) then
        ApplySucceeded(job.goal.channel, ReadConfiguration(document).value) in outputs
      else if job.requests < 4 then
        && AwaitsRead(Next(at, Answered)) && Next(at, Answered).journal.job.value.goal == job.goal
        && Next(at, Answered).journal.job.value.requests == job.requests + 1
      else outputs == [Put(PutRollback, Payload(job.goal.channel, job.goal.goodEnabled, job.goal.goodAreas))]
  {
    var at, goal := AtRead(s, document), s.journal.job.value.goal;
    ReadIsDue(s, document);
    ReadStep(at, Answered);
    MatchMeansSameChannel(goal.channel, goal.enabled, goal.areas, ReadConfiguration(document).value);
    NextKeeps(at, Answered);
  }

  lemma RoundsAreThree(s: System, documents: seq<Option<Json.Value>>)
    requires documents != []
    ensures After(s, Rounds(documents)) == After(Next(AtRead(s, documents[0]), Answered), Rounds(documents[1..]))
  {
    var rest := Rounds(documents[1..]);
    var read := [Answered] + rest;
    var stored := [CameraStores(documents[0])] + read;
    assert Rounds(documents) == [Timer] + stored;
    AfterFirst(s, Timer, stored);
    AfterFirst(Next(s, Timer), CameraStores(documents[0]), read);
    AfterFirst(AtRead(s, documents[0]), Answered, rest);
  }

  lemma AfterFirst(s: System, e: Event, rest: seq<Event>)
    ensures After(s, [e] + rest) == After(Next(s, e), rest)
  {
    assert ([e] + rest)[1..] == rest;
  }

  lemma {:induction false} MissedRounds(s: System, documents: seq<Option<Json.Value>>)
    requires AwaitsRead(s) && Misses(s.journal.job.value.goal, documents)
    requires s.journal.job.value.requests + |documents| <= 4
    ensures
      var end := After(s, Rounds(documents));
      && AwaitsRead(end) && end.journal.job.value.goal == s.journal.job.value.goal
      && end.journal.job.value.requests == s.journal.job.value.requests + |documents|
    decreases |documents|
  {
    if documents != [] {
      var next := Next(AtRead(s, documents[0]), Answered);
      AnsweredRead(s, documents[0]);
      RoundsAreThree(s, documents);
      MissedRounds(next, documents[1..]);
    }
  }

  /** A write that the camera takes late, but before the third read, is found by the next one. */
  lemma LateWriteIsFound(s: System, missed: seq<Option<Json.Value>>, document: Option<Json.Value>)
    requires AwaitsRead(s) && s.journal.job.value.requests == 2 && |missed| <= 2
    requires Misses(s.journal.job.value.goal, missed)
    requires
      var goal := s.journal.job.value.goal;
      Shows(document, goal.channel, goal.enabled, goal.areas)
    ensures ApplySucceeded(s.journal.job.value.goal.channel, ReadConfiguration(document).value)
            in Step(AtRead(After(s, Rounds(missed)), document), Answered).1
  {
    MissedRounds(s, missed);
    AnsweredRead(After(s, Rounds(missed)), document);
  }

  /** A write that three reads do not show is rolled back to what the client had last read. */
  lemma LostWriteIsRolledBack(s: System, missed: seq<Option<Json.Value>>, document: Option<Json.Value>)
    requires AwaitsRead(s) && s.journal.job.value.requests == 2 && |missed| == 2
    requires Misses(s.journal.job.value.goal, missed) && Misses(s.journal.job.value.goal, [document])
    ensures
      var goal := s.journal.job.value.goal;
      Step(AtRead(After(s, Rounds(missed)), document), Answered).1
        == [Put(PutRollback, Payload(goal.channel, goal.goodEnabled, goal.goodAreas))]
  {
    MissedRounds(s, missed);
    assert document in [document];
    AnsweredRead(After(s, Rounds(missed)), document);
  }

  /** That is the state after a write has been answered. */
  lemma WriteAwaitsRead(s: System, e: Event)
    requires Reachable(s) && Possible(s, e) && (e.RequestSucceeds? || e.RequestFails?)
    requires s.client.kind == PutUpdate || s.client.kind == DeleteUpdate
    ensures s.journal.job.Some? && AwaitsRead(Next(s, e)) && Next(s, e).journal.job.value.requests == 2
    ensures Next(s, e).journal.job.value.goal == s.journal.job.value.goal
  {
    ReachableIsSound(s);
    NextKeeps(s, e);
  }

  // ---------- reading everything ----------

  /** A fetch asks for options, capabilities and configuration in turn, and the client then holds all three. */
  lemma FetchReadsAll(s: System, options: seq<ChannelOptions>, capabilities: seq<Capability>)
    requires Reachable(s) && !s.client.Busy() && s.client.connectionValid && IsReadable(s.stored)
    ensures
      var asked := Next(s, Fetch);
      var first := RequestSucceeds(Some(options), None);
      var second := RequestSucceeds(None, Some(capabilities));
      var third := RequestSucceeds(None, None);
      && Step(s, Fetch).1 == [Get(FetchOptions)]
      && Step(asked, first).1 == [OptionsReceived, Get(FetchCapabilities)]
      && Step(Next(asked, first), second).1 == [CapabilitiesReceived, Get(FetchConfiguration)]
      && Step(Next(Next(asked, first), second), third).1 == [ConfigurationReceived(ReadConfiguration(s.stored).value)]
      && var end := Next(Next(Next(asked, first), second), third).client;
      && !end.Busy() && end.options == Some(options) && end.capabilities == Some(capabilities)
      && end.configuration == ReadConfiguration(s.stored)
  {
    ReachableIsSound(s);
  }
}

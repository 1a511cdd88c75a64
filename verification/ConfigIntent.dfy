/** What a call asked for and what its success means: the areas, the flag and the channel
    of the call itself, over every run. */
module ConfigIntent {
  import opened Text
  import opened AreaConfiguration
  import opened AreaPayload
  import opened AreaRoundTrip
  import opened ConfigClient
  import opened ConfigTransaction
  import opened ConfigOutcomes
  import opened ConfigRollback
  import Json

  // ---------- the goal stays while the change is under way ----------

  lemma StartedGrows(s: System, e: Event)
    ensures Next(s, e).journal.started >= s.journal.started
    ensures GoalOf(s.client, e).Some? ==> Next(s, e).journal.started == s.journal.started + 1
  {
    NotingStartsNothing(WithBaseline(s, e, Opened(s, e)), Step(s, e).1);
  }

  lemma {:induction false} RunStartsMore(s: System, events: seq<Event>)
    ensures After(s, events).journal.started >= s.journal.started
    decreases |events|
  {
    if events != [] {
      StartedGrows(s, events[0]);
      RunStartsMore(Next(s, events[0]), events[1..]);
    }
  }

  lemma StepKeepsGoal(s: System, e: Event)
    requires Next(s, e).journal.job.Some? && Next(s, e).journal.started == s.journal.started
    ensures s.journal.job.Some? && Next(s, e).journal.job.value.goal == s.journal.job.value.goal
  {
    StartedGrows(s, e);
    if !TurnedDown(s.client, e) {
      NotingKeepsGoal(WithBaseline(s, e, s.journal), Step(s, e).1);
    }
  }

  lemma {:induction false} RunKeepsGoal(s: System, events: seq<Event>)
    requires After(s, events).journal.job.Some? && After(s, events).journal.started == s.journal.started
    ensures s.journal.job.Some? && After(s, events).journal.job.value.goal == s.journal.job.value.goal
    decreases |events|
  {
    if events != [] {
      StartedGrows(s, events[0]);
      RunStartsMore(Next(s, events[0]), events[1..]);
      RunKeepsGoal(Next(s, events[0]), events[1..]);
      StepKeepsGoal(s, events[0]);
    }
  }

  /** The call has started a change, and after these events no other one has been started. */
  ghost predicate IsChangeOf(s: System, call: Event, events: seq<Event>) {
    && IsCall(call) && Reachable(s) && Possible(s, call) && Runs(Next(s, call), events)
    && ApplyStarted(call.channel) in Step(s, call).1
    && After(Next(s, call), events).journal.started == s.journal.started + 1
  }

  lemma StartHasGoal(s: System, call: Event)
    requires IsCall(call) && ApplyStarted(call.channel) in Step(s, call).1
    ensures GoalOf(s.client, call).Some?
  {
  }

  lemma ReachedAgain(s: System, e: Event)
    requires Reachable(s) && Possible(s, e)
    ensures Reachable(Next(s, e))
  {
    var connectionValid, stored, events :|
      Runs(Fresh(connectionValid, stored), events) && s == After(Fresh(connectionValid, stored), events);
    RunsOneMore(Fresh(connectionValid, stored), events, e);
  }

  lemma {:induction false} RunsOneMore(s: System, events: seq<Event>, e: Event)
    requires Runs(s, events) && Possible(After(s, events), e)
    ensures Runs(s, events + [e]) && After(s, events + [e]) == Next(After(s, events), e)
    decreases |events|
  {
    if events == [] {
      assert [] + [e] == [e] && [e][1..] == [];
    } else {
      assert (events + [e])[1..] == events[1..] + [e];
      RunsOneMore(Next(s, events[0]), events[1..], e);
    }
  }

  lemma {:induction false} ReachedByRun(s: System, events: seq<Event>)
    requires Reachable(s) && Runs(s, events)
    ensures Reachable(After(s, events))
    decreases |events|
  {
    if events != [] {
      ReachedAgain(s, events[0]);
      ReachedByRun(Next(s, events[0]), events[1..]);
    }
  }

  /** The success of the change that a call started: what the camera holds then, in terms of the call's goal. */
  lemma SuccessOfCall(s: System, call: Event, events: seq<Event>, answer: Event, channel: int, now: Configuration)
    requires IsCall(call) && IsChangeOf(s, call, events) && Possible(After(Next(s, call), events), answer)
    requires ApplySucceeded(channel, now) in Step(After(Next(s, call), events), answer).1
    ensures GoalOf(s.client, call).Some?
    ensures
      var goal := GoalOf(s.client, call).value;
      && channel == goal.channel
      && ReadConfiguration(After(Next(s, call), events).stored) == Some(now)
      && ChannelIs(channel, goal.enabled, goal.areas, now)
  {
    StartHasGoal(s, call);
    ReachedAgain(s, call);
    ReachedByRun(Next(s, call), events);
    var end := After(Next(s, call), events);
    SuccessMeansIntended(end, answer, channel, now);
    StartedGrows(s, call);
    RunKeepsGoal(Next(s, call), events);
    ReachableIsSound(s);
    StartKeeps(s, call, GoalOf(s.client, call).value);
  }

  // ---------- what the calls ask for ----------

  ghost predicate IsFirst(channels: seq<Channel>, channel: int, k: nat)
    requires k < |channels|
  {
    channels[k].channel == channel && forall i :: 0 <= i < k ==> channels[i].channel != channel
  }

  /** The camera's entry of the channel has this flag. */
  ghost predicate HasFlag(now: Configuration, channel: int, enabled: bool) {
    exists k :: 0 <= k < |now.channels| && IsFirst(now.channels, channel, k) && now.channels[k].enabled == enabled
  }

  ghost predicate HeldBy(a: Area, now: Configuration, channel: int) {
    exists b <- now.areas :: b.channel == channel && SameArea(a, b)
  }

  ghost predicate Among(b: Area, wanted: seq<Area>) {
    exists a <- wanted :: SameArea(a, b)
  }

  /** No index is used twice on the channel. */
  ghost predicate OneEach(areas: seq<Area>, channel: int) {
    forall i, j :: 0 <= i < j < |areas| && areas[i].channel == channel && areas[j].channel == channel ==>
      areas[i].areaIndex != areas[j].areaIndex
  }

  /** The channel holds exactly the wanted rules: one record of each, and no others. */
  ghost predicate HoldsExactly(now: Configuration, channel: int, enabled: bool, wanted: seq<Area>) {
    && HasFlag(now, channel, enabled)
    && (forall a <- wanted :: HeldBy(a, now, channel))
    && (forall b <- now.areas :: b.channel == channel ==> Among(b, wanted))
    && OneEach(now.areas, channel)
  }

  lemma {:induction false} FoundAt(channels: seq<Channel>, channel: int)
    requires FindChannel(channels, channel).Some?
    ensures exists k :: 0 <= k < |channels| && IsFirst(channels, channel, k) && channels[k] == FindChannel(channels, channel).value
  {
    if channels[0].channel != channel {
      var rest := channels[1..];
      FoundAt(rest, channel);
      var k :| 0 <= k < |rest| && IsFirst(rest, channel, k) && rest[k] == FindChannel(rest, channel).value;
      forall i | 0 <= i < k + 1
        ensures channels[i].channel != channel
      {
        if i > 0 {
          assert channels[i] == rest[i - 1];
        }
      }
      assert channels[k + 1] == rest[k];
      assert IsFirst(channels, channel, k + 1);
    } else {
      assert IsFirst(channels, channel, 0);
    }
  }

  lemma {:induction false} OnChannelHolds(areas: seq<Area>, channel: int, a: Area)
    requires a in areas && a.channel == channel
    ensures a in OnChannel(areas, channel)
  {
    var n := |areas| - 1;
    if a != areas[n] {
      assert areas == areas[..n] + [areas[n]];
      OnChannelHolds(areas[..n], channel, a);
    }
  }

  lemma {:induction false} DistinctOnChannel(areas: seq<Area>, channel: int)
    requires DistinctIndexes(OnChannel(areas, channel))
    ensures OneEach(areas, channel)
  {
    if areas != [] {
      var n := |areas| - 1;
      var before := OnChannel(areas[..n], channel);
      if areas[n].channel == channel {
        assert OnChannel(areas, channel)[..|before|] == before;
        assert OnChannel(areas, channel) == before + [areas[n]];
        LastIsDistinct(areas, channel, before);
      }
      DistinctOnChannel(areas[..n], channel);
      forall i, j | 0 <= i < j < |areas| && areas[i].channel == channel && areas[j].channel == channel
        ensures areas[i].areaIndex != areas[j].areaIndex
      {
        assert areas[..n][i] == areas[i];
        if j < n {
          assert areas[..n][j] == areas[j];
        }
      }
    }
  }

  lemma LastIsDistinct(areas: seq<Area>, channel: int, before: seq<Area>)
    requires areas != [] && before == OnChannel(areas[..|areas| - 1], channel)
    requires DistinctIndexes(before + [areas[|areas| - 1]])
    ensures forall i :: 0 <= i < |areas| - 1 && areas[i].channel == channel ==>
              areas[i].areaIndex != areas[|areas| - 1].areaIndex
  {
    var n := |areas| - 1;
    forall i | 0 <= i < n && areas[i].channel == channel
      ensures areas[i].areaIndex != areas[n].areaIndex
    {
      assert areas[..n][i] == areas[i];
      OnChannelHolds(areas[..n], channel, areas[i]);
      var k :| 0 <= k < |before| && before[k] == areas[i];
      assert (before + [areas[n]])[k] == areas[i] && (before + [areas[n]])[|before|] == areas[n];
    }
  }

  lemma ChannelIsExactly(now: Configuration, channel: int, enabled: bool, wanted: seq<Area>)
    requires ChannelIs(channel, enabled, wanted, now)
    ensures HoldsExactly(now, channel, enabled, wanted)
  {
    var actual := OnChannel(now.areas, channel);
    FoundAt(now.channels, channel);
    DistinctOnChannel(now.areas, channel);
    forall a <- wanted
      ensures HeldBy(a, now, channel)
    {
      WantedIsHeld(now, channel, wanted, a);
    }
    forall b <- now.areas | b.channel == channel
      ensures Among(b, wanted)
    {
      HeldIsWanted(now, channel, wanted, b);
    }
  }

  lemma WantedIsHeld(now: Configuration, channel: int, wanted: seq<Area>, a: Area)
    requires EachMatched(wanted, OnChannel(now.areas, channel)) && a in wanted
    ensures HeldBy(a, now, channel)
  {
    var actual := OnChannel(now.areas, channel);
    var i :| 0 <= i < |wanted| && wanted[i] == a;
    assert FoundIn(wanted[i], actual);
    var k :| 0 <= k < |actual| && SameArea(a, actual[k]);
    assert actual[k] in actual;
  }

  lemma HeldIsWanted(now: Configuration, channel: int, wanted: seq<Area>, b: Area)
    requires EachWanted(wanted, OnChannel(now.areas, channel)) && b in now.areas && b.channel == channel
    ensures Among(b, wanted)
  {
    var actual := OnChannel(now.areas, channel);
    OnChannelHolds(now.areas, channel, b);
    var k :| 0 <= k < |actual| && actual[k] == b;
    assert WantedBy(actual[k], wanted);
    var i :| 0 <= i < |wanted| && SameArea(wanted[i], b);
    assert wanted[i] in wanted;
  }

  /** When an apply call succeeds, the camera holds that call's channel, flag and areas. */
  lemma AppliedMeansAsked(s: System, call: Event, events: seq<Event>, answer: Event, channel: int, now: Configuration)
    requires call.Apply? && IsChangeOf(s, call, events) && Possible(After(Next(s, call), events), answer)
    requires ApplySucceeded(channel, now) in Step(After(Next(s, call), events), answer).1
    ensures channel == call.channel
    ensures ReadConfiguration(After(Next(s, call), events).stored) == Some(now)
    ensures HoldsExactly(now, call.channel, call.enabled, call.areas)
  {
    SuccessOfCall(s, call, events, answer, channel, now);
    ApplyAsks(s.client, call);
    ChannelIsExactly(now, channel, call.enabled, call.areas);
  }

  lemma ApplyAsks(c: Client, call: Event)
    requires call.Apply? && GoalOf(c, call).Some?
    ensures
      var goal := GoalOf(c, call).value;
      goal.channel == call.channel && goal.enabled == call.enabled && goal.areas == call.areas
  {
  }

  lemma {:induction false} WithoutIndexHolds(areas: seq<Area>, areaIndex: int, a: Area)
    ensures a in WithoutIndex(areas, areaIndex) <==> a in areas && a.areaIndex != areaIndex
  {
    if areas != [] {
      var n := |areas| - 1;
      assert areas == areas[..n] + [areas[n]];
      WithoutIndexHolds(areas[..n], areaIndex, a);
    }
  }

  /** The rules of the channel that the client had last read, without the one of this index. */
  ghost predicate Remains(a: Area, read: Configuration, channel: int, areaIndex: int) {
    a in read.areas && a.channel == channel && a.areaIndex != areaIndex
  }

  /** The channel holds exactly the rules that remain, under an unchanged flag. */
  ghost predicate HoldsRemaining(now: Configuration, read: Configuration, channel: int, areaIndex: int) {
    && (exists enabled: bool :: HasFlag(read, channel, enabled) && HasFlag(now, channel, enabled))
    && (forall a <- read.areas :: Remains(a, read, channel, areaIndex) ==> HeldBy(a, now, channel))
    && (forall b <- now.areas :: b.channel == channel ==> StandsFor(b, read, channel, areaIndex))
    && OneEach(now.areas, channel)
  }

  ghost predicate StandsFor(b: Area, read: Configuration, channel: int, areaIndex: int) {
    exists a <- read.areas :: Remains(a, read, channel, areaIndex) && SameArea(a, b)
  }

  lemma DeleteAsks(c: Client, call: Event)
    requires call.DeleteArea? && GoalOf(c, call).Some?
    ensures c.configuration.Some?
    ensures
      var read, goal := c.configuration.value, GoalOf(c, call).value;
      && goal.channel == call.channel
      && goal.enabled == RawEnabled(ChannelObject(read, call.channel))
      && (forall a :: a in goal.areas <==> Remains(a, read, call.channel, call.areaIndex))
  {
    var read, goal := c.configuration.value, GoalOf(c, call).value;
    forall a
      ensures a in goal.areas <==> Remains(a, read, call.channel, call.areaIndex)
    {
      WithoutIndexHolds(OnChannel(read.areas, call.channel), call.areaIndex, a);
      if a in read.areas && a.channel == call.channel {
        OnChannelHolds(read.areas, call.channel, a);
      }
    }
  }

  /** A delete call that starts has read the flag of its channel, and asks for the same one. */
  lemma ReadHasFlag(s: System, call: Event)
    requires Reachable(s) && call.DeleteArea? && GoalOf(s.client, call).Some?
    ensures HasFlag(s.client.configuration.value, call.channel, GoalOf(s.client, call).value.enabled)
  {
    var read := s.client.configuration.value;
    ReachableIsWellRead(s);
    var document: Json.Value :| ParseDocument(document) == s.client.configuration;
    ParsedIsWellFormed(document);
    StartedGoal(s.client, call, GoalOf(s.client, call).value);
    FoundAt(read.channels, call.channel);
    var k :| 0 <= k < |read.channels| && IsFirst(read.channels, call.channel, k)
             && read.channels[k] == FindChannel(read.channels, call.channel).value;
    assert read.channels[k] in read.channels;
  }

  lemma ExactlyIsRemaining(now: Configuration, read: Configuration, channel: int, areaIndex: int, enabled: bool, wanted: seq<Area>)
    requires HoldsExactly(now, channel, enabled, wanted)
    requires forall a :: a in wanted <==> Remains(a, read, channel, areaIndex)
    requires HasFlag(read, channel, enabled)
    ensures HoldsRemaining(now, read, channel, areaIndex)
  {
    forall b <- now.areas | b.channel == channel
      ensures StandsFor(b, read, channel, areaIndex)
    {
      assert Among(b, wanted);
      var a :| a in wanted && SameArea(a, b);
      assert Remains(a, read, channel, areaIndex);
    }
  }

  /** When a delete call succeeds, the channel holds exactly the areas that the client had last read for
      it whose index is not the deleted one, and its flag is as it was read. */
  lemma DeletedMeansRemaining(s: System, call: Event, events: seq<Event>, answer: Event, channel: int, now: Configuration)
    requires call.DeleteArea? && IsChangeOf(s, call, events) && Possible(After(Next(s, call), events), answer)
    requires ApplySucceeded(channel, now) in Step(After(Next(s, call), events), answer).1
    ensures channel == call.channel && s.client.configuration.Some?
    ensures ReadConfiguration(After(Next(s, call), events).stored) == Some(now)
    ensures HoldsRemaining(now, s.client.configuration.value, call.channel, call.areaIndex)
  {
    SuccessOfCall(s, call, events, answer, channel, now);
    DeleteAsks(s.client, call);
    var read, goal := s.client.configuration.value, GoalOf(s.client, call).value;
    ChannelIsExactly(now, channel, goal.enabled, goal.areas);
    ReadHasFlag(s, call);
    ExactlyIsRemaining(now, read, channel, call.areaIndex, goal.enabled, goal.areas);
  }

  // ---------- a camera that deletes just that area ----------

  function Without<T>(items: seq<T>, j: nat): seq<T>
    requires j < |items|
  {
    items[..j] + items[j + 1..]
  }

  ghost predicate HasContainer(document: Json.Value, at: nat) {
    && document.Object? && "ivaArea" in document.fields && document.fields["ivaArea"].Array?
    && at < |document.fields["ivaArea"].items| && IsContainer(document.fields["ivaArea"].items[at])
  }

  function ContainerWithout(v: Json.Value, j: nat): Json.Value
    requires IsContainer(v) && j < |v.fields["definedArea"].items|
  {
    Json.Object(v.fields["definedArea" := Json.Array(Without(v.fields["definedArea"].items, j))])
  }

  /** The document without one definition of one container. */
  ghost function DocumentWithout(document: Json.Value, at: nat, j: nat): Json.Value
    requires HasContainer(document, at)
    requires j < |document.fields["ivaArea"].items[at].fields["definedArea"].items|
  {
    var items := document.fields["ivaArea"].items;
    Json.Object(document.fields["ivaArea" := Json.Array(items[at := ContainerWithout(items[at], j)])])
  }

  lemma WithoutFront<T>(a: seq<T>, b: seq<T>, j: nat)
    requires j < |a|
    ensures Without(a + b, j) == Without(a, j) + b
  {
  }

  lemma WithoutBack<T>(a: seq<T>, b: seq<T>, j: nat)
    requires j < |b|
    ensures Without(a + b, |a| + j) == a + Without(b, j)
  {
  }

  lemma OneMoreDefinition(items: seq<Json.Value>, v: Json.Value, channel: int32)
    ensures ParseDefinitions(items + [v], channel)
         == if ParseDefinitions(items, channel).None? || ParseDefinition(v, channel).None? then None
            else Some(ParseDefinitions(items, channel).value + [ParseDefinition(v, channel).value])
  {
    assert (items + [v])[..|items|] == items;
  }

  lemma {:induction false} DefinitionsWithout(items: seq<Json.Value>, channel: int32, j: nat)
    requires j < |items| && ParseDefinitions(items, channel).Some?
    ensures ParseDefinitions(Without(items, j), channel) == Some(Without(ParseDefinitions(items, channel).value, j))
  {
    var n := |items| - 1;
    var front, v := items[..n], items[n];
    assert items == front + [v];
    OneMoreDefinition(front, v, channel);
    var areas, area := ParseDefinitions(front, channel).value, ParseDefinition(v, channel).value;
    if j == n {
      assert Without(items, j) == front;
      assert Without(areas + [area], j) == areas;
    } else {
      DefinitionsWithout(front, channel, j);
      WithoutFront(front, [v], j);
      WithoutFront(areas, [area], j);
      OneMoreDefinition(Without(front, j), v, channel);
    }
  }

  ghost predicate SameHeads(a: seq<Channel>, b: seq<Channel>) {
    |a| == |b| && forall i :: 0 <= i < |a| ==> a[i].channel == b[i].channel && a[i].enabled == b[i].enabled
  }

  /** One area less, and otherwise the same configuration but for the raw container. */
  ghost predicate LacksOne(now: Configuration, read: Configuration, area: Area, p: nat) {
    p < |read.areas| && read.areas[p] == area && now.areas == Without(read.areas, p) && SameHeads(now.channels, read.channels)
  }

  ghost predicate Lacks(now: Configuration, read: Configuration, area: Area) {
    exists p: nat :: LacksOne(now, read, area, p)
  }

  lemma ShorterContainer(v: Json.Value, j: nat)
    requires IsContainer(v) && j < |v.fields["definedArea"].items|
    ensures IsContainer(ContainerWithout(v, j)) && ContainerChannel(ContainerWithout(v, j)) == ContainerChannel(v)
    ensures ContainerWithout(v, j).fields["enable"] == v.fields["enable"]
    ensures ContainerWithout(v, j).fields["definedArea"] == Json.Array(Without(v.fields["definedArea"].items, j))
  {
    assert "definedArea" != "channel" && "definedArea" != "enable";
  }

  lemma LastContainerWithout(before: Configuration, v: Json.Value, j: nat)
    requires IsContainer(v) && j < |v.fields["definedArea"].items| && ParseContainer(v, before).Some?
    ensures ParseContainer(ContainerWithout(v, j), before).Some?
    ensures ParseDefinition(v.fields["definedArea"].items[j], ContainerChannel(v)).Some?
    ensures LacksOne(ParseContainer(ContainerWithout(v, j), before).value, ParseContainer(v, before).value,
                     ParseDefinition(v.fields["definedArea"].items[j], ContainerChannel(v)).value, |before.areas| + j)
  {
    var items, channel := v.fields["definedArea"].items, ContainerChannel(v);
    ShorterContainer(v, j);
    DefinitionsWithout(items, channel, j);
    DefinitionsInOrder(items, channel, j);
    var areas := ParseDefinitions(items, channel).value;
    ParsedContainer(v, before, areas);
    ParsedContainer(ContainerWithout(v, j), before, Without(areas, j));
    ShorterLacks(before, Channel(channel, v.fields["enable"].b, v.fields),
                 Channel(channel, v.fields["enable"].b, ContainerWithout(v, j).fields), areas, j);
  }

  lemma ParsedContainer(v: Json.Value, before: Configuration, areas: seq<Area>)
    requires IsContainer(v) && ParseDefinitions(v.fields["definedArea"].items, ContainerChannel(v)) == Some(areas)
    ensures ParseContainer(v, before)
         == Some(Configuration(before.channels + [Channel(ContainerChannel(v), v.fields["enable"].b, v.fields)],
                               before.areas + areas))
  {
  }

  lemma ShorterLacks(before: Configuration, whole: Channel, shorter: Channel, areas: seq<Area>, j: nat)
    requires j < |areas| && whole.channel == shorter.channel && whole.enabled == shorter.enabled
    ensures LacksOne(Configuration(before.channels + [shorter], before.areas + Without(areas, j)),
                     Configuration(before.channels + [whole], before.areas + areas), areas[j], |before.areas| + j)
  {
    WithoutBack(before.areas, areas, j);
  }

  lemma NextContainerWithout(now: Configuration, read: Configuration, area: Area, p: nat, v: Json.Value)
    requires LacksOne(now, read, area, p) && ParseContainer(v, read).Some?
    ensures ParseContainer(v, now).Some?
    ensures LacksOne(ParseContainer(v, now).value, ParseContainer(v, read).value, area, p)
  {
    var areas := ParseDefinitions(v.fields["definedArea"].items, ContainerChannel(v)).value;
    WithoutFront(read.areas, areas, p);
  }

  lemma {:induction false} ContainersWithout(items: seq<Json.Value>, at: nat, j: nat)
    requires at < |items| && IsContainer(items[at]) && j < |items[at].fields["definedArea"].items|
    requires ParseContainers(items).Some?
    ensures ParseContainers(items[at := ContainerWithout(items[at], j)]).Some?
    ensures ParseDefinition(items[at].fields["definedArea"].items[j], ContainerChannel(items[at])).Some?
    ensures
      var area := ParseDefinition(items[at].fields["definedArea"].items[j], ContainerChannel(items[at])).value;
      Lacks(ParseContainers(items[at := ContainerWithout(items[at], j)]).value, ParseContainers(items).value, area)
  {
    var n := |items| - 1;
    var changed := items[at := ContainerWithout(items[at], j)];
    var before := ParseContainers(items[..n]).value;
    if at == n {
      assert changed[..n] == items[..n];
      LastContainerWithout(before, items[n], j);
    } else {
      assert changed[..n] == items[..n][at := ContainerWithout(items[at], j)];
      ContainersWithout(items[..n], at, j);
      var area := ParseDefinition(items[at].fields["definedArea"].items[j], ContainerChannel(items[at])).value;
      var p: nat :| LacksOne(ParseContainers(changed[..n]).value, before, area, p);
      NextContainerWithout(ParseContainers(changed[..n]).value, before, area, p, items[n]);
    }
  }

  lemma {:induction false} WithoutIndexOfConcat(a: seq<Area>, b: seq<Area>, areaIndex: int)
    ensures WithoutIndex(a + b, areaIndex) == WithoutIndex(a, areaIndex) + WithoutIndex(b, areaIndex)
  {
    if b == [] {
      assert a + b == a;
    } else {
      var n := |b| - 1;
      WithoutIndexOfConcat(a, b[..n], areaIndex);
      assert (a + b)[..|a + b| - 1] == a + b[..n];
    }
  }

  lemma {:induction false} WithoutForeignIndex(areas: seq<Area>, areaIndex: int)
    requires forall a <- areas :: a.areaIndex != areaIndex
    ensures WithoutIndex(areas, areaIndex) == areas
  {
    if areas != [] {
      var n := |areas| - 1;
      assert areas == areas[..n] + [areas[n]];
      WithoutForeignIndex(areas[..n], areaIndex);
    }
  }

  /** Of areas with different indexes, the one with the index is all that goes. */
  lemma WithoutTheArea(a: seq<Area>, area: Area, b: seq<Area>)
    requires DistinctIndexes(a + [area] + b)
    ensures WithoutIndex(a + [area] + b, area.areaIndex) == a + b
  {
    var all := a + [area] + b;
    assert all[|a|] == area;
    forall x <- a
      ensures x.areaIndex != area.areaIndex
    {
      var i :| 0 <= i < |a| && a[i] == x;
      assert all[i] == x;
    }
    forall x <- b
      ensures x.areaIndex != area.areaIndex
    {
      var i :| 0 <= i < |b| && b[i] == x;
      assert all[|a| + 1 + i] == x;
    }
    WithoutIndexOfConcat(a + [area], b, area.areaIndex);
    WithoutIndexOfConcat(a, [area], area.areaIndex);
    WithoutForeignIndex(a, area.areaIndex);
    WithoutForeignIndex(b, area.areaIndex);
    assert [area][..0] == [] && WithoutIndex([area], area.areaIndex) == [];
  }

  lemma LackingOnChannel(now: Configuration, read: Configuration, area: Area)
    requires Lacks(now, read, area) && DistinctIndexes(OnChannel(read.areas, area.channel))
    ensures OnChannel(now.areas, area.channel) == WithoutIndex(OnChannel(read.areas, area.channel), area.areaIndex)
  {
    var p: nat :| LacksOne(now, read, area, p);
    var channel := area.channel;
    var front, back := read.areas[..p], read.areas[p + 1..];
    assert read.areas == front + [area] + back;
    OnChannelOfConcat(front + [area], back, channel);
    OnChannelOfConcat(front, [area], channel);
    OnChannelOfConcat(front, back, channel);
    assert [area][..0] == [] && OnChannel([area], channel) == [area];
    WithoutTheArea(OnChannel(front, channel), area, OnChannel(back, channel));
  }

  lemma {:induction false} SameHeadsFound(a: seq<Channel>, b: seq<Channel>, channel: int)
    requires SameHeads(a, b)
    ensures FindChannel(a, channel).Some? <==> FindChannel(b, channel).Some?
    ensures FindChannel(a, channel).Some? ==> FindChannel(a, channel).value.enabled == FindChannel(b, channel).value.enabled
  {
    if a != [] && a[0].channel != channel {
      SameHeadsFound(a[1..], b[1..], channel);
    }
  }

  /** A document as the client read it, with one definition of this channel and this index. */
  ghost predicate Defines(document: Json.Value, at: nat, j: nat, channel: int, areaIndex: int) {
    && HasContainer(document, at)
    && var container := document.fields["ivaArea"].items[at];
    && ContainerChannel(container) == channel && j < |container.fields["definedArea"].items|
    && var area := ParseDefinition(container.fields["definedArea"].items[j], ContainerChannel(container));
    && area.Some? && area.value.areaIndex == areaIndex
  }

  lemma DocumentLacks(document: Json.Value, at: nat, j: nat, channel: int, areaIndex: int)
    requires Defines(document, at, j, channel, areaIndex) && ParseDocument(document).Some?
    ensures ParseDocument(DocumentWithout(document, at, j)).Some?
    ensures exists area: Area :: area.channel == channel && area.areaIndex == areaIndex
              && Lacks(ParseDocument(DocumentWithout(document, at, j)).value, ParseDocument(document).value, area)
  {
    var items := document.fields["ivaArea"].items;
    ContainersWithout(items, at, j);
    var area := ParseDefinition(items[at].fields["definedArea"].items[j], ContainerChannel(items[at])).value;
    assert Lacks(ParseDocument(DocumentWithout(document, at, j)).value, ParseDocument(document).value, area);
  }

  lemma RemainingMatches(s: System, call: Event, document: Json.Value, now: Configuration, area: Area)
    requires Reachable(s) && call.DeleteArea? && GoalOf(s.client, call).Some?
    requires s.client.configuration == ParseDocument(document)
    requires Lacks(now, s.client.configuration.value, area)
    requires area.channel == call.channel && area.areaIndex == call.areaIndex
    ensures ChannelMatches(IntendedPayload(GoalOf(s.client, call).value), now)
  {
    var read, goal := s.client.configuration.value, GoalOf(s.client, call).value;
    StartedGoal(s.client, call, goal);
    LackingOnChannel(now, read, area);
    var p: nat :| LacksOne(now, read, area, p);
    SameHeadsFound(now.channels, read.channels, call.channel);
    ParsedIsWellFormed(document);
    FoundIsListed(read.channels, call.channel);
    RemainingAreSame(read, goal.areas, call.channel, call.areaIndex);
    MatchMeansSameChannel(goal.channel, goal.enabled, goal.areas, now);
  }

  lemma RemainingAreSame(read: Configuration, areas: seq<Area>, channel: int, areaIndex: int)
    requires WellFormed(read) && areas == WithoutIndex(OnChannel(read.areas, channel), areaIndex)
    requires DistinctIndexes(areas) && forall i :: 0 <= i < |areas| ==> areas[i].areaIndex >= 0
    ensures SameAreas(areas, areas)
  {
    forall i | 0 <= i < |areas|
      ensures SameArea(areas[i], areas[i])
    {
      assert areas[i] in areas;
      WithoutIndexHolds(OnChannel(read.areas, channel), areaIndex, areas[i]);
      assert areas[i] in read.areas;
      Polygon.MatchesIsReflexive(areas[i].coordinates);
    }
    SameAsItself(areas);
  }

  /** A camera that removes just the area asked for from what the client had read makes the next
      verification succeed. */
  lemma ObedientCameraSucceeds(s: System, call: Event, events: seq<Event>, answer: Event,
                               document: Json.Value, at: nat, j: nat)
    requires call.DeleteArea? && IsChangeOf(s, call, events) && Possible(After(Next(s, call), events), answer)
    requires s.client.configuration == ParseDocument(document)
    requires Defines(document, at, j, call.channel, call.areaIndex)
    requires
      var end := After(Next(s, call), events);
      && end.client.kind == VerifyUpdate && answer.RequestSucceeds?
      && end.stored == Some(DocumentWithout(document, at, j))
    ensures exists now :: ApplySucceeded(call.channel, now) in Step(After(Next(s, call), events), answer).1
  {
    var end := After(Next(s, call), events);
    StartHasGoal(s, call);
    var goal := GoalOf(s.client, call).value;
    ReachedAgain(s, call);
    ReachedByRun(Next(s, call), events);
    ReachableIsSound(s);
    ReachableIsSound(end);
    StartKeeps(s, call, goal);
    StartedGrows(s, call);
    RunKeepsGoal(Next(s, call), events);
    StartedGoal(s.client, call, goal);
    DocumentLacks(document, at, j, call.channel, call.areaIndex);
    var now := ParseDocument(DocumentWithout(document, at, j)).value;
    var area: Area :| area.channel == call.channel && area.areaIndex == call.areaIndex
                      && Lacks(now, s.client.configuration.value, area);
    RemainingMatches(s, call, document, now, area);
    ReadStep(end, answer);
    assert ApplySucceeded(call.channel, now) in Step(end, answer).1;
  }
}

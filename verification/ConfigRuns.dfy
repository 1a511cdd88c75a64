/** The client object driven through a whole run: what its methods do, call after call. */
module ConfigRuns {
  import opened Text
  import opened ConfigClient
  import opened ConfigTransaction
  import opened ConfigOutcomes
  import opened WiseAiClientObject
  import Json

  /** One callback or call of the application; the result is what the camera holds afterwards. */
  method Handle(client: WiseAiConfigClient, stored: Option<Json.Value>, e: Event, ghost s: System)
    returns (after: Option<Json.Value>)
    requires client.View() == s.client && stored == s.stored && Possible(s, e)
    modifies client
    ensures client.View() == Next(s, e).client && after == Next(s, e).stored
    ensures client.outputs == old(client.outputs) + Step(s, e).1
  {
    after := stored;
    match e {
      case Apply(channel, enabled, areas) => client.ApplyChannelConfiguration(channel, enabled, areas);
      case DeleteArea(channel, areaIndex) => client.DeleteArea(channel, areaIndex);
      case Fetch => client.FetchFromCamera();
      case Timer => client.OnTimeout();
      case CameraStores(document) => after := document;
      case RequestFails => client.OnFinished(Failure);
      case RequestSucceeds(options, capabilities) => client.OnFinished(Success(options, capabilities, stored));
    }
  }

  /** From a new object on, any run of calls and callbacks leaves it in a sound state, and the signals
      it has emitted hold one success or failure for each call but the one under way. */
  method Drive(connectionValid: bool, stored: Option<Json.Value>, events: seq<Event>)
    returns (client: WiseAiConfigClient, after: Option<Json.Value>)
    requires Runs(Fresh(connectionValid, stored), events)
    ensures Sound(After(Fresh(connectionValid, stored), events))
    ensures client.View() == After(Fresh(connectionValid, stored), events).client
    ensures after == After(Fresh(connectionValid, stored), events).stored
    ensures Calls(events) == Finals(client.outputs) + if IsTransaction(client.requestKind) then 1 else 0
  {
    ghost var start := Fresh(connectionValid, stored);
    ghost var s := start;
    FreshIsSound(connectionValid, stored);
    client := new WiseAiConfigClient(connectionValid);
    after := stored;
    for i := 0 to |events|
      invariant Sound(s) && Runs(s, events[i..]) && After(s, events[i..]) == After(start, events)
      invariant client.View() == s.client && after == s.stored
      invariant fresh(client)
      invariant Calls(events) == Calls(events[i..]) + Finals(client.outputs) + Open(s)
    {
      assert events[i..][0] == events[i] && events[i..][1..] == events[i + 1..];
      ghost var before := client.outputs;
      after := Handle(client, after, events[i], s);
      FinalsOfConcat(before, Step(s, events[i]).1);
      StepSignals(s, events[i]);
      NextKeeps(s, events[i]);
      s := Next(s, events[i]);
    }
  }

  lemma {:induction false} FinalsOfConcat(a: seq<Output>, b: seq<Output>)
    ensures Finals(a + b) == Finals(a) + Finals(b)
    decreases |a|
  {
    if a == [] {
      assert a + b == b;
    } else {
      assert (a + b)[1..] == a[1..] + b;
      FinalsOfConcat(a[1..], b);
    }
  }
}

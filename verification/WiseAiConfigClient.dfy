/** The configuration client as an object whose fields the callbacks update in place. */
module WiseAiClientObject {
  import opened Text
  import opened AreaConfiguration
  import opened AreaPayload
  import opened ConfigClient
  import Json

  class WiseAiConfigClient {
    const connectionValid: bool
    var requestKind: Kind
    var replyPending: bool
    var timerActive: bool
    var pendingUpdate: Update
    var lastOptions: Option<seq<ChannelOptions>>
    var lastCapabilities: Option<seq<Capability>>
    var lastConfiguration: Option<Configuration>
    var outputs: seq<Output>

    ghost function View(): Client
      reads this
    {
      Client(connectionValid, requestKind, replyPending, timerActive, pendingUpdate,
             lastOptions, lastCapabilities, lastConfiguration)
    }

    constructor (connectionValid: bool)
      ensures View() == Client(connectionValid, NoRequest, false, false, NoUpdate, None, None, None)
      ensures outputs == []
    {
      this.connectionValid := connectionValid;
      requestKind, replyPending, timerActive, pendingUpdate := NoRequest, false, false, NoUpdate;
      lastOptions, lastCapabilities, lastConfiguration := None, None, None;
      outputs := [];
    }

    // ---------- requests ----------

    method StartGet(kind: Kind)
      modifies `requestKind, `replyPending, `outputs
      ensures View() == Send(old(View()), kind)
      ensures outputs == old(outputs) + [Get(kind)]
    {
      requestKind := kind;
      replyPending := true;
      outputs := outputs + [Get(kind)];
    }

    method StartPut(kind: Kind, payload: Json.Fields)
      modifies `requestKind, `replyPending, `outputs
      ensures View() == Send(old(View()), kind)
      ensures outputs == old(outputs) + [Put(kind, payload)]
    {
      requestKind := kind;
      replyPending := true;
      outputs := outputs + [Put(kind, payload)];
    }

    method StartDelete(channel: int, areaIndex: int)
      modifies `requestKind, `replyPending, `outputs
      ensures View() == Send(old(View()), DeleteUpdate)
      ensures outputs == old(outputs) + [Delete(channel, areaIndex)]
    {
      requestKind := DeleteUpdate;
      replyPending := true;
      outputs := outputs + [Delete(channel, areaIndex)];
    }

    method Schedule(kind: Kind)
      modifies `requestKind, `timerActive, `pendingUpdate
      ensures View() == ScheduleVerification(old(View()), kind)
    {
      pendingUpdate := pendingUpdate.(attempt := pendingUpdate.attempt + 1);
      requestKind := kind;
      timerActive := true;
    }

    /** The pause before a verification is over. */
    method OnTimeout()
      requires timerActive
      modifies `requestKind, `replyPending, `timerActive, `outputs
      ensures View() == TimerFires(old(View())).0
      ensures outputs == old(outputs) + TimerFires(old(View())).1
    {
      timerActive := false;
      var kind := requestKind;
      requestKind := NoRequest;
      StartGet(kind);
    }

    // ---------- calls of the application ----------

    method FetchFromCamera()
      modifies `requestKind, `replyPending, `outputs
      ensures View() == CallFetch(old(View())).0
      ensures outputs == old(outputs) + CallFetch(old(View())).1
    {
      if replyPending || timerActive || !connectionValid {
        outputs := outputs + [RequestFailed];
        return;
      }
      StartGet(FetchOptions);
    }

    /** Both payloads, once the channel's facts allow them. */
    method BuildPayloads(goal: Goal) returns (payloads: Option<(Json.Fields, Json.Fields)>)
      ensures payloads == match CheckedGoal(View(), goal)
                          case None => None
                          case Some(_) => Some((IntendedPayload(goal), RollbackPayload(goal)))
    {
      if lastOptions.None? || lastCapabilities.None? {
        return None;
      }
      var options := OptionsFor(lastOptions.value, goal.channel);
      var capability := CapabilityFor(lastCapabilities.value, goal.channel);
      if options.None? || capability.None? || !capability.value.ivaAreaSupported
         || capability.value.maxResolution.None? || goal.baselineRaw == map[] {
        return None;
      }
      var intended := BuildChannelPayload(goal.channel, goal.enabled, goal.areas, options.value,
                                          capability.value.maxResolution);
      if intended.None? {
        return None;
      }
      var rollback := BuildChannelPayload(goal.channel, goal.goodEnabled, goal.goodAreas, options.value,
                                          capability.value.maxResolution);
      if rollback.None? {
        return None;
      }
      return Some((intended.value, rollback.value));
    }

    method Begin(goal: Goal, payloads: (Json.Fields, Json.Fields))
      modifies `pendingUpdate
      requires payloads == (IntendedPayload(goal), RollbackPayload(goal))
      ensures View() == old(View()).(update := ConfigClient.Begin(old(View()), goal))
    {
      pendingUpdate := pendingUpdate.(channel := goal.channel);
      pendingUpdate := pendingUpdate.(baselineRaw := goal.baselineRaw);
      pendingUpdate := pendingUpdate.(intended := payloads.0);
      pendingUpdate := pendingUpdate.(rollback := payloads.1);
    }

    method Refuse(channel: int)
      modifies `outputs
      ensures View() == old(View()) && outputs == old(outputs) + [ApplyFailed(channel, false)]
    {
      outputs := outputs + [ApplyFailed(channel, false)];
    }

    method StartPreflight(channel: int)
      modifies `requestKind, `replyPending, `outputs
      ensures View() == Send(old(View()), PreflightConfiguration)
      ensures outputs == old(outputs) + [ApplyStarted(channel), Get(PreflightConfiguration)]
    {
      outputs := outputs + [ApplyStarted(channel)];
      StartGet(PreflightConfiguration);
    }

    method ApplyChannelConfiguration(channel: int32, enabled: bool, areas: seq<Area>)
      modifies this
      ensures View() == CallApply(old(View()), channel, enabled, areas).0
      ensures outputs == old(outputs) + CallApply(old(View()), channel, enabled, areas).1
    {
      if replyPending || timerActive || !connectionValid || lastConfiguration.None? {
        Refuse(channel);
        return;
      }
      var goal := GoodGoal(lastConfiguration.value, channel, enabled, areas);
      var payloads := BuildPayloads(goal);
      if payloads.None? || payloads.value.0 == payloads.value.1 {
        Refuse(channel);
        return;
      }
      Begin(goal, payloads.value);
      StartPreflight(channel);
    }

    /** One pass over the areas: those of the channel, those that remain, and whether the index was seen. */
    method SplitAreas(areas: seq<Area>, channel: int, areaIndex: int)
      returns (baseline: seq<Area>, remaining: seq<Area>, found: bool)
      ensures baseline == OnChannel(areas, channel)
      ensures remaining == WithoutIndex(baseline, areaIndex)
      ensures found <==> HasIndex(baseline, areaIndex)
    {
      baseline, remaining, found := [], [], false;
      for i := 0 to |areas|
        invariant baseline == OnChannel(areas[..i], channel)
        invariant remaining == WithoutIndex(baseline, areaIndex)
        invariant found <==> HasIndex(baseline, areaIndex)
      {
        OneMoreOnChannel(areas, i, channel);
        var area := areas[i];
        if area.channel == channel {
          OneMoreArea(baseline, area, areaIndex);
          baseline := baseline + [area];
          if area.areaIndex == areaIndex {
            found := true;
          } else {
            remaining := remaining + [area];
          }
        }
      }
      assert areas[..|areas|] == areas;
    }

    method DeleteArea(channel: int32, areaIndex: int32)
      modifies this
      ensures View() == CallDelete(old(View()), channel, areaIndex).0
      ensures outputs == old(outputs) + CallDelete(old(View()), channel, areaIndex).1
    {
      if replyPending || timerActive || !connectionValid || lastConfiguration.None? {
        Refuse(channel);
        return;
      }
      var baseline, remaining, found := SplitAreas(lastConfiguration.value.areas, channel, areaIndex);
      if !found {
        Refuse(channel);
        return;
      }
      var raw := ChannelObject(lastConfiguration.value, channel);
      var goal := Goal(channel, RawEnabled(raw), remaining, RawEnabled(raw), baseline, raw);
      var payloads := BuildPayloads(goal);
      if payloads.None? {
        Refuse(channel);
        return;
      }
      Begin(goal, payloads.value);
      pendingUpdate := pendingUpdate.(deletedAreaIndex := areaIndex);
      StartPreflight(channel);
    }

    // ---------- replies ----------

    method FinishApplyFailure(rollbackSucceeded: bool)
      modifies `pendingUpdate, `outputs
      ensures View() == FinishFailure(old(View()), rollbackSucceeded).0
      ensures outputs == old(outputs) + FinishFailure(old(View()), rollbackSucceeded).1
    {
      var channel := pendingUpdate.channel;
      pendingUpdate := NoUpdate;
      outputs := outputs + [ApplyFailed(channel, rollbackSucceeded)];
    }

    method ScheduleFirst(kind: Kind)
      modifies `requestKind, `timerActive, `pendingUpdate
      ensures View() == FirstVerification(old(View()), kind)
    {
      pendingUpdate := pendingUpdate.(attempt := 0);
      Schedule(kind);
    }

    method OnFailure(kind: Kind)
      modifies `requestKind, `timerActive, `pendingUpdate, `outputs
      ensures View() == ProcessFailure(old(View()), kind).0
      ensures outputs == old(outputs) + ProcessFailure(old(View()), kind).1
    {
      match kind {
        case FetchOptions | FetchCapabilities | FetchConfiguration =>
          outputs := outputs + [RequestFailed];
        case PutUpdate | DeleteUpdate =>
          ScheduleFirst(VerifyUpdate);
        case _ =>
          FinishApplyFailure(false);
      }
    }

    method Remember(configuration: Configuration)
      modifies `lastConfiguration, `outputs
      ensures View() == Store(old(View()), configuration)
      ensures outputs == old(outputs) + [ConfigurationReceived(configuration)]
    {
      lastConfiguration := Some(configuration);
      outputs := outputs + [ConfigurationReceived(configuration)];
    }

    method OnPreflight(configuration: Configuration)
      modifies this
      ensures View() == ProcessPreflight(old(View()), configuration).0
      ensures outputs == old(outputs) + ProcessPreflight(old(View()), configuration).1
    {
      var current := ChannelObject(configuration, pendingUpdate.channel);
      if current == map[] || current != pendingUpdate.baselineRaw {
        Remember(configuration);
        FinishApplyFailure(false);
      } else if pendingUpdate.deletedAreaIndex >= 0 {
        StartDelete(pendingUpdate.channel, pendingUpdate.deletedAreaIndex);
      } else {
        StartPut(PutUpdate, pendingUpdate.intended);
      }
    }

    method OnVerifyUpdate(configuration: Configuration)
      modifies this
      ensures View() == ProcessVerifyUpdate(old(View()), configuration).0
      ensures outputs == old(outputs) + ProcessVerifyUpdate(old(View()), configuration).1
    {
      var same := PayloadMatchesChannel(pendingUpdate.intended, configuration);
      if same {
        var channel := pendingUpdate.channel;
        lastConfiguration := Some(configuration);
        pendingUpdate := NoUpdate;
        outputs := outputs + [ConfigurationReceived(configuration), ApplySucceeded(channel, configuration)];
      } else if pendingUpdate.attempt < 3 {
        Schedule(VerifyUpdate);
      } else {
        StartPut(PutRollback, pendingUpdate.rollback);
      }
    }

    method OnVerifyRollback(configuration: Configuration)
      modifies this
      ensures View() == ProcessVerifyRollback(old(View()), configuration).0
      ensures outputs == old(outputs) + ProcessVerifyRollback(old(View()), configuration).1
    {
      var same := PayloadMatchesChannel(pendingUpdate.rollback, configuration);
      if same {
        Remember(configuration);
        FinishApplyFailure(true);
      } else if pendingUpdate.attempt < 3 {
        Schedule(VerifyRollback);
      } else {
        FinishApplyFailure(false);
      }
    }

    method OnDocument(kind: Kind, configuration: Configuration)
      modifies this
      ensures View() == ProcessDocument(old(View()), kind, configuration).0
      ensures outputs == old(outputs) + ProcessDocument(old(View()), kind, configuration).1
    {
      if kind == FetchConfiguration {
        Remember(configuration);
        return;
      }
      var known := HasFacts(pendingUpdate.channel);
      if !known {
        FinishApplyFailure(false);
        return;
      }
      match kind {
        case PreflightConfiguration => OnPreflight(configuration);
        case VerifyUpdate => OnVerifyUpdate(configuration);
        case VerifyRollback => OnVerifyRollback(configuration);
        case _ =>
      }
    }

    method HasFacts(channel: int) returns (known: bool)
      ensures known <==> ChannelFacts(View(), channel).Some?
    {
      if lastOptions.None? || lastCapabilities.None? {
        return false;
      }
      var options := OptionsFor(lastOptions.value, channel);
      var capability := CapabilityFor(lastCapabilities.value, channel);
      return options.Some? && capability.Some? && capability.value.ivaAreaSupported
             && capability.value.maxResolution.Some?;
    }

    method OnSuccess(kind: Kind, reply: Reply)
      requires reply.Success?
      modifies this
      ensures View() == ProcessSuccess(old(View()), kind, reply).0
      ensures outputs == old(outputs) + ProcessSuccess(old(View()), kind, reply).1
    {
      match kind {
        case FetchOptions => OnOptions(reply);
        case FetchCapabilities => OnCapabilities(reply);
        case PutUpdate | DeleteUpdate => ScheduleFirst(VerifyUpdate);
        case PutRollback => ScheduleFirst(VerifyRollback);
        case _ =>
          var configuration := None;
          if reply.document.Some? {
            configuration := Parse(reply.document.value);
          }
          if configuration.None? {
            OnFailure(kind);
          } else {
            OnDocument(kind, configuration.value);
          }
      }
    }

    method OnOptions(reply: Reply)
      requires reply.Success?
      modifies this
      ensures View() == ProcessSuccess(old(View()), FetchOptions, reply).0
      ensures outputs == old(outputs) + ProcessSuccess(old(View()), FetchOptions, reply).1
    {
      if reply.options.None? {
        outputs := outputs + [RequestFailed];
        return;
      }
      lastOptions := reply.options;
      outputs := outputs + [OptionsReceived];
      StartGet(FetchCapabilities);
    }

    method OnCapabilities(reply: Reply)
      requires reply.Success?
      modifies this
      ensures View() == ProcessSuccess(old(View()), FetchCapabilities, reply).0
      ensures outputs == old(outputs) + ProcessSuccess(old(View()), FetchCapabilities, reply).1
    {
      if reply.capabilities.None? {
        outputs := outputs + [RequestFailed];
        return;
      }
      lastCapabilities := reply.capabilities;
      outputs := outputs + [CapabilitiesReceived];
      StartGet(FetchConfiguration);
    }

    /** A request has finished, with or without a usable answer. */
    method OnFinished(reply: Reply)
      modifies this
      ensures View() == FinishRequest(old(View()), reply).0
      ensures outputs == old(outputs) + FinishRequest(old(View()), reply).1
    {
      var kind, pending := requestKind, replyPending;
      replyPending := false;
      requestKind := NoRequest;
      if !pending {
        return;
      }
      if reply.Failure? {
        OnFailure(kind);
      } else {
        OnSuccess(kind, reply);
      }
    }
  }
}

/** What the user sees of the alarms: the mark of each channel, the dialog that asks for
    confirmation, and the announcements of changes, over every run. */
module FireAlarms {
  import opened FireEventAdapter
  import opened FireLedger
  import opened FireSafety

  // ---------- the mark of a channel ----------

  datatype Mark = Quiet | Open(id: string) | Acked(id: string)

  function MarkOf(s: FireState, channel: string): Mark {
    if channel !in s.fireAlarms then Quiet
    else if s.fireAlarms[channel].acknowledged then Acked(s.fireAlarms[channel].alarmId)
    else Open(s.fireAlarms[channel].alarmId)
  }

  /** How a message without a revision moves the mark of its channel. */
  function Moved(mark: Mark, action: Action, id: string, retained: bool): Mark {
    match action
    case Activate => if mark == Acked(id) then mark else Open(id)
    case Acknowledge =>
      if mark == Quiet then if retained then Acked(id) else Quiet
      else if mark.id == id then Acked(id) else mark
    case Clear => if mark != Quiet && mark.id != id then mark else Quiet
    case _ => mark
  }

  function MarkAfter(mark: Mark, ds: seq<Delivery>, channel: string): Mark {
    if ds == [] then mark
    else
      var d := ds[|ds| - 1];
      var before := MarkAfter(mark, ds[..|ds| - 1], channel);
      if d.Channel() == channel then Moved(before, d.event.action, d.event.alarmId, d.retained) else before
  }

  lemma LegacyStepMovesMark(s: FireState, d: Delivery)
    requires AlarmsAreSound(s) && Validated(d.event) && !d.Revisioned() && d.Channel() !in s.book.ledgers
    ensures MarkOf(Deliver(s, d).0, d.Channel())
         == Moved(MarkOf(s, d.Channel()), d.event.action, d.event.alarmId, d.retained)
    ensures d.Channel() !in Deliver(s, d).0.book.ledgers
  {
    DeliverShows(s, d);
  }

  lemma OtherMarksStay(s: FireState, d: Delivery, channel: string)
    requires AlarmsAreSound(s) && Validated(d.event) && channel != d.Channel()
    ensures MarkOf(Deliver(s, d).0, channel) == MarkOf(s, channel)
    ensures channel in Deliver(s, d).0.book.ledgers <==> channel in s.book.ledgers
  {
    OtherChannelsAreUntouched(s, d, channel);
    DeliveryKeepsAlarmsSound(s, d);
  }

  /** In a run without revisions on a channel, its mark follows the messages one by one, whatever happens
      on the others: an activation opens, an acknowledgement or a clear counts only for the alarm shown,
      and only a retained acknowledgement raises an alarm nobody has seen. */
  lemma {:induction false} LegacyRunFollowsMarks(s: FireState, ds: seq<Delivery>, channel: string)
    requires AlarmsAreSound(s) && channel !in s.book.ledgers
    requires forall d <- ds :: Validated(d.event) && (d.Channel() == channel ==> !d.Revisioned())
    ensures MarkOf(Run(s, ds), channel) == MarkAfter(MarkOf(s, channel), ds, channel)
    ensures channel !in Run(s, ds).book.ledgers
  {
    if ds != [] {
      var front, d := ds[..|ds| - 1], ds[|ds| - 1];
      LegacyRunFollowsMarks(s, front, channel);
      RunKeepsAlarmsSound(s, front);
      assert d in ds;
      if d.Channel() == channel {
        LegacyStepMovesMark(Run(s, front), d);
      } else {
        OtherMarksStay(Run(s, front), d, channel);
      }
    }
  }

  // ---------- the dialog ----------

  /** The alarm that the dialog of a channel asks about after these effects; `Quiet` is a closed dialog. */
  function Dialog(before: Mark, effects: seq<Effect>, channel: string): Mark {
    if effects == [] then before
    else
      var o := effects[|effects| - 1];
      if o.ConfirmationRequested? && o.channel == channel then Open(o.alarmId)
      else if o == ConfirmationClosed(channel) then Quiet
      else Dialog(before, effects[..|effects| - 1], channel)
  }

  lemma {:induction false} DialogOfConcat(before: Mark, a: seq<Effect>, b: seq<Effect>, channel: string)
    ensures Dialog(before, a + b, channel) == Dialog(Dialog(before, a, channel), b, channel)
  {
    if b == [] {
      assert a + b == a;
    } else {
      DialogOfConcat(before, a, b[..|b| - 1], channel);
      assert (a + b)[..|a + b| - 1] == a + b[..|b| - 1];
    }
  }

  lemma {:induction false} DialogStays(before: Mark, effects: seq<Effect>, channel: string)
    requires forall o <- effects :: o != ConfirmationClosed(channel) && !(o.ConfirmationRequested? && o.channel == channel)
    ensures Dialog(before, effects, channel) == before
  {
    if effects != [] {
      assert effects[|effects| - 1] in effects;
      DialogStays(before, effects[..|effects| - 1], channel);
    }
  }

  /** An alarm that waits for its confirmation. */
  function Waiting(mark: Mark): Mark {
    if mark.Open? then mark else Quiet
  }

  lemma ActivationAsks(s: FireState, e: FireEvent, revisioned: bool)
    requires AlarmsAreSound(s) && Validated(e) && e.action == Activate
    ensures Dialog(Waiting(MarkOf(s, e.channelId)), Activated(s, e, revisioned).1, e.channelId)
         == Waiting(MarkOf(Activated(s, e, revisioned).0, e.channelId))
  {
    var before := Waiting(MarkOf(s, e.channelId));
    var (next, effects) := Activated(s, e, revisioned);
    var request := ConfirmationRequested(e.channelId, e.alarmId);
    if request in effects {
      assert effects[|effects| - 1] == request;
    } else {
      DialogStays(before, effects, e.channelId);
    }
  }

  lemma ClosingCloses(before: Mark, effects: seq<Effect>, channel: string)
    requires effects == [ConfirmationClosed(channel)] || effects == [ConfirmationClosed(channel), StateChanged]
    ensures Dialog(before, effects, channel) == Quiet
  {
    if |effects| == 2 {
      assert effects[..1] == [ConfirmationClosed(channel)];
    }
  }

  lemma ActionMovesDialog(s: FireState, e: FireEvent, revisioned: bool)
    requires AlarmsAreSound(s) && Validated(e)
    ensures Dialog(Waiting(MarkOf(s, e.channelId)), ApplyAction(s, e, revisioned).1, e.channelId)
         == Waiting(MarkOf(ApplyAction(s, e, revisioned).0, e.channelId))
  {
    if e.action == Activate {
      ActivationAsks(s, e, revisioned);
    } else {
      ClosingCloses(Waiting(MarkOf(s, e.channelId)), ApplyAction(s, e, revisioned).1, e.channelId);
    }
  }

  predicate Concerns(o: Effect, channel: string) {
    o == ConfirmationClosed(channel) || (o.ConfirmationRequested? && o.channel == channel)
  }

  lemma HistoryHasNoDialog(s: FireState, e: FireEvent, record: bool, channel: string)
    ensures forall o <- MaybeLogHistory(s, e, record).1 :: !Concerns(o, channel)
    ensures MarkOf(MaybeLogHistory(s, e, record).0, channel) == MarkOf(s, channel)
  {
  }

  lemma ActMovesDialog(booked: FireState, d: Delivery, verdict: Verdict)
    requires AlarmsAreSound(booked) && Validated(d.event)
    ensures Dialog(Waiting(MarkOf(booked, d.Channel())), Act(booked, d, verdict).1, d.Channel())
         == Waiting(MarkOf(Act(booked, d, verdict).0, d.Channel()))
  {
    var channel := d.Channel();
    var before := Waiting(MarkOf(booked, channel));
    if !verdict.accepted || (verdict.applyState && !verdict.revisioned && MismatchesShownAlarm(booked, d)) {
      DialogStays(before, [ContractError(channel)], channel);
    } else if !verdict.applyState {
      HistoryHasNoDialog(booked, d.event, verdict.recordHistory, channel);
      DialogStays(before, Act(booked, d, verdict).1, channel);
    } else {
      var (applied, effects) := ApplyAction(booked, d.event, verdict.revisioned);
      var history := MaybeLogHistory(applied, d.event, verdict.recordHistory).1;
      ActionMovesDialog(booked, d.event, verdict.revisioned);
      HistoryHasNoDialog(applied, d.event, verdict.recordHistory, channel);
      DialogOfConcat(before, effects, history, channel);
      DialogStays(Waiting(MarkOf(applied, channel)), history, channel);
    }
  }

  lemma OtherDialogsStay(s: FireState, d: Delivery, channel: string)
    requires channel != d.Channel()
    ensures forall o <- Deliver(s, d).1 :: !Concerns(o, channel)
  {
  }

  lemma DeliveryMovesDialog(s: FireState, d: Delivery, channel: string)
    requires AlarmsAreSound(s) && Validated(d.event)
    ensures Dialog(Waiting(MarkOf(s, channel)), Deliver(s, d).1, channel) == Waiting(MarkOf(Deliver(s, d).0, channel))
  {
    if d.Channel() == channel {
      var (book, verdict) := Preflight(s.book, d);
      ActMovesDialog(s.(book := book), d, verdict);
    } else {
      OtherDialogsStay(s, d, channel);
      DialogStays(Waiting(MarkOf(s, channel)), Deliver(s, d).1, channel);
      OtherMarksStay(s, d, channel);
    }
  }

  function DialogAfter(s: FireState, ds: seq<Delivery>, channel: string): Mark {
    if ds == [] then Waiting(MarkOf(s, channel))
    else Dialog(DialogAfter(s, ds[..|ds| - 1], channel), Deliver(Run(s, ds[..|ds| - 1]), ds[|ds| - 1]).1, channel)
  }

  /** Over any run of valid messages, the dialog of a channel asks about an alarm exactly while that
      alarm is shown and not acknowledged. */
  lemma {:induction false} DialogAsksForWaiting(s: FireState, ds: seq<Delivery>, channel: string)
    requires AlarmsAreSound(s) && forall d <- ds :: Validated(d.event)
    ensures DialogAfter(s, ds, channel) == Waiting(MarkOf(Run(s, ds), channel))
  {
    if ds != [] {
      DialogAsksForWaiting(s, ds[..|ds| - 1], channel);
      RunKeepsAlarmsSound(s, ds[..|ds| - 1]);
      DeliveryMovesDialog(Run(s, ds[..|ds| - 1]), ds[|ds| - 1], channel);
    }
  }

  // ---------- announcements ----------

  lemma ActionAnnounces(s: FireState, e: FireEvent, revisioned: bool)
    requires AlarmsAreSound(s) && Validated(e)
    ensures
      var (next, effects) := ApplyAction(s, e, revisioned);
      StateChanged in effects <==> next.fireAlarms != s.fireAlarms
  {
    var (next, effects) := ApplyAction(s, e, revisioned);
    if e.channelId in s.fireAlarms {
      assert e.channelId in s.fireChannels;
    }
  }

  /** A change is announced exactly when the alarms have changed. */
  lemma ChangesAreAnnounced(s: FireState, d: Delivery)
    requires AlarmsAreSound(s) && Validated(d.event)
    ensures StateChanged in Deliver(s, d).1 <==> Deliver(s, d).0.fireAlarms != s.fireAlarms
  {
    var (book, verdict) := Preflight(s.book, d);
    ActionAnnounces(s.(book := book), d.event, verdict.revisioned);
  }

  // ---------- acknowledgement commands ----------

  /** A pending acknowledgement command is dropped exactly when its alarm stops waiting: it is
      acknowledged, cleared, or replaced by another one. */
  lemma CommandsEndWithAlarms(s: FireState, e: FireEvent, revisioned: bool, key: (string, string))
    requires AlarmsAreSound(s) && Validated(e)
    ensures
      var next := ApplyAction(s, e, revisioned).0;
      key in next.ackKeys
      <==> key in s.ackKeys
           && (key.0 != e.channelId
               || match e.action
                  case Activate => key.1 == e.alarmId || MarkOf(s, e.channelId) == Quiet || MarkOf(s, e.channelId).id != key.1
                  case Acknowledge => key.1 != e.alarmId
                  case _ => key.1 != e.alarmId && (MarkOf(s, e.channelId) == Quiet || MarkOf(s, e.channelId).id != key.1))
  {
  }
}

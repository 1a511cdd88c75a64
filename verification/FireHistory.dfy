/** The event history: exactly which deliveries are logged, over every run. */
module FireHistory {
  import opened Text
  import opened FireEventAdapter
  import opened FireLedger
  import opened FireSafety
  import opened FireConvergence
  import Seen = SeenEvents

  // ---------- what a run logs ----------

  /** The entries for the history among the effects, in order. */
  function HistoryOf(effects: seq<Effect>): seq<Effect> {
    if effects == [] then []
    else
      var before := HistoryOf(effects[..|effects| - 1]);
      if effects[|effects| - 1].HistoryLogged? then before + [effects[|effects| - 1]] else before
  }

  /** The ids a run has logged, in order. */
  function LoggedIds(s: FireState, ds: seq<Delivery>): seq<string> {
    if ds == [] then []
    else LoggedIds(s, ds[..|ds| - 1]) + IdsOf(HistoryOf(Deliver(Run(s, ds[..|ds| - 1]), ds[|ds| - 1]).1))
  }

  function IdsOf(entries: seq<Effect>): seq<string>
    ensures |IdsOf(entries)| == |entries|
  {
    seq(|entries|, i requires 0 <= i < |entries| => if entries[i].HistoryLogged? then entries[i].id else "")
  }

  lemma {:induction false} HistoryOfConcat(a: seq<Effect>, b: seq<Effect>)
    ensures HistoryOf(a + b) == HistoryOf(a) + HistoryOf(b)
  {
    if b == [] {
      assert a + b == a;
    } else {
      HistoryOfConcat(a, b[..|b| - 1]);
      assert (a + b)[..|a + b| - 1] == a + b[..|b| - 1];
    }
  }

  lemma {:induction false} NoHistory(effects: seq<Effect>)
    requires forall o <- effects :: !o.HistoryLogged?
    ensures HistoryOf(effects) == []
  {
    if effects != [] {
      assert effects[|effects| - 1] in effects;
      NoHistory(effects[..|effects| - 1]);
    }
  }

  // ---------- one delivery ----------

  /** The delivery is not answered with an error. */
  ghost predicate Taken(s: FireState, d: Delivery) {
    ContractError(d.Channel()) !in Deliver(s, d).1
  }

  /** The entry of a delivery, unless its id is among those remembered. */
  function EntryFor(s: FireState, e: FireEvent): seq<Effect> {
    if HistoryId(e) in s.seen.order then [] else [HistoryLogged(HistoryId(e), e.channelId, e.action)]
  }

  lemma OneEntry(entry: Effect)
    requires entry.HistoryLogged?
    ensures HistoryOf([entry]) == [entry] && IdsOf([entry]) == [entry.id]
    ensures HistoryOf([]) == [] && IdsOf([]) == []
  {
    assert [entry][..0] == [];
  }

  lemma LoggingLogs(s: FireState, e: FireEvent)
    requires Seen.Valid(s.seen)
    ensures LogHistory(s, e).1 == EntryFor(s, e) == HistoryOf(LogHistory(s, e).1)
    ensures LogHistory(s, e).0.seen.order == Seen.LastWindow(s.seen.order + IdsOf(EntryFor(s, e)))
  {
    var id := HistoryId(e);
    IdIsNonempty(e);
    Seen.RememberedOrder(s.seen, id);
    OneEntry(HistoryLogged(id, e.channelId, e.action));
    if id in s.seen.order {
      assert EntryFor(s, e) == [];
    } else {
      assert EntryFor(s, e) == [HistoryLogged(id, e.channelId, e.action)];
    }
  }

  lemma IdIsNonempty(e: FireEvent)
    ensures HistoryId(e) != ""
  {
    if e.eventId == "" {
      assert (e.channelId + "|" + e.alarmId + "|" + e.eventType + "|" + e.alarmState)[|e.channelId|] == '|';
    }
  }

  lemma ActionHasNoHistory(s: FireState, e: FireEvent, revisioned: bool)
    ensures HistoryOf(ApplyAction(s, e, revisioned).1) == []
    ensures ContractError(e.channelId) !in ApplyAction(s, e, revisioned).1
    ensures ApplyAction(s, e, revisioned).0.seen == s.seen
  {
    NoHistory(ApplyAction(s, e, revisioned).1);
  }

  /** Taken deliveries that ask for it are logged, and no others. */
  lemma ActHistory(booked: FireState, d: Delivery, verdict: Verdict)
    requires Seen.Valid(booked.seen)
    ensures
      var (next, effects) := Act(booked, d, verdict);
      var refused := ContractError(d.Channel()) in effects;
      var entries := if verdict.recordHistory && !refused then EntryFor(booked, d.event) else [];
      && HistoryOf(effects) == entries
      && next.seen.order == Seen.LastWindow(booked.seen.order + IdsOf(entries))
      && (refused <==> !verdict.accepted || (verdict.applyState && !verdict.revisioned && MismatchesShownAlarm(booked, d)))
  {
    assert IdsOf([]) == [] && booked.seen.order + [] == booked.seen.order;
    if !verdict.accepted || (verdict.applyState && !verdict.revisioned && MismatchesShownAlarm(booked, d)) {
      NoHistory([ContractError(d.Channel())]);
    } else if !verdict.applyState {
      LoggingLogs(booked, d.event);
    } else {
      var (applied, effects) := ApplyAction(booked, d.event, verdict.revisioned);
      ActionHasNoHistory(booked, d.event, verdict.revisioned);
      LoggingLogs(applied, d.event);
      HistoryOfConcat(effects, MaybeLogHistory(applied, d.event, verdict.recordHistory).1);
    }
  }

  lemma DeliveryHistory(s: FireState, d: Delivery)
    requires Seen.Valid(s.seen)
    ensures
      var entries := if Verdicts(s, d).recordHistory && Taken(s, d) then EntryFor(s, d.event) else [];
      && HistoryOf(Deliver(s, d).1) == entries
      && Deliver(s, d).0.seen.order == Seen.LastWindow(s.seen.order + IdsOf(entries))
    ensures d.Revisioned() ==> (Taken(s, d) <==> Verdicts(s, d).accepted)
  {
    var (book, verdict) := Preflight(s.book, d);
    ActHistory(s.(book := book), d, verdict);
  }

  lemma DeliveryKeepsSeen(s: FireState, d: Delivery)
    requires Seen.Valid(s.seen)
    ensures Seen.Valid(Deliver(s, d).0.seen)
  {
    Seen.RememberKeepsValid(s.seen, HistoryId(d.event));
  }

  lemma {:induction false} RunKeepsSeen(s: FireState, ds: seq<Delivery>)
    requires Seen.Valid(s.seen)
    ensures Seen.Valid(Run(s, ds).seen)
  {
    if ds != [] {
      RunKeepsSeen(s, ds[..|ds| - 1]);
      DeliveryKeepsSeen(Run(s, ds[..|ds| - 1]), ds[|ds| - 1]);
    }
  }

  /** What is remembered are the last 256 ids that were logged. */
  lemma {:induction false} MemoryIsWhatWasLogged(s: FireState, ds: seq<Delivery>)
    requires Seen.Valid(s.seen)
    ensures Run(s, ds).seen.order == Seen.LastWindow(s.seen.order + LoggedIds(s, ds))
  {
    if ds == [] {
      assert s.seen.order + [] == s.seen.order;
    } else {
      var front, d := ds[..|ds| - 1], ds[|ds| - 1];
      var before := Run(s, front);
      MemoryIsWhatWasLogged(s, front);
      RunKeepsSeen(s, front);
      DeliveryHistory(before, d);
      WindowGrows(s.seen.order, LoggedIds(s, front), IdsOf(HistoryOf(Deliver(before, d).1)));
    }
  }

  lemma WindowGrows(start: seq<string>, ids: seq<string>, more: seq<string>)
    ensures Seen.LastWindow(Seen.LastWindow(start + ids) + more) == Seen.LastWindow(start + (ids + more))
  {
    Seen.WindowOfWindow(start + ids, more);
    assert start + ids + more == start + (ids + more);
  }

  // ---------- which deliveries are logged ----------

  /** The k-th delivery of the run is one of the revision that is not answered with an error. */
  ghost predicate TakenAt(s: FireState, ds: seq<Delivery>, k: nat, channel: string)
    requires k < |ds|
  {
    ds[k].Revisioned() && ds[k].Channel() == channel && Taken(Run(s, ds[..k]), ds[k])
  }

  ghost predicate TakenRevision(s: FireState, ds: seq<Delivery>, k: nat, channel: string, revision: nat)
    requires k < |ds|
  {
    TakenAt(s, ds, k, channel) && ds[k].event.revision == revision
  }

  ghost predicate TakenEvent(s: FireState, ds: seq<Delivery>, k: nat, channel: string, revision: nat)
    requires k < |ds|
  {
    TakenRevision(s, ds, k, channel, revision) && !ds[k].StateOnly()
  }

  /** No taken delivery of the channel has a higher revision. */
  ghost predicate NoneAbove(s: FireState, ds: seq<Delivery>, channel: string, revision: nat) {
    forall k :: 0 <= k < |ds| && TakenAt(s, ds, k, channel) ==> ds[k].event.revision <= revision
  }

  ghost predicate SomeTaken(s: FireState, ds: seq<Delivery>, channel: string, revision: nat) {
    exists k :: 0 <= k < |ds| && TakenRevision(s, ds, k, channel, revision)
  }

  /** A taken delivery of the revision came as an event, not as mere state. */
  ghost predicate SomeEvent(s: FireState, ds: seq<Delivery>, channel: string, revision: nat) {
    exists k :: 0 <= k < |ds| && TakenEvent(s, ds, k, channel, revision)
  }

  ghost predicate LedgerRecords(ledger: Ledger, s: FireState, ds: seq<Delivery>, channel: string) {
    && ledger.versionedSeen
    && NoneAbove(s, ds, channel, ledger.lastApplied)
    && SomeTaken(s, ds, channel, ledger.lastApplied)
    && (ledger.historyRecorded <==> SomeEvent(s, ds, channel, ledger.lastApplied))
  }

  ghost predicate NoneTaken(s: FireState, ds: seq<Delivery>, channel: string) {
    forall k :: 0 <= k < |ds| ==> !TakenAt(s, ds, k, channel)
  }

  /** The ledger of a channel, if it has one, tells what was taken for it. */
  ghost predicate Records(s: FireState, ds: seq<Delivery>, channel: string) {
    var book := Run(s, ds).book;
    if channel in book.ledgers then LedgerRecords(book.ledgers[channel], s, ds, channel)
    else NoneTaken(s, ds, channel)
  }

  lemma TakenInPrefix(s: FireState, ds: seq<Delivery>, n: nat, k: nat, channel: string)
    requires k < n <= |ds|
    ensures TakenAt(s, ds[..n], k, channel) <==> TakenAt(s, ds, k, channel)
    ensures ds[..n][k] == ds[k]
  {
    assert ds[..n][..k] == ds[..k];
  }

  lemma RevisionInPrefix(s: FireState, ds: seq<Delivery>, n: nat, k: nat, channel: string, revision: nat)
    requires k < n <= |ds|
    ensures TakenRevision(s, ds[..n], k, channel, revision) <==> TakenRevision(s, ds, k, channel, revision)
    ensures TakenEvent(s, ds[..n], k, channel, revision) <==> TakenEvent(s, ds, k, channel, revision)
  {
    TakenInPrefix(s, ds, n, k, channel);
  }

  /** What one more delivery adds to what was taken. */
  lemma OneMoreTaken(s: FireState, ds: seq<Delivery>, channel: string, revision: nat)
    requires ds != []
    ensures
      var n := |ds| - 1;
      && (NoneAbove(s, ds, channel, revision)
          <==> NoneAbove(s, ds[..n], channel, revision) && (TakenAt(s, ds, n, channel) ==> ds[n].event.revision <= revision))
      && (SomeTaken(s, ds, channel, revision)
          <==> SomeTaken(s, ds[..n], channel, revision) || TakenRevision(s, ds, n, channel, revision))
      && (SomeEvent(s, ds, channel, revision)
          <==> SomeEvent(s, ds[..n], channel, revision) || TakenEvent(s, ds, n, channel, revision))
      && (NoneTaken(s, ds, channel) <==> NoneTaken(s, ds[..n], channel) && !TakenAt(s, ds, n, channel))
  {
    NoneSplits(s, ds, channel, revision);
    TakenSplits(s, ds, channel, revision);
    EventSplits(s, ds, channel, revision);
  }

  lemma NoneSplits(s: FireState, ds: seq<Delivery>, channel: string, revision: nat)
    requires ds != []
    ensures
      var n := |ds| - 1;
      && (NoneAbove(s, ds, channel, revision)
          <==> NoneAbove(s, ds[..n], channel, revision) && (TakenAt(s, ds, n, channel) ==> ds[n].event.revision <= revision))
      && (NoneTaken(s, ds, channel) <==> NoneTaken(s, ds[..n], channel) && !TakenAt(s, ds, n, channel))
  {
    var n := |ds| - 1;
    forall k | 0 <= k < n
      ensures TakenAt(s, ds[..n], k, channel) <==> TakenAt(s, ds, k, channel)
      ensures ds[..n][k] == ds[k]
    {
      TakenInPrefix(s, ds, n, k, channel);
    }
  }

  lemma TakenSplits(s: FireState, ds: seq<Delivery>, channel: string, revision: nat)
    requires ds != []
    ensures SomeTaken(s, ds, channel, revision)
       <==> SomeTaken(s, ds[..|ds| - 1], channel, revision) || TakenRevision(s, ds, |ds| - 1, channel, revision)
  {
    var n := |ds| - 1;
    if SomeTaken(s, ds, channel, revision) {
      var k :| 0 <= k < |ds| && TakenRevision(s, ds, k, channel, revision);
      if k < n {
        RevisionInPrefix(s, ds, n, k, channel, revision);
      }
    }
    if SomeTaken(s, ds[..n], channel, revision) {
      var k :| 0 <= k < n && TakenRevision(s, ds[..n], k, channel, revision);
      RevisionInPrefix(s, ds, n, k, channel, revision);
    }
  }

  lemma EventSplits(s: FireState, ds: seq<Delivery>, channel: string, revision: nat)
    requires ds != []
    ensures SomeEvent(s, ds, channel, revision)
       <==> SomeEvent(s, ds[..|ds| - 1], channel, revision) || TakenEvent(s, ds, |ds| - 1, channel, revision)
  {
    var n := |ds| - 1;
    if SomeEvent(s, ds, channel, revision) {
      var k :| 0 <= k < |ds| && TakenEvent(s, ds, k, channel, revision);
      if k < n {
        RevisionInPrefix(s, ds, n, k, channel, revision);
      }
    }
    if SomeEvent(s, ds[..n], channel, revision) {
      var k :| 0 <= k < n && TakenEvent(s, ds[..n], k, channel, revision);
      RevisionInPrefix(s, ds, n, k, channel, revision);
    }
  }

  /** What an accepted revisioned delivery does to its ledger. */
  lemma OwnLedgerMoves(book: Book, d: Delivery)
    requires d.Revisioned() && Preflight(book, d).1.accepted
    requires d.Channel() in book.ledgers ==> book.ledgers[d.Channel()].versionedSeen
    ensures d.Channel() in Preflight(book, d).0.ledgers
    ensures
      var next := Preflight(book, d).0.ledgers[d.Channel()];
      && next.versionedSeen
      && (if d.Channel() in book.ledgers && d.event.revision < book.ledgers[d.Channel()].lastApplied
          then next == book.ledgers[d.Channel()] && !Preflight(book, d).1.recordHistory
          else if d.Channel() in book.ledgers && d.event.revision == book.ledgers[d.Channel()].lastApplied
          then next.lastApplied == d.event.revision
               && (next.historyRecorded <==> book.ledgers[d.Channel()].historyRecorded || !d.StateOnly())
               && (Preflight(book, d).1.recordHistory <==> !book.ledgers[d.Channel()].historyRecorded && !d.StateOnly())
          else next.lastApplied == d.event.revision
               && (next.historyRecorded <==> !d.StateOnly())
               && (Preflight(book, d).1.recordHistory <==> !d.StateOnly()))
  {
    if d.Channel() in book.ledgers && d.event.revision == book.ledgers[d.Channel()].lastApplied {
      assert Preflight(book, d) == PreflightAgain(book, d, book.ledgers[d.Channel()]);
    } else if d.Channel() !in book.ledgers || d.event.revision > book.ledgers[d.Channel()].lastApplied {
      assert Preflight(book, d) == PreflightNew(book, d);
    }
  }

  lemma UntakenKeepsBook(book: Book, d: Delivery)
    requires !d.Revisioned() || !Preflight(book, d).1.accepted
    ensures Preflight(book, d).0 == book
  {
  }

  lemma LastRecords(s: FireState, ds: seq<Delivery>, channel: string)
    requires Seen.Valid(s.seen) && ds != [] && Records(s, ds[..|ds| - 1], channel)
    ensures Records(s, ds, channel)
  {
    var n := |ds| - 1;
    var before, d := Run(s, ds[..n]), ds[n];
    RunKeepsSeen(s, ds[..n]);
    DeliveryHistory(before, d);
    BookAfter(before, d);
    var book, next := before.book, Run(s, ds).book;
    assert next == Preflight(book, d).0;
    if TakenAt(s, ds, n, channel) {
      OwnLedgerMoves(book, d);
      TakenRecords(s, ds, channel);
    } else {
      UntakenRecords(s, ds, channel);
    }
  }

  lemma UntakenRecords(s: FireState, ds: seq<Delivery>, channel: string)
    requires ds != [] && Records(s, ds[..|ds| - 1], channel) && !TakenAt(s, ds, |ds| - 1, channel)
    requires
      var before, d := Run(s, ds[..|ds| - 1]), ds[|ds| - 1];
      d.Revisioned() ==> (Taken(before, d) <==> Verdicts(before, d).accepted)
    ensures Records(s, ds, channel)
  {
    var n := |ds| - 1;
    var before, d := Run(s, ds[..n]), ds[n];
    BookAfter(before, d);
    if d.Channel() != channel {
      PreflightKeepsOtherLedgers(before.book, d, channel);
    } else {
      UntakenKeepsBook(before.book, d);
    }
    if channel in before.book.ledgers {
      OneMoreTaken(s, ds, channel, before.book.ledgers[channel].lastApplied);
    } else {
      OneMoreTaken(s, ds, channel, 0);
    }
  }

  lemma TakenRecords(s: FireState, ds: seq<Delivery>, channel: string)
    requires ds != [] && Records(s, ds[..|ds| - 1], channel) && TakenAt(s, ds, |ds| - 1, channel)
    requires Verdicts(Run(s, ds[..|ds| - 1]), ds[|ds| - 1]).accepted
    ensures Records(s, ds, channel)
  {
    var n := |ds| - 1;
    var before, d := Run(s, ds[..n]), ds[n];
    var r := d.event.revision;
    BookAfter(before, d);
    OwnLedgerMoves(before.book, d);
    OneMoreTaken(s, ds, channel, r);
    if channel in before.book.ledgers {
      var last := before.book.ledgers[channel].lastApplied;
      OneMoreTaken(s, ds, channel, last);
      if last < r {
        NothingAbove(s, ds[..n], channel, last, r);
      }
    } else {
      NothingOf(s, ds[..n], channel, r);
    }
  }

  lemma NothingAbove(s: FireState, ds: seq<Delivery>, channel: string, last: nat, revision: nat)
    requires NoneAbove(s, ds, channel, last) && last < revision
    ensures NoneAbove(s, ds, channel, revision) && !SomeEvent(s, ds, channel, revision)
  {
  }

  lemma NothingOf(s: FireState, ds: seq<Delivery>, channel: string, revision: nat)
    requires NoneTaken(s, ds, channel)
    ensures NoneAbove(s, ds, channel, revision) && !SomeEvent(s, ds, channel, revision)
  {
  }

  lemma {:induction false} RunRecords(s: FireState, ds: seq<Delivery>, channel: string)
    requires s.book == EmptyBook && Seen.Valid(s.seen)
    ensures Records(s, ds, channel)
  {
    if ds != [] {
      RunRecords(s, ds[..|ds| - 1], channel);
      LastRecords(s, ds, channel);
    }
  }

  // ---------- the theorems ----------

  /** The ids that were logged last, as many as are remembered. */
  function Recent(s: FireState, ds: seq<Delivery>): seq<string> {
    Seen.LastWindow(s.seen.order + LoggedIds(s, ds))
  }

  /** What makes a revisioned message that follows a run an entry of the history: it is taken and is an
      event, no newer revision and no event of the same one was taken before, and its id is not recent. */
  ghost predicate IsNews(s: FireState, ds: seq<Delivery>, d: Delivery) {
    && Taken(Run(s, ds), d) && !d.StateOnly()
    && NoneAbove(s, ds, d.Channel(), d.event.revision)
    && !SomeEvent(s, ds, d.Channel(), d.event.revision)
    && d.event.eventId !in Recent(s, ds)
  }

  /** Whatever the senders do, a revisioned message is logged, once and under its own id, channel and
      action, exactly when it is news. */
  lemma LoggedExactly(s: FireState, ds: seq<Delivery>, d: Delivery)
    requires s.book == EmptyBook && Seen.Valid(s.seen) && d.Revisioned() && d.event.eventId != ""
    ensures HistoryOf(Deliver(Run(s, ds), d).1)
         == if IsNews(s, ds, d) then [HistoryLogged(d.event.eventId, d.event.channelId, d.event.action)] else []
  {
    var before := Run(s, ds);
    RunKeepsSeen(s, ds);
    MemoryIsWhatWasLogged(s, ds);
    DeliveryHistory(before, d);
    RunRecords(s, ds, d.Channel());
    if Taken(before, d) {
      OwnLedgerMoves(before.book, d);
      AskedExactly(s, ds, d);
    }
  }

  lemma AskedExactly(s: FireState, ds: seq<Delivery>, d: Delivery)
    requires Records(s, ds, d.Channel()) && d.Revisioned() && Verdicts(Run(s, ds), d).accepted
    ensures Verdicts(Run(s, ds), d).recordHistory
       <==> !d.StateOnly() && NoneAbove(s, ds, d.Channel(), d.event.revision)
            && !SomeEvent(s, ds, d.Channel(), d.event.revision)
  {
    var book, channel, r := Run(s, ds).book, d.Channel(), d.event.revision;
    OwnLedgerMoves(book, d);
    if channel in book.ledgers {
      var last := book.ledgers[channel].lastApplied;
      if last < r {
        NothingAbove(s, ds, channel, last, r);
      } else if r < last {
        var k :| 0 <= k < |ds| && TakenRevision(s, ds, k, channel, last);
        assert TakenAt(s, ds, k, channel);
      }
    } else {
      NothingOf(s, ds, channel, r);
    }
  }

  /** A message without a revision is logged exactly when it is taken as an event and its id is not recent. */
  lemma LegacyLoggedExactly(s: FireState, ds: seq<Delivery>, d: Delivery)
    requires Seen.Valid(s.seen) && !d.Revisioned()
    ensures HistoryOf(Deliver(Run(s, ds), d).1)
         == if Taken(Run(s, ds), d) && !d.StateOnly() && HistoryId(d.event) !in Recent(s, ds)
            then [HistoryLogged(HistoryId(d.event), d.event.channelId, d.event.action)] else []
  {
    RunKeepsSeen(s, ds);
    MemoryIsWhatWasLogged(s, ds);
    DeliveryHistory(Run(s, ds), d);
    if Taken(Run(s, ds), d) {
      LegacyAsks(Run(s, ds), d);
    }
  }

  lemma LegacyAsks(s: FireState, d: Delivery)
    requires !d.Revisioned() && Taken(s, d)
    ensures Verdicts(s, d).recordHistory <==> !d.StateOnly()
  {
  }

  /** The first event of its revision, before any newer revision. */
  predicate IsFirstEvent(ds: seq<Delivery>, k: nat)
    requires k < |ds|
  {
    && ds[k].Revisioned() && !ds[k].StateOnly()
    && forall i :: 0 <= i < k && ds[i].Revisioned() && ds[i].Channel() == ds[k].Channel() ==>
         ds[i].event.revision <= ds[k].event.revision
         && (ds[i].event.revision == ds[k].event.revision ==> ds[i].StateOnly())
  }

  ghost predicate IsEntry(s: FireState, ds: seq<Delivery>, k: nat)
    requires k < |ds|
  {
    IsFirstEvent(ds, k) && ds[k].event.eventId !in Recent(s, ds[..k])
  }

  lemma {:induction false} LoggedIsCount(effects: seq<Effect>)
    ensures Logged(effects) == |HistoryOf(effects)|
  {
    if effects != [] {
      LoggedIsCount(effects[..|effects| - 1]);
    }
  }

  ghost predicate IsHonest(s: FireState, ds: seq<Delivery>) {
    && s.book == EmptyBook && Seen.Valid(s.seen) && Consistent(ds)
    && forall d <- ds :: d.Revisioned() ==> d.event.eventId != ""
  }

  lemma HonestIsTaken(s: FireState, ds: seq<Delivery>, k: nat)
    requires IsHonest(s, ds) && k < |ds| && ds[k].Revisioned()
    ensures Taken(Run(s, ds[..k]), ds[k])
  {
    HonestRunsAreAccepted(s, ds, k);
    RunKeepsSeen(s, ds[..k]);
    DeliveryHistory(Run(s, ds[..k]), ds[k]);
  }

  lemma HonestNews(s: FireState, ds: seq<Delivery>, k: nat)
    requires IsHonest(s, ds) && k < |ds| && ds[k].Revisioned()
    ensures IsNews(s, ds[..k], ds[k]) <==> IsEntry(s, ds, k)
  {
    HonestIsTaken(s, ds, k);
    forall i | 0 <= i < k
      ensures TakenAt(s, ds[..k], i, ds[k].Channel()) <==> ds[i].Revisioned() && ds[i].Channel() == ds[k].Channel()
      ensures ds[..k][i] == ds[i]
    {
      assert ds[..k][..i] == ds[..i];
      if ds[i].Revisioned() {
        HonestIsTaken(s, ds, i);
      }
    }
    HonestEvents(s, ds, k);
  }

  lemma HonestEvents(s: FireState, ds: seq<Delivery>, k: nat)
    requires k < |ds|
    requires forall i :: 0 <= i < k ==>
               (TakenAt(s, ds[..k], i, ds[k].Channel()) <==> ds[i].Revisioned() && ds[i].Channel() == ds[k].Channel())
    ensures SomeEvent(s, ds[..k], ds[k].Channel(), ds[k].event.revision)
       <==> exists i :: 0 <= i < k && ds[i].Revisioned() && ds[i].Channel() == ds[k].Channel()
                        && ds[i].event.revision == ds[k].event.revision && !ds[i].StateOnly()
  {
    if i :| 0 <= i < k && ds[i].Revisioned() && ds[i].Channel() == ds[k].Channel()
            && ds[i].event.revision == ds[k].event.revision && !ds[i].StateOnly() {
      assert TakenEvent(s, ds[..k], i, ds[k].Channel(), ds[k].event.revision);
    }
  }

  ghost predicate IsEntryOf(s: FireState, ds: seq<Delivery>, k: nat, channel: string, revision: nat)
    requires k < |ds|
  {
    ds[k].Channel() == channel && ds[k].event.revision == revision && IsEntry(s, ds, k)
  }

  ghost predicate HasEntry(s: FireState, ds: seq<Delivery>, channel: string, revision: nat) {
    exists k :: 0 <= k < |ds| && IsEntryOf(s, ds, k, channel, revision)
  }

  lemma {:induction false} HonestLogs(s: FireState, ds: seq<Delivery>, channel: string, revision: nat)
    requires IsHonest(s, ds)
    ensures HistoryLogs(s, ds, channel, revision) > 0 <==> HasEntry(s, ds, channel, revision)
  {
    if ds != [] {
      var n := |ds| - 1;
      assert forall d <- ds[..n] :: d in ds;
      HonestLogs(s, ds[..n], channel, revision);
      EntrySplits(s, ds, channel, revision);
      var effects := Deliver(Run(s, ds[..n]), ds[n]).1;
      LoggedIsCount(effects);
      if ds[n].Revisioned() {
        assert ds[n] in ds;
        LoggedExactly(s, ds[..n], ds[n]);
        HonestNews(s, ds, n);
      }
    }
  }

  lemma EntryInPrefix(s: FireState, ds: seq<Delivery>, n: nat, k: nat, channel: string, revision: nat)
    requires k < n <= |ds|
    ensures IsEntryOf(s, ds[..n], k, channel, revision) <==> IsEntryOf(s, ds, k, channel, revision)
  {
    assert ds[..n][..k] == ds[..k];
  }

  lemma EntrySplits(s: FireState, ds: seq<Delivery>, channel: string, revision: nat)
    requires ds != []
    ensures HasEntry(s, ds, channel, revision)
       <==> HasEntry(s, ds[..|ds| - 1], channel, revision) || IsEntryOf(s, ds, |ds| - 1, channel, revision)
  {
    var n := |ds| - 1;
    if HasEntry(s, ds[..n], channel, revision) {
      var k :| 0 <= k < n && IsEntryOf(s, ds[..n], k, channel, revision);
      EntryInPrefix(s, ds, n, k, channel, revision);
    }
    if HasEntry(s, ds, channel, revision) {
      var k :| 0 <= k < |ds| && IsEntryOf(s, ds, k, channel, revision);
      if k < n {
        EntryInPrefix(s, ds, n, k, channel, revision);
      }
    }
  }

  /** In a consistent log a revision has exactly one entry in the history if one of its messages is its
      first event, comes before every newer revision, and has an id that is not recent; and none otherwise. */
  lemma HonestHistory(s: FireState, ds: seq<Delivery>, channel: string, revision: nat)
    requires IsHonest(s, ds)
    ensures HistoryLogs(s, ds, channel, revision) == if HasEntry(s, ds, channel, revision) then 1 else 0
  {
    HonestLogs(s, ds, channel, revision);
    HistoryAtMostOnce(s, ds, channel, revision);
  }

  // ---------- the newest taken revision is the one shown ----------

  /** Every taken delivery of the revision says this. */
  ghost predicate AllSay(s: FireState, ds: seq<Delivery>, channel: string, revision: nat, state: StateIdentity) {
    forall k :: 0 <= k < |ds| && TakenRevision(s, ds, k, channel, revision) ==> ds[k].State() == state
  }

  ghost predicate StateOfNewest(s: FireState, ds: seq<Delivery>, channel: string) {
    var book := Run(s, ds).book;
    channel in book.ledgers ==>
      AllSay(s, ds, channel, book.ledgers[channel].lastApplied, book.ledgers[channel].state)
  }

  lemma AllSaySplits(s: FireState, ds: seq<Delivery>, channel: string, revision: nat, state: StateIdentity)
    requires ds != []
    ensures
      var n := |ds| - 1;
      AllSay(s, ds, channel, revision, state)
      <==> AllSay(s, ds[..n], channel, revision, state)
           && (TakenRevision(s, ds, n, channel, revision) ==> ds[n].State() == state)
  {
    var n := |ds| - 1;
    forall k | 0 <= k < n
      ensures TakenRevision(s, ds[..n], k, channel, revision) <==> TakenRevision(s, ds, k, channel, revision)
      ensures ds[..n][k] == ds[k]
    {
      TakenInPrefix(s, ds, n, k, channel);
    }
  }

  lemma NobodySays(s: FireState, ds: seq<Delivery>, channel: string, last: nat, revision: nat, state: StateIdentity)
    requires NoneAbove(s, ds, channel, last) && last < revision
    ensures AllSay(s, ds, channel, revision, state)
  {
  }

  lemma NothingSaid(s: FireState, ds: seq<Delivery>, channel: string, revision: nat, state: StateIdentity)
    requires NoneTaken(s, ds, channel)
    ensures AllSay(s, ds, channel, revision, state)
  {
  }

  lemma OwnStateMoves(book: Book, d: Delivery)
    requires d.Revisioned() && Preflight(book, d).1.accepted
    requires d.Channel() in book.ledgers ==> book.ledgers[d.Channel()].versionedSeen
    ensures d.Channel() in Preflight(book, d).0.ledgers
    ensures
      var next := Preflight(book, d).0.ledgers[d.Channel()];
      if d.Channel() in book.ledgers && d.event.revision < book.ledgers[d.Channel()].lastApplied
      then next == book.ledgers[d.Channel()]
      else next.state == d.State() && next.lastApplied == d.event.revision
           && (d.Channel() in book.ledgers && d.event.revision == book.ledgers[d.Channel()].lastApplied ==>
                 next.state == book.ledgers[d.Channel()].state)
  {
    if d.Channel() in book.ledgers && d.event.revision == book.ledgers[d.Channel()].lastApplied {
      assert Preflight(book, d) == PreflightAgain(book, d, book.ledgers[d.Channel()]);
    } else if d.Channel() !in book.ledgers || d.event.revision > book.ledgers[d.Channel()].lastApplied {
      assert Preflight(book, d) == PreflightNew(book, d);
    }
  }

  lemma LastKeepsState(s: FireState, ds: seq<Delivery>, channel: string)
    requires Seen.Valid(s.seen) && ds != []
    requires Records(s, ds[..|ds| - 1], channel) && StateOfNewest(s, ds[..|ds| - 1], channel)
    ensures StateOfNewest(s, ds, channel)
  {
    var n := |ds| - 1;
    var before, d := Run(s, ds[..n]), ds[n];
    RunKeepsSeen(s, ds[..n]);
    DeliveryHistory(before, d);
    BookAfter(before, d);
    var next := Run(s, ds).book;
    if channel in next.ledgers {
      AllSaySplits(s, ds, channel, next.ledgers[channel].lastApplied, next.ledgers[channel].state);
    }
    if TakenAt(s, ds, n, channel) {
      TakenKeepsState(s, ds, channel);
    } else if d.Channel() != channel {
      PreflightKeepsOtherLedgers(before.book, d, channel);
    } else {
      UntakenKeepsBook(before.book, d);
    }
  }

  lemma TakenKeepsState(s: FireState, ds: seq<Delivery>, channel: string)
    requires ds != [] && Records(s, ds[..|ds| - 1], channel) && StateOfNewest(s, ds[..|ds| - 1], channel)
    requires TakenAt(s, ds, |ds| - 1, channel) && Verdicts(Run(s, ds[..|ds| - 1]), ds[|ds| - 1]).accepted
    ensures StateOfNewest(s, ds, channel)
  {
    var n := |ds| - 1;
    var before, d := Run(s, ds[..n]), ds[n];
    BookAfter(before, d);
    OwnStateMoves(before.book, d);
    var ledger := Run(s, ds).book.ledgers[channel];
    AllSaySplits(s, ds, channel, ledger.lastApplied, ledger.state);
    if channel !in before.book.ledgers {
      NothingSaid(s, ds[..n], channel, ledger.lastApplied, ledger.state);
    } else if before.book.ledgers[channel].lastApplied < d.event.revision {
      NobodySays(s, ds[..n], channel, before.book.ledgers[channel].lastApplied, ledger.lastApplied, ledger.state);
    }
  }

  lemma {:induction false} RunKeepsState(s: FireState, ds: seq<Delivery>, channel: string)
    requires s.book == EmptyBook && Seen.Valid(s.seen)
    ensures StateOfNewest(s, ds, channel)
  {
    if ds != [] {
      RunKeepsState(s, ds[..|ds| - 1], channel);
      RunRecords(s, ds[..|ds| - 1], channel);
      LastKeepsState(s, ds, channel);
    }
  }

  /** Whatever the senders do, a channel shows what the taken message with its highest revision says. */
  lemma NewestTakenIsShown(s: FireState, ds: seq<Delivery>, k: nat)
    requires s.book == EmptyBook && Seen.Valid(s.seen)
    requires forall d <- ds :: d.Revisioned() ==> IsFireAction(d.event.action)
    requires k < |ds| && TakenAt(s, ds, k, ds[k].Channel()) && NoneAbove(s, ds, ds[k].Channel(), ds[k].event.revision)
    ensures EntryOf(Run(s, ds), ds[k].Channel()) == Meaning(ds[k].State())
  {
    var channel := ds[k].Channel();
    RunRecords(s, ds, channel);
    RunKeepsState(s, ds, channel);
    RunShowsLedgers(s, ds);
    var ledger := Run(s, ds).book.ledgers[channel];
    var j :| 0 <= j < |ds| && TakenRevision(s, ds, j, channel, ledger.lastApplied);
    assert TakenAt(s, ds, j, channel);
    assert TakenRevision(s, ds, k, channel, ledger.lastApplied);
  }
}

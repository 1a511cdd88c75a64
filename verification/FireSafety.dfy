/** What holds of the revision ledger and of the shown alarms over every run,
    whatever the senders do. */
module FireSafety {
  import opened FireEventAdapter
  import opened FireLedger

  // ---------- ledgers are never lost, revisions only grow ----------

  /** Every booked ledger has seen a revision, and knows the event of the
      revision it last applied. */
  ghost predicate WellKept(book: Book) {
    forall c <- book.ledgers ::
      var ledger := book.ledgers[c];
      && ledger.versionedSeen
      && ledger.state.eventId in ledger.eventById
      && ledger.eventById[ledger.state.eventId] == EventIdentity(ledger.lastApplied, ledger.state)
  }

  /** A later ledger: the same revision with at least as much remembered, or a newer one. */
  ghost predicate Extends(later: Ledger, earlier: Ledger) {
    && later.versionedSeen
    && (forall id <- earlier.eventById :: id in later.eventById && later.eventById[id] == earlier.eventById[id])
    && earlier.lastApplied <= later.lastApplied
    && (later.lastApplied == earlier.lastApplied ==>
          && later.state == earlier.state
          && (earlier.historyRecorded ==> later.historyRecorded)
          && (forall k <- earlier.deliveryIdBySink :: earlier.deliveryIdBySink[k] != "" ==>
                k in later.deliveryIdBySink && later.deliveryIdBySink[k] == earlier.deliveryIdBySink[k]))
  }

  ghost predicate BookExtends(later: Book, earlier: Book) {
    && (forall c <- earlier.ledgers :: c in later.ledgers && Extends(later.ledgers[c], earlier.ledgers[c]))
    && (forall k <- earlier.deliveries :: k in later.deliveries && later.deliveries[k] == earlier.deliveries[k])
  }

  lemma ExtendsIsTransitive(a: Book, b: Book, c: Book)
    requires BookExtends(b, a) && BookExtends(c, b)
    ensures BookExtends(c, a)
  {
    forall ch <- a.ledgers
      ensures ch in c.ledgers && Extends(c.ledgers[ch], a.ledgers[ch])
    {
      assert Extends(b.ledgers[ch], a.ledgers[ch]) && Extends(c.ledgers[ch], b.ledgers[ch]);
    }
  }

  lemma OwnLedgerIsWellKept(book: Book, d: Delivery)
    requires WellKept(book) && d.Channel() in Preflight(book, d).0.ledgers
    ensures
      var ledger := Preflight(book, d).0.ledgers[d.Channel()];
      && ledger.versionedSeen
      && ledger.state.eventId in ledger.eventById
      && ledger.eventById[ledger.state.eventId] == EventIdentity(ledger.lastApplied, ledger.state)
  {
  }

  lemma PreflightKeepsWellKept(book: Book, d: Delivery)
    requires WellKept(book)
    ensures WellKept(Preflight(book, d).0)
  {
    var next := Preflight(book, d).0;
    forall c <- next.ledgers
      ensures next.ledgers[c].versionedSeen && next.ledgers[c].state.eventId in next.ledgers[c].eventById
      ensures next.ledgers[c].eventById[next.ledgers[c].state.eventId]
              == EventIdentity(next.ledgers[c].lastApplied, next.ledgers[c].state)
    {
      if c == d.Channel() {
        OwnLedgerIsWellKept(book, d);
      } else {
        PreflightKeepsOtherLedgers(book, d, c);
      }
    }
  }

  lemma PreflightOnlyAddsDeliveries(book: Book, d: Delivery)
    ensures forall k <- book.deliveries ::
              k in Preflight(book, d).0.deliveries && Preflight(book, d).0.deliveries[k] == book.deliveries[k]
  {
  }

  lemma PreflightExtendsBook(book: Book, d: Delivery)
    requires WellKept(book)
    ensures BookExtends(Preflight(book, d).0, book)
  {
    var next := Preflight(book, d).0;
    PreflightOnlyAddsDeliveries(book, d);
    forall c <- book.ledgers
      ensures c in next.ledgers && Extends(next.ledgers[c], book.ledgers[c])
    {
      if c == d.Channel() {
        OwnLedgerExtends(book, d);
      } else {
        PreflightKeepsOtherLedgers(book, d, c);
      }
    }
  }

  lemma PreflightKeepsBook(book: Book, d: Delivery)
    requires WellKept(book)
    ensures WellKept(Preflight(book, d).0)
    ensures BookExtends(Preflight(book, d).0, book)
  {
    PreflightKeepsWellKept(book, d);
    PreflightExtendsBook(book, d);
  }

  lemma OwnLedgerExtends(book: Book, d: Delivery)
    requires WellKept(book) && d.Channel() in book.ledgers
    ensures d.Channel() in Preflight(book, d).0.ledgers
    ensures Extends(Preflight(book, d).0.ledgers[d.Channel()], book.ledgers[d.Channel()])
  {
  }

  /** Over any run, booked ledgers and fingerprints are only ever extended. */
  lemma {:induction false} RunKeepsBook(s: FireState, ds: seq<Delivery>)
    requires WellKept(s.book)
    ensures WellKept(Run(s, ds).book)
    ensures BookExtends(Run(s, ds).book, s.book)
  {
    if ds != [] {
      var before := Run(s, ds[..|ds| - 1]);
      RunKeepsBook(s, ds[..|ds| - 1]);
      BookAfter(before, ds[|ds| - 1]);
      PreflightKeepsBook(before.book, ds[|ds| - 1]);
      ExtendsIsTransitive(s.book, before.book, Run(s, ds).book);
    }
  }

  /** The revisions of a channel that changed the shown alarm, in order. */
  function AppliedRevisions(s: FireState, ds: seq<Delivery>, channel: string): seq<nat> {
    if ds == [] then []
    else
      var earlier := AppliedRevisions(s, ds[..|ds| - 1], channel);
      var d := ds[|ds| - 1];
      var verdict := Verdicts(Run(s, ds[..|ds| - 1]), d);
      if d.Channel() == channel && d.Revisioned() && verdict.applyState then earlier + [d.event.revision] else earlier
  }

  lemma ApplyingRaisesRevision(book: Book, d: Delivery)
    requires WellKept(book) && d.Revisioned() && Preflight(book, d).1.applyState
    ensures d.Channel() in Preflight(book, d).0.ledgers
    ensures Preflight(book, d).0.ledgers[d.Channel()].lastApplied == d.event.revision
    ensures d.Channel() in book.ledgers ==> book.ledgers[d.Channel()].lastApplied < d.event.revision
  {
    assert Preflight(book, d) == PreflightNew(book, d);
  }

  lemma LastAppliedGrows(later: Book, earlier: Book, channel: string)
    requires BookExtends(later, earlier) && channel in earlier.ledgers
    ensures channel in later.ledgers
    ensures earlier.ledgers[channel].lastApplied <= later.ledgers[channel].lastApplied
  {
    assert Extends(later.ledgers[channel], earlier.ledgers[channel]);
  }

  predicate Increasing(revisions: seq<nat>) {
    forall i, j :: 0 <= i < j < |revisions| ==> revisions[i] < revisions[j]
  }

  /** Every applied revision lies above the starting ledger and not above the final one. */
  predicate Within(revisions: seq<nat>, channel: string, start: Book, end: Book) {
    forall r <- revisions ::
      && channel in end.ledgers && r <= end.ledgers[channel].lastApplied
      && (channel in start.ledgers ==> start.ledgers[channel].lastApplied < r)
  }

  lemma WithinExtends(applied: seq<nat>, channel: string, start: Book, before: Book, after: Book)
    requires Within(applied, channel, start, before) && BookExtends(after, before)
    ensures Within(applied, channel, start, after)
  {
    if channel in before.ledgers {
      LastAppliedGrows(after, before, channel);
    }
  }

  lemma WithinAppend(applied: seq<nat>, r: nat, channel: string, start: Book, before: Book, after: Book)
    requires Increasing(applied) && Within(applied, channel, start, before) && BookExtends(before, start)
    requires channel in after.ledgers && after.ledgers[channel].lastApplied == r
    requires channel in before.ledgers ==> before.ledgers[channel].lastApplied < r
    ensures Increasing(applied + [r]) && Within(applied + [r], channel, start, after)
  {
    if channel in start.ledgers {
      LastAppliedGrows(before, start, channel);
    }
    forall i | 0 <= i < |applied|
      ensures applied[i] < r
    {
      assert applied[i] in applied;
    }
  }

  /** Applied revisions of a channel strictly increase, over every run. */
  lemma {:induction false} AppliedRevisionsIncrease(s: FireState, ds: seq<Delivery>, channel: string)
    requires WellKept(s.book)
    ensures Increasing(AppliedRevisions(s, ds, channel))
    ensures Within(AppliedRevisions(s, ds, channel), channel, s.book, Run(s, ds).book)
  {
    if ds != [] {
      var front := ds[..|ds| - 1];
      var d := ds[|ds| - 1];
      var applied := AppliedRevisions(s, front, channel);
      AppliedRevisionsIncrease(s, front, channel);
      RunKeepsBook(s, front);
      StepOfAppliedRevisions(s, Run(s, front), d, applied, channel);
    }
  }

  lemma StepOfAppliedRevisions(s: FireState, before: FireState, d: Delivery, applied: seq<nat>, channel: string)
    requires WellKept(before.book) && BookExtends(before.book, s.book)
    requires Increasing(applied) && Within(applied, channel, s.book, before.book)
    ensures Within(applied, channel, s.book, Deliver(before, d).0.book)
    ensures d.Channel() == channel && d.Revisioned() && Verdicts(before, d).applyState ==>
              Increasing(applied + [d.event.revision])
              && Within(applied + [d.event.revision], channel, s.book, Deliver(before, d).0.book)
  {
    BookAfter(before, d);
    PreflightKeepsBook(before.book, d);
    WithinExtends(applied, channel, s.book, before.book, Preflight(before.book, d).0);
    if d.Channel() == channel && d.Revisioned() && Verdicts(before, d).applyState {
      ApplyingRaisesRevision(before.book, d);
      WithinAppend(applied, d.event.revision, channel, s.book, before.book, Preflight(before.book, d).0);
    }
  }

  // ---------- what a delivery may not change ----------

  /** A refused or stale delivery changes nothing; a refusal is only reported. */
  lemma RefusedAndStaleChangeNothing(s: FireState, d: Delivery)
    requires WellKept(s.book)
    requires !Verdicts(s, d).accepted
             || (d.Revisioned() && Stale(s.book, d))
    ensures Deliver(s, d).0 == s
    ensures Deliver(s, d).1 == if Verdicts(s, d).accepted then [] else [ContractError(d.Channel())]
  {
  }

  /** Once a channel is versioned, messages without a revision never touch it again. */
  lemma RevisionlessIsRefusedForever(s: FireState, ds: seq<Delivery>, d: Delivery)
    requires WellKept(s.book) && d.Channel() in s.book.ledgers && !d.Revisioned()
    ensures Deliver(Run(s, ds), d) == (Run(s, ds), [ContractError(d.Channel())])
  {
    RunKeepsBook(s, ds);
  }

  // ---------- redelivery ----------

  /** The book holds everything this delivery would add. */
  ghost predicate Remembers(book: Book, d: Delivery) {
    && WellKept(book)
    && d.Channel() in book.ledgers
    && var ledger := book.ledgers[d.Channel()];
       && d.event.revision <= ledger.lastApplied
       && (d.event.revision == ledger.lastApplied ==>
             && ledger.state == d.State()
             && DeliveryIdAt(ledger, d.Sink()) == d.event.deliveryId
             && d.Key() in book.deliveries && book.deliveries[d.Key()] == d.Identity()
             && (!d.StateOnly() ==> ledger.historyRecorded))
  }

  ghost predicate Registered(book: Book, d: Delivery) {
    && Remembers(book, d)
    && d.Key() in book.deliveries && book.deliveries[d.Key()] == d.Identity()
    && d.event.eventId in book.ledgers[d.Channel()].eventById
    && book.ledgers[d.Channel()].eventById[d.event.eventId] == d.Revised()
  }

  predicate Stale(book: Book, d: Delivery) {
    d.Channel() in book.ledgers && d.event.revision < book.ledgers[d.Channel()].lastApplied
  }

  lemma AgainIsRegistered(book: Book, d: Delivery, ledger: Ledger)
    requires WellKept(book) && d.Channel() in book.ledgers && ledger == book.ledgers[d.Channel()]
    requires d.event.revision == ledger.lastApplied && d.event.deliveryId != ""
    requires d.Key() in book.deliveries ==> book.deliveries[d.Key()] == d.Identity()
    requires PreflightAgain(book, d, ledger).1.accepted
    requires WellKept(PreflightAgain(book, d, ledger).0)
    ensures Registered(PreflightAgain(book, d, ledger).0, d)
  {
    var next := PreflightAgain(book, d, ledger).0;
    assert next.ledgers[d.Channel()].lastApplied == d.event.revision;
    assert d.event.eventId == ledger.state.eventId;
  }

  lemma NewIsRegistered(book: Book, d: Delivery)
    requires d.Key() in book.deliveries ==> book.deliveries[d.Key()] == d.Identity()
    requires WellKept(PreflightNew(book, d).0)
    ensures Registered(PreflightNew(book, d).0, d)
  {
    var next := PreflightNew(book, d).0;
    assert next.ledgers[d.Channel()].lastApplied == d.event.revision;
  }

  lemma AcceptedCases(book: Book, d: Delivery)
    requires WellKept(book) && d.Revisioned() && Preflight(book, d).1.accepted
    ensures d.Key() in book.deliveries ==> book.deliveries[d.Key()] == d.Identity()
    ensures Stale(book, d) ==> Preflight(book, d).0 == book
    ensures d.Channel() in book.ledgers && d.event.revision == book.ledgers[d.Channel()].lastApplied ==>
              Preflight(book, d) == PreflightAgain(book, d, book.ledgers[d.Channel()])
    ensures d.Channel() !in book.ledgers || d.event.revision > book.ledgers[d.Channel()].lastApplied ==>
              Preflight(book, d) == PreflightNew(book, d)
  {
  }

  /** Accepting a delivery at or above the shown revision registers it. */
  lemma AcceptedIsRemembered(book: Book, d: Delivery, next: Book)
    requires WellKept(book) && d.Revisioned() && d.event.deliveryId != ""
    requires Preflight(book, d).1.accepted && next == Preflight(book, d).0
    ensures Remembers(next, d)
    ensures !Stale(book, d) ==> Registered(next, d)
  {
    AcceptedCases(book, d);
    PreflightKeepsWellKept(book, d);
    if !Stale(book, d) {
      if d.Channel() in book.ledgers && d.event.revision == book.ledgers[d.Channel()].lastApplied {
        AgainIsRegistered(book, d, book.ledgers[d.Channel()]);
      } else {
        NewIsRegistered(book, d);
      }
    }
  }

  lemma MemoryPersists(earlier: Book, later: Book, d: Delivery)
    requires Remembers(earlier, d) && WellKept(later) && BookExtends(later, earlier)
    requires d.event.deliveryId != ""
    ensures Remembers(later, d)
    ensures Registered(earlier, d) ==> Registered(later, d)
  {
    assert Extends(later.ledgers[d.Channel()], earlier.ledgers[d.Channel()]);
  }

  lemma RememberedIsNoOp(s: FireState, d: Delivery)
    requires Remembers(s.book, d) && d.Revisioned() && d.event.deliveryId != ""
    ensures Deliver(s, d).0 == s
    ensures Deliver(s, d).1 == [] || Deliver(s, d).1 == [ContractError(d.Channel())]
    ensures Registered(s.book, d) ==> Deliver(s, d).1 == []
  {
    var ledger := s.book.ledgers[d.Channel()];
    if d.event.revision == ledger.lastApplied {
      assert Preflight(s.book, d) == PreflightAgain(s.book, d, ledger);
      assert s.book.ledgers[d.Channel() := ledger] == s.book.ledgers;
    }
  }

  /** Delivering an accepted revisioned message again, at any later time, does
      nothing; and it is not reported either, unless it was already stale when
      first accepted. */
  lemma RedeliveryIsNoOp(s: FireState, d: Delivery, ds: seq<Delivery>)
    requires WellKept(s.book) && d.Revisioned() && d.event.deliveryId != ""
    requires Verdicts(s, d).accepted
    ensures
      var later := Run(Deliver(s, d).0, ds);
      && Deliver(later, d).0 == later
      && (Deliver(later, d).1 == [] || Deliver(later, d).1 == [ContractError(d.Channel())])
      && (!Stale(s.book, d)
          ==> Deliver(later, d).1 == [])
  {
    var first := Deliver(s, d).0;
    BookAfter(s, d);
    AcceptedIsRemembered(s.book, d, Preflight(s.book, d).0);
    RunKeepsBook(first, ds);
    MemoryPersists(first.book, Run(first, ds).book, d);
    RememberedIsNoOp(Run(first, ds), d);
  }

  /** A payload contradicts another one under the same delivery or event id. */
  predicate Contradicts(e: Delivery, d: Delivery) {
    || (e.Key() == d.Key() && e.Identity() != d.Identity())
    || (e.Channel() == d.Channel() && e.event.eventId == d.event.eventId && e.Revised() != d.Revised())
  }

  /** After an applied or repeated revision, every contradicting message is
      refused, for ever. */
  lemma ContradictionsAreRefused(s: FireState, d: Delivery, ds: seq<Delivery>, e: Delivery)
    requires WellKept(s.book) && d.Revisioned() && d.event.deliveryId != "" && e.Revisioned()
    requires Verdicts(s, d).accepted
    requires !Stale(s.book, d)
    requires Contradicts(e, d)
    ensures Deliver(Run(Deliver(s, d).0, ds), e) == (Run(Deliver(s, d).0, ds), [ContractError(e.Channel())])
  {
    var first := Deliver(s, d).0;
    BookAfter(s, d);
    AcceptedIsRemembered(s.book, d, first.book);
    RunKeepsBook(first, ds);
    MemoryPersists(first.book, Run(first, ds).book, d);
    ContradictionIsRefused(Run(first, ds), d, e);
  }

  lemma ContradictionIsRefused(s: FireState, d: Delivery, e: Delivery)
    requires Registered(s.book, d) && e.Revisioned() && Contradicts(e, d)
    ensures Deliver(s, e) == (s, [ContractError(e.Channel())])
  {
  }

  // ---------- event history ----------

  /** The history entries a run logs for one revision of a channel. */
  function HistoryLogs(s: FireState, ds: seq<Delivery>, channel: string, revision: nat): nat {
    if ds == [] then 0
    else
      var d := ds[|ds| - 1];
      var effects := Deliver(Run(s, ds[..|ds| - 1]), d).1;
      HistoryLogs(s, ds[..|ds| - 1], channel, revision)
      + if d.Channel() == channel && d.Revisioned() && d.event.revision == revision then Logged(effects) else 0
  }

  function Logged(effects: seq<Effect>): nat {
    if effects == [] then 0
    else Logged(effects[..|effects| - 1]) + if effects[|effects| - 1].HistoryLogged? then 1 else 0
  }

  /** How often a run asks for the history entry of one revision. */
  function HistoryRequests(s: FireState, ds: seq<Delivery>, channel: string, revision: nat): nat {
    if ds == [] then 0
    else
      var d := ds[|ds| - 1];
      var asked := d.Channel() == channel && d.Revisioned() && d.event.revision == revision
                   && Verdicts(Run(s, ds[..|ds| - 1]), d).recordHistory;
      HistoryRequests(s, ds[..|ds| - 1], channel, revision) + if asked then 1 else 0
  }

  ghost predicate HistoryClosed(book: Book, channel: string, revision: nat) {
    && channel in book.ledgers
    && revision <= book.ledgers[channel].lastApplied
    && (revision == book.ledgers[channel].lastApplied ==> book.ledgers[channel].historyRecorded)
  }

  /** The history of a revision is asked for at most once in every run. */
  lemma {:induction false} HistoryAskedAtMostOnce(s: FireState, ds: seq<Delivery>, channel: string, revision: nat)
    requires WellKept(s.book)
    ensures HistoryRequests(s, ds, channel, revision) <= 1
    ensures HistoryRequests(s, ds, channel, revision) == 1 ==> HistoryClosed(Run(s, ds).book, channel, revision)
    ensures HistoryClosed(s.book, channel, revision) ==> HistoryRequests(s, ds, channel, revision) == 0
  {
    if ds != [] {
      var front := ds[..|ds| - 1];
      var d := ds[|ds| - 1];
      HistoryAskedAtMostOnce(s, front, channel, revision);
      RunKeepsBook(s, front);
      BookAfter(Run(s, front), d);
      PreflightKeepsBook(Run(s, front).book, d);
      var before := Run(s, front).book;
      if HistoryClosed(s.book, channel, revision) {
        HistoryStaysClosed(s.book, before, channel, revision);
      }
      if HistoryClosed(before, channel, revision) {
        HistoryStaysClosed(before, Preflight(before, d).0, channel, revision);
      }
      if d.Revisioned() && Preflight(before, d).1.recordHistory {
        AskingClosesHistory(before, d);
      }
    }
  }

  lemma {:induction false} NothingLogged(effects: seq<Effect>)
    requires forall o <- effects :: !o.HistoryLogged?
    ensures Logged(effects) == 0
  {
    if effects != [] {
      assert effects[|effects| - 1] in effects;
      NothingLogged(effects[..|effects| - 1]);
    }
  }

  lemma {:induction false} LoggedOfConcat(a: seq<Effect>, b: seq<Effect>)
    ensures Logged(a + b) == Logged(a) + Logged(b)
  {
    if b == [] {
      assert a + b == a;
    } else {
      LoggedOfConcat(a, b[..|b| - 1]);
      assert (a + b)[..|a + b| - 1] == a + b[..|b| - 1];
    }
  }

  lemma MaybeLoggedOnce(s: FireState, e: FireEvent, record: bool)
    ensures Logged(MaybeLogHistory(s, e, record).1) <= if record then 1 else 0
  {
    var effects := MaybeLogHistory(s, e, record).1;
    if effects == [] {
    } else {
      assert effects == [effects[0]] && effects[..0] == [];
    }
  }

  lemma ActionLogsNothing(s: FireState, e: FireEvent, revisioned: bool)
    ensures Logged(ApplyAction(s, e, revisioned).1) == 0
  {
    NothingLogged(ApplyAction(s, e, revisioned).1);
  }

  /** A delivery logs history only when its verdict asks for it, and then at most once. */
  lemma DeliveryLogsWhenAsked(s: FireState, d: Delivery)
    ensures Logged(Deliver(s, d).1) <= if Verdicts(s, d).recordHistory then 1 else 0
  {
    var (book, verdict) := Preflight(s.book, d);
    ActLogsWhenAsked(s.(book := book), d, verdict);
  }

  lemma ActLogsWhenAsked(booked: FireState, d: Delivery, verdict: Verdict)
    ensures Logged(Act(booked, d, verdict).1) <= if verdict.recordHistory then 1 else 0
  {
    if !verdict.accepted || (verdict.applyState && !verdict.revisioned && MismatchesShownAlarm(booked, d)) {
      NothingLogged([ContractError(d.Channel())]);
    } else if !verdict.applyState {
      MaybeLoggedOnce(booked, d.event, verdict.recordHistory);
    } else {
      var (applied, effects) := ApplyAction(booked, d.event, verdict.revisioned);
      ActionLogsNothing(booked, d.event, verdict.revisioned);
      MaybeLoggedOnce(applied, d.event, verdict.recordHistory);
      LoggedOfConcat(effects, MaybeLogHistory(applied, d.event, verdict.recordHistory).1);
    }
  }

  lemma {:induction false} LogsAreAskedFor(s: FireState, ds: seq<Delivery>, channel: string, revision: nat)
    ensures HistoryLogs(s, ds, channel, revision) <= HistoryRequests(s, ds, channel, revision)
  {
    if ds != [] {
      LogsAreAskedFor(s, ds[..|ds| - 1], channel, revision);
      DeliveryLogsWhenAsked(Run(s, ds[..|ds| - 1]), ds[|ds| - 1]);
    }
  }

  /** In every run one revision of a channel is logged at most once. */
  lemma HistoryAtMostOnce(s: FireState, ds: seq<Delivery>, channel: string, revision: nat)
    requires WellKept(s.book)
    ensures HistoryLogs(s, ds, channel, revision) <= 1
  {
    LogsAreAskedFor(s, ds, channel, revision);
    HistoryAskedAtMostOnce(s, ds, channel, revision);
  }

  lemma HistoryStaysClosed(earlier: Book, later: Book, channel: string, revision: nat)
    requires BookExtends(later, earlier) && HistoryClosed(earlier, channel, revision)
    ensures HistoryClosed(later, channel, revision)
  {
    assert Extends(later.ledgers[channel], earlier.ledgers[channel]);
  }

  lemma AskingClosesHistory(book: Book, d: Delivery)
    requires WellKept(book) && d.Revisioned() && Preflight(book, d).1.recordHistory
    ensures !HistoryClosed(book, d.Channel(), d.event.revision)
    ensures HistoryClosed(Preflight(book, d).0, d.Channel(), d.event.revision)
  {
    if d.Channel() in book.ledgers && d.event.revision <= book.ledgers[d.Channel()].lastApplied {
      assert Preflight(book, d) == PreflightAgain(book, d, book.ledgers[d.Channel()]);
    } else {
      assert Preflight(book, d) == PreflightNew(book, d);
    }
  }

  lemma StateOnlyNeverAsksForHistory(s: FireState, d: Delivery)
    requires d.StateOnly()
    ensures !Verdicts(s, d).recordHistory
    ensures forall e <- Deliver(s, d).1 :: !e.HistoryLogged?
  {
  }

  // ---------- the shown alarms ----------

  /** What the user interface relies on. */
  ghost predicate AlarmsAreSound(s: FireState) {
    && s.fireChannels == s.fireAlarms.Keys
    && forall c <- s.fireAlarms ::
         var a := s.fireAlarms[c];
         && a.active && a.alarmId != ""
         && (a.acknowledged <==> a.alarmState == "ACKNOWLEDGED")
         && (a.acknowledged ==> a.ackState == "acknowledged")
  }

  lemma DeliveryKeepsAlarmsSound(s: FireState, d: Delivery)
    requires AlarmsAreSound(s) && Validated(d.event)
    ensures AlarmsAreSound(Deliver(s, d).0)
  {
    DeliverShows(s, d);
    var (book, verdict) := Preflight(s.book, d);
    ActionKeepsAlarmsSound(s.(book := book), d.event, verdict.revisioned);
  }

  lemma ActionKeepsAlarmsSound(s: FireState, e: FireEvent, revisioned: bool)
    requires AlarmsAreSound(s) && Validated(e)
    ensures AlarmsAreSound(ApplyAction(s, e, revisioned).0)
  {
    assert ActivatedAlarm(AlarmOn(s, e.channelId), e, revisioned).active;
  }

  /** The shown alarms stay sound over every run of validated events, legacy
      and revisioned ones mixed in any way. */
  lemma {:induction false} RunKeepsAlarmsSound(s: FireState, ds: seq<Delivery>)
    requires AlarmsAreSound(s)
    requires forall d <- ds :: Validated(d.event)
    ensures AlarmsAreSound(Run(s, ds))
  {
    if ds != [] {
      RunKeepsAlarmsSound(s, ds[..|ds| - 1]);
      DeliveryKeepsAlarmsSound(Run(s, ds[..|ds| - 1]), ds[|ds| - 1]);
    }
  }

  /** The only two legacy messages that end the acknowledged alarm `id` on a channel. */
  predicate EndsAlarm(e: FireEvent, channel: string, id: string) {
    e.channelId == channel
    && ((e.action == Clear && e.alarmId == id) || (e.action == Activate && e.alarmId != id))
  }

  lemma LegacyStepKeepsAcknowledgement(s: FireState, d: Delivery, channel: string)
    requires AlarmsAreSound(s) && Validated(d.event) && !d.Revisioned()
    requires channel in s.fireAlarms && s.fireAlarms[channel].acknowledged
    requires !EndsAlarm(d.event, channel, s.fireAlarms[channel].alarmId)
    ensures AlarmOn(Deliver(s, d).0, channel) == AlarmOn(s, channel)
    ensures channel in Deliver(s, d).0.fireAlarms
  {
    DeliverShows(s, d);
    if d.Channel() != channel {
      OtherChannelsAreUntouched(s, d, channel);
      DeliveryKeepsAlarmsSound(s, d);
    }
  }

  /** In a run of legacy messages, an acknowledged alarm stays as it is until it
      is cleared or another alarm is raised. */
  lemma {:induction false} AcknowledgementPersists(s: FireState, ds: seq<Delivery>, channel: string)
    requires AlarmsAreSound(s)
    requires channel in s.fireAlarms && s.fireAlarms[channel].acknowledged
    requires forall d <- ds :: Validated(d.event) && !d.Revisioned()
                               && !EndsAlarm(d.event, channel, s.fireAlarms[channel].alarmId)
    ensures channel in Run(s, ds).fireAlarms
    ensures Run(s, ds).fireAlarms[channel] == s.fireAlarms[channel]
  {
    if ds != [] {
      var front := ds[..|ds| - 1];
      AcknowledgementPersists(s, front, channel);
      RunKeepsAlarmsSound(s, front);
      LegacyStepKeepsAcknowledgement(Run(s, front), ds[|ds| - 1], channel);
    }
  }
}

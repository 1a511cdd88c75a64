/** Convergence: from a consistent log, every order of delivery, with any
    duplication, over every sink, ends in the state of the highest revision. */
module FireConvergence {
  import opened Text
  import opened FireEventAdapter
  import opened FireLedger

  // ---------- consistent logs ----------

  /** What an honest sender guarantees of two of its revisioned messages. */
  ghost predicate Agree(d: Delivery, e: Delivery) {
    // a revision fixes the lifecycle identity, and an event id fixes the revision
    && (d.Channel() == e.Channel() && d.event.revision == e.event.revision ==> d.State() == e.State())
    && (d.Channel() == e.Channel() && d.event.eventId == e.event.eventId ==> d.event.revision == e.event.revision)
    // a sink and a revision fix the delivery id and the payload
    && (d.Channel() == e.Channel() && d.event.revision == e.event.revision && d.Sink() == e.Sink() ==>
          d.event.deliveryId == e.event.deliveryId && d.event.payload == e.event.payload)
    // delivery ids are not shared between channels
    && (d.Key() == e.Key() ==> d.Channel() == e.Channel())
  }

  /** Messages without a revision may be mixed in freely. */
  ghost predicate Consistent(ds: seq<Delivery>) {
    && (forall d <- ds :: d.Revisioned() ==> IsFireAction(d.event.action))
    && (forall d, e :: d in ds && e in ds && d.Revisioned() && e.Revisioned() ==> Agree(d, e))
  }

  const EmptyBook := Book(map[], map[])

  // ---------- the book only holds what was delivered ----------

  ghost predicate Delivered(ds: seq<Delivery>, d: Delivery, channel: string) {
    d in ds && d.Revisioned() && d.Channel() == channel
  }

  ghost predicate StateDelivered(ds: seq<Delivery>, channel: string, revision: nat, state: StateIdentity) {
    exists d :: Delivered(ds, d, channel) && d.event.revision == revision && d.State() == state
  }

  ghost predicate EventDelivered(ds: seq<Delivery>, channel: string, id: string, event: EventIdentity) {
    exists d :: Delivered(ds, d, channel) && d.event.eventId == id && d.Revised() == event
  }

  ghost predicate SinkDelivered(ds: seq<Delivery>, channel: string, revision: nat, sink: Sink, id: string) {
    exists d :: Delivered(ds, d, channel) && d.event.revision == revision && d.Sink() == sink
                && d.event.deliveryId == id
  }

  ghost predicate KeyDelivered(ds: seq<Delivery>, key: DeliveryKey, identity: DeliveryIdentity) {
    exists d :: d in ds && d.Revisioned() && d.Key() == key && d.Identity() == identity
  }

  ghost predicate LedgerTraces(ledger: Ledger, channel: string, ds: seq<Delivery>) {
    && ledger.versionedSeen
    && StateDelivered(ds, channel, ledger.lastApplied, ledger.state)
    && (forall id <- ledger.eventById :: EventDelivered(ds, channel, id, ledger.eventById[id]))
    && (forall k <- ledger.deliveryIdBySink ::
          SinkDelivered(ds, channel, ledger.lastApplied, k, ledger.deliveryIdBySink[k]))
    && (forall d :: Delivered(ds, d, channel) ==> d.event.revision <= ledger.lastApplied)
  }

  ghost predicate Traces(book: Book, ds: seq<Delivery>) {
    && (forall c <- book.ledgers :: LedgerTraces(book.ledgers[c], c, ds))
    && (forall d <- ds :: d.Revisioned() ==> d.Channel() in book.ledgers)
    && (forall k <- book.deliveries :: KeyDelivered(ds, k, book.deliveries[k]))
  }

  /** Nothing in a consistent log is ever refused. */
  lemma HonestIsAccepted(book: Book, ds: seq<Delivery>, d: Delivery)
    requires Traces(book, ds) && Consistent(ds + [d]) && d.Revisioned()
    ensures Preflight(book, d).1.accepted
  {
    if d.Key() in book.deliveries {
      HonestDelivery(book, ds, d);
    }
    if d.Channel() in book.ledgers {
      var ledger := book.ledgers[d.Channel()];
      assert LedgerTraces(ledger, d.Channel(), ds);
      if d.event.eventId in ledger.eventById {
        HonestEvent(ds, d, ledger);
      }
      if d.event.revision == ledger.lastApplied {
        HonestRepeats(ds, d, ledger);
      }
    }
  }

  lemma HonestDelivery(book: Book, ds: seq<Delivery>, d: Delivery)
    requires Traces(book, ds) && Consistent(ds + [d]) && d.Revisioned() && d.Key() in book.deliveries
    ensures book.deliveries[d.Key()] == d.Identity()
  {
    var all := ds + [d];
    assert d in all;
    var e :| e in ds && e.Revisioned() && e.Key() == d.Key() && e.Identity() == book.deliveries[d.Key()];
    assert e in all && Agree(d, e);
  }

  lemma HonestEvent(ds: seq<Delivery>, d: Delivery, ledger: Ledger)
    requires Consistent(ds + [d]) && d.Revisioned()
    requires LedgerTraces(ledger, d.Channel(), ds) && d.event.eventId in ledger.eventById
    ensures ledger.eventById[d.event.eventId] == d.Revised()
  {
    var all := ds + [d];
    assert d in all;
    var e :| Delivered(ds, e, d.Channel()) && e.event.eventId == d.event.eventId
             && e.Revised() == ledger.eventById[d.event.eventId];
    assert e in all && Agree(d, e);
  }

  lemma HonestRepeats(ds: seq<Delivery>, d: Delivery, ledger: Ledger)
    requires Consistent(ds + [d]) && d.Revisioned()
    requires LedgerTraces(ledger, d.Channel(), ds) && d.event.revision == ledger.lastApplied
    ensures ledger.state == d.State()
    ensures DeliveryIdAt(ledger, d.Sink()) == "" || DeliveryIdAt(ledger, d.Sink()) == d.event.deliveryId
  {
    var all := ds + [d];
    assert d in all;
    var e :| Delivered(ds, e, d.Channel()) && e.event.revision == ledger.lastApplied && e.State() == ledger.state;
    assert e in all && Agree(d, e);
    if d.Sink() in ledger.deliveryIdBySink {
      var f :| Delivered(ds, f, d.Channel()) && f.event.revision == ledger.lastApplied && f.Sink() == d.Sink()
               && f.event.deliveryId == ledger.deliveryIdBySink[d.Sink()];
      assert f in all && Agree(d, f);
    }
  }

  lemma DeliveredGrows(ds: seq<Delivery>, d: Delivery, e: Delivery, channel: string)
    ensures Delivered(ds + [d], e, channel) <==>
            Delivered(ds, e, channel) || (e == d && d.Revisioned() && d.Channel() == channel)
  {
  }

  /** A ledger that did not move still traces to the longer log. */
  lemma LedgerTracesGrow(ledger: Ledger, channel: string, ds: seq<Delivery>, d: Delivery)
    requires LedgerTraces(ledger, channel, ds)
    requires d.Revisioned() && d.Channel() == channel ==> d.event.revision <= ledger.lastApplied
    ensures LedgerTraces(ledger, channel, ds + [d])
  {
    forall e
      ensures Delivered(ds, e, channel) ==> Delivered(ds + [d], e, channel)
      ensures Delivered(ds + [d], e, channel) ==> e.event.revision <= ledger.lastApplied
    {
      DeliveredGrows(ds, d, e, channel);
    }
    var w :| Delivered(ds, w, channel) && w.event.revision == ledger.lastApplied && w.State() == ledger.state;
    assert Delivered(ds + [d], w, channel);
    forall id <- ledger.eventById
      ensures EventDelivered(ds + [d], channel, id, ledger.eventById[id])
    {
      var e :| Delivered(ds, e, channel) && e.event.eventId == id && e.Revised() == ledger.eventById[id];
      assert Delivered(ds + [d], e, channel);
    }
    forall k <- ledger.deliveryIdBySink
      ensures SinkDelivered(ds + [d], channel, ledger.lastApplied, k, ledger.deliveryIdBySink[k])
    {
      var e :| Delivered(ds, e, channel) && e.event.revision == ledger.lastApplied && e.Sink() == k
               && e.event.deliveryId == ledger.deliveryIdBySink[k];
      assert Delivered(ds + [d], e, channel);
    }
  }

  lemma AgainTraces(book: Book, ds: seq<Delivery>, d: Delivery)
    requires d.Revisioned() && d.Channel() in book.ledgers
    requires LedgerTraces(book.ledgers[d.Channel()], d.Channel(), ds)
    requires d.event.revision == book.ledgers[d.Channel()].lastApplied
    ensures LedgerTraces(PreflightAgain(book, d, book.ledgers[d.Channel()]).0.ledgers[d.Channel()], d.Channel(), ds + [d])
  {
    var ledger := book.ledgers[d.Channel()];
    var next := PreflightAgain(book, d, ledger).0.ledgers[d.Channel()];
    LedgerTracesGrow(ledger, d.Channel(), ds, d);
    assert Delivered(ds + [d], d, d.Channel());
    forall k <- next.deliveryIdBySink
      ensures SinkDelivered(ds + [d], d.Channel(), next.lastApplied, k, next.deliveryIdBySink[k])
    {
      if next.deliveryIdBySink != ledger.deliveryIdBySink && k == d.Sink() {
        assert next.deliveryIdBySink[k] == d.event.deliveryId;
      }
    }
  }

  lemma NewTraces(book: Book, ds: seq<Delivery>, d: Delivery)
    requires d.Revisioned()
    requires d.Channel() in book.ledgers ==>
               LedgerTraces(book.ledgers[d.Channel()], d.Channel(), ds)
               && book.ledgers[d.Channel()].lastApplied < d.event.revision
    requires d.Channel() !in book.ledgers ==> forall e :: !Delivered(ds, e, d.Channel())
    ensures LedgerTraces(PreflightNew(book, d).0.ledgers[d.Channel()], d.Channel(), ds + [d])
  {
    var next := PreflightNew(book, d).0.ledgers[d.Channel()];
    assert Delivered(ds + [d], d, d.Channel());
    forall e
      ensures Delivered(ds + [d], e, d.Channel()) ==> e.event.revision <= next.lastApplied
    {
      DeliveredGrows(ds, d, e, d.Channel());
    }
    forall id <- next.eventById
      ensures EventDelivered(ds + [d], d.Channel(), id, next.eventById[id])
    {
      if id != d.event.eventId {
        var e :| Delivered(ds, e, d.Channel()) && e.event.eventId == id && e.Revised() == next.eventById[id];
        assert Delivered(ds + [d], e, d.Channel());
      }
    }
  }

  lemma DeliveriesTrace(book: Book, ds: seq<Delivery>, d: Delivery)
    requires forall k <- book.deliveries :: KeyDelivered(ds, k, book.deliveries[k])
    requires d.Revisioned()
    ensures forall k <- Register(book, d) :: KeyDelivered(ds + [d], k, Register(book, d)[k])
    ensures forall k <- book.deliveries :: KeyDelivered(ds + [d], k, book.deliveries[k])
  {
    assert d in ds + [d];
    forall k <- book.deliveries
      ensures KeyDelivered(ds + [d], k, book.deliveries[k])
    {
      var e :| e in ds && e.Revisioned() && e.Key() == k && e.Identity() == book.deliveries[k];
      assert e in ds + [d];
    }
  }

  lemma RevisionlessTraces(book: Book, ds: seq<Delivery>, d: Delivery)
    requires Traces(book, ds) && !d.Revisioned()
    ensures Traces(book, ds + [d])
  {
    forall c <- book.ledgers
      ensures LedgerTraces(book.ledgers[c], c, ds + [d])
    {
      LedgerTracesGrow(book.ledgers[c], c, ds, d);
    }
    forall k <- book.deliveries
      ensures KeyDelivered(ds + [d], k, book.deliveries[k])
    {
      var e :| e in ds && e.Revisioned() && e.Key() == k && e.Identity() == book.deliveries[k];
      assert e in ds + [d];
    }
  }

  lemma OwnLedgerTraces(book: Book, ds: seq<Delivery>, d: Delivery)
    requires Traces(book, ds) && d.Revisioned() && Preflight(book, d).1.accepted
    ensures d.Channel() in Preflight(book, d).0.ledgers
    ensures LedgerTraces(Preflight(book, d).0.ledgers[d.Channel()], d.Channel(), ds + [d])
  {
    if d.Channel() in book.ledgers {
      var ledger := book.ledgers[d.Channel()];
      assert LedgerTraces(ledger, d.Channel(), ds);
      if d.event.revision < ledger.lastApplied {
        LedgerTracesGrow(ledger, d.Channel(), ds, d);
      } else if d.event.revision == ledger.lastApplied {
        AgainTraces(book, ds, d);
      } else {
        NewTraces(book, ds, d);
      }
    } else {
      NewTraces(book, ds, d);
    }
  }

  lemma LedgersTrace(book: Book, ds: seq<Delivery>, d: Delivery)
    requires Traces(book, ds) && d.Revisioned() && Preflight(book, d).1.accepted
    ensures forall c <- Preflight(book, d).0.ledgers :: LedgerTraces(Preflight(book, d).0.ledgers[c], c, ds + [d])
  {
    var next := Preflight(book, d).0;
    forall c <- next.ledgers
      ensures LedgerTraces(next.ledgers[c], c, ds + [d])
    {
      if c == d.Channel() {
        OwnLedgerTraces(book, ds, d);
      } else {
        PreflightKeepsOtherLedgers(book, d, c);
        LedgerTracesGrow(book.ledgers[c], c, ds, d);
      }
    }
  }

  lemma PreflightBooksDelivery(book: Book, d: Delivery)
    requires d.Revisioned() && Preflight(book, d).1.accepted
    ensures Preflight(book, d).0.deliveries == book.deliveries || Preflight(book, d).0.deliveries == Register(book, d)
    ensures d.Channel() in Preflight(book, d).0.ledgers
    ensures forall c <- book.ledgers :: c in Preflight(book, d).0.ledgers
  {
  }

  lemma ChannelsAreBooked(book: Book, next: Book, ds: seq<Delivery>, d: Delivery)
    requires forall e <- ds :: e.Revisioned() ==> e.Channel() in book.ledgers
    requires d.Channel() in next.ledgers && forall c <- book.ledgers :: c in next.ledgers
    ensures forall e <- ds + [d] :: e.Revisioned() ==> e.Channel() in next.ledgers
  {
    forall e <- ds + [d]
      ensures e.Revisioned() ==> e.Channel() in next.ledgers
    {
      assert e in ds || e == d;
    }
  }

  lemma PreflightTraces(book: Book, ds: seq<Delivery>, d: Delivery)
    requires Traces(book, ds) && d.Revisioned() && Preflight(book, d).1.accepted
    ensures Traces(Preflight(book, d).0, ds + [d])
  {
    var next := Preflight(book, d).0;
    LedgersTrace(book, ds, d);
    PreflightBooksDelivery(book, d);
    DeliveriesTrace(book, ds, d);
    ChannelsAreBooked(book, next, ds, d);
    assert forall k <- next.deliveries :: KeyDelivered(ds + [d], k, next.deliveries[k]);
  }

  lemma {:induction false} RunTraces(s: FireState, ds: seq<Delivery>)
    requires s.book == EmptyBook && Consistent(ds)
    ensures Traces(Run(s, ds).book, ds)
  {
    if ds != [] {
      var front := ds[..|ds| - 1];
      var d := ds[|ds| - 1];
      assert ds == front + [d];
      RunTraces(s, front);
      BookAfter(Run(s, front), d);
      if d.Revisioned() {
        HonestIsAccepted(Run(s, front).book, front, d);
        PreflightTraces(Run(s, front).book, front, d);
      } else {
        RevisionlessTraces(Run(s, front).book, front, d);
      }
    }
  }

  // ---------- the shown alarm is the one of the ledger ----------

  datatype Entry = Entry(lit: bool, alarm: Option<Alarm>)

  function EntryOf(s: FireState, channel: string): Entry {
    Entry(channel in s.fireChannels, if channel in s.fireAlarms then Some(s.fireAlarms[channel]) else None)
  }

  /** What a lifecycle identity means for its channel. */
  function Meaning(state: StateIdentity): Entry {
    match state.action
    case Clear => Entry(false, None)
    case Acknowledge => Entry(true, Some(Alarm(state.alarmId, "ACKNOWLEDGED", "acknowledged", true, true)))
    case _ =>
      Entry(true, Some(Alarm(state.alarmId, if state.alarmState == "" then "OPEN" else state.alarmState,
                             if state.ackState == "" then "unacked" else state.ackState, true, false)))
  }

  lemma ActionShowsMeaning(s: FireState, e: FireEvent)
    requires IsFireAction(e.action)
    ensures EntryOf(ApplyAction(s, e, true).0, e.channelId) == Meaning(StateIdentityOf(e))
  {
  }

  ghost predicate ShowsLedgers(s: FireState) {
    forall c <- s.book.ledgers ::
      s.book.ledgers[c].versionedSeen && EntryOf(s, c) == Meaning(s.book.ledgers[c].state)
  }

  lemma OtherEntriesAreUntouched(s: FireState, d: Delivery, channel: string)
    requires channel != d.Channel()
    ensures EntryOf(Deliver(s, d).0, channel) == EntryOf(s, channel)
  {
    DeliverShows(s, d);
    var (book, verdict) := Preflight(s.book, d);
    ActionKeepsOtherEntries(s.(book := book), d.event, verdict.revisioned, channel);
  }

  lemma ActionKeepsOtherEntries(s: FireState, e: FireEvent, revisioned: bool, channel: string)
    requires channel != e.channelId
    ensures EntryOf(ApplyAction(s, e, revisioned).0, channel) == EntryOf(s, channel)
  {
  }

  lemma OwnEntryShowsLedger(s: FireState, d: Delivery)
    requires ShowsLedgers(s) && (d.Revisioned() ==> IsFireAction(d.event.action))
    requires d.Channel() in Preflight(s.book, d).0.ledgers
    ensures Preflight(s.book, d).0.ledgers[d.Channel()].versionedSeen
    ensures EntryOf(Deliver(s, d).0, d.Channel()) == Meaning(Preflight(s.book, d).0.ledgers[d.Channel()].state)
  {
    DeliverShows(s, d);
    var (book, verdict) := Preflight(s.book, d);
    if d.Revisioned() && verdict.applyState {
      ActionShowsMeaning(s.(book := book), d.event);
      assert (book, verdict) == PreflightNew(s.book, d);
    } else {
      assert book.ledgers[d.Channel()].state == s.book.ledgers[d.Channel()].state;
    }
  }

  lemma DeliveryShowsLedgers(s: FireState, d: Delivery)
    requires ShowsLedgers(s) && (d.Revisioned() ==> IsFireAction(d.event.action))
    ensures ShowsLedgers(Deliver(s, d).0)
  {
    var next := Deliver(s, d).0;
    BookAfter(s, d);
    forall c <- next.book.ledgers
      ensures next.book.ledgers[c].versionedSeen && EntryOf(next, c) == Meaning(next.book.ledgers[c].state)
    {
      if c == d.Channel() {
        OwnEntryShowsLedger(s, d);
      } else {
        PreflightKeepsOtherLedgers(s.book, d, c);
        OtherEntriesAreUntouched(s, d, c);
      }
    }
  }

  lemma {:induction false} RunShowsLedgers(s: FireState, ds: seq<Delivery>)
    requires ShowsLedgers(s)
    requires forall d <- ds :: d.Revisioned() ==> IsFireAction(d.event.action)
    ensures ShowsLedgers(Run(s, ds))
  {
    if ds != [] {
      RunShowsLedgers(s, ds[..|ds| - 1]);
      DeliveryShowsLedgers(Run(s, ds[..|ds| - 1]), ds[|ds| - 1]);
    }
  }

  // ---------- the theorems ----------

  /** A delivery with the highest revision of its channel. */
  ghost predicate IsNewest(ds: seq<Delivery>, top: Delivery) {
    top in ds && top.Revisioned()
    && forall e <- ds :: e.Revisioned() && e.Channel() == top.Channel() ==> e.event.revision <= top.event.revision
  }

  /** Whatever the order, the duplication and the sinks, the channel ends as if
      only its newest revision had been delivered; and no revision is refused. */
  lemma Converges(s: FireState, ds: seq<Delivery>, top: Delivery)
    requires s.book == EmptyBook && Consistent(ds) && IsNewest(ds, top)
    ensures EntryOf(Run(s, ds), top.Channel()) == EntryOf(Run(s, [top]), top.Channel())
  {
    EndsInMeaning(s, ds, top);
    assert [top][0] in ds;
    assert top in [top];
    EndsInMeaning(s, [top], top);
  }

  lemma EndsInMeaning(s: FireState, ds: seq<Delivery>, top: Delivery)
    requires s.book == EmptyBook && Consistent(ds) && IsNewest(ds, top)
    ensures EntryOf(Run(s, ds), top.Channel()) == Meaning(top.State())
  {
    RunTraces(s, ds);
    RunShowsLedgers(s, ds);
    var ledger := Run(s, ds).book.ledgers[top.Channel()];
    assert LedgerTraces(ledger, top.Channel(), ds);
    assert Delivered(ds, top, top.Channel());
    var e :| Delivered(ds, e, top.Channel()) && e.event.revision == ledger.lastApplied && e.State() == ledger.state;
    assert Agree(e, top);
  }

  /** In a consistent log every revisioned message is accepted, at every point of the run. */
  lemma HonestRunsAreAccepted(s: FireState, ds: seq<Delivery>, k: nat)
    requires s.book == EmptyBook && Consistent(ds) && k < |ds| && ds[k].Revisioned()
    ensures Verdicts(Run(s, ds[..k]), ds[k]).accepted
  {
    assert forall e <- ds[..k] :: e in ds;
    RunTraces(s, ds[..k]);
    assert forall e <- ds[..k] + [ds[k]] :: e in ds;
    HonestIsAccepted(Run(s, ds[..k]).book, ds[..k], ds[k]);
  }

  lemma {:induction false} NewestExists(ds: seq<Delivery>, d: Delivery) returns (top: Delivery)
    requires d in ds && d.Revisioned()
    ensures IsNewest(ds, top) && top.Channel() == d.Channel()
  {
    top := d;
    for i := 0 to |ds|
      invariant top in ds && top.Revisioned() && top.Channel() == d.Channel()
      invariant forall e <- ds[..i] :: e.Revisioned() && e.Channel() == d.Channel() ==>
                  e.event.revision <= top.event.revision
    {
      if ds[i].Revisioned() && ds[i].Channel() == d.Channel() && top.event.revision < ds[i].event.revision {
        top := ds[i];
      }
      assert ds[..i + 1] == ds[..i] + [ds[i]];
    }
    assert ds[..|ds|] == ds;
  }

  /** Two clients that received the same revisioned messages, in whatever order
      and however often, starting from whatever alarms, show the same. */
  lemma ClientsAgree(s: FireState, ds: seq<Delivery>, t: FireState, es: seq<Delivery>, d: Delivery)
    requires s.book == EmptyBook && t.book == EmptyBook && Consistent(ds) && Consistent(es)
    requires forall e: Delivery :: e.Revisioned() ==> (e in ds <==> e in es)
    requires d in ds && d.Revisioned()
    ensures EntryOf(Run(s, ds), d.Channel()) == EntryOf(Run(t, es), d.Channel())
  {
    var top := NewestExists(ds, d);
    assert IsNewest(es, top);
    EndsInMeaning(s, ds, top);
    EndsInMeaning(t, es, top);
  }
}

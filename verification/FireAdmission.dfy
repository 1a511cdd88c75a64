/** Which fire messages are taken and which are answered with an error, over every run. */
module FireAdmission {
  import opened FireEventAdapter
  import opened FireLedger
  import opened FireSafety
  import opened FireConvergence
  import opened FireAlarms
  import opened FireHistory

  // ---------- what a run has taken ----------

  predicate IsOutdated(current: seq<Delivery>, d: Delivery) {
    exists e <- current :: e.Channel() == d.Channel() && e.event.revision > d.event.revision
  }

  /** The revisioned messages that were taken and not outdated when they came, in order. */
  ghost function Current(s: FireState, ds: seq<Delivery>): seq<Delivery> {
    if ds == [] then []
    else
      var before, d := Current(s, ds[..|ds| - 1]), ds[|ds| - 1];
      if d.Revisioned() && Taken(Run(s, ds[..|ds| - 1]), d) && !IsOutdated(before, d) then before + [d] else before
  }

  // ---------- what contradicts what ----------

  /** Two messages tell the same of the alarm, field by field. */
  predicate TellTheSame(a: FireEvent, b: FireEvent) {
    && a.eventId == b.eventId && a.alarmId == b.alarmId && a.action == b.action && a.eventType == b.eventType
    && a.channelId == b.channelId && a.sourceId == b.sourceId && a.alarmKind == b.alarmKind
    && a.alarmState == b.alarmState && a.ackState == b.ackState
    && a.activePresent == b.activePresent && a.active == b.active
  }

  /** The same delivery of the same revision, with another channel or payload. */
  predicate ReusesDelivery(e: Delivery, d: Delivery) {
    && e.Sink() == d.Sink() && e.event.deliveryId == d.event.deliveryId && e.event.revision == d.event.revision
    && (e.event.channelId != d.event.channelId || e.event.payload != d.event.payload)
  }

  /** The same event of the channel, with another revision or content. */
  predicate ReusesEvent(e: Delivery, d: Delivery) {
    && e.event.channelId == d.event.channelId && e.event.eventId == d.event.eventId
    && (e.event.revision != d.event.revision || !TellTheSame(e.event, d.event))
  }

  /** The same revision of the channel, with another content or, on the same sink, another delivery id. */
  predicate ReusesRevision(e: Delivery, d: Delivery) {
    && e.event.channelId == d.event.channelId && e.event.revision == d.event.revision
    && (!TellTheSame(e.event, d.event)
        || (e.Sink() == d.Sink() && e.event.deliveryId != "" && e.event.deliveryId != d.event.deliveryId))
  }

  ghost predicate Clashes(current: seq<Delivery>, d: Delivery) {
    || (exists e <- current :: ReusesDelivery(e, d))
    || (exists e <- current :: ReusesEvent(e, d))
    || (!IsOutdated(current, d) && exists e <- current :: ReusesRevision(e, d))
  }

  lemma SameState(a: Delivery, b: Delivery)
    ensures a.State() == b.State() <==> TellTheSame(a.event, b.event)
  {
  }

  // ---------- the book tells what was taken ----------

  ghost predicate DeliveriesTold(deliveries: map<DeliveryKey, DeliveryIdentity>, current: seq<Delivery>) {
    && (forall e <- current :: e.Key() in deliveries && deliveries[e.Key()] == e.Identity())
    && (forall key <- deliveries :: exists e <- current :: e.Key() == key)
  }

  ghost predicate EventsTold(events: map<string, EventIdentity>, current: seq<Delivery>, channel: string) {
    && (forall e <- current :: e.Channel() == channel ==>
          e.event.eventId in events && events[e.event.eventId] == e.Revised())
    && (forall id <- events :: exists e <- current :: e.Channel() == channel && e.event.eventId == id)
  }

  ghost predicate IsNewest(e: Delivery, channel: string, revision: nat) {
    e.Channel() == channel && e.event.revision == revision
  }

  ghost predicate SinksTold(ledger: Ledger, current: seq<Delivery>, channel: string) {
    && (forall e <- current :: IsNewest(e, channel, ledger.lastApplied) && e.event.deliveryId != "" ==>
          DeliveryIdAt(ledger, e.Sink()) == e.event.deliveryId)
    && (forall sink :: DeliveryIdAt(ledger, sink) != "" ==>
          exists e <- current :: IsNewest(e, channel, ledger.lastApplied) && e.Sink() == sink
                                 && e.event.deliveryId == DeliveryIdAt(ledger, sink))
  }

  ghost predicate NewestTold(ledger: Ledger, current: seq<Delivery>, channel: string) {
    && ledger.versionedSeen
    && (forall e <- current :: e.Channel() == channel ==> e.event.revision <= ledger.lastApplied)
    && (forall e <- current :: IsNewest(e, channel, ledger.lastApplied) ==> e.State() == ledger.state)
    && (exists e <- current :: IsNewest(e, channel, ledger.lastApplied))
  }

  ghost predicate LedgerTold(ledgers: map<string, Ledger>, current: seq<Delivery>, channel: string) {
    if channel in ledgers then
      && NewestTold(ledgers[channel], current, channel)
      && EventsTold(ledgers[channel].eventById, current, channel)
      && SinksTold(ledgers[channel], current, channel)
    else forall e <- current :: e.Channel() != channel
  }

  ghost predicate Told(book: Book, current: seq<Delivery>) {
    DeliveriesTold(book.deliveries, current) && forall channel :: LedgerTold(book.ledgers, current, channel)
  }

  // ---------- which messages the book refuses ----------

  lemma OutdatedIsStale(book: Book, current: seq<Delivery>, d: Delivery)
    requires LedgerTold(book.ledgers, current, d.Channel())
    ensures IsOutdated(current, d)
       <==> d.Channel() in book.ledgers && d.event.revision < book.ledgers[d.Channel()].lastApplied
  {
    if d.Channel() in book.ledgers {
      var ledger := book.ledgers[d.Channel()];
      assert NewestTold(ledger, current, d.Channel());
      var e :| e in current && IsNewest(e, d.Channel(), ledger.lastApplied);
    }
  }

  lemma DeliveryClash(book: Book, current: seq<Delivery>, d: Delivery)
    requires DeliveriesTold(book.deliveries, current)
    ensures d.Key() in book.deliveries && book.deliveries[d.Key()] != d.Identity()
       <==> exists e <- current :: ReusesDelivery(e, d)
  {
    if d.Key() in book.deliveries && book.deliveries[d.Key()] != d.Identity() {
      var e :| e in current && e.Key() == d.Key();
      assert ReusesDelivery(e, d);
    }
    if e :| e in current && ReusesDelivery(e, d) {
      assert e.Key() == d.Key() && e.Identity() != d.Identity();
    }
  }

  lemma EventClash(ledger: Ledger, current: seq<Delivery>, d: Delivery)
    requires EventsTold(ledger.eventById, current, d.Channel())
    ensures d.event.eventId in ledger.eventById && ledger.eventById[d.event.eventId] != d.Revised()
       <==> exists e <- current :: ReusesEvent(e, d)
  {
    if d.event.eventId in ledger.eventById && ledger.eventById[d.event.eventId] != d.Revised() {
      var e :| e in current && e.Channel() == d.Channel() && e.event.eventId == d.event.eventId;
      SameState(e, d);
      assert ReusesEvent(e, d);
    }
    if e :| e in current && ReusesEvent(e, d) {
      SameState(e, d);
      assert e.Revised() != d.Revised();
    }
  }

  lemma RevisionClash(ledger: Ledger, current: seq<Delivery>, d: Delivery)
    requires NewestTold(ledger, current, d.Channel()) && SinksTold(ledger, current, d.Channel())
    requires d.event.revision == ledger.lastApplied
    ensures ledger.state != d.State()
            || (DeliveryIdAt(ledger, d.Sink()) != "" && DeliveryIdAt(ledger, d.Sink()) != d.event.deliveryId)
       <==> exists e <- current :: ReusesRevision(e, d)
  {
    var known := DeliveryIdAt(ledger, d.Sink());
    if ledger.state != d.State() {
      var e :| e in current && IsNewest(e, d.Channel(), ledger.lastApplied);
      SameState(e, d);
      assert ReusesRevision(e, d);
    } else if known != "" && known != d.event.deliveryId {
      var e :| e in current && IsNewest(e, d.Channel(), ledger.lastApplied) && e.Sink() == d.Sink()
               && e.event.deliveryId == known;
      assert ReusesRevision(e, d);
    }
    if e :| e in current && ReusesRevision(e, d) {
      assert IsNewest(e, d.Channel(), ledger.lastApplied);
      SameState(e, d);
    }
  }

  lemma NoChannelNoClash(current: seq<Delivery>, d: Delivery)
    requires forall e <- current :: e.Channel() != d.Channel()
    ensures forall e <- current :: !ReusesEvent(e, d) && !ReusesRevision(e, d)
  {
  }

  lemma NewerIsNoClash(ledger: Ledger, current: seq<Delivery>, d: Delivery)
    requires NewestTold(ledger, current, d.Channel()) && d.event.revision > ledger.lastApplied
    ensures forall e <- current :: !ReusesRevision(e, d)
  {
  }

  lemma BookRefuses(book: Book, current: seq<Delivery>, d: Delivery)
    requires Told(book, current) && d.Revisioned()
    ensures Preflight(book, d).1.accepted <==> !Clashes(current, d)
  {
    var channel := d.Channel();
    assert LedgerTold(book.ledgers, current, channel);
    DeliveryClash(book, current, d);
    OutdatedIsStale(book, current, d);
    if channel !in book.ledgers {
      NoChannelNoClash(current, d);
    } else {
      var ledger := book.ledgers[channel];
      EventClash(ledger, current, d);
      if d.event.revision == ledger.lastApplied {
        RevisionClash(ledger, current, d);
      } else if d.event.revision > ledger.lastApplied {
        NewerIsNoClash(ledger, current, d);
      }
    }
  }

  // ---------- taking one more ----------

  lemma RegisterTells(book: Book, current: seq<Delivery>, d: Delivery)
    requires DeliveriesTold(book.deliveries, current)
    requires d.Key() in book.deliveries ==> book.deliveries[d.Key()] == d.Identity()
    ensures DeliveriesTold(Register(book, d), current + [d])
  {
    var next, all := Register(book, d), current + [d];
    assert d in all;
    forall key <- next
      ensures exists e <- all :: e.Key() == key
    {
      if key in book.deliveries {
        var e :| e in current && e.Key() == key;
        assert e in all;
      }
    }
  }

  lemma OtherLedgerTold(ledgers: map<string, Ledger>, next: map<string, Ledger>, current: seq<Delivery>, d: Delivery, channel: string)
    requires LedgerTold(ledgers, current, channel) && channel != d.Channel()
    requires (channel in next <==> channel in ledgers) && (channel in ledgers ==> next[channel] == ledgers[channel])
    ensures LedgerTold(next, current + [d], channel)
  {
    var all := current + [d];
    if channel in ledgers {
      var ledger := ledgers[channel];
      OtherEventsTold(ledger.eventById, current, d, channel);
      OtherNewestTold(ledger, current, d, channel);
      OtherSinksTold(ledger, current, d, channel);
    }
  }

  lemma OtherEventsTold(events: map<string, EventIdentity>, current: seq<Delivery>, d: Delivery, channel: string)
    requires EventsTold(events, current, channel) && channel != d.Channel()
    ensures EventsTold(events, current + [d], channel)
  {
    forall id <- events
      ensures exists e <- current + [d] :: e.Channel() == channel && e.event.eventId == id
    {
      var e :| e in current && e.Channel() == channel && e.event.eventId == id;
      assert e in current + [d];
    }
  }

  lemma OtherNewestTold(ledger: Ledger, current: seq<Delivery>, d: Delivery, channel: string)
    requires NewestTold(ledger, current, channel) && channel != d.Channel()
    ensures NewestTold(ledger, current + [d], channel)
  {
    var e :| e in current && IsNewest(e, channel, ledger.lastApplied);
    assert e in current + [d];
  }

  lemma OtherSinksTold(ledger: Ledger, current: seq<Delivery>, d: Delivery, channel: string)
    requires SinksTold(ledger, current, channel) && channel != d.Channel()
    ensures SinksTold(ledger, current + [d], channel)
  {
    SinksStay(ledger, current, d, channel);
  }

  /** What the sinks hold was delivered, also with one more delivery. */
  lemma SinksStay(ledger: Ledger, current: seq<Delivery>, d: Delivery, channel: string)
    requires SinksTold(ledger, current, channel)
    ensures forall sink :: DeliveryIdAt(ledger, sink) != "" ==>
              exists e <- current + [d] :: IsNewest(e, channel, ledger.lastApplied) && e.Sink() == sink
                                           && e.event.deliveryId == DeliveryIdAt(ledger, sink)
  {
    forall sink | DeliveryIdAt(ledger, sink) != ""
      ensures exists e <- current + [d] :: IsNewest(e, channel, ledger.lastApplied) && e.Sink() == sink
                                           && e.event.deliveryId == DeliveryIdAt(ledger, sink)
    {
      var e :| e in current && IsNewest(e, channel, ledger.lastApplied) && e.Sink() == sink
               && e.event.deliveryId == DeliveryIdAt(ledger, sink);
      assert e in current + [d];
    }
  }

  lemma AgainLedger(book: Book, d: Delivery, ledger: Ledger)
    requires d.Channel() in book.ledgers && ledger == book.ledgers[d.Channel()]
    requires d.event.revision == ledger.lastApplied && PreflightAgain(book, d, ledger).1.accepted
    ensures d.Channel() in PreflightAgain(book, d, ledger).0.ledgers
    ensures
      var next := PreflightAgain(book, d, ledger).0.ledgers[d.Channel()];
      && next.versionedSeen == ledger.versionedSeen && next.lastApplied == ledger.lastApplied
      && next.state == ledger.state == d.State() && next.eventById == ledger.eventById
      && (forall sink :: DeliveryIdAt(next, sink)
                         == if sink == d.Sink() then d.event.deliveryId else DeliveryIdAt(ledger, sink))
    ensures DeliveryIdAt(ledger, d.Sink()) == "" || DeliveryIdAt(ledger, d.Sink()) == d.event.deliveryId
  {
  }

  /** Another delivery of the revision that is shown. */
  lemma AgainTells(ledger: Ledger, next: Ledger, current: seq<Delivery>, d: Delivery)
    requires NewestTold(ledger, current, d.Channel()) && EventsTold(ledger.eventById, current, d.Channel())
    requires SinksTold(ledger, current, d.Channel())
    requires next.versionedSeen && next.lastApplied == ledger.lastApplied == d.event.revision
    requires next.state == ledger.state == d.State() && next.eventById == ledger.eventById
    requires forall sink :: DeliveryIdAt(next, sink)
                         == if sink == d.Sink() then d.event.deliveryId else DeliveryIdAt(ledger, sink)
    requires DeliveryIdAt(ledger, d.Sink()) == "" || DeliveryIdAt(ledger, d.Sink()) == d.event.deliveryId
    ensures NewestTold(next, current + [d], d.Channel()) && EventsTold(next.eventById, current + [d], d.Channel())
    ensures SinksTold(next, current + [d], d.Channel())
  {
    AgainNewest(ledger, next, current, d);
    AgainEvents(ledger, next, current, d);
    AgainSinks(ledger, next, current, d);
  }

  lemma AgainNewest(ledger: Ledger, next: Ledger, current: seq<Delivery>, d: Delivery)
    requires NewestTold(ledger, current, d.Channel()) && d.event.revision == ledger.lastApplied && d.State() == ledger.state
    requires next.versionedSeen && next.lastApplied == ledger.lastApplied && next.state == ledger.state
    ensures NewestTold(next, current + [d], d.Channel())
  {
    assert d in current + [d] && IsNewest(d, d.Channel(), next.lastApplied);
  }

  lemma AgainEvents(ledger: Ledger, next: Ledger, current: seq<Delivery>, d: Delivery)
    requires EventsTold(ledger.eventById, current, d.Channel()) && NewestTold(ledger, current, d.Channel())
    requires d.event.revision == ledger.lastApplied && d.State() == ledger.state && next.eventById == ledger.eventById
    ensures EventsTold(next.eventById, current + [d], d.Channel())
  {
    var f :| f in current && IsNewest(f, d.Channel(), ledger.lastApplied);
    assert f.State() == d.State();
    assert f.event.eventId == d.event.eventId && f.Revised() == d.Revised();
    forall id <- next.eventById
      ensures exists e <- current + [d] :: e.Channel() == d.Channel() && e.event.eventId == id
    {
      var e :| e in current && e.Channel() == d.Channel() && e.event.eventId == id;
      assert e in current + [d];
    }
  }

  lemma AgainSinks(ledger: Ledger, next: Ledger, current: seq<Delivery>, d: Delivery)
    requires SinksTold(ledger, current, d.Channel()) && d.event.revision == ledger.lastApplied
    requires next.lastApplied == ledger.lastApplied
    requires DeliveryIdAt(ledger, d.Sink()) == "" || DeliveryIdAt(ledger, d.Sink()) == d.event.deliveryId
    requires forall sink :: DeliveryIdAt(next, sink)
                         == if sink == d.Sink() then d.event.deliveryId else DeliveryIdAt(ledger, sink)
    ensures SinksTold(next, current + [d], d.Channel())
  {
    var all := current + [d];
    SinksStay(ledger, current, d, d.Channel());
    assert d in all && IsNewest(d, d.Channel(), next.lastApplied);
    forall sink | DeliveryIdAt(next, sink) != ""
      ensures exists e <- all :: IsNewest(e, d.Channel(), next.lastApplied) && e.Sink() == sink
                                 && e.event.deliveryId == DeliveryIdAt(next, sink)
    {
      if sink != d.Sink() {
        assert DeliveryIdAt(ledger, sink) != "";
      }
    }
  }

  /** The first delivery of a newer revision. */
  lemma NewTells(book: Book, current: seq<Delivery>, d: Delivery)
    requires LedgerTold(book.ledgers, current, d.Channel())
    requires d.Channel() in book.ledgers ==> d.event.revision > book.ledgers[d.Channel()].lastApplied
    requires d.Channel() in book.ledgers && d.event.eventId in book.ledgers[d.Channel()].eventById ==>
               book.ledgers[d.Channel()].eventById[d.event.eventId] == d.Revised()
    ensures LedgerTold(PreflightNew(book, d).0.ledgers, current + [d], d.Channel())
  {
    var next := PreflightNew(book, d).0.ledgers[d.Channel()];
    var events := if d.Channel() in book.ledgers then book.ledgers[d.Channel()].eventById else map[];
    assert EventsTold(events, current, d.Channel());
    NewEvents(events, current, d);
    assert forall e <- current :: e.Channel() == d.Channel() ==> e.event.revision < d.event.revision;
    NewSinks(next, current, d);
  }

  lemma NewEvents(events: map<string, EventIdentity>, current: seq<Delivery>, d: Delivery)
    requires EventsTold(events, current, d.Channel())
    requires d.event.eventId in events ==> events[d.event.eventId] == d.Revised()
    ensures EventsTold(events[d.event.eventId := d.Revised()], current + [d], d.Channel())
  {
    var all := current + [d];
    assert d in all;
    var next := events[d.event.eventId := d.Revised()];
    forall id <- next
      ensures exists e <- all :: e.Channel() == d.Channel() && e.event.eventId == id
    {
      if id != d.event.eventId {
        var e :| e in current && e.Channel() == d.Channel() && e.event.eventId == id;
        assert e in all;
      }
    }
  }

  lemma NewSinks(next: Ledger, current: seq<Delivery>, d: Delivery)
    requires next.versionedSeen && next.lastApplied == d.event.revision && next.state == d.State()
    requires next.deliveryIdBySink == map[d.Sink() := d.event.deliveryId]
    requires forall e <- current :: e.Channel() == d.Channel() ==> e.event.revision < d.event.revision
    ensures NewestTold(next, current + [d], d.Channel()) && SinksTold(next, current + [d], d.Channel())
  {
    assert d in current + [d] && IsNewest(d, d.Channel(), next.lastApplied);
  }

  /** A message that is taken and not outdated is told of; any other one leaves the book as it is. */
  lemma OneMoreTold(book: Book, current: seq<Delivery>, d: Delivery)
    requires Told(book, current)
    ensures Told(Preflight(book, d).0,
                 if d.Revisioned() && Preflight(book, d).1.accepted && !IsOutdated(current, d) then current + [d] else current)
  {
    assert LedgerTold(book.ledgers, current, d.Channel());
    OutdatedIsStale(book, current, d);
    if d.Revisioned() && Preflight(book, d).1.accepted && !IsOutdated(current, d) {
      AcceptedTold(book, current, d);
    }
  }

  lemma AcceptedTold(book: Book, current: seq<Delivery>, d: Delivery)
    requires Told(book, current) && d.Revisioned() && Preflight(book, d).1.accepted
    requires d.Channel() in book.ledgers ==> d.event.revision >= book.ledgers[d.Channel()].lastApplied
    ensures Told(Preflight(book, d).0, current + [d])
  {
    var next := Preflight(book, d).0;
    assert LedgerTold(book.ledgers, current, d.Channel());
    OwnLedgerTold(book, current, d);
    forall channel
      ensures LedgerTold(next.ledgers, current + [d], channel)
    {
      if channel != d.Channel() {
        PreflightKeepsOtherLedgers(book, d, channel);
        assert LedgerTold(book.ledgers, current, channel);
        OtherLedgerTold(book.ledgers, next.ledgers, current, d, channel);
      }
    }
  }

  lemma OwnLedgerTold(book: Book, current: seq<Delivery>, d: Delivery)
    requires DeliveriesTold(book.deliveries, current) && LedgerTold(book.ledgers, current, d.Channel())
    requires d.Revisioned() && Preflight(book, d).1.accepted
    requires d.Channel() in book.ledgers ==> d.event.revision >= book.ledgers[d.Channel()].lastApplied
    ensures DeliveriesTold(Preflight(book, d).0.deliveries, current + [d])
    ensures LedgerTold(Preflight(book, d).0.ledgers, current + [d], d.Channel())
  {
    Booked(book, d);
    RegisterTells(book, current, d);
    if d.Channel() in book.ledgers && d.event.revision == book.ledgers[d.Channel()].lastApplied {
      AgainTold(book, current, d);
    } else {
      NewTells(book, current, d);
    }
  }

  lemma Booked(book: Book, d: Delivery)
    requires d.Revisioned() && Preflight(book, d).1.accepted
    requires d.Channel() in book.ledgers ==>
               book.ledgers[d.Channel()].versionedSeen && d.event.revision >= book.ledgers[d.Channel()].lastApplied
    ensures Preflight(book, d)
         == if d.Channel() in book.ledgers && d.event.revision == book.ledgers[d.Channel()].lastApplied
            then PreflightAgain(book, d, book.ledgers[d.Channel()]) else PreflightNew(book, d)
    ensures Preflight(book, d).0.deliveries == Register(book, d)
    ensures d.Key() in book.deliveries ==> book.deliveries[d.Key()] == d.Identity()
    ensures d.Channel() in book.ledgers && d.event.eventId in book.ledgers[d.Channel()].eventById ==>
              book.ledgers[d.Channel()].eventById[d.event.eventId] == d.Revised()
  {
  }

  lemma AgainTold(book: Book, current: seq<Delivery>, d: Delivery)
    requires d.Channel() in book.ledgers && LedgerTold(book.ledgers, current, d.Channel())
    requires d.event.revision == book.ledgers[d.Channel()].lastApplied
    requires PreflightAgain(book, d, book.ledgers[d.Channel()]).1.accepted
    ensures LedgerTold(PreflightAgain(book, d, book.ledgers[d.Channel()]).0.ledgers, current + [d], d.Channel())
  {
    var ledger := book.ledgers[d.Channel()];
    AgainLedger(book, d, ledger);
    AgainTells(ledger, PreflightAgain(book, d, ledger).0.ledgers[d.Channel()], current, d);
  }

  lemma TakenIsAccepted(s: FireState, d: Delivery)
    requires d.Revisioned()
    ensures Taken(s, d) <==> Preflight(s.book, d).1.accepted
  {
    var (book, verdict) := Preflight(s.book, d);
    ActionHasNoHistory(s.(book := book), d.event, verdict.revisioned);
  }

  lemma {:induction false} RunIsTold(s: FireState, ds: seq<Delivery>)
    requires s.book == EmptyBook
    ensures Told(Run(s, ds).book, Current(s, ds))
  {
    if ds != [] {
      var before, d := Run(s, ds[..|ds| - 1]), ds[|ds| - 1];
      RunIsTold(s, ds[..|ds| - 1]);
      BookAfter(before, d);
      OneMoreTold(before.book, Current(s, ds[..|ds| - 1]), d);
      if d.Revisioned() {
        TakenIsAccepted(before, d);
      }
    }
  }

  // ---------- the theorems ----------

  /** Whatever the senders do, a revisioned message is answered with an error exactly when it clashes with one
      that was taken: it reuses a delivery or an event of any revision, or the newest revision of its channel. */
  lemma RefusedExactly(s: FireState, ds: seq<Delivery>, d: Delivery)
    requires s.book == EmptyBook && d.Revisioned()
    ensures Taken(Run(s, ds), d) <==> !Clashes(Current(s, ds), d)
  {
    RunIsTold(s, ds);
    BookRefuses(Run(s, ds).book, Current(s, ds), d);
    TakenIsAccepted(Run(s, ds), d);
  }

  /** Whether a message without a revision fits the alarm that is shown. */
  predicate Fits(mark: Mark, action: Action, id: string, retained: bool) {
    match action
    case Acknowledge => if mark == Quiet then retained else mark.id == id
    case Clear => mark == Quiet || mark.id == id
    case _ => true
  }

  /** One without a revision is taken exactly when none with a revision was taken on its channel before, and
      it fits the alarm that is shown. */
  lemma LegacyTakenExactly(s: FireState, ds: seq<Delivery>, d: Delivery)
    requires s.book == EmptyBook && AlarmsAreSound(s) && !d.Revisioned()
    requires forall e <- ds :: Validated(e.event)
    ensures Taken(Run(s, ds), d)
       <==> && (forall e <- Current(s, ds) :: e.Channel() != d.Channel())
            && Fits(MarkOf(Run(s, ds), d.Channel()), d.event.action, d.event.alarmId, d.retained)
  {
    RunIsTold(s, ds);
    RunKeepsAlarmsSound(s, ds);
    var before := Run(s, ds);
    assert LedgerTold(before.book.ledgers, Current(s, ds), d.Channel());
    FitsAlarm(before, d);
    var (book, verdict) := Preflight(before.book, d);
    ActionHasNoHistory(before.(book := book), d.event, verdict.revisioned);
    if d.Channel() in before.book.ledgers {
      var ledger := before.book.ledgers[d.Channel()];
      var e :| e in Current(s, ds) && IsNewest(e, d.Channel(), ledger.lastApplied);
    }
  }

  lemma FitsAlarm(s: FireState, d: Delivery)
    requires AlarmsAreSound(s)
    ensures MismatchesShownAlarm(s, d) <==> !Fits(MarkOf(s, d.Channel()), d.event.action, d.event.alarmId, d.retained)
  {
  }
}

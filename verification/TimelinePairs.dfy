/** The local evidence timeline: the captures of one parking session form one row. */
module TimelinePairs {
  import opened Text
  import opened CaptureGroups

  datatype Entry = Entry(slotId: string, plateNumber: string, state: string, capture: Group)

  /** Captures without a session stand alone. */
  datatype PairKey =
    | InSession(slotId: string, sessionId: int)
    | Unpaired(slotId: string, imageId: int, timestamp: Option<int>, url: string)

  datatype Pair = Pair(
    key: PairKey,
    slotId: string,
    plateNumber: string,
    state: string,
    sessionId: int,
    firstEntryIndex: nat,
    latestEntryIndex: nat,
    captureCount: nat)

  function KeyOf(e: Entry): PairKey {
    if e.capture.sessionId > 0 then InSession(e.slotId, e.capture.sessionId)
    else
      Unpaired(e.slotId, e.capture.imageId, e.capture.timestamp,
               match Preferred(e.capture) case None => "" case Some(image) => image.url)
  }

  /** How many of the first n entries carry this key. */
  function Count(all: seq<Entry>, n: nat, key: PairKey): nat
    requires n <= |all|
  {
    if n == 0 then 0 else Count(all, n - 1, key) + if KeyOf(all[n - 1]) == key then 1 else 0
  }

  predicate HasKey(pairs: seq<Pair>, key: PairKey) {
    exists p <- pairs :: p.key == key
  }

  /** The pair of the first n entries with its key. */
  ghost predicate Covers(p: Pair, all: seq<Entry>, n: nat)
    requires n <= |all|
  {
    && p.firstEntryIndex <= p.latestEntryIndex < n
    && KeyOf(all[p.firstEntryIndex]) == p.key && KeyOf(all[p.latestEntryIndex]) == p.key
    && (forall i :: 0 <= i < n && KeyOf(all[i]) == p.key ==> p.firstEntryIndex <= i <= p.latestEntryIndex)
    && p.captureCount == Count(all, n, p.key)
    && p.slotId == all[p.firstEntryIndex].slotId && p.plateNumber == all[p.firstEntryIndex].plateNumber
    && p.state == all[p.firstEntryIndex].state && p.sessionId == all[p.firstEntryIndex].capture.sessionId
  }

  predicate DistinctKeys(pairs: seq<Pair>) {
    forall i, j :: 0 <= i < j < |pairs| ==> pairs[i].key != pairs[j].key
  }

  /** One pair for each key that is to be shown and occurs among the first n entries. */
  ghost predicate Paired(all: seq<Entry>, n: nat, visible: set<PairKey>, pairs: seq<Pair>)
    requires n <= |all|
  {
    && DistinctKeys(pairs)
    && (forall p <- pairs :: p.key in visible && Covers(p, all, n))
    && (forall i :: 0 <= i < n && KeyOf(all[i]) in visible ==> HasKey(pairs, KeyOf(all[i])))
  }

  // ---------- one more entry ----------

  lemma StaysCovered(p: Pair, all: seq<Entry>, n: nat)
    requires n < |all| && Covers(p, all, n) && KeyOf(all[n]) != p.key
    ensures Covers(p, all, n + 1)
  {
  }

  lemma CoversOneMore(p: Pair, all: seq<Entry>, n: nat)
    requires n < |all| && Covers(p, all, n) && KeyOf(all[n]) == p.key
    ensures Covers(p.(latestEntryIndex := n, captureCount := p.captureCount + 1), all, n + 1)
  {
  }

  function FirstPair(e: Entry, index: nat): Pair {
    Pair(KeyOf(e), e.slotId, e.plateNumber, e.state, e.capture.sessionId, index, index, 1)
  }

  lemma {:induction false} CountOfNone(all: seq<Entry>, n: nat, key: PairKey)
    requires n <= |all| && forall i :: 0 <= i < n ==> KeyOf(all[i]) != key
    ensures Count(all, n, key) == 0
  {
    if n > 0 {
      CountOfNone(all, n - 1, key);
    }
  }

  lemma CoversFirst(all: seq<Entry>, n: nat)
    requires n < |all| && forall i :: 0 <= i < n ==> KeyOf(all[i]) != KeyOf(all[n])
    ensures Covers(FirstPair(all[n], n), all, n + 1)
  {
    CountOfNone(all, n, KeyOf(all[n]));
  }

  lemma HiddenEntry(all: seq<Entry>, n: nat, visible: set<PairKey>, pairs: seq<Pair>)
    requires n < |all| && Paired(all, n, visible, pairs) && KeyOf(all[n]) !in visible
    ensures Paired(all, n + 1, visible, pairs)
  {
    forall p <- pairs
      ensures Covers(p, all, n + 1)
    {
      StaysCovered(p, all, n);
    }
  }

  lemma KnownEntry(all: seq<Entry>, n: nat, visible: set<PairKey>, pairs: seq<Pair>, at: nat)
    requires n < |all| && Paired(all, n, visible, pairs)
    requires at < |pairs| && pairs[at].key == KeyOf(all[n])
    ensures
      var p := pairs[at];
      Paired(all, n + 1, visible, pairs[at := p.(latestEntryIndex := n, captureCount := p.captureCount + 1)])
  {
    var p := pairs[at];
    var updated := p.(latestEntryIndex := n, captureCount := p.captureCount + 1);
    var next := pairs[at := updated];
    forall j | 0 <= j < |next|
      ensures next[j].key in visible && Covers(next[j], all, n + 1) && next[j].key == pairs[j].key
    {
      assert pairs[j] in pairs;
      if j == at {
        CoversOneMore(p, all, n);
      } else {
        StaysCovered(pairs[j], all, n);
      }
    }
    forall i | 0 <= i < n + 1 && KeyOf(all[i]) in visible
      ensures HasKey(next, KeyOf(all[i]))
    {
      if i < n {
        var q :| q in pairs && q.key == KeyOf(all[i]);
        var j :| 0 <= j < |pairs| && pairs[j] == q;
        assert next[j] in next;
      } else {
        assert next[at] in next;
      }
    }
  }

  lemma NewEntry(all: seq<Entry>, n: nat, visible: set<PairKey>, pairs: seq<Pair>)
    requires n < |all| && Paired(all, n, visible, pairs)
    requires KeyOf(all[n]) in visible && !HasKey(pairs, KeyOf(all[n]))
    ensures Paired(all, n + 1, visible, pairs + [FirstPair(all[n], n)])
  {
    var first := FirstPair(all[n], n);
    var next := pairs + [first];
    forall i | 0 <= i < n
      ensures KeyOf(all[i]) != KeyOf(all[n])
    {
      assert KeyOf(all[i]) in visible ==> HasKey(pairs, KeyOf(all[i]));
    }
    CoversFirst(all, n);
    forall p <- next
      ensures p.key in visible && Covers(p, all, n + 1)
    {
      if p != first {
        StaysCovered(p, all, n);
      }
    }
    forall i | 0 <= i < n + 1 && KeyOf(all[i]) in visible
      ensures HasKey(next, KeyOf(all[i]))
    {
      if i < n {
        var q :| q in pairs && q.key == KeyOf(all[i]);
        assert q in next;
      } else {
        assert first in next;
      }
    }
  }

  /** The table of the pairs by key. */
  ghost predicate Indexed(pairs: seq<Pair>, table: map<PairKey, nat>) {
    && (forall key <- table :: table[key] < |pairs| && pairs[table[key]].key == key)
    && (forall j :: 0 <= j < |pairs| ==> pairs[j].key in table)
  }

  lemma IndexedKept(pairs: seq<Pair>, table: map<PairKey, nat>, at: nat, updated: Pair)
    requires Indexed(pairs, table) && at < |pairs| && updated.key == pairs[at].key
    ensures Indexed(pairs[at := updated], table)
  {
  }

  lemma IndexedGrows(pairs: seq<Pair>, table: map<PairKey, nat>, p: Pair)
    requires Indexed(pairs, table) && p.key !in table
    ensures Indexed(pairs + [p], table[p.key := |pairs|])
  {
  }

  lemma NotIndexed(pairs: seq<Pair>, table: map<PairKey, nat>, key: PairKey)
    requires Indexed(pairs, table) && key !in table
    ensures !HasKey(pairs, key)
  {
  }

  method VisibleKeys(shown: seq<Entry>) returns (visible: set<PairKey>)
    ensures visible == set e <- shown :: KeyOf(e)
  {
    visible := {};
    for i := 0 to |shown|
      invariant visible == set e <- shown[..i] :: KeyOf(e)
    {
      assert shown[..i + 1] == shown[..i] + [shown[i]];
      visible := visible + {KeyOf(shown[i])};
    }
    assert shown[..|shown|] == shown;
  }

  /** The loops of the timeline: the keys to show, then the pairs over all entries. */
  method BuildPairs(all: seq<Entry>, shown: seq<Entry>) returns (pairs: seq<Pair>)
    ensures Paired(all, |all|, set e <- shown :: KeyOf(e), pairs)
  {
    var visible := VisibleKeys(shown);
    pairs := [];
    var pairIndexes: map<PairKey, nat> := map[];
    for entryIndex := 0 to |all|
      invariant Paired(all, entryIndex, visible, pairs)
      invariant Indexed(pairs, pairIndexes)
    {
      pairs, pairIndexes := AddEntry(all, entryIndex, visible, pairs, pairIndexes);
    }
  }

  /** The body of that loop. */
  method AddEntry(all: seq<Entry>, entryIndex: nat, visible: set<PairKey>, pairs: seq<Pair>, table: map<PairKey, nat>)
    returns (next: seq<Pair>, nextTable: map<PairKey, nat>)
    requires entryIndex < |all| && Paired(all, entryIndex, visible, pairs) && Indexed(pairs, table)
    ensures Paired(all, entryIndex + 1, visible, next) && Indexed(next, nextTable)
  {
    var entry := all[entryIndex];
    var key := KeyOf(entry);
    next, nextTable := pairs, table;
    if key !in visible {
      HiddenEntry(all, entryIndex, visible, pairs);
      return;
    }
    if key in table {
      var at := table[key];
      var updated := pairs[at].(latestEntryIndex := entryIndex, captureCount := pairs[at].captureCount + 1);
      KnownEntry(all, entryIndex, visible, pairs, at);
      IndexedKept(pairs, table, at, updated);
      next := pairs[at := updated];
    } else {
      NotIndexed(pairs, table, key);
      NewEntry(all, entryIndex, visible, pairs);
      IndexedGrows(pairs, table, FirstPair(entry, entryIndex));
      nextTable := table[key := |pairs|];
      next := pairs + [FirstPair(entry, entryIndex)];
    }
  }

  /** Every shown entry has its row, and no other row has that key. */
  lemma ShownHasOneRow(all: seq<Entry>, shown: seq<Entry>, pairs: seq<Pair>, e: Entry)
    requires Paired(all, |all|, set x <- shown :: KeyOf(x), pairs)
    requires e in shown && e in all
    ensures exists j :: 0 <= j < |pairs| && pairs[j].key == KeyOf(e)
    ensures forall i, j :: 0 <= i < |pairs| && 0 <= j < |pairs| && pairs[i].key == KeyOf(e) == pairs[j].key ==> i == j
  {
    var i :| 0 <= i < |all| && all[i] == e;
    assert HasKey(pairs, KeyOf(all[i]));
  }

  // ---------- which entries share a row ----------

  function UrlOf(e: Entry): string {
    match Preferred(e.capture) case None => "" case Some(image) => image.url
  }

  /** Entries of one slot share a row if they are of one session, or both of none and the same capture. */
  predicate SameRow(a: Entry, b: Entry) {
    && a.slotId == b.slotId
    && (if a.capture.sessionId > 0 || b.capture.sessionId > 0 then a.capture.sessionId == b.capture.sessionId
        else a.capture.imageId == b.capture.imageId && a.capture.timestamp == b.capture.timestamp && UrlOf(a) == UrlOf(b))
  }

  lemma SameKey(a: Entry, b: Entry)
    ensures KeyOf(a) == KeyOf(b) <==> SameRow(a, b)
  {
  }

  function Sharing(all: seq<Entry>, n: nat, e: Entry): nat
    requires n <= |all|
  {
    if n == 0 then 0 else Sharing(all, n - 1, e) + if SameRow(all[n - 1], e) then 1 else 0
  }

  lemma {:induction false} SharingIsCount(all: seq<Entry>, n: nat, e: Entry)
    requires n <= |all|
    ensures Sharing(all, n, e) == Count(all, n, KeyOf(e))
  {
    if n > 0 {
      SharingIsCount(all, n - 1, e);
      SameKey(all[n - 1], e);
    }
  }

  /** The row of an entry: from the first to the latest of those that share it, their number, and the texts
      of the first one. */
  ghost predicate IsRowOf(p: Pair, all: seq<Entry>, e: Entry) {
    && p.firstEntryIndex <= p.latestEntryIndex < |all|
    && SameRow(all[p.firstEntryIndex], e) && SameRow(all[p.latestEntryIndex], e)
    && (forall i :: 0 <= i < |all| && SameRow(all[i], e) ==> p.firstEntryIndex <= i <= p.latestEntryIndex)
    && p.captureCount == Sharing(all, |all|, e)
    && p.slotId == all[p.firstEntryIndex].slotId && p.plateNumber == all[p.firstEntryIndex].plateNumber
    && p.state == all[p.firstEntryIndex].state && p.sessionId == all[p.firstEntryIndex].capture.sessionId
  }

  lemma RowHasKey(p: Pair, all: seq<Entry>, e: Entry)
    requires Covers(p, all, |all|)
    ensures IsRowOf(p, all, e) <==> p.key == KeyOf(e)
  {
    SharingIsCount(all, |all|, e);
    forall i | 0 <= i < |all|
      ensures KeyOf(all[i]) == KeyOf(e) <==> SameRow(all[i], e)
    {
      SameKey(all[i], e);
    }
  }

  /** An entry has a row if and only if it shares one with a shown entry, and then exactly one. */
  lemma RowsExactly(all: seq<Entry>, shown: seq<Entry>, pairs: seq<Pair>, a: nat)
    requires Paired(all, |all|, set e <- shown :: KeyOf(e), pairs) && a < |all|
    ensures (exists e <- shown :: SameRow(e, all[a])) <==> exists j :: 0 <= j < |pairs| && IsRowOf(pairs[j], all, all[a])
    ensures forall i, j :: 0 <= i < |pairs| && 0 <= j < |pairs| && IsRowOf(pairs[i], all, all[a]) && IsRowOf(pairs[j], all, all[a])
                           ==> i == j
  {
    forall j | 0 <= j < |pairs|
      ensures IsRowOf(pairs[j], all, all[a]) <==> pairs[j].key == KeyOf(all[a])
      ensures pairs[j].key in set e <- shown :: KeyOf(e)
    {
      assert pairs[j] in pairs;
      RowHasKey(pairs[j], all, all[a]);
    }
    forall e <- shown
      ensures KeyOf(e) == KeyOf(all[a]) <==> SameRow(e, all[a])
    {
      SameKey(e, all[a]);
    }
    if exists e <- shown :: SameRow(e, all[a]) {
      assert KeyOf(all[a]) in set e <- shown :: KeyOf(e);
      assert HasKey(pairs, KeyOf(all[a]));
      var p :| p in pairs && p.key == KeyOf(all[a]);
      var j :| 0 <= j < |pairs| && pairs[j] == p;
      assert IsRowOf(pairs[j], all, all[a]);
    }
  }

  // ---------- the rows, in whatever order they are sorted ----------

  lemma SortingKeepsPairs(all: seq<Entry>, visible: set<PairKey>, pairs: seq<Pair>, sorted: seq<Pair>, order: seq<nat>)
    requires Paired(all, |all|, visible, pairs) && IsReordering(pairs, sorted, order)
    ensures Paired(all, |all|, visible, sorted)
  {
    forall i, j | 0 <= i < j < |sorted|
      ensures sorted[i].key != sorted[j].key
    {
      assert order[i] != order[j];
    }
    forall p <- sorted
      ensures p.key in visible && Covers(p, all, |all|)
    {
      var j :| 0 <= j < |sorted| && sorted[j] == p;
      assert pairs[order[j]] in pairs;
    }
    forall i | 0 <= i < |all| && KeyOf(all[i]) in visible
      ensures HasKey(sorted, KeyOf(all[i]))
    {
      var q :| q in pairs && q.key == KeyOf(all[i]);
      var k: nat :| k < |pairs| && pairs[k] == q;
      assert k in order;
      var j :| 0 <= j < |order| && order[j] == k;
      assert sorted[j] in sorted;
    }
  }

  function CaptureTotal(pairs: seq<Pair>): nat {
    if pairs == [] then 0 else CaptureTotal(pairs[..|pairs| - 1]) + pairs[|pairs| - 1].captureCount
  }

  /** The entries that belong to a visible pair. */
  function VisibleCount(all: seq<Entry>, n: nat, visible: set<PairKey>): nat
    requires n <= |all|
  {
    if n == 0 then 0 else VisibleCount(all, n - 1, visible) + if KeyOf(all[n - 1]) in visible then 1 else 0
  }

  function CountTotal(all: seq<Entry>, n: nat, pairs: seq<Pair>): nat
    requires n <= |all|
  {
    if pairs == [] then 0
    else CountTotal(all, n, pairs[..|pairs| - 1]) + Count(all, n, pairs[|pairs| - 1].key)
  }

  lemma {:induction false} CountTotalGrows(all: seq<Entry>, n: nat, pairs: seq<Pair>)
    requires 0 < n <= |all| && DistinctKeys(pairs)
    ensures CountTotal(all, n, pairs)
         == CountTotal(all, n - 1, pairs) + if HasKey(pairs, KeyOf(all[n - 1])) then 1 else 0
  {
    if pairs != [] {
      var rest, last := pairs[..|pairs| - 1], pairs[|pairs| - 1];
      CountTotalGrows(all, n, rest);
      assert pairs == rest + [last];
      assert forall p <- rest :: p.key != last.key;
      assert HasKey(pairs, KeyOf(all[n - 1])) <==> HasKey(rest, KeyOf(all[n - 1])) || last.key == KeyOf(all[n - 1]);
    }
  }

  lemma {:induction false} CountTotalIsVisible(all: seq<Entry>, n: nat, visible: set<PairKey>, pairs: seq<Pair>)
    requires n <= |all| && DistinctKeys(pairs)
    requires forall i :: 0 <= i < n ==> (HasKey(pairs, KeyOf(all[i])) <==> KeyOf(all[i]) in visible)
    ensures CountTotal(all, n, pairs) == VisibleCount(all, n, visible)
    decreases n, |pairs|
  {
    if n > 0 {
      CountTotalGrows(all, n, pairs);
      CountTotalIsVisible(all, n - 1, visible, pairs);
    } else if pairs != [] {
      CountTotalIsVisible(all, 0, visible, pairs[..|pairs| - 1]);
    }
  }

  lemma {:induction false} TotalIsCounted(all: seq<Entry>, pairs: seq<Pair>)
    requires forall p <- pairs :: p.captureCount == Count(all, |all|, p.key)
    ensures CaptureTotal(pairs) == CountTotal(all, |all|, pairs)
  {
    if pairs != [] {
      assert pairs[|pairs| - 1] in pairs;
      TotalIsCounted(all, pairs[..|pairs| - 1]);
    }
  }

  /** Every entry of a visible pair is counted in exactly one row. */
  lemma CapturesAreConserved(all: seq<Entry>, visible: set<PairKey>, pairs: seq<Pair>)
    requires Paired(all, |all|, visible, pairs)
    ensures CaptureTotal(pairs) == VisibleCount(all, |all|, visible)
  {
    TotalIsCounted(all, pairs);
    CountTotalIsVisible(all, |all|, visible, pairs);
  }
}

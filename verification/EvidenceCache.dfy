/** The images remembered for each slot while the client runs. */
module EvidenceCache {
  import opened Text
  import opened SlotIds
  import opened CaptureGroups

  type Cache = map<string, seq<Image>>

  /** The image lists of one state update, in the order the table yields them. */
  type Update = seq<(string, seq<Image>)>

  function Cached(cache: Cache, slot: string): seq<Image> {
    if slot in cache then cache[slot] else []
  }

  function Merge(cache: Cache, update: Update): Cache {
    if update == [] then cache
    else
      var before := Merge(cache, update[..|update| - 1]);
      var (raw, images) := update[|update| - 1];
      var slot := NormalizeSlotId(raw);
      if slot == "" || images == [] then before else before[slot := images]
  }

  /** The last nonempty list that an update gives for a slot. */
  function LatestIn(update: Update, slot: string): seq<Image> {
    if update == [] then []
    else
      var (raw, images) := update[|update| - 1];
      if NormalizeSlotId(raw) == slot && images != [] then images else LatestIn(update[..|update| - 1], slot)
  }

  function Latest(updates: seq<Update>, slot: string): seq<Image> {
    if updates == [] then []
    else
      var last := LatestIn(updates[|updates| - 1], slot);
      if last != [] then last else Latest(updates[..|updates| - 1], slot)
  }

  function MergeAll(updates: seq<Update>): Cache {
    if updates == [] then map[] else Merge(MergeAll(updates[..|updates| - 1]), updates[|updates| - 1])
  }

  /** A listing with images that the cache does not hold for its slot. */
  predicate Brings(cache: Cache, listing: (string, seq<Image>)) {
    var slot := NormalizeSlotId(listing.0);
    slot != "" && listing.1 != [] && Cached(cache, slot) != listing.1
  }

  predicate BringsAt(cache: Cache, update: Update, i: nat)
    requires i < |update|
  {
    Brings(Merge(cache, update[..i]), update[i])
  }

  /** Some listing brings images that were not there when its turn came. */
  ghost predicate BringsNews(cache: Cache, update: Update) {
    exists i :: 0 <= i < |update| && BringsAt(cache, update, i)
  }

  lemma BringsInPrefix(cache: Cache, update: Update, n: nat, k: nat)
    requires k < n <= |update|
    ensures BringsAt(cache, update[..n], k) <==> BringsAt(cache, update, k)
  {
    assert update[..n][..k] == update[..k];
  }

  lemma OneMoreListing(cache: Cache, update: Update, n: nat)
    requires n < |update|
    ensures BringsNews(cache, update[..n + 1]) <==> BringsNews(cache, update[..n]) || BringsAt(cache, update, n)
  {
    BringsInPrefix(cache, update, n + 1, n);
    if BringsNews(cache, update[..n]) {
      var k :| 0 <= k < n && BringsAt(cache, update[..n], k);
      BringsInPrefix(cache, update, n, k);
      BringsInPrefix(cache, update, n + 1, k);
    }
    if BringsNews(cache, update[..n + 1]) {
      var k :| 0 <= k < n + 1 && BringsAt(cache, update[..n + 1], k);
      BringsInPrefix(cache, update, n + 1, k);
      if k < n {
        BringsInPrefix(cache, update, n, k);
      }
    }
  }

  lemma QuietListing(cache: Cache, update: Update, n: nat)
    requires n < |update| && !BringsAt(cache, update, n)
    ensures Merge(cache, update[..n + 1]) == Merge(cache, update[..n])
  {
    assert update[..n + 1][..n] == update[..n];
    var before, slot := Merge(cache, update[..n]), NormalizeSlotId(update[n].0);
    if slot != "" && update[n].1 != [] {
      assert before[slot := update[n].1] == before;
    }
  }

  lemma LoudListing(cache: Cache, update: Update, n: nat)
    requires n < |update| && BringsAt(cache, update, n)
    ensures Merge(cache, update[..n + 1])
         == Merge(cache, update[..n])[NormalizeSlotId(update[n].0) := update[n].1]
  {
    assert update[..n + 1][..n] == update[..n];
  }

  class EvidencePage {
    var evidenceCache: Cache

    constructor ()
      ensures evidenceCache == map[]
    {
      evidenceCache := map[];
    }

    method MergeEvidenceCache(update: Update) returns (evidenceChanged: bool)
      modifies this
      ensures evidenceCache == Merge(old(evidenceCache), update)
      ensures evidenceChanged <==> BringsNews(old(evidenceCache), update)
    {
      evidenceChanged := false;
      for i := 0 to |update|
        invariant evidenceCache == Merge(old(evidenceCache), update[..i])
        invariant evidenceChanged <==> BringsNews(old(evidenceCache), update[..i])
      {
        OneMoreListing(old(evidenceCache), update, i);
        if BringsAt(old(evidenceCache), update, i) {
          LoudListing(old(evidenceCache), update, i);
        } else {
          QuietListing(old(evidenceCache), update, i);
        }
        var (raw, images) := update[i];
        var slot := NormalizeSlotId(raw);
        if slot != "" && images != [] {
          if Cached(evidenceCache, slot) != images {
            evidenceCache := evidenceCache[slot := images];
            evidenceChanged := true;
          }
        }
      }
      assert update[..|update|] == update;
    }
  }

  lemma {:induction false} MergeGivesLatest(cache: Cache, update: Update, slot: string)
    requires slot != ""
    ensures Cached(Merge(cache, update), slot)
         == if LatestIn(update, slot) != [] then LatestIn(update, slot) else Cached(cache, slot)
  {
    if update != [] {
      MergeGivesLatest(cache, update[..|update| - 1], slot);
    }
  }

  predicate OneListingEach(update: Update) {
    forall i, j :: 0 <= i < j < |update| ==> NormalizeSlotId(update[i].0) != NormalizeSlotId(update[j].0)
  }

  lemma {:induction false} NotListed(update: Update, slot: string)
    requires forall i :: 0 <= i < |update| ==> NormalizeSlotId(update[i].0) != slot
    ensures LatestIn(update, slot) == []
  {
    if update != [] {
      NotListed(update[..|update| - 1], slot);
    }
  }

  lemma {:induction false} ListedOnce(update: Update, i: nat)
    requires i < |update| && OneListingEach(update) && update[i].1 != []
    ensures LatestIn(update, NormalizeSlotId(update[i].0)) == update[i].1
  {
    if i < |update| - 1 {
      ListedOnce(update[..|update| - 1], i);
    }
  }

  lemma {:induction false} NoNewsNoChange(cache: Cache, update: Update)
    requires !BringsNews(cache, update)
    ensures Merge(cache, update) == cache
  {
    if update != [] {
      var n := |update| - 1;
      assert update[..n + 1] == update;
      OneMoreListing(cache, update, n);
      QuietListing(cache, update, n);
      NoNewsNoChange(cache, update[..n]);
    }
  }

  /** Where no slot is listed twice, a change is reported exactly when the cache has changed. */
  lemma NewsIsChange(cache: Cache, update: Update)
    requires OneListingEach(update)
    ensures BringsNews(cache, update) <==> Merge(cache, update) != cache
  {
    if BringsNews(cache, update) {
      var i :| 0 <= i < |update| && BringsAt(cache, update, i);
      var slot := NormalizeSlotId(update[i].0);
      NotListed(update[..i], slot);
      MergeGivesLatest(cache, update[..i], slot);
      ListedOnce(update, i);
      MergeGivesLatest(cache, update, slot);
      assert Cached(Merge(cache, update), slot) != Cached(cache, slot);
    } else {
      NoNewsNoChange(cache, update);
    }
  }

  /** After any run of updates the cache holds, for each slot, the last nonempty list that any of them
      gave: an update without images never makes a capture disappear. */
  lemma {:induction false} CacheHoldsLatest(updates: seq<Update>, slot: string)
    requires slot != ""
    ensures Cached(MergeAll(updates), slot) == Latest(updates, slot)
  {
    if updates != [] {
      CacheHoldsLatest(updates[..|updates| - 1], slot);
      MergeGivesLatest(MergeAll(updates[..|updates| - 1]), updates[|updates| - 1], slot);
    }
  }
}

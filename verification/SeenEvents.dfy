/** The bounded memory of event ids already shown to the operator. */
module SeenEvents {

  const SEEN_EVENT_LIMIT: nat := 256

  datatype Seen = Seen(ids: set<string>, order: seq<string>)

  const Nothing := Seen({}, [])

  /** Records an id and forgets the oldest one when the memory is full. */
  function Remember(seen: Seen, id: string): (Seen, bool) {
    if id == "" then (seen, true)
    else if id in seen.ids then (seen, false)
    else (Trim(Seen(seen.ids + {id}, seen.order + [id])), true)
  }

  function Trim(seen: Seen): Seen
    decreases |seen.order|
  {
    if |seen.order| <= SEEN_EVENT_LIMIT then seen
    else Trim(Seen(seen.ids - {seen.order[0]}, seen.order[1..]))
  }

  /** The set and the queue describe the same ids, without repetition. */
  ghost predicate Valid(seen: Seen) {
    && (forall id :: id in seen.ids <==> id in seen.order)
    && (forall i, j :: 0 <= i < j < |seen.order| ==> seen.order[i] != seen.order[j])
    && "" !in seen.order
    && |seen.order| <= SEEN_EVENT_LIMIT
  }

  lemma RememberKeepsValid(seen: Seen, id: string)
    requires Valid(seen)
    ensures Valid(Remember(seen, id).0)
  {
    if id != "" && id !in seen.ids && |seen.order| == SEEN_EVENT_LIMIT {
      var grown := seen.order + [id];
      var next := Remember(seen, id).0;
      assert next == Trim(Seen(seen.ids + {id} - {grown[0]}, grown[1..]));
      assert next.order == grown[1..];
      forall x
        ensures x in next.ids <==> x in next.order
      {
        if x in next.ids {
          assert x in grown;
          var i :| 0 <= i < |grown| && grown[i] == x;
          assert next.order[i - 1] == x;
        }
      }
    }
  }

  // ---------- refinement of a sliding window ----------

  /** The memory after a whole sequence of ids, oldest first. */
  function After(ids: seq<string>): Seen {
    if ids == [] then Nothing else Remember(After(ids[..|ids| - 1]), ids[|ids| - 1]).0
  }

  /** Whether the last id of the sequence counts as new. */
  predicate AcceptsLast(ids: seq<string>)
    requires ids != []
  {
    Remember(After(ids[..|ids| - 1]), ids[|ids| - 1]).1
  }

  /** The nonempty ids of the sequence that counted as new, in order. */
  function Accepted(ids: seq<string>): seq<string> {
    if ids == [] then []
    else
      var before := Accepted(ids[..|ids| - 1]);
      if ids[|ids| - 1] != "" && AcceptsLast(ids) then before + [ids[|ids| - 1]] else before
  }

  function LastWindow(ids: seq<string>): seq<string> {
    if |ids| <= 256 then ids else ids[|ids| - 256..]
  }

  /** The memory is always the window of the last accepted ids, and stays well formed. */
  lemma {:induction false} MemoryIsWindow(ids: seq<string>)
    ensures Valid(After(ids))
    ensures After(ids).order == LastWindow(Accepted(ids))
  {
    if ids != [] {
      var before := ids[..|ids| - 1];
      var id := ids[|ids| - 1];
      MemoryIsWindow(before);
      RememberKeepsValid(After(before), id);
      if id != "" {
        RememberedOrder(After(before), id);
        WindowOfWindow(Accepted(before), if id in After(before).order then [] else [id]);
        assert Accepted(before) + [] == Accepted(before);
      }
    }
  }

  /** A nonempty id is refused exactly when it is among the last 256 accepted ones. */
  lemma RefusedIffInWindow(ids: seq<string>)
    requires ids != [] && ids[|ids| - 1] != ""
    ensures !AcceptsLast(ids) <==> ids[|ids| - 1] in LastWindow(Accepted(ids[..|ids| - 1]))
  {
    MemoryIsWindow(ids[..|ids| - 1]);
  }

  /** Remembering, seen as a window: an id that is in it is refused, any other one is appended. */
  lemma RememberedOrder(seen: Seen, id: string)
    requires Valid(seen) && id != ""
    ensures Remember(seen, id).1 <==> id !in seen.order
    ensures Remember(seen, id).0.order == LastWindow(seen.order + if id in seen.order then [] else [id])
  {
    if id !in seen.order {
      var grown := seen.order + [id];
      if |seen.order| == SEEN_EVENT_LIMIT {
        assert Remember(seen, id).0 == Trim(Seen(seen.ids + {id} - {grown[0]}, grown[1..]));
      }
    } else {
      assert seen.order + [] == seen.order;
    }
  }

  lemma WindowOfWindow(ids: seq<string>, more: seq<string>)
    ensures LastWindow(LastWindow(ids) + more) == LastWindow(ids + more)
  {
    if |ids| > SEEN_EVENT_LIMIT {
      var dropped := |ids| - SEEN_EVENT_LIMIT;
      assert LastWindow(ids) + more == (ids + more)[dropped..];
    }
  }
}

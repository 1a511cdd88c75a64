/** Polygons as the camera returns them: another starting vertex or the opposite
    winding describes the same area, and each coordinate may be off by one. */
module Polygon {
  import opened Text
  import Json

  datatype Point = Point(x: real, y: real)

  function Distance(a: real, b: real): real {
    if a < b then b - a else a - b
  }

  predicate Near(p: Point, q: Point) {
    Distance(p.x, q.x) <= 1.0 && Distance(p.y, q.y) <= 1.0
  }

  /** The index k modulo n, for an index at most one turn away. */
  function Wrap(k: int, n: nat): (r: nat)
    requires 0 <= k + n && k < 2 * n
    ensures r < n
  {
    if k < 0 then k + n else if k < n then k else k - n
  }

  lemma {:induction false} MultiplesAreApart(n: nat, a: nat, b: nat)
    ensures a < b ==> n * a + n <= n * b
  {
    if a < b {
      MultiplesAreApart(n, a, b - 1);
      assert n * b == n * (b - 1) + n;
    }
  }

  lemma ModuloIs(n: nat, q: nat, r: nat)
    requires r < n
    ensures (n * q + r) % n == r
  {
    var d := n * q + r;
    MultiplesAreApart(n, q, d / n);
    MultiplesAreApart(n, d / n, q);
  }

  /** `Wrap` is the remainder the client computes. */
  lemma WrapIsModulo(k: int, n: nat)
    requires 0 <= k + n && k < 2 * n
    ensures Wrap(k, n) == (k + n) % n && (0 <= k ==> Wrap(k, n) == k % n)
  {
    if k < 0 {
      ModuloIs(n, 0, k + n);
    } else if k < n {
      ModuloIs(n, 0, k);
      ModuloIs(n, 1, k);
    } else {
      ModuloIs(n, 1, k - n);
      ModuloIs(n, 2, k - n);
    }
  }

  predicate AlignsForward(e: seq<Point>, a: seq<Point>, offset: nat)
    requires |e| == |a| && offset < |a|
  {
    forall i :: 0 <= i < |e| ==> Near(e[i], a[Wrap(offset + i, |a|)])
  }

  predicate AlignsReverse(e: seq<Point>, a: seq<Point>, offset: nat)
    requires |e| == |a| && offset < |a|
  {
    forall i :: 0 <= i < |e| ==> Near(e[i], a[Wrap(offset - i, |a|)])
  }

  predicate Aligns(e: seq<Point>, a: seq<Point>, offset: nat)
    requires |e| == |a| && offset < |a|
  {
    AlignsForward(e, a, offset) || AlignsReverse(e, a, offset)
  }

  /** Some rotation, or some rotation of the reversal, lies within the tolerance. */
  ghost predicate Matches(e: seq<Point>, a: seq<Point>) {
    |e| == |a| && exists offset :: 0 <= offset < |a| && Aligns(e, a, offset)
  }

  // ---------- the comparison of a stored polygon ----------

  function PointOf(v: Json.Value): Option<Point> {
    if v.Object? && "x" in v.fields && "y" in v.fields
    then Some(Point(Json.AsDouble(Some(v.fields["x"])), Json.AsDouble(Some(v.fields["y"]))))
    else None
  }

  predicate AllPoints(items: seq<Json.Value>) {
    forall i :: 0 <= i < |items| ==> PointOf(items[i]).Some?
  }

  function PointsOf(items: seq<Json.Value>): (points: seq<Point>)
    requires AllPoints(items)
    ensures |points| == |items|
  {
    seq(|items|, i requires 0 <= i < |items| => PointOf(items[i]).value)
  }

  /** What the comparison decides. */
  ghost predicate PolygonAccepted(expected: Option<Json.Value>, actual: seq<Point>) {
    expected.Some? && expected.value.Array? && AllPoints(expected.value.items)
    && Matches(PointsOf(expected.value.items), actual)
  }

  predicate PointMatches(item: Json.Value, actual: Point) {
    PointOf(item).Some? && Near(PointOf(item).value, actual)
  }

  /** The first items lie near the vertices from the offset on, read forwards. */
  ghost predicate ForwardUpTo(items: seq<Json.Value>, actual: seq<Point>, offset: nat, count: nat)
    requires count <= |items| == |actual| && offset < |actual|
  {
    forall i :: 0 <= i < count ==> PointMatches(items[i], actual[Wrap(offset + i, |actual|)])
  }

  ghost predicate ReverseUpTo(items: seq<Json.Value>, actual: seq<Point>, offset: nat, count: nat)
    requires count <= |items| == |actual| && offset < |actual|
  {
    forall i :: 0 <= i < count ==> PointMatches(items[i], actual[Wrap(offset - i, |actual|)])
  }

  lemma AlignmentDecided(items: seq<Json.Value>, actual: seq<Point>, offset: nat)
    requires |items| == |actual| && offset < |actual|
    ensures ForwardUpTo(items, actual, offset, |items|)
       <==> AllPoints(items) && AlignsForward(PointsOf(items), actual, offset)
    ensures ReverseUpTo(items, actual, offset, |items|)
       <==> AllPoints(items) && AlignsReverse(PointsOf(items), actual, offset)
  {
    if AllPoints(items) {
      var points := PointsOf(items);
      assert forall i :: 0 <= i < |items| ==> PointOf(items[i]).value == points[i];
    }
  }

  method PolygonMatches(expected: Option<Json.Value>, actual: seq<Point>) returns (ok: bool)
    ensures ok <==> PolygonAccepted(expected, actual)
  {
    if expected.None? || !expected.value.Array? {
      return false;
    }
    var items := expected.value.items;
    var n := |actual|;
    if |items| != n || n == 0 {
      return false;
    }
    for offset := 0 to n
      invariant AllPoints(items) ==> forall o :: 0 <= o < offset ==> !Aligns(PointsOf(items), actual, o)
    {
      var forward, reverse := true, true;
      for index := 0 to n
        invariant forward <==> ForwardUpTo(items, actual, offset, index)
        invariant reverse <==> ReverseUpTo(items, actual, offset, index)
      {
        WrapIsModulo(offset + index, n);
        WrapIsModulo(offset - index, n);
        forward := forward && PointMatches(items[index], actual[(offset + index) % n]);
        var reverseIndex := (offset - index + n) % n;
        reverse := reverse && PointMatches(items[index], actual[reverseIndex]);
      }
      AlignmentDecided(items, actual, offset);
      if forward || reverse {
        assert Aligns(PointsOf(items), actual, offset);
        return true;
      }
    }
    return false;
  }

  // ---------- rotations and reversal ----------

  function Rotated(p: seq<Point>, k: nat): (r: seq<Point>)
    requires k < |p|
    ensures |r| == |p|
    ensures forall j :: 0 <= j < |p| ==> r[j] == p[Wrap(j + k, |p|)]
  {
    p[k..] + p[..k]
  }

  function Reversed(p: seq<Point>): (r: seq<Point>)
    ensures |r| == |p|
    ensures forall j :: 0 <= j < |p| ==> r[j] == p[|p| - 1 - j]
  {
    seq(|p|, i requires 0 <= i < |p| => p[|p| - 1 - i])
  }

  lemma MatchAt(e: seq<Point>, a: seq<Point>, offset: nat)
    requires |e| == |a| && offset < |a| && Aligns(e, a, offset)
    ensures Matches(e, a)
  {
  }

  lemma RotatedIndex(offset: nat, k: nat, i: nat, n: nat)
    requires offset < n && k < n && i < n
    ensures Wrap(Wrap(Wrap(offset - k, n) + i, n) + k, n) == Wrap(offset + i, n)
    ensures Wrap(Wrap(Wrap(offset - k, n) - i, n) + k, n) == Wrap(offset - i, n)
  {
  }

  /** In a rotated polygon the vertex of an index stands k places earlier. */
  lemma RotatedVertex(a: seq<Point>, offset: nat, k: nat, i: nat)
    requires offset < |a| && k < |a| && i < |a|
    ensures Rotated(a, k)[Wrap(Wrap(offset - k, |a|) + i, |a|)] == a[Wrap(offset + i, |a|)]
    ensures Rotated(a, k)[Wrap(Wrap(offset - k, |a|) - i, |a|)] == a[Wrap(offset - i, |a|)]
  {
    RotatedIndex(offset, k, i, |a|);
  }

  lemma ForwardRotates(e: seq<Point>, a: seq<Point>, offset: nat, k: nat)
    requires |e| == |a| && offset < |a| && k < |a| && AlignsForward(e, a, offset)
    ensures AlignsForward(e, Rotated(a, k), Wrap(offset - k, |a|))
  {
    forall i | 0 <= i < |e|
      ensures Near(e[i], Rotated(a, k)[Wrap(Wrap(offset - k, |a|) + i, |a|)])
    {
      RotatedVertex(a, offset, k, i);
    }
  }

  lemma ReverseRotates(e: seq<Point>, a: seq<Point>, offset: nat, k: nat)
    requires |e| == |a| && offset < |a| && k < |a| && AlignsReverse(e, a, offset)
    ensures AlignsReverse(e, Rotated(a, k), Wrap(offset - k, |a|))
  {
    forall i | 0 <= i < |e|
      ensures Near(e[i], Rotated(a, k)[Wrap(Wrap(offset - k, |a|) - i, |a|)])
    {
      RotatedVertex(a, offset, k, i);
    }
  }

  lemma RotationMatches(e: seq<Point>, a: seq<Point>, k: nat)
    requires Matches(e, a) && k < |a|
    ensures Matches(e, Rotated(a, k))
  {
    var offset :| 0 <= offset < |a| && Aligns(e, a, offset);
    if AlignsForward(e, a, offset) {
      ForwardRotates(e, a, offset, k);
    } else {
      ReverseRotates(e, a, offset, k);
    }
    MatchAt(e, Rotated(a, k), Wrap(offset - k, |a|));
  }

  lemma ReversedIndex(offset: nat, i: nat, n: nat)
    requires offset < n && i < n
    ensures n - 1 - Wrap(n - 1 - offset - i, n) == Wrap(offset + i, n)
    ensures n - 1 - Wrap(n - 1 - offset + i, n) == Wrap(offset - i, n)
  {
  }

  lemma ReversalMatches(e: seq<Point>, a: seq<Point>)
    requires Matches(e, a)
    ensures Matches(e, Reversed(a))
  {
    var n := |a|;
    var offset :| 0 <= offset < n && Aligns(e, a, offset);
    var r := Reversed(a);
    var mirrored := n - 1 - offset;
    if AlignsForward(e, a, offset) {
      forall i | 0 <= i < n
        ensures Near(e[i], r[Wrap(mirrored - i, n)])
      {
        ReversedIndex(offset, i, n);
      }
      assert AlignsReverse(e, r, mirrored);
    } else {
      forall i | 0 <= i < n
        ensures Near(e[i], r[Wrap(mirrored + i, n)])
      {
        ReversedIndex(offset, i, n);
      }
      assert AlignsForward(e, r, mirrored);
    }
    MatchAt(e, r, mirrored);
  }

  lemma NearIsSymmetric(p: Point, q: Point)
    ensures Near(p, q) <==> Near(q, p)
  {
  }

  lemma MatchesIsSymmetric(e: seq<Point>, a: seq<Point>)
    ensures Matches(e, a) <==> Matches(a, e)
  {
    if Matches(e, a) {
      MatchesBack(e, a);
    }
    if Matches(a, e) {
      MatchesBack(a, e);
    }
  }

  lemma MatchesBack(e: seq<Point>, a: seq<Point>)
    requires Matches(e, a)
    ensures Matches(a, e)
  {
    var n := |a|;
    var offset :| 0 <= offset < n && Aligns(e, a, offset);
    if AlignsForward(e, a, offset) {
      var back := Wrap(0 - offset, n);
      forall j | 0 <= j < n
        ensures Near(a[j], e[Wrap(back + j, n)])
      {
        var i := Wrap(back + j, n);
        assert Wrap(offset + i, n) == j;
        NearIsSymmetric(e[i], a[j]);
      }
      MatchAt(a, e, back);
    } else {
      forall j | 0 <= j < n
        ensures Near(a[j], e[Wrap(offset - j, n)])
      {
        var i := Wrap(offset - j, n);
        assert Wrap(offset - i, n) == j;
        NearIsSymmetric(e[i], a[j]);
      }
      MatchAt(a, e, offset);
    }
  }

  /** Further apart than one unit in some coordinate. */
  predicate IsFar(p: Point, q: Point) {
    p.x - q.x > 1.0 || q.x - p.x > 1.0 || p.y - q.y > 1.0 || q.y - p.y > 1.0
  }

  /** One vertex that is far from every vertex of the other polygon is enough to fail. */
  lemma FarVertexFails(e: seq<Point>, a: seq<Point>, i: nat)
    requires i < |e| && forall q <- a :: IsFar(e[i], q)
    ensures !Matches(e, a)
  {
    if |e| == |a| {
      forall offset | 0 <= offset < |a|
        ensures !Aligns(e, a, offset)
      {
        var forward, reverse := a[Wrap(offset + i, |a|)], a[Wrap(offset - i, |a|)];
        assert forward in a && reverse in a;
        assert !Near(e[i], forward) && !Near(e[i], reverse);
      }
    }
  }

  /** Polygons of equally many vertices, none far from its counterpart, match. */
  lemma NearbyMatches(e: seq<Point>, a: seq<Point>)
    requires e != [] && |e| == |a| && forall i :: 0 <= i < |e| ==> !IsFar(e[i], a[i])
    ensures Matches(e, a)
  {
    assert AlignsForward(e, a, 0);
    MatchAt(e, a, 0);
  }

  /** A nonempty polygon matches itself; the empty one matches nothing. */
  lemma MatchesIsReflexive(p: seq<Point>)
    ensures Matches(p, p) <==> p != []
  {
    if p != [] {
      assert AlignsForward(p, p, 0);
      MatchAt(p, p, 0);
    }
  }

  /** Rotating or reversing the returned polygon never changes the verdict. */
  lemma ActualMayMove(e: seq<Point>, a: seq<Point>, k: nat)
    requires k < |a|
    ensures Matches(e, Rotated(a, k)) <==> Matches(e, a)
    ensures Matches(e, Reversed(a)) <==> Matches(e, a)
  {
    var n := |a|;
    if Matches(e, a) {
      RotationMatches(e, a, k);
      ReversalMatches(e, a);
    }
    if Matches(e, Rotated(a, k)) {
      var back := Wrap(0 - k, n);
      RotationMatches(e, Rotated(a, k), back);
      assert Rotated(Rotated(a, k), back) == a;
    }
    if Matches(e, Reversed(a)) {
      ReversalMatches(e, Reversed(a));
      assert Reversed(Reversed(a)) == a;
    }
  }

  /** Nor does rotating or reversing the expected one. */
  lemma ExpectedMayMove(e: seq<Point>, a: seq<Point>, k: nat)
    requires k < |e|
    ensures Matches(Rotated(e, k), a) <==> Matches(e, a)
    ensures Matches(Reversed(e), a) <==> Matches(e, a)
  {
    MatchesIsSymmetric(e, a);
    MatchesIsSymmetric(Rotated(e, k), a);
    MatchesIsSymmetric(Reversed(e), a);
    ActualMayMove(a, e, k);
  }
}

// The two passes of LoadFile that this model keeps after parsing: the bounding
// box over all points, and the ascending sort by z.

module Statistics {
  import opened Geometry

  /** The bounding-box pass: starts from the first point and folds every point
      into the running box with componentwise max and min. */
  method BoundingBox(ps: seq<Point>) returns (low: Point, high: Point)
    requires |ps| > 0
    ensures InBox(ps, low, high)
    ensures BoundsAttained(ps, low, high)
  {
    high := ps[0];
    low := ps[0];
    var i := 0;
    while i < |ps|
      invariant 0 <= i <= |ps|
      invariant InBox(ps[..i], low, high)
      invariant BoundsAttained(ps, low, high)
    {
      var p := ps[i];
      high := PointMax(p, high);
      low := PointMin(p, low);
      i := i + 1;
      assert ps[..i] == ps[..i - 1] + [p];
    }
    assert ps[..i] == ps;
  }

  /** Sorts a ascending by z in place (the std::sort call of LoadFile); ties may
      end up in any order. */
  method SortByZ(a: array<Point>)
    modifies a
    ensures SortedByZ(a[..])
    ensures multiset(a[..]) == old(multiset(a[..]))
  {
    if a.Length == 0 {
      return;
    }
    var i := 1;
    while i < a.Length
      invariant 1 <= i <= a.Length
      invariant SortedByZ(a[..i])
      invariant multiset(a[..]) == old(multiset(a[..]))
    {
      var j := i;
      SortedUpTo(a[..], i);
      while j > 0 && a[j - 1].z > a[j].z
        invariant 0 <= j <= i
        invariant SortedAround(a[..], i, j)
        decreases j
        invariant multiset(a[..]) == old(multiset(a[..]))
      {
        SwapDown(a[..], i, j);
        SwapWithLeft(a, j);
        j := j - 1;
      }
      SortedGrown(a[..], i, j);
      i := i + 1;
    }
    assert a[..i] == a[..];
  }

  /** The points of ps sorted by z, through an array that SortByZ sorts in
      place. */
  method SortedByZCopy(ps: seq<Point>) returns (sorted: seq<Point>)
    ensures SortedByZ(sorted)
    ensures multiset(sorted) == multiset(ps)
  {
    var a := new Point[|ps|](i requires 0 <= i < |ps| => ps[i]);
    assert a[..] == ps;
    SortByZ(a);
    sorted := a[..];
  }

  /** Exchanges a[j] with its left neighbour. */
  method SwapWithLeft(a: array<Point>, j: int)
    requires 0 < j < a.Length
    modifies a
    ensures a[..] == old(a[..])[j - 1 := old(a[j])][j := old(a[j - 1])]
    ensures multiset(a[..]) == old(multiset(a[..]))
  {
    a[j - 1], a[j] := a[j], a[j - 1];
  }

  /** s[..hi + 1] is sorted by z except that s[j] may sit too far right: every
      other pair is in order, and s[j] is at most everything after it. */
  predicate SortedAround(s: seq<Point>, hi: nat, j: nat)
    requires j <= hi < |s|
  {
    && (forall p, q :: 0 <= p < q <= hi && p != j && q != j ==> s[p].z <= s[q].z)
    && (forall q :: j < q <= hi ==> s[j].z <= s[q].z)
  }

  /** A sorted prefix of length hi with s[hi] not yet placed. */
  lemma SortedUpTo(s: seq<Point>, hi: nat)
    requires hi < |s| && SortedByZ(s[..hi])
    ensures SortedAround(s, hi, hi)
  {
    forall p, q | 0 <= p < q < hi
      ensures s[p].z <= s[q].z
    {
      assert s[..hi][p] == s[p] && s[..hi][q] == s[q];
    }
  }

  /** Swapping s[j] with a larger left neighbour moves the misplaced point one
      step left. */
  lemma SwapDown(s: seq<Point>, hi: nat, j: nat)
    requires 0 < j <= hi < |s| && SortedAround(s, hi, j) && s[j - 1].z > s[j].z
    ensures SortedAround(s[j - 1 := s[j]][j := s[j - 1]], hi, j - 1)
  {
  }

  /** When the misplaced point is no smaller than its left neighbour, the
      prefix of length hi + 1 is sorted. */
  lemma SortedGrown(s: seq<Point>, hi: nat, j: nat)
    requires j <= hi < |s| && SortedAround(s, hi, j)
    requires j > 0 ==> s[j - 1].z <= s[j].z
    ensures SortedByZ(s[..hi + 1])
  {
  }
}

// The section partitioner of PointProcessor::ProcessingFunction: one scan over
// the points that records, for each slice width, the index at which the slice
// closes.
//
// The reference definition below says what each entry of the result is
// (SectionIndices); the method Partition is the scan itself, proved against it.

module Partition {
  import opened Geometry

  /** Upper z bound of section k: sections[0] + ... + sections[k], summed left
      to right as the scan adds the widths to its running threshold. */
  function UpperBound(sections: seq<real>, k: nat): (t: real)
    requires k < |sections|
    ensures (forall i :: 0 <= i <= k ==> 0.0 <= sections[i]) ==> sections[k] <= t
  {
    if k == 0 then sections[0] else UpperBound(sections, k - 1) + sections[k]
  }

  /** The sum of a sequence of widths, added from the right. */
  function Sum(s: seq<real>): real
  {
    if s == [] then 0.0 else s[0] + Sum(s[1..])
  }

  lemma {:induction false} SumAppend(s: seq<real>, x: real)
    ensures Sum(s + [x]) == Sum(s) + x
  {
    if s != [] {
      assert (s + [x])[1..] == s[1..] + [x];
      SumAppend(s[1..], x);
    }
  }

  /** The running threshold after k + 1 additions is the sum of the first
      k + 1 widths. */
  lemma {:induction false} UpperBoundIsSum(sections: seq<real>, k: nat)
    requires k < |sections|
    ensures UpperBound(sections, k) == Sum(sections[..k + 1])
  {
    if k == 0 {
      assert sections[..1] == [sections[0]];
      assert sections[..1][1..] == [];
    } else {
      UpperBoundIsSum(sections, k - 1);
      assert sections[..k + 1] == sections[..k] + [sections[k]];
      SumAppend(sections[..k], sections[k]);
    }
  }

  /** With positive widths the bounds of the slices strictly increase. */
  lemma {:induction false} UpperBoundIncreases(sections: seq<real>, j: nat, k: nat)
    requires j < k < |sections|
    requires forall i :: 0 <= i < |sections| ==> 0.0 < sections[i]
    ensures UpperBound(sections, j) < UpperBound(sections, k)
    decreases k - j
  {
    if j + 1 < k {
      UpperBoundIncreases(sections, j, k - 1);
    }
  }

  /** The first index from `from` on whose point has z above t, or |ps| if
      there is none. */
  function FirstAbove(ps: seq<Point>, from: nat, t: real): (j: nat)
    requires from <= |ps|
    ensures from <= j <= |ps|
    ensures j < |ps| ==> ps[j].z > t
    decreases |ps| - from
  {
    if from == |ps| || ps[from].z > t then from else FirstAbove(ps, from + 1, t)
  }

  /** FirstAbove skips only points whose z is at most t. */
  lemma {:induction false} FirstAboveSkips(ps: seq<Point>, from: nat, t: real)
    requires from <= |ps|
    ensures forall i :: from <= i < FirstAbove(ps, from, t) ==> ps[i].z <= t
    decreases |ps| - from
  {
    if from < |ps| && ps[from].z <= t {
      FirstAboveSkips(ps, from + 1, t);
    }
  }

  /** The index at which section k closes, or |ps| if it does not. Section 0
      closes at the first point above its bound; section k at the first point
      AFTER the one that closed section k - 1 whose z is above its bound, so a
      point closes at most one section. */
  function Boundary(ps: seq<Point>, sections: seq<real>, k: nat): (b: nat)
    requires k < |sections|
    ensures b <= |ps|
  {
    if k == 0 then FirstAbove(ps, 0, UpperBound(sections, 0))
    else
      var prev := Boundary(ps, sections, k - 1);
      if prev == |ps| then |ps| else FirstAbove(ps, prev + 1, UpperBound(sections, k))
  }

  /** Section k closes during the scan. */
  predicate Closes(ps: seq<Point>, sections: seq<real>, k: nat)
    requires k < |sections|
  {
    Boundary(ps, sections, k) < |ps|
  }

  /** Entry k of the section_indices vector the scan leaves: the boundary of
      section k if section k - 1 closed (so that the scan reached section k),
      and otherwise the 0 that resize put there. */
  function IndexEntry(ps: seq<Point>, sections: seq<real>, k: int): (e: nat)
    ensures e <= |ps|
    ensures 0 < k < |sections| && Closes(ps, sections, k - 1) ==> 0 < e
  {
    if k < 0 || |sections| <= k then 0
    else if k == 0 || Closes(ps, sections, k - 1) then Boundary(ps, sections, k)
    else 0
  }

  /** The section_indices vector the scan leaves, one entry per width. */
  function SectionIndices(ps: seq<Point>, sections: seq<real>): (r: seq<nat>)
    ensures |r| == |sections|
    ensures forall k :: 0 <= k < |r| ==> r[k] <= |ps|
  {
    seq(|sections|, k => IndexEntry(ps, sections, k))
  }

  /** Boundaries never go down, and strictly go up past a section that closed. */
  lemma {:induction false} BoundaryMonotone(ps: seq<Point>, sections: seq<real>, j: nat, k: nat)
    requires j <= k < |sections|
    ensures Boundary(ps, sections, j) <= Boundary(ps, sections, k)
    ensures j < k && Closes(ps, sections, j) ==> Boundary(ps, sections, j) < Boundary(ps, sections, k)
    decreases k - j
  {
    if j < k {
      BoundaryMonotone(ps, sections, j, k - 1);
    }
  }

  /** The number of sections that close during the scan: they are exactly the
      first ClosedCount sections. */
  function ClosedCount(ps: seq<Point>, sections: seq<real>): (c: nat)
    ensures c <= |sections|
    ensures forall k :: 0 <= k < c ==> Closes(ps, sections, k)
    ensures forall k :: c <= k < |sections| ==> !Closes(ps, sections, k)
  {
    ClosedBefore(ps, sections, |sections|)
  }

  function ClosedBefore(ps: seq<Point>, sections: seq<real>, n: nat): (c: nat)
    requires n <= |sections|
    ensures c <= n
    ensures forall k :: 0 <= k < c ==> Closes(ps, sections, k)
    ensures forall k :: c <= k < n ==> !Closes(ps, sections, k)
  {
    if n == 0 then 0
    else if Closes(ps, sections, n - 1) then
      ClosedPrefix(ps, sections, n - 1);
      n
    else
      ClosedBefore(ps, sections, n - 1)
  }

  /** Once a section closes, so did every earlier one. */
  lemma ClosedPrefix(ps: seq<Point>, sections: seq<real>, k: nat)
    requires k < |sections| && Closes(ps, sections, k)
    ensures forall j :: 0 <= j <= k ==> Closes(ps, sections, j)
  {
    forall j | 0 <= j <= k
      ensures Closes(ps, sections, j)
    {
      BoundaryMonotone(ps, sections, j, k);
    }
  }

  /** Where the scan starts looking for the point that closes section k: just
      after the point that closed section k - 1. */
  function ScanStart(ps: seq<Point>, sections: seq<real>, k: nat): (start: nat)
    requires k < |sections|
  {
    if k == 0 then 0 else Boundary(ps, sections, k - 1) + 1
  }

  /** The entry of a section the scan reached is that section's boundary. */
  lemma ReachedEntry(ps: seq<Point>, sections: seq<real>, k: nat)
    requires k < |sections|
    requires 0 < k ==> Closes(ps, sections, k - 1)
    ensures SectionIndices(ps, sections)[k] == Boundary(ps, sections, k)
  {
    assert SectionIndices(ps, sections)[k] == IndexEntry(ps, sections, k);
  }

  /** The recorded entries, those of the closed sections and of the first
      open one, are strictly increasing. */
  lemma ClosedEntriesIncrease(ps: seq<Point>, sections: seq<real>)
    ensures var r, c := SectionIndices(ps, sections), ClosedCount(ps, sections);
      forall j, k :: 0 <= j < k < |r| && k <= c ==> r[j] < r[k]
  {
    var r, c := SectionIndices(ps, sections), ClosedCount(ps, sections);
    forall j, k | 0 <= j < k < |r| && k <= c
      ensures r[j] < r[k]
    {
      assert Closes(ps, sections, k - 1);
      if j > 0 {
        assert Closes(ps, sections, j - 1);
      }
      assert Closes(ps, sections, j);
      BoundaryMonotone(ps, sections, j, k);
      ReachedEntry(ps, sections, j);
      ReachedEntry(ps, sections, k);
    }
  }

  /** When points run out before every section closes, the first open
      section's entry is the number of points and every later entry keeps the
      0 that resize put there. */
  lemma OpenEntries(ps: seq<Point>, sections: seq<real>)
    ensures var r, c := SectionIndices(ps, sections), ClosedCount(ps, sections);
      && (c < |r| ==> r[c] == |ps|)
      && (forall k :: c < k < |r| ==> r[k] == 0)
  {
    var r, c := SectionIndices(ps, sections), ClosedCount(ps, sections);
    if c < |r| {
      assert !Closes(ps, sections, c);
      if c > 0 {
        assert Closes(ps, sections, c - 1);
      }
      ReachedEntry(ps, sections, c);
    }
    forall k | c < k < |r|
      ensures r[k] == 0
    {
      assert !Closes(ps, sections, k - 1);
      assert r[k] == IndexEntry(ps, sections, k);
    }
  }

  /** The entry of a closed section is the first index after the previous
      section's entry (or from 0, for section 0) whose z exceeds
      sections[0] + ... + sections[k]. */
  lemma ClosedEntryIsFirstAbove(ps: seq<Point>, sections: seq<real>, k: nat)
    requires k < |sections| && Closes(ps, sections, k)
    ensures var r := SectionIndices(ps, sections);
      var start := if k == 0 then 0 else r[k - 1] + 1;
      && start <= r[k] < |ps|
      && ps[r[k]].z > UpperBound(sections, k)
      && (forall i :: start <= i < r[k] ==> ps[i].z <= UpperBound(sections, k))
  {
    ClosedPrefix(ps, sections, k);
    if k > 0 {
      assert Closes(ps, sections, k - 1);
      if k > 1 {
        assert Closes(ps, sections, k - 2);
      }
      ReachedEntry(ps, sections, k - 1);
    }
    ReachedEntry(ps, sections, k);
    FirstAboveSkips(ps, ScanStart(ps, sections, k), UpperBound(sections, k));
  }

  /** Over points sorted by z, the entry of a closed section separates the
      points: from it on every z exceeds the section's upper bound. */
  lemma SortedClosedEntrySeparates(ps: seq<Point>, sections: seq<real>, k: nat)
    requires SortedByZ(ps)
    requires k < |sections| && Closes(ps, sections, k)
    ensures var r := SectionIndices(ps, sections);
      forall i :: r[k] <= i < |ps| ==> ps[i].z > UpperBound(sections, k)
  {
    SortedBoundarySeparates(ps, sections, k);
    ClosedPrefix(ps, sections, k);
    if k > 0 {
      assert Closes(ps, sections, k - 1);
    }
    ReachedEntry(ps, sections, k);
  }

  lemma SortedBoundarySeparates(ps: seq<Point>, sections: seq<real>, k: nat)
    requires SortedByZ(ps)
    requires k < |sections| && Closes(ps, sections, k)
    ensures forall i :: Boundary(ps, sections, k) <= i < |ps| ==> ps[i].z > UpperBound(sections, k)
  {
    var b := Boundary(ps, sections, k);
    var t := UpperBound(sections, k);
    assert ps[b].z > t;
    forall i | b <= i < |ps|
      ensures ps[i].z > t
    {
      assert ps[b].z <= ps[i].z;
    }
  }

  /** With a single width w, the one entry is the index of the first point
      above w, and it is |ps| only when no point is above w. */
  lemma SingleSection(ps: seq<Point>, w: real)
    ensures SectionIndices(ps, [w]) == [FirstAbove(ps, 0, w)]
    ensures SectionIndices(ps, [w])[0] == |ps| <==> forall i :: 0 <= i < |ps| ==> ps[i].z <= w
  {
    FirstAboveSkips(ps, 0, w);
  }

  /** Section k closes at i when the previous section closed, no point from
      ScanStart up to i is above the bound, and the point at i is (or i is the
      end of the points). */
  lemma BoundaryAt(ps: seq<Point>, sections: seq<real>, k: nat, i: nat)
    requires k < |sections|
    requires 0 < k ==> Closes(ps, sections, k - 1)
    requires ScanStart(ps, sections, k) <= i <= |ps|
    requires forall j :: ScanStart(ps, sections, k) <= j < i ==> ps[j].z <= UpperBound(sections, k)
    requires i < |ps| ==> ps[i].z > UpperBound(sections, k)
    ensures Boundary(ps, sections, k) == i
  {
    FirstAboveSkips(ps, ScanStart(ps, sections, k), UpperBound(sections, k));
  }

  /** A buffer holding the boundaries of the first c sections, all closed,
      |ps| for section c if it is open, and 0 after it, is SectionIndices. */
  lemma BufferIsSectionIndices(ps: seq<Point>, sections: seq<real>, b: seq<nat>, c: nat)
    requires |b| == |sections| && c <= |sections|
    requires forall k {:trigger b[k]} :: 0 <= k < c ==> b[k] == Boundary(ps, sections, k)
    requires 0 < c ==> Closes(ps, sections, c - 1)
    requires c < |sections| ==> b[c] == |ps| && !Closes(ps, sections, c)
    requires forall k :: c < k < |sections| ==> b[k] == 0
    ensures b == SectionIndices(ps, sections)
  {
    var r := SectionIndices(ps, sections);
    forall k | 0 <= k < |sections|
      ensures b[k] == r[k]
    {
      if k <= c {
        ReachedUpTo(ps, sections, c, k);
      } else {
        OpenAfter(ps, sections, c, k);
      }
    }
  }

  /** Every section up to the first open one c was reached by the scan. */
  lemma ReachedUpTo(ps: seq<Point>, sections: seq<real>, c: nat, k: nat)
    requires k <= c <= |sections| && k < |sections|
    requires 0 < c ==> Closes(ps, sections, c - 1)
    ensures SectionIndices(ps, sections)[k] == Boundary(ps, sections, k)
  {
    if 0 < k {
      ClosedPrefix(ps, sections, c - 1);
    }
    ReachedEntry(ps, sections, k);
  }

  /** Every section after an open one keeps its 0. */
  lemma OpenAfter(ps: seq<Point>, sections: seq<real>, c: nat, k: nat)
    requires c < k < |sections| && !Closes(ps, sections, c)
    ensures SectionIndices(ps, sections)[k] == 0
  {
    BoundaryMonotone(ps, sections, c, k - 1);
    assert !Closes(ps, sections, k - 1);
    assert SectionIndices(ps, sections)[k] == IndexEntry(ps, sections, k);
  }

  /** The state of the scan before it looks at point i: b holds the
      boundaries of the sections closed so far, 0 elsewhere; `current` is the
      section being filled and pos its upper bound; no point since the scan
      started on `current` is above pos. */
  predicate ScanInvariant(ps: seq<Point>, sections: seq<real>, b: seq<nat>, current: nat, i: nat, pos: real)
  {
    && |b| == |sections| && current < |sections| && i <= |ps|
    && pos == UpperBound(sections, current)
    && (forall k {:trigger b[k]} :: 0 <= k < current ==> b[k] == Boundary(ps, sections, k))
    && (forall k :: current <= k < |b| ==> b[k] == 0)
    && (0 < current ==> Closes(ps, sections, current - 1))
    && ScanStart(ps, sections, current) <= i
    && (forall j :: ScanStart(ps, sections, current) <= j < i ==> ps[j].z <= pos)
  }

  /** The buffer that resize fills with 0 starts the scan. */
  lemma ScanStarts(ps: seq<Point>, sections: seq<real>, b: seq<nat>)
    requires |sections| > 0 && |b| == |sections|
    requires forall k :: 0 <= k < |b| ==> b[k] == 0
    ensures ScanInvariant(ps, sections, b, 0, 0, sections[0])
  {
  }

  /** A point not above pos leaves the state alone. */
  lemma ScanSkips(ps: seq<Point>, sections: seq<real>, b: seq<nat>, current: nat, i: nat, pos: real)
    requires ScanInvariant(ps, sections, b, current, i, pos)
    requires i < |ps| && ps[i].z <= pos
    ensures ScanInvariant(ps, sections, b, current, i + 1, pos)
  {
  }

  /** A point above pos closes the current section; after the last section
      the buffer is the result, otherwise the scan goes on with the next. */
  lemma ScanCloses(ps: seq<Point>, sections: seq<real>, b: seq<nat>, current: nat, i: nat, pos: real)
    requires ScanInvariant(ps, sections, b, current, i, pos)
    requires i < |ps| && ps[i].z > pos
    ensures current + 1 == |sections| ==> b[current := i] == SectionIndices(ps, sections)
    ensures current + 1 < |sections| ==>
              ScanInvariant(ps, sections, b[current := i], current + 1, i + 1, pos + sections[current + 1])
  {
    BoundaryAt(ps, sections, current, i);
    var b' := b[current := i];
    if current + 1 == |sections| {
      BufferIsSectionIndices(ps, sections, b', current + 1);
    }
  }

  /** Points that run out leave the current section open at |ps|. */
  lemma ScanEnds(ps: seq<Point>, sections: seq<real>, b: seq<nat>, current: nat, pos: real)
    requires ScanInvariant(ps, sections, b, current, |ps|, pos)
    ensures b[current := |ps|] == SectionIndices(ps, sections)
  {
    BoundaryAt(ps, sections, current, |ps|);
    BufferIsSectionIndices(ps, sections, b[current := |ps|], current);
  }

  /** The scan of ProcessingFunction, over a local buffer that resize fills
      with 0; called only with at least one width. */
  method Partition(ps: seq<Point>, sections: seq<real>) returns (indices: seq<nat>)
    requires |sections| > 0
    ensures indices == SectionIndices(ps, sections)
  {
    var n := |sections|;
    var buffer := new nat[n](_ => 0);
    var current := 0;
    var pos := sections[0];
    ScanStarts(ps, sections, buffer[..]);
    var i := 0;
    while i < |ps|
      invariant ScanInvariant(ps, sections, buffer[..], current, i, pos)
    {
      var p := ps[i];
      if p.z > pos {
        ScanCloses(ps, sections, buffer[..], current, i, pos);
        buffer[current] := i;
        current := current + 1;
        if current == n {
          break;
        }
        pos := pos + sections[current];
      } else {
        ScanSkips(ps, sections, buffer[..], current, i, pos);
      }
      i := i + 1;
    }
    if current != n {
      ScanEnds(ps, sections, buffer[..], current, pos);
      buffer[current] := |ps|;
    }
    indices := buffer[..];
  }

  /** The hand trace of the scan: widths 1.5, 2.0, 1e6 over z = 0, 1, 2 give
      [2, 3, 0]. The trailing 0 makes the vector decrease. */
  lemma ThreeWidthsExample()
    ensures var ps := [Point(0.0, 0.0, 0.0), Point(1.0, 1.0, 1.0), Point(2.0, 2.0, 2.0)];
      SectionIndices(ps, [1.5, 2.0, 1000000.0]) == [2, 3, 0]
  {
    var ps := [Point(0.0, 0.0, 0.0), Point(1.0, 1.0, 1.0), Point(2.0, 2.0, 2.0)];
    var sections := [1.5, 2.0, 1000000.0];
    assert FirstAbove(ps, 2, 1.5) == 2;
    assert FirstAbove(ps, 0, 1.5) == 2;
    assert Boundary(ps, sections, 0) == 2;
    assert FirstAbove(ps, 3, 3.5) == 3;
    assert Boundary(ps, sections, 1) == 3;
  }
}

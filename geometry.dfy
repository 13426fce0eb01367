// Points of the cloud and the componentwise operations on them.

module Geometry {

  /** One point of the cloud (the source's vec3<float>), with exact real coordinates. */
  datatype Point = Point(x: real, y: real, z: real)

  /** sizeof(vec3<float>): three 4-byte floats. */
  const PointSize: nat := 12

  function MinReal(a: real, b: real): (r: real)
    ensures r <= a && r <= b && (r == a || r == b)
  {
    if b < a then b else a
  }

  function MaxReal(a: real, b: real): (r: real)
    ensures a <= r && b <= r && (r == a || r == b)
  {
    if a < b then b else a
  }

  /** Componentwise minimum (vec3::min). */
  function PointMin(p: Point, q: Point): (r: Point)
    ensures AtMost(r, p) && AtMost(r, q)
    ensures (r.x == p.x || r.x == q.x) && (r.y == p.y || r.y == q.y) && (r.z == p.z || r.z == q.z)
  {
    Point(MinReal(p.x, q.x), MinReal(p.y, q.y), MinReal(p.z, q.z))
  }

  /** Componentwise maximum (vec3::max). */
  function PointMax(p: Point, q: Point): (r: Point)
    ensures AtMost(p, r) && AtMost(q, r)
    ensures (r.x == p.x || r.x == q.x) && (r.y == p.y || r.y == q.y) && (r.z == p.z || r.z == q.z)
  {
    Point(MaxReal(p.x, q.x), MaxReal(p.y, q.y), MaxReal(p.z, q.z))
  }

  /** p <= q in every coordinate. */
  predicate AtMost(p: Point, q: Point)
  {
    p.x <= q.x && p.y <= q.y && p.z <= q.z
  }

  /** Every point of ps lies in the box [low, high]. */
  predicate InBox(ps: seq<Point>, low: Point, high: Point)
  {
    forall i :: 0 <= i < |ps| ==> AtMost(low, ps[i]) && AtMost(ps[i], high)
  }

  /** Each of the six bounds of the box is a coordinate of some point of ps. */
  predicate BoundsAttained(ps: seq<Point>, low: Point, high: Point)
  {
    && (exists i :: 0 <= i < |ps| && ps[i].x == low.x)
    && (exists i :: 0 <= i < |ps| && ps[i].y == low.y)
    && (exists i :: 0 <= i < |ps| && ps[i].z == low.z)
    && (exists i :: 0 <= i < |ps| && ps[i].x == high.x)
    && (exists i :: 0 <= i < |ps| && ps[i].y == high.y)
    && (exists i :: 0 <= i < |ps| && ps[i].z == high.z)
  }

  /** The points are in ascending order of z. */
  predicate SortedByZ(ps: seq<Point>)
  {
    forall i, j :: 0 <= i < j < |ps| ==> ps[i].z <= ps[j].z
  }

  /** A box that holds and is attained by a sequence of points still does
      after the points are reordered. */
  lemma PermutedBox(ps: seq<Point>, qs: seq<Point>, low: Point, high: Point)
    requires multiset(ps) == multiset(qs)
    requires InBox(ps, low, high) && BoundsAttained(ps, low, high)
    ensures InBox(qs, low, high) && BoundsAttained(qs, low, high)
  {
    forall i | 0 <= i < |qs|
      ensures qs[i] in ps
    {
      assert qs[i] in multiset(qs);
    }
    forall i | 0 <= i < |ps|
      ensures ps[i] in qs
    {
      assert ps[i] in multiset(ps);
    }
  }
}

/**
  Ray casting over the reals (internal/geofences/service.go:159-183). Latitude is the y
  coordinate and longitude the x coordinate.
 */
module Geofence {
  import opened Prelude

  datatype Point = Point(lat: real, lng: real)

  /** The vertex lies above the ray. */
  predicate Above(pt: Point, v: Point) {
    v.lat > pt.lat
  }

  /** Where the line through a and b meets the ray's latitude. */
  function MeetsAt(pt: Point, a: Point, b: Point): real
    requires a.lat != b.lat
  {
    (b.lng - a.lng) * (pt.lat - a.lat) / (b.lat - a.lat) + a.lng
  }

  /** The test of the loop body for the edge from b to a. */
  predicate Crosses(pt: Point, a: Point, b: Point) {
    Above(pt, a) != Above(pt, b) && pt.lng < MeetsAt(pt, a, b)
  }

  /** Whether the path from prev through vertices crosses the ray an odd number of times. */
  predicate OddCrossings(pt: Point, prev: Point, vertices: seq<Point>)
    decreases |vertices|
  {
    if vertices == [] then false
    else Crosses(pt, vertices[0], prev) != OddCrossings(pt, vertices[0], vertices[1..])
  }

  /** The closed polygon. */
  predicate Inside(pt: Point, polygon: seq<Point>) {
    |polygon| >= 3 && OddCrossings(pt, polygon[|polygon| - 1], polygon)
  }

  function LastOf(prev: Point, vertices: seq<Point>): Point {
    if vertices == [] then prev else vertices[|vertices| - 1]
  }

  lemma {:induction false} PathConcat(pt: Point, prev: Point, a: seq<Point>, b: seq<Point>)
    ensures OddCrossings(pt, prev, a + b) == (OddCrossings(pt, prev, a) != OddCrossings(pt, LastOf(prev, a), b))
    decreases |a|
  {
    if a == [] {
      assert a + b == b;
    } else {
      assert (a + b)[1..] == a[1..] + b;
      PathConcat(pt, a[0], a[1..], b);
    }
  }

  lemma PathSnoc(pt: Point, prev: Point, a: seq<Point>, v: Point)
    ensures OddCrossings(pt, prev, a + [v]) == (OddCrossings(pt, prev, a) != Crosses(pt, v, LastOf(prev, a)))
  {
    PathConcat(pt, prev, a, [v]);
    assert [v][1..] == [];
  }

  /** The number at fraction t of the way from u to v. */
  function Mix(u: real, v: real, t: real): real {
    (v - u) * t + u
  }

  /** The point at fraction t of the way from a to b. */
  function Along(a: Point, b: Point, t: real): Point {
    Point(Mix(a.lat, b.lat, t), Mix(a.lng, b.lng, t))
  }

  /** The edge passes to the right of pt, at its latitude, at fraction t. */
  predicate PassesAt(pt: Point, a: Point, b: Point, t: real) {
    0.0 <= t <= 1.0 && Along(a, b, t).lat == pt.lat && Along(a, b, t).lng > pt.lng
  }

  lemma QuotientUnique(d: real, t: real, x: real)
    requires d != 0.0
    ensures d * t == x <==> t == x / d
  {
  }

  lemma MeetsAtAlong(pt: Point, a: Point, b: Point, t: real)
    requires a.lat != b.lat && (b.lat - a.lat) * t == pt.lat - a.lat
    ensures MeetsAt(pt, a, b) == Along(a, b, t).lng
  {
    var d, w := b.lat - a.lat, b.lng - a.lng;
    assert w * (pt.lat - a.lat) == (w * t) * d;
    QuotientUnique(d, w * t, w * (pt.lat - a.lat));
  }

  /** An edge crosses the ray iff its ends lie on different sides and it passes to the right of the point. */
  lemma CrossesIff(pt: Point, a: Point, b: Point)
    ensures Crosses(pt, a, b) <==> Above(pt, a) != Above(pt, b) && exists t :: PassesAt(pt, a, b, t)
  {
    if Above(pt, a) != Above(pt, b) {
      var d := b.lat - a.lat;
      var x := (pt.lat - a.lat) / d;
      FractionInUnit(pt.lat, a.lat, b.lat);
      QuotientUnique(d, x, pt.lat - a.lat);
      MeetsAtAlong(pt, a, b, x);
      if Crosses(pt, a, b) {
        assert PassesAt(pt, a, b, x);
      }
      if t :| PassesAt(pt, a, b, t) {
        QuotientUnique(d, t, pt.lat - a.lat);
      }
    }
  }

  /** The condition inside the loop of pointInPolygon. */
  method EdgeCrosses(pt: Point, vi: Point, vj: Point) returns (crosses: bool)
    ensures crosses == Crosses(pt, vi, vj)
    ensures crosses <==> (vi.lat > pt.lat) != (vj.lat > pt.lat) && exists t :: PassesAt(pt, vi, vj, t)
  {
    hide PassesAt, Along;
    var yi, xi, yj, xj := vi.lat, vi.lng, vj.lat, vj.lng;
    crosses := (yi > pt.lat) != (yj > pt.lat) && pt.lng < (xj - xi) * (pt.lat - yi) / (yj - yi) + xi;
    CrossesIff(pt, vi, vj);
  }

  /** pointInPolygon. */
  method PointInPolygon(pt: Point, polygon: seq<Point>) returns (inside: bool)
    ensures inside == Inside(pt, polygon)
  {
    var n := |polygon|;
    if n < 3 {
      return false;
    }
    hide Crosses;
    inside := false;
    var j := n - 1;
    for i := 0 to n
      invariant 0 <= j < n && polygon[j] == LastOf(polygon[n - 1], polygon[..i])
      invariant inside == OddCrossings(pt, polygon[n - 1], polygon[..i])
    {
      assert polygon[..i + 1] == polygon[..i] + [polygon[i]];
      PathSnoc(pt, polygon[n - 1], polygon[..i], polygon[i]);
      var vi, vj := polygon[i], polygon[j];
      var crosses := EdgeCrosses(pt, vi, vj);
      if crosses {
        inside := !inside;
      }
      j := i;
    }
    assert polygon[..n] == polygon;
  }

  // ---------------------------------------------------------------------------
  // The starting vertex and the direction do not matter
  // ---------------------------------------------------------------------------

  /** Starting the vertex list elsewhere gives the same answer. */
  lemma RotationInvariant(pt: Point, a: seq<Point>, b: seq<Point>)
    ensures Inside(pt, a + b) == Inside(pt, b + a)
  {
    if |a| + |b| >= 3 {
      if a == [] || b == [] {
        assert a + b == b + a;
      } else {
        PathConcat(pt, b[|b| - 1], a, b);
        PathConcat(pt, a[|a| - 1], b, a);
      }
    }
  }

  lemma FractionsEqual(p: real, q: real, d: real, x: real, y: real)
    requires d != 0.0 && p + x * d == q + y * d
    ensures p / d + x == q / d + y
  {
    assert (p + x * d) / d == p / d + x;
    assert (q + y * d) / d == q / d + y;
  }

  /** An edge meets the ray at the same place from either end. */
  lemma MeetsAtSymmetric(pt: Point, a: Point, b: Point)
    requires a.lat != b.lat
    ensures MeetsAt(pt, a, b) == MeetsAt(pt, b, a)
  {
    var d, w := b.lat - a.lat, b.lng - a.lng;
    var p, q := w * (pt.lat - a.lat), w * (pt.lat - b.lat);
    assert p - q == w * d;
    assert p + a.lng * d == q + b.lng * d by {
      assert b.lng * d - a.lng * d == w * d;
    }
    FractionsEqual(p, q, d, a.lng, b.lng);
    assert (-q) / (-d) == q / d;
    assert (a.lng - b.lng) * (pt.lat - b.lat) == -q && a.lat - b.lat == -d;
  }

  lemma CrossesSymmetric(pt: Point, a: Point, b: Point)
    ensures Crosses(pt, a, b) == Crosses(pt, b, a)
  {
    if Above(pt, a) != Above(pt, b) {
      MeetsAtSymmetric(pt, a, b);
    }
  }

  function Reversed(s: seq<Point>): (r: seq<Point>)
    ensures |r| == |s|
  {
    if s == [] then [] else Reversed(s[1..]) + [s[0]]
  }

  /** Walking a path backwards crosses the ray equally often. */
  lemma {:induction false} PathReversed(pt: Point, prev: Point, vertices: seq<Point>)
    requires vertices != []
    ensures OddCrossings(pt, prev, vertices) ==
            OddCrossings(pt, vertices[|vertices| - 1], Reversed(vertices[..|vertices| - 1]) + [prev])
    decreases |vertices|
  {
    var v, rest := vertices[0], vertices[1..];
    CrossesSymmetric(pt, v, prev);
    if rest == [] {
      assert Reversed(vertices[..0]) + [prev] == [prev];
      assert [prev][1..] == [];
    } else {
      var n := |vertices|;
      PathReversed(pt, v, rest);
      var back := Reversed(rest[..n - 2]);
      assert vertices[..n - 1][1..] == rest[..n - 2];
      assert Reversed(vertices[..n - 1]) == back + [v];
      PathSnoc(pt, vertices[n - 1], back + [v], prev);
    }
  }

  lemma {:induction false} ReversedFront(s: seq<Point>)
    requires s != []
    ensures Reversed(s) == [s[|s| - 1]] + Reversed(s[..|s| - 1])
  {
    if |s| == 1 {
      assert s[1..] == [] && s[..0] == [];
    } else {
      ReversedFront(s[1..]);
      assert s[1..][..|s| - 2] == s[..|s| - 1][1..];
      assert s[..|s| - 1][0] == s[0];
    }
  }

  /** Listing the vertices in the opposite direction gives the same answer. */
  lemma ReversalInvariant(pt: Point, polygon: seq<Point>)
    ensures Inside(pt, Reversed(polygon)) == Inside(pt, polygon)
  {
    var n := |polygon|;
    if n >= 3 {
      var last, front := polygon[n - 1], polygon[..n - 1];
      PathReversed(pt, last, polygon);
      ReversedFront(polygon);
      var back := Reversed(front);
      assert Reversed(polygon) == [last] + back;
      RotationInvariant(pt, [last], back);
      assert (back + [last])[n - 1] == last;
    }
  }

  // ---------------------------------------------------------------------------
  // Outside the bounding box
  // ---------------------------------------------------------------------------

  /** All vertices on one side of the point, in latitude or in longitude. */
  ghost predicate OutsideBox(pt: Point, polygon: seq<Point>) {
    || (forall i | 0 <= i < |polygon| :: polygon[i].lat < pt.lat)
    || (forall i | 0 <= i < |polygon| :: polygon[i].lat > pt.lat)
    || (forall i | 0 <= i < |polygon| :: polygon[i].lng < pt.lng)
    || (forall i | 0 <= i < |polygon| :: polygon[i].lng > pt.lng)
  }

  lemma ProductNonNegative(a: real, b: real)
    requires a >= 0.0 && b >= 0.0
    ensures a * b >= 0.0
  {
  }

  lemma Between(u: real, v: real, t: real)
    requires 0.0 <= t <= 1.0
    ensures u <= v ==> u <= Mix(u, v, t) <= v
    ensures v <= u ==> v <= Mix(u, v, t) <= u
  {
    if u <= v {
      ProductNonNegative(v - u, t);
      ProductNonNegative(v - u, 1.0 - t);
      assert (v - u) * (1.0 - t) == (v - u) - (v - u) * t;
    } else {
      ProductNonNegative(u - v, t);
      ProductNonNegative(u - v, 1.0 - t);
      assert (u - v) * (1.0 - t) == (u - v) - (u - v) * t;
      assert (v - u) * t == -((u - v) * t);
    }
  }

  lemma UnitFraction(x: real, d: real)
    requires 0.0 < d && 0.0 <= x <= d
    ensures 0.0 <= x / d <= 1.0
  {
  }

  lemma FractionInUnit(y: real, ya: real, yb: real)
    requires (ya > y) != (yb > y)
    ensures 0.0 <= (y - ya) / (yb - ya) <= 1.0
  {
    var d := yb - ya;
    if d > 0.0 {
      UnitFraction(y - ya, d);
    } else {
      UnitFraction(ya - y, -d);
      assert (ya - y) / (-d) == (y - ya) / d;
    }
  }

  /** An edge that straddles the ray meets it between its end points. */
  lemma MeetsBetween(pt: Point, a: Point, b: Point)
    requires Above(pt, a) != Above(pt, b)
    ensures a.lng <= MeetsAt(pt, a, b) <= b.lng || b.lng <= MeetsAt(pt, a, b) <= a.lng
  {
    hide Mix, MeetsAt;
    var d := b.lat - a.lat;
    var t := (pt.lat - a.lat) / d;
    FractionInUnit(pt.lat, a.lat, b.lat);
    QuotientUnique(d, t, pt.lat - a.lat);
    MeetsAtAlong(pt, a, b, t);
    Between(a.lng, b.lng, t);
  }

  /** With every vertex to the left, or all on one side of the ray, nothing crosses. */
  lemma {:induction false} NothingCrosses(pt: Point, prev: Point, vertices: seq<Point>)
    requires || (Above(pt, prev) && forall i | 0 <= i < |vertices| :: Above(pt, vertices[i]))
             || (!Above(pt, prev) && forall i | 0 <= i < |vertices| :: !Above(pt, vertices[i]))
             || (prev.lng < pt.lng && forall i | 0 <= i < |vertices| :: vertices[i].lng < pt.lng)
    ensures !OddCrossings(pt, prev, vertices)
    decreases |vertices|
  {
    if vertices != [] {
      if Above(pt, vertices[0]) != Above(pt, prev) {
        MeetsBetween(pt, vertices[0], prev);
      }
      NothingCrosses(pt, vertices[0], vertices[1..]);
    }
  }

  /** With every vertex to the right, each change of side is a crossing, and a closed chain changes side evenly. */
  lemma {:induction false} CrossingsAreSideChanges(pt: Point, prev: Point, vertices: seq<Point>)
    requires prev.lng > pt.lng && forall i | 0 <= i < |vertices| :: vertices[i].lng > pt.lng
    ensures OddCrossings(pt, prev, vertices) == (Above(pt, prev) != Above(pt, LastOf(prev, vertices)))
    decreases |vertices|
  {
    if vertices != [] {
      if Above(pt, vertices[0]) != Above(pt, prev) {
        MeetsBetween(pt, vertices[0], prev);
      }
      CrossingsAreSideChanges(pt, vertices[0], vertices[1..]);
    }
  }

  /** A point outside the bounding box of the polygon is never reported inside. */
  lemma OutsideBoxIsOutside(pt: Point, polygon: seq<Point>)
    requires OutsideBox(pt, polygon)
    ensures !Inside(pt, polygon)
  {
    if |polygon| >= 3 {
      var last := polygon[|polygon| - 1];
      if forall i | 0 <= i < |polygon| :: polygon[i].lng > pt.lng {
        CrossingsAreSideChanges(pt, last, polygon);
      } else {
        NothingCrosses(pt, last, polygon);
      }
    }
  }

  // ---------------------------------------------------------------------------
  // A rectangle
  // ---------------------------------------------------------------------------

  lemma VerticalCrosses(pt: Point, a: Point, b: Point)
    requires a.lng == b.lng
    ensures Crosses(pt, a, b) <==> (a.lat > pt.lat) != (b.lat > pt.lat) && pt.lng < a.lng
  {
    if Above(pt, a) != Above(pt, b) {
      MeetsBetween(pt, a, b);
    }
    hide MeetsAt;
  }

  lemma LevelCrosses(pt: Point, a: Point, b: Point)
    requires a.lat == b.lat
    ensures !Crosses(pt, a, b)
  {
  }

  lemma FourEdges(pt: Point, a: Point, b: Point, c: Point, d: Point)
    ensures Inside(pt, [a, b, c, d]) <==>
            (Crosses(pt, a, d) != (Crosses(pt, b, a) != (Crosses(pt, c, b) != Crosses(pt, d, c))))
  {
    hide Crosses;
    assert [a, b, c, d][1..] == [b, c, d] && [b, c, d][1..] == [c, d] && [c, d][1..] == [d] && [d][1..] == [];
    assert OddCrossings(pt, c, [d]) == Crosses(pt, d, c);
    assert OddCrossings(pt, b, [c, d]) == (Crosses(pt, c, b) != OddCrossings(pt, c, [d]));
    assert OddCrossings(pt, a, [b, c, d]) == (Crosses(pt, b, a) != OddCrossings(pt, b, [c, d]));
    assert OddCrossings(pt, d, [a, b, c, d]) == (Crosses(pt, a, d) != OddCrossings(pt, a, [b, c, d]));
  }

  /** A rectangle contains exactly the points between its corners, the lower and left sides included. */
  lemma RectangleIff(pt: Point, lo: Point, hi: Point)
    requires lo.lat < hi.lat && lo.lng < hi.lng
    ensures Inside(pt, [lo, Point(lo.lat, hi.lng), hi, Point(hi.lat, lo.lng)]) <==>
            lo.lat <= pt.lat < hi.lat && lo.lng <= pt.lng < hi.lng
  {
    var right, left := Point(lo.lat, hi.lng), Point(hi.lat, lo.lng);
    FourEdges(pt, lo, right, hi, left);
    VerticalCrosses(pt, lo, left);
    LevelCrosses(pt, right, lo);
    VerticalCrosses(pt, hi, right);
    LevelCrosses(pt, left, hi);
    hide Inside, Crosses;
  }
}

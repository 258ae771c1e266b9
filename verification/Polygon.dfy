/** Point in polygon (src/bc/Polygon.cpp): the bounding box, points on an edge, and the ray cast with
    the half-open rule. */
module Polygons {
  import opened Decomposition

  datatype Point = Point(x: real, y: real)

  const BOX_SLACK := 0.000000000001

  type EdgeTest = (Point, Point) -> bool

  // ----- edges of a path

  /** How many consecutive pairs of a path pass a test. */
  function Edges(path: seq<Point>, test: EdgeTest): nat {
    if |path| < 2 then 0
    else Edges(path[..|path| - 1], test) + if test(path[|path| - 2], path[|path| - 1]) then 1 else 0
  }

  /** The closed path of a vertex list. */
  function Closed(v: seq<Point>): seq<Point>
    requires v != []
  {
    v + [v[0]]
  }

  lemma {:induction false} EdgesJoin(a: seq<Point>, m: Point, b: seq<Point>, test: EdgeTest)
    ensures Edges(a + [m] + b, test) == Edges(a + [m], test) + Edges([m] + b, test)
    decreases |b|
  {
    if b == [] {
      assert a + [m] + b == a + [m];
    } else {
      var last := |b| - 1;
      EdgesJoin(a, m, b[..last], test);
      var whole, tail := a + [m] + b, [m] + b;
      assert whole[..|whole| - 1] == a + [m] + b[..last];
      assert tail[..|tail| - 1] == [m] + b[..last];
      assert whole[|whole| - 2] == tail[|tail| - 2];
    }
  }

  function Reversed(s: seq<Point>): (r: seq<Point>)
    ensures |r| == |s| && forall k :: 0 <= k < |s| ==> r[k] == s[|s| - 1 - k]
  {
    if s == [] then [] else [s[|s| - 1]] + Reversed(s[..|s| - 1])
  }

  ghost predicate Symmetric(test: EdgeTest) { forall a, b :: test(a, b) == test(b, a) }

  lemma {:induction false} EdgesReversed(s: seq<Point>, test: EdgeTest)
    requires Symmetric(test)
    ensures Edges(Reversed(s), test) == Edges(s, test)
    decreases |s|
  {
    if |s| >= 2 {
      var last := |s| - 1;
      var r := Reversed(s[..last]);
      EdgesReversed(s[..last], test);
      assert r[0] == s[last - 1];
      EdgesJoin([s[last]], r[0], r[1..], test);
      assert [s[last]] + [r[0]] + r[1..] == Reversed(s);
      assert [r[0]] + r[1..] == r;
      Pair(s[last], r[0], test);
    }
  }

  lemma Pair(a: Point, b: Point, test: EdgeTest)
    ensures Edges([a] + [b], test) == if test(a, b) then 1 else 0
  {
    var s := [a] + [b];
    assert s[..1] == [a] && Edges([a], test) == 0;
  }

  function Rotated(v: seq<Point>, r: nat): seq<Point>
    requires r <= |v|
  {
    v[r..] + v[..r]
  }

  /** Turning the vertex list keeps every count of a closed path's edges. */
  lemma EdgesTurned(v: seq<Point>, r: nat, test: EdgeTest)
    requires v != [] && r <= |v|
    ensures Edges(Closed(Rotated(v, r)), test) == Edges(Closed(v), test)
  {
    hide Edges;
    var a, b := v[..r], v[r..];
    assert v == a + b;
    if a == [] || b == [] {
      assert Rotated(v, r) == v;
    } else {
      EdgesJoin(a, b[0], b[1..] + [a[0]], test);
      assert a + [b[0]] + (b[1..] + [a[0]]) == Closed(v);
      assert [b[0]] + (b[1..] + [a[0]]) == b + [a[0]];
      EdgesJoin(b, a[0], a[1..] + [b[0]], test);
      assert b + [a[0]] + (a[1..] + [b[0]]) == Closed(Rotated(v, r));
      assert [a[0]] + (a[1..] + [b[0]]) == a + [b[0]];
    }
  }

  /** So does running it backwards, for a symmetric test. */
  lemma EdgesBackwards(v: seq<Point>, test: EdgeTest)
    requires v != [] && Symmetric(test)
    ensures Edges(Closed(Reversed(v)), test) == Edges(Closed(v), test)
  {
    var w := Reversed(v);
    EdgesReversed(Closed(v), test);
    EdgesTurned(w, |w| - 1, test);
    assert Closed(Rotated(w, |w| - 1)) == Reversed(Closed(v));
  }

  // ----- crossings

  /** The half-open rule: one end strictly above the line, the other not. */
  predicate CrossesLine(a: Point, b: Point, y: real) { (a.y > y) != (b.y > y) }

  lemma {:induction false} CrossingParity(path: seq<Point>, y: real)
    requires path != []
    ensures Edges(path, (a, b) => CrossesLine(a, b, y)) % 2 == if CrossesLine(path[0], path[|path| - 1], y) then 1
            else 0
    decreases |path|
  {
    if |path| >= 2 { CrossingParity(path[..|path| - 1], y); }
  }

  /** Main result: a closed polygon crosses every horizontal line an even number of times. */
  lemma ClosedCrossesEvenly(v: seq<Point>, y: real)
    requires v != []
    ensures Edges(Closed(v), (a, b) => CrossesLine(a, b, y)) % 2 == 0
  {
    CrossingParity(Closed(v), y);
  }

  /** Where an edge meets the line. */
  function CrossingX(a: Point, b: Point, y: real): real
    requires a.y != b.y
  {
    a.x + Times((y - a.y) / (b.y - a.y), b.x - a.x)
  }

  function Times(x: real, y: real): real { x * y }

  /** An edge the ray to the right of p crosses. */
  predicate Counted(a: Point, b: Point, p: Point) { CrossesLine(a, b, p.y) && p.x < CrossingX(a, b, p.y) }

  lemma CrossingBetween(a: Point, b: Point, y: real)
    requires CrossesLine(a, b, y)
    ensures a.x <= b.x ==> a.x <= CrossingX(a, b, y) <= b.x
    ensures b.x <= a.x ==> b.x <= CrossingX(a, b, y) <= a.x
  {
    Fraction(y - a.y, b.y - a.y);
    TimesBetween((y - a.y) / (b.y - a.y), b.x - a.x);
    hide Times;
  }

  lemma TimesBetween(t: real, w: real)
    requires 0.0 <= t <= 1.0
    ensures w >= 0.0 ==> 0.0 <= Times(t, w) <= w
    ensures w <= 0.0 ==> w <= Times(t, w) <= 0.0
  {
    TimesRest(t, w);
    TimesSign(t, w);
    TimesSign(1.0 - t, w);
    hide Times;
  }

  lemma TimesRest(t: real, w: real)
    ensures Times(t, w) + Times(1.0 - t, w) == w
  {
  }

  lemma TimesSign(t: real, w: real)
    requires t >= 0.0
    ensures w >= 0.0 ==> Times(t, w) >= 0.0
    ensures w <= 0.0 ==> Times(t, w) <= 0.0
  {
    Sign(t, w);
  }

  lemma Fraction(n: real, d: real)
    requires (0.0 <= n < d) || (d <= n <= 0.0 && d < 0.0)
    ensures 0.0 <= n / d <= 1.0
  {
    var t := n / d;
    assert t * d == n;
    if t < 0.0 { Sign(t, d); } else if t > 1.0 { Sign(t - 1.0, d); assert (t - 1.0) * d == n - d; }
  }

  lemma Sign(t: real, d: real)
    ensures t > 0.0 && d > 0.0 ==> t * d > 0.0
    ensures t > 0.0 && d < 0.0 ==> t * d < 0.0
    ensures t < 0.0 && d > 0.0 ==> t * d < 0.0
    ensures t < 0.0 && d < 0.0 ==> t * d > 0.0
  {
  }

  lemma Between(t: real, w: real)
    requires 0.0 <= t <= 1.0
    ensures w >= 0.0 ==> 0.0 <= t * w <= w
    ensures w <= 0.0 ==> w <= t * w <= 0.0
  {
  }

  lemma NoFactor(x: real, d: real)
    requires x * d == 0.0 && d != 0.0
    ensures x == 0.0
  {
    Sign(x, d);
  }

  lemma CrossingSymmetric(a: Point, b: Point, y: real)
    requires a.y != b.y
    ensures CrossingX(a, b, y) == CrossingX(b, a, y)
  {
    var d, w := b.y - a.y, b.x - a.x;
    var t, u := (y - a.y) / d, (y - b.y) / (a.y - b.y);
    assert t * d == y - a.y && u * (-d) == y - b.y;
    assert (t + u - 1.0) * d == 0.0;
    NoFactor(t + u - 1.0, d);
    assert u * (-w) == -w + t * w;
  }

  // ----- the ray cast

  function LineAt(y: real): EdgeTest { (a, b) => CrossesLine(a, b, y) }
  function RayFrom(p: Point): EdgeTest { (a, b) => Counted(a, b, p) }

  /** The parity of the counted edges. */
  predicate RayInside(v: seq<Point>, p: Point)
    requires v != []
  {
    Edges(Closed(v), RayFrom(p)) % 2 == 1
  }

  /** Tests that agree on a path's pairs count the same. */
  lemma {:induction false} EdgesAgree(path: seq<Point>, f: EdgeTest, g: EdgeTest)
    requires forall a, b :: a in path && b in path ==> f(a, b) == g(a, b)
    ensures Edges(path, f) == Edges(path, g)
    decreases |path|
  {
    if |path| >= 2 { EdgesAgree(path[..|path| - 1], f, g); }
  }

  lemma {:induction false} EdgesNone(path: seq<Point>, f: EdgeTest)
    requires forall a, b :: a in path && b in path ==> !f(a, b)
    ensures Edges(path, f) == 0
    decreases |path|
  {
    if |path| >= 2 { EdgesNone(path[..|path| - 1], f); }
  }

  lemma ClosedPoints(v: seq<Point>)
    requires v != []
    ensures forall a :: a in Closed(v) <==> a in v
  {
    assert v[0] in v;
  }

  /** Main result: the ray cast rejects every point outside the vertices' bounding box, and its
      upper and right sides. */
  lemma OutsideIsRejected(v: seq<Point>, p: Point)
    requires v != []
    requires (forall a :: a in v ==> p.y < a.y) || (forall a :: a in v ==> a.y <= p.y)
             || (forall a :: a in v ==> p.x < a.x) || (forall a :: a in v ==> a.x <= p.x)
    ensures !RayInside(v, p)
  {
    ClosedPoints(v);
    hide CrossingX;
    if forall a :: a in v ==> p.x < a.x {
      forall a, b | a in Closed(v) && b in Closed(v) ensures RayFrom(p)(a, b) == LineAt(p.y)(a, b) {
        if CrossesLine(a, b, p.y) { CrossingBetween(a, b, p.y); }
      }
      EdgesAgree(Closed(v), RayFrom(p), LineAt(p.y));
      ClosedCrossesEvenly(v, p.y);
      EdgesAgree(Closed(v), LineAt(p.y), (a, b) => CrossesLine(a, b, p.y));
    } else {
      forall a, b | a in Closed(v) && b in Closed(v) ensures !RayFrom(p)(a, b) {
        if CrossesLine(a, b, p.y) { CrossingBetween(a, b, p.y); }
      }
      EdgesNone(Closed(v), RayFrom(p));
    }
  }

  // ----- points on an edge

  function Abs(x: real): real { if x < 0.0 then -x else x }
  function Larger(x: real, y: real): real { if x < y then y else x }

  function Scale(a: Point, b: Point, p: Point): real {
    Larger(Larger(Larger(Abs(a.x), Abs(a.y)), Larger(Abs(b.x), Abs(b.y))), Larger(Larger(Abs(p.x), Abs(p.y)), 1.0))
  }

  function Cross(a: Point, b: Point, p: Point): real { (b.x - a.x) * (p.y - a.y) - (b.y - a.y) * (p.x - a.x) }
  function Dot(a: Point, b: Point, p: Point): real { (p.x - a.x) * (b.x - a.x) + (p.y - a.y) * (b.y - a.y) }
  function Length2(a: Point, b: Point): real { (b.x - a.x) * (b.x - a.x) + (b.y - a.y) * (b.y - a.y) }
  function Tolerance(a: Point, b: Point, p: Point): real { BOX_SLACK * Scale(a, b, p) * Scale(a, b, p) }

  /** On the closed segment, within a tolerance scaled to its size. */
  predicate OnSegment(a: Point, b: Point, p: Point) {
    Abs(Cross(a, b, p)) <= Tolerance(a, b, p)
      && -Tolerance(a, b, p) <= Dot(a, b, p) <= Length2(a, b) + Tolerance(a, b, p)
  }
  function SegmentAt(p: Point): EdgeTest { (a, b) => OnSegment(a, b, p) }

  lemma SegmentSymmetric(a: Point, b: Point, p: Point)
    ensures OnSegment(a, b, p) == OnSegment(b, a, p)
  {
    CrossFlips(a, b, p);
    DotFlips(a, b, p);
    hide Cross, Dot, Length2, Tolerance;
    assert Tolerance(a, b, p) == Tolerance(b, a, p) by { ScaleSymmetric(a, b, p); }
  }

  lemma ScaleSymmetric(a: Point, b: Point, p: Point)
    ensures Tolerance(a, b, p) == Tolerance(b, a, p)
  {
    assert Scale(a, b, p) == Scale(b, a, p);
  }

  lemma CrossFlips(a: Point, b: Point, p: Point)
    ensures Cross(b, a, p) == -Cross(a, b, p)
  {
    var w, h, x, y := b.x - a.x, b.y - a.y, p.x - a.x, p.y - a.y;
    assert p.x - b.x == x - w && p.y - b.y == y - h;
    assert (-w) * (y - h) - (-h) * (x - w) == -(w * y - h * x);
  }

  lemma DotFlips(a: Point, b: Point, p: Point)
    ensures Length2(b, a) == Length2(a, b) && Dot(b, a, p) == Length2(a, b) - Dot(a, b, p)
  {
    var w, h, x, y := b.x - a.x, b.y - a.y, p.x - a.x, p.y - a.y;
    assert p.x - b.x == x - w && p.y - b.y == y - h && a.x - b.x == -w && a.y - b.y == -h;
    assert (x - w) * (-w) == w * w - x * w && (y - h) * (-h) == h * h - y * h;
    assert (-w) * (-w) == w * w && (-h) * (-h) == h * h;
  }

  lemma TestsSymmetric(p: Point)
    ensures Symmetric(SegmentAt(p)) && Symmetric(RayFrom(p))
  {
    forall a, b ensures SegmentAt(p)(a, b) == SegmentAt(p)(b, a) { SegmentSymmetric(a, b, p); hide OnSegment; }
    forall a, b ensures RayFrom(p)(a, b) == RayFrom(p)(b, a) {
      if a.y != b.y { CrossingSymmetric(a, b, p.y); hide CrossingX; }
    }
  }

  // ----- the whole test

  datatype Box = Box(x0: real, y0: real, x1: real, y1: real)

  /** The tightest box around the vertices. */
  ghost predicate Bounds(b: Box, v: seq<Point>) {
    && (forall a :: a in v ==> b.x0 <= a.x <= b.x1 && b.y0 <= a.y <= b.y1)
    && (exists a :: a in v && a.x == b.x0) && (exists a :: a in v && a.y == b.y0)
    && (exists a :: a in v && a.x == b.x1) && (exists a :: a in v && a.y == b.y1)
  }

  predicate OutsideBox(b: Box, p: Point) {
    p.x < b.x0 - BOX_SLACK || p.x > b.x1 + BOX_SLACK || p.y < b.y0 - BOX_SLACK || p.y > b.y1 + BOX_SLACK
  }

  predicate OnEdge(v: seq<Point>, p: Point)
    requires v != []
  {
    Edges(Closed(v), SegmentAt(p)) > 0
  }

  /** On an edge counts as inside. */
  predicate Inside(v: seq<Point>, b: Box, p: Point)
    requires v != []
  {
    !OutsideBox(b, p) && (OnEdge(v, p) || RayInside(v, p))
  }

  /** Main result: the answer does not change when the vertex list is turned, box and edge test
      included. */
  lemma TurningDoesNotMatter(v: seq<Point>, b: Box, b': Box, r: nat, p: Point)
    requires v != [] && r <= |v| && Bounds(b, v) && Bounds(b', Rotated(v, r))
    ensures b' == b && Inside(Rotated(v, r), b', p) == Inside(v, b, p)
  {
    TurnedPoints(v, r);
    OneBox(v, Rotated(v, r), b, b');
    EdgesTurned(v, r, SegmentAt(p));
    EdgesTurned(v, r, RayFrom(p));
    hide Edges, RayFrom, SegmentAt, OutsideBox, Rotated, Closed, Bounds;
  }

  /** Main result: nor when it is reversed. */
  lemma ReversalDoesNotMatter(v: seq<Point>, b: Box, b': Box, p: Point)
    requires v != [] && Bounds(b, v) && Bounds(b', Reversed(v))
    ensures b' == b && Inside(Reversed(v), b', p) == Inside(v, b, p)
  {
    TurnedPoints(v, 0);
    OneBox(v, Reversed(v), b, b');
    TestsSymmetric(p);
    EdgesBackwards(v, SegmentAt(p));
    EdgesBackwards(v, RayFrom(p));
    hide Edges, RayFrom, SegmentAt, OutsideBox, Reversed, Closed, Bounds, Symmetric;
  }

  lemma TurnedPoints(v: seq<Point>, r: nat)
    requires r <= |v|
    ensures forall a :: a in Rotated(v, r) <==> a in v
    ensures forall a :: a in Reversed(v) <==> a in v
    ensures |Rotated(v, r)| == |Reversed(v)| == |v|
  {
    assert v == v[..r] + v[r..];
    forall a | a in v ensures a in Reversed(v) {
      var k :| 0 <= k < |v| && v[k] == a;
      assert Reversed(v)[|v| - 1 - k] == a;
    }
  }

  lemma OneBox(v: seq<Point>, w: seq<Point>, b: Box, c: Box)
    requires Bounds(b, v) && Bounds(c, w) && forall a :: a in v <==> a in w
    ensures b == c
  {
  }

  /** A point of a segment. */
  function Along(a: Point, b: Point, t: real): Point { Point(a.x + t * (b.x - a.x), a.y + t * (b.y - a.y)) }

  /** A point of an edge is inside, vertices included. */
  lemma EdgePointsInside(v: seq<Point>, b: Box, k: nat, t: real)
    requires v != [] && Bounds(b, v) && k < |v| && 0.0 <= t <= 1.0
    ensures Inside(v, b, Along(Closed(v)[k], Closed(v)[k + 1], t))
  {
    var path := Closed(v);
    ClosedPoints(v);
    assert path[k] in path && path[k + 1] in path;
    var p := Along(path[k], path[k + 1], t);
    AlongInBox(b, path[k], path[k + 1], t);
    OnItsEdge(path[k], path[k + 1], t);
    assert SegmentAt(p)(path[k], path[k + 1]) by { hide Along; }
    EdgeFound(path, SegmentAt(p), k);
    hide Along, Edges, SegmentAt, RayFrom, Bounds;
  }

  lemma AlongInBox(b: Box, a: Point, c: Point, t: real)
    requires 0.0 <= t <= 1.0 && b.x0 <= a.x <= b.x1 && b.y0 <= a.y <= b.y1 && b.x0 <= c.x <= b.x1 && b.y0 <= c.y <= b.y1
    ensures !OutsideBox(b, Along(a, c, t))
  {
    AlongBetween(a.x, c.x, t, b.x0, b.x1);
    AlongBetween(a.y, c.y, t, b.y0, b.y1);
  }

  lemma AlongBetween(a: real, c: real, t: real, lo: real, hi: real)
    requires 0.0 <= t <= 1.0 && lo <= a <= hi && lo <= c <= hi
    ensures lo <= a + t * (c - a) <= hi
  {
    TimesBetween(t, c - a);
    assert t * (c - a) == Times(t, c - a);
    hide Times;
  }

  lemma {:induction false} EdgeFound(path: seq<Point>, test: EdgeTest, k: nat)
    requires k + 1 < |path| && test(path[k], path[k + 1])
    ensures Edges(path, test) > 0
    decreases |path|
  {
    if k + 2 < |path| { EdgeFound(path[..|path| - 1], test, k); }
  }

  lemma OnItsEdge(a: Point, b: Point, t: real)
    requires 0.0 <= t <= 1.0
    ensures OnSegment(a, b, Along(a, b, t))
  {
    CrossOnEdge(a, b, t);
    DotOnEdge(a, b, t);
    LengthNonneg(a, b);
    Between(t, Length2(a, b));
    ToleranceNonneg(a, b, Along(a, b, t));
    hide Cross, Dot, Tolerance, Length2, Along;
  }

  lemma CrossOnEdge(a: Point, b: Point, t: real)
    ensures Cross(a, b, Along(a, b, t)) == 0.0
  {
    var w, h := b.x - a.x, b.y - a.y;
    Swap(w, t, h);
  }

  lemma Swap(w: real, t: real, h: real)
    ensures w * (t * h) == h * (t * w)
  {
  }

  lemma DotOnEdge(a: Point, b: Point, t: real)
    ensures Dot(a, b, Along(a, b, t)) == t * Length2(a, b)
  {
    var w, h := b.x - a.x, b.y - a.y;
    Gather(t, w, h);
  }

  lemma Gather(t: real, w: real, h: real)
    ensures (t * w) * w + (t * h) * h == t * (w * w + h * h)
  {
  }

  lemma LengthNonneg(a: Point, b: Point)
    ensures Length2(a, b) >= 0.0
  {
    SquareNonneg(b.x - a.x);
    SquareNonneg(b.y - a.y);
  }

  lemma SquareNonneg(x: real)
    ensures x * x >= 0.0
  {
  }

  lemma ToleranceNonneg(a: Point, b: Point, p: Point)
    ensures Tolerance(a, b, p) >= 0.0
  {
    SquareNonneg(Scale(a, b, p));
    assert Tolerance(a, b, p) == BOX_SLACK * (Scale(a, b, p) * Scale(a, b, p));
  }

  function Lower(a: real, b: real): real { if b < a then b else a }
  function Upper(a: real, b: real): real { if a < b then b else a }

  lemma FirstBox(a: Point)
    ensures Bounds(Box(a.x, a.y, a.x, a.y), [a])
  {
    assert a in [a];
  }

  /** A box grown by one vertex. */
  lemma BoundsGrow(b: Box, v: seq<Point>, a: Point)
    requires Bounds(b, v)
    ensures Bounds(Box(Lower(b.x0, a.x), Lower(b.y0, a.y), Upper(b.x1, a.x), Upper(b.y1, a.y)), v + [a])
  {
    assert a in v + [a];
    assert forall q :: q in v ==> q in v + [a];
  }

  lemma SamePoints(b: Box, v: seq<Point>, w: seq<Point>)
    requires Bounds(b, v) && forall a :: a in v <==> a in w
    ensures Bounds(b, w)
  {
  }

  class Polygon {
    const vertices: seq<Point>
    var box: Box

    ghost predicate Valid()
      reads this
    {
      |vertices| >= 3 && Bounds(box, vertices)
    }

    constructor (v: seq<Point>)
      requires |v| >= 3
      ensures Valid() && vertices == v
    {
      vertices := v;
      box := Box(v[0].x, v[0].y, v[0].x, v[0].y);
      new;
      FirstBox(v[0]);
      hide Bounds;
      ghost var seen := [v[0]];
      for n: nat := 0 to |v|
        invariant vertices == v && Bounds(box, seen) && forall a :: a in seen <==> a == v[0] || a in v[..n]
      {
        var a := v[n];
        BoundsGrow(box, seen, a);
        box := Box(Lower(box.x0, a.x), Lower(box.y0, a.y), Upper(box.x1, a.x), Upper(box.y1, a.y));
        seen := seen + [a];
        assert v[..n + 1] == v[..n] + [a];
      }
      assert v[..|v|] == v && v[0] in v;
      SamePoints(box, seen, v);
    }

    /** Fewer than three vertices is an error. */
    static method Make(v: seq<Point>) returns (r: Result<Polygon>)
      ensures r.Ok? <==> |v| >= 3
      ensures r.Ok? ==> fresh(r.value) && r.value.Valid() && r.value.vertices == v
    {
      if |v| < 3 { return Err("needs at least 3 vertices"); }
      var polygon := new Polygon(v);
      return Ok(polygon);
    }

    method Contains(p: Point) returns (inside: bool)
      requires Valid()
      ensures inside <==> Inside(vertices, box, p)
    {
      if OutsideBox(box, p) { return false; }
      hide Edges, Closed, Bounds;
      var found := TouchesEdge(p);
      if found { return true; }
      inside := CastRay(p);
    }

    method TouchesEdge(p: Point) returns (found: bool)
      requires vertices != []
      ensures found <==> OnEdge(vertices, p)
    {
      var n: nat := |vertices|;
      ghost var path := Closed(vertices);
      NextEdge(vertices, 0, SegmentAt(p));
      hide OnSegment, Edges;
      for v: nat := 0 to n
        invariant Edges(path[..v + 1], SegmentAt(p)) == 0
      {
        NextEdge(vertices, v, SegmentAt(p));
        if OnSegment(vertices[v], vertices[(v + 1) % n], p) {
          EdgesKeep(path, v + 2, SegmentAt(p));
          return true;
        }
      }
      assert path[..n + 1] == path;
      return false;
    }

    method CastRay(p: Point) returns (inside: bool)
      requires vertices != []
      ensures inside <==> RayInside(vertices, p)
    {
      var n: nat := |vertices|;
      ghost var path := Closed(vertices);
      NextEdge(vertices, 0, RayFrom(p));
      hide CrossingX, Edges;
      inside := false;
      for v: nat := 0 to n
        invariant inside <==> Edges(path[..v + 1], RayFrom(p)) % 2 == 1
      {
        NextEdge(vertices, v, RayFrom(p));
        var a, b := vertices[v], vertices[(v + 1) % n];
        var crossesY := (a.y > p.y) != (b.y > p.y);
        if crossesY {
          if p.x < CrossingX(a, b, p.y) { inside := !inside; }
        }
      }
      assert path[..n + 1] == path;
    }
  }

  /** The v-th edge of the closed path, the last one back to the start. */
  lemma NextEdge(vertices: seq<Point>, v: nat, test: EdgeTest)
    requires v < |vertices|
    ensures var path := Closed(vertices);
      && v + 2 <= |path| && (v == 0 ==> Edges(path[..v + 1], test) == 0)
      && Edges(path[..v + 2], test) == Edges(path[..v + 1], test)
        + if test(vertices[v], vertices[(v + 1) % |vertices|]) then 1 else 0
  {
    var path := Closed(vertices);
    assert path[..v + 2][..v + 1] == path[..v + 1];
    assert path[v + 1] == vertices[(v + 1) % |vertices|];
  }

  lemma {:induction false} EdgesKeep(path: seq<Point>, n: nat, test: EdgeTest)
    requires n <= |path|
    ensures Edges(path, test) >= Edges(path[..n], test)
    decreases |path|
  {
    if n < |path| {
      EdgesKeep(path[..|path| - 1], n, test);
      assert path[..|path| - 1][..n] == path[..n];
    } else {
      assert path[..n] == path;
    }
  }
}

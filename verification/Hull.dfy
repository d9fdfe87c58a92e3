/** The monotone-chain hull of services/ppa_service.py, over exact coordinates (x is longitude). */
module Hull {
  import opened Wrappers

  datatype Point = Point(x: real, y: real)

  function Cross(o: Point, a: Point, b: Point): (c: real) {
    (a.x - o.x) * (b.y - o.y) - (a.y - o.y) * (b.x - o.x)
  }

  predicate LeftTurn(a: Point, b: Point, c: Point) {
    Cross(a, b, c) > 0.0
  }

  /** c lies on the line through a and b or to its left. */
  predicate LeftOrOn(a: Point, b: Point, c: Point) {
    Cross(a, b, c) >= 0.0
  }

  /** Longitude first, then latitude; a half hull walks up or down this order. */
  predicate Before(a: Point, b: Point) {
    a.x < b.x || (a.x == b.x && a.y < b.y)
  }

  predicate Ahead(a: Point, b: Point, up: bool) {
    if up then Before(a, b) else Before(b, a)
  }

  // ------------------------------------------------------------ plane geometry

  /** The vector points up the order. */
  predicate StepsUp(dx: real, dy: real) {
    dx > 0.0 || (dx == 0.0 && dy > 0.0)
  }

  function Wedge(ux: real, uy: real, vx: real, vy: real): (w: real) {
    ux * vy - uy * vx
  }

  lemma SignOfFactor(k: real, z: real)
    requires k > 0.0
    ensures k * z >= 0.0 ==> z >= 0.0
    ensures k * z > 0.0 ==> z > 0.0
  {
  }

  lemma ProductSigns(a: real, b: real)
    ensures a >= 0.0 && b >= 0.0 ==> a * b >= 0.0
    ensures a > 0.0 && b > 0.0 ==> a * b > 0.0
    ensures a > 0.0 && b < 0.0 ==> a * b < 0.0
  {
  }

  /** Among vectors that point up the order, "turns left to" is transitive. */
  lemma AngleTransitive(ux: real, uy: real, vx: real, vy: real, wx: real, wy: real)
    requires StepsUp(ux, uy) && StepsUp(vx, vy) && StepsUp(wx, wy)
    requires Wedge(ux, uy, vx, vy) >= 0.0 && Wedge(vx, vy, wx, wy) >= 0.0
    ensures Wedge(ux, uy, wx, wy) >= 0.0
    ensures Wedge(ux, uy, vx, vy) > 0.0 && Wedge(vx, vy, wx, wy) > 0.0 ==> Wedge(ux, uy, wx, wy) > 0.0
  {
    var uv, vw, uw := Wedge(ux, uy, vx, vy), Wedge(vx, vy, wx, wy), Wedge(ux, uy, wx, wy);
    assert vx * uw == ux * vw + wx * uv;
    if vx > 0.0 {
      ProductSigns(ux, vw);
      ProductSigns(wx, uv);
      if ux == 0.0 && uv > 0.0 {
        ProductSigns(uy, vx);
      }
      SignOfFactor(vx, uw);
    } else {
      assert vw == -(vy * wx);
      ProductSigns(vy, wx);
      assert wx == 0.0;
      ProductSigns(ux, wy);
      if ux == 0.0 {
        assert uv == 0.0;
      }
      assert vw == 0.0;
    }
  }

  /** The turn from the step a0 -> a1 to the step b0 -> b1. */
  function Span(a0: Point, a1: Point, b0: Point, b1: Point): (w: real) {
    Wedge(a1.x - a0.x, a1.y - a0.y, b1.x - b0.x, b1.y - b0.y)
  }

  /** AngleTransitive for three steps between points, walking either way along the order. */
  lemma StepsTransitive(a0: Point, a1: Point, b0: Point, b1: Point, c0: Point, c1: Point, up: bool)
    requires Ahead(a0, a1, up) && Ahead(b0, b1, up) && Ahead(c0, c1, up)
    requires Span(a0, a1, b0, b1) >= 0.0 && Span(b0, b1, c0, c1) >= 0.0
    ensures Span(a0, a1, c0, c1) >= 0.0
    ensures Span(a0, a1, b0, b1) > 0.0 && Span(b0, b1, c0, c1) > 0.0 ==> Span(a0, a1, c0, c1) > 0.0
  {
    if up {
      AngleTransitive(a1.x - a0.x, a1.y - a0.y, b1.x - b0.x, b1.y - b0.y, c1.x - c0.x, c1.y - c0.y);
    } else {
      WedgeOfNegated(a1.x - a0.x, a1.y - a0.y, b1.x - b0.x, b1.y - b0.y);
      WedgeOfNegated(b1.x - b0.x, b1.y - b0.y, c1.x - c0.x, c1.y - c0.y);
      WedgeOfNegated(a1.x - a0.x, a1.y - a0.y, c1.x - c0.x, c1.y - c0.y);
      AngleTransitive(-(a1.x - a0.x), -(a1.y - a0.y), -(b1.x - b0.x), -(b1.y - b0.y), -(c1.x - c0.x), -(c1.y - c0.y));
    }
  }

  lemma WedgeOfNegated(ux: real, uy: real, vx: real, vy: real)
    ensures Wedge(-ux, -uy, -vx, -vy) == Wedge(ux, uy, vx, vy)
  {
  }

  /** Three ways to read the orientation of a triangle as an angle between two of its sides. */
  lemma CrossAsSpans(a: Point, b: Point, c: Point)
    ensures Cross(a, b, c) == Span(a, b, b, c) == Span(a, b, a, c) == Span(c, b, a, b)
    ensures Cross(a, b, c) == -Cross(a, c, b) == Cross(b, c, a)
  {
  }

  /** The popped vertex t does not turn left; points between t and p were above (t, p) and stay above
      the longer edge (s, p). */
  lemma PopFar(s: Point, t: Point, q: Point, p: Point, up: bool)
    requires Ahead(s, t, up) && Ahead(t, p, up) && (q == t || Ahead(t, q, up)) && (q == p || Ahead(q, p, up))
    requires !LeftTurn(s, t, p) && LeftOrOn(t, p, q)
    ensures LeftOrOn(s, p, q)
  {
    if q == p {
      assert Cross(s, p, p) == 0.0;
    } else {
      CrossAsSpans(s, t, p);
      CrossAsSpans(t, p, q);
      assert Span(t, p, s, t) == -Span(s, t, t, p);
      assert Span(q, p, t, p) == Cross(t, p, q);
      StepsTransitive(q, p, t, p, s, t, up);
      assert Cross(s, p, q) == Span(q, p, s, t) + Span(q, p, t, p);
    }
  }

  /** The same for points between s and t, which were above the edge (s, t). */
  lemma PopNear(s: Point, t: Point, q: Point, p: Point, up: bool)
    requires Ahead(s, t, up) && Ahead(t, p, up) && (q == s || Ahead(s, q, up))
    requires !LeftTurn(s, t, p) && LeftOrOn(s, t, q)
    ensures LeftOrOn(s, p, q)
  {
    if q == s {
      assert Cross(s, p, s) == 0.0;
    } else {
      CrossAsSpans(s, t, p);
      CrossAsSpans(s, t, q);
      assert Span(t, p, s, t) == -Span(s, t, t, p);
      StepsTransitive(t, p, s, t, s, q, up);
      assert Cross(s, p, q) == Span(s, t, s, q) + Span(t, p, s, q);
    }
  }

  /** Once the last kept edge (s, t) turns left to p, everything behind t is left of the new edge. */
  lemma BehindNewEdge(s: Point, t: Point, q: Point, p: Point, up: bool)
    requires Ahead(s, t, up) && Ahead(t, p, up) && Ahead(q, t, up)
    requires LeftTurn(s, t, p) && LeftOrOn(s, t, q)
    ensures LeftOrOn(t, p, q)
  {
    CrossAsSpans(s, t, p);
    CrossAsSpans(s, t, q);
    StepsTransitive(q, t, s, t, t, p, up);
    assert Cross(t, p, q) == Span(q, t, t, p);
  }

  /** Left turns compose: p is left of an earlier edge too. */
  lemma EarlierEdge(a: Point, b: Point, c: Point, p: Point, up: bool)
    requires Ahead(a, b, up) && Ahead(b, c, up) && Ahead(b, p, up) && Ahead(c, p, up)
    requires LeftTurn(a, b, c) && LeftTurn(b, c, p)
    ensures LeftTurn(a, b, p)
  {
    CrossAsSpans(a, b, c);
    CrossAsSpans(b, c, p);
    CrossAsSpans(a, b, p);
    StepsTransitive(a, b, b, c, c, p, up);
    assert Span(a, b, b, p) == Span(a, b, b, c) + Span(a, b, c, p);
  }

  // ------------------------------------------------------------ one half hull

  ghost predicate Ordered(ps: seq<Point>, up: bool) {
    forall i, j :: 0 <= i < j < |ps| ==> Ahead(ps[i], ps[j], up)
  }

  ghost predicate Turns(chain: seq<Point>) {
    forall k :: 0 <= k < |chain| - 2 ==> LeftTurn(chain[k], chain[k + 1], chain[k + 2])
  }

  ghost predicate Supports(chain: seq<Point>, points: seq<Point>) {
    forall k, q :: 0 <= k < |chain| - 1 && q in points ==> LeftOrOn(chain[k], chain[k + 1], q)
  }

  ghost predicate HalfOf(chain: seq<Point>, points: seq<Point>, up: bool) {
    && |points| > 0 && |chain| > 0
    && chain[0] == points[0] && chain[|chain| - 1] == points[|points| - 1]
    && (|points| > 1 ==> |chain| > 1)
    && (forall v :: v in chain ==> v in points)
    && Ordered(chain, up) && Turns(chain) && Supports(chain, points)
  }

  /** Points not behind t lie on or left of the tentative edge (t, p). */
  ghost predicate ClearAhead(t: Point, p: Point, done: seq<Point>, up: bool) {
    forall q :: q in done && (q == t || Ahead(t, q, up)) ==> LeftOrOn(t, p, q)
  }

  lemma PopStep(s: Point, t: Point, p: Point, done: seq<Point>, up: bool)
    requires Ahead(s, t, up) && Ahead(t, p, up) && !LeftTurn(s, t, p)
    requires forall q :: q in done ==> Ahead(q, p, up) && LeftOrOn(s, t, q)
    requires ClearAhead(t, p, done, up)
    ensures ClearAhead(s, p, done, up)
  {
    forall q | q in done && (q == s || Ahead(s, q, up)) ensures LeftOrOn(s, p, q) {
      if q == t || Ahead(t, q, up) {
        PopFar(s, t, q, p, up);
      } else {
        PopNear(s, t, q, p, up);
      }
    }
  }

  /** p is left of every kept edge. */
  lemma {:induction false} AllEdgesTurn(chain: seq<Point>, p: Point, up: bool, k: nat)
    requires |chain| >= 2 && k <= |chain| - 2
    requires Ordered(chain, up) && Turns(chain) && Ahead(chain[|chain| - 1], p, up)
    requires LeftTurn(chain[|chain| - 2], chain[|chain| - 1], p)
    ensures LeftTurn(chain[k], chain[k + 1], p)
    decreases |chain| - k
  {
    if k < |chain| - 2 {
      AllEdgesTurn(chain, p, up, k + 1);
      AheadOfLast(chain, p, up, k + 1);
      AheadOfLast(chain, p, up, k + 2);
      EarlierEdge(chain[k], chain[k + 1], chain[k + 2], p, up);
    }
  }

  lemma AheadOfLast(chain: seq<Point>, p: Point, up: bool, k: nat)
    requires k < |chain| && Ordered(chain, up) && Ahead(chain[|chain| - 1], p, up)
    ensures Ahead(chain[k], p, up)
  {
  }

  /** Everything already seen lies on or left of the new last edge. */
  lemma NewEdgeSupports(chain: seq<Point>, p: Point, done: seq<Point>, up: bool)
    requires |chain| > 0 && Ordered(chain, up) && Supports(chain, done)
    requires Ahead(chain[|chain| - 1], p, up) && ClearAhead(chain[|chain| - 1], p, done, up)
    requires |chain| == 1 ==> forall q :: q in done ==> q == chain[0] || Ahead(chain[0], q, up)
    requires |chain| >= 2 ==> LeftTurn(chain[|chain| - 2], chain[|chain| - 1], p)
    ensures forall q :: q in done ==> LeftOrOn(chain[|chain| - 1], p, q)
  {
    var t := chain[|chain| - 1];
    forall q | q in done ensures LeftOrOn(t, p, q) {
      if q != t && !Ahead(t, q, up) {
        var s := chain[|chain| - 2];
        assert LeftOrOn(s, t, q);
        BehindNewEdge(s, t, q, p, up);
      }
    }
  }

  lemma Appended(chain: seq<Point>, p: Point, done: seq<Point>, up: bool)
    requires |chain| > 0 && Ordered(chain, up) && Turns(chain) && Supports(chain, done)
    requires Ahead(chain[|chain| - 1], p, up) && ClearAhead(chain[|chain| - 1], p, done, up)
    requires |chain| == 1 ==> forall q :: q in done ==> q == chain[0] || Ahead(chain[0], q, up)
    requires |chain| >= 2 ==> LeftTurn(chain[|chain| - 2], chain[|chain| - 1], p)
    ensures Ordered(chain + [p], up) && Turns(chain + [p]) && Supports(chain + [p], done + [p])
  {
    var next := chain + [p];
    NewEdgeSupports(chain, p, done, up);
    forall k | 0 <= k < |chain| ensures Ahead(chain[k], p, up) {
      AheadOfLast(chain, p, up, k);
    }
    forall k, q | 0 <= k < |next| - 1 && q in done + [p] ensures LeftOrOn(next[k], next[k + 1], q) {
      if k == |chain| - 1 {
        if q == p {
          assert Cross(chain[k], p, p) == 0.0;
        }
      } else if q !in done {
        AllEdgesTurn(chain, p, up, k);
      }
    }
  }

  ghost predicate AllBehind(done: seq<Point>, p: Point, up: bool) {
    forall q :: q in done ==> Ahead(q, p, up)
  }

  /** Nothing seen so far lies beyond the last vertex. */
  lemma ClearAtLast(before: seq<Point>, done: seq<Point>, p: Point, up: bool)
    requires HalfOf(before, done, up) && Ordered(done, up)
    ensures ClearAhead(before[|before| - 1], p, done, up)
  {
    var t := before[|before| - 1];
    forall q | q in done && (q == t || Ahead(t, q, up)) ensures LeftOrOn(t, p, q) {
      var j :| 0 <= j < |done| && done[j] == q;
      assert q == t;
      assert Cross(t, p, t) == 0.0;
    }
  }

  lemma PopOne(before: seq<Point>, n: nat, p: Point, done: seq<Point>, up: bool)
    requires HalfOf(before, done, up) && AllBehind(done, p, up) && 2 <= n <= |before|
    requires !LeftTurn(before[n - 2], before[n - 1], p) && ClearAhead(before[n - 1], p, done, up)
    ensures ClearAhead(before[n - 2], p, done, up)
  {
    assert before[n - 1] in before && before[n - 2] in before;
    forall q | q in done ensures LeftOrOn(before[n - 2], before[n - 1], q) {
      assert before[n - 2 + 1] == before[n - 1];
    }
    PopStep(before[n - 2], before[n - 1], p, done, up);
  }

  /** The inner loop: drop vertices while the last edge does not turn left to p. */
  method PopRight(before: seq<Point>, p: Point, ghost done: seq<Point>, up: bool) returns (chain: seq<Point>)
    requires HalfOf(before, done, up) && Ordered(done, up) && AllBehind(done, p, up)
    ensures 0 < |chain| <= |before| && chain == before[..|chain|]
    ensures ClearAhead(chain[|chain| - 1], p, done, up)
    ensures |chain| >= 2 ==> LeftTurn(chain[|chain| - 2], chain[|chain| - 1], p)
  {
    chain := before;
    ClearAtLast(before, done, p, up);
    while |chain| >= 2 && !LeftTurn(chain[|chain| - 2], chain[|chain| - 1], p)
      invariant 0 < |chain| <= |before| && chain == before[..|chain|]
      invariant ClearAhead(chain[|chain| - 1], p, done, up)
    {
      PopOne(before, |chain|, p, done, up);
      chain := chain[..|chain| - 1];
    }
  }

  lemma Extended(before: seq<Point>, chain: seq<Point>, p: Point, done: seq<Point>, up: bool)
    requires HalfOf(before, done, up) && Ordered(done, up) && AllBehind(done, p, up)
    requires 0 < |chain| <= |before| && chain == before[..|chain|]
    requires ClearAhead(chain[|chain| - 1], p, done, up)
    requires |chain| >= 2 ==> LeftTurn(chain[|chain| - 2], chain[|chain| - 1], p)
    ensures HalfOf(chain + [p], done + [p], up)
  {
    assert before[|chain| - 1] in before;
    if |chain| == 1 {
      forall q | q in done ensures q == chain[0] || Ahead(chain[0], q, up) {
        var j :| 0 <= j < |done| && done[j] == q;
      }
    }
    Appended(chain, p, done, up);
  }

  /** The two pop-and-push loops of the source, once: `points` comes sorted up or down. */
  method HalfHull(points: seq<Point>, up: bool) returns (chain: seq<Point>)
    requires Ordered(points, up)
    ensures points == [] ==> chain == []
    ensures points != [] ==> HalfOf(chain, points, up)
  {
    chain := [];
    for i := 0 to |points|
      invariant i == 0 ==> chain == []
      invariant i > 0 ==> HalfOf(chain, points[..i], up)
    {
      var p := points[i];
      ghost var done := points[..i];
      assert points[..i + 1] == done + [p];
      if chain == [] {
        chain := [p];
      } else {
        ghost var before := chain;
        chain := PopRight(chain, p, done, up);
        Extended(before, chain, p, done, up);
        chain := chain + [p];
      }
    }
    assert points[..|points|] == points;
  }

  // ------------------------------------------------------------ the whole ring

  function InsertPoint(p: Point, s: seq<Point>): (r: seq<Point>)
    ensures forall q :: q in r <==> q == p || q in s
  {
    if s == [] then [p]
    else if p == s[0] then s
    else if Before(p, s[0]) then [p] + s
    else
      assert s == [s[0]] + s[1..];
      [s[0]] + InsertPoint(p, s[1..])
  }

  /** sorted(set(points)). */
  function SortUnique(points: seq<Point>): (r: seq<Point>)
    ensures forall q :: q in r <==> q in points
  {
    if points == [] then []
    else
      assert points == [points[0]] + points[1..];
      InsertPoint(points[0], SortUnique(points[1..]))
  }

  lemma {:induction false} InsertKeepsOrder(p: Point, s: seq<Point>)
    requires Ordered(s, true)
    ensures Ordered(InsertPoint(p, s), true)
  {
    if s != [] && p != s[0] && !Before(p, s[0]) {
      InsertKeepsOrder(p, s[1..]);
      var r := InsertPoint(p, s[1..]);
      forall i | 0 <= i < |r| ensures Ahead(s[0], r[i], true) {
        assert r[i] in r;
      }
    }
  }

  lemma {:induction false} SortUniqueOrdered(points: seq<Point>)
    ensures Ordered(SortUnique(points), true)
  {
    if points != [] {
      SortUniqueOrdered(points[1..]);
      InsertKeepsOrder(points[0], SortUnique(points[1..]));
    }
  }

  function Reversed(s: seq<Point>): (r: seq<Point>)
    ensures |r| == |s|
    ensures forall i :: 0 <= i < |s| ==> r[i] == s[|s| - 1 - i]
  {
    if s == [] then [] else Reversed(s[1..]) + [s[0]]
  }

  /** A closed ring that keeps every input on or left of each of its directed edges, and whose
      corners are inputs. */
  ghost predicate EnclosesFromInputs(ring: seq<Point>, points: seq<Point>) {
    && |ring| >= 3
    && ring[0] == ring[|ring| - 1]
    && (forall v :: v in ring ==> v in points)
    && (forall k, q :: 0 <= k < |ring| - 1 && q in points ==> LeftOrOn(ring[k], ring[k + 1], q))
  }

  const PAD1: real := 0.001
  const PAD2: real := 0.0005

  function RingOfOne(p: Point): (r: seq<Point>) {
    [Point(p.x - PAD1, p.y - PAD1), Point(p.x - PAD1, p.y + PAD1), Point(p.x + PAD1, p.y + PAD1),
     Point(p.x + PAD1, p.y - PAD1), Point(p.x - PAD1, p.y - PAD1)]
  }

  function RingOfTwo(a: Point, b: Point): (r: seq<Point>) {
    [Point(a.x - PAD2, a.y - PAD2), Point(a.x - PAD2, a.y + PAD2), Point(b.x + PAD2, b.y + PAD2),
     Point(b.x + PAD2, b.y - PAD2), Point(a.x - PAD2, a.y - PAD2)]
  }

  /** The lower chain from the first to the last point, the upper chain back, one copy of each end. */
  ghost predicate Joined(ring: seq<Point>, points: seq<Point>, lower: seq<Point>, upper: seq<Point>) {
    && HalfOf(lower, SortUnique(points), true)
    && HalfOf(upper, Reversed(SortUnique(points)), false)
    && ring == lower[..|lower| - 1] + upper
  }

  predicate TheseTwo(points: seq<Point>, a: Point, b: Point) {
    a in points && b in points && forall q :: q in points ==> q == a || q == b
  }

  lemma OrderedApart(s: seq<Point>)
    requires Ordered(s, true)
    ensures forall i, j :: 0 <= i < j < |s| ==> Before(s[i], s[j]) && s[i] != s[j]
  {
    forall i, j | 0 <= i < j < |s| ensures Before(s[i], s[j]) && s[i] != s[j] {
      assert Ahead(s[i], s[j], true);
    }
  }

  predicate AllAre(points: seq<Point>, p: Point) {
    points != [] && forall q :: q in points ==> q == p
  }

  /** What sorting leaves of one point, or two, however often they are given. */
  lemma OnePointLeft(points: seq<Point>, p: Point)
    requires AllAre(points, p)
    ensures SortUnique(points) == [p]
  {
    var s := SortUnique(points);
    SortUniqueOrdered(points);
    OrderedApart(s);
    assert points[0] in s && forall i :: 0 <= i < |s| ==> s[i] in points;
  }

  lemma AtOneOf(s: seq<Point>, a: Point, b: Point, i: nat, j: nat, k: nat)
    requires i < |s| && j < |s| && s[i] == a && s[j] == b && forall m :: 0 <= m < |s| ==> s[m] == a || s[m] == b
    requires forall m, n :: 0 <= m < n < |s| ==> s[m] != s[n]
    ensures k < |s| ==> k == i || k == j
  {
    if k < |s| {
      assert s[k] == s[i] || s[k] == s[j];
    }
  }

  lemma TwoPointsLeft(points: seq<Point>, a: Point, b: Point)
    requires Before(a, b) && TheseTwo(points, a, b)
    ensures SortUnique(points) == [a, b]
  {
    var s := SortUnique(points);
    SortUniqueOrdered(points);
    OrderedApart(s);
    assert a in s && b in s && forall i :: 0 <= i < |s| ==> s[i] in points;
    var i :| 0 <= i < |s| && s[i] == a;
    var j :| 0 <= j < |s| && s[j] == b;
    AtOneOf(s, a, b, i, j, 0);
    AtOneOf(s, a, b, i, j, 1);
    AtOneOf(s, a, b, i, j, 2);
  }

  ghost predicate OneInFields(p: Point, r: Result<seq<Point>, ()>) {
    r == Ok([Point(p.x - 0.001, p.y - 0.001), Point(p.x - 0.001, p.y + 0.001), Point(p.x + 0.001, p.y + 0.001),
             Point(p.x + 0.001, p.y - 0.001), Point(p.x - 0.001, p.y - 0.001)])
  }

  ghost predicate TwoInFields(a: Point, b: Point, r: Result<seq<Point>, ()>) {
    r == Ok([Point(a.x - 0.0005, a.y - 0.0005), Point(a.x - 0.0005, a.y + 0.0005), Point(b.x + 0.0005, b.y + 0.0005),
             Point(b.x + 0.0005, b.y - 0.0005), Point(a.x - 0.0005, a.y - 0.0005)])
  }

  /** The rings around one point and around two, in coordinates. */
  ghost predicate PaddedInFields(points: seq<Point>, r: Result<seq<Point>, ()>) {
    && (forall p :: AllAre(points, p) ==> OneInFields(p, r))
    && (forall a: Point, b: Point :: (a.x < b.x || (a.x == b.x && a.y < b.y)) && TheseTwo(points, a, b) ==> TwoInFields(a, b, r))
  }

  lemma RingsInFields(a: Point, b: Point)
    ensures OneInFields(a, Ok(RingOfOne(a))) && TwoInFields(a, b, Ok(RingOfTwo(a, b)))
  {
  }

  lemma PaddedExactly(points: seq<Point>, r: Result<seq<Point>, ()>)
    requires |SortUnique(points)| == 1 ==> r == Ok(RingOfOne(SortUnique(points)[0]))
    requires |SortUnique(points)| == 2 ==> r == Ok(RingOfTwo(SortUnique(points)[0], SortUnique(points)[1]))
    ensures PaddedInFields(points, r)
  {
    forall p | AllAre(points, p) ensures OneInFields(p, r) {
      OnePointLeft(points, p);
      RingsInFields(p, p);
    }
    forall a, b | Before(a, b) && TheseTwo(points, a, b) ensures TwoInFields(a, b, r) {
      TwoPointsLeft(points, a, b);
      RingsInFields(a, b);
    }
  }

  /** No points at all: the source fails on its first index. */
  method ConvexHull(points: seq<Point>) returns (r: Result<seq<Point>, ()>, ghost lower: seq<Point>, ghost upper: seq<Point>)
    ensures r.Err? <==> points == []
    ensures |SortUnique(points)| == 1 ==> r == Ok(RingOfOne(SortUnique(points)[0]))
    ensures |SortUnique(points)| == 2 ==> r == Ok(RingOfTwo(SortUnique(points)[0], SortUnique(points)[1]))
    ensures PaddedInFields(points, r)
    ensures |SortUnique(points)| >= 3 ==>
              r.Ok? && EnclosesFromInputs(r.value, points) && Joined(r.value, points, lower, upper)
  {
    r, lower, upper := RingOf(points);
    PaddedExactly(points, r);
  }

  method RingOf(points: seq<Point>) returns (r: Result<seq<Point>, ()>, ghost lower: seq<Point>, ghost upper: seq<Point>)
    ensures r.Err? <==> points == []
    ensures |SortUnique(points)| == 1 ==> r == Ok(RingOfOne(SortUnique(points)[0]))
    ensures |SortUnique(points)| == 2 ==> r == Ok(RingOfTwo(SortUnique(points)[0], SortUnique(points)[1]))
    ensures |SortUnique(points)| >= 3 ==>
              r.Ok? && EnclosesFromInputs(r.value, points) && Joined(r.value, points, lower, upper)
  {
    var unique := SortUnique(points);
    lower, upper := [], [];
    SortUniqueOrdered(points);
    assert points != [] ==> points[0] in unique;
    if |unique| == 0 {
      return Err(()), lower, upper;
    }
    assert unique[0] in points;
    if |unique| == 1 {
      return Ok(RingOfOne(unique[0])), lower, upper;
    }
    if |unique| == 2 {
      return Ok(RingOfTwo(unique[0], unique[1])), lower, upper;
    }
    var back := Reversed(unique);
    var low := HalfHull(unique, true);
    var up := HalfHull(back, false);
    var hull := low[..|low| - 1] + up[..|up| - 1];
    RingCloses(unique, low, up);
    var ring := hull;
    if ring[0] != ring[|ring| - 1] {
      ring := ring + [ring[0]];
    }
    RingEncloses(points, low, up);
    assert ring == low[..|low| - 1] + up;
    lower, upper := low, up;
    r := Ok(ring);
  }

  /** The open ring never ends where it starts, so the closing corner is always appended. */
  lemma RingCloses(unique: seq<Point>, low: seq<Point>, up: seq<Point>)
    requires |unique| >= 3 && Ordered(unique, true)
    requires HalfOf(low, unique, true) && HalfOf(up, Reversed(unique), false)
    ensures var hull := low[..|low| - 1] + up[..|up| - 1];
            hull != [] && hull[0] != hull[|hull| - 1] && hull + [hull[0]] == low[..|low| - 1] + up
  {
    var hull := low[..|low| - 1] + up[..|up| - 1];
    assert hull[0] == low[0] == unique[0];
    assert hull[|hull| - 1] == up[|up| - 2];
    assert up[|up| - 1] == unique[0];
    assert Ahead(up[|up| - 2], up[|up| - 1], false);
    assert up == up[..|up| - 1] + [up[|up| - 1]];
  }

  lemma RingEncloses(points: seq<Point>, low: seq<Point>, up: seq<Point>)
    requires |SortUnique(points)| >= 3
    requires HalfOf(low, SortUnique(points), true) && HalfOf(up, Reversed(SortUnique(points)), false)
    ensures EnclosesFromInputs(low[..|low| - 1] + up, points)
  {
    var unique := SortUnique(points);
    var ring := low[..|low| - 1] + up;
    assert low[|low| - 1] == up[0] == unique[|unique| - 1];
    ReversedMembers(unique);
    forall k, q | 0 <= k < |ring| - 1 && q in points ensures LeftOrOn(ring[k], ring[k + 1], q) {
      assert q in unique && q in Reversed(unique);
      if k < |low| - 1 {
        assert ring[k] == low[k] && ring[k + 1] == low[k + 1];
      } else {
        var j := k - (|low| - 1);
        assert ring[k] == up[j] && ring[k + 1] == up[j + 1];
      }
    }
  }

  lemma ReversedMembers(s: seq<Point>)
    ensures forall q :: q in Reversed(s) <==> q in s
  {
    forall q ensures q in Reversed(s) <==> q in s {
      if q in s {
        var i :| 0 <= i < |s| && s[i] == q;
        assert Reversed(s)[|s| - 1 - i] == q;
      }
      if q in Reversed(s) {
        var i :| 0 <= i < |s| && Reversed(s)[i] == q;
        assert s[|s| - 1 - i] == q;
      }
    }
  }

  // ------------------------------------------------------------ two points

  /** q is on or to the right of every edge: the padded rectangles run clockwise. */
  ghost predicate ClockwiseHolds(ring: seq<Point>, q: Point) {
    forall k :: 0 <= k < |ring| - 1 ==> Cross(ring[k], ring[k + 1], q) <= 0.0
  }

  lemma CrossFromSteps(o: Point, a: Point, b: Point, ux: real, uy: real, vx: real, vy: real)
    requires a.x - o.x == ux && a.y - o.y == uy && b.x - o.x == vx && b.y - o.y == vy
    ensures Cross(o, a, b) == ux * vy - uy * vx
  {
  }

  /** The padded ring of two points holds them both exactly when their latitudes differ by no more
      than their longitudes differ plus twice the pad. */
  lemma TwoPointRingExactly(a: Point, b: Point)
    requires Before(a, b)
    ensures ClockwiseHolds(RingOfTwo(a, b), a) && ClockwiseHolds(RingOfTwo(a, b), b)
            <==> -(b.x - a.x) - 2.0 * PAD2 <= b.y - a.y <= b.x - a.x + 2.0 * PAD2
  {
    var ring := RingOfTwo(a, b);
    var dx, dy := b.x - a.x, b.y - a.y;
    assert Cross(ring[0], ring[1], a) == -2.0 * PAD2 * PAD2;
    assert Cross(ring[0], ring[1], b) == -2.0 * PAD2 * (dx + PAD2);
    assert Cross(ring[1], ring[2], a) == -(dx + 2.0 * PAD2) * PAD2 - dy * PAD2;
    assert Cross(ring[1], ring[2], b) == (dx + 2.0 * PAD2) * (dy - PAD2) - dy * (dx + PAD2);
    assert Cross(ring[2], ring[3], a) == -2.0 * PAD2 * (dx + PAD2);
    CrossFromSteps(ring[2], ring[3], b, 0.0, -2.0 * PAD2, -PAD2, -PAD2);
    assert Cross(ring[3], ring[4], a) == dy * PAD2 - (dx + 2.0 * PAD2) * PAD2;
    assert Cross(ring[3], ring[4], b) == -(dx + 2.0 * PAD2) * PAD2 - dy * PAD2;
    assert (dx + 2.0 * PAD2) * (dy - PAD2) - dy * (dx + PAD2) == PAD2 * dy - PAD2 * (dx + 2.0 * PAD2);
  }

  /** Two sites on one meridian ten degrees apart: the ring leaves both out. */
  lemma TwoPointRingMisses()
    ensures !ClockwiseHolds(RingOfTwo(Point(0.0, 0.0), Point(0.0, 10.0)), Point(0.0, 0.0))
    ensures !ClockwiseHolds(RingOfTwo(Point(0.0, 0.0), Point(0.0, 10.0)), Point(0.0, 10.0))
  {
    var ring := RingOfTwo(Point(0.0, 0.0), Point(0.0, 10.0));
    assert Cross(ring[3], ring[4], Point(0.0, 0.0)) > 0.0;
    assert Cross(ring[1], ring[2], Point(0.0, 10.0)) > 0.0;
  }
}

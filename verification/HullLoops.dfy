/** The two loops of the point insertion, each with its reflected twin. */
module HullLoops {
  import opened Geometry
  import opened Hull
  import opened HullStep

  /** What the walk towards the tangent point has seen: slopes into p never went up to m. */
  ghost predicate Descends(ps: seq<Point>, start: nat, m: nat, p: Point)
    requires start <= m < |ps| && ps[m].x < p.x
    requires Rightward(ps, start)
  {
    forall k :: start <= k <= m ==> Through(ps[k], p).slope >= Through(ps[m], p).slope
  }

  lemma NegQuotient(a: real, b: real)
    requires b != 0.0
    ensures (-a) / (-b) == a / b
  {
    assert (a / b) * (-b) == -a;
  }

  /** The integer test of the walk, for a point left of p and for one right below p. */
  lemma WalkTest(a: Point, b: Point, p: Point)
    requires a.x < b.x <= p.x
    ensures b.x < p.x ==> (b.Minus(p).Greater(a.Minus(p)) <==> Through(b, p).slope > Through(a, p).slope)
    ensures b.x == p.x && b.y < p.y ==> b.Minus(p).Greater(a.Minus(p))
  {
    var u, v := a.Minus(p), b.Minus(p);
    if b.x < p.x {
      SlopeOrder(v, u);
      assert u.Value() == Through(a, p).slope by { NegQuotient(u.dy as real, u.dx as real); }
      assert v.Value() == Through(b, p).slope by { NegQuotient(v.dy as real, v.dx as real); }
    } else if b.y < p.y {
      assert v.dy * u.dx > 0;
    }
  }

  lemma DescendsNext(ps: seq<Point>, start: nat, m: nat, p: Point)
    requires start <= m && m + 1 < |ps| && Rightward(ps, start)
    requires ps[m].x < p.x && ps[m + 1].x < p.x
    requires Descends(ps, start, m, p)
    requires !(Through(ps[m + 1], p).slope > Through(ps[m], p).slope)
    ensures Descends(ps, start, m + 1, p)
  {
  }

  /** Where the walk stops, the tangent is found: beyond the first rise every slope is larger. */
  lemma WalkStops(ps: seq<Point>, start: nat, m: nat, p: Point)
    requires Rightward(ps, start) && Concave(ps, start) && RightOf(p, ps, start)
    requires start <= m < |ps| && ps[m].x < p.x && Descends(ps, start, m, p)
    requires ps[|ps| - 1].x == p.x ==> ps[|ps| - 1].y <= p.y
    requires m + 1 < |ps| && ps[m + 1].x < p.x ==> Through(ps[m + 1], p).slope > Through(ps[m], p).slope
    ensures Tangent(ps, start, m, p)
  {
    var t := Through(ps[m], p);
    ThroughAt(ps[m], p);
    forall k | start <= k < |ps| ensures Above(t, ps[k]) {
      if ps[k].x < p.x {
        if k > m { SlopesStayUp(ps, start, m + 1, k, p); }
        SlopeFrom(ps[k], p, t);
      }
    }
  }

  lemma StaysAbove(t: Line, l: Line, a: int, x: int)
    requires a <= x && t.slope <= l.slope && t.At(a) < l.At(a)
    ensures t.At(x) < l.At(x)
  {
    var d, w := l.slope - t.slope, (x - a) as real;
    Drift(t, l, a, x);
    NonNegativeProduct(d, w);
    assert l.At(x) - t.At(x) == l.At(a) - t.At(a) + d * w;
  }

  /** Popping the middle of three points is harmless when it lies on or above the outer chord. */
  lemma PopOne(a: Point, b: Point, p: Point, l: Line)
    requires a.x < b.x < p.x && Cross(a, b, p) <= 0
    requires Below(l, a) && Below(l, p)
    ensures Below(l, b)
  {
    hide Cross, Through, Line.At;
    var t := Through(a, b);
    ThroughAt(a, b);
    CrossSide(a, b, p);
    if l.At(b.x) > t.At(b.x) {
      SteeperBetween(t, l, a.x, b.x);
      StaysAbove(t, l, b.x, p.x);
    }
  }

  lemma PopStep(upper: seq<Point>, start: nat, e: nat, p: Point)
    requires start + 2 <= e && Pops(upper, start, e, p) && Rightward(upper, start)
    requires forall i :: start <= i < |upper| ==> upper[i].x < p.x
    requires Cross(upper[e - 2], upper[e - 1], p) <= 0
    ensures Pops(upper, start, e - 1, p)
  {
    forall l: Line | BelowAll(l, upper[start..e - 1]) && Below(l, p)
      ensures BelowAll(l, upper[start..e])
    {
      var kept := upper[start..e - 1];
      assert Below(l, upper[e - 2]) by { assert kept[|kept| - 1] == upper[e - 2]; }
      PopOne(upper[e - 2], upper[e - 1], p, l);
      forall i | 0 <= i < e - start ensures Below(l, upper[start..e][i]) {
        if i < |kept| { assert upper[start..e][i] == kept[i]; }
      }
    }
  }

  lemma NegRightward(ps: seq<Point>, start: nat)
    requires Rightward(ps, start)
    ensures Rightward(NegAll(ps), start)
  {
  }

  lemma PopStepBelow(lower: seq<Point>, start: nat, e: nat, p: Point)
    requires start + 2 <= e <= |lower| && PopsBelow(lower, start, e, p) && Rightward(lower, start)
    requires forall i :: start <= i < |lower| ==> lower[i].x < p.x
    requires Cross(lower[e - 2], lower[e - 1], p) >= 0
    ensures PopsBelow(lower, start, e - 1, p)
  {
    NegCross(lower[e - 2], lower[e - 1], p);
    NegRightward(lower, start);
    PopStep(NegAll(lower), start, e, p.Neg());
  }

  /** The walk along the lower chain: stop at the first increase of the slope into p. */
  method FindMinSlope(lower: seq<Point>, start: nat, p: Point) returns (mi: nat)
    requires start < |lower| && Rightward(lower, start) && Concave(lower, start) && RightOf(p, lower, start)
    requires lower[start].x < p.x
    requires lower[|lower| - 1].x == p.x ==> lower[|lower| - 1].y < p.y
    ensures start <= mi < |lower| && lower[mi].x < p.x
    ensures Tangent(lower, start, mi, p)
  {
    var min := lower[start].Minus(p);
    mi := start;
    var i := start + 1;
    while i < |lower|
      invariant start < i <= |lower| && mi == i - 1 && lower[mi].x < p.x
      invariant min == lower[mi].Minus(p)
      invariant Descends(lower, start, mi, p)
    {
      var val := lower[i].Minus(p);
      WalkTest(lower[mi], lower[i], p);
      if val.Greater(min) {
        break;
      }
      DescendsNext(lower, start, mi, p);
      min := val;
      mi := i;
      i := i + 1;
    }
    WalkStops(lower, start, mi, p);
  }

  lemma NegLess(v: Slope, m: Slope)
    ensures v.Less(m) <==> Slope(v.dx, -v.dy).Greater(Slope(m.dx, -m.dy))
  {
    assert (-v.dy) * m.dx == -(v.dy * m.dx);
    assert v.dx * (-m.dy) == -(v.dx * m.dy);
  }

  /** The integer test of the walk along the upper chain, seen reflected. */
  lemma WalkTestBelow(a: Point, b: Point, p: Point)
    requires a.x < b.x <= p.x
    ensures b.x < p.x ==> (b.Minus(p).Less(a.Minus(p)) <==>
                           Through(b.Neg(), p.Neg()).slope > Through(a.Neg(), p.Neg()).slope)
    ensures b.x == p.x && b.y > p.y ==> b.Minus(p).Less(a.Minus(p))
  {
    WalkTest(a.Neg(), b.Neg(), p.Neg());
    NegLess(b.Minus(p), a.Minus(p));
  }

  lemma NegWalk(upper: seq<Point>, start: nat, p: Point)
    requires Rightward(upper, start) && Convex(upper, start) && RightOf(p, upper, start)
    ensures Rightward(NegAll(upper), start) && Concave(NegAll(upper), start) && RightOf(p.Neg(), NegAll(upper), start)
  {
    NegRightward(upper, start);
    NegConvex(upper, start);
  }

  /** The walk along the upper chain: stop at the first decrease of the slope into p. */
  method FindMaxSlope(upper: seq<Point>, start: nat, p: Point) returns (mi: nat)
    requires start < |upper| && Rightward(upper, start) && Convex(upper, start) && RightOf(p, upper, start)
    requires upper[start].x < p.x
    requires upper[|upper| - 1].x == p.x ==> upper[|upper| - 1].y > p.y
    ensures start <= mi < |upper| && upper[mi].x < p.x
    ensures TangentBelow(upper, start, mi, p)
  {
    hide Concave, Convex, Cross, Slope.Less, Slope.Greater, Through, Tangent;
    ghost var down, q := NegAll(upper), p.Neg();
    NegWalk(upper, start, p);
    var max := upper[start].Minus(p);
    mi := start;
    var i := start + 1;
    while i < |upper|
      invariant start < i <= |upper| && mi == i - 1 && upper[mi].x < p.x
      invariant max == upper[mi].Minus(p)
      invariant Descends(down, start, mi, q)
    {
      var val := upper[i].Minus(p);
      WalkTestBelow(upper[mi], upper[i], p);
      if val.Less(max) {
        break;
      }
      DescendsNext(down, start, mi, q);
      max := val;
      mi := i;
      i := i + 1;
    }
    WalkStops(down, start, mi, q);
  }

  /** Cut the tail of the upper chain back to where p turns it left. */
  method TrimUpper(upper: seq<Point>, start: nat, p: Point) returns (end: nat)
    requires start < |upper| && Rightward(upper, start)
    requires forall i :: start <= i < |upper| ==> upper[i].x < p.x
    ensures start < end <= |upper|
    ensures Pops(upper, start, end, p)
    ensures end >= start + 2 ==> Cross(upper[end - 2], upper[end - 1], p) > 0
  {
    hide Cross;
    end := |upper|;
    while end >= start + 2 && Cross(upper[end - 2], upper[end - 1], p) <= 0
      invariant Pops(upper, start, end, p)
    {
      PopStep(upper, start, end, p);
      end := end - 1;
    }
  }

  /** Cut the tail of the lower chain back to where p turns it right. */
  method TrimLower(lower: seq<Point>, start: nat, p: Point) returns (end: nat)
    requires start < |lower| && Rightward(lower, start)
    requires forall i :: start <= i < |lower| ==> lower[i].x < p.x
    ensures start < end <= |lower|
    ensures PopsBelow(lower, start, end, p)
    ensures end >= start + 2 ==> Cross(lower[end - 2], lower[end - 1], p) < 0
  {
    end := |lower|;
    assert NegAll(lower)[start..end] == NegAll(lower)[start..];
    while end >= start + 2 && Cross(lower[end - 2], lower[end - 1], p) >= 0
      invariant start < end <= |lower| && PopsBelow(lower, start, end, p)
    {
      PopStepBelow(lower, start, end, p);
      end := end - 1;
    }
  }
}

/**
 The state of the streaming regression and the invariant that makes it exact: the two
 extreme lines fit everything seen, and the two short chains that are kept decide, for
 every line that could still matter, whether it fits everything seen.
 */
module Hull {
  import opened Geometry

  datatype Rectangle = Rectangle(p0: Point, p1: Point, p2: Point, p3: Point)

  /** Both chains with their live starts, and the four points of the extreme lines. */
  datatype Hulls = Hulls(lower: seq<Point>, upper: seq<Point>, lowerStart: nat, upperStart: nat, rect: Rectangle)
  {
    ghost predicate Shaped() {
      && lowerStart < |lower|
      && upperStart < |upper|
      && rect.p0 == upper[upperStart]
      && rect.p1 == lower[lowerStart]
      && rect.p2 == lower[|lower| - 1]
      && rect.p3 == upper[|upper| - 1]
      && rect.p0.x < rect.p2.x
      && rect.p1.x < rect.p3.x
    }

    /** The line of least slope that fits. */
    ghost function MinLine(): Line
      requires Shaped()
    {
      Through(rect.p0, rect.p2)
    }

    /** The line of greatest slope that fits. */
    ghost function MaxLine(): Line
      requires Shaped()
    {
      Through(rect.p1, rect.p3)
    }

    function Neg(): Hulls {
      Hulls(NegAll(upper), NegAll(lower), upperStart, lowerStart,
            Rectangle(rect.p1.Neg(), rect.p0.Neg(), rect.p3.Neg(), rect.p2.Neg()))
    }
  }

  // ---------- chains ----------

  ghost predicate Rightward(ps: seq<Point>, start: nat) {
    forall i, j :: start <= i < j < |ps| ==> ps[i].x < ps[j].x
  }

  /** Successive slopes of the live part strictly decrease. */
  ghost predicate Concave(ps: seq<Point>, start: nat) {
    forall i :: start <= i < |ps| - 2 ==> Cross(ps[i], ps[i + 1], ps[i + 2]) < 0
  }

  /** Successive slopes of the live part strictly increase. */
  ghost predicate Convex(ps: seq<Point>, start: nat) {
    forall i :: start <= i < |ps| - 2 ==> Cross(ps[i], ps[i + 1], ps[i + 2]) > 0
  }

  ghost predicate Members(ps: seq<Point>, start: nat, all: seq<Point>) {
    forall i :: start <= i < |ps| ==> ps[i] in all
  }

  ghost predicate SlopeIn(l: Line, lo: real, hi: real) { lo <= l.slope <= hi }

  /** Among slopes in [lo, hi], staying above the live chain is staying above all. */
  ghost predicate LowerDecides(h: Hulls, lo: real, hi: real, los: seq<Point>)
    requires h.lowerStart <= |h.lower|
  {
    forall l: Line :: SlopeIn(l, lo, hi) && AboveAll(l, h.lower[h.lowerStart..]) ==> AboveAll(l, los)
  }

  ghost predicate UpperDecides(h: Hulls, lo: real, hi: real, ups: seq<Point>)
    requires h.upperStart <= |h.upper|
  {
    forall l: Line :: SlopeIn(l, lo, hi) && BelowAll(l, h.upper[h.upperStart..]) ==> BelowAll(l, ups)
  }

  ghost predicate FitsBoth(l: Line, ups: seq<Point>, los: seq<Point>) {
    BelowAll(l, ups) && AboveAll(l, los)
  }

  ghost predicate Chains(h: Hulls, ups: seq<Point>, los: seq<Point>) {
    && h.Shaped()
    && Rightward(h.lower, h.lowerStart) && Concave(h.lower, h.lowerStart) && Members(h.lower, h.lowerStart, los)
    && Rightward(h.upper, h.upperStart) && Convex(h.upper, h.upperStart) && Members(h.upper, h.upperStart, ups)
  }

  /** The invariant, for upper bounds ups and lower bounds los seen so far. */
  ghost predicate Inv(h: Hulls, ups: seq<Point>, los: seq<Point>) {
    && Chains(h, ups, los)
    && FitsBoth(h.MinLine(), ups, los)
    && FitsBoth(h.MaxLine(), ups, los)
    && LowerDecides(h, h.MinLine().slope, h.MaxLine().slope, los)
    && UpperDecides(h, h.MinLine().slope, h.MaxLine().slope, ups)
  }

  // ---------- reflection ----------

  lemma NegSlice(ps: seq<Point>, k: nat)
    requires k <= |ps|
    ensures NegAll(ps)[k..] == NegAll(ps[k..])
  {
  }

  lemma NegMembers(ps: seq<Point>, start: nat, all: seq<Point>)
    requires Members(ps, start, all)
    ensures Members(NegAll(ps), start, NegAll(all))
  {
    forall i | start <= i < |ps| ensures NegAll(ps)[i] in NegAll(all) {
      assert ps[i] in all;
      var k :| 0 <= k < |all| && all[k] == ps[i];
      assert NegAll(all)[k] == NegAll(ps)[i];
    }
  }

  lemma NegCross(o: Point, a: Point, b: Point)
    ensures Cross(o.Neg(), a.Neg(), b.Neg()) == -Cross(o, a, b)
  {
    var s, t := a.Minus(o), b.Minus(o);
    assert a.Neg().Minus(o.Neg()) == Slope(s.dx, -s.dy);
    assert b.Neg().Minus(o.Neg()) == Slope(t.dx, -t.dy);
    assert s.dx * (-t.dy) == -(s.dx * t.dy) && (-s.dy) * t.dx == -(s.dy * t.dx);
  }

  lemma NegConvex(ps: seq<Point>, start: nat)
    requires Convex(ps, start)
    ensures Concave(NegAll(ps), start)
  {
    forall i | start <= i < |ps| - 2
      ensures Cross(NegAll(ps)[i], NegAll(ps)[i + 1], NegAll(ps)[i + 2]) < 0
    {
      NegCross(ps[i], ps[i + 1], ps[i + 2]);
    }
  }

  lemma NegConcave(ps: seq<Point>, start: nat)
    requires Concave(ps, start)
    ensures Convex(NegAll(ps), start)
  {
    forall i | start <= i < |ps| - 2
      ensures Cross(NegAll(ps)[i], NegAll(ps)[i + 1], NegAll(ps)[i + 2]) > 0
    {
      NegCross(ps[i], ps[i + 1], ps[i + 2]);
    }
  }

  lemma NegChains(h: Hulls, ups: seq<Point>, los: seq<Point>)
    requires Chains(h, ups, los)
    ensures Chains(h.Neg(), NegAll(los), NegAll(ups))
    ensures h.Neg().MinLine() == h.MaxLine().Neg()
    ensures h.Neg().MaxLine() == h.MinLine().Neg()
  {
    var n := h.Neg();
    NegThrough(h.rect.p0, h.rect.p2);
    NegThrough(h.rect.p1, h.rect.p3);
    NegConvex(h.upper, h.upperStart);
    NegConcave(h.lower, h.lowerStart);
    NegMembers(h.upper, h.upperStart, ups);
    NegMembers(h.lower, h.lowerStart, los);
  }

  lemma NegTwice(h: Hulls)
    ensures h.Neg().Neg() == h
  {
    NegAllTwice(h.lower);
    NegAllTwice(h.upper);
  }

  lemma NegUpperDecides(h: Hulls, lo: real, hi: real, ups: seq<Point>)
    requires h.upperStart <= |h.upper| && UpperDecides(h, lo, hi, ups)
    ensures LowerDecides(h.Neg(), -hi, -lo, NegAll(ups))
  {
    forall l: Line | SlopeIn(l, -hi, -lo) && AboveAll(l, h.Neg().lower[h.upperStart..])
      ensures AboveAll(l, NegAll(ups))
    {
      NegSlice(h.upper, h.upperStart);
      NegSides(l.Neg(), h.upper[h.upperStart..]);
      NegSides(l.Neg(), ups);
      assert SlopeIn(l.Neg(), lo, hi);
      assert l.Neg().Neg() == l;
    }
  }

  lemma NegLowerDecides(h: Hulls, lo: real, hi: real, los: seq<Point>)
    requires h.lowerStart <= |h.lower| && LowerDecides(h, lo, hi, los)
    ensures UpperDecides(h.Neg(), -hi, -lo, NegAll(los))
  {
    forall l: Line | SlopeIn(l, -hi, -lo) && BelowAll(l, h.Neg().upper[h.lowerStart..])
      ensures BelowAll(l, NegAll(los))
    {
      NegSlice(h.lower, h.lowerStart);
      NegSides(l.Neg(), h.lower[h.lowerStart..]);
      NegSides(l.Neg(), los);
      assert SlopeIn(l.Neg(), lo, hi);
      assert l.Neg().Neg() == l;
    }
  }

  lemma NegFits(l: Line, ups: seq<Point>, los: seq<Point>)
    requires FitsBoth(l, ups, los)
    ensures FitsBoth(l.Neg(), NegAll(los), NegAll(ups))
  {
    NegSides(l, ups);
    NegSides(l, los);
  }

  lemma NegInv(h: Hulls, ups: seq<Point>, los: seq<Point>)
    requires Inv(h, ups, los)
    ensures Inv(h.Neg(), NegAll(los), NegAll(ups))
  {
    NegChains(h, ups, los);
    NegFits(h.MinLine(), ups, los);
    NegFits(h.MaxLine(), ups, los);
    NegLowerDecides(h, h.MinLine().slope, h.MaxLine().slope, los);
    NegUpperDecides(h, h.MinLine().slope, h.MaxLine().slope, ups);
  }

  // ---------- the tangent walk ----------

  lemma SameSign(a: real, p: real, b: real, q: real)
    requires p > 0.0 && q > 0.0 && a * p == b * q
    ensures a > 0.0 <==> b > 0.0
  {
    if a > 0.0 {
      assert a * p > 0.0;
    } else {
      assert a * p <= 0.0;
    }
    if b > 0.0 {
      assert b * q > 0.0;
    } else {
      assert b * q <= 0.0;
    }
  }

  lemma Weighted(u: real, w: real, first: real, second: real, whole: real)
    requires u > 0.0 && w > 0.0 && whole * (u + w) == first * u + second * w
    ensures first < second <==> whole < second
    ensures first < second <==> first < whole
  {
    assert (second - whole) * (u + w) == (second - first) * u;
    assert (whole - first) * (u + w) == (second - first) * w;
    SameSign(second - whole, u + w, second - first, u);
    SameSign(whole - first, u + w, second - first, w);
  }

  /** For three points from left to right the outer slope is a proper mix of the two inner ones. */
  lemma SlopesIntoPoint(a: Point, b: Point, p: Point)
    requires a.x < b.x < p.x
    ensures Through(a, b).slope < Through(b, p).slope <==> Through(a, p).slope < Through(b, p).slope
    ensures Through(a, b).slope < Through(b, p).slope <==> Through(a, b).slope < Through(a, p).slope
  {
    var ab, bp, ap := Through(a, b).slope, Through(b, p).slope, Through(a, p).slope;
    var u, w := (b.x - a.x) as real, (p.x - b.x) as real;
    assert (p.x - a.x) as real == u + w;
    assert ab * u == (b.y - a.y) as real;
    assert bp * w == (p.y - b.y) as real;
    assert ap * (u + w) == (p.y - a.y) as real;
    Weighted(u, w, ab, bp, ap);
  }

  /** p lies to the right of the chain, except that the last point may sit right below or above it. */
  ghost predicate RightOf(p: Point, ps: seq<Point>, start: nat) {
    && (forall i :: start <= i < |ps| - 1 ==> ps[i].x < p.x)
    && (start < |ps| ==> ps[|ps| - 1].x <= p.x)
  }

  /** A point under the line a-b and to the right of b turns the chain down. */
  lemma SteepnessFromSide(a: Point, b: Point, c: Point)
    requires a.x < b.x < c.x
    requires c.y as real < Through(a, b).At(c.x)
    ensures Through(b, c).slope < Through(a, b).slope
  {
    ThroughAt(a, b);
    ThroughAt(b, c);
    SteeperBetween(Through(b, c), Through(a, b), b.x, c.x);
  }

  /** Once the slope into p goes up along a concave chain, it stays up. */
  lemma {:induction false} SlopesStayUp(ps: seq<Point>, start: nat, i: nat, k: nat, p: Point)
    requires Rightward(ps, start) && Concave(ps, start) && RightOf(p, ps, start)
    requires start < i <= k < |ps| && ps[k].x < p.x
    requires Through(ps[i - 1], p).slope < Through(ps[i], p).slope
    ensures Through(ps[i - 1], p).slope < Through(ps[k], p).slope
    ensures Through(ps[k - 1], p).slope < Through(ps[k], p).slope
    decreases k - i
  {
    if i < k {
      assert ps[k - 1].x < p.x;
      SlopesStayUp(ps, start, i, k - 1, p);
      var a, b, c := ps[k - 2], ps[k - 1], ps[k];
      assert Cross(ps[k - 2], ps[k - 2 + 1], ps[k - 2 + 2]) < 0;
      SlopesIntoPoint(a, b, p);
      CrossSide(a, b, c);
      SteepnessFromSide(a, b, c);
      SlopesIntoPoint(b, c, p);
    }
  }
}

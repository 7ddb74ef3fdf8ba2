/**
 One step of the streaming regression on the value level: what happens to the invariant
 when an upper bound p arrives. Lower bounds are the same step reflected.
 */
module HullStep {
  import opened Geometry
  import opened Hull

  /** All bounds lie left of p; a lower bound may share its x but then lies no higher. */
  ghost predicate Arrives(p: Point, ups: seq<Point>, los: seq<Point>) {
    && (forall u :: u in ups ==> u.x < p.x)
    && (forall l :: l in los ==> l.x < p.x || (l.x == p.x && l.y <= p.y))
  }

  /** The line from lower[mi] to p stays on or above the whole live chain. */
  ghost predicate Tangent(lower: seq<Point>, start: nat, mi: nat, p: Point) {
    && start <= mi < |lower|
    && lower[mi].x < p.x
    && AboveAll(Through(lower[mi], p), lower[start..])
  }

  /** The points from e on that are cut from the chain are redundant once p joins it. */
  ghost predicate Pops(upper: seq<Point>, start: nat, e: nat, p: Point) {
    && start < e <= |upper|
    && (forall l: Line :: BelowAll(l, upper[start..e]) && Below(l, p) ==> BelowAll(l, upper[start..]))
  }

  function Pushed(h: Hulls, p: Point, mi: nat, e: nat): Hulls
    requires mi < |h.lower| && e <= |h.upper|
  {
    Hulls(h.lower, h.upper[..e] + [p], mi, h.upperStart,
          Rectangle(h.rect.p0, h.lower[mi], h.rect.p2, p))
  }

  /** The extreme lines really are ordered by slope. */
  lemma MinNotSteeper(h: Hulls, ups: seq<Point>, los: seq<Point>)
    requires Inv(h, ups, los)
    ensures h.MinLine().slope <= h.MaxLine().slope
  {
    var lo, hi := h.MinLine(), h.MaxLine();
    ThroughAt(h.rect.p1, h.rect.p3);
    assert Above(lo, h.rect.p1) by { assert h.rect.p1 in los; }
    assert Below(lo, h.rect.p3) by { assert h.rect.p3 in ups; }
    SteeperBetween(lo, hi, h.rect.p1.x, h.rect.p3.x);
  }

  /** No line that fits lies below the least line to the right of its second point, nor above the greatest. */
  lemma ExtremesEnclose(h: Hulls, ups: seq<Point>, los: seq<Point>, l: Line, x: int)
    requires Inv(h, ups, los) && FitsBoth(l, ups, los)
    ensures h.MinLine().slope <= l.slope <= h.MaxLine().slope
    ensures x >= h.rect.p2.x ==> h.MinLine().At(x) <= l.At(x)
    ensures x >= h.rect.p3.x ==> l.At(x) <= h.MaxLine().At(x)
  {
    var lo, hi, r := h.MinLine(), h.MaxLine(), h.rect;
    ThroughAt(r.p0, r.p2);
    ThroughAt(r.p1, r.p3);
    assert Below(l, r.p0) && Below(l, r.p3) by { assert r.p0 in ups && r.p3 in ups; }
    assert Above(l, r.p1) && Above(l, r.p2) by { assert r.p1 in los && r.p2 in los; }
    SteeperBetween(lo, l, r.p0.x, r.p2.x);
    SteeperBetween(l, hi, r.p1.x, r.p3.x);
    if x >= r.p2.x { OrderRight(lo, l, r.p2.x, x); }
    if x >= r.p3.x { OrderRight(l, hi, r.p3.x, x); }
  }

  /** An upper bound that the greatest line does not exceed changes nothing. */
  lemma SkipUpper(h: Hulls, ups: seq<Point>, los: seq<Point>, p: Point)
    requires Inv(h, ups, los) && Arrives(p, ups, los)
    requires h.MaxLine().At(p.x) <= p.y as real
    requires h.MinLine().At(p.x) <= p.y as real
    ensures Inv(h, ups + [p], los)
  {
    var lo, hi := h.MinLine().slope, h.MaxLine().slope;
    ThroughAt(h.rect.p1, h.rect.p3);
    assert h.rect.p3.x < p.x by { assert h.rect.p3 in ups; }
    forall l: Line | SlopeIn(l, lo, hi) && BelowAll(l, h.upper[h.upperStart..])
      ensures BelowAll(l, ups + [p])
    {
      var live := h.upper[h.upperStart..];
      assert live[|live| - 1] == h.rect.p3;
      OrderRight(l, h.MaxLine(), h.rect.p3.x, p.x);
    }
  }

  /** If the least line passes p and the greatest runs above it, a fitting line goes through p. */
  lemma FitThrough(lo: Line, hi: Line, ups: seq<Point>, los: seq<Point>, p: Point) returns (c: Line)
    requires FitsBoth(lo, ups, los) && FitsBoth(hi, ups, los)
    requires lo.slope <= hi.slope && lo.At(p.x) <= p.y as real < hi.At(p.x)
    ensures c.At(p.x) == p.y as real && FitsBoth(c, ups, los)
    ensures lo.slope <= c.slope <= hi.slope
  {
    var t := Mix(lo, hi, p);
    c := MixLine(lo, hi, t);
    Between(lo.slope, hi.slope, t);
    forall i | 0 <= i < |ups| ensures Below(c, ups[i]) {
      MixKeeps(lo, hi, t, ups[i].x, 0.0, ups[i].y as real);
    }
    forall i | 0 <= i < |los| ensures Above(c, los[i]) {
      MixKeeps(lo, hi, t, los[i].x, los[i].y as real, 0.0);
    }
  }

  /** The new greatest line fits everything, and lies between the old extremes in slope. */
  lemma NewMaxFits(h: Hulls, ups: seq<Point>, los: seq<Point>, p: Point, mi: nat)
    requires Inv(h, ups, los) && Arrives(p, ups, los)
    requires h.MinLine().At(p.x) <= p.y as real < h.MaxLine().At(p.x)
    requires Tangent(h.lower, h.lowerStart, mi, p)
    ensures FitsBoth(Through(h.lower[mi], p), ups + [p], los)
    ensures h.MinLine().slope <= Through(h.lower[mi], p).slope <= h.MaxLine().slope
  {
    var lo, hi, q, r1 := h.MinLine(), h.MaxLine(), h.lower[mi], h.rect.p1;
    var l := Through(q, p);
    MinNotSteeper(h, ups, los);
    ThroughAt(q, p);
    var c := FitThrough(lo, hi, ups, los, p);
    assert Above(c, q) by { assert q in los; }
    SlopeFrom(q, p, c);
    assert r1.x < p.x by { assert h.rect.p3 in ups; }
    ThroughAt(r1, h.rect.p3);
    assert Above(l, r1) by { assert h.lower[h.lowerStart..][0] == r1; }
    SteeperBetween(l, hi, r1.x, p.x);
    assert SlopeIn(l, lo.slope, hi.slope);
    forall i | 0 <= i < |ups + [p]| ensures Below(l, (ups + [p])[i]) {
      if i < |ups| {
        assert ups[i] in ups;
        OrderLeft(l, c, p.x, ups[i].x);
      }
    }
  }

  lemma PushedMembers(upper: seq<Point>, start: nat, e: nat, p: Point, ups: seq<Point>)
    requires start < e <= |upper| && Members(upper, start, ups)
    ensures Members(upper[..e] + [p], start, ups + [p])
  {
    forall i | start <= i < e + 1 ensures (upper[..e] + [p])[i] in ups + [p] {
      if i < e { assert upper[i] in ups; }
    }
  }

  lemma PushedRightward(upper: seq<Point>, start: nat, e: nat, p: Point, ups: seq<Point>)
    requires start < e <= |upper| && Members(upper, start, ups) && Rightward(upper, start)
    requires forall u :: u in ups ==> u.x < p.x
    ensures Rightward(upper[..e] + [p], start)
  {
    forall i | start <= i < e ensures upper[i].x < p.x {
      assert upper[i] in ups;
    }
  }

  lemma PushedConvex(upper: seq<Point>, start: nat, e: nat, p: Point)
    requires start < e <= |upper| && Convex(upper, start)
    requires e >= start + 2 ==> Cross(upper[e - 2], upper[e - 1], p) > 0
    ensures Convex(upper[..e] + [p], start)
  {
    var g := upper[..e] + [p];
    forall i | start <= i < |g| - 2 ensures Cross(g[i], g[i + 1], g[i + 2]) > 0 {
      if i + 2 < e {
        assert Cross(upper[i], upper[i + 1], upper[i + 2]) > 0;
      } else {
        assert g[i] == upper[e - 2] && g[i + 1] == upper[e - 1] && g[i + 2] == p;
      }
    }
  }

  lemma CutChain(lower: seq<Point>, start: nat, mi: nat, los: seq<Point>)
    requires start <= mi
    requires Rightward(lower, start) && Concave(lower, start) && Members(lower, start, los)
    ensures Rightward(lower, mi) && Concave(lower, mi) && Members(lower, mi, los)
  {
  }

  lemma PushedChains(h: Hulls, ups: seq<Point>, los: seq<Point>, p: Point, mi: nat, e: nat)
    requires Chains(h, ups, los) && Arrives(p, ups, los)
    requires Tangent(h.lower, h.lowerStart, mi, p)
    requires h.upperStart < e <= |h.upper|
    requires e >= h.upperStart + 2 ==> Cross(h.upper[e - 2], h.upper[e - 1], p) > 0
    ensures Chains(Pushed(h, p, mi, e), ups + [p], los)
  {
    hide Members, Concave, Convex, Rightward, AboveAll, Cross;
    PushedMembers(h.upper, h.upperStart, e, p, ups);
    PushedRightward(h.upper, h.upperStart, e, p, ups);
    PushedConvex(h.upper, h.upperStart, e, p);
    CutChain(h.lower, h.lowerStart, mi, los);
  }

  /** The points of the lower chain left of the new tangent point have become redundant. */
  lemma PushedLowerDecides(h: Hulls, los: seq<Point>, p: Point, mi: nat, lo: real, hi: real)
    requires h.lowerStart < |h.lower|
    requires Rightward(h.lower, h.lowerStart)
    requires LowerDecides(h, lo, hi, los)
    requires Tangent(h.lower, h.lowerStart, mi, p)
    requires Through(h.lower[mi], p).slope <= hi
    ensures LowerDecides(h.(lowerStart := mi), lo, Through(h.lower[mi], p).slope, los)
  {
    var q := h.lower[mi];
    var t := Through(q, p);
    ThroughAt(q, p);
    forall l: Line | SlopeIn(l, lo, t.slope) && AboveAll(l, h.lower[mi..])
      ensures AboveAll(l, los)
    {
      var live := h.lower[h.lowerStart..];
      assert Above(l, q) by { assert h.lower[mi..][0] == q; }
      forall i | 0 <= i < |live| ensures Above(l, live[i]) {
        if h.lowerStart + i < mi {
          assert Above(t, live[i]);
          OrderLeft(t, l, q.x, live[i].x);
        } else {
          assert live[i] == h.lower[mi..][h.lowerStart + i - mi];
        }
      }
      assert SlopeIn(l, lo, hi);
    }
  }

  ghost predicate UpperDecidesReady(h: Hulls, ups: seq<Point>, lo: real, hi: real) {
    h.upperStart < |h.upper| && UpperDecides(h, lo, hi, ups)
  }

  lemma PushedUpperDecides(h: Hulls, ups: seq<Point>, p: Point, e: nat, lo: real, hi: real, hi': real)
    requires UpperDecidesReady(h, ups, lo, hi) && Pops(h.upper, h.upperStart, e, p) && hi' <= hi
    ensures UpperDecides(h.(upper := h.upper[..e] + [p]), lo, hi', ups + [p])
  {
    var g := h.upper[..e] + [p];
    forall l: Line | SlopeIn(l, lo, hi') && BelowAll(l, g[h.upperStart..])
      ensures BelowAll(l, ups + [p])
    {
      var live := g[h.upperStart..];
      assert Below(l, p) by { assert live[|live| - 1] == p; }
      forall i | 0 <= i < e - h.upperStart ensures Below(l, h.upper[h.upperStart..e][i]) {
        assert live[i] == h.upper[h.upperStart..e][i];
      }
      assert BelowAll(l, h.upper[h.upperStart..]);
      assert SlopeIn(l, lo, hi);
    }
  }

  /** An upper bound below the greatest line: swing that line down onto the tangent and mend the chain. */
  lemma PushUpper(h: Hulls, ups: seq<Point>, los: seq<Point>, p: Point, mi: nat, e: nat)
    requires Inv(h, ups, los) && Arrives(p, ups, los)
    requires h.MinLine().At(p.x) <= p.y as real < h.MaxLine().At(p.x)
    requires Tangent(h.lower, h.lowerStart, mi, p)
    requires Pops(h.upper, h.upperStart, e, p)
    requires e >= h.upperStart + 2 ==> Cross(h.upper[e - 2], h.upper[e - 1], p) > 0
    ensures Inv(Pushed(h, p, mi, e), ups + [p], los)
  {
    var g := Pushed(h, p, mi, e);
    var lo, hi := h.MinLine().slope, h.MaxLine().slope;
    NewMaxFits(h, ups, los, p, mi);
    PushedChains(h, ups, los, p, mi, e);
    assert g.MinLine() == h.MinLine();
    assert g.MaxLine() == Through(h.lower[mi], p);
    assert Below(g.MinLine(), p);
    PushedLowerDecides(h, los, p, mi, lo, hi);
    PushedUpperDecides(h, ups, p, e, lo, hi, g.MaxLine().slope);
    assert LowerDecides(g, lo, g.MaxLine().slope, los);
    assert UpperDecides(g, lo, g.MaxLine().slope, ups + [p]);
  }

  // ---------- the same step for a lower bound, by reflection ----------

  ghost predicate ArrivesBelow(p: Point, ups: seq<Point>, los: seq<Point>) {
    && (forall l :: l in los ==> l.x < p.x)
    && (forall u :: u in ups ==> u.x < p.x || (u.x == p.x && u.y >= p.y))
  }

  /** The line from upper[mi] to p stays on or below the whole live chain. */
  ghost predicate TangentBelow(upper: seq<Point>, start: nat, mi: nat, p: Point) {
    Tangent(NegAll(upper), start, mi, p.Neg())
  }

  ghost predicate PopsBelow(lower: seq<Point>, start: nat, e: nat, p: Point) {
    Pops(NegAll(lower), start, e, p.Neg())
  }

  function PushedBelow(h: Hulls, p: Point, mi: nat, e: nat): Hulls
    requires mi < |h.upper| && e <= |h.lower|
  {
    Hulls(h.lower[..e] + [p], h.upper, h.lowerStart, mi,
          Rectangle(h.upper[mi], h.rect.p1, p, h.rect.p3))
  }

  lemma NegArrives(p: Point, ups: seq<Point>, los: seq<Point>)
    requires ArrivesBelow(p, ups, los)
    ensures Arrives(p.Neg(), NegAll(los), NegAll(ups))
  {
    forall u | u in NegAll(los) ensures u.x < p.x {
      assert u.Neg() in los;
    }
    forall l | l in NegAll(ups) ensures l.x < p.x || (l.x == p.x && l.y <= -p.y) {
      assert l.Neg() in ups;
    }
  }

  lemma NegAllPush(los: seq<Point>, p: Point)
    ensures NegAll(NegAll(los) + [p.Neg()]) == los + [p]
  {
  }

  lemma NegBack(h: Hulls, ups: seq<Point>, los: seq<Point>, p: Point)
    requires Inv(h, NegAll(los) + [p.Neg()], NegAll(ups))
    ensures Inv(h.Neg(), ups, los + [p])
  {
    hide Inv, NegAll, Point.Neg, Hulls.Neg;
    NegInv(h, NegAll(los) + [p.Neg()], NegAll(ups));
    NegAllTwice(ups);
    NegAllPush(los, p);
  }

  lemma SkipLower(h: Hulls, ups: seq<Point>, los: seq<Point>, p: Point)
    requires Inv(h, ups, los) && ArrivesBelow(p, ups, los)
    requires h.MinLine().At(p.x) >= p.y as real
    requires h.MaxLine().At(p.x) >= p.y as real
    ensures Inv(h, ups, los + [p])
  {
    NegInv(h, ups, los);
    NegChains(h, ups, los);
    NegArrives(p, ups, los);
    NegAt(h.MinLine(), p.x);
    NegAt(h.MaxLine(), p.x);
    SkipUpper(h.Neg(), NegAll(los), NegAll(ups), p.Neg());
    NegBack(h.Neg(), ups, los, p);
    NegTwice(h);
  }

  lemma NegPushed(h: Hulls, p: Point, mi: nat, e: nat)
    requires mi < |h.upper| && e <= |h.lower|
    ensures Pushed(h.Neg(), p.Neg(), mi, e).Neg() == PushedBelow(h, p, mi, e)
  {
    NegAllTwice(h.upper);
    assert NegAll(h.Neg().upper[..e] + [p.Neg()]) == h.lower[..e] + [p];
  }

  lemma PushLower(h: Hulls, ups: seq<Point>, los: seq<Point>, p: Point, mi: nat, e: nat)
    requires Inv(h, ups, los) && ArrivesBelow(p, ups, los)
    requires h.MaxLine().At(p.x) >= p.y as real > h.MinLine().At(p.x)
    requires TangentBelow(h.upper, h.upperStart, mi, p)
    requires PopsBelow(h.lower, h.lowerStart, e, p)
    requires e >= h.lowerStart + 2 ==> Cross(h.lower[e - 2], h.lower[e - 1], p) < 0
    ensures Inv(PushedBelow(h, p, mi, e), ups, los + [p])
  {
    var n := h.Neg();
    NegInv(h, ups, los);
    NegChains(h, ups, los);
    NegArrives(p, ups, los);
    NegAt(h.MinLine(), p.x);
    NegAt(h.MaxLine(), p.x);
    if e >= h.lowerStart + 2 { NegCross(h.lower[e - 2], h.lower[e - 1], p); }
    PushUpper(n, NegAll(los), NegAll(ups), p.Neg(), mi, e);
    NegBack(Pushed(n, p.Neg(), mi, e), ups, los, p);
    NegPushed(h, p, mi, e);
  }
}

/**
 Streaming piecewise linear regression: points arrive by increasing x, and the object keeps
 the two extreme lines that stay within epsilon of every point of the current run.
 */
module Plr {
  import opened Geometry
  import opened Hull
  import opened HullStep
  import opened HullLoops

  /** Largest value of the 64 bit unsigned y coordinate; the smallest is 0. */
  const MAX_Y: int := 0xFFFF_FFFF_FFFF_FFFF

  /** The values a line may take at x. */
  datatype Band = Band(x: int, lo: int, hi: int)

  function BandOf(epsilon: nat, x: int, y: int): (b: Band)
    requires 0 <= y <= MAX_Y
  {
    Band(x, if y <= 0 + epsilon then 0 else y - epsilon,
            if y >= MAX_Y - epsilon then MAX_Y else y + epsilon)
  }

  lemma BandSound(epsilon: nat, x: int, y: int)
    requires 0 <= y <= MAX_Y
    ensures var b := BandOf(epsilon, x, y);
            b.lo <= y <= b.hi && b.lo >= y - epsilon && b.hi <= y + epsilon && b.lo >= 0
    ensures epsilon == 0 <==> BandOf(epsilon, x, y).lo == BandOf(epsilon, x, y).hi
  {
  }

  ghost predicate FitsBand(l: Line, b: Band) {
    b.lo as real <= l.At(b.x) <= b.hi as real
  }

  /** A band holds exactly the representable values that are within epsilon of the point's own. */
  lemma BandExact(epsilon: nat, x: int, y: int, v: real)
    requires 0 <= y <= MAX_Y
    ensures var b := BandOf(epsilon, x, y);
            && b.x == x
            && (b.lo as real <= v <= b.hi as real <==>
                  0.0 <= v <= MAX_Y as real && (y - epsilon) as real <= v <= (y + epsilon) as real)
  {
  }

  /** Line l stays within the band of every point of the run. */
  ghost predicate Fits(l: Line, run: seq<Band>) {
    forall i :: 0 <= i < |run| ==> FitsBand(l, run[i])
  }

  ghost predicate Fittable(run: seq<Band>) {
    exists l: Line :: Fits(l, run)
  }

  ghost predicate IncreasingX(run: seq<Band>) {
    forall i, j :: 0 <= i < j < |run| ==> run[i].x < run[j].x
  }

  ghost predicate Proper(run: seq<Band>, epsilon: nat) {
    forall i :: 0 <= i < |run| ==> run[i].lo <= run[i].hi && (epsilon == 0 <==> run[i].lo == run[i].hi)
  }

  function High(b: Band): Point { Point(b.x, b.hi) }

  function Low(b: Band): Point { Point(b.x, b.lo) }

  function Ups(run: seq<Band>): (r: seq<Point>) {
    seq(|run|, i requires 0 <= i < |run| => High(run[i]))
  }

  function Los(run: seq<Band>): (r: seq<Point>) {
    seq(|run|, i requires 0 <= i < |run| => Low(run[i]))
  }

  lemma FitsIsBoth(l: Line, run: seq<Band>)
    ensures Fits(l, run) <==> FitsBoth(l, Ups(run), Los(run))
  {
    forall i | 0 <= i < |run|
      ensures FitsBand(l, run[i]) <==> Below(l, Ups(run)[i]) && Above(l, Los(run)[i])
    {
    }
    if FitsBoth(l, Ups(run), Los(run)) {
      forall i | 0 <= i < |run| ensures FitsBand(l, run[i]) {
        assert Below(l, Ups(run)[i]) && Above(l, Los(run)[i]);
      }
    }
  }

  lemma BoundsGrow(run: seq<Band>, b: Band)
    ensures Ups(run + [b]) == Ups(run) + [High(b)]
    ensures Los(run + [b]) == Los(run) + [Low(b)]
  {
  }

  /** A run of one point, and of two points, can always be fitted. */
  lemma ShortRunFits(run: seq<Band>, epsilon: nat)
    requires 1 <= |run| <= 2 && IncreasingX(run) && Proper(run, epsilon)
    ensures Fittable(run)
  {
    if |run| == 1 {
      var l := Line(0.0, run[0].lo as real);
      assert Fits(l, run);
    } else {
      var l := Through(Low(run[0]), Low(run[1]));
      ThroughAt(Low(run[0]), Low(run[1]));
      assert Fits(l, run);
    }
  }

  lemma CornersFit(lower: seq<Point>, upper: seq<Point>)
    requires |lower| == |upper| == 2 && lower[0].x == upper[0].x < lower[1].x == upper[1].x
    requires lower[0].y <= upper[0].y && lower[1].y <= upper[1].y
    ensures FitsBoth(Through(upper[0], lower[1]), upper, lower)
    ensures FitsBoth(Through(lower[0], upper[1]), upper, lower)
  {
    ThroughAt(upper[0], lower[1]);
    ThroughAt(lower[0], upper[1]);
  }

  lemma WholeChainDecides(h: Hulls, lo: real, hi: real)
    requires h.lowerStart == h.upperStart == 0
    ensures LowerDecides(h, lo, hi, h.lower) && UpperDecides(h, lo, hi, h.upper)
  {
    assert h.lower[0..] == h.lower && h.upper[0..] == h.upper;
  }

  /** The state after two points satisfies the invariant. */
  lemma TwoPointInv(h: Hulls, run: seq<Band>, epsilon: nat)
    requires |run| == 2 && IncreasingX(run) && Proper(run, epsilon)
    requires h == Hulls([Low(run[0]), Low(run[1])], [High(run[0]), High(run[1])], 0, 0,
                        Rectangle(High(run[0]), Low(run[0]), Low(run[1]), High(run[1])))
    ensures Inv(h, Ups(run), Los(run))
  {
    hide Through, FitsBoth, LowerDecides, UpperDecides;
    assert Los(run) == h.lower && Ups(run) == h.upper;
    assert run[0].lo <= run[0].hi && run[1].lo <= run[1].hi;
    CornersFit(h.lower, h.upper);
    WholeChainDecides(h, h.MinLine().slope, h.MaxLine().slope);
  }

  /** What every kept or finished run of two or more points satisfies. */
  ghost predicate Extremes(h: Hulls, run: seq<Band>, epsilon: nat) {
    && Inv(h, Ups(run), Los(run))
    && (epsilon == 0 ==> h.rect.p0 == h.rect.p1 && h.rect.p2 == h.rect.p3)
  }

  lemma ExtremesFit(h: Hulls, run: seq<Band>, epsilon: nat)
    requires Extremes(h, run, epsilon)
    ensures h.Shaped() && Fits(h.MinLine(), run) && Fits(h.MaxLine(), run) && Fittable(run)
  {
    FitsIsBoth(h.MinLine(), run);
    FitsIsBoth(h.MaxLine(), run);
  }

  lemma ArrivalOrder(run: seq<Band>, b: Band, epsilon: nat)
    requires IncreasingX(run + [b]) && Proper(run + [b], epsilon)
    ensures Arrives(High(b), Ups(run), Los(run))
    ensures ArrivesBelow(Low(b), Ups(run), Los(run))
    ensures ArrivesBelow(Low(b), Ups(run) + [High(b)], Los(run))
  {
    assert b == (run + [b])[|run|];
    forall u | u in Ups(run) ensures u.x < b.x {
      var i :| 0 <= i < |run| && Ups(run)[i] == u;
      assert run[i] == (run + [b])[i];
    }
    forall u | u in Los(run) ensures u.x < b.x {
      var i :| 0 <= i < |run| && Los(run)[i] == u;
      assert run[i] == (run + [b])[i];
    }
  }

  lemma BeyondRun(run: seq<Band>, b: Band)
    requires IncreasingX(run + [b])
    ensures forall p :: p in Ups(run) || p in Los(run) ==> p.x < b.x
  {
    assert b == (run + [b])[|run|];
    forall p | p in Ups(run) || p in Los(run) ensures p.x < b.x {
      var i :| 0 <= i < |run| && run[i].x == p.x;
      assert run[i] == (run + [b])[i];
    }
  }

  /** The two integer tests reject a point exactly when no line at all fits the longer run. */
  lemma RejectionIsExact(h: Hulls, run: seq<Band>, b: Band)
    requires |run| >= 2 && Inv(h, Ups(run), Los(run)) && IncreasingX(run + [b])
    requires (b.hi as real) < h.MinLine().At(b.x) || (b.lo as real) > h.MaxLine().At(b.x)
    ensures !Fittable(run + [b])
  {
    if l: Line :| Fits(l, run + [b]) {
      forall i | 0 <= i < |run| ensures FitsBand(l, run[i]) {
        assert run[i] == (run + [b])[i];
      }
      FitsIsBoth(l, run);
      assert FitsBand(l, b) by { assert b == (run + [b])[|run|]; }
      assert h.rect.p2 in Los(run) && h.rect.p3 in Ups(run);
      BeyondRun(run, b);
      ExtremesEnclose(h, Ups(run), Los(run), l, b.x);
      assert false;
    }
  }

  ghost predicate LeftOf(h: Hulls, x: int) {
    && (forall i :: h.lowerStart <= i < |h.lower| ==> h.lower[i].x < x)
    && (forall i :: h.upperStart <= i < |h.upper| ==> h.upper[i].x < x)
  }

  /** The live chains lie left of p, except that the last upper point may lie right above it. */
  ghost predicate RoomAbove(h: Hulls, p: Point) {
    && h.Shaped()
    && RightOf(p, h.upper, h.upperStart)
    && h.upper[h.upperStart].x < p.x
    && (h.upper[|h.upper| - 1].x == p.x ==> h.upper[|h.upper| - 1].y > p.y)
    && (forall i :: h.lowerStart <= i < |h.lower| ==> h.lower[i].x < p.x)
  }

  /** The chains of a run lie strictly left of the next point. */
  lemma ChainsLeft(h: Hulls, run: seq<Band>, b: Band)
    requires Inv(h, Ups(run), Los(run)) && IncreasingX(run + [b])
    ensures LeftOf(h, b.x)
  {
    BeyondRun(run, b);
    forall i | h.lowerStart <= i < |h.lower| ensures h.lower[i].x < b.x {
      assert h.lower[i] in Los(run);
    }
    forall i | h.upperStart <= i < |h.upper| ensures h.upper[i].x < b.x {
      assert h.upper[i] in Ups(run);
    }
  }

  lemma InvChains(h: Hulls, ups: seq<Point>, los: seq<Point>)
    requires Inv(h, ups, los)
    ensures h.Shaped() && h.rect.p0.x < h.rect.p2.x && h.rect.p1.x < h.rect.p3.x
    ensures h.rect.p0 == h.upper[h.upperStart] && h.rect.p1 == h.lower[h.lowerStart]
    ensures Rightward(h.lower, h.lowerStart) && Concave(h.lower, h.lowerStart)
    ensures Rightward(h.upper, h.upperStart) && Convex(h.upper, h.upperStart)
  {
  }

  lemma PushedLines(h: Hulls, ups: seq<Point>, los: seq<Point>, p: Point, mi: nat, e: nat)
    requires Inv(h, ups, los) && mi < |h.lower| && e <= |h.upper|
    requires Inv(Pushed(h, p, mi, e), ups + [p], los)
    ensures Pushed(h, p, mi, e).Shaped()
    ensures Pushed(h, p, mi, e).MinLine() == h.MinLine()
    ensures Pushed(h, p, mi, e).MaxLine().At(p.x) == p.y as real
  {
    ThroughAt(h.lower[mi], p);
  }

  /** Where the live chains lie when the upper bound of the new point is already in. */
  lemma BandChains(h: Hulls, run: seq<Band>, ups: seq<Point>, b: Band)
    requires IncreasingX(run + [b]) && b.lo < b.hi
    requires ups == Ups(run) + [High(b)] && Inv(h, ups, Los(run))
    ensures RoomAbove(h, Low(b))
  {
    BeyondRun(run, b);
    forall i | h.lowerStart <= i < |h.lower| ensures h.lower[i].x < b.x {
      assert h.lower[i] in Los(run);
    }
    forall i | h.upperStart <= i < |h.upper|
      ensures h.upper[i].x < b.x || h.upper[i] == High(b)
    {
      assert h.upper[i] in ups;
    }
    assert h.rect.p2.x < b.x;
  }

  /** The upper bound p1 swings the greatest line down. */
  method LowerMaxLine(h: Hulls, p1: Point, ghost ups: seq<Point>, ghost los: seq<Point>) returns (g: Hulls)
    requires Inv(h, ups, los) && Arrives(p1, ups, los)
    requires h.MinLine().At(p1.x) <= p1.y as real < h.MaxLine().At(p1.x)
    requires LeftOf(h, p1.x)
    ensures Inv(g, ups + [p1], los)
    ensures g.MinLine() == h.MinLine()
    ensures g.MaxLine().At(p1.x) == p1.y as real
  {
    InvChains(h, ups, los);
    var mi := FindMinSlope(h.lower, h.lowerStart, p1);
    var end := TrimUpper(h.upper, h.upperStart, p1);
    g := Pushed(h, p1, mi, end);
    PushUpper(h, ups, los, p1, mi, end);
    PushedLines(h, ups, los, p1, mi, end);
  }

  /** The lower bound p2 swings the least line up. */
  method RaiseMinLine(h: Hulls, p2: Point, ghost ups: seq<Point>, ghost los: seq<Point>) returns (g: Hulls)
    requires Inv(h, ups, los) && ArrivesBelow(p2, ups, los)
    requires h.MinLine().At(p2.x) < p2.y as real <= h.MaxLine().At(p2.x)
    requires RoomAbove(h, p2)
    ensures Inv(g, ups, los + [p2])
  {
    InvChains(h, ups, los);
    var mi := FindMaxSlope(h.upper, h.upperStart, p2);
    var end := TrimLower(h.lower, h.lowerStart, p2);
    g := PushedBelow(h, p2, mi, end);
    PushLower(h, ups, los, p2, mi, end);
  }

  /** The slope comparisons of the insertion are side-of-line tests. */
  lemma LineTests(a: Point, b: Point, p: Point)
    requires a.x < b.x
    ensures p.Minus(b).Less(b.Minus(a)) <==> (p.y as real) < Through(a, b).At(p.x)
    ensures p.Minus(a).Less(b.Minus(a)) <==> (p.y as real) < Through(a, b).At(p.x)
    ensures p.Minus(b).Greater(b.Minus(a)) <==> (p.y as real) > Through(a, b).At(p.x)
    ensures p.Minus(a).Greater(b.Minus(a)) <==> (p.y as real) > Through(a, b).At(p.x)
  {
    CrossSide(a, b, p);
    var d, e := b.Minus(a), p.Minus(a);
    var f := p.Minus(b);
    assert f.dx == e.dx - d.dx && f.dy == e.dy - d.dy;
    assert f.dy * d.dx == e.dy * d.dx - d.dy * d.dx;
    assert f.dx * d.dy == e.dx * d.dy - d.dx * d.dy;
    assert Cross(a, b, p) == d.dx * e.dy - d.dy * e.dx;
  }

  lemma MinBelowMax(h: Hulls, run: seq<Band>, b: Band)
    requires |run| >= 2 && Inv(h, Ups(run), Los(run)) && IncreasingX(run + [b])
    ensures h.MinLine().At(b.x) <= h.MaxLine().At(b.x)
  {
    BeyondRun(run, b);
    assert h.rect.p2 in Los(run) && h.rect.p3 in Ups(run);
    ExtremesEnclose(h, Ups(run), Los(run), h.MinLine(), b.x);
  }

  /** A point that neither extreme line rules out: move those lines that do not pass within its band. */
  method Absorb(h: Hulls, p1: Point, p2: Point, epsilon: nat, ghost run: seq<Band>, ghost b: Band) returns (g: Hulls)
    requires |run| >= 2 && IncreasingX(run + [b]) && Proper(run + [b], epsilon) && Extremes(h, run, epsilon)
    requires p1 == High(b) && p2 == Low(b)
    requires h.MinLine().At(b.x) <= b.hi as real && b.lo as real <= h.MaxLine().At(b.x)
    ensures Extremes(g, run + [b], epsilon)
  {
    ghost var ups, los := Ups(run), Los(run);
    InvChains(h, ups, los);
    ArrivalOrder(run, b, epsilon);
    ChainsLeft(h, run, b);
    MinBelowMax(h, run, b);
    BoundsGrow(run, b);
    assert b == (run + [b])[|run|];
    hide Inv, IncreasingX, Proper, Through, Line.At, Slope.Less, Slope.Greater, ArrivesBelow, Arrives, RoomAbove;
    var slope1 := h.rect.p2.Minus(h.rect.p0);
    var slope2 := h.rect.p3.Minus(h.rect.p1);
    LineTests(h.rect.p1, h.rect.p3, p1);
    LineTests(h.rect.p0, h.rect.p2, p2);
    g := h;
    if p1.Minus(h.rect.p1).Less(slope2) {
      g := LowerMaxLine(h, p1, ups, los);
    } else {
      SkipUpper(h, ups, los, p1);
    }
    InvChains(g, ups + [p1], los);
    if p2.Minus(h.rect.p0).Greater(slope1) {
      BandChains(g, run, ups + [p1], b);
      g := RaiseMinLine(g, p2, ups + [p1], los);
    } else {
      SkipLower(g, ups + [p1], los, p2);
    }
  }

  datatype AddResult = Added | Refused | NotIncreasing

  datatype CanonicalSegment = CanonicalSegment(rect: Rectangle, first: int)

  /** Every line that fits has a slope between the two. */
  ghost predicate SpansSlopes(lo: real, hi: real, run: seq<Band>) {
    forall l: Line :: Fits(l, run) ==> lo <= l.slope <= hi
  }

  /**
   What a segment says of the run it was made from: its two lines fit, touch the run's own bounds,
   and are the least and the steepest.
   */
  ghost predicate Describes(s: CanonicalSegment, run: seq<Band>) {
    && run != [] && s.first == run[0].x
    && (|run| == 1 ==> s.rect == Rectangle(High(run[0]), Low(run[0]), High(run[0]), Low(run[0])))
    && (|run| >= 2 ==>
          && s.rect.p0.x < s.rect.p2.x && s.rect.p1.x < s.rect.p3.x
          && s.rect.p0 in Ups(run) && s.rect.p3 in Ups(run)
          && s.rect.p1 in Los(run) && s.rect.p2 in Los(run)
          && Fits(Through(s.rect.p0, s.rect.p2), run)
          && Fits(Through(s.rect.p1, s.rect.p3), run)
          && SpansSlopes(Through(s.rect.p0, s.rect.p2).slope, Through(s.rect.p1, s.rect.p3).slope, run))
  }

  lemma DescribesExtremes(h: Hulls, run: seq<Band>, first: int, epsilon: nat)
    requires |run| >= 2 && Extremes(h, run, epsilon) && first == run[0].x
    ensures Describes(CanonicalSegment(h.rect, first), run)
  {
    ExtremesFit(h, run, epsilon);
    forall l: Line | Fits(l, run) ensures h.MinLine().slope <= l.slope <= h.MaxLine().slope {
      FitsIsBoth(l, run);
      ExtremesEnclose(h, Ups(run), Los(run), l, 0);
    }
  }

  class PLR {
    const epsilon: nat
    var lower: seq<Point>
    var upper: seq<Point>
    var firstX: int
    var lastX: int
    var lowerStart: nat
    var upperStart: nat
    var pointsInHull: nat
    var rectangle: Rectangle
    /** The bands of the run that the rectangle describes; it survives a refusal. */
    ghost var run: seq<Band>

    function View(): Hulls
      reads this
    {
      Hulls(lower, upper, lowerStart, upperStart, rectangle)
    }

    ghost predicate Valid()
      reads this
    {
      && IncreasingX(run) && Proper(run, epsilon)
      && (pointsInHull == |run| || (pointsInHull == 0 && |run| >= 2))
      && (pointsInHull > 0 ==> lastX == run[|run| - 1].x)
      && (|run| > 0 ==> firstX == run[0].x && Fittable(run))
      && (|run| == 1 ==> View() == Hulls([Low(run[0])], [High(run[0])], 0, 0,
                                         Rectangle(High(run[0]), Low(run[0]), rectangle.p2, rectangle.p3)))
      && (|run| >= 2 ==> Extremes(View(), run, epsilon))
    }

    constructor (epsilon: nat)
      ensures Valid() && this.epsilon == epsilon && run == [] && pointsInHull == 0
    {
      this.epsilon := epsilon;
      lower, upper := [], [];
      firstX, lastX, lowerStart, upperStart, pointsInHull := 0, 0, 0, 0, 0;
      rectangle := Rectangle(Point(0, 0), Point(0, 0), Point(0, 0), Point(0, 0));
      run := [];
    }

    /** The insertion into a run of two or more points, its x already checked. */
    method AddToRun(p1: Point, p2: Point, ghost b: Band) returns (r: AddResult)
      requires |run| >= 2 && pointsInHull == |run| && Extremes(View(), run, epsilon)
      requires IncreasingX(run + [b]) && Proper(run + [b], epsilon) && p1 == High(b) && p2 == Low(b)
      modifies `lower, `upper, `lowerStart, `upperStart, `rectangle, `pointsInHull, `run
      ensures r == if Fittable(old(run) + [b]) then Added else Refused
      ensures r == Added ==> run == old(run) + [b] && pointsInHull == |run| && Extremes(View(), run, epsilon)
      ensures r == Refused ==> run == old(run) && pointsInHull == 0 && View() == old(View())
    {
      hide Inv, Through, Line.At, Slope.Less, Slope.Greater, Fits, Ups, Los, FitsBoth, IncreasingX, Proper;
      InvChains(View(), Ups(run), Los(run));
      var slope1 := rectangle.p2.Minus(rectangle.p0);
      var slope2 := rectangle.p3.Minus(rectangle.p1);
      var outsideLine1 := p1.Minus(rectangle.p2).Less(slope1);
      var outsideLine2 := p2.Minus(rectangle.p3).Greater(slope2);
      LineTests(rectangle.p0, rectangle.p2, p1);
      LineTests(rectangle.p1, rectangle.p3, p2);
      if outsideLine1 || outsideLine2 {
        RejectionIsExact(View(), run, b);
        pointsInHull := 0;
        return Refused;
      }

      var g := Absorb(View(), p1, p2, epsilon, run, b);
      lower, upper, lowerStart, upperStart, rectangle := g.lower, g.upper, g.lowerStart, g.upperStart, g.rect;
      pointsInHull := pointsInHull + 1;
      run := run + [b];
      assert View() == g;
      ExtremesFit(g, run, epsilon);
      return Added;
    }

    method AddPoint(x: int, y: int) returns (r: AddResult)
      requires Valid() && 0 <= y <= MAX_Y
      modifies this
      ensures Valid()
      ensures r == NotIncreasing <==> old(pointsInHull) > 0 && x <= old(lastX)
      ensures r == NotIncreasing ==> unchanged(this)
      ensures old(pointsInHull) == 0 ==> r == Added && run == [BandOf(epsilon, x, y)]
      ensures old(pointsInHull) > 0 && x > old(lastX) ==>
                (r == Added <==> Fittable(old(run) + [BandOf(epsilon, x, y)]))
      ensures old(pointsInHull) > 0 && r == Added ==> run == old(run) + [BandOf(epsilon, x, y)]
      ensures r == Added ==> pointsInHull == |run| && lastX == x
      ensures run != [] ==> Fittable(run)
      ensures r == Refused ==> pointsInHull == 0 && run == old(run) && |run| >= 2
                               && rectangle == old(rectangle) && firstX == old(firstX)
    {
      hide Inv, Through, Line.At, Slope.Less, Slope.Greater, Fits, Ups, Los, FitsBoth;
      if pointsInHull > 0 && x <= lastX {
        return NotIncreasing;
      }
      lastX := x;
      var p1 := Point(x, if y >= MAX_Y - epsilon then MAX_Y else y + epsilon);
      var p2 := Point(x, if y <= 0 + epsilon then 0 else y - epsilon);
      ghost var b := BandOf(epsilon, x, y);
      BandSound(epsilon, x, y);

      if pointsInHull == 0 {
        firstX := x;
        rectangle := rectangle.(p0 := p1, p1 := p2);
        upper := [p1];
        lower := [p2];
        upperStart, lowerStart := 0, 0;
        pointsInHull := 1;
        run := [b];
        ShortRunFits(run, epsilon);
        return Added;
      }

      ghost var longer := run + [b];
      assert IncreasingX(longer);
      assert Proper(longer, epsilon);

      if pointsInHull == 1 {
        rectangle := rectangle.(p2 := p2, p3 := p1);
        upper := upper + [p1];
        lower := lower + [p2];
        pointsInHull := 2;
        run := longer;
        TwoPointInv(View(), run, epsilon);
        ShortRunFits(run, epsilon);
        return Added;
      }

      r := AddToRun(p1, p2, b);
    }

    /** The finished segment; after a refusal it still describes the run that was refused a point. */
    method GetSegment() returns (s: CanonicalSegment)
      requires Valid() && run != []
      ensures Describes(s, run)
    {
      if pointsInHull == 1 {
        s := CanonicalSegment(Rectangle(rectangle.p0, rectangle.p1, rectangle.p0, rectangle.p1), firstX);
      } else {
        s := CanonicalSegment(rectangle, firstX);
        DescribesExtremes(View(), run, firstX, epsilon);
      }
    }

    method Reset()
      requires Valid()
      modifies this
      ensures Valid() && run == [] && pointsInHull == 0
    {
      pointsInHull := 0;
      lower, upper := [], [];
      run := [];
    }
  }
}

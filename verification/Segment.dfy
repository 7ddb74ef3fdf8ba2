/** The single line a finished segment stands for: mean slope through the crossing of the extreme lines. */
module Segment {
  import opened Geometry
  import opened Plr

  predicate OnePoint(s: CanonicalSegment) {
    s.rect.p0 == s.rect.p2 && s.rect.p1 == s.rect.p3
  }

  function SlopeRange(s: CanonicalSegment): (r: (real, real))
    requires OnePoint(s) || (s.rect.p0.x < s.rect.p2.x && s.rect.p1.x < s.rect.p3.x)
  {
    if OnePoint(s) then (0.0, 1.0)
    else (s.rect.p2.Minus(s.rect.p0).Value(), s.rect.p3.Minus(s.rect.p1).Value())
  }

  function Turn(s: CanonicalSegment): int {
    var v, w := s.rect.p2.Minus(s.rect.p0), s.rect.p3.Minus(s.rect.p1);
    v.dx * w.dy - v.dy * w.dx
  }

  lemma TurnZero(s: CanonicalSegment)
    ensures s.rect.p2.Minus(s.rect.p0).Equal(s.rect.p3.Minus(s.rect.p1)) <==> Turn(s) == 0
  {
  }

  /** Where the two extreme lines cross, or the first point when they never do. */
  function Intersection(s: CanonicalSegment): (r: (real, real)) {
    var r := s.rect;
    var slope1, slope2 := r.p2.Minus(r.p0), r.p3.Minus(r.p1);
    TurnZero(s);
    if OnePoint(s) || slope1.Equal(slope2) then (r.p0.x as real, r.p0.y as real)
    else
      var p0p1 := r.p1.Minus(r.p0);
      var a := Turn(s);
      var b := (p0p1.dx * slope2.dy - p0p1.dy * slope2.dx) as real / a as real;
      (r.p0.x as real + b * (slope1.dx as real), r.p0.y as real + b * (slope1.dy as real))
  }

  /** Slope and intercept as handed to the linear model; one point gives a flat line at the integer mean. */
  function SlopeIntercept(s: CanonicalSegment): (l: Line)
    requires OnePoint(s) || (s.rect.p0.x < s.rect.p2.x && s.rect.p1.x < s.rect.p3.x)
  {
    if OnePoint(s) then Line(0.0, ((s.rect.p0.y + s.rect.p1.y) / 2) as real)
    else
      var i := Intersection(s);
      var range := SlopeRange(s);
      var slope := (range.0 + range.1) / 2.0;
      Line(slope, i.1 - i.0 * slope)
  }

  predicate Proportioned(s: CanonicalSegment) {
    s.rect.p0.x < s.rect.p2.x && s.rect.p1.x < s.rect.p3.x
  }

  /** Walking b times along a slope from a point of its line stays on the line. */
  lemma OnLine(p: Point, q: Point, b: real)
    requires p.x < q.x
    ensures var l := Through(p, q);
            p.y as real + b * ((q.y - p.y) as real) == l.slope * (p.x as real + b * ((q.x - p.x) as real)) + l.icpt
  {
    var l := Through(p, q);
    var dx, dy, x := (q.x - p.x) as real, (q.y - p.y) as real, p.x as real;
    assert l.slope * dx == dy;
    assert l.slope * (x + b * dx) == l.slope * x + b * (l.slope * dx);
  }

  lemma ThroughSlope(a: Point, b: Point)
    requires a.x != b.x
    ensures Through(a, b).slope * ((b.x - a.x) as real) == (b.y - a.y) as real
  {
  }

  lemma SameFactor(a: real, b: real, w: real)
    requires w != 0.0 && a * w == b * w
    ensures a == b
  {
    assert (a - b) * w == 0.0;
  }

  /** A step parallel to (wx, wy) from a point of a line of slope wy / wx stays on the line. */
  lemma OnSecondLine(s: real, c: real, x: real, y: real, wx: real, wy: real, ex: real, ey: real)
    requires wx != 0.0 && s * wx == wy && y == s * x + c && ex * wy == ey * wx
    ensures y + ey == s * (x + ex) + c
  {
    assert (ex * s) * wx == ex * (s * wx);
    SameFactor(ex * s, ey, wx);
    assert s * (x + ex) == s * x + ex * s;
  }

  lemma SecondByCross(vx: real, vy: real, wx: real, wy: real, ox: real, oy: real, b: real)
    requires b * (vx * wy - vy * wx) == ox * wy - oy * wx
    ensures (b * vx - ox) * wy == (b * vy - oy) * wx
  {
    assert b * (vx * wy - vy * wx) == (b * vx) * wy - (b * vy) * wx;
  }

  /** The computed crossing lies on the line of greatest slope too. */
  lemma CrossingOnSecond(s: CanonicalSegment)
    requires Proportioned(s) && !OnePoint(s) && Turn(s) != 0
    ensures var i := Intersection(s); var l := Through(s.rect.p1, s.rect.p3); i.1 == l.slope * i.0 + l.icpt
  {
    var r := s.rect;
    var l := Through(r.p1, r.p3);
    TurnZero(s);
    ThroughAt(r.p1, r.p3);
    ThroughSlope(r.p1, r.p3);
    hide Through;
    var i := Intersection(s);
    var v, w, o := r.p2.Minus(r.p0), r.p3.Minus(r.p1), r.p1.Minus(r.p0);
    var vx, vy, wx, wy, ox, oy := v.dx as real, v.dy as real, w.dx as real, w.dy as real, o.dx as real, o.dy as real;
    var a, n := Turn(s) as real, (o.dx * w.dy - o.dy * w.dx) as real;
    assert a == vx * wy - vy * wx && n == ox * wy - oy * wx;
    var b := n / a;
    assert b * a == n;
    SecondByCross(vx, vy, wx, wy, ox, oy, b);
    OnSecondLine(l.slope, l.icpt, r.p1.x as real, r.p1.y as real, wx, wy, b * vx - ox, b * vy - oy);
    assert i.0 == r.p1.x as real + (b * vx - ox);
    assert i.1 == r.p1.y as real + (b * vy - oy);
  }

  /** The chosen line is the midpoint of the two extreme lines, or the least one when they are parallel. */
  lemma ChosenIsMidpoint(s: CanonicalSegment)
    requires Proportioned(s)
    ensures var lo, hi, c := Through(s.rect.p0, s.rect.p2), Through(s.rect.p1, s.rect.p3), SlopeIntercept(s);
            && c.slope == (lo.slope + hi.slope) / 2.0
            && (Turn(s) != 0 ==> c.icpt == (lo.icpt + hi.icpt) / 2.0)
            && (Turn(s) == 0 ==> c == lo && lo.slope == hi.slope)
  {
    var lo, hi, i := Through(s.rect.p0, s.rect.p2), Through(s.rect.p1, s.rect.p3), Intersection(s);
    TurnZero(s);
    if Turn(s) == 0 {
      SlopeOrder(s.rect.p2.Minus(s.rect.p0), s.rect.p3.Minus(s.rect.p1));
    } else {
      CrossingOnSecond(s);
      var b := ((s.rect.p1.x - s.rect.p0.x) * (s.rect.p3.y - s.rect.p1.y)
                - (s.rect.p1.y - s.rect.p0.y) * (s.rect.p3.x - s.rect.p1.x)) as real / Turn(s) as real;
      OnLine(s.rect.p0, s.rect.p2, b);
      assert i.1 == lo.slope * i.0 + lo.icpt;
      var m := (lo.slope + hi.slope) / 2.0;
      assert i.0 * m == (lo.slope * i.0 + hi.slope * i.0) / 2.0;
    }
  }

  /** The slope range is exactly the range of the slopes of all lines that fit the run. */
  lemma SlopeRangeIsExact(s: CanonicalSegment, run: seq<Band>)
    requires Describes(s, run) && |run| >= 2
    ensures forall l: Line :: Fits(l, run) ==> SlopeRange(s).0 <= l.slope <= SlopeRange(s).1
    ensures exists l: Line :: Fits(l, run) && l.slope == SlopeRange(s).0
    ensures exists l: Line :: Fits(l, run) && l.slope == SlopeRange(s).1
  {
    hide Fits, FitsBand;
    var lo, hi := Through(s.rect.p0, s.rect.p2), Through(s.rect.p1, s.rect.p3);
    assert Fits(lo, run) && lo.slope == SlopeRange(s).0;
    assert Fits(hi, run) && hi.slope == SlopeRange(s).1;
  }

  lemma FlatFits(b: Band, y: int)
    requires b.lo <= y <= b.hi
    ensures FitsBand(Line(0.0, y as real), b)
  {
  }

  /** The chosen line fits every point of the run. */
  lemma ChosenFits(s: CanonicalSegment, run: seq<Band>, epsilon: nat)
    requires Describes(s, run) && Proper(run, epsilon)
    ensures OnePoint(s) <==> |run| == 1
    ensures Fits(SlopeIntercept(s), run)
  {
    if |run| == 1 {
      FlatFits(run[0], (s.rect.p0.y + s.rect.p1.y) / 2);
    } else {
      var lo, hi, c := Through(s.rect.p0, s.rect.p2), Through(s.rect.p1, s.rect.p3), SlopeIntercept(s);
      ChosenIsMidpoint(s);
      hide SlopeIntercept, Through, MixLine, Line.At;
      if Turn(s) != 0 {
        MidpointIsMix(lo, hi, c);
        forall i | 0 <= i < |run| ensures FitsBand(c, run[i]) {
          assert FitsBand(lo, run[i]) && FitsBand(hi, run[i]);
          MixKeeps(lo, hi, 0.5, run[i].x, run[i].lo as real, run[i].hi as real);
        }
      }
    }
  }

  /** Two lines that fit a run, one with the least and one with the greatest slope of all that do. */
  ghost predicate Outermost(lo: Line, hi: Line, run: seq<Band>) {
    Fits(lo, run) && Fits(hi, run) && SpansSlopes(lo.slope, hi.slope, run)
  }

  /** The middle of two lines, in slope and intercept. */
  ghost predicate Halfway(m: Line, lo: Line, hi: Line) {
    m.slope == (lo.slope + hi.slope) / 2.0 && m.icpt == (lo.icpt + hi.icpt) / 2.0
  }

  /**
   The line that is to stand for a run: halfway between the outermost lines that fit it, and for a
   single point the flat line at the integer mean of its bounds.
   */
  ghost predicate Middle(m: Line, run: seq<Band>) {
    && (|run| == 1 ==> m == Line(0.0, ((run[0].lo + run[0].hi) / 2) as real))
    && (|run| >= 2 ==> exists lo, hi :: Outermost(lo, hi, run) && Halfway(m, lo, hi))
  }

  lemma TiltAt(m: Line, d: real, x0: int, x: int)
    ensures Line(m.slope - d, m.icpt + d * (x0 as real)).At(x) == m.At(x) - d * ((x - x0) as real)
  {
    assert (x - x0) as real == x as real - x0 as real;
  }

  lemma AtParallel(m: Line, l: Line, x: int)
    requires m.slope == l.slope
    ensures l.At(x) - m.At(x) == l.icpt - m.icpt
  {
  }

  lemma ScaleUp(d: real, x: real, y: real)
    requires d >= 0.0 && 0.0 <= x <= y
    ensures 0.0 <= d * x <= d * y
  {
    assert d * (y - x) >= 0.0;
  }

  lemma NegativeProduct(a: real, b: real)
    requires a < 0.0 && b > 0.0
    ensures a * b < 0.0
  {
  }

  lemma TiltBound(d: real, w: real, x: real, width: real)
    requires width > 0.0 && d * width == w && w >= 0.0 && 0.0 <= x <= width
    ensures 0.0 <= d * x <= w
  {
    if d < 0.0 { NegativeProduct(d, width); }
    ScaleUp(d, x, width);
  }

  /** Between two parallel lines that fit there is a less steep one and a steeper one. */
  lemma RoomToTilt(a: Line, b: Line, run: seq<Band>) returns (less: Line, more: Line)
    requires |run| >= 2 && IncreasingX(run) && Fits(a, run) && Fits(b, run) && a.slope == b.slope && a.icpt < b.icpt
    ensures Fits(less, run) && less.slope < a.slope && Fits(more, run) && more.slope > a.slope
  {
    var x0, gap, width := run[0].x, b.icpt - a.icpt, (run[|run| - 1].x - run[0].x) as real;
    var d := gap / width;
    assert d * width == gap && d > 0.0;
    less, more := Line(b.slope - d, b.icpt + d * (x0 as real)), Line(a.slope + d, a.icpt - d * (x0 as real));
    hide Line.At;
    forall i | 0 <= i < |run| ensures FitsBand(less, run[i]) && FitsBand(more, run[i]) {
      var x := run[i].x;
      assert FitsBand(a, run[i]) && FitsBand(b, run[i]);
      AtParallel(a, b, x);
      TiltAt(b, d, x0, x);
      TiltAt(a, -d, x0, x);
      assert x0 <= x <= run[|run| - 1].x;
      TiltBound(d, gap, (x - x0) as real, width);
      assert (-d) * ((x - x0) as real) == -(d * ((x - x0) as real));
    }
  }

  /** Two lines of the same least, or greatest, slope that fit are the same. */
  lemma SameOutermost(a: Line, b: Line, lo: real, hi: real, run: seq<Band>)
    requires |run| >= 2 && IncreasingX(run) && SpansSlopes(lo, hi, run) && Fits(a, run) && Fits(b, run)
    requires a.slope == b.slope && (a.slope == lo || a.slope == hi)
    ensures a == b
  {
    if a.icpt != b.icpt {
      var less, more;
      if a.icpt < b.icpt {
        less, more := RoomToTilt(a, b, run);
      } else {
        less, more := RoomToTilt(b, a, run);
      }
      assert false;
    }
  }

  /** The outermost lines are unique, and so is the middle. */
  lemma MiddleUnique(m: Line, m': Line, run: seq<Band>)
    requires run != [] && IncreasingX(run) && Middle(m, run) && Middle(m', run)
    ensures m == m'
  {
    hide Fits;
    if |run| >= 2 {
      var lo, hi :| Outermost(lo, hi, run) && Halfway(m, lo, hi);
      var lo', hi' :| Outermost(lo', hi', run) && Halfway(m', lo', hi');
      SameOutermost(lo, lo', lo.slope, hi.slope, run);
      SameOutermost(hi, hi', lo.slope, hi.slope, run);
    }
  }

  lemma OneIsMiddle(s: CanonicalSegment, run: seq<Band>)
    requires |run| == 1 && Describes(s, run)
    ensures OnePoint(s) && Middle(SlopeIntercept(s), run)
  {
  }

  /** The chosen line is the middle of the run, also when its outermost lines are parallel. */
  lemma ChosenIsMiddle(s: CanonicalSegment, run: seq<Band>, epsilon: nat)
    requires Describes(s, run) && Proper(run, epsilon) && IncreasingX(run)
    ensures OnePoint(s) || Proportioned(s)
    ensures Middle(SlopeIntercept(s), run)
  {
    hide Fits, SlopeIntercept, Through;
    if |run| == 1 {
      OneIsMiddle(s, run);
    } else {
      var lo, hi, c := Through(s.rect.p0, s.rect.p2), Through(s.rect.p1, s.rect.p3), SlopeIntercept(s);
      ChosenIsMidpoint(s);
      assert Outermost(lo, hi, run);
      if Turn(s) == 0 { SameOutermost(lo, hi, lo.slope, hi.slope, run); }
      assert Halfway(c, lo, hi);
    }
  }

  ghost predicate Rising(run: seq<Band>) {
    forall i, j :: 0 <= i < j < |run| ==> run[i].lo <= run[j].lo && run[i].hi <= run[j].hi
  }

  /** Two lines whose values sum to no less further right have slopes of non-negative sum. */
  lemma RiseBySum(lo: Line, hi: Line, x: int, z: int)
    requires x < z && lo.At(x) + hi.At(x) <= lo.At(z) + hi.At(z)
    ensures lo.slope + hi.slope >= 0.0
  {
    Drift(Line(0.0, 0.0), lo, x, z);
    Drift(Line(0.0, 0.0), hi, x, z);
    var w := (z - x) as real;
    assert (lo.slope + hi.slope) * w == lo.slope * w + hi.slope * w;
    if lo.slope + hi.slope < 0.0 { NegativeProduct(lo.slope + hi.slope, w); assert false; }
  }

  /** When the bounds never fall, neither does the chosen line. */
  lemma ChosenRises(s: CanonicalSegment, run: seq<Band>, epsilon: nat)
    requires Describes(s, run) && Proper(run, epsilon) && IncreasingX(run) && Rising(run)
    ensures OnePoint(s) <==> |run| == 1
    ensures SlopeIntercept(s).slope >= 0.0
  {
    if |run| >= 2 {
      ChosenIsMidpoint(s);
      var lo, hi := Through(s.rect.p0, s.rect.p2), Through(s.rect.p1, s.rect.p3);
      var i :| 0 <= i < |run| && Los(run)[i] == s.rect.p1;
      var j :| 0 <= j < |run| && Ups(run)[j] == s.rect.p3;
      assert run[i].x < run[j].x;
      assert FitsBand(lo, run[i]) && FitsBand(lo, run[j]);
      ThroughAt(s.rect.p1, s.rect.p3);
      RiseBySum(lo, hi, run[i].x, run[j].x);
    }
  }
}

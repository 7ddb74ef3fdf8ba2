/**
 The plane geometry behind piecewise linear regression: integer points and exact
 slope comparisons as the code has them, and real lines to say what they mean.
 */
module Geometry {

  /** A difference of two points; compared by cross multiplication, never divided. */
  datatype Slope = Slope(dx: int, dy: int) {
    predicate Less(p: Slope) { dy * p.dx < dx * p.dy }

    predicate Greater(p: Slope) { dy * p.dx > dx * p.dy }

    predicate Equal(p: Slope) { dy * p.dx == dx * p.dy }

    /** The conversion to a floating point number, taken as exact. */
    function Value(): real
      requires dx != 0
    {
      dy as real / dx as real
    }
  }

  datatype Point = Point(x: int, y: int) {
    function Minus(p: Point): Slope { Slope(x - p.x, y - p.y) }

    /** Reflection in the x axis: it exchanges upper and lower bounds. */
    function Neg(): Point { Point(x, -y) }
  }

  function Cross(o: Point, a: Point, b: Point): int {
    var oa := a.Minus(o);
    var ob := b.Minus(o);
    oa.dx * ob.dy - oa.dy * ob.dx
  }

  datatype Line = Line(slope: real, icpt: real) {
    function At(x: int): real { slope * (x as real) + icpt }

    function Neg(): Line { Line(-slope, -icpt) }
  }

  /** The line through two points with different x. */
  function Through(a: Point, b: Point): (l: Line)
    requires a.x != b.x
  {
    var s := b.Minus(a).Value();
    Line(s, a.y as real - s * (a.x as real))
  }

  ghost predicate Above(l: Line, p: Point) { l.At(p.x) >= p.y as real }

  ghost predicate Below(l: Line, p: Point) { l.At(p.x) <= p.y as real }

  /** Line l stays on or above every lower bound in ps. */
  ghost predicate AboveAll(l: Line, ps: seq<Point>) {
    forall i :: 0 <= i < |ps| ==> Above(l, ps[i])
  }

  /** Line l stays on or below every upper bound in ps. */
  ghost predicate BelowAll(l: Line, ps: seq<Point>) {
    forall i :: 0 <= i < |ps| ==> Below(l, ps[i])
  }

  // ---------- slopes as numbers ----------

  lemma DivOrder(a: real, b: real, c: real, d: real)
    requires b > 0.0 && d > 0.0
    ensures a / b < c / d <==> a * d < c * b
    ensures a / b == c / d <==> a * d == c * b
  {
    var u, v := a / b, c / d;
    assert a == u * b && c == v * d;
    assert a * d == u * (b * d);
    assert c * b == v * (b * d);
    var m := b * d;
    assert m > 0.0;
    if u < v { assert u * m < v * m; }
    if u > v { assert u * m > v * m; }
  }

  lemma SlopeOrder(p: Slope, q: Slope)
    requires (p.dx > 0 && q.dx > 0) || (p.dx < 0 && q.dx < 0)
    ensures p.Less(q) <==> p.Value() < q.Value()
    ensures p.Greater(q) <==> p.Value() > q.Value()
    ensures p.Equal(q) <==> p.Value() == q.Value()
  {
    var a, b, c, d := p.dy as real, p.dx as real, q.dy as real, q.dx as real;
    assert (p.dy * q.dx) as real == a * d;
    assert (q.dy * p.dx) as real == c * b;
    if p.dx > 0 {
      DivOrder(a, b, c, d);
    } else {
      assert p.Value() == (-a) / (-b);
      assert q.Value() == (-c) / (-d);
      DivOrder(-a, -b, -c, -d);
    }
  }

  // ---------- lines ----------

  /** How two lines drift apart from a to x. */
  lemma Drift(l: Line, m: Line, a: int, x: int)
    ensures m.At(x) - l.At(x) == m.At(a) - l.At(a) + (m.slope - l.slope) * ((x - a) as real)
  {
    var s, t := l.slope, m.slope;
    var ra, rx := a as real, x as real;
    assert (x - a) as real == rx - ra;
    assert (t - s) * (rx - ra) == t * rx - t * ra - s * rx + s * ra;
  }

  lemma OrderRight(l: Line, m: Line, a: int, x: int)
    requires a <= x && l.slope <= m.slope && l.At(a) <= m.At(a)
    ensures l.At(x) <= m.At(x)
  {
    Drift(l, m, a, x);
    var d, w := m.slope - l.slope, (x - a) as real;
    assert d * w >= 0.0;
  }

  lemma OrderLeft(l: Line, m: Line, a: int, x: int)
    requires x <= a && l.slope >= m.slope && l.At(a) <= m.At(a)
    ensures l.At(x) <= m.At(x)
  {
    Drift(l, m, a, x);
    var d, w := l.slope - m.slope, (a - x) as real;
    assert d * w >= 0.0;
    assert (m.slope - l.slope) * ((x - a) as real) == d * w;
  }

  /** A line that does not start higher but ends at least as high is at least as steep. */
  lemma SteeperBetween(l: Line, m: Line, a: int, b: int)
    requires a < b && l.At(a) >= m.At(a) && l.At(b) <= m.At(b)
    ensures l.slope <= m.slope
    ensures l.At(b) < m.At(b) ==> l.slope < m.slope
  {
    Drift(l, m, a, b);
    var d, w := m.slope - l.slope, (b - a) as real;
    assert w > 0.0 && d * w >= 0.0;
  }

  lemma ThroughAt(a: Point, b: Point)
    requires a.x < b.x
    ensures Through(a, b).At(a.x) == a.y as real
    ensures Through(a, b).At(b.x) == b.y as real
  {
    var l := Through(a, b);
    var dx, dy := (b.x - a.x) as real, (b.y - a.y) as real;
    var ax, bx := a.x as real, b.x as real;
    assert dx == bx - ax && dx > 0.0;
    assert l.slope == dy / dx;
    assert l.slope * dx == dy;
    assert l.slope * (bx - ax) == l.slope * bx - l.slope * ax;
  }

  /** The sign of the integer cross product tells on which side of the line a point lies. */
  lemma CrossSide(a: Point, b: Point, p: Point)
    requires a.x < b.x
    ensures Cross(a, b, p) < 0 <==> p.y as real < Through(a, b).At(p.x)
    ensures Cross(a, b, p) > 0 <==> p.y as real > Through(a, b).At(p.x)
  {
    var l := Through(a, b);
    ThroughAt(a, b);
    var dx, dy := (b.x - a.x) as real, (b.y - a.y) as real;
    var ex, ey := (p.x - a.x) as real, (p.y - a.y) as real;
    assert l.slope * dx == dy;
    assert l.At(p.x) == a.y as real + l.slope * ex by {
      Drift(Line(0.0, a.y as real), l, a.x, p.x);
    }
    var gap := p.y as real - l.At(p.x);
    assert gap == ey - l.slope * ex;
    assert dx * gap == dx * ey - dy * ex by {
      assert dx * (l.slope * ex) == (l.slope * dx) * ex;
    }
    assert Cross(a, b, p) as real == dx * ey - dy * ex;
    if gap > 0.0 { assert dx * gap > 0.0; }
    if gap < 0.0 { assert dx * gap < 0.0; }
  }

  /** Lines with the same slope value through the same point are the same line. */
  lemma SlopeFrom(q: Point, p: Point, l: Line)
    requires q.x < p.x && l.At(p.x) == p.y as real
    ensures l.slope <= Through(q, p).slope <==> Above(l, q)
    ensures l.slope >= Through(q, p).slope <==> Below(l, q)
  {
    var t := Through(q, p);
    ThroughAt(q, p);
    Drift(t, l, q.x, p.x);
    var d, w := l.slope - t.slope, (p.x - q.x) as real;
    assert w > 0.0;
    if d > 0.0 { assert d * w > 0.0; }
    if d < 0.0 { assert d * w < 0.0; }
  }

  // ---------- mixing two lines ----------

  function MixValue(a: real, b: real, t: real): real { a + t * (b - a) }

  /** The point t of the way from line l to line m in the plane of slopes and intercepts. */
  function MixLine(l: Line, m: Line, t: real): Line {
    Line(MixValue(l.slope, m.slope, t), MixValue(l.icpt, m.icpt, t))
  }

  lemma NonNegativeProduct(a: real, b: real)
    requires a >= 0.0 && b >= 0.0
    ensures a * b >= 0.0
  {
  }

  lemma UnitScale(t: real, d: real)
    requires 0.0 <= t <= 1.0
    ensures d >= 0.0 ==> 0.0 <= t * d <= d
    ensures d <= 0.0 ==> d <= t * d <= 0.0
  {
    var s, e := 1.0 - t, -d;
    assert s * d == d - t * d;
    assert s * e == t * d - d && t * e == -(t * d);
    if d >= 0.0 {
      NonNegativeProduct(t, d);
      NonNegativeProduct(s, d);
    } else {
      NonNegativeProduct(t, e);
      NonNegativeProduct(s, e);
    }
  }

  lemma Between(a: real, b: real, t: real)
    requires 0.0 <= t <= 1.0
    ensures a <= b ==> a <= MixValue(a, b, t) <= b
    ensures a >= b ==> a >= MixValue(a, b, t) >= b
  {
    var d := b - a;
    UnitScale(t, d);
    assert MixValue(a, b, t) == a + t * d;
  }

  lemma MidpointIsMix(l: Line, m: Line, c: Line)
    requires c.slope == (l.slope + m.slope) / 2.0 && c.icpt == (l.icpt + m.icpt) / 2.0
    ensures c == MixLine(l, m, 0.5)
  {
  }

  lemma MixAt(l: Line, m: Line, t: real, x: int)
    ensures MixLine(l, m, t).At(x) == MixValue(l.At(x), m.At(x), t)
  {
    var s, u, a, b, r := l.slope, m.slope, l.icpt, m.icpt, x as real;
    assert t * (u * r + b - (s * r + a)) == t * (u * r) - t * (s * r) + t * (b - a);
    assert (s + t * (u - s)) * r == s * r + t * (u * r) - t * (s * r);
  }

  /** A mix of two lines keeps every bound both of them keep. */
  lemma MixKeeps(l: Line, m: Line, t: real, x: int, lo: real, hi: real)
    requires 0.0 <= t <= 1.0
    ensures lo <= l.At(x) && lo <= m.At(x) ==> lo <= MixLine(l, m, t).At(x)
    ensures l.At(x) <= hi && m.At(x) <= hi ==> MixLine(l, m, t).At(x) <= hi
  {
    hide Line.At, MixValue, MixLine;
    MixAt(l, m, t, x);
    Between(l.At(x), m.At(x), t);
  }

  /** If l passes on or below p and m above it, some mix of the two passes through p. */
  lemma Mix(l: Line, m: Line, p: Point) returns (t: real)
    requires l.At(p.x) <= p.y as real < m.At(p.x)
    ensures 0.0 <= t <= 1.0 && MixLine(l, m, t).At(p.x) == p.y as real
  {
    hide Line.At, MixLine;
    var lo, hi, y := l.At(p.x), m.At(p.x), p.y as real;
    t := (y - lo) / (hi - lo);
    DivOrder(y - lo, hi - lo, 1.0, 1.0);
    DivOrder(0.0, 1.0, y - lo, hi - lo);
    assert t * (hi - lo) == y - lo;
    MixAt(l, m, t, p.x);
  }

  // ---------- reflection ----------

  function NegAll(ps: seq<Point>): (r: seq<Point>)
    ensures |r| == |ps|
    ensures forall i :: 0 <= i < |ps| ==> r[i] == ps[i].Neg()
  {
    seq(|ps|, i requires 0 <= i < |ps| => ps[i].Neg())
  }

  lemma NegAllTwice(ps: seq<Point>)
    ensures NegAll(NegAll(ps)) == ps
  {
  }

  lemma NegThrough(a: Point, b: Point)
    requires a.x < b.x
    ensures Through(a.Neg(), b.Neg()) == Through(a, b).Neg()
  {
    var dx, dy := (b.x - a.x) as real, (b.y - a.y) as real;
    assert (-dy) / dx == -(dy / dx);
    var s, ax := dy / dx, a.x as real;
    assert (-s) * ax == -(s * ax);
  }

  lemma NegAt(l: Line, x: int)
    ensures l.Neg().At(x) == -l.At(x)
  {
    var s, r := l.slope, x as real;
    assert (-s) * r == -(s * r);
  }

  lemma NegSides(l: Line, ps: seq<Point>)
    ensures AboveAll(l, ps) <==> BelowAll(l.Neg(), NegAll(ps))
    ensures BelowAll(l, ps) <==> AboveAll(l.Neg(), NegAll(ps))
  {
    forall i | 0 <= i < |ps|
      ensures Above(l, ps[i]) <==> Below(l.Neg(), NegAll(ps)[i])
      ensures Below(l, ps[i]) <==> Above(l.Neg(), NegAll(ps)[i])
    {
      NegAt(l, ps[i].x);
    }
  }
}

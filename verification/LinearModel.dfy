/** The linear model of a segment and the window of leaves it predicts for a key. */
module LinearModel {
  import opened Geometry
  import opened Plr

  /** Slots per leaf and error bound, as the code instantiates its templates. */
  const SLOTS: nat := 64
  const EPSILON: nat := 32

  const MAX_U64: int := 0xFFFF_FFFF_FFFF_FFFF

  type Key = k: int | 0 <= k <= MAX_U64 witness 0

  /** Conversion of a real number to an integer type: towards zero. */
  function Truncate(x: real): int {
    if x >= 0.0 then x.Floor else -((-x).Floor)
  }

  function Product(m: Line, k: Key): real { m.slope * (k as real) }

  /** The predicted position: only the product is truncated, the intercept is not. */
  function Position(m: Line, k: Key): real {
    Truncate(Product(m, k)) as real + m.icpt
  }

  function LoBound(pos: real): real {
    if pos <= EPSILON as real then 0.0 else pos - EPSILON as real
  }

  function HiBound(pos: real, size: nat): real {
    if pos + EPSILON as real + 2.0 >= size as real then (size - 1) as real else pos + EPSILON as real + 2.0
  }

  /** Truncation to an index; a negative value, undefined in the source, ends up in leaf 0. */
  function ToIndex(x: real): nat {
    if x < 0.0 then 0 else x.Floor
  }

  /** Bounds of the rank of key k in a segment of the given size. */
  function Predict(m: Line, k: Key, size: nat): (r: (nat, nat))
    requires size > 0
  {
    var pos := Position(m, k);
    var lo, hi := LoBound(pos), HiBound(pos, size);
    (ToIndex(if lo > hi then hi else lo), ToIndex(hi))
  }

  /** The upper bound is below every index: converting it to an unsigned index is undefined. */
  predicate Underflows(m: Line, k: Key, size: nat) { HiBound(Position(m, k), size) <= -1.0 }

  /** The window of leaves: both bounds divided by the leaf width. */
  function Window(m: Line, k: Key, size: nat): (r: (nat, nat))
    requires size > 0
  {
    var p := Predict(m, k, size);
    (p.0 / SLOTS, p.1 / SLOTS)
  }

  /** Leaves needed for a segment of the given size. */
  function LeafCount(size: nat): nat { (size + SLOTS - 1) / SLOTS }

  /** Whatever the key, the window is a window of existing leaves. */
  lemma WindowInTable(m: Line, k: Key, size: nat)
    requires size > 0
    ensures Predict(m, k, size).0 <= Predict(m, k, size).1 < size
    ensures Window(m, k, size).0 <= Window(m, k, size).1 < LeafCount(size)
  {
  }

  lemma ScaleMonotone(s: real, x: real, y: real)
    requires s >= 0.0 && 0.0 <= x <= y
    ensures 0.0 <= s * x <= s * y
  {
    assert s * (y - x) >= 0.0;
  }

  lemma FloorMonotone(a: real, b: real)
    requires a <= b
    ensures a.Floor <= b.Floor
  {
  }

  lemma PositionMonotone(m: Line, k: Key, k': Key)
    requires m.slope >= 0.0 && k <= k'
    ensures Position(m, k) <= Position(m, k')
  {
    ScaleMonotone(m.slope, k as real, k' as real);
    FloorMonotone(Product(m, k), Product(m, k'));
    assert Truncate(Product(m, k)) <= Truncate(Product(m, k'));
  }

  /** The position is the line's value, less by the truncated fraction of the product. */
  lemma PositionNear(m: Line, k: Key)
    requires m.slope >= 0.0
    ensures m.At(k) - 1.0 < Position(m, k) <= m.At(k)
    ensures var product := Position(m, k) - m.icpt; product == product.Floor as real
  {
    ScaleMonotone(m.slope, 0.0, k as real);
    assert Position(m, k) - m.icpt == Product(m, k).Floor as real;
  }

  /**
   Which ranks are predicted: those within the error bound of the position, one more below for the
   truncation of the bound and two more above; the nearest end where the segment has none of them.
   */
  lemma PredictExact(m: Line, k: Key, size: nat, r: nat)
    requires r < size
    ensures var pos, p := Position(m, k), Predict(m, k, size);
            p.0 <= r <= p.1 <==>
              if pos < -(EPSILON as real) - 2.0 then r == 0
              else if pos > (size - 1 + EPSILON) as real then r == size - 1
              else pos - EPSILON as real - 1.0 < r as real <= pos + EPSILON as real + 2.0
  {
  }

  /** The bounded error of the model: never more than twice the bound and two ranks apart. */
  lemma PredictWidth(m: Line, k: Key, size: nat)
    requires size > 0
    ensures Predict(m, k, size).1 - Predict(m, k, size).0 <= 2 * EPSILON + 2
    ensures Window(m, k, size).1 - Window(m, k, size).0 <= 2
  {
  }

  /** Both bounds stay near the value of the line wherever that is inside the segment. */
  lemma PredictNear(m: Line, k: Key, size: nat)
    requires size > 0 && m.slope >= 0.0 && (EPSILON + 1) as real <= m.At(k) <= size as real
    ensures m.At(k) - EPSILON as real - 2.0 < Predict(m, k, size).0 as real
    ensures Predict(m, k, size).1 as real <= m.At(k) + EPSILON as real + 2.0
  {
    PositionNear(m, k);
  }

  /** The leaves of the window are those that hold a predicted rank. */
  lemma WindowExact(m: Line, k: Key, size: nat, i: nat)
    requires size > 0
    ensures Window(m, k, size).0 <= i <= Window(m, k, size).1 <==>
              exists r: nat :: Predict(m, k, size).0 <= r <= Predict(m, k, size).1 && r / SLOTS == i
  {
    var p, w := Predict(m, k, size), Window(m, k, size);
    if w.0 <= i <= w.1 {
      var r: nat := if i == w.0 then p.0 else i * SLOTS;
      assert r / SLOTS == i;
    }
    if r: nat :| p.0 <= r <= p.1 && r / SLOTS == i {
      WindowInTable(m, k, size);
    }
  }

  /** The window lies before the table exactly if the upper bound, converted towards zero, is negative. */
  lemma UnderflowExact(m: Line, k: Key, size: nat)
    requires size > 0
    ensures Underflows(m, k, size) <==> Truncate(HiBound(Position(m, k), size)) < 0
    ensures Underflows(m, k, size) <==> Position(m, k) <= -(EPSILON as real) - 3.0
  {
  }

  /** With a slope that is not negative, the window moves right as the key grows. */
  lemma WindowMonotone(m: Line, k: Key, k': Key, size: nat)
    requires size > 0 && m.slope >= 0.0 && k <= k'
    ensures Window(m, k, size).0 <= Window(m, k', size).0
    ensures Window(m, k, size).1 <= Window(m, k', size).1
  {
    PositionMonotone(m, k, k');
    var p, q := Position(m, k), Position(m, k');
    // the upper bound is monotone only once truncated: it may exceed size - 1 by a fraction
    assert ToIndex(HiBound(p, size)) <= ToIndex(HiBound(q, size));
    assert LoBound(p) <= LoBound(q);
  }

  /**
   A key that was trained at rank r is predicted into a window that contains r, although the
   product is truncated: fitting uses one less than the error bound, predicting adds two.
   */
  lemma WindowHoldsRank(m: Line, k: Key, r: nat, size: nat)
    requires r < size <= MAX_Y && m.slope >= 0.0
    requires FitsBand(m, BandOf(EPSILON - 1, k, r))
    ensures Predict(m, k, size).0 <= r <= Predict(m, k, size).1 < size
    ensures Window(m, k, size).0 <= r / SLOTS <= Window(m, k, size).1 < LeafCount(size)
    ensures !Underflows(m, k, size)
  {
    BandSound(EPSILON - 1, k, r);
    var product := m.slope * (k as real);
    assert product >= 0.0;
    assert product.Floor as real <= product < product.Floor as real + 1.0;
    var pos := Position(m, k);
    assert m.At(k) - 1.0 < pos <= m.At(k);
    WindowInTable(m, k, size);
  }
}

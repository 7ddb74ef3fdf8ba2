/** How training cuts the keys into runs, one line and one submodel each. */
module TrainingRuns {
  import opened Geometry
  import opened LinearModel
  import opened Plr
  import opened Segment
  import opened Entries
  import opened Groups
  import opened Routing
  import opened Links
  import opened SubModel
  import opened Partition

  /** The points a run of keys is fitted through: ranks within the run, one less than the error bound. */
  ghost function RankBands(ks: seq<Key>): (r: seq<Band>)
    requires |ks| <= MAX_Y
    ensures |r| == |ks| && forall j :: 0 <= j < |ks| ==> r[j] == BandOf(EPSILON - 1, ks[j], j)
  {
    seq(|ks|, j requires 0 <= j < |ks| => BandOf(EPSILON - 1, ks[j], j))
  }

  lemma RankBandsOk(ks: seq<Key>)
    requires |ks| <= MAX_Y && Increasing(ks)
    ensures IncreasingX(RankBands(ks)) && Proper(RankBands(ks), EPSILON - 1) && Rising(RankBands(ks))
  {
    forall i | 0 <= i < |ks|
      ensures RankBands(ks)[i].lo < RankBands(ks)[i].hi
    {
      BandSound(EPSILON - 1, ks[i], i);
    }
  }

  /** A line fits a run exactly if at every key it is within the bound of the key's rank, and not negative. */
  lemma FitsRanks(m: Line, ks: seq<Key>)
    requires |ks| <= MAX_Y - EPSILON
    ensures Fits(m, RankBands(ks)) <==>
              forall j :: 0 <= j < |ks| ==>
                0.0 <= m.At(ks[j]) && (j - EPSILON + 1) as real <= m.At(ks[j]) <= (j + EPSILON - 1) as real
  {
    forall j | 0 <= j < |ks|
      ensures FitsBand(m, RankBands(ks)[j]) <==>
                0.0 <= m.At(ks[j]) && (j - EPSILON + 1) as real <= m.At(ks[j]) <= (j + EPSILON - 1) as real
    {
      BandExact(EPSILON - 1, ks[j], j, m.At(ks[j]));
    }
  }

  lemma FitsAt(m: Line, run: seq<Band>, r: nat)
    requires Fits(m, run) && r < |run|
    ensures FitsBand(m, run[r])
  {
  }

  /** A rising line that fits a run predicts every key of the run into its leaf. */
  lemma FitPredicts(m: Line, ks: seq<Key>)
    requires 0 < |ks| <= MAX_Y && m.slope >= 0.0 && Fits(m, RankBands(ks))
    ensures Predicts(m, ks)
  {
    hide Fits, Window, Predict, Underflows;
    forall r | 0 <= r < |ks| ensures WindowHolds(m, |ks|, ks[r], r / SLOTS) && !Underflows(m, ks[r], |ks|) {
      FitsAt(m, RankBands(ks), r);
      WindowHoldsRank(m, ks[r], r, |ks|);
    }
  }

  /** Only keys below the first of a run can be predicted before the table. */
  lemma PredictedFromFirst(m: Line, ks: seq<Key>, k: Key)
    requires ks != [] && Predicts(m, ks) && k >= ks[0]
    ensures !Underflows(m, k, |ks|)
  {
    assert !Underflows(m, ks[0], |ks|);
    PositionMonotone(m, ks[0], k);
  }

  lemma AtShifted(m: Line, x: int, d: int)
    ensures m.At(x + d) == m.At(x) + m.slope * (d as real)
  {
    assert (x + d) as real == x as real + d as real;
    assert m.slope * (x as real + d as real) == m.slope * (x as real) + m.slope * (d as real);
  }

  lemma LessScaled(a: real, b: real, x: real)
    requires x > 0.0
    ensures a < b ==> a * x < b * x
  {
    if a < b { assert (b - a) * x > 0.0; }
  }

  lemma NotMoreScaled(a: real, b: real, x: real)
    requires x >= 0.0
    ensures a <= b ==> a * x <= b * x
  {
    if a <= b { assert (b - a) * x >= 0.0; }
  }

  lemma SwapFactors(a: real, x: real, y: real)
    ensures (a * y) * x == (a * x) * y
  {
  }

  lemma ProductAsReal(a: int, b: int)
    ensures (a * b) as real == (a as real) * (b as real)
  {
  }

  lemma PositiveFactor(a: int, b: nat)
    requires a * b > 0
    ensures a > 0
  {
  }

  /** A line that rises over a run drops by as much more as one goes further down. */
  lemma FarDrop(slope: real, rise: int, run: nat, down: nat, least: nat)
    requires run > 0 && down > 0 && slope * (run as real) >= rise as real
    requires rise * down >= least * run > 0
    ensures slope >= 0.0 && slope * (down as real) >= least as real
  {
    var x, y, s := run as real, down as real, slope * (run as real);
    PositiveFactor(rise, down);
    LessScaled(slope, 0.0, x);
    NotMoreScaled(rise as real, s, y);
    ProductAsReal(rise, down);
    ProductAsReal(least, run);
    SwapFactors(slope, x, y);
    LessScaled(slope * y, least as real, x);
  }

  lemma LowUnderflows(m: Line, k: Key, size: nat)
    requires m.slope >= 0.0 && m.At(k) <= -(EPSILON as real) - 3.0
    ensures Underflows(m, k, size)
  {
    ScaleMonotone(m.slope, 0.0, k as real);
    assert Position(m, k) <= m.At(k);
  }

  /** A key far enough below a run that rises by more than two error bounds is predicted before the table. */
  lemma FarBelow(m: Line, ks: seq<Key>, r: nat, k: Key)
    requires |ks| <= MAX_Y && Fits(m, RankBands(ks)) && r < |ks| && k < ks[0] < ks[r]
    requires (r - (2 * EPSILON - 2)) * (ks[0] - k) >= (2 * EPSILON + 2) * (ks[r] - ks[0])
    ensures Underflows(m, k, |ks|)
  {
    hide Fits, Underflows, Line.At;
    FitsAt(m, RankBands(ks), 0);
    FitsAt(m, RankBands(ks), r);
    BandSound(EPSILON - 1, ks[r], r);
    BandSound(EPSILON - 1, ks[0], 0);
    AtShifted(m, ks[0], ks[r] - ks[0]);
    AtShifted(m, k, ks[0] - k);
    FarDrop(m.slope, r - (2 * EPSILON - 2), ks[r] - ks[0], ks[0] - k, 2 * EPSILON + 2);
    LowUnderflows(m, k, |ks|);
  }

  /** The line handed over for a finished run is the middle of the run and predicts every key of it into its leaf. */
  lemma SegmentPredicts(s: CanonicalSegment, ks: seq<Key>)
    requires 0 < |ks| <= MAX_Y && Increasing(ks) && Describes(s, RankBands(ks))
    ensures OnePoint(s) || Proportioned(s)
    ensures Predicts(SlopeIntercept(s), ks) && Fits(SlopeIntercept(s), RankBands(ks))
    ensures Middle(SlopeIntercept(s), RankBands(ks))
  {
    var run := RankBands(ks);
    RankBandsOk(ks);
    ChosenFits(s, run, EPSILON - 1);
    ChosenRises(s, run, EPSILON - 1);
    ChosenIsMiddle(s, run, EPSILON - 1);
    hide Middle, Fits, SpansSlopes, SlopeIntercept, Describes, IncreasingX, Proper, Rising, Predicts;
    FitPredicts(SlopeIntercept(s), ks);
  }

  ghost predicate UpperBounds(es: seq<seq<Entry>>, mk: seq<Key>)
    requires |es| == |mk|
  {
    forall i, k :: 0 <= i < |es| && 0 <= k < |es[i]| ==> es[i][k].key <= mk[i]
  }

  lemma RunAppended(es: seq<seq<Entry>>, mk: seq<Key>, ks: seq<Key>, vs: seq<Val>)
    requires PartitionOk(es, mk) && UpperBounds(es, mk) && |ks| == |vs| > 0 && Increasing(ks)
    requires mk != [] ==> mk[|mk| - 1] < ks[0]
    ensures var s, top := Pairs(ks, vs), ks[|ks| - 1];
            && PartitionOk(es + [s], mk + [top]) && UpperBounds(es + [s], mk + [top])
            && Join(es + [s]) == Join(es) + s
    ensures LeafCount(|ks|) <= |ks|
  {
    PartAppended(es, mk, Pairs(ks, vs), ks[|ks| - 1]);
  }

  lemma RunNotEmpty(ks: seq<Key>)
    requires 0 < |ks| <= MAX_Y
    ensures RankBands(ks) != []
  {
  }

  /** A run of an increasing key sequence, and how it follows the keys before it. */
  lemma RunFacts(keys: seq<Key>, vals: seq<Val>, start: nat, i: nat)
    requires |keys| == |vals| && start < i <= |keys| && Increasing(keys[..i])
    ensures Increasing(keys[start..i]) && (start > 0 ==> keys[start - 1] < keys[start])
    ensures Pairs(keys[..start], vals[..start]) + Pairs(keys[start..i], vals[start..i]) == Pairs(keys[..i], vals[..i])
  {
    var pre := keys[..i];
    assert start > 0 ==> pre[start - 1] < pre[start];
    forall a, b | 0 <= a < b < i - start ensures keys[start..i][a] < keys[start..i][b] {
      assert pre[start + a] < pre[start + b];
    }
    forall a | 0 <= a < i - start ensures keys[start..i][a] < INVALID_KEY {
      assert pre[start + a] < INVALID_KEY;
    }
  }

  lemma NextBands(keys: seq<Key>, start: nat, i: nat)
    requires start < i < |keys| <= MAX_Y
    ensures RankBands(keys[start..i + 1]) == RankBands(keys[start..i]) + [BandOf(EPSILON - 1, keys[i], i - start)]
    ensures keys[i..i + 1] == [keys[i]] && |RankBands(keys[start..i])| == i - start > 0
  {
  }

  lemma NextIncreasing(keys: seq<Key>, i: nat)
    requires 0 < i < |keys| && Increasing(keys[..i]) && keys[i] < INVALID_KEY
    ensures keys[i] > keys[i - 1] ==> Increasing(keys[..i + 1])
  {
    var pre, next := keys[..i], keys[..i + 1];
    if keys[i] > keys[i - 1] {
      forall a, b | 0 <= a < b < i + 1 ensures next[a] < next[b] {
        if b < i {
          assert pre[a] < pre[b];
        } else if a < i - 1 {
          assert pre[a] < pre[i - 1];
        }
      }
      forall a | 0 <= a < i + 1 ensures next[a] < INVALID_KEY {
        if a < i { assert pre[a] < INVALID_KEY; }
      }
    }
  }

  lemma NotIncreasingAt(keys: seq<Key>, i: nat)
    requires 0 < i < |keys| && keys[i] <= keys[i - 1]
    ensures !Increasing(keys)
  {
  }

  lemma StartFacts(keys: seq<Key>, vals: seq<Val>)
    requires |keys| == |vals|
    ensures keys == [] ==> Increasing(keys) && Pairs(keys, vals) == []
  {
  }

  /** What prediction needs of a submodel. */
  datatype ModelShape = ModelShape(line: Line, capacity: nat)

  /** The submodel responsible for any of the keys predicts it without underflow. */
  ghost predicate Reaches(ms: seq<ModelShape>, mk: seq<Key>, keys: seq<Key>)
    requires |ms| == |mk|
  {
    forall i, r :: 0 <= i < |ms| && 0 <= r < |keys| && Responsible(mk, i, keys[r]) ==>
      !Underflows(ms[i].line, keys[r], ms[i].capacity)
  }

  lemma PredictsAt(m: Line, ks: seq<Key>, r: nat)
    requires Predicts(m, ks) && r < |ks|
    ensures !Underflows(m, ks[r], |ks|)
  {
  }

  /** A further submodel, trained on the keys from start to i, takes over exactly those. */
  lemma ReachesMore(ms: seq<ModelShape>, mk: seq<Key>, keys: seq<Key>, start: nat, i: nat, m: ModelShape)
    requires |ms| == |mk| && start < i <= |keys| && Increasing(keys[..i]) && StrictlyAscending(mk)
    requires if mk == [] then start == 0 else start > 0 && mk[|mk| - 1] == keys[start - 1]
    requires Reaches(ms, mk, keys[..start])
    requires Predicts(m.line, keys[start..i]) && m.capacity == i - start
    ensures Reaches(ms + [m], mk + [keys[i - 1]], keys[..i])
  {
    hide Predicts, Underflows;
    var n, ms', mk', pre := |mk|, ms + [m], mk + [keys[i - 1]], keys[..i];
    assert forall a, b :: 0 <= a < b < i ==> pre[a] < pre[b];
    forall j, r | 0 <= j < |ms'| && 0 <= r < |pre| && Responsible(mk', j, pre[r])
      ensures !Underflows(ms'[j].line, pre[r], ms'[j].capacity)
    {
      if j == n {
        assert n > 0 ==> mk'[n - 1] < pre[r];
        assert r >= start;
        PredictsAt(m.line, keys[start..i], r - start);
      } else {
        assert pre[r] <= mk'[j] <= mk[n - 1];
        assert r < start && pre[r] == keys[..start][r];
        assert forall a :: 0 <= a < j ==> mk[a] == mk'[a];
        assert Responsible(mk, j, keys[..start][r]);
      }
    }
  }

  /** The rank of the first key of submodel i: the submodels before it hold all smaller keys. */
  ghost function StartOf(ms: seq<ModelShape>, i: nat): nat
    requires i <= |ms|
  {
    if i == 0 then 0 else StartOf(ms, i - 1) + ms[i - 1].capacity
  }

  /**
   Submodel i covers consecutive keys up to its upper key, its line fits them and is the middle of
   their run, and it ends only with the last key of all or where no line fits one key more.
   */
  ghost predicate CutAt(ms: seq<ModelShape>, mk: seq<Key>, keys: seq<Key>, i: nat)
    requires i < |ms| == |mk| && |keys| <= MAX_Y
  {
    var a, b := StartOf(ms, i), StartOf(ms, i + 1);
    && a < b <= |keys| && mk[i] == keys[b - 1]
    && Fits(ms[i].line, RankBands(keys[a..b])) && Middle(ms[i].line, RankBands(keys[a..b]))
    && (b < |keys| ==> !Fittable(RankBands(keys[a..b + 1])))
  }

  ghost predicate Greedy(ms: seq<ModelShape>, mk: seq<Key>, keys: seq<Key>)
    requires |ms| == |mk| && |keys| <= MAX_Y
  {
    forall i :: 0 <= i < |ms| ==> CutAt(ms, mk, keys, i)
  }

  lemma {:induction false} StartKept(ms: seq<ModelShape>, m: ModelShape, i: nat)
    requires i <= |ms|
    ensures StartOf(ms + [m], i) == StartOf(ms, i)
  {
    if i > 0 { StartKept(ms, m, i - 1); }
  }

  /** A run that was closed for good reason continues the greedy cuts. */
  lemma GreedyMore(ms: seq<ModelShape>, mk: seq<Key>, keys: seq<Key>, start: nat, i: nat, m: ModelShape)
    requires |ms| == |mk| && start < i <= |keys| <= MAX_Y
    requires StartOf(ms, |ms|) == start && Greedy(ms, mk, keys)
    requires m.capacity == i - start && Fits(m.line, RankBands(keys[start..i]))
    requires Middle(m.line, RankBands(keys[start..i]))
    requires i < |keys| ==> !Fittable(RankBands(keys[start..i + 1]))
    ensures StartOf(ms + [m], |ms| + 1) == i && Greedy(ms + [m], mk + [keys[i - 1]], keys)
  {
    hide Fits, Fittable, RankBands, Middle;
    var ms', mk', n := ms + [m], mk + [keys[i - 1]], |ms|;
    StartKept(ms, m, n);
    forall k | 0 <= k < |ms'| ensures CutAt(ms', mk', keys, k) {
      if k < n {
        assert CutAt(ms, mk, keys, k);
        StartKept(ms, m, k);
        StartKept(ms, m, k + 1);
      }
    }
  }

  /** The submodels cover the first start keys, in greedy runs, and reach all of them. */
  ghost predicate CutSoFar(ms: seq<ModelShape>, mk: seq<Key>, keys: seq<Key>, start: nat)
    requires |keys| <= MAX_Y
  {
    && |ms| == |mk| && start <= |keys|
    && (if mk == [] then start == 0 else start > 0 && mk[|mk| - 1] == keys[start - 1])
    && Reaches(ms, mk, keys[..start])
    && StartOf(ms, |ms|) == start && Greedy(ms, mk, keys)
  }

  /** The line predicts and fits its run and is its middle, and no line fits the run and one key more. */
  ghost predicate RunCut(line: Line, keys: seq<Key>, start: nat, i: nat)
    requires start < i <= |keys| <= MAX_Y
  {
    && Predicts(line, keys[start..i]) && Fits(line, RankBands(keys[start..i]))
    && Middle(line, RankBands(keys[start..i]))
    && (i < |keys| ==> !Fittable(RankBands(keys[start..i + 1])))
  }

  lemma CutMore(ms: seq<ModelShape>, mk: seq<Key>, keys: seq<Key>, start: nat, i: nat, line: Line)
    requires start < i <= |keys| <= MAX_Y && Increasing(keys[..i]) && StrictlyAscending(mk)
    requires CutSoFar(ms, mk, keys, start) && RunCut(line, keys, start, i)
    ensures CutSoFar(ms + [ModelShape(line, i - start)], mk + [keys[i - 1]], keys, i)
  {
    hide Reaches, Greedy, StartOf, Predicts, Fits, Fittable, Middle, RankBands, Increasing, StrictlyAscending;
    var m := ModelShape(line, i - start);
    ReachesMore(ms, mk, keys, start, i, m);
    GreedyMore(ms, mk, keys, start, i, m);
  }

  lemma StartInside(ms: seq<ModelShape>, mk: seq<Key>, keys: seq<Key>, i: nat)
    requires |ms| == |mk| && |keys| <= MAX_Y && Greedy(ms, mk, keys)
    ensures i < |ms| ==> StartOf(ms, i) < |keys|
  {
    hide Fits, Fittable, RankBands, Middle;
    if i < |ms| { assert CutAt(ms, mk, keys, i); }
  }

  /** A run that fits does not end before one that does not fit any longer. */
  lemma SameEnd(keys: seq<Key>, a: nat, b: nat, b': nat)
    requires a < b <= b' <= |keys| <= MAX_Y && Fittable(RankBands(keys[a..b']))
    requires b < |keys| ==> !Fittable(RankBands(keys[a..b + 1]))
    ensures b == b'
  {
    if b < b' {
      var l :| Fits(l, RankBands(keys[a..b']));
      var bands := RankBands(keys[a..b + 1]);
      forall j | 0 <= j < |bands| ensures FitsBand(l, bands[j]) {
        FitsAt(l, RankBands(keys[a..b']), j);
      }
      assert Fits(l, bands);
      assert false;
    }
  }

  lemma PartIncreases(keys: seq<Key>, a: nat, b: nat)
    requires a < b <= |keys| && Increasing(keys)
    ensures Increasing(keys[a..b])
  {
  }

  /** Two ways to cut the keys agree on the next submodel if they agree on where it starts. */
  lemma SameModel(ms: seq<ModelShape>, mk: seq<Key>, ms': seq<ModelShape>, mk': seq<Key>, keys: seq<Key>, i: nat)
    requires |ms| == |mk| && |ms'| == |mk'| && |keys| <= MAX_Y && Increasing(keys) && i < |ms| && i < |ms'|
    requires CutAt(ms, mk, keys, i) && CutAt(ms', mk', keys, i) && StartOf(ms, i) == StartOf(ms', i)
    ensures ms[i] == ms'[i] && mk[i] == mk'[i] && StartOf(ms, i + 1) == StartOf(ms', i + 1)
  {
    hide Fits, Middle, RankBands, Increasing;
    var a, b, b' := StartOf(ms, i), StartOf(ms, i + 1), StartOf(ms', i + 1);
    if b <= b' { SameEnd(keys, a, b, b'); } else { SameEnd(keys, a, b', b); }
    PartIncreases(keys, a, b);
    RankBandsOk(keys[a..b]);
    RunNotEmpty(keys[a..b]);
    MiddleUnique(ms[i].line, ms'[i].line, RankBands(keys[a..b]));
  }

  lemma {:induction false} SameUpTo(ms: seq<ModelShape>, mk: seq<Key>, ms': seq<ModelShape>, mk': seq<Key>,
                                    keys: seq<Key>, n: nat)
    requires |ms| == |mk| && |ms'| == |mk'| && |keys| <= MAX_Y && Increasing(keys) && n <= |ms| && n <= |ms'|
    requires Greedy(ms, mk, keys) && Greedy(ms', mk', keys)
    ensures StartOf(ms, n) == StartOf(ms', n) && ms[..n] == ms'[..n] && mk[..n] == mk'[..n]
  {
    hide CutAt, Increasing;
    if n > 0 {
      SameUpTo(ms, mk, ms', mk', keys, n - 1);
      assert CutAt(ms, mk, keys, n - 1) && CutAt(ms', mk', keys, n - 1);
      SameModel(ms, mk, ms', mk', keys, n - 1);
      assert ms[..n] == ms[..n - 1] + [ms[n - 1]] && ms'[..n] == ms'[..n - 1] + [ms'[n - 1]];
      assert mk[..n] == mk[..n - 1] + [mk[n - 1]] && mk'[..n] == mk'[..n - 1] + [mk'[n - 1]];
    }
  }

  /** The keys alone determine all submodels: their upper keys, their sizes and their lines. */
  lemma TrainingDetermined(ms: seq<ModelShape>, mk: seq<Key>, ms': seq<ModelShape>, mk': seq<Key>, keys: seq<Key>)
    requires |ms| == |mk| && |ms'| == |mk'| && |keys| <= MAX_Y && Increasing(keys)
    requires Greedy(ms, mk, keys) && StartOf(ms, |ms|) == |keys|
    requires Greedy(ms', mk', keys) && StartOf(ms', |ms'|) == |keys|
    ensures ms == ms' && mk == mk'
  {
    hide CutAt, Increasing, Greedy, StartOf;
    var n := if |ms| <= |ms'| then |ms| else |ms'|;
    SameUpTo(ms, mk, ms', mk', keys, n);
    StartInside(ms, mk, keys, n);
    StartInside(ms', mk', keys, n);
  }

  // ---------- what a run costs ----------

  /** Where the run that starts at a, known to fit up to b, ends. */
  ghost function RunEnd(keys: seq<Key>, a: nat, b: nat): (e: nat)
    requires a < b <= |keys| <= MAX_Y
    ensures b <= e <= |keys|
    decreases |keys| - b
  {
    if b == |keys| || !Fittable(RankBands(keys[a..b + 1])) then b else RunEnd(keys, a, b + 1)
  }

  /** Bytes that the record of a submodel of the given size takes in the model region. */
  function RecordBytes(size: nat): nat { 36 + 8 * (LeafCount(size) + SYNONYM_MAX) }

  /** Leaves, bytes of the model region, and submodels. */
  datatype Need = Need(leaves: nat, bytes: nat, models: nat)

  /** What the keys from start on will take. */
  ghost function NeedOf(keys: seq<Key>, start: nat): Need
    requires start <= |keys| <= MAX_Y
    decreases |keys| - start
  {
    if start == |keys| then Need(0, 0, 0)
    else
      var end := RunEnd(keys, start, start + 1);
      var rest := NeedOf(keys, end);
      Need(LeafCount(end - start) + rest.leaves, RecordBytes(end - start) + rest.bytes, 1 + rest.models)
  }

  /** No cut so far: the open run goes on until i at least. */
  ghost predicate StillOpen(keys: seq<Key>, start: nat, i: nat)
    requires start < i <= |keys| <= MAX_Y
  {
    RunEnd(keys, start, start + 1) == RunEnd(keys, start, i)
  }

  lemma OpenNext(keys: seq<Key>, start: nat, i: nat)
    requires start < i < |keys| <= MAX_Y && StillOpen(keys, start, i)
    ensures Fittable(RankBands(keys[start..i + 1])) ==> StillOpen(keys, start, i + 1)
  {
  }

  lemma NeedNext(keys: seq<Key>, start: nat, i: nat)
    requires start < i <= |keys| <= MAX_Y && StillOpen(keys, start, i)
    requires i < |keys| ==> !Fittable(RankBands(keys[start..i + 1]))
    ensures var rest := NeedOf(keys, i);
            NeedOf(keys, start) ==
              Need(LeafCount(i - start) + rest.leaves, RecordBytes(i - start) + rest.bytes, 1 + rest.models)
  {
  }

  /** A flat line fits the first 63 ranks whatever the keys are. */
  lemma ShortFits(ks: seq<Key>)
    requires |ks| <= 2 * EPSILON - 1
    ensures Fittable(RankBands(ks))
  {
    var flat := Line(0.0, (EPSILON - 1) as real);
    forall j | 0 <= j < |ks| ensures FitsBand(flat, RankBands(ks)[j]) {
      BandSound(EPSILON - 1, ks[j], j);
    }
    assert Fits(flat, RankBands(ks));
  }

  lemma {:induction false} RunIsLong(keys: seq<Key>, a: nat, b: nat)
    requires a < b <= |keys| <= MAX_Y
    ensures var e := RunEnd(keys, a, b); e == |keys| || e - a >= 2 * EPSILON - 1
    decreases |keys| - b
  {
    if b < |keys| {
      if b + 1 - a <= 2 * EPSILON - 1 { ShortFits(keys[a..b + 1]); }
      if Fittable(RankBands(keys[a..b + 1])) { RunIsLong(keys, a, b + 1); }
    }
  }

  /** Every run but the last takes at least 63 keys, so there cannot be many. */
  lemma {:induction false} FewModels(keys: seq<Key>, start: nat)
    requires start <= |keys| <= MAX_Y
    ensures (2 * EPSILON - 1) * NeedOf(keys, start).models <= |keys| - start + 2 * EPSILON - 2
    decreases |keys| - start
  {
    if start < |keys| {
      RunIsLong(keys, start, start + 1);
      FewModels(keys, RunEnd(keys, start, start + 1));
    }
  }
}

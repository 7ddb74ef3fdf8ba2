/** Cutting a sorted point sequence into the fewest runs that one line each can fit. */
module Segmentation {
  import opened Plr

  type Sample = p: (int, int) | 0 <= p.1 <= MAX_Y witness (0, 0)

  ghost predicate SortedX(input: seq<Sample>) {
    forall i, j :: 0 <= i < j < |input| ==> input[i].0 <= input[j].0
  }

  /** Of neighbours with equal x only the first is kept. */
  ghost function Dedup(input: seq<Sample>): (r: seq<Sample>)
    ensures input != [] ==> r != [] && r[|r| - 1].0 == input[|input| - 1].0
  {
    if |input| <= 1 then input
    else
      var rest := Dedup(input[..|input| - 1]);
      if input[|input| - 1].0 == input[|input| - 2].0 then rest else rest + [input[|input| - 1]]
  }

  lemma {:induction false} DedupShorter(input: seq<Sample>)
    ensures |Dedup(input)| <= |input|
    decreases |input|
  {
    if |input| > 1 { DedupShorter(input[..|input| - 1]); }
  }

  /** A sample that is kept is the first one of its x. */
  lemma {:induction false} DedupOrigin(input: seq<Sample>, j: nat) returns (i: nat)
    requires j < |Dedup(input)|
    ensures j <= i < |input| && Dedup(input)[j] == input[i] && (i > 0 ==> input[i - 1].0 != input[i].0)
    decreases |input|
  {
    var n := |input| - 1;
    if n == 0 || (j == |Dedup(input)| - 1 && input[n].0 != input[n - 1].0) {
      i := n;
      if n > 0 { DedupShorter(input[..n]); }
    } else {
      i := DedupOrigin(input[..n], j);
    }
  }

  /** Every x is kept, by its first sample, and once if the input is sorted. */
  lemma {:induction false} DedupKeeps(input: seq<Sample>, i: nat) returns (j: nat)
    requires i < |input|
    ensures j < |Dedup(input)| && Dedup(input)[j].0 == input[i].0
    ensures i == 0 || input[i - 1].0 != input[i].0 ==> Dedup(input)[j] == input[i]
    decreases |input|
  {
    var n := |input| - 1;
    if i < n {
      j := DedupKeeps(input[..n], i);
      assert input[..n][i] == input[i];
    } else {
      j := |Dedup(input)| - 1;
    }
  }

  lemma {:induction false} DedupAscends(input: seq<Sample>)
    requires SortedX(input)
    ensures forall j, k :: 0 <= j < k < |Dedup(input)| ==> Dedup(input)[j].0 < Dedup(input)[k].0
    decreases |input|
  {
    if |input| > 1 {
      var n := |input| - 1;
      var rest := Dedup(input[..n]);
      DedupAscends(input[..n]);
      assert rest[|rest| - 1].0 == input[n - 1].0 <= input[n].0;
    }
  }

  ghost function Bands(points: seq<Sample>, epsilon: nat): (r: seq<Band>)
    ensures |r| == |points|
    ensures forall i :: 0 <= i < |points| ==> r[i] == BandOf(epsilon, points[i].0, points[i].1)
  {
    seq(|points|, i requires 0 <= i < |points| => BandOf(epsilon, points[i].0, points[i].1))
  }

  /** The i-th piece of a cut sequence is not empty and some line fits it. */
  ghost predicate PieceFits(pts: seq<Band>, cuts: seq<nat>, i: nat)
    requires i + 1 < |cuts|
  {
    cuts[i] < cuts[i + 1] <= |pts| && Fittable(pts[cuts[i]..cuts[i + 1]])
  }

  /** The i-th piece stops only because no line fits it together with the next point. */
  ghost predicate PieceMaximal(pts: seq<Band>, cuts: seq<nat>, i: nat)
    requires i + 1 < |cuts|
  {
    cuts[i] < cuts[i + 1] < |pts| && !Fittable(pts[cuts[i]..cuts[i + 1] + 1])
  }

  ghost predicate PieceDescribed(pts: seq<Band>, cuts: seq<nat>, s: CanonicalSegment, i: nat)
    requires i + 1 < |cuts|
  {
    cuts[i] < cuts[i + 1] <= |pts| && Describes(s, pts[cuts[i]..cuts[i + 1]])
  }

  /** cuts splits pts into |cuts| - 1 non-empty contiguous runs, each of which some line fits. */
  ghost predicate IsPartition(pts: seq<Band>, cuts: seq<nat>) {
    && |cuts| >= 1 && cuts[0] == 0 && cuts[|cuts| - 1] == |pts|
    && (forall i :: 0 <= i < |cuts| - 1 ==> PieceFits(pts, cuts, i))
  }

  ghost predicate Maximal(pts: seq<Band>, cuts: seq<nat>) {
    forall i :: 0 <= i < |cuts| - 2 ==> PieceMaximal(pts, cuts, i)
  }

  lemma FittableWithin(pts: seq<Band>, a: nat, b: nat, c: nat, d: nat)
    requires a <= b <= c <= d <= |pts| && Fittable(pts[a..d])
    ensures Fittable(pts[b..c])
  {
    var l :| Fits(l, pts[a..d]);
    forall i | 0 <= i < c - b ensures FitsBand(l, pts[b..c][i]) {
      assert pts[b..c][i] == pts[a..d][b - a + i];
    }
    assert Fits(l, pts[b..c]);
  }

  /** The greedy cut is never behind any other partition. */
  lemma {:induction false} GreedyAhead(pts: seq<Band>, greedy: seq<nat>, cuts: seq<nat>, k: nat)
    requires IsPartition(pts, greedy) && Maximal(pts, greedy) && IsPartition(pts, cuts)
    requires k < |greedy| && k < |cuts|
    ensures greedy[k] >= cuts[k]
  {
    if k > 0 {
      GreedyAhead(pts, greedy, cuts, k - 1);
      assert PieceFits(pts, cuts, k - 1);
      if k < |greedy| - 1 && greedy[k] < cuts[k] {
        assert PieceMaximal(pts, greedy, k - 1);
        FittableWithin(pts, cuts[k - 1], greedy[k - 1], greedy[k] + 1, cuts[k]);
        assert false;
      }
    }
  }

  lemma {:induction false} BeforeEnd(pts: seq<Band>, cuts: seq<nat>, k: nat)
    requires IsPartition(pts, cuts) && k < |cuts| - 1
    ensures cuts[k] < |pts|
  {
    assert PieceFits(pts, cuts, k);
  }

  /** No partition into fittable runs has fewer runs than the greedy one. */
  lemma GreedyOptimal(pts: seq<Band>, greedy: seq<nat>, cuts: seq<nat>)
    requires IsPartition(pts, greedy) && Maximal(pts, greedy) && IsPartition(pts, cuts)
    ensures |greedy| <= |cuts|
  {
    if |cuts| < |greedy| {
      var k := |cuts| - 1;
      GreedyAhead(pts, greedy, cuts, k);
      BeforeEnd(pts, greedy, k);
      assert false;
    }
  }

  /** One segment per run, each describing its own run. */
  ghost predicate SegmentsOf(pts: seq<Band>, cuts: seq<nat>, segs: seq<CanonicalSegment>) {
    && |segs| <= |cuts| - 1
    && forall i :: 0 <= i < |segs| ==> PieceDescribed(pts, cuts, segs[i], i)
  }

  /** The cut points while the last run is still open: its start is the last entry. */
  ghost predicate Open(pts: seq<Band>, starts: seq<nat>) {
    && |starts| >= 1 && starts[0] == 0 && starts[|starts| - 1] < |pts|
    && (forall i :: 0 <= i < |starts| - 1 ==> PieceFits(pts, starts, i))
    && (forall i :: 0 <= i < |starts| - 1 ==> PieceMaximal(pts, starts, i))
  }

  /** Later points and later cuts change nothing about a piece that is already cut off. */
  lemma PieceKeeps(pts: seq<Band>, more: seq<Band>, cuts: seq<nat>, next: seq<nat>, i: nat)
    requires i + 1 < |cuts| && cuts <= next && pts <= more
    ensures PieceFits(pts, cuts, i) ==> PieceFits(more, next, i)
    ensures PieceMaximal(pts, cuts, i) ==> PieceMaximal(more, next, i)
    ensures forall s :: PieceDescribed(pts, cuts, s, i) ==> PieceDescribed(more, next, s, i)
  {
    if cuts[i] < cuts[i + 1] <= |pts| {
      assert more[cuts[i]..cuts[i + 1]] == pts[cuts[i]..cuts[i + 1]];
      if cuts[i + 1] < |pts| { assert more[cuts[i]..cuts[i + 1] + 1] == pts[cuts[i]..cuts[i + 1] + 1]; }
    }
  }

  lemma SegmentsKeep(pts: seq<Band>, more: seq<Band>, starts: seq<nat>, segs: seq<CanonicalSegment>)
    requires Open(pts, starts) && SegmentsOf(pts, starts, segs) && pts <= more
    ensures Open(more, starts) && SegmentsOf(more, starts, segs)
  {
    forall i | 0 <= i < |starts| - 1
      ensures PieceFits(more, starts, i) && PieceMaximal(more, starts, i)
    {
      PieceKeeps(pts, more, starts, starts, i);
    }
    forall i | 0 <= i < |segs| ensures PieceDescribed(more, starts, segs[i], i) {
      PieceKeeps(pts, more, starts, starts, i);
    }
  }

  /** The whole state of the stream: closed runs with their segments, and the run still open. */
  ghost predicate Streaming(pts: seq<Band>, cuts: seq<nat>, segs: seq<CanonicalSegment>, run: seq<Band>) {
    && Open(pts, cuts) && SegmentsOf(pts, cuts, segs) && |segs| == |cuts| - 1
    && run == pts[cuts[|cuts| - 1]..] && Fittable(run)
  }

  lemma StreamStart(pts: seq<Band>, run: seq<Band>)
    requires |pts| == 1 && run == pts && Fittable(run)
    ensures Streaming(pts, [0], [], run)
  {
  }

  lemma StreamOn(pts: seq<Band>, cuts: seq<nat>, segs: seq<CanonicalSegment>, run: seq<Band>, b: Band)
    requires Streaming(pts, cuts, segs, run) && Fittable(run + [b])
    ensures Streaming(pts + [b], cuts, segs, run + [b])
  {
    SegmentsKeep(pts, pts + [b], cuts, segs);
  }

  /** A refused point closes the open run and starts the next one. */
  lemma StreamCut(pts: seq<Band>, cuts: seq<nat>, segs: seq<CanonicalSegment>, run: seq<Band>, b: Band,
                  s: CanonicalSegment)
    requires Streaming(pts, cuts, segs, run) && !Fittable(run + [b]) && Fittable([b]) && Describes(s, run)
    ensures Streaming(pts + [b], cuts + [|pts|], segs + [s], [b])
  {
    var more, next, k := pts + [b], cuts + [|pts|], |cuts| - 1;
    assert more[cuts[k]..|pts|] == run;
    assert more[cuts[k]..|pts| + 1] == run + [b];
    forall i | 0 <= i < |next| - 1
      ensures PieceFits(more, next, i) && PieceMaximal(more, next, i)
    {
      if i < k { PieceKeeps(pts, more, cuts, next, i); }
    }
    forall i | 0 <= i < |segs + [s]| ensures PieceDescribed(more, next, (segs + [s])[i], i) {
      if i < k { PieceKeeps(pts, more, cuts, next, i); }
    }
  }

  /** The end of the input closes the last run. */
  lemma CloseLast(pts: seq<Band>, starts: seq<nat>, segs: seq<CanonicalSegment>, run: seq<Band>, s: CanonicalSegment)
    requires Streaming(pts, starts, segs, run) && Describes(s, run)
    ensures |segs + [s]| == |starts|
    ensures IsPartition(pts, starts + [|pts|]) && Maximal(pts, starts + [|pts|])
    ensures SegmentsOf(pts, starts + [|pts|], segs + [s])
  {
    var next, k := starts + [|pts|], |starts| - 1;
    assert pts[starts[k]..|pts|] == pts[starts[k]..];
    forall i | 0 <= i < |next| - 1 ensures PieceFits(pts, next, i) {
      if i < k { PieceKeeps(pts, pts, starts, next, i); }
    }
    forall i | 0 <= i < |next| - 2 ensures PieceMaximal(pts, next, i) {
      PieceKeeps(pts, pts, starts, next, i);
    }
    forall i | 0 <= i < |segs + [s]| ensures PieceDescribed(pts, next, (segs + [s])[i], i) {
      if i < k { PieceKeeps(pts, pts, starts, next, i); }
    }
  }

  lemma DedupStep(input: seq<Sample>, i: nat, epsilon: nat)
    requires 0 < i < |input|
    ensures input[i].0 == input[i - 1].0 ==> Dedup(input[..i + 1]) == Dedup(input[..i])
    ensures input[i].0 != input[i - 1].0 ==>
              && Dedup(input[..i + 1]) == Dedup(input[..i]) + [input[i]]
              && Bands(Dedup(input[..i + 1]), epsilon)
                 == Bands(Dedup(input[..i]), epsilon) + [BandOf(epsilon, input[i].0, input[i].1)]
  {
    var s := input[..i + 1];
    assert s[..|s| - 1] == input[..i];
  }

  lemma SortedNext(input: seq<Sample>, i: nat)
    requires 0 < i < |input| && SortedX(input[..i])
    ensures input[i].0 >= input[i - 1].0 ==> SortedX(input[..i + 1])
    ensures input[i].0 < input[i - 1].0 ==> !SortedX(input)
  {
    var s := input[..i + 1];
    assert s[..i] == input[..i];
    if input[i].0 >= input[i - 1].0 {
      forall j, k | 0 <= j < k < |s| ensures s[j].0 <= s[k].0 {
        if k == i { assert input[..i][j].0 <= input[..i][i - 1].0 || j == i - 1; }
      }
    }
  }

  /** What the loop of the segmentation keeps about its regression object and its outputs. */
  ghost predicate Running(opt: PLR, pts: seq<Band>, cuts: seq<nat>, segs: seq<CanonicalSegment>)
    reads opt
  {
    opt.Valid() && 0 < opt.pointsInHull == |opt.run| && Streaming(pts, cuts, segs, opt.run)
  }

  method Start(p: Sample, epsilon: nat) returns (opt: PLR)
    ensures fresh(opt) && opt.epsilon == epsilon && opt.lastX == p.0
    ensures Running(opt, [BandOf(epsilon, p.0, p.1)], [0], [])
  {
    opt := new PLR(epsilon);
    var r := opt.AddPoint(p.0, p.1);
    StreamStart(opt.run, opt.run);
  }

  lemma FirstPoint(input: seq<Sample>, epsilon: nat)
    ensures input == [] ==>
      && SortedX(input) && IsPartition(Bands(Dedup(input), epsilon), [0])
      && SegmentsOf(Bands(Dedup(input), epsilon), [0], [])
    ensures input != [] ==>
      && SortedX(input[..1])
      && Bands(Dedup(input[..1]), epsilon) == [BandOf(epsilon, input[0].0, input[0].1)]
  {
  }

  /** One point: extend the open run, or emit its segment and start the next run with the point. */
  method Feed(opt: PLR, p: Sample, segs: seq<CanonicalSegment>, ghost pts: seq<Band>, ghost cuts: seq<nat>)
    returns (increasing: bool, closed: bool, segs': seq<CanonicalSegment>, ghost cuts': seq<nat>)
    requires Running(opt, pts, cuts, segs)
    modifies opt
    ensures increasing <==> p.0 > old(opt.lastX)
    ensures increasing ==> Running(opt, pts + [BandOf(opt.epsilon, p.0, p.1)], cuts', segs') && opt.lastX == p.0
    ensures |segs'| == if closed then |segs| + 1 else |segs|
  {
    hide Fittable, Streaming, BandOf, Describes, PLR.Valid;
    segs', cuts', increasing, closed := segs, cuts, true, false;
    ghost var b := BandOf(opt.epsilon, p.0, p.1);
    ghost var run := opt.run;
    var r := opt.AddPoint(p.0, p.1);
    if r == NotIncreasing {
      increasing := false;
      return;
    }
    if r == Refused {
      var s := opt.GetSegment();
      segs', closed := segs + [s], true;
      r := opt.AddPoint(p.0, p.1);
      StreamCut(pts, cuts, segs, run, b, s);
      cuts' := cuts + [|pts|];
    } else {
      StreamOn(pts, cuts, segs, run, b);
    }
  }

  /** The end of the input: the open run becomes the last segment. */
  method Finish(opt: PLR, segs: seq<CanonicalSegment>, ghost pts: seq<Band>, ghost cuts: seq<nat>)
    returns (segs': seq<CanonicalSegment>, ghost cuts': seq<nat>)
    requires Running(opt, pts, cuts, segs)
    ensures IsPartition(pts, cuts') && Maximal(pts, cuts') && SegmentsOf(pts, cuts', segs')
    ensures |segs'| == |cuts'| - 1 == |segs| + 1
  {
    var s := opt.GetSegment();
    CloseLast(pts, cuts, segs, opt.run, s);
    segs' := segs + [s];
    cuts' := cuts + [|pts|];
  }

  /**
   Streams the points into the regression and emits a segment whenever a point is refused. An
   unsorted input makes the insertion throw, reported as ok being false.
   */
  method MakeSegmentation(input: seq<Sample>, epsilon: nat)
    returns (ok: bool, c: nat, segs: seq<CanonicalSegment>, ghost cuts: seq<nat>)
    ensures ok <==> SortedX(input)
    ensures ok ==> c == |segs| == |cuts| - 1 && IsPartition(Bands(Dedup(input), epsilon), cuts)
    ensures ok ==> SegmentsOf(Bands(Dedup(input), epsilon), cuts, segs)
    ensures ok ==> forall other :: IsPartition(Bands(Dedup(input), epsilon), other) ==> c <= |other| - 1
  {
    segs, cuts, c, ok := [], [0], 0, true;
    FirstPoint(input, epsilon);
    hide Dedup, Bands, Running, BandOf, SortedX, IsPartition, Maximal, SegmentsOf, PLR.Valid;
    if |input| == 0 {
      return;
    }
    var p := input[0];
    var opt := Start(p, epsilon);
    ghost var pts := [BandOf(epsilon, p.0, p.1)];
    for i := 1 to |input|
      invariant fresh(opt) && opt.epsilon == epsilon && Running(opt, pts, cuts, segs)
      invariant p.0 == input[i - 1].0 == opt.lastX && c == |segs|
      invariant SortedX(input[..i])
      invariant pts == Bands(Dedup(input[..i]), epsilon)
    {
      var next := input[i];
      DedupStep(input, i, epsilon);
      SortedNext(input, i);
      if next.0 == p.0 {
        continue;
      }
      p := next;
      var closed;
      ok, closed, segs, cuts := Feed(opt, p, segs, pts, cuts);
      if !ok {
        return;
      }
      if closed {
        c := c + 1;
      }
      pts := pts + [BandOf(epsilon, p.0, p.1)];
    }
    assert input[..|input|] == input;
    segs, cuts := Finish(opt, segs, pts, cuts);
    c := c + 1;
    forall other | IsPartition(pts, other) ensures c <= |other| - 1 {
      GreedyOptimal(pts, cuts, other);
    }
  }
}

/**
 Two things that go wrong after training, shown on one training set and for every line that
 training could choose for it: a stored key that a search misses after insertions and removals,
 and an absent key whose window lies before the leaf table.
 */
module TrainedExamples {
  import opened Geometry
  import opened LinearModel
  import opened Plr
  import opened Segment
  import opened Entries
  import opened Leaf
  import opened LeafAllocator
  import opened Links
  import opened Groups
  import opened Routing
  import opened SubModel
  import opened Serialization
  import opened TrainingRuns
  import opened LearnedCache
  import R = Rolex
  import Region = ModelRegion

  /** The first key, the distance of the next ones, and a last key far away. */
  const BASE: Key := 10_000_000
  const STEP: Key := 1000
  const FAR: Key := 1_000_000_000

  /** Two keys more than a leaf holds, on one line. */
  const COUNT: nat := 66

  function FirstKeys(): (r: seq<Key>)
    ensures |r| == COUNT && forall j :: 0 <= j < COUNT ==> r[j] == BASE + STEP * j
  {
    seq(COUNT, j requires 0 <= j < COUNT => BASE + STEP * j)
  }

  function TrainingKeys(): (r: seq<Key>)
    ensures |r| == COUNT + 1 && r[COUNT] == FAR && r[..COUNT] == FirstKeys()
    ensures forall j :: 0 <= j < COUNT ==> r[j] == BASE + STEP * j
  {
    FirstKeys() + [FAR]
  }

  // ---------- what training makes of the keys ----------

  /** The first keys lie on a line, so none of their prefixes ends a run. */
  lemma PrefixFits(b: nat)
    requires b <= COUNT
    ensures Fittable(RankBands(TrainingKeys()[0..b]))
  {
    var l, ks := Line(0.001, -10000.0), TrainingKeys()[0..b];
    forall j | 0 <= j < b ensures FitsBand(l, RankBands(ks)[j]) {
      BandSound(EPSILON - 1, ks[j], j);
    }
    assert Fits(l, RankBands(ks));
  }

  /** Where a line through the first keys may run. */
  lemma FirstLine(l: Line, ks: seq<Key>)
    requires COUNT <= |ks| <= MAX_Y && ks[..COUNT] == FirstKeys() && Fits(l, RankBands(ks))
    ensures 33.0 <= l.At(BASE + 64000) <= 95.0 && 34.0 <= l.At(BASE + 65000) <= 96.0
    ensures l.At(BASE) <= 31.0 && l.slope * 65000.0 >= 3.0 && l.slope >= 0.0
    ensures l.At(BASE + 64032) < 96.0
  {
    FitsAt(l, RankBands(ks), 0);
    FitsAt(l, RankBands(ks), 64);
    FitsAt(l, RankBands(ks), 65);
    assert forall j :: 0 <= j < COUNT ==> ks[j] == FirstKeys()[j];
    AtShifted(l, BASE, 65000);
    AtShifted(l, BASE + 64000, 32);
    AtShifted(l, BASE + 64000, 1000);
  }

  /** No line reaches the last key as well. */
  lemma FarUnfit()
    ensures !Fittable(RankBands(TrainingKeys()))
  {
    var ks := TrainingKeys();
    forall l: Line | Fits(l, RankBands(ks)) ensures false {
      FirstLine(l, ks);
      FitsAt(l, RankBands(ks), COUNT);
      AtShifted(l, BASE + 65000, FAR - BASE - 65000);
    }
  }

  lemma NoneFits(l: Line, run: seq<Band>)
    requires !Fittable(run)
    ensures !Fits(l, run)
  {
  }

  /** Training cuts the keys into two submodels, the first over all keys but the last. */
  lemma FirstRun(ms: seq<ModelShape>, mk: seq<Key>)
    requires |ms| == |mk| && Greedy(ms, mk, TrainingKeys()) && StartOf(ms, |ms|) == COUNT + 1
    ensures |ms| == 2 && ms[0].capacity == COUNT && ms[1].capacity == 1
    ensures Fits(ms[0].line, RankBands(FirstKeys())) && Fits(ms[1].line, RankBands([FAR]))
  {
    hide Fits, Fittable, RankBands, Middle;
    var ks := TrainingKeys();
    assert ks[COUNT..COUNT + 1] == [FAR];
    assert CutAt(ms, mk, ks, 0);
    var b := StartOf(ms, 1);
    if b < COUNT { PrefixFits(b + 1); }
    FarUnfit();
    assert ks[0..COUNT + 1] == ks && ks[0..COUNT] == FirstKeys();
    NoneFits(ms[0].line, RankBands(ks));
    assert b == COUNT;
    assert CutAt(ms, mk, ks, 1);
    StartInside(ms, mk, ks, 2);
  }

  // ---------- a key that gets lost ----------

  /** The i-th key from the first one of the second leaf on, and its entry. */
  function NextKey(i: nat): Key
    requires i < STEP
  {
    BASE + 64000 + i
  }

  ghost function Zeros(n: nat): (r: seq<Val>)
    ensures |r| == n && forall i :: 0 <= i < n ==> r[i] == 0
  {
    seq(n, _ => 0)
  }

  /** The keys of the first leaf, as trained. */
  ghost function FirstLeaf(): seq<Entry> { Pairs(FirstKeys(), Zeros(COUNT))[..SLOTS] }

  /** The first n keys from NextKey(0) on. */
  ghost function Ramp(n: nat): (r: seq<Entry>)
    requires n < STEP
    ensures |r| == n && forall i :: 0 <= i < n ==> r[i] == Entry(NextKey(i), 0)
  {
    seq(n, i requires 0 <= i < n => Entry(NextKey(i), 0))
  }

  /** The second leaf after n - 1 insertions; its last key is trained. */
  ghost function SecondLeaf(n: nat): seq<Entry>
    requires n < STEP
  {
    Ramp(n) + [Entry(NextKey(0) + STEP, 0)]
  }

  /** What the leaves hold while the second one fills up. */
  ghost function FillingUp(n: nat): seq<Group>
    requires n < STEP
  {
    [[FirstLeaf()], [SecondLeaf(n)]]
  }

  /** After the split, with the first n keys gone again. */
  ghost function RunningOut(n: nat): seq<Group>
    requires n <= SLOTS / 2
  {
    [[FirstLeaf()], [Ramp(SLOTS / 2)[n..], SecondLeaf(SLOTS)[SLOTS / 2..]]]
  }

  /** Keys of the second leaf are routed to it while its head covers them. */
  lemma PickSecond(gs: seq<Group>, m: Line, key: Key)
    requires TableOk(gs, m, COUNT) && Fits(m, RankBands(FirstKeys()))
    requires key >= NextKey(0) && |gs| == 2 && gs[1] != [] && Covers(gs[1][0], key)
    ensures Pick(gs, m, COUNT, key) == 1
  {
    hide Window, GroupOk, InWindow, NotStranded, Sorted, Content;
    FitsAt(m, RankBands(FirstKeys()), SLOTS);
    WindowHoldsRank(m, NextKey(0), SLOTS, COUNT);
    WindowMonotone(m, NextKey(0), key, COUNT);
    WindowInTable(m, key, COUNT);
  }

  /** The leaves as training fills them. */
  lemma TrainedLeaves()
    ensures Fresh(Pairs(FirstKeys(), Zeros(COUNT)), LeafCount(COUNT)) == FillingUp(1)
  {
    var e := Pairs(FirstKeys(), Zeros(COUNT));
    assert Chunk(e, 0) == FirstLeaf();
    assert Chunk(e, 1) == SecondLeaf(1);
  }

  lemma RampRank(n: nat)
    requires n < STEP
    ensures Rank(SecondLeaf(n), NextKey(n)) == n && Lookup(SecondLeaf(n), NextKey(n)).None?
    ensures n + 1 < STEP ==> Inserted(SecondLeaf(n), NextKey(n), 0) == SecondLeaf(n + 1)
  {
    RankIs(SecondLeaf(n), NextKey(n), n);
  }

  /** The keys of the ramp are routed to the second leaf while it fills up. */
  lemma FillPick(m: Line, n: nat)
    requires 0 < n < SLOTS && TableOk(FillingUp(n), m, COUNT) && Fits(m, RankBands(FirstKeys()))
    ensures Pick(FillingUp(n), m, COUNT, NextKey(n)) == 1 && Lookup(Content(FillingUp(n)), NextKey(n)).None?
  {
    hide TableOk, Fits, Pick, Content, Lookup, Rank, Join;
    var gs := FillingUp(n);
    PickSecond(gs, m, NextKey(n));
    TableLookup(gs, m, COUNT, NextKey(n));
    JoinOne(gs[1]);
    RampRank(n);
  }

  /** An insertion into the second leaf while it has room. */
  lemma FillStep(m: Line, n: nat)
    requires 0 < n < SLOTS - 1 && TableOk(FillingUp(n), m, COUNT) && Fits(m, RankBands(FirstKeys()))
    ensures GroupsInserted(FillingUp(n), m, COUNT, NextKey(n), 0) == FillingUp(n + 1)
    ensures !TakesLeaf(FillingUp(n)[Pick(FillingUp(n), m, COUNT, NextKey(n))], NextKey(n))
  {
    hide TableOk, Fits, Pick, Content, Lookup, Rank, Join, Inserted, FirstLeaf, Ramp;
    FillPick(m, n);
    RampRank(n);
    var g: Group := FillingUp(n)[1];
    assert RouteIn(g, NextKey(n)) == 0 && GroupInserted(g, NextKey(n), 0) == [SecondLeaf(n + 1)];
  }

  lemma SplitLeaf(key: Key)
    requires key == NextKey(SLOTS - 1)
    ensures var s := SecondLeaf(SLOTS - 1);
            && Inserted(s[SLOTS / 2..], key, 0) == SecondLeaf(SLOTS)[SLOTS / 2..]
            && s[..SLOTS / 2] == Ramp(SLOTS / 2)[0..]
  {
    RankIs(SecondLeaf(SLOTS - 1)[SLOTS / 2..], key, SLOTS / 2 - 1);
  }

  lemma SplitGroup()
    ensures var g: Group := [SecondLeaf(SLOTS - 1)];
            GroupInserted(g, NextKey(SLOTS - 1), 0) == [Ramp(SLOTS / 2)[0..], SecondLeaf(SLOTS)[SLOTS / 2..]]
  {
    hide Rank, Inserted;
    var g: Group, key := [SecondLeaf(SLOTS - 1)], NextKey(SLOTS - 1);
    SplitLeaf(key);
    var h := Halved(g, 0);
    assert h == [g[0][..SLOTS / 2], g[0][SLOTS / 2..]];
    assert Covers(h[1], key);
  }

  /** The insertion that splits it. */
  lemma SplitStep(m: Line)
    requires TableOk(FillingUp(SLOTS - 1), m, COUNT) && Fits(m, RankBands(FirstKeys()))
    ensures GroupsInserted(FillingUp(SLOTS - 1), m, COUNT, NextKey(SLOTS - 1), 0) == RunningOut(0)
  {
    hide TableOk, Fits, Pick, Content, Lookup, Rank, Join, Inserted, FirstLeaf, Ramp;
    FillPick(m, SLOTS - 1);
    SplitGroup();
  }

  lemma RemoveGroup(n: nat)
    requires n < SLOTS / 2
    ensures GroupRemoved(RunningOut(n)[1], NextKey(n)) == RunningOut(n + 1)[1]
    ensures Strands(RunningOut(n)[1], NextKey(n)) <==> n == SLOTS / 2 - 1
  {
    var g: Group := RunningOut(n)[1];
    var l := g[0];
    assert l[0] == Entry(NextKey(n), 0) && l[1..] == RunningOut(n + 1)[1][0];
    assert !Covers(g[1], NextKey(n));
    RouteInIs(g, NextKey(n), 0);
    RankIs(l, NextKey(n), 0);
    assert Removed(l, NextKey(n)) == l[1..];
  }

  /** A removal from the head of the split leaf. */
  lemma RemoveStep(m: Line, n: nat)
    requires n < SLOTS / 2 && TableOk(RunningOut(n), m, COUNT) && Fits(m, RankBands(FirstKeys()))
    ensures Pick(RunningOut(n), m, COUNT, NextKey(n)) == 1
    ensures GroupsRemoved(RunningOut(n), m, COUNT, NextKey(n)) == RunningOut(n + 1)
    ensures Strands(RunningOut(n)[1], NextKey(n)) <==> n == SLOTS / 2 - 1
  {
    hide TableOk, Fits, Pick, FirstLeaf;
    PickSecond(RunningOut(n), m, NextKey(n));
    RemoveGroup(n);
  }

  /** The window of the first key behind the emptied head starts before it. */
  lemma EarlyWindow(m: Line)
    requires Fits(m, RankBands(FirstKeys()))
    ensures Window(m, NextKey(SLOTS / 2), COUNT).0 == 0
  {
    hide Fits;
    assert FirstKeys()[..COUNT] == FirstKeys();
    FirstLine(m, FirstKeys());
    var q := NextKey(SLOTS / 2);
    assert m.slope * (q as real) >= 0.0;
    assert Position(m, q) <= m.At(q);
  }

  lemma StillThere()
    ensures var g: Group := RunningOut(SLOTS / 2 - 1)[1];
            && Sorted(Join(g)) && Sorted(Removed(Join(g), NextKey(SLOTS / 2 - 1)))
            && Lookup(Join(g), NextKey(SLOTS / 2)).Some?
  {
    var g: Group := RunningOut(SLOTS / 2 - 1)[1];
    JoinOne(g[1..]);
    assert Join(g) == g[0] + g[1];
    var s := Join(g);
    assert Sorted(s);
    LookupFound(s, 1, NextKey(SLOTS / 2));
    RemovedSorted(s, NextKey(SLOTS / 2 - 1));
  }

  /** The last removal from the head leaves keys behind it that a search misses. */
  lemma LastRemoval(m: Line)
    requires TableOk(RunningOut(SLOTS / 2 - 1), m, COUNT) && Fits(m, RankBands(FirstKeys()))
    ensures LosesKey(RunningOut(SLOTS / 2 - 1), m, COUNT, NextKey(SLOTS / 2 - 1), NextKey(SLOTS / 2))
  {
    hide Fits, Pick, FirstLeaf, Window, Content, Join, Removed, Lookup, GroupRemoved, Sorted, InWindow, NotStranded;
    var gs, key, q := RunningOut(SLOTS / 2 - 1), NextKey(SLOTS / 2 - 1), NextKey(SLOTS / 2);
    RemoveStep(m, SLOTS / 2 - 1);
    StillThere();
    TableRemoved(gs, m, COUNT, key);
    PickSecond(gs, m, q);
    TableLookup(gs, m, COUNT, q);
    GroupRemovedContent(gs[1], key);
    RemovedLookup(Join(gs[1]), key, q);
    RemovedLookup(Content(gs), key, q);
    StrandedKeyFound(gs, m, COUNT, key, q);
    EarlyWindow(m);
  }

  lemma FirstPredicted(m: Line)
    requires Fits(m, RankBands(FirstKeys()))
    ensures Predicts(m, FirstKeys()) && Increasing(FirstKeys())
  {
    hide Fits, Predicts;
    assert FirstKeys()[..COUNT] == FirstKeys();
    FirstLine(m, FirstKeys());
    FitPredicts(m, FirstKeys());
  }

  /** The submodel with these leaves, trained on the first keys. */
  ghost predicate Holding(m: SubModel, alloc: LeafAllocator, gs: seq<Group>)
    reads m.ltable, m.ltable.synonymTable, alloc, alloc.Repr
  {
    m.Valid(alloc) && m.capacity == COUNT && Fits(m.model, RankBands(FirstKeys())) && m.ltable.Groups(alloc) == gs
  }

  lemma HoldingParts(m: SubModel, alloc: LeafAllocator, gs: seq<Group>)
    requires Holding(m, alloc, gs)
    ensures m.Valid(alloc) && m.capacity == COUNT && TableOk(gs, m.model, COUNT) && m.ltable.Groups(alloc) == gs
    ensures m.Entries(alloc) == Content(gs)
  {
  }

  method FillOne(m: SubModel, alloc: LeafAllocator, n: nat)
    requires 0 < n < SLOTS && Holding(m, alloc, FillingUp(n)) && m.ltable.Slots() == 1 && alloc.used < |alloc.leaves|
    modifies m.ltable, m.ltable.synonymTable, alloc.Repr
    ensures Holding(m, alloc, if n < SLOTS - 1 then FillingUp(n + 1) else RunningOut(0))
    ensures n < SLOTS - 1 ==> m.ltable.Slots() == 1 && alloc.used < |alloc.leaves|
  {
    hide TableOk, Fits, Content, Lookup, Inserted, FillingUp, RunningOut, Pick, TakesLeaf, Linked, GroupOk;
    HoldingParts(m, alloc, FillingUp(n));
    FillPick(m.model, n);
    if n < SLOTS - 1 { FillStep(m.model, n); } else { SplitStep(m.model); }
    var r := m.Insert(NextKey(n), 0, alloc);
  }

  method RemoveOne(m: SubModel, alloc: LeafAllocator, n: nat)
    requires n < SLOTS / 2 - 1 && Holding(m, alloc, RunningOut(n))
    modifies m.ltable, m.ltable.synonymTable, alloc.Repr
    ensures Holding(m, alloc, RunningOut(n + 1))
  {
    hide TableOk, Fits, Content, Lookup, Removed, RunningOut, Pick, Strands, Linked, GroupOk;
    HoldingParts(m, alloc, RunningOut(n));
    RemoveStep(m.model, n);
    var r := m.Remove(NextKey(n), alloc);
  }

  /** Insertions that fill and split the second leaf, and removals that leave one key in its head. */
  method FillAndEmpty(m: SubModel, alloc: LeafAllocator)
    requires Holding(m, alloc, FillingUp(1)) && m.ltable.Slots() == 1 && alloc.used < |alloc.leaves|
    modifies m.ltable, m.ltable.synonymTable, alloc.Repr
    ensures Holding(m, alloc, RunningOut(SLOTS / 2 - 1))
  {
    hide Holding, FillingUp, RunningOut;
    for n := 1 to SLOTS - 1
      invariant Holding(m, alloc, FillingUp(n)) && m.ltable.Slots() == 1 && alloc.used < |alloc.leaves|
    {
      FillOne(m, alloc, n);
    }
    FillOne(m, alloc, SLOTS - 1);
    for n := 0 to SLOTS / 2 - 1
      invariant Holding(m, alloc, RunningOut(n))
    {
      RemoveOne(m, alloc, n);
    }
  }

  lemma Lost(m: Line)
    requires LosesKey(RunningOut(SLOTS / 2 - 1), m, COUNT, NextKey(SLOTS / 2 - 1), NextKey(SLOTS / 2))
    requires GroupsRemoved(RunningOut(SLOTS / 2 - 1), m, COUNT, NextKey(SLOTS / 2 - 1)) == RunningOut(SLOTS / 2)
    ensures var gs, q := RunningOut(SLOTS / 2), NextKey(SLOTS / 2);
            && |gs| == LeafCount(COUNT) && (forall j :: 0 <= j < |gs| ==> gs[j] != [])
            && Lookup(Content(gs), q).Some? && Lookup(Join(gs[Pick(gs, m, COUNT, q)]), q).None?
  {
    hide Fits, Content, Lookup, RunningOut, Pick, GroupOk, Join;
  }

  /** The key is stored, and r is what a search for it looks up in the group it is routed to: nothing. */
  ghost predicate Missed(m: SubModel, alloc: LeafAllocator, q: Key, r: Option<Val>)
    requires m.Sound(alloc)
    reads m.ltable, m.ltable.synonymTable, alloc, alloc.Repr
  {
    var gs := m.ltable.Groups(alloc);
    && Lookup(m.Entries(alloc), q).Some?
    && (forall j :: 0 <= j < |gs| ==> gs[j] != [])
    && r == Lookup(Join(gs[Pick(gs, m.model, m.capacity, q)]), q) == None
  }

  /** The removal that strands keys, and a search for one of them. */
  method RemoveLast(m: SubModel, alloc: LeafAllocator) returns (r: Option<Val>)
    requires Holding(m, alloc, RunningOut(SLOTS / 2 - 1))
    modifies m.ltable, m.ltable.synonymTable, alloc.Repr
    ensures m.Sound(alloc)
    ensures LosesKey(RunningOut(SLOTS / 2 - 1), m.model, COUNT, NextKey(SLOTS / 2 - 1), NextKey(SLOTS / 2))
    ensures m.ltable.Groups(alloc) == RunningOut(SLOTS / 2)
    ensures Missed(m, alloc, NextKey(SLOTS / 2), r)
  {
    hide TableOk, Fits, Content, Lookup, Removed, RunningOut, Pick, Strands, Linked, GroupOk, LosesKey, Join;
    HoldingParts(m, alloc, RunningOut(SLOTS / 2 - 1));
    LastRemoval(m.model);
    RemoveStep(m.model, SLOTS / 2 - 1);
    Lost(m.model);
    var removed := m.Remove(NextKey(SLOTS / 2 - 1), alloc);
    r := m.Search(NextKey(SLOTS / 2), alloc);
  }

  /**
   A submodel trained on the first keys, with any line that fits them, taken through insertions and
   removals until a search misses a key that is stored and was never removed.
   */
  method LoseKey(line: Line, alloc: LeafAllocator) returns (m: SubModel, r: Option<Val>)
    requires Fits(line, RankBands(FirstKeys()))
    requires alloc.Valid() && alloc.used + 3 <= |alloc.leaves|
    modifies alloc.Repr
    ensures m.model == line && m.capacity == COUNT && m.Sound(alloc)
    ensures LosesKey(RunningOut(SLOTS / 2 - 1), line, COUNT, NextKey(SLOTS / 2 - 1), NextKey(SLOTS / 2))
    ensures m.ltable.Groups(alloc) == RunningOut(SLOTS / 2)
    ensures Missed(m, alloc, NextKey(SLOTS / 2), r)
  {
    hide TableOk, Fits, Content, Lookup, RunningOut, FillingUp, Pairs, LosesKey, Predicts, Increasing, Linked, GroupOk;
    FirstPredicted(line);
    TrainedLeaves();
    var vals := seq(COUNT, _ => 0);
    assert vals == Zeros(COUNT);
    m := new SubModel(line, FirstKeys(), vals, alloc);
    FillAndEmpty(m, alloc);
    r := RemoveLast(m, alloc);
  }

  // ---------- a key before the table ----------

  lemma {:induction false} FirstRunEnd(b: nat)
    requires 0 < b <= COUNT
    ensures RunEnd(TrainingKeys(), 0, b) == COUNT
    decreases COUNT - b
  {
    if b < COUNT {
      PrefixFits(b + 1);
      FirstRunEnd(b + 1);
    } else {
      FarUnfit();
      assert TrainingKeys()[0..COUNT + 1] == TrainingKeys();
    }
  }

  /** What training needs: three leaves and two records. */
  lemma TrainingNeed()
    ensures NeedOf(TrainingKeys(), 0) == Need(3, RecordBytes(COUNT) + RecordBytes(1), 2)
  {
    var ks := TrainingKeys();
    FirstRunEnd(1);
    assert RunEnd(ks, COUNT, COUNT + 1) == COUNT + 1;
    assert NeedOf(ks, COUNT + 1) == Need(0, 0, 0);
    assert NeedOf(ks, COUNT) == Need(1, RecordBytes(1), 1);
  }

  /** Bit patterns that tell the two lines apart: which of them passes above the last key's ranks. */
  function LineBits(l: Line): (Word, Word) { (if l.At(FAR) <= 31.0 then 0 else 1, 0) }

  /** An empty index with just enough memory. */
  method EmptyIndex() returns (index: R.Rolex)
    ensures fresh(index.Repr) && fresh(index.region) && fresh(index.region.pool)
    ensures index.Valid() && index.models == [] && index.Recorded() && index.region.Counted()
    ensures index.bits == LineBits && |index.alloc.leaves| == 3 && index.alloc.used == 0
    ensures index.region.curAllocSz == Region.UPPER && index.region.pool.Length == Region.UPPER + 10000
  {
    hide R.Rolex.Valid, R.Rolex.Recorded, LeafAllocator.Valid, Region.ModelAllocator.Valid;
    hide Region.ModelAllocator.Counted, R.Rolex.Contents;
    var alloc := new LeafAllocator(8 + 4 * LEAF_BYTES, 3);
    var pool := new nat[Region.UPPER + 10000];
    var region := new Region.ModelAllocator(pool);
    index := new R.Rolex(alloc, region, LineBits);
  }

  /** The budget of the training keys, and that an index of this size can afford it. */
  lemma Enough(index: R.Rolex)
    requires index.models == [] && |index.alloc.leaves| == 3 && index.alloc.used == 0
    requires index.region.curAllocSz == Region.UPPER && index.region.pool.Length == Region.UPPER + 10000
    ensures NeedOf(TrainingKeys(), 0).models <= Region.MAX_UPPER && index.Sized(TrainingKeys())
    ensures index.Affordable(index.Budget(TrainingKeys(), 0))
  {
    hide NeedOf;
    TrainingNeed();
  }

  lemma KeysIncrease()
    ensures Increasing(TrainingKeys())
  {
  }

  /** What training is known to leave behind. */
  ghost predicate IsTrained(index: R.Rolex)
    reads index, index.Repr, index.region, index.region.pool
  {
    && index.bits == LineBits && |index.alloc.leaves| == 3 && index.Valid() && index.NoSynonyms() && index.Recorded()
    && index.region.Counted() && index.Contents() == Pairs(TrainingKeys(), Zeros(COUNT + 1))
    && |index.models| == |index.modelKeys| && Greedy(index.Shapes(), index.modelKeys, TrainingKeys())
    && StartOf(index.Shapes(), |index.models|) == COUNT + 1
  }

  /** Trains an index on the keys. */
  method TrainIndex() returns (index: R.Rolex)
    ensures fresh(index.Repr) && IsTrained(index)
  {
    hide NeedOf, Greedy, StartOf, Reaches, Pairs, R.Rolex.Valid, R.Rolex.Recorded, R.Rolex.Contents, R.Rolex.NoSynonyms;
    hide R.Rolex.Budget, R.Rolex.Sized, Region.ModelAllocator.Counted, Increasing, TrainingKeys;
    hide R.Rolex.Shapes;
    index := EmptyIndex();
    Enough(index);
    KeysIncrease();
    var vals := seq(COUNT + 1, _ => 0);
    assert vals == Zeros(COUNT + 1);
    var res := index.Train(TrainingKeys(), vals);
  }

  lemma LinesApart(l: Line, l': Line)
    requires Fits(l, RankBands(FirstKeys())) && Fits(l', RankBands([FAR]))
    ensures LineBits(l).0 == 1 && LineBits(l').0 == 0
  {
    assert FirstKeys()[..COUNT] == FirstKeys();
    FirstLine(l, FirstKeys());
    AtShifted(l, BASE + 65000, FAR - BASE - 65000);
    FitsAt(l', RankBands([FAR]), 0);
  }

  lemma TrainedParts(index: R.Rolex)
    requires IsTrained(index)
    ensures |index.models| == 2 && index.Valid() && index.Contents() == Pairs(TrainingKeys(), Zeros(COUNT + 1))
    ensures index.bits(index.models[0].model).0 == 1 && index.bits(index.models[1].model).0 == 0
    ensures index.models[0].capacity == COUNT && Fits(index.models[0].model, RankBands(FirstKeys()))
    ensures Unpredicted(index, 0)
  {
    hide R.Rolex.Valid, R.Rolex.Recorded, R.Rolex.Contents, R.Rolex.NoSynonyms, Greedy, StartOf, Unpredicted, Fits;
    hide RankBands;
    hide LineBits;
    FirstRun(index.Shapes(), index.modelKeys);
    KeysIncrease();
    LinesApart(index.models[0].model, index.models[1].model);
    FarUnpredicted(index, TrainingKeys(), 0);
  }

  /** A cache read from the region of the trained index. */
  method CacheOfTrained(index: R.Rolex) returns (cache: LearnedCache)
    requires IsTrained(index)
    ensures fresh(cache) && index.Intact() && cache.Mirrors(index)
  {
    hide R.Rolex.Valid, R.Rolex.Recorded, R.Rolex.Contents, R.Rolex.NoSynonyms, Greedy, StartOf, LearnedCache.Mirrors;
    hide LineBits, Unpredicted, R.Rolex.Intact;
    TrainedParts(index);
    index.ValidIntact();
    var l0, l1 := index.models[0].model, index.models[1].model;
    cache := CacheOf(index, (a: nat, b: nat) => if a == 1 then l0 else l1);
  }

  /** A cache of this index, asked for a key far below the trained ones, runs off its leaf table. */
  method SearchBeforeTable() returns (index: R.Rolex, cache: LearnedCache, r: Answer)
    ensures index.Valid() && index.Contents() == Pairs(TrainingKeys(), Zeros(COUNT + 1)) && cache.Mirrors(index)
    ensures r.OutOfTable? && Unpredicted(index, 0)
  {
    hide IsTrained, R.Rolex.Valid, R.Rolex.Contents, R.Rolex.Intact, LearnedCache.Mirrors, Unpredicted, HeadStored;
    hide Lookup;
    hide Pairs, TrainingKeys;
    index := TrainIndex();
    TrainedParts(index);
    cache := CacheOfTrained(index);
    var offs;
    r, offs := cache.Search(0, index);
  }

  /** The key is lost for the very line that training chooses. */
  method LoseTrainedKey() returns (index: R.Rolex, m: SubModel, alloc: LeafAllocator, r: Option<Val>)
    ensures IsTrained(index) && index.models != [] && m.model == index.models[0].model
    ensures m.capacity == index.models[0].capacity == COUNT && m.Sound(alloc)
    ensures LosesKey(RunningOut(SLOTS / 2 - 1), m.model, COUNT, NextKey(SLOTS / 2 - 1), NextKey(SLOTS / 2))
    ensures m.ltable.Groups(alloc) == RunningOut(SLOTS / 2)
    ensures Missed(m, alloc, NextKey(SLOTS / 2), r)
  {
    hide IsTrained, R.Rolex.Valid, R.Rolex.Contents, R.Rolex.Intact, Unpredicted, Lookup, Fits, RankBands, LosesKey;
    hide Missed, RunningOut, TableOk, GroupOk, Linked, Greedy, StartOf, Pairs, TrainingKeys;
    index := TrainIndex();
    TrainedParts(index);
    alloc := new LeafAllocator(8 + 4 * LEAF_BYTES, 3);
    m, r := LoseKey(index.models[0].model, alloc);
  }
}

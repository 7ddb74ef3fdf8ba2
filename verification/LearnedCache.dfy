/**
 The copy of the models that a compute node keeps. It holds only lines, sizes and head leaf numbers
 as they were when it was read, and searches the leaves as they are now.
 */
module LearnedCache {
  import opened Geometry
  import opened LinearModel
  import opened Plr
  import opened Segment
  import opened Entries
  import opened LeafAllocator
  import opened Groups
  import opened Routing
  import opened Links
  import opened LeafTable
  import opened Serialization
  import opened SubModel
  import opened BinarySearch
  import opened Partition
  import opened TrainingRuns
  import opened Runs
  import R = Rolex
  import Region = ModelRegion

  datatype CachedModel = CachedModel(shape: ModelShape, leaves: seq<nat>)

  /** OutOfTable: the predicted upper bound is negative, so the bound check on the leaf table fails. */
  datatype Answer = Hit(val: Val) | Missed | OutOfTable

  // ---------- head leaves ----------

  ghost predicate HeadHolds(g: Group, key: Key) { g != [] && Lookup(g[0], key).Some? }

  /** The key is stored in a head leaf, not behind one. */
  ghost predicate InHead(gs: seq<Group>, key: Key) {
    exists k :: 0 <= k < |gs| && HeadHolds(gs[k], key)
  }

  /** A key in a head leaf is in the leaf that the window and the scan pick, with its current value. */
  lemma HeadIsPicked(gs: seq<Group>, m: Line, size: nat, key: Key, k: nat)
    requires TableOk(gs, m, size) && k < |gs| && HeadHolds(gs[k], key)
    ensures Window(m, key, size).0 <= k <= Window(m, key, size).1
    ensures Lookup(gs[k][0], key) == Lookup(Content(gs), key)
  {
    var p := JoinContains(gs[k], 0, Rank(gs[k][0], key));
    LookupFound(Join(gs[k]), p, key);
    StoredKeyIsPicked(gs, m, size, k, p);
    TableLookup(gs, m, size, key);
    assert InWindow(gs[k], k, m, size);
  }

  /** The remote offset of a leaf, as the cache computes it. */
  function RemoteLeafOffset(num: nat): nat { 8 * 2 + num * LEAF_BYTES }

  /** Local and remote offsets of a leaf are the same, so the remote read hits the leaf with that number. */
  lemma RemoteIsLocal(num: nat)
    ensures RemoteLeafOffset(num) == LeafOffset(num) && LeafNumber(RemoteLeafOffset(num)) == num
  {
    OffsetRoundTrip(num);
  }

  // ---------- what the cache's answers mean in the index ----------

  /** The responsible submodel predicts the key before its first leaf. */
  ghost predicate Unpredicted(index: R.Rolex, key: Key)
    requires index.Valid()
    reads index, index.Repr
  {
    exists i :: 0 <= i < |index.models| && Responsible(index.modelKeys, i, key) &&
                Underflows(index.models[i].model, key, index.models[i].capacity)
  }

  /** Some submodel stores the key in a head leaf. */
  ghost predicate HeadStored(index: R.Rolex, key: Key)
    requires index.Valid()
    reads index, index.Repr
  {
    exists i :: 0 <= i < |index.models| && index.Within(i) && InHead(index.models[i].ltable.Groups(index.alloc), key)
  }

  lemma OneUnpredicted(index: R.Rolex, i: nat, key: Key)
    requires index.Valid() && i < |index.models| == |index.modelKeys| && Responsible(index.modelKeys, i, key)
    ensures Unpredicted(index, key) <==> Underflows(index.models[i].model, key, index.models[i].capacity)
  {
    hide TableOk, GroupOk, Underflows, Sorted;
    assert StrictlyAscending(index.modelKeys);
    forall j | 0 <= j < |index.models| && Responsible(index.modelKeys, j, key) ensures j == i {
      OneResponsible(index.modelKeys, i, j, key);
    }
  }

  lemma WindowOf(index: R.Rolex, i: nat, key: Key)
    requires index.Valid() && i < |index.models|
    ensures var m := index.models[i];
            && m.capacity > 0 && |m.ltable.HeadNums()| == LeafCount(m.capacity)
            && Window(m.model, key, m.capacity).0 <= Window(m.model, key, m.capacity).1 < |m.ltable.HeadNums()|
            && (forall k :: 0 <= k < |m.ltable.HeadNums()| ==> m.ltable.HeadNums()[k] < index.alloc.used)
  {
    hide PartitionOk, GroupOk, NotStranded, InWindow, Content, Window, LeafCount;
    var m := index.models[i];
    assert index.Within(i) && m.Valid(index.alloc);
    WindowInTable(m.model, key, m.capacity);
    forall k | 0 <= k < |m.ltable.table| ensures m.ltable.HeadNums()[k] < index.alloc.used {
      m.ltable.EntryFacts(index.alloc, k);
    }
  }

  /** The head leaves of submodel i, as the cache numbers them. */
  lemma HeadLeaf(index: R.Rolex, i: nat, k: nat)
    requires index.Valid() && i < |index.models| && k < |index.models[i].ltable.table|
    ensures var lt := index.models[i].ltable;
            && index.Within(i) && lt.Valid(index.alloc) && k < |lt.HeadNums()|
            && lt.HeadNums()[k] < index.alloc.used && |lt.Groups(index.alloc)| == |lt.table|
            && lt.Groups(index.alloc)[k] != []
            && lt.Groups(index.alloc)[k][0] == index.alloc.pool[lt.HeadNums()[k]]
  {
    hide PartitionOk, GroupOk, TableOk;
    var m := index.models[i];
    assert index.Within(i) && m.Valid(index.alloc);
    m.ltable.EntryFacts(index.alloc, k);
  }

  /** A key found in a head leaf of the responsible submodel is inside the window and current. */
  lemma HitIsCurrent(index: R.Rolex, i: nat, key: Key, k: nat)
    requires index.Valid() && i < |index.models| && k < |index.models[i].ltable.HeadNums()|
    requires index.models[i].ltable.HeadNums()[k] < |index.alloc.pool|
    requires Lookup(index.alloc.pool[index.models[i].ltable.HeadNums()[k]], key).Some?
    ensures var m := index.models[i];
            && m.capacity > 0 && Window(m.model, key, m.capacity).0 <= k <= Window(m.model, key, m.capacity).1
    ensures index.Within(i) && InHead(index.models[i].ltable.Groups(index.alloc), key)
    ensures Lookup(index.alloc.pool[index.models[i].ltable.HeadNums()[k]], key) == Lookup(index.Parts()[i], key)
  {
    hide PartitionOk, GroupOk, Lookup, Content, Window;
    HeadLeaf(index, i, k);
    var m := index.models[i];
    var gs := m.ltable.Groups(index.alloc);
    assert m.Valid(index.alloc) && HeadHolds(gs[k], key);
    HeadIsPicked(gs, m.model, m.capacity, key, k);
  }

  lemma HeadFound(index: R.Rolex, i: nat, key: Key) returns (k: nat)
    requires index.Valid() && i < |index.models| && index.Within(i)
    requires InHead(index.models[i].ltable.Groups(index.alloc), key)
    ensures k < |index.models[i].ltable.HeadNums()| && index.models[i].ltable.HeadNums()[k] < |index.alloc.pool|
    ensures Lookup(index.alloc.pool[index.models[i].ltable.HeadNums()[k]], key).Some?
  {
    hide PartitionOk, GroupOk, TableOk, Lookup;
    var gs := index.models[i].ltable.Groups(index.alloc);
    k :| 0 <= k < |gs| && HeadHolds(gs[k], key);
    HeadLeaf(index, i, k);
  }

  /** What a scan of the window found, told in terms of the index. */
  lemma AnswerIsRight(index: R.Rolex, i: nat, key: Key, w: (nat, nat), r: Answer)
    requires index.Valid() && i < |index.models| && index.Within(i)
    requires var m, heads := index.models[i], index.models[i].ltable.HeadNums();
             && m.capacity > 0 && w == Window(m.model, key, m.capacity) && w.0 <= w.1 < |heads|
             && (forall k :: 0 <= k < |heads| ==> heads[k] < |index.alloc.pool|)
             && (r.Hit? ==> exists k :: w.0 <= k <= w.1 && Lookup(index.alloc.pool[heads[k]], key) == Some(r.val))
             && (r.Missed? ==> forall k :: w.0 <= k <= w.1 ==> Lookup(index.alloc.pool[heads[k]], key).None?)
    ensures r.Hit? ==> Lookup(index.Parts()[i], key) == Some(r.val)
    ensures r.Hit? ==> InHead(index.models[i].ltable.Groups(index.alloc), key)
    ensures r.Missed? ==> !InHead(index.models[i].ltable.Groups(index.alloc), key)
  {
    hide PartitionOk, TableOk, GroupOk, InHead, Lookup, Window;
    var heads := index.models[i].ltable.HeadNums();
    if r.Hit? {
      var k :| w.0 <= k <= w.1 && Lookup(index.alloc.pool[heads[k]], key) == Some(r.val);
      HitIsCurrent(index, i, key, k);
    } else if r.Missed? && InHead(index.models[i].ltable.Groups(index.alloc), key) {
      var k := HeadFound(index, i, key);
      HitIsCurrent(index, i, key, k);
    }
  }

  lemma StoredIsResponsible(index: R.Rolex, j: nat, key: Key)
    requires index.Valid() && j < |index.models| == |index.modelKeys| && index.Within(j)
    requires InHead(index.models[j].ltable.Groups(index.alloc), key)
    ensures Responsible(index.modelKeys, j, key)
  {
    hide TableOk, GroupOk, InHead, Sorted, Responsible;
    var k := HeadFound(index, j, key);
    HitIsCurrent(index, j, key, k);
    var e := index.Parts()[j];
    assert e[Rank(e, key)].key == key;
  }

  /** Only the responsible submodel can store the key. */
  lemma OneHeadStored(index: R.Rolex, i: nat, key: Key)
    requires index.Valid() && i < |index.models| == |index.modelKeys| && Responsible(index.modelKeys, i, key)
    ensures index.Within(i)
    ensures HeadStored(index, key) <==> InHead(index.models[i].ltable.Groups(index.alloc), key)
  {
    hide TableOk, GroupOk, InHead, Sorted;
    assert index.Within(i);
    forall j | 0 <= j < |index.models| && index.Within(j) && InHead(index.models[j].ltable.Groups(index.alloc), key)
      ensures j == i
    {
      StoredIsResponsible(index, j, key);
      OneResponsible(index.modelKeys, i, j, key);
    }
  }

  // ---------- reading the models of an index ----------

  /** The bit patterns of the index's lines name these lines again. */
  ghost predicate Faithful(index: R.Rolex, value: (nat, nat) -> Line)
    reads index
  {
    forall i :: 0 <= i < |index.models| ==>
      value(index.bits(index.models[i].model).0, index.bits(index.models[i].model).1) == index.models[i].model
  }

  /** The head leaf numbers in the words of a leaf table. */
  function HeadsOf(words: seq<nat>): (r: seq<nat>)
    ensures |r| == |words| && forall k :: 0 <= k < |r| ==> r[k] == WordEntry(words[k]).leafNum
  {
    seq(|words|, k requires 0 <= k < |words| => WordEntry(words[k]).leafNum)
  }

  /** What the cache keeps of a submodel it read. */
  function CachedOf(m: ModelImage, value: (nat, nat) -> Line): CachedModel {
    CachedModel(ModelShape(value(m.slope, m.icpt), m.capacity), HeadsOf(m.table.table))
  }

  /** The image of a submodel is read as the submodel it was made of. */
  lemma ImageIsRead(index: R.Rolex, value: (nat, nat) -> Line, i: nat)
    requires index.Intact() && Faithful(index, value) && i < |index.models|
    requires |index.alloc.leaves| <= LEAF_NUMS
    ensures index.Images()[i].key == index.modelKeys[i]
    ensures CachedOf(index.Images()[i].model, value) == CachedModel(index.Shapes()[i], index.HeadNums()[i])
  {
    hide GroupOk, WordEntry, EntryWord;
    index.ImageDecodes(i);
    var m, words := index.models[i], index.Images()[i].model.table.table;
    assert index.Within(i);
    forall k | 0 <= k < |words| ensures HeadsOf(words)[k] == m.ltable.HeadNums()[k] {
      assert WordEntries(words)[k] == m.ltable.table[k];
    }
    assert HeadsOf(words) == m.ltable.HeadNums();
  }

  class LearnedCache {
    var modelKeys: seq<Key>
    var models: seq<CachedModel>

    /** The cache agrees with the index on everything it copied. */
    ghost predicate Mirrors(index: R.Rolex)
      requires index.Intact()
      reads this, index, index.Repr
    {
      && modelKeys == index.modelKeys && |models| == |index.models|
      && forall i :: 0 <= i < |models| ==> models[i] == CachedModel(index.Shapes()[i], index.HeadNums()[i])
    }

    /** No operation of the index makes the copy stale. */
    twostate lemma StillMirrors(index: R.Rolex)
      requires old(index.Intact()) && old(Mirrors(index)) && index.Intact()
      requires unchanged(this) && unchanged(index) && index.HeadNums() == old(index.HeadNums())
      ensures Mirrors(index)
    {
    }

    /** Reads upper keys and submodels from a model region, whoever wrote it. */
    constructor (region: Region.ModelAllocator, value: (nat, nat) -> Line)
      requires region.Valid() && region.Counted()
      ensures |modelKeys| == |models| == |region.list|
      ensures forall i :: 0 <= i < |models| ==>
                modelKeys[i] == region.list[i].key && models[i] == CachedOf(region.list[i].model, value)
    {
      hide Region.Image, CachedOf;
      region.KeysFit();
      var list := region.ReadRemoteIndex();
      modelKeys := seq(|list|, i requires 0 <= i < |list| => list[i].key);
      models := seq(|list|, i requires 0 <= i < |list| => CachedOf(list[i].model, value));
    }

    /** A cache read from the region that an index recorded itself in agrees with that index. */
    lemma ReadMirrors(index: R.Rolex, value: (nat, nat) -> Line)
      requires index.Intact() && index.Recorded() && Faithful(index, value)
      requires |index.alloc.leaves| <= LEAF_NUMS
      requires |modelKeys| == |models| == |index.region.list|
      requires forall i :: 0 <= i < |models| ==>
                 && modelKeys[i] == index.region.list[i].key
                 && models[i] == CachedOf(index.region.list[i].model, value)
      ensures Mirrors(index)
    {
      hide R.Rolex.Images, R.Rolex.Shapes, R.Rolex.HeadNums, CachedOf, Faithful, Region.ModelAllocator.Valid, TableOk;
      forall i | 0 <= i < |models|
        ensures modelKeys[i] == index.modelKeys[i]
        ensures models[i] == CachedModel(index.Shapes()[i], index.HeadNums()[i])
      {
        ImageIsRead(index, value, i);
      }
    }

    method ModelForKey(key: Key) returns (i: nat)
      requires |models| == |modelKeys| >= 2 && StrictlyAscending(modelKeys)
      ensures i < |models| && Responsible(modelKeys, i, key)
    {
      var idx := BinarySearchBranchless(modelKeys, key);
      i := if idx < |models| then idx else |models| - 1;
    }

    /** Looks for the key in the leaves of the window, last one first, and tells which offsets it read. */
    static method ReadLeaves(leaves: seq<nat>, key: Key, lo: nat, hi: nat, alloc: LeafAllocator)
      returns (r: Answer, offs: seq<nat>)
      requires alloc.Valid() && lo <= hi < |leaves| && key < INVALID_KEY
      requires forall k :: 0 <= k < |leaves| ==> leaves[k] < alloc.used
      ensures r.Missed? || r.Hit?
      ensures r.Hit? ==> exists k :: lo <= k <= hi && Lookup(alloc.pool[leaves[k]], key) == Some(r.val)
      ensures r.Missed? ==> forall k :: lo <= k <= hi ==> Lookup(alloc.pool[leaves[k]], key).None?
      ensures 1 <= |offs| <= hi - lo + 1 && (r.Missed? ==> |offs| == hi - lo + 1)
      ensures forall j :: 0 <= j < |offs| ==> offs[j] == RemoteLeafOffset(leaves[hi - j])
      ensures forall k :: hi - |offs| + 1 < k <= hi ==> Lookup(alloc.pool[leaves[k]], key).None?
      ensures r.Hit? ==> Lookup(alloc.pool[leaves[hi - |offs| + 1]], key) == Some(r.val)
    {
      hide Lookup, LeafAllocator.Valid, RemoteLeafOffset, LeafNumber;
      var i: int := hi;
      offs := [];
      while i >= lo
        invariant lo - 1 <= i <= hi && |offs| == hi - i
        invariant forall j :: 0 <= j < |offs| ==> offs[j] == RemoteLeafOffset(leaves[hi - j])
        invariant forall k :: i < k <= hi ==> Lookup(alloc.pool[leaves[k]], key).None?
      {
        RemoteIsLocal(leaves[i]);
        offs := offs + [RemoteLeafOffset(leaves[i])];
        var found := alloc.SearchAt(RemoteLeafOffset(leaves[i]), key);
        if found.Some? {
          return Hit(found.value), offs;
        }
        i := i - 1;
      }
      return Missed, offs;
    }

    /**
     Search through the cache in any later state of the index: a hit is the current value, and
     exactly the keys in head leaves hit, unless the window lies before the table. No more than
     three leaves are read.
     */
    method Search(key: Key, index: R.Rolex) returns (r: Answer, offs: seq<nat>)
      requires index.Valid() && |index.models| >= 2 && Mirrors(index) && key < INVALID_KEY
      ensures r.OutOfTable? <==> Unpredicted(index, key)
      ensures r.Hit? ==> Lookup(index.Contents(), key) == Some(r.val)
      ensures r.Hit? <==> !Unpredicted(index, key) && HeadStored(index, key)
      ensures |offs| <= 3 && (offs == [] <==> r.OutOfTable?)
    {
      hide PartitionOk, TableOk, Lookup, Join, LeafTable.Valid, Responsible, Window, LeafCount, Content, Predict;
      hide Underflows, RemoteLeafOffset, HeadStored, Unpredicted, InHead;
      index.ValidParts();
      index.KeysAscend();
      var i := ModelForKey(key);
      var c := models[i];
      OneUnpredicted(index, i, key);
      if Underflows(c.shape.line, key, c.shape.capacity) {
        return OutOfTable, [];
      }
      WindowOf(index, i, key);
      PredictWidth(c.shape.line, key, c.shape.capacity);
      var w := Window(c.shape.line, key, c.shape.capacity);
      r, offs := ReadLeaves(c.leaves, key, w.0, w.1, index.alloc);
      PartLookup(index.Parts(), index.modelKeys, i, key);
      OneHeadStored(index, i, key);
      AnswerIsRight(index, i, key, w, r);
    }
  }

  // ---------- from training on ----------

  lemma PickedHolds(m: SubModel, alloc: LeafAllocator, key: Key)
    requires m.Valid(alloc) && Lookup(m.Entries(alloc), key).Some?
    ensures var gs := m.ltable.Groups(alloc);
            && m.capacity > 0 && |gs| == LeafCount(m.capacity) && (forall j :: 0 <= j < |gs| ==> gs[j] != [])
            && Lookup(Join(gs[Pick(gs, m.model, m.capacity, key)]), key).Some?
  {
    hide GroupOk, InWindow, NotStranded, Lookup, Content;
    TableLookup(m.ltable.Groups(alloc), m.model, m.capacity, key);
  }

  /** While no entry has synonym leaves, every stored key is in a head leaf. */
  lemma FlatStored(index: R.Rolex, i: nat, key: Key)
    requires index.Valid() && index.NoSynonyms() && i < |index.models| == |index.modelKeys|
    requires Responsible(index.modelKeys, i, key) && Lookup(index.Contents(), key).Some?
    ensures HeadStored(index, key)
  {
    hide TableOk, GroupOk, Sorted, Responsible;
    var m, alloc := index.models[i], index.alloc;
    assert index.Within(i) && m.Valid(alloc);
    PartLookup(index.Parts(), index.modelKeys, i, key);
    PickedHolds(m, alloc, key);
    var k := Pick(m.ltable.Groups(alloc), m.model, m.capacity, key);
    m.ltable.EntryFacts(alloc, k);
    assert m.ltable.table[k].synonymLeaf == 0;
    JoinOne(m.ltable.Groups(alloc)[k]);
  }

  lemma SomeResponsible(mk: seq<Key>, key: Key) returns (i: nat)
    requires StrictlyAscending(mk) && mk != []
    ensures i < |mk| && Responsible(mk, i, key)
  {
    i := 0;
    while i < |mk| - 1 && mk[i] < key
      invariant i < |mk| && forall j :: 0 <= j < i ==> mk[j] < key
    {
      i := i + 1;
    }
  }

  /** Straight after training, each trained key is predicted into the table and found in a head leaf. */
  lemma TrainedIsReachable(index: R.Rolex, keys: seq<Key>, r: nat)
    requires index.Valid() && index.NoSynonyms() && |index.models| == |index.modelKeys| > 0
    requires Reaches(index.Shapes(), index.modelKeys, keys) && r < |keys|
    requires Lookup(index.Contents(), keys[r]).Some?
    ensures !Unpredicted(index, keys[r]) && HeadStored(index, keys[r])
  {
    hide PartitionOk, TableOk, Lookup, Underflows, R.Rolex.NoSynonyms;
    index.KeysAscend();
    var i := SomeResponsible(index.modelKeys, keys[r]);
    OneUnpredicted(index, i, keys[r]);
    FlatStored(index, i, keys[r]);
  }

  /** Whether the window of a key reaches the table never changes: lines and sizes are fixed by training. */
  lemma StillPredicted(index: R.Rolex, keys: seq<Key>, r: nat)
    requires index.Valid() && |index.models| == |index.modelKeys| > 0
    requires Reaches(index.Shapes(), index.modelKeys, keys) && r < |keys|
    ensures !Unpredicted(index, keys[r])
  {
    hide PartitionOk, TableOk, Underflows;
    index.KeysAscend();
    var i := SomeResponsible(index.modelKeys, keys[r]);
    OneUnpredicted(index, i, keys[r]);
  }

  /**
   However the lines were chosen: a key far enough below the first run, if that run has more than 63
   keys, is predicted before the table.
   */
  lemma FarUnpredicted(index: R.Rolex, keys: seq<Key>, key: Key)
    requires index.Valid() && |index.models| == |index.modelKeys| > 0 && |keys| <= MAX_Y && Increasing(keys)
    requires Greedy(index.Shapes(), index.modelKeys, keys)
    requires var b := index.models[0].capacity;
             && 1 < b <= |keys| && key < keys[0]
             && (b - 1 - (2 * EPSILON - 2)) * (keys[0] - key) >= (2 * EPSILON + 2) * (keys[b - 1] - keys[0])
    ensures Unpredicted(index, key)
  {
    hide PartitionOk, TableOk, Underflows, Fits, RankBands, Fittable, Middle, R.Rolex.Intact;
    var b := index.models[0].capacity;
    assert CutAt(index.Shapes(), index.modelKeys, keys, 0);
    assert StartOf(index.Shapes(), 1) == b && keys[0..b][b - 1] == keys[b - 1];
    FarBelow(index.models[0].model, keys[0..b], b - 1, key);
    assert Responsible(index.modelKeys, 0, key);
  }

  /** A cache read from the region that training filled. */
  method CacheOf(index: R.Rolex, value: (nat, nat) -> Line) returns (cache: LearnedCache)
    requires index.Valid() && index.NoSynonyms() && index.Recorded() && index.region.Counted()
    requires Faithful(index, value) && |index.alloc.leaves| <= LEAF_NUMS
    ensures fresh(cache) && index.Intact() && cache.Mirrors(index)
  {
    hide R.Rolex.Images, R.Rolex.NoSynonyms, R.Rolex.Sound, R.Rolex.Valid, Faithful, CachedOf, LearnedCache.Mirrors;
    index.ValidIntact();
    index.RecordSafe();
    cache := new LearnedCache(index.region, value);
    cache.ReadMirrors(index, value);
  }

  /** A cache that mirrors the index still does after any run, and answers from the leaves as they are then. */
  method CacheAfterRun(cache: LearnedCache, index: R.Rolex, keys: seq<Key>, r: nat, ops: seq<Op>)
    returns (outs: seq<Outcome>, ghost states: seq<State>, after: Answer)
    requires index.Valid() && index.Intact() && cache.Mirrors(index) && cache !in index.Repr
    requires |index.models| == |index.modelKeys| >= 2
    requires Reaches(index.Shapes(), index.modelKeys, keys) && r < |keys| && keys[r] < INVALID_KEY
    requires forall i :: 0 <= i < |ops| ==> ops[i].key < INVALID_KEY
    modifies index.Repr
    ensures index.Valid()
    ensures |outs| <= |ops| && RunExplained(index.modelKeys, ops[..|outs|], outs, states)
    ensures states[0] == old(StateOf(index)) && states[|outs|] == StateOf(index)
    ensures |outs| < |ops| ==>
              || (ops[|outs|].Remove? && index.WouldStrand(ops[|outs|].key))
              || (ops[|outs|].Insert? && index.alloc.used == |index.alloc.leaves| && index.Splits(ops[|outs|].key))
    ensures if HeadStored(index, keys[r]) then after.Hit? && Some(after.val) == Lookup(index.Contents(), keys[r])
            else after == Missed
  {
    hide R.Rolex.Sound, R.Rolex.Intact, R.Rolex.Contents, R.Rolex.HeadNums, R.Rolex.Shapes, R.Rolex.Valid;
    hide Reaches, Lookup, HeadStored, Unpredicted, LearnedCache.Mirrors, RunExplained, StateOf, R.Rolex.WouldStrand;
    hide R.Rolex.Splits;
    index.ValidIntact();
    label L:
    outs, states := Run(index, ops);
    index.ValidIntact();
    cache.StillMirrors@L(index);
    StillPredicted(index, keys, r);
    var offs;
    after, offs := cache.Search(keys[r], index);
  }

  /**
   A cache read after training, used before and after any run on the index: at first it answers
   for every trained key; later exactly for those that are still in a head leaf, always with the
   value of the moment.
   */
  method CacheThroughRun(index: R.Rolex, value: (nat, nat) -> Line, keys: seq<Key>, r: nat, ops: seq<Op>)
    returns (before: Answer, outs: seq<Outcome>, ghost states: seq<State>, after: Answer)
    requires index.Valid() && index.NoSynonyms() && index.Recorded() && index.region.Counted()
    requires Faithful(index, value) && |index.alloc.leaves| <= LEAF_NUMS
    requires |index.models| == |index.modelKeys| >= 2
    requires Reaches(index.Shapes(), index.modelKeys, keys) && r < |keys| && keys[r] < INVALID_KEY
    requires Lookup(index.Contents(), keys[r]).Some?
    requires forall i :: 0 <= i < |ops| ==> ops[i].key < INVALID_KEY
    modifies index.Repr
    ensures index.Valid() && before.Hit? && Some(before.val) == Lookup(old(index.Contents()), keys[r])
    ensures |outs| <= |ops| && RunExplained(index.modelKeys, ops[..|outs|], outs, states)
    ensures states[0] == old(StateOf(index)) && states[|outs|] == StateOf(index)
    ensures |outs| < |ops| ==>
              || (ops[|outs|].Remove? && index.WouldStrand(ops[|outs|].key))
              || (ops[|outs|].Insert? && index.alloc.used == |index.alloc.leaves| && index.Splits(ops[|outs|].key))
    ensures if HeadStored(index, keys[r]) then after.Hit? && Some(after.val) == Lookup(index.Contents(), keys[r])
            else after == Missed
  {
    hide R.Rolex.Sound, R.Rolex.Intact, R.Rolex.NoSynonyms, R.Rolex.Contents, R.Rolex.HeadNums, R.Rolex.Shapes;
    hide R.Rolex.Valid, Reaches, Lookup, HeadStored, Unpredicted, LearnedCache.Mirrors, Faithful, RunExplained, StateOf;
    hide R.Rolex.WouldStrand, R.Rolex.Splits;
    index.ValidIntact();
    var cache := CacheOf(index, value);
    TrainedIsReachable(index, keys, r);
    var offs;
    before, offs := cache.Search(keys[r], index);
    outs, states, after := CacheAfterRun(cache, index, keys, r, ops);
  }
}

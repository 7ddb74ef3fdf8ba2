/** A submodel: the linear model of one trained segment and the leaf table it routes into. */
module SubModel {
  import opened Geometry
  import opened LinearModel
  import opened Entries
  import opened Leaf
  import opened LeafAllocator
  import opened Groups
  import opened Routing
  import opened Links
  import opened LeafTable
  import opened Serialization

  ghost function Pairs(keys: seq<Key>, vals: seq<Val>): (r: seq<Entry>)
    requires |keys| == |vals|
    ensures |r| == |keys| && forall i :: 0 <= i < |keys| ==> r[i] == Entry(keys[i], vals[i])
  {
    seq(|keys|, i requires 0 <= i < |keys| => Entry(keys[i], vals[i]))
  }

  ghost predicate Increasing(keys: seq<Key>) {
    && (forall i, j :: 0 <= i < j < |keys| ==> keys[i] < keys[j])
    && (forall i :: 0 <= i < |keys| ==> keys[i] < INVALID_KEY)
  }

  /** The model's window of each trained key contains the leaf of the key's rank. */
  ghost predicate Predicts(m: Line, keys: seq<Key>) {
    && m.slope >= 0.0
    && forall r :: 0 <= r < |keys| ==> WindowHolds(m, |keys|, keys[r], r / SLOTS) && !Underflows(m, keys[r], |keys|)
  }

  // ---------- what training lays out ----------

  function Least(a: nat, b: nat): nat { if a < b then a else b }

  /** The k-th leaf-sized piece. */
  ghost function Chunk(e: seq<Entry>, k: nat): seq<Entry> {
    e[Least(k * SLOTS, |e|)..Least((k + 1) * SLOTS, |e|)]
  }

  ghost function Chunks(e: seq<Entry>, t: nat): (r: seq<seq<Entry>>)
    ensures |r| == t && forall k :: 0 <= k < t ==> r[k] == Chunk(e, k)
  {
    seq(t, k requires 0 <= k => Chunk(e, k))
  }

  lemma {:induction false} JoinChunks(e: seq<Entry>, t: nat)
    ensures Join(Chunks(e, t)) == e[..Least(t * SLOTS, |e|)]
  {
    if t > 0 {
      JoinChunks(e, t - 1);
      assert Chunks(e, t) == Chunks(e, t - 1) + [Chunk(e, t - 1)];
      JoinAppend(Chunks(e, t - 1), [Chunk(e, t - 1)]);
      JoinOne([Chunk(e, t - 1)]);
    }
  }

  /** One more entry lengthens the last chunk only. */
  lemma ChunkGrows(e: seq<Entry>, x: Entry, k: nat, t: nat)
    requires k < t && (t - 1) * SLOTS <= |e| < t * SLOTS
    ensures Chunk(e + [x], k) == if k == t - 1 then Chunk(e, k) + [x] else Chunk(e, k)
    ensures |Chunk(e, t - 1)| == |e| - (t - 1) * SLOTS
  {
    if k < t - 1 {
      assert (k + 1) * SLOTS <= |e|;
      assert (e + [x])[k * SLOTS..(k + 1) * SLOTS] == e[k * SLOTS..(k + 1) * SLOTS];
    } else {
      assert Chunk(e, k) == e[k * SLOTS..];
      assert Chunk(e + [x], k) == (e + [x])[k * SLOTS..];
    }
  }

  /** One trained leaf per group. */
  ghost function Fresh(e: seq<Entry>, t: nat): (gs: seq<Group>)
    ensures |gs| == t && forall k :: 0 <= k < t ==> gs[k] == [Chunk(e, k)]
  {
    seq(t, k requires 0 <= k => [Chunk(e, k)])
  }

  lemma FreshGroupOk(m: Line, size: nat, g: Group, k: nat)
    requires size > 0 && |g| == 1 && g[0] != [] && LeafOk(g[0]) && Join(g) == g[0]
    requires forall p :: 0 <= p < |g[0]| ==> WindowHolds(m, size, g[0][p].key, k)
    ensures GroupOk(g) && NotStranded(g) && InWindow(g, k, m, size)
  {
    forall p | 0 <= p < |Join(g)|
      ensures Window(m, Join(g)[p].key, size).0 <= k <= Window(m, Join(g)[p].key, size).1
    {
      assert WindowHolds(m, size, g[0][p].key, k);
    }
  }

  lemma ChunkOk(keys: seq<Key>, e: seq<Entry>, k: nat)
    requires |keys| == |e| > 0 && Increasing(keys) && k < LeafCount(|keys|)
    requires forall i :: 0 <= i < |keys| ==> e[i].key == keys[i]
    ensures Chunk(e, k) != [] && LeafOk(Chunk(e, k))
    ensures |Chunk(e, k)| <= SLOTS && k * SLOTS + |Chunk(e, k)| <= |e|
    ensures forall p :: 0 <= p < |Chunk(e, k)| ==> Chunk(e, k)[p].key == keys[k * SLOTS + p]
  {
    var c := Chunk(e, k);
    assert k * SLOTS < |e|;
    assert forall p :: 0 <= p < |c| ==> c[p] == e[k * SLOTS + p];
  }

  lemma ChunkInWindow(m: Line, keys: seq<Key>, e: seq<Entry>, k: nat)
    requires |keys| == |e| > 0 && Increasing(keys) && Predicts(m, keys) && k < LeafCount(|keys|)
    requires forall i :: 0 <= i < |keys| ==> e[i].key == keys[i]
    ensures var c := Chunk(e, k);
            && c != [] && LeafOk(c)
            && forall p :: 0 <= p < |c| ==> WindowHolds(m, |keys|, c[p].key, k)
  {
    hide Chunk, WindowHolds, Underflows, LeafOk, LeafCount, Increasing;
    ChunkOk(keys, e, k);
    var c := Chunk(e, k);
    forall p | 0 <= p < |c| ensures WindowHolds(m, |keys|, c[p].key, k) {
      var r := k * SLOTS + p;
      assert r / SLOTS == k;
      assert WindowHolds(m, |keys|, keys[r], r / SLOTS);
    }
  }

  /** The trained layout is in order, whatever the line. */
  lemma FreshInOrder(keys: seq<Key>, vals: seq<Val>)
    requires |keys| == |vals| > 0 && Increasing(keys)
    ensures var e, t := Pairs(keys, vals), LeafCount(|keys|); var gs := Fresh(e, t);
            && Content(gs) == e && Sorted(e)
            && forall k :: 0 <= k < t ==> GroupOk(gs[k]) && Join(gs[k]) == gs[k][0]
  {
    var e, t := Pairs(keys, vals), LeafCount(|keys|);
    var gs := Fresh(e, t);
    forall k | 0 <= k < t ensures Join(gs[k]) == Chunk(e, k) {
      JoinOne([Chunk(e, k)]);
    }
    assert Contents(gs) == Chunks(e, t);
    JoinChunks(e, t);
    assert t * SLOTS >= |e|;
    hide Chunk, LeafCount, Join;
    forall k | 0 <= k < t ensures GroupOk(gs[k]) {
      ChunkOk(keys, e, k);
    }
  }

  /** The trained layout is in order and routes every trained key to its leaf. */
  lemma FreshOk(m: Line, keys: seq<Key>, vals: seq<Val>)
    requires |keys| == |vals| > 0 && Increasing(keys) && Predicts(m, keys)
    ensures var e, t := Pairs(keys, vals), LeafCount(|keys|);
            TableOk(Fresh(e, t), m, |keys|) && Content(Fresh(e, t)) == e
  {
    hide Chunk, Window, Predict, LeafCount, Join, WindowHolds, Underflows, Content;
    var e, t := Pairs(keys, vals), LeafCount(|keys|);
    var gs := Fresh(e, t);
    FreshInOrder(keys, vals);
    forall k | 0 <= k < t ensures GroupOk(gs[k]) && NotStranded(gs[k]) && InWindow(gs[k], k, m, |keys|) {
      ChunkInWindow(m, keys, e, k);
      FreshGroupOk(m, |keys|, gs[k], k);
    }
  }

  /** Rank r sits at slot r mod SLOTS of leaf r / SLOTS. */
  lemma RankPlace(keys: seq<Key>, vals: seq<Val>, r: nat)
    requires |keys| == |vals| && r < |keys|
    ensures var gs := Fresh(Pairs(keys, vals), LeafCount(|keys|));
            && r / SLOTS < |gs| && r % SLOTS < |gs[r / SLOTS][0]|
            && gs[r / SLOTS][0][r % SLOTS] == Entry(keys[r], vals[r])
  {
    assert r == r / SLOTS * SLOTS + r % SLOTS;
    assert (r / SLOTS + 1) * SLOTS > r;
  }

  // ---------- filling the leaves ----------

  /** The table while it is trained: one entry per leaf from base on, no synonym leaves. */
  ghost predicate Shape(table: seq<TableEntry>, chains: seq<seq<nat>>, nums: seq<seq<nat>>, base: nat, t: nat) {
    && |table| == |chains| == |nums| == t
    && forall k :: 0 <= k < t ==> table[k] == TableEntry(base + k, 0) && chains[k] == [] && nums[k] == [base + k]
  }

  ghost predicate Filled(pool: seq<seq<Entry>>, base: nat, e: seq<Entry>, t: nat) {
    base + t <= |pool| && forall k :: 0 <= k < t ==> pool[base + k] == Chunk(e, k)
  }

  lemma ShapeLinked(table: seq<TableEntry>, syn: seq<TableEntry>, chains: seq<seq<nat>>, nums: seq<seq<nat>>,
                    pool: seq<seq<Entry>>, base: nat, t: nat, e: seq<Entry>, used: nat)
    requires Shape(table, chains, nums, base, t) && Filled(pool, base, e, t) && base + t <= used
    requires |syn| == SYNONYM_MAX && syn[0].leafNum == 1 && SlotsBounded(syn, 0)
    ensures Linked(table, syn, chains, nums, used)
    ensures InUse(nums, |pool|) && GroupsOf(nums, pool) == Fresh(e, t)
  {
    forall i | 0 <= i < t ensures ChainOk(table[i], chains[i], nums[i], syn) {
    }
    hide Chunk;
    GroupsEqual(GroupsOf(nums, pool), Fresh(e, t));
  }

  /** Appending at the end is insertion of a largest key. */
  lemma InsertLargest(l: seq<Entry>, key: Key, val: Val)
    requires AllBelow(l, key)
    ensures Inserted(l, key, val) == l + [Entry(key, val)] && Lookup(l, key).None?
  {
    assert Rank(l, key) == |l|;
  }

  lemma NextChunk(pool: seq<seq<Entry>>, base: nat, e: seq<Entry>, t: nat, key: Key, val: Val)
    requires Filled(pool, base, e, t) && t > 0 && (t - 1) * SLOTS <= |e| < t * SLOTS && AllBelow(e, key)
    ensures var l := pool[base + t - 1];
            && |l| < SLOTS && Lookup(l, key).None?
            && Filled(pool[base + t - 1 := Inserted(l, key, val)], base, e + [Entry(key, val)], t)
  {
    var l := pool[base + t - 1];
    var x := Entry(key, val);
    ChunkGrows(e, x, t - 1, t);
    InsertLargest(l, key, val);
    var pool' := pool[base + t - 1 := Inserted(l, key, val)];
    forall k | 0 <= k < t ensures pool'[base + k] == Chunk(e + [x], k) {
      ChunkGrows(e, x, k, t);
    }
  }

  lemma NewChunk(pool: seq<seq<Entry>>, base: nat, e: seq<Entry>, t: nat)
    requires Filled(pool, base, e, t) && base + t < |pool| && pool[base + t] == [] && |e| <= t * SLOTS
    ensures Filled(pool, base, e, t + 1)
  {
    assert Chunk(e, t) == [];
  }

  /** What the filling loop keeps: entries e in t leaves from base on. */
  ghost predicate Filling(lt: LeafTable, alloc: LeafAllocator, base: nat, t: nat, e: seq<Entry>)
    reads lt, lt.synonymTable, alloc, alloc.Repr
  {
    && alloc.Valid() && alloc.used == base + t && t > 0
    && lt.synonymTable.Length == SYNONYM_MAX && lt.synonymTable[0].leafNum == 1
    && SlotsBounded(lt.synonymTable[..], 0)
    && Shape(lt.table, lt.chains, lt.nums, base, t)
    && (forall n :: n in lt.owned <==> base <= n < base + t)
    && Filled(alloc.pool, base, e, t)
  }

  lemma ShapeNext(table: seq<TableEntry>, chains: seq<seq<nat>>, nums: seq<seq<nat>>, base: nat, t: nat)
    requires Shape(table, chains, nums, base, t)
    ensures Shape(table + [TableEntry(base + t, 0)], chains + [[]], nums + [[base + t]], base, t + 1)
  {
  }

  lemma LastChunkSize(pool: seq<seq<Entry>>, base: nat, e: seq<Entry>, t: nat)
    requires Filled(pool, base, e, t) && t > 0 && (t - 1) * SLOTS <= |e| <= t * SLOTS
    ensures |pool[base + t - 1]| == |e| - (t - 1) * SLOTS
  {
    var k := t - 1;
    assert pool[base + k] == Chunk(e, k);
  }

  /** One entry: into the current leaf, or into a new one when that is full. */
  method FillNext(lt: LeafTable, alloc: LeafAllocator, cur: nat, key: Key, val: Val,
                  ghost base: nat, ghost t: nat, ghost e: seq<Entry>)
    returns (cur': nat, ghost t': nat)
    requires Filling(lt, alloc, base, t, e) && cur == base + t - 1
    requires lt !in alloc.Repr && lt.synonymTable !in alloc.Repr
    requires (t - 1) * SLOTS <= |e| <= t * SLOTS && AllBelow(e, key) && key < INVALID_KEY
    requires |e| == t * SLOTS ==> alloc.used < |alloc.leaves|
    modifies lt, alloc.Repr
    ensures Filling(lt, alloc, base, t', e + [Entry(key, val)]) && cur' == base + t' - 1
    ensures t' == if |e| == t * SLOTS then t + 1 else t
    ensures |alloc.pool| == old(|alloc.pool|)
    ensures forall n :: 0 <= n < base ==> alloc.pool[n] == old(alloc.pool)[n]
  {
    hide Chunk, Lookup, Inserted, Shape, Filled, AllBelow;
    cur', t' := cur, t;
    LastChunkSize(alloc.pool, base, e, t);
    if alloc.IsFullIn(cur) {
      NewChunk(alloc.pool, base, e, t);
      ShapeNext(lt.table, lt.chains, lt.nums, base, t);
      cur' := alloc.FetchNewLeaf();
      var size := lt.TrainEmplaceBack(cur');
      t' := t + 1;
    }
    NextChunk(alloc.pool, base, e, t', key, val);
    alloc.InsertIn(cur', key, val);
  }

  lemma FillDone(lt: LeafTable, alloc: LeafAllocator, base: nat, t: nat, e: seq<Entry>)
    requires alloc.Valid() && lt !in alloc.Repr && lt.synonymTable !in alloc.Repr && alloc.used == base + t
    requires lt.synonymTable.Length == SYNONYM_MAX && lt.synonymTable[0].leafNum == 1
    requires SlotsBounded(lt.synonymTable[..], 0)
    requires Shape(lt.table, lt.chains, lt.nums, base, t) && Filled(alloc.pool, base, e, t)
    requires forall n :: n in lt.owned <==> base <= n < base + t
    ensures lt.Grounded(alloc) && lt.Groups(alloc) == Fresh(e, t)
    ensures forall k :: 0 <= k < |lt.table| ==> lt.table[k].synonymLeaf == 0
  {
    ShapeLinked(lt.table, lt.synonymTable[..], lt.chains, lt.nums, alloc.pool, base, t, e, alloc.used);
    assert OwnedOk(lt.nums, lt.owned, alloc.used);
  }

  lemma FirstChunk(pool: seq<seq<Entry>>, base: nat, keys: seq<Key>, vals: seq<Val>)
    requires |keys| == |vals| && base < |pool| && pool[base] == []
    ensures Filled(pool, base, Pairs(keys[..0], vals[..0]), 1)
  {
    NewChunk(pool, base, [], 0);
    assert Pairs(keys[..0], vals[..0]) == [];
  }

  lemma ShapeStart(table: seq<TableEntry>, chains: seq<seq<nat>>, nums: seq<seq<nat>>, base: nat)
    requires table == [TableEntry(base, 0)] && chains == [[]] && nums == [[base]]
    ensures Shape(table, chains, nums, base, 1)
  {
  }

  lemma PairsNext(keys: seq<Key>, vals: seq<Val>, i: nat)
    requires |keys| == |vals| && i < |keys| && Increasing(keys)
    ensures |Pairs(keys[..i], vals[..i])| == i && AllBelow(Pairs(keys[..i], vals[..i]), keys[i])
    ensures Pairs(keys[..i + 1], vals[..i + 1]) == Pairs(keys[..i], vals[..i]) + [Entry(keys[i], vals[i])]
    ensures keys[i] < INVALID_KEY
  {
  }

  method Fill(lt: LeafTable, keys: seq<Key>, vals: seq<Val>, alloc: LeafAllocator)
    requires |keys| == |vals| > 0 && Increasing(keys)
    requires alloc.Valid() && alloc.used + LeafCount(|keys|) <= |alloc.leaves|
    requires lt !in alloc.Repr && lt.synonymTable !in alloc.Repr
    requires lt.table == [] && lt.chains == [] && lt.nums == [] && lt.owned == {}
    requires lt.synonymTable.Length == SYNONYM_MAX && lt.synonymTable[0].leafNum == 1
    requires SlotsBounded(lt.synonymTable[..], 0)
    modifies lt, alloc.Repr
    ensures unchanged(lt.synonymTable)
    ensures lt.Grounded(alloc) && lt.Groups(alloc) == Fresh(Pairs(keys, vals), LeafCount(|keys|))
    ensures alloc.used == old(alloc.used) + LeafCount(|keys|)
    ensures |alloc.pool| == old(|alloc.pool|)
    ensures forall n :: 0 <= n < old(alloc.used) ==> alloc.pool[n] == old(alloc.pool)[n]
    ensures forall n :: n in lt.owned ==> n >= old(alloc.used)
    ensures forall k :: 0 <= k < |lt.table| ==> lt.table[k].synonymLeaf == 0
  {
    hide Chunk, Lookup, Inserted, Shape, Filled, Pairs, Increasing, AllBelow;
    ghost var base, t := alloc.used, 1;
    var cur := alloc.FetchNewLeaf();
    var size := lt.TrainEmplaceBack(cur);
    FirstChunk(alloc.pool, base, keys, vals);
    ShapeStart(lt.table, lt.chains, lt.nums, base);
    for i := 0 to |keys|
      invariant Filling(lt, alloc, base, t, Pairs(keys[..i], vals[..i])) && cur == base + t - 1
      invariant (t - 1) * SLOTS <= i <= t * SLOTS && (i > 0 ==> (t - 1) * SLOTS < i)
      invariant |alloc.pool| == old(|alloc.pool|)
      invariant forall n :: 0 <= n < base ==> alloc.pool[n] == old(alloc.pool)[n]
    {
      PairsNext(keys, vals, i);
      cur, t := FillNext(lt, alloc, cur, keys[i], vals[i], base, t, Pairs(keys[..i], vals[..i]));
    }
    assert keys[..|keys|] == keys && vals[..|vals|] == vals;
    assert t == LeafCount(|keys|);
    FillDone(lt, alloc, base, t, Pairs(keys, vals));
  }

  lemma InsertedIfAbsent(gs: seq<Group>, m: Line, size: nat, key: Key, val: Val)
    requires TableOk(gs, m, size) && key < INVALID_KEY
    ensures Lookup(Content(gs), key).None? ==>
              var i := Pick(gs, m, size, key); var gs' := gs[i := GroupInserted(gs[i], key, val)];
              TableOk(gs', m, size) && Content(gs') == Inserted(Content(gs), key, val)
  {
    if Lookup(Content(gs), key).None? { TableInserted(gs, m, size, key, val); }
  }

  /** A range may start at the picked group: nothing before it belongs to the range. */
  lemma TableRange(gs: seq<Group>, m: Line, size: nat, key: Key, n: nat)
    requires TableOk(gs, m, size)
    ensures Sorted(Content(gs))
    ensures RangeVals(Join(Contents(gs)[Pick(gs, m, size, key)..]), key, n) == RangeVals(Content(gs), key, n)
  {
    var i, cs := Pick(gs, m, size, key), Contents(gs);
    PickParts(gs, m, size, key);
    JoinCut(cs, 0, i, |cs|);
    assert cs[0..i] == cs[..i] && cs[i..|cs|] == cs[i..] && cs[0..|cs|] == cs;
    RangeSkips(Join(cs[..i]), Join(cs[i..]), key, n);
  }

  lemma CapacityBound(capacity: nat)
    ensures capacity <= SLOTS * LeafCount(capacity)
  {
  }

  class SubModel {
    const model: Line
    const capacity: nat
    const ltable: LeafTable

    /** Linked and ordered inside every group, but perhaps with stranded keys. */
    ghost predicate Sound(alloc: LeafAllocator)
      reads ltable, ltable.synonymTable, alloc, alloc.Repr
    {
      ltable.Valid(alloc) && capacity > 0 && |ltable.table| == LeafCount(capacity)
    }

    ghost predicate Valid(alloc: LeafAllocator)
      reads ltable, ltable.synonymTable, alloc, alloc.Repr
    {
      Sound(alloc) && TableOk(ltable.Groups(alloc), model, capacity)
    }

    /** The submodel as it is serialized; bits gives the bit patterns of slope and intercept. */
    function Image(bits: Line -> (Word, Word)): ModelImage
      reads ltable, ltable.synonymTable
    {
      var line := bits(model);
      ModelImage(line.0, line.1, capacity, TableImage(EntryWords(ltable.table), EntryWords(ltable.synonymTable[..])))
    }

    /** The image fits its fields if its bytes can be counted. */
    lemma ImageFits(bits: Line -> (Word, Word), alloc: LeafAllocator)
      requires Valid(alloc) && |ModelBytes(Image(bits))| <= MAX_COUNT
      ensures ModelFits(Image(bits))
    {
      hide GroupOk, Content, Linked, InUse, OwnedOk, Encode, EncodeAll;
      ltable.SlotCount(alloc);
      CapacityBound(capacity);
    }

    /** Everything stored in this submodel, in key order. */
    ghost function Entries(alloc: LeafAllocator): seq<Entry>
      requires ltable.Valid(alloc)
      reads ltable, ltable.synonymTable, alloc, alloc.Repr
    {
      Content(ltable.Groups(alloc))
    }

    /** Trains a submodel: its keys fill fresh leaves from left to right; a line that predicts them routes to them. */
    constructor (m: Line, keys: seq<Key>, vals: seq<Val>, alloc: LeafAllocator)
      requires |keys| == |vals| > 0 && Increasing(keys)
      requires alloc.Valid() && alloc.used + LeafCount(|keys|) <= |alloc.leaves|
      modifies alloc.Repr
      ensures alloc.Valid() && Sound(alloc) && Entries(alloc) == Pairs(keys, vals)
      ensures Predicts(m, keys) ==> Valid(alloc)
      ensures ltable.Groups(alloc) == Fresh(Pairs(keys, vals), LeafCount(|keys|))
      ensures model == m && capacity == |keys| && fresh(ltable) && fresh(ltable.synonymTable)
      ensures alloc.used == old(alloc.used) + LeafCount(|keys|)
      ensures forall n :: 0 <= n < old(alloc.used) ==> alloc.pool[n] == old(alloc.pool)[n]
      ensures forall n :: n in ltable.owned ==> n >= old(alloc.used)
      ensures ltable.IsFresh() && |ltable.table| == LeafCount(|keys|)
    {
      model, capacity := m, |keys|;
      ltable := new LeafTable();
      new;
      Fill(ltable, keys, vals, alloc);
      FreshInOrder(keys, vals);
      if Predicts(m, keys) { FreshOk(m, keys, vals); }
    }

    lemma TableValid(alloc: LeafAllocator)
      requires Valid(alloc) || Sound(alloc)
      ensures ltable.Valid(alloc) && alloc.Valid()
    {
    }

    /** The group a key is routed to. */
    ghost function Picked(key: Key, alloc: LeafAllocator): Group
      requires Valid(alloc)
      reads ltable, ltable.synonymTable, alloc, alloc.Repr
    {
      ltable.Groups(alloc)[Pick(ltable.Groups(alloc), model, capacity, key)]
    }

    /** The insertion of the key takes another leaf. */
    ghost predicate Splits(key: Key, alloc: LeafAllocator)
      requires Valid(alloc)
      reads ltable, ltable.synonymTable, alloc, alloc.Repr
    {
      !ltable.Exhausted() && TakesLeaf(Picked(key, alloc), key)
    }

    /** Only an insertion that succeeds splits a leaf. */
    lemma SplitInserts(key: Key, alloc: LeafAllocator)
      requires Valid(alloc) && Splits(key, alloc)
      ensures !ltable.Exhausted() && Lookup(Entries(alloc), key).None?
    {
      hide TableOk, Content, Lookup, Join;
      TableLookup(ltable.Groups(alloc), model, capacity, key);
    }

    /** Looks in the group that is picked for the key, which is right as long as no keys are stranded. */
    method Search(key: Key, alloc: LeafAllocator) returns (r: Option<Val>)
      requires Sound(alloc) && key < INVALID_KEY
      ensures Valid(alloc) ==> r == Lookup(Entries(alloc), key)
      ensures var gs := ltable.Groups(alloc);
              && (forall j :: 0 <= j < |gs| ==> gs[j] != [])
              && r == Lookup(Join(gs[Pick(gs, model, capacity, key)]), key)
    {
      var w := Window(model, key, capacity);
      WindowInTable(model, key, capacity);
      ltable.ValidParts(alloc);
      if Valid(alloc) { TableLookup(ltable.Groups(alloc), model, capacity, key); }
      hide Lookup, TableOk, Route, Content, Window, Predict, LeafCount;
      r := ltable.Search(key, alloc, w.0, w.1);
    }

    method Update(key: Key, val: Val, alloc: LeafAllocator) returns (r: bool)
      requires Valid(alloc) && key < INVALID_KEY
      modifies alloc.Repr
      ensures Valid(alloc) && alloc.used == old(alloc.used)
      ensures r <==> Lookup(old(Entries(alloc)), key).Some?
      ensures Entries(alloc) == Updated(old(Entries(alloc)), key, val)
      ensures ltable.OthersKept(alloc)
    {
      var w := Window(model, key, capacity);
      WindowInTable(model, key, capacity);
      TableLookup(ltable.Groups(alloc), model, capacity, key);
      TableUpdated(ltable.Groups(alloc), model, capacity, key, val);
      hide Lookup, TableOk, Route, Content, Window, Predict, LeafCount, GroupUpdated, Updated;
      r := ltable.Update(key, val, alloc, w.0, w.1);
    }

    method Insert(key: Key, val: Val, alloc: LeafAllocator) returns (r: bool)
      requires Valid(alloc) && key < INVALID_KEY && (Splits(key, alloc) ==> alloc.used < |alloc.leaves|)
      modifies ltable, ltable.synonymTable, alloc.Repr
      ensures Valid(alloc) && ltable.OthersKept(alloc)
      ensures var gs := old(ltable.Groups(alloc));
              ltable.Groups(alloc) == if r then GroupsInserted(gs, model, capacity, key, val) else gs
      ensures var more := if old(Splits(key, alloc)) then 1 else 0;
              alloc.used == old(alloc.used) + more && ltable.Slots() == old(ltable.Slots()) + more
      ensures r <==> !old(ltable.Exhausted()) && Lookup(old(Entries(alloc)), key).None?
      ensures Entries(alloc) == if r then Inserted(old(Entries(alloc)), key, val) else old(Entries(alloc))
    {
      var w := Window(model, key, capacity);
      WindowInTable(model, key, capacity);
      TableLookup(ltable.Groups(alloc), model, capacity, key);
      InsertedIfAbsent(ltable.Groups(alloc), model, capacity, key, val);
      hide Lookup, TableOk, Route, Content, Window, Predict, LeafCount, GroupInserted, Inserted, TakesLeaf;
      r := ltable.Insert(key, val, alloc, w.0, w.1);
    }

    method InsertionSplits(key: Key, alloc: LeafAllocator) returns (r: bool)
      requires Valid(alloc) && key < INVALID_KEY
      ensures r <==> Splits(key, alloc)
    {
      var w := Window(model, key, capacity);
      WindowInTable(model, key, capacity);
      hide TableOk, Route, Content, Window, Predict, LeafCount, TakesLeaf;
      r := ltable.InsertionSplits(key, alloc, w.0, w.1);
    }

    /** Routing survives exactly when no synonym leaves are stranded under an emptied head. */
    method Remove(key: Key, alloc: LeafAllocator) returns (r: bool)
      requires Valid(alloc) && key < INVALID_KEY
      modifies ltable, ltable.synonymTable, alloc.Repr
      ensures Sound(alloc) && ltable.OthersKept(alloc) && alloc.used == old(alloc.used)
      ensures ltable.Slots() == old(ltable.Slots())
      ensures ltable.Groups(alloc) == GroupsRemoved(old(ltable.Groups(alloc)), model, capacity, key)
      ensures Valid(alloc) <==> !old(Strands(Picked(key, alloc), key))
      ensures r <==> Lookup(old(Entries(alloc)), key).Some?
      ensures Entries(alloc) == Removed(old(Entries(alloc)), key)
    {
      var w := Window(model, key, capacity);
      WindowInTable(model, key, capacity);
      TableLookup(ltable.Groups(alloc), model, capacity, key);
      TableRemoved(ltable.Groups(alloc), model, capacity, key);
      hide Lookup, TableOk, Route, Content, Window, Predict, LeafCount, GroupRemoved, Removed, Strands;
      r := ltable.Remove(key, alloc, w.0, w.1);
    }

    method RemovalStrands(key: Key, alloc: LeafAllocator) returns (r: bool)
      requires Valid(alloc) && key < INVALID_KEY
      ensures r <==> Strands(Picked(key, alloc), key)
    {
      var w := Window(model, key, capacity);
      WindowInTable(model, key, capacity);
      hide TableOk, Route, Content, Window, Predict, LeafCount, Strands;
      r := ltable.RemovalStrands(key, alloc, w.0, w.1);
    }

    method Range(key: Key, n: nat, vals: seq<Val>, alloc: LeafAllocator) returns (r: seq<Val>)
      requires Valid(alloc) && key < INVALID_KEY
      ensures r == vals + RangeVals(Entries(alloc), key, Want(n, |vals|))
    {
      var w := Window(model, key, capacity);
      WindowInTable(model, key, capacity);
      TableRange(ltable.Groups(alloc), model, capacity, key, Want(n, |vals|));
      hide TableOk, Route, Content, Window, Predict, LeafCount, RangeVals;
      r := ltable.Range(key, n, vals, alloc, w.0, w.1);
    }
  }
}

/** The memory region of preallocated leaves, handed out in order and never taken back. */
module LeafAllocator {
  import opened LinearModel
  import opened Entries
  import opened Leaf

  /** Bytes of a leaf: keys and values of 8 bytes each. */
  const LEAF_BYTES: nat := SLOTS * 16

  /** Where leaf number num starts, behind the counters of used and of all leaves. */
  function LeafOffset(num: nat): nat { 16 + num * LEAF_BYTES }

  /** Leaves of different numbers have no byte in common, nor one with the counters. */
  lemma LeavesApart(i: nat, j: nat)
    requires i < j
    ensures 16 <= LeafOffset(i) && LeafOffset(i) + LEAF_BYTES <= LeafOffset(j)
  {
    assert j * LEAF_BYTES >= (i + 1) * LEAF_BYTES;
  }

  /** The size check of the constructor that is given a number of leaves leaves room for all of them. */
  lemma SizedFits(total: nat, leafNum: nat)
    requires total >= 8 && leafNum < (total - 8) / LEAF_BYTES
    ensures LeafOffset(leafNum) <= total
  {
  }

  /**
   The constructor that fills a region takes as many leaves as fit behind one counter, but there
   are two: its last leaf has room exactly if 8 bytes are left over.
   */
  lemma FilledFits(total: nat)
    requires total >= 8
    ensures LeafOffset((total - 8) / LEAF_BYTES) <= total <==> (total - 8) % LEAF_BYTES >= 8
  {
  }

  /** The number of the leaf at an offset. */
  function LeafNumber(offset: nat): nat
    requires offset >= 16
  {
    (offset - 16) / LEAF_BYTES
  }

  lemma OffsetRoundTrip(num: nat)
    ensures LeafNumber(LeafOffset(num)) == num
  {
  }

  class LeafAllocator {
    /** All preallocated leaves, by number. */
    const leaves: seq<Leaf>
    /** How many have been handed out. */
    var used: nat
    /** The content of every leaf, by number. */
    ghost var pool: seq<seq<Entry>>
    /** The objects of the region. */
    ghost const Repr: set<object>

    ghost predicate Apart(i: nat, j: nat)
      requires i < |leaves| && j < |leaves|
    {
      leaves[i] != leaves[j] && {leaves[i].keys, leaves[i].vals} !! {leaves[j].keys, leaves[j].vals}
    }

    ghost predicate Inside(i: nat)
      requires i < |leaves|
    {
      leaves[i] in Repr && leaves[i].keys in Repr && leaves[i].vals in Repr
    }

    ghost predicate Valid()
      reads this, Repr
      ensures Valid() ==> this in Repr && used <= |pool| == |leaves|
    {
      && this in Repr
      && used <= |leaves| == |pool|
      && (forall i :: 0 <= i < |leaves| ==> Inside(i) && this != leaves[i] as object)
      && (forall i :: 0 <= i < |leaves| ==> leaves[i].Valid() && pool[i] == leaves[i].entries)
      && (forall i :: used <= i < |leaves| ==> pool[i] == [])
      && (forall i, j :: 0 <= i < |leaves| && 0 <= j < |leaves| && i != j ==> Apart(i, j))
    }

    constructor (total: nat, leafNum: nat)
      requires total >= 8 && leafNum < (total - 8) / LEAF_BYTES
      ensures LeafOffset(leafNum) <= total
      ensures Valid() && fresh(Repr) && used == 0 && |leaves| == leafNum
    {
      SizedFits(total, leafNum);
      var all: seq<Leaf> := [];
      ghost var objects: set<object> := {};
      for i := 0 to leafNum
        invariant |all| == i && fresh(objects)
        invariant forall k :: 0 <= k < i ==> all[k] in objects && all[k].keys in objects && all[k].vals in objects
        invariant forall k :: 0 <= k < i ==> all[k].Valid() && all[k].entries == []
        invariant forall k, m :: 0 <= k < i && 0 <= m < i && k != m ==>
                    all[k] != all[m] && {all[k].keys, all[k].vals} !! {all[m].keys, all[m].vals}
      {
        var l := new Leaf();
        all := all + [l];
        objects := objects + {l, l.keys, l.vals};
      }
      leaves, used, pool := all, 0, seq(leafNum, _ => []);
      Repr := objects + {this};
    }

    method FetchNewLeaf() returns (num: nat)
      requires Valid() && used < |leaves|
      modifies `used
      ensures Valid() && num == old(used) && used == old(used) + 1
      ensures pool == old(pool) && pool[num] == []
    {
      num := used;
      used := used + 1;
    }

    predicate InsertHereIn(num: nat, key: Key)
      requires Valid() && num < used && key < INVALID_KEY
      reads this, Repr
      ensures InsertHereIn(num, key) <==> Covers(pool[num], key)
    {
      leaves[num].InsertHere(key)
    }

    predicate HoldsOnlyIn(num: nat, key: Key)
      requires Valid() && num < used && key < INVALID_KEY
      reads this, Repr
      ensures HoldsOnlyIn(num, key) <==> |pool[num]| == 1 && pool[num][0].key == key
    {
      leaves[num].HoldsOnly(key)
    }

    method SearchIn(num: nat, key: Key) returns (r: Option<Val>)
      requires Valid() && num < used && key < INVALID_KEY
      ensures r == Lookup(pool[num], key)
    {
      r := leaves[num].Search(key);
    }

    /** The leaf that a byte offset of the region names, as a remote node reads it. */
    method SearchAt(offset: nat, key: Key) returns (r: Option<Val>)
      requires Valid() && offset >= 16 && LeafNumber(offset) < used && key < INVALID_KEY
      ensures r == Lookup(pool[LeafNumber(offset)], key)
    {
      r := leaves[LeafNumber(offset)].Search(key);
    }

    method ContainIn(num: nat, key: Key) returns (r: bool)
      requires Valid() && num < used && key < INVALID_KEY
      ensures r <==> Lookup(pool[num], key).Some?
    {
      r := leaves[num].Contain(key);
    }

    predicate IsFullIn(num: nat)
      requires Valid() && num < used
      reads this, Repr
      ensures IsFullIn(num) <==> |pool[num]| == SLOTS
    {
      leaves[num].IsFull()
    }

    predicate IsEmptyIn(num: nat)
      requires Valid() && num < used
      reads this, Repr
      ensures IsEmptyIn(num) <==> pool[num] == []
    {
      leaves[num].IsEmpty()
    }

    method RangeIn(num: nat, key: Key, n: nat, vals: seq<Val>) returns (r: seq<Val>)
      requires Valid() && num < used && key < INVALID_KEY
      ensures r == vals + RangeVals(pool[num], key, if n <= |vals| then 0 else n - |vals|)
    {
      r := leaves[num].Range(key, n, vals);
    }

    lemma OtherLeaves(num: nat)
      requires Valid() && num < |leaves|
      ensures leaves[num] in Repr && leaves[num].keys in Repr && leaves[num].vals in Repr
      ensures forall i :: 0 <= i < |leaves| && i != num ==>
                leaves[i] != leaves[num] && {leaves[i].keys, leaves[i].vals} !! {leaves[num].keys, leaves[num].vals}
    {
      assert Inside(num);
      forall i | 0 <= i < |leaves| && i != num
        ensures leaves[i] != leaves[num] && {leaves[i].keys, leaves[i].vals} !! {leaves[num].keys, leaves[num].vals}
      {
        assert Apart(i, num);
      }
    }

    method UpdateIn(num: nat, key: Key, val: Val) returns (r: bool)
      requires Valid() && num < used && key < INVALID_KEY
      modifies Repr
      ensures Valid() && used == old(used)
      ensures r <==> Lookup(old(pool)[num], key).Some?
      ensures pool == old(pool)[num := Updated(old(pool)[num], key, val)]
    {
      OtherLeaves(num);
      r := leaves[num].Update(key, val);
      pool := pool[num := leaves[num].entries];
    }

    method InsertIn(num: nat, key: Key, val: Val)
      requires Valid() && num < used && key < INVALID_KEY
      requires Lookup(pool[num], key).None? && |pool[num]| < SLOTS
      modifies Repr
      ensures Valid() && used == old(used)
      ensures pool == old(pool)[num := Inserted(old(pool)[num], key, val)]
    {
      OtherLeaves(num);
      var pos := leaves[num].InsertNotFull(key, val);
      pool := pool[num := leaves[num].entries];
    }

    method RemoveIn(num: nat, key: Key) returns (r: bool)
      requires Valid() && num < used && key < INVALID_KEY
      modifies Repr
      ensures Valid() && used == old(used)
      ensures r <==> Lookup(old(pool)[num], key).Some?
      ensures pool == old(pool)[num := Removed(old(pool)[num], key)]
    {
      OtherLeaves(num);
      r := leaves[num].Remove(key);
      pool := pool[num := leaves[num].entries];
    }

    /** Moves the upper half of a full leaf to an empty one. */
    method SplitIn(num: nat, to: nat)
      requires Valid() && num < used && to < used && num != to
      requires |pool[num]| == SLOTS && pool[to] == []
      modifies Repr
      ensures Valid() && used == old(used)
      ensures pool == old(pool)[num := old(pool)[num][..SLOTS / 2]][to := old(pool)[num][SLOTS / 2..]]
    {
      OtherLeaves(num);
      OtherLeaves(to);
      leaves[num].MoveHalfTo(leaves[to]);
      pool := pool[num := leaves[num].entries][to := leaves[to].entries];
    }
  }
}

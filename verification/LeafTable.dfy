/**
 The leaf table of one submodel: a table entry per trained leaf, chains of synonym leaves split
 off later, and the operations that scan a window of entries backwards.
 */
module LeafTable {
  import opened LinearModel
  import opened Entries
  import opened Leaf
  import opened LeafAllocator
  import opened Groups
  import opened Routing
  import opened Links

  lemma EmptyRange(key: Key, n: nat)
    ensures Join<Entry>([]) == [] && RangeVals([], key, n) == []
  {
  }

  lemma RangeFromPicked(g: Group, key: Key, n: nat, vals: seq<Val>, r: seq<Val>)
    requires GroupOk(g) && r == vals + RangeVals(g[RouteIn(g, key)], key, Want(n, |vals|))
    ensures var j := RouteIn(g, key);
            r + RangeVals(Join(g[j + 1..]), key, Want(n, |r|)) == vals + RangeVals(Join(g), key, Want(n, |vals|))
  {
    hide Join, RouteIn, RangeVals, Sorted, AllBelow, AllAbove;
    var j := RouteIn(g, key);
    var a, b, c := Join(g[..j]), g[j], Join(g[j + 1..]);
    RouteInParts(g, key);
    Associate(a, b, c);
    SortedParts(a, b + c);
    RangeSkips(a, b + c, key, Want(n, |vals|));
    RangeContinues(b, c, key, n, vals, r);
  }

  lemma RangeFromHead(g: Group, key: Key, n: nat, vals: seq<Val>, r: seq<Val>)
    requires GroupOk(g) && r == vals + RangeVals(g[0], key, Want(n, |vals|))
    ensures r + RangeVals(Join(g[1..]), key, Want(n, |r|)) == vals + RangeVals(Join(g), key, Want(n, |vals|))
    ensures |r| >= n ==> r == vals + RangeVals(Join(g), key, Want(n, |vals|))
  {
    RangeContinues(g[0], Join(g[1..]), key, n, vals, r);
  }

  lemma RemoveReady(table: seq<TableEntry>, syn: seq<TableEntry>, chains: seq<seq<nat>>, nums: seq<seq<nat>>,
                    used: nat, i: nat, j: nat)
    requires Linked(table, syn, chains, nums, used) && i < |table| && |chains| == |table| && j < |chains[i]|
    ensures |syn| == SYNONYM_MAX && |nums| == |table| && |nums[i]| == |chains[i]| + 1
    ensures forall k :: 0 <= k < |chains[i]| ==> 1 <= chains[i][k] < SYNONYM_MAX
    ensures Linked(UnlinkedTable(table, i, j, syn[chains[i][j]].synonymLeaf), UnlinkedSlots(syn, chains[i], j),
                   chains[i := Drop<nat>(chains[i], j)], nums[i := Drop<nat>(nums[i], j + 1)], used)
  {
    assert ChainOk(table[i], chains[i], nums[i], syn);
    UnlinkOut(table, syn, chains, nums, used, i, j);
  }

  ghost predicate OwnedOk(nums: seq<seq<nat>>, owned: set<nat>, used: nat) {
    && (forall i, j :: 0 <= i < |nums| && 0 <= j < |nums[i]| ==> nums[i][j] in owned)
    && (forall n :: n in owned ==> n < used)
  }

  lemma OwnedKept(nums: seq<seq<nat>>, owned: set<nat>, used: nat, i: nat, j: nat)
    requires OwnedOk(nums, owned, used) && i < |nums| && j < |nums[i]|
    ensures OwnedOk(nums[i := Drop<nat>(nums[i], j)], owned, used)
  {
    var t := nums[i := Drop<nat>(nums[i], j)];
    forall a, b | 0 <= a < |t| && 0 <= b < |t[a]| ensures t[a][b] in owned {
      DropOrigin(nums, i, j, a, b);
    }
  }

  /** What is left of the picked leaf decides between keeping and unlinking it. */
  lemma RemovedLeafOk(g: Group, key: Key)
    requires GroupOk(g)
    ensures var j := RouteIn(g, key); var l := Removed(g[j], key);
            && (l == [] && j > 0 ==> GroupRemoved(g, key) == Drop(g[j := l], j))
            && (!(l == [] && j > 0) ==> GroupRemoved(g, key) == g[j := l])
            && GroupOk(GroupRemoved(g, key))
  {
    GroupRemovedContent(g, key);
    var j := RouteIn(g, key);
    var l := Removed(g[j], key);
    if l == [] && j > 0 {
      assert g[j := l][..j] == g[..j] && g[j := l][j + 1..] == g[j + 1..];
    }
  }

  /** After a split, the old leaf keeps its place and the new one follows it. */
  lemma SplitPlaces(nums: seq<seq<nat>>, i: nat, j: nat, y: nat)
    requires i < |nums| && j < |nums[i]|
    ensures var t := nums[i := Put<nat>(nums[i], j + 1, y)];
            && |t[i]| == |nums[i]| + 1 && t[i][j] == nums[i][j] && t[i][j + 1] == y
  {
    PutOrigin(nums, i, j + 1, y, i, j);
    PutOrigin(nums, i, j + 1, y, i, j + 1);
  }

  lemma OwnedGrows(nums: seq<seq<nat>>, owned: set<nat>, y: nat, i: nat, j: nat)
    requires OwnedOk(nums, owned, y) && i < |nums| && j <= |nums[i]|
    ensures OwnedOk(nums[i := Put<nat>(nums[i], j, y)], owned + {y}, y + 1)
  {
    var t := nums[i := Put<nat>(nums[i], j, y)];
    forall a, b | 0 <= a < |t| && 0 <= b < |t[a]| ensures t[a][b] in owned + {y} {
      PutOrigin(nums, i, j, y, a, b);
    }
  }

  lemma OwnedGrowsWith(table: seq<TableEntry>, syn: seq<TableEntry>, chains: seq<seq<nat>>, nums: seq<seq<nat>>,
                       owned: set<nat>, y: nat, i: nat, j: nat, bound: nat)
    requires Linked(table, syn, chains, nums, y) && OwnedOk(nums, owned, y) && i < |nums| && j <= |nums[i]| && y < bound
    ensures OwnedOk(nums[i := Put<nat>(nums[i], j, y)], owned + {y}, y + 1)
    ensures InUse(nums[i := Put<nat>(nums[i], j, y)], bound)
  {
    OwnedGrows(nums, owned, y, i, j);
    PutApart(nums, i, j, y, y);
  }

  /** The leaf that takes the entry has room and lacks the key, with or without a split. */
  lemma InsertTarget(g: Group, key: Key, val: Val)
    requires GroupOk(g) && key < INVALID_KEY && Lookup(Join(g), key).None?
    ensures var j := RouteIn(g, key);
            && |g[j]| <= SLOTS && Lookup(g[j], key).None?
            && GroupOk(GroupInserted(g, key, val))
            && (|g[j]| < SLOTS ==> GroupInserted(g, key, val) == g[j := Inserted(g[j], key, val)])
            && (|g[j]| == SLOTS ==>
                  var h := Halved(g, j);
                  var k := if Covers(h[j + 1], key) then j + 1 else j;
                  && |h[k]| < SLOTS && Lookup(h[k], key).None?
                  && GroupInserted(g, key, val) == h[k := Inserted(h[k], key, val)])
  {
    var j := RouteIn(g, key);
    GroupLookup(g, key);
    GroupInsertedContent(g, key, val);
    if |g[j]| == SLOTS {
      HalvedOk(g, j);
      HalvedRoute(g, key);
      GroupLookup(Halved(g, j), key);
    }
  }

  lemma LinkedLater(table: seq<TableEntry>, syn: seq<TableEntry>, chains: seq<seq<nat>>, nums: seq<seq<nat>>,
                    used: nat, later: nat)
    requires Linked(table, syn, chains, nums, used) && used <= later
    ensures Linked(table, syn, chains, nums, later)
  {
  }

  lemma LinkedNums(table: seq<TableEntry>, syn: seq<TableEntry>, chains: seq<seq<nat>>, nums: seq<seq<nat>>, used: nat)
    requires Linked(table, syn, chains, nums, used)
    ensures Apart(nums) && InUse(nums, used)
  {
  }

  /** The group sequence after a split, from the new leaf numbers and the two new contents. */
  lemma HalvedGroups(nums: seq<seq<nat>>, before: seq<seq<Entry>>, gs: seq<Group>, i: nat, j: nat, y: nat, used: nat)
    requires InUse(nums, used) && Apart(nums) && used <= y < |before| && i < |nums| && j < |nums[i]|
    requires gs == GroupsOf(nums, before)
    requires |before[nums[i][j]]| == SLOTS
    ensures var full := before[nums[i][j]];
            var after := before[nums[i][j] := full[..SLOTS / 2]][y := full[SLOTS / 2..]];
            var nums' := nums[i := Put<nat>(nums[i], j + 1, y)];
            && InUse(nums', |before|)
            && GroupsOf(nums', after) == gs[i := Halved(gs[i], j)]
  {
    var full := before[nums[i][j]];
    var after := before[nums[i][j] := full[..SLOTS / 2]][y := full[SLOTS / 2..]];
    var nums' := nums[i := Put<nat>(nums[i], j + 1, y)];
    PutApart(nums, i, j + 1, y, used);
    var a, b := GroupsOf(nums', after), gs[i := Halved(gs[i], j)];
    forall k, m | 0 <= k < |a| && 0 <= m < |a[k]| ensures |b[k]| == |a[k]| && a[k][m] == b[k][m] {
      PutOrigin(nums, i, j + 1, y, k, m);
    }
    GroupsEqual(a, b);
  }

  /** Everything the linking of a fresh slot needs to know, and the state it leads to. */
  lemma EmplaceReady(table: seq<TableEntry>, syn: seq<TableEntry>, chains: seq<seq<nat>>, nums: seq<seq<nat>>,
                     used: nat, i: nat, j: nat, y: nat)
    requires Linked(table, syn, chains, nums, used) && i < |table| == |chains| && j <= |chains[i]| && y >= used
    ensures |syn| == SYNONYM_MAX && 1 <= syn[0].leafNum < SYNONYM_MAX
    ensures |nums| == |table| && |nums[i]| == |chains[i]| + 1
    ensures forall k :: 0 <= k < |chains[i]| ==> 1 <= chains[i][k] < syn[0].leafNum
    ensures Link(chains[i], j) == if j == 0 then table[i].synonymLeaf else syn[chains[i][j - 1]].synonymLeaf
    ensures syn[0].leafNum < SYNONYM_MAX - 1 ==>
              Linked(LinkedTable(table, i, j, syn[0].leafNum), LinkedSlots(syn, table[i], chains[i], j, y),
                     chains[i := Put<nat>(chains[i], j, syn[0].leafNum)], nums[i := Put<nat>(nums[i], j + 1, y)], y + 1)
  {
    assert ChainOk(table[i], chains[i], nums[i], syn);
    if syn[0].leafNum < SYNONYM_MAX - 1 { LinkIn(table, syn, chains, nums, used, i, j, y); }
  }

  /** The three writes to the synonym table, in the order the code makes them. */
  lemma EmplacedSlots(syn: seq<TableEntry>, te: TableEntry, chain: seq<nat>, j: nat, y: nat, syn': seq<TableEntry>)
    requires |syn| == SYNONYM_MAX && 1 <= syn[0].leafNum < SYNONYM_MAX - 1 && j <= |chain|
    requires forall k :: 0 <= k < |chain| ==> 1 <= chain[k] < syn[0].leafNum
    requires var slot := syn[0].leafNum;
             var more := syn[0 := syn[0].(leafNum := slot + 1)];
             var before := if j == 0 then more else more[chain[j - 1] := more[chain[j - 1]].(synonymLeaf := slot)];
             syn' == before[slot := TableEntry(y, Link(chain, j))]
    ensures syn' == LinkedSlots(syn, te, chain, j, y)
  {
  }

  lemma FoundInLeaf(g: Group, j: nat, key: Key)
    requires GroupOk(g) && j < |g| && Lookup(g[j], key).Some?
    ensures Lookup(Join(g), key) == Lookup(g[j], key)
  {
    var p := JoinContains(g, j, Rank(g[j], key));
    LookupFound(Join(g), p, key);
  }

  lemma NotInAnyLeaf(g: Group, key: Key)
    requires GroupOk(g) && forall j :: 0 <= j < |g| ==> Lookup(g[j], key).None?
    ensures Lookup(Join(g), key).None?
  {
    if Lookup(Join(g), key).Some? {
      var j, k := JoinOrigin<Entry>(g, Rank(Join(g), key));
      JoinPartSorted(g, j);
      LookupFound(g[j], k, key);
      assert false;
    }
  }

  class LeafTable {
    var table: seq<TableEntry>
    const synonymTable: array<TableEntry>
    /** The synonym slots linked from each entry, in order. */
    ghost var chains: seq<seq<nat>>
    /** The leaf numbers of each entry: the head leaf and the leaves of its chain. */
    ghost var nums: seq<seq<nat>>
    /** The leaves this table has ever taken; a leaf unlinked later stays its own. */
    ghost var owned: set<nat>

    /** The part of the invariant that does not look at leaf contents. */
    ghost predicate Grounded(alloc: LeafAllocator)
      reads this, synonymTable, alloc, alloc.Repr
    {
      && alloc.Valid()
      && this !in alloc.Repr && synonymTable !in alloc.Repr
      && Linked(table, synonymTable[..], chains, nums, alloc.used)
      && InUse(nums, |alloc.pool|)
      && OwnedOk(nums, owned, alloc.used)
    }

    /** What the table stands for. */
    ghost function Groups(alloc: LeafAllocator): (gs: seq<Group>)
      requires Grounded(alloc)
      reads this, synonymTable, alloc, alloc.Repr
      ensures |gs| == |table|
    {
      GroupsOf(nums, alloc.pool)
    }

    ghost predicate Valid(alloc: LeafAllocator)
      reads this, synonymTable, alloc, alloc.Repr
    {
      && Grounded(alloc)
      && (forall i :: 0 <= i < |nums| ==> GroupOk(Groups(alloc)[i]))
    }

    constructor ()
      ensures table == [] && chains == [] && nums == [] && owned == {} && fresh(synonymTable)
      ensures synonymTable.Length == SYNONYM_MAX && synonymTable[0].leafNum == 1
      ensures EntriesFit(synonymTable[..]) && SlotsBounded(synonymTable[..], 0)
    {
      table, chains, nums, owned := [], [], [], {};
      synonymTable := new TableEntry[SYNONYM_MAX](_ => TableEntry(1, 0));
    }

    /** As after training: no entry has synonym leaves, all slots are free, and all fields fit their bits. */
    ghost predicate IsFresh()
      reads this, synonymTable
    {
      && (forall k :: 0 <= k < |table| ==> table[k].synonymLeaf == 0)
      && synonymTable.Length == SYNONYM_MAX && synonymTable[0].leafNum == 1
      && EntriesFit(synonymTable[..])
    }

    /** Adds an entry for a freshly taken leaf while a submodel is trained. */
    method TrainEmplaceBack(leafNum: nat) returns (size: nat)
      modifies this
      ensures table == old(table) + [TableEntry(leafNum, 0)] && size == |table|
      ensures chains == old(chains) + [[]] && nums == old(nums) + [[leafNum]] && owned == old(owned) + {leafNum}
    {
      table := table + [TableEntry(leafNum, 0)];
      chains, nums, owned := chains + [[]], nums + [[leafNum]], owned + {leafNum};
      size := |table|;
    }

    /** All leaves of the table are among the used ones, whatever their contents. */
    lemma EntryFacts(alloc: LeafAllocator, i: nat)
      requires Grounded(alloc) && i < |table|
      ensures |chains| == |nums| == |table| && synonymTable.Length == SYNONYM_MAX
      ensures 1 <= synonymTable[0].leafNum < SYNONYM_MAX
      ensures |nums[i]| == |chains[i]| + 1 && nums[i][0] == table[i].leafNum
      ensures table[i].synonymLeaf == Link(chains[i], 0)
      ensures forall j :: 0 <= j < |nums[i]| ==> nums[i][j] < alloc.used && nums[i][j] in owned
      ensures forall j :: 0 <= j < |chains[i]| ==>
                && 1 <= chains[i][j] < SYNONYM_MAX
                && synonymTable[chains[i][j]].leafNum == nums[i][j + 1]
                && synonymTable[chains[i][j]].synonymLeaf == Link(chains[i], j + 1)
      ensures |Groups(alloc)[i]| == |nums[i]|
      ensures forall j :: 0 <= j < |nums[i]| ==> Groups(alloc)[i][j] == alloc.pool[nums[i][j]]
    {
      assert ChainOk(table[i], chains[i], nums[i], synonymTable[..]);
    }

    lemma SlotCount(alloc: LeafAllocator)
      requires Grounded(alloc)
      ensures synonymTable.Length == SYNONYM_MAX
    {
    }

    /** Entries and synonym slots fit their fields in every state, if all leaf numbers do. */
    lemma FieldsFit(alloc: LeafAllocator)
      requires Grounded(alloc) && |alloc.leaves| <= LEAF_NUMS
      ensures EntriesFit(table) && EntriesFit(synonymTable[..])
    {
      forall i | 0 <= i < |table| ensures table[i].leafNum < LEAF_NUMS && table[i].synonymLeaf < 256 {
        EntryFacts(alloc, i);
      }
    }

    /** Where the links from an entry lead. */
    lemma ChainFacts(alloc: LeafAllocator, i: nat)
      requires Grounded(alloc) && i < |table|
      ensures |chains| == |table| && table[i].synonymLeaf == Link(chains[i], 0)
      ensures forall j :: 0 <= j < |chains[i]| ==>
                && 1 <= chains[i][j] < synonymTable.Length
                && synonymTable[chains[i][j]].synonymLeaf == Link(chains[i], j + 1)
    {
      EntryFacts(alloc, i);
    }

    /** Collects the slots of an entry's chain by following the links until 0. */
    method GetChain(i: nat, ghost alloc: LeafAllocator) returns (sLeaves: seq<nat>)
      requires Grounded(alloc) && i < |table|
      ensures sLeaves == chains[i]
    {
      hide Linked, OwnedOk, InUse, GroupsOf, LeafAllocator.Valid, Grounded;
      ChainFacts(alloc, i);
      var sIdx := table[i].synonymLeaf;
      sLeaves := [];
      while sIdx != 0
        invariant |sLeaves| <= |chains[i]|
        invariant sLeaves == chains[i][..|sLeaves|] && sIdx == Link(chains[i], |sLeaves|)
        decreases |chains[i]| - |sLeaves|
      {
        sLeaves := sLeaves + [sIdx];
        sIdx := synonymTable[sIdx].synonymLeaf;
      }
    }

    lemma ValidParts(alloc: LeafAllocator)
      requires Valid(alloc)
      ensures Grounded(alloc) && alloc.Valid() && |nums| == |table|
      ensures forall i :: 0 <= i < |Groups(alloc)| ==> GroupOk(Groups(alloc)[i]) && Groups(alloc)[i] != []
    {
    }

    /** The backward scan over the window: the last entry in (lo, hi] whose head covers the key, else lo. */
    method FindEntry(key: Key, alloc: LeafAllocator, lo: nat, hi: nat) returns (i: nat)
      requires Valid(alloc) && lo <= hi < |table| && key < INVALID_KEY
      ensures i == Route(Groups(alloc), key, lo, hi)
    {
      ValidParts(alloc);
      hide Linked, OwnedOk, GroupOk, InUse, GroupsOf, Covers, Route, LeafAllocator.Valid;
      ghost var gs := Groups(alloc);
      i := hi;
      while i > lo
        invariant lo <= i <= hi
        invariant forall j :: i < j <= hi ==> !Covers(gs[j][0], key)
      {
        EntryFacts(alloc, i);
        assert gs[i][0] == alloc.pool[nums[i][0]];
        var here := alloc.InsertHereIn(table[i].leafNum, key);
        if here {
          RouteIs(gs, key, lo, hi, i);
          return;
        }
        i := i - 1;
      }
      RouteIs(gs, key, lo, hi, lo);
    }

    /** The scan over a chain from its back: the last synonym leaf that covers the key, else -1. */
    method PickSynonym(key: Key, alloc: LeafAllocator, i: nat, sLeaves: seq<nat>) returns (idx: int)
      requires Valid(alloc) && i < |table| && |chains| == |table| && sLeaves == chains[i] && key < INVALID_KEY
      ensures -1 <= idx < |sLeaves| && i < |Groups(alloc)|
      ensures Groups(alloc)[i] != [] && idx + 1 == RouteIn(Groups(alloc)[i], key)
    {
      hide Linked, OwnedOk, GroupOk, InUse, GroupsOf, Covers, RouteIn, Link, LeafAllocator.Valid;
      ValidParts(alloc);
      EntryFacts(alloc, i);
      ghost var g := Groups(alloc)[i];
      idx := |sLeaves| - 1;
      while idx >= 0
        invariant -1 <= idx < |sLeaves|
        invariant forall k :: idx + 1 < k < |g| ==> !Covers(g[k], key)
      {
        assert g[idx + 1] == alloc.pool[nums[i][idx + 1]];
        var here := alloc.InsertHereIn(synonymTable[sLeaves[idx]].leafNum, key);
        if here {
          RouteInIs(g, key, idx + 1);
          return;
        }
        idx := idx - 1;
      }
      RouteInIs(g, key, 0);
    }

    /** The number of the leaf at a position of the chain; -1 stands for the head. */
    function LeafAt(i: nat, sLeaves: seq<nat>, idx: int): nat
      requires i < |table| && -1 <= idx < |sLeaves|
      requires forall k :: 0 <= k < |sLeaves| ==> sLeaves[k] < synonymTable.Length
      reads this, synonymTable
    {
      if idx == -1 then table[i].leafNum else synonymTable[sLeaves[idx]].leafNum
    }

    method SearchSynonym(key: Key, i: nat, alloc: LeafAllocator) returns (r: Option<Val>)
      requires Valid(alloc) && i < |table| && key < INVALID_KEY
      requires Groups(alloc)[i] != [] && Lookup(Groups(alloc)[i][0], key).None?
      ensures r == Lookup(Join(Groups(alloc)[i]), key)
    {
      hide Linked, OwnedOk, GroupOk, InUse, GroupsOf, Lookup, Join, Link, LeafAllocator.Valid;
      ValidParts(alloc);
      EntryFacts(alloc, i);
      var sLeaves := GetChain(i, alloc);
      ghost var g := Groups(alloc)[i];
      var k := |sLeaves| - 1;
      while k >= 0
        invariant -1 <= k < |sLeaves|
        invariant forall m :: k + 1 < m < |g| ==> Lookup(g[m], key).None?
      {
        assert g[k + 1] == alloc.pool[nums[i][k + 1]];
        r := alloc.SearchIn(synonymTable[sLeaves[k]].leafNum, key);
        if r.Some? {
          FoundInLeaf(g, k + 1, key);
          return;
        }
        k := k - 1;
      }
      NotInAnyLeaf(g, key);
      r := None;
    }

    method Search(key: Key, alloc: LeafAllocator, lo: nat, hi: nat) returns (r: Option<Val>)
      requires Valid(alloc) && lo <= hi < |table| && key < INVALID_KEY
      ensures r == Lookup(Join(Groups(alloc)[Route(Groups(alloc), key, lo, hi)]), key)
    {
      ValidParts(alloc);
      hide Linked, OwnedOk, GroupOk, InUse, GroupsOf, Lookup, Join, Route, LeafAllocator.Valid;
      var i := FindEntry(key, alloc, lo, hi);
      EntryFacts(alloc, i);
      ghost var g := Groups(alloc)[i];
      assert g[0] == alloc.pool[nums[i][0]];
      r := alloc.SearchIn(table[i].leafNum, key);
      if r.Some? {
        FoundInLeaf(g, 0, key);
        return;
      }
      r := SearchSynonym(key, i, alloc);
    }

    /** A table whose own leaves and links were not touched stands for the same groups. */
    twostate lemma Kept(alloc: LeafAllocator)
      requires old(Valid(alloc)) && unchanged(this) && unchanged(synonymTable)
      requires alloc.Valid() && old(alloc.used) <= alloc.used && |alloc.pool| == old(|alloc.pool|)
      requires forall n :: n in owned && 0 <= n < |alloc.pool| ==> alloc.pool[n] == old(alloc.pool)[n]
      ensures Valid(alloc) && Groups(alloc) == old(Groups(alloc))
    {
      hide Linked, GroupOk, LeafAllocator.Valid;
      assert synonymTable[..] == old(synonymTable[..]);
      LinkedLater(table, synonymTable[..], chains, nums, old(alloc.used), alloc.used);
      GroupsEqual(GroupsOf(nums, alloc.pool), old(GroupsOf(nums, alloc.pool)));
      assert Groups(alloc) == old(Groups(alloc));
      forall k | 0 <= k < |nums| ensures GroupOk(Groups(alloc)[k]) {
        assert old(GroupOk(Groups(alloc)[k]));
      }
    }

    // ---------- update ----------

    /** A new content for one leaf of the table changes one place of one group. */
    lemma LeafReplaced(alloc: LeafAllocator, before: seq<seq<Entry>>, gs: seq<Group>, i: nat, j: nat, l: seq<Entry>)
      requires Grounded(alloc) && |before| == |alloc.pool| && gs == GroupsOf(nums, before)
      requires forall k :: 0 <= k < |gs| ==> GroupOk(gs[k])
      requires i < |nums| && j < |nums[i]| && alloc.pool == before[nums[i][j] := l]
      ensures Groups(alloc) == gs[i := gs[i][j := l]]
      ensures GroupOk(gs[i][j := l]) ==> Valid(alloc)
    {
      PoolUpdate(nums, before, i, j, l);
    }

    lemma GroupReplaced(alloc: LeafAllocator, gs: seq<Group>, i: nat, g: Group)
      requires Grounded(alloc) && i < |gs| && Groups(alloc) == gs[i := g] && GroupOk(g)
      requires forall k :: 0 <= k < |gs| ==> GroupOk(gs[k])
      ensures Valid(alloc)
    {
    }

    /** What every operation guarantees about the rest of the leaf region. */
    twostate predicate OthersKept(alloc: LeafAllocator)
      reads this, synonymTable, alloc, alloc.Repr
    {
      && old(alloc.used) <= alloc.used <= old(alloc.used) + 1 && |alloc.pool| == old(|alloc.pool|)
      && (forall n :: 0 <= n < old(alloc.used) && n < |alloc.pool| && n !in old(owned) ==>
            alloc.pool[n] == old(alloc.pool)[n])
      && old(owned) <= owned && (forall n :: n in owned ==> n in old(owned) || n >= old(alloc.used))
      && |table| == old(|table|) && (forall k :: 0 <= k < |table| ==> table[k].leafNum == old(table[k].leafNum))
    }

    method UpdateSynonym(key: Key, val: Val, i: nat, alloc: LeafAllocator) returns (r: bool)
      requires Valid(alloc) && i < |table| && key < INVALID_KEY
      modifies alloc.Repr
      ensures Valid(alloc) && alloc.used == old(alloc.used)
      ensures i < |old(Groups(alloc))| && old(Groups(alloc))[i] != []
      ensures r <==> Lookup(Join(old(Groups(alloc))[i]), key).Some?
      ensures Groups(alloc) == old(Groups(alloc))[i := GroupUpdated(old(Groups(alloc))[i], key, val)]
      ensures OthersKept(alloc)
    {
      hide Linked, OwnedOk, GroupOk, Lookup, Updated, Join, Link, RouteIn, Covers, InUse, LeafAllocator.Valid;
      ValidParts(alloc);
      EntryFacts(alloc, i);
      ghost var gs, before := Groups(alloc), alloc.pool;
      GroupLookup(gs[i], key);
      GroupUpdatedContent(gs[i], key, val);
      var sLeaves := GetChain(i, alloc);
      var idx := PickSynonym(key, alloc, i, sLeaves);
      var num := LeafAt(i, sLeaves, idx);
      assert num == nums[i][idx + 1] && before[num] == gs[i][idx + 1];
      r := alloc.UpdateIn(num, key, val);
      LeafReplaced(alloc, before, gs, i, idx + 1, Updated(before[num], key, val));
    }

    method Update(key: Key, val: Val, alloc: LeafAllocator, lo: nat, hi: nat) returns (r: bool)
      requires Valid(alloc) && lo <= hi < |table| && key < INVALID_KEY
      modifies alloc.Repr
      ensures Valid(alloc) && alloc.used == old(alloc.used)
      ensures var gs := old(Groups(alloc)); var i := Route(gs, key, lo, hi);
              && (r <==> Lookup(Join(gs[i]), key).Some?)
              && Groups(alloc) == gs[i := GroupUpdated(gs[i], key, val)]
      ensures OthersKept(alloc)
    {
      hide Linked, OwnedOk, GroupOk, GroupsOf, Lookup, Join, Route, LeafAllocator.Valid, Valid, Grounded;
      hide GroupUpdated, InUse, Covers;
      ValidParts(alloc);
      var i := FindEntry(key, alloc, lo, hi);
      r := UpdateSynonym(key, val, i, alloc);
    }

    /** The next free synonym slot. */
    ghost function Slots(): nat
      reads synonymTable
    {
      if synonymTable.Length > 0 then synonymTable[0].leafNum else 0
    }

    // ---------- insertion ----------

    /**
     Links a slot for a fresh leaf behind a table entry or behind a synonym slot. Position j is the
     place of the leaf in group i that the new one follows.
     */
    method SynonymEmplaceBack(inTable: bool, lIdx: nat, leafNum: nat, ghost i: nat, ghost j: nat, ghost used: nat)
      returns (idx: nat)
      requires Linked(table, synonymTable[..], chains, nums, used) && leafNum >= used
      requires i < |table| == |chains| && j <= |chains[i]|
      requires if inTable then lIdx == i && j == 0 else j > 0 && lIdx == chains[i][j - 1]
      modifies this, synonymTable
      ensures old(synonymTable[0].leafNum) == SYNONYM_MAX - 1 ==>
                idx == 0 && unchanged(this) && unchanged(synonymTable)
      ensures old(synonymTable[0].leafNum) < SYNONYM_MAX - 1 ==>
                && idx == old(synonymTable[0].leafNum)
                && Linked(table, synonymTable[..], chains, nums, leafNum + 1)
                && |table| == old(|table|)
                && (forall k :: 0 <= k < |table| ==> table[k].leafNum == old(table[k].leafNum))
                && |nums| == old(|nums|) && nums == old(nums[i := Put<nat>(nums[i], j + 1, leafNum)])
                && owned == old(owned) + {leafNum} && Slots() == old(Slots()) + 1
    {
      hide Linked, OwnedOk, ChainOk, InUse, Apart, LinkedSlots;
      EmplaceReady(table, synonymTable[..], chains, nums, used, i, j, leafNum);
      if synonymTable[0].leafNum == SYNONYM_MAX - 1 {
        return 0;
      }
      ghost var syn, te0, chain := synonymTable[..], table[i], chains[i];
      idx := synonymTable[0].leafNum;
      synonymTable[0] := synonymTable[0].(leafNum := idx + 1);
      var te := TableEntry(leafNum, 0);
      if inTable {
        te := te.(synonymLeaf := table[lIdx].synonymLeaf);
        table := table[lIdx := table[lIdx].(synonymLeaf := idx)];
      } else {
        te := te.(synonymLeaf := synonymTable[lIdx].synonymLeaf);
        synonymTable[lIdx] := synonymTable[lIdx].(synonymLeaf := idx);
      }
      synonymTable[idx] := te;
      chains := chains[i := Put<nat>(chains[i], j, idx)];
      nums := nums[i := Put<nat>(nums[i], j + 1, leafNum)];
      owned := owned + {leafNum};
      EmplacedSlots(syn, te0, chain, j, leafNum, synonymTable[..]);
    }

    /** Takes a fresh leaf and links it in behind a leaf of group i. */
    method LinkFreshLeaf(i: nat, sLeaves: seq<nat>, idx: int, alloc: LeafAllocator) returns (newNum: nat)
      requires Grounded(alloc) && i < |table| == |chains| && sLeaves == chains[i] && -1 <= idx < |sLeaves|
      requires |nums| == |table| && |nums[i]| == |chains[i]| + 1
      requires alloc.used < |alloc.leaves|
      requires synonymTable.Length > 0 && synonymTable[0].leafNum < SYNONYM_MAX - 1
      modifies this, synonymTable, alloc
      ensures Grounded(alloc) && newNum == old(alloc.used) && alloc.used == old(alloc.used) + 1
      ensures alloc.pool == old(alloc.pool) && newNum < |alloc.pool| && alloc.pool[newNum] == []
      ensures |nums| == old(|nums|) && nums == old(nums[i := Put<nat>(nums[i], idx + 2, newNum)])
      ensures owned == old(owned) + {newNum} && Slots() == old(Slots()) + 1
      ensures |table| == old(|table|) && (forall k :: 0 <= k < |table| ==> table[k].leafNum == old(table[k].leafNum))
    {
      hide Linked, Link, InUse, Put, GroupsOf, OwnedOk, LeafAllocator.Valid;
      OwnedGrowsWith(table, synonymTable[..], chains, nums, owned, alloc.used, i, idx + 2, |alloc.pool|);
      newNum := alloc.FetchNewLeaf();
      var slot := SynonymEmplaceBack(idx == -1, if idx == -1 then i else sLeaves[idx], newNum, i, idx + 1, newNum);
    }

    /** Splits a full leaf: a fresh leaf, linked right behind it, takes the upper half. */
    method SplitLeaf(i: nat, sLeaves: seq<nat>, idx: int, num: nat, alloc: LeafAllocator) returns (newNum: nat)
      requires Valid(alloc) && i < |table| == |chains| && sLeaves == chains[i] && -1 <= idx < |sLeaves|
      requires |nums| == |table| && |nums[i]| == |chains[i]| + 1 && num == nums[i][idx + 1]
      requires num < |alloc.pool| && |alloc.pool[num]| == SLOTS
      requires alloc.used < |alloc.leaves|
      requires synonymTable.Length > 0 && synonymTable[0].leafNum < SYNONYM_MAX - 1
      modifies this, synonymTable, alloc.Repr
      ensures Valid(alloc) && newNum == old(alloc.used) && alloc.used == old(alloc.used) + 1
      ensures i < |old(Groups(alloc))| && idx + 1 < |old(Groups(alloc))[i]| && |old(Groups(alloc))[i][idx + 1]| == SLOTS
      ensures Groups(alloc) == old(Groups(alloc))[i := Halved(old(Groups(alloc))[i], idx + 1)]
      ensures |nums| == old(|nums|) && nums == old(nums[i := Put<nat>(nums[i], idx + 2, newNum)])
      ensures owned == old(owned) + {newNum} && Slots() == old(Slots()) + 1
      ensures |table| == old(|table|) && (forall k :: 0 <= k < |table| ==> table[k].leafNum == old(table[k].leafNum))
      ensures forall n :: 0 <= n < newNum && n != num ==> alloc.pool[n] == old(alloc.pool)[n]
    {
      hide Linked, GroupOk, Join, Link, RouteIn, Covers, InUse, Put, GroupsOf, Halved, OwnedOk, LeafAllocator.Valid;
      ValidParts(alloc);
      EntryFacts(alloc, i);
      ghost var gs, before, j := Groups(alloc), alloc.pool, idx + 1;
      assert gs[i][j] == before[num];
      LinkedNums(table, synonymTable[..], chains, nums, alloc.used);
      HalvedOk(gs[i], j);
      HalvedGroups(nums, before, gs, i, j, alloc.used, alloc.used);
      newNum := LinkFreshLeaf(i, sLeaves, idx, alloc);
      alloc.SplitIn(num, newNum);
      GroupReplaced(alloc, gs, i, Halved(gs[i], j));
    }

    /** No more synonym slots: every insertion is turned away. */
    ghost predicate Exhausted()
      reads this, synonymTable
    {
      synonymTable.Length > 0 && synonymTable[0].leafNum == SYNONYM_MAX - 1
    }

    /** The head leaf of every entry, by number. */
    ghost function HeadNums(): (r: seq<nat>)
      reads this
      ensures |r| == |table| && forall k :: 0 <= k < |r| ==> r[k] == table[k].leafNum
    {
      seq(|table|, k requires 0 <= k < |table| reads this => table[k].leafNum)
    }

    twostate lemma HeadNumsKept(alloc: LeafAllocator)
      requires OthersKept(alloc)
      ensures HeadNums() == old(HeadNums())
    {
    }

    /** Insertion into the full leaf that covers the key: split it, then use the right half. */
    method InsertSplit(key: Key, val: Val, i: nat, sLeaves: seq<nat>, idx: int, num: nat, alloc: LeafAllocator)
      requires Valid(alloc) && i < |table| == |chains| && sLeaves == chains[i] && key < INVALID_KEY
      requires -1 <= idx < |sLeaves| && !Exhausted() && alloc.used < |alloc.leaves|
      requires Groups(alloc)[i] != [] && idx + 1 == RouteIn(Groups(alloc)[i], key)
      requires Lookup(Join(Groups(alloc)[i]), key).None? && |Groups(alloc)[i][idx + 1]| == SLOTS
      requires |nums| == |table| && |nums[i]| == |chains[i]| + 1 && num == nums[i][idx + 1]
      modifies this, synonymTable, alloc.Repr
      ensures Valid(alloc) && OthersKept(alloc) && alloc.used == old(alloc.used) + 1 && Slots() == old(Slots()) + 1
      ensures i < |old(Groups(alloc))| && GroupOk(old(Groups(alloc))[i])
      ensures Groups(alloc) == old(Groups(alloc))[i := GroupInserted(old(Groups(alloc))[i], key, val)]
    {
      hide Linked, Join, Link, RouteIn, Covers, InUse, Put, GroupsOf, Lookup, Inserted, Halved, GroupInserted, OwnedOk;
      hide LeafAllocator.Valid;
      ValidParts(alloc);
      EntryFacts(alloc, i);
      ghost var gs, j := Groups(alloc), idx + 1;
      InsertTarget(gs[i], key, val);
      hide GroupOk;
      var newNum := SplitLeaf(i, sLeaves, idx, num, alloc);
      SplitPlaces(old(nums), i, j, newNum);
      EntryFacts(alloc, i);
      ValidParts(alloc);
      ghost var halved, mid := Groups(alloc), alloc.pool;
      assert mid[num] == halved[i][j] && mid[newNum] == halved[i][j + 1];
      var here := alloc.InsertHereIn(newNum, key);
      var target := if here then newNum else num;
      alloc.InsertIn(target, key, val);
      LeafReplaced(alloc, mid, halved, i, if here then j + 1 else j, Inserted(mid[target], key, val));
    }

    /** Insertion into the leaf that covers the key, after a split if that leaf is full. */
    method InsertLeaf(key: Key, val: Val, i: nat, sLeaves: seq<nat>, idx: int, alloc: LeafAllocator)
      requires Valid(alloc) && i < |table| == |chains| && sLeaves == chains[i] && key < INVALID_KEY
      requires -1 <= idx < |sLeaves| && !Exhausted()
      requires Groups(alloc)[i] != [] && idx + 1 == RouteIn(Groups(alloc)[i], key)
      requires |Groups(alloc)[i][idx + 1]| == SLOTS ==> alloc.used < |alloc.leaves|
      requires Lookup(Join(Groups(alloc)[i]), key).None?
      modifies this, synonymTable, alloc.Repr
      ensures Valid(alloc) && OthersKept(alloc)
      ensures i < |old(Groups(alloc))| && GroupOk(old(Groups(alloc))[i])
      ensures var more := if old(|Groups(alloc)[i][idx + 1]|) == SLOTS then 1 else 0;
              alloc.used == old(alloc.used) + more && Slots() == old(Slots()) + more
      ensures Groups(alloc) == old(Groups(alloc))[i := GroupInserted(old(Groups(alloc))[i], key, val)]
    {
      hide Linked, Join, Link, RouteIn, Covers, InUse, GroupsOf, Lookup, Inserted, GroupInserted, OwnedOk;
      hide LeafAllocator.Valid;
      ValidParts(alloc);
      EntryFacts(alloc, i);
      ghost var gs, before := Groups(alloc), alloc.pool;
      ghost var j := idx + 1;
      InsertTarget(gs[i], key, val);
      hide GroupOk;
      var num := LeafAt(i, sLeaves, idx);
      assert num == nums[i][j] && before[num] == gs[i][j];
      if alloc.IsFullIn(num) {
        InsertSplit(key, val, i, sLeaves, idx, num, alloc);
      } else {
        alloc.InsertIn(num, key, val);
        LeafReplaced(alloc, before, gs, i, j, Inserted(before[num], key, val));
      }
    }

    method InsertSynonym(key: Key, val: Val, i: nat, alloc: LeafAllocator) returns (r: bool)
      requires Valid(alloc) && i < |table| && key < INVALID_KEY
      requires !Exhausted() && TakesLeaf(Groups(alloc)[i], key) ==> alloc.used < |alloc.leaves|
      modifies this, synonymTable, alloc.Repr
      ensures Valid(alloc) && OthersKept(alloc)
      ensures i < |old(Groups(alloc))| && GroupOk(old(Groups(alloc))[i])
      ensures r <==> !old(Exhausted()) && Lookup(Join(old(Groups(alloc))[i]), key).None?
      ensures !r ==> Groups(alloc) == old(Groups(alloc))
      ensures var more := if !old(Exhausted()) && TakesLeaf(old(Groups(alloc))[i], key) then 1 else 0;
              alloc.used == old(alloc.used) + more && Slots() == old(Slots()) + more
      ensures r ==> Groups(alloc) == old(Groups(alloc))[i := GroupInserted(old(Groups(alloc))[i], key, val)]
    {
      hide Linked, Join, Link, RouteIn, Covers, InUse, GroupsOf, Lookup, GroupInserted, OwnedOk, LeafAllocator.Valid;
      ValidParts(alloc);
      EntryFacts(alloc, i);
      if synonymTable[0].leafNum == SYNONYM_MAX - 1 {
        return false;
      }
      ghost var gs := Groups(alloc);
      GroupLookup(gs[i], key);
      var sLeaves := GetChain(i, alloc);
      var idx := PickSynonym(key, alloc, i, sLeaves);
      var cur := LeafAt(i, sLeaves, idx);
      assert alloc.pool[cur] == gs[i][idx + 1];
      var present := alloc.ContainIn(cur, key);
      if present {
        return false;
      }
      InsertLeaf(key, val, i, sLeaves, idx, alloc);
      return true;
    }

    method Insert(key: Key, val: Val, alloc: LeafAllocator, lo: nat, hi: nat) returns (r: bool)
      requires Valid(alloc) && lo <= hi < |table| && key < INVALID_KEY
      requires !Exhausted() && TakesLeaf(Groups(alloc)[Route(Groups(alloc), key, lo, hi)], key) ==>
                 alloc.used < |alloc.leaves|
      modifies this, synonymTable, alloc.Repr
      ensures Valid(alloc) && OthersKept(alloc)
      ensures var gs := old(Groups(alloc)); var i := Route(gs, key, lo, hi);
              && GroupOk(gs[i])
              && (r <==> !old(Exhausted()) && Lookup(Join(gs[i]), key).None?)
              && Groups(alloc) == if r then gs[i := GroupInserted(gs[i], key, val)] else gs
      ensures var gs := old(Groups(alloc));
              var more := if !old(Exhausted()) && TakesLeaf(gs[Route(gs, key, lo, hi)], key) then 1 else 0;
              alloc.used == old(alloc.used) + more && Slots() == old(Slots()) + more
    {
      hide Linked, OwnedOk, GroupOk, GroupsOf, Lookup, Join, Route, GroupInserted, TakesLeaf, LeafAllocator.Valid;
      ValidParts(alloc);
      var i := FindEntry(key, alloc, lo, hi);
      r := InsertSynonym(key, val, i, alloc);
    }

    /** Whether inserting the key would have to split a full leaf. */
    method InsertionSplits(key: Key, alloc: LeafAllocator, lo: nat, hi: nat) returns (r: bool)
      requires Valid(alloc) && lo <= hi < |table| && key < INVALID_KEY
      ensures r <==> !Exhausted() && TakesLeaf(Groups(alloc)[Route(Groups(alloc), key, lo, hi)], key)
    {
      hide Linked, OwnedOk, GroupOk, GroupsOf, Lookup, Join, Route, RouteIn, Covers, Link, InUse, LeafAllocator.Valid;
      ValidParts(alloc);
      var i := FindEntry(key, alloc, lo, hi);
      EntryFacts(alloc, i);
      if synonymTable[0].leafNum == SYNONYM_MAX - 1 {
        return false;
      }
      GroupLookup(Groups(alloc)[i], key);
      var sLeaves := GetChain(i, alloc);
      var idx := PickSynonym(key, alloc, i, sLeaves);
      var cur := LeafAt(i, sLeaves, idx);
      assert alloc.pool[cur] == Groups(alloc)[i][idx + 1];
      var present := alloc.ContainIn(cur, key);
      r := !present && alloc.IsFullIn(cur);
    }

    // ---------- removal ----------

    /** Unlinks the slot at a position of an entry's chain. */
    method SynonymTableRemove(sLeaves: seq<nat>, lIdx: nat, idx: nat, ghost used: nat)
      requires Linked(table, synonymTable[..], chains, nums, used)
      requires lIdx < |table| == |chains| && sLeaves == chains[lIdx] && idx < |sLeaves|
      modifies this, synonymTable
      ensures Linked(table, synonymTable[..], chains, nums, used)
      ensures |nums| == old(|nums|) == |table| && |old(nums[lIdx])| == |sLeaves| + 1
      ensures nums == old(nums[lIdx := Drop<nat>(nums[lIdx], idx + 1)])
      ensures owned == old(owned) && Slots() == old(Slots())
      ensures |table| == old(|table|) && (forall k :: 0 <= k < |table| ==> table[k].leafNum == old(table[k].leafNum))
    {
      hide Linked, OwnedOk, ChainOk, InUse, Apart;
      RemoveReady(table, synonymTable[..], chains, nums, used, lIdx, idx);
      ghost var unlinked := UnlinkedSlots(synonymTable[..], chains[lIdx], idx);
      if idx == 0 {
        table := table[lIdx := table[lIdx].(synonymLeaf := synonymTable[sLeaves[idx]].synonymLeaf)];
      } else {
        synonymTable[sLeaves[idx - 1]] :=
          synonymTable[sLeaves[idx - 1]].(synonymLeaf := synonymTable[sLeaves[idx]].synonymLeaf);
      }
      assert synonymTable[..] == unlinked;
      chains := chains[lIdx := Drop<nat>(chains[lIdx], idx)];
      nums := nums[lIdx := Drop<nat>(nums[lIdx], idx + 1)];
    }

    /** Takes an emptied synonym leaf out of its chain. */
    method DropLeaf(i: nat, sLeaves: seq<nat>, idx: nat, ghost cur: seq<Group>, ghost gs: seq<Group>, ghost g: Group,
                    alloc: LeafAllocator)
      requires Grounded(alloc) && i < |table| == |chains| && sLeaves == chains[i] && idx < |sLeaves|
      requires Groups(alloc) == cur && |cur| == |gs| == |table| && |cur[i]| > idx + 1
      requires cur == gs[i := cur[i]] && g == Drop(cur[i], idx + 1) && GroupOk(g)
      requires forall k :: 0 <= k < |gs| ==> GroupOk(gs[k])
      modifies this, synonymTable
      ensures Valid(alloc) && Groups(alloc) == gs[i := g]
      ensures owned == old(owned) && Slots() == old(Slots())
      ensures |table| == old(|table|) && (forall k :: 0 <= k < |table| ==> table[k].leafNum == old(table[k].leafNum))
    {
      hide Linked, GroupOk, Join, Link, InUse, Drop, GroupsOf, OwnedOk, LeafAllocator.Valid;
      EntryFacts(alloc, i);
      LinkedNums(table, synonymTable[..], chains, nums, alloc.used);
      GroupsDrop(nums, alloc.pool, i, idx + 1);
      OwnedKept(nums, owned, alloc.used, i, idx + 1);
      SynonymTableRemove(sLeaves, i, idx, alloc.used);
      GroupReplaced(alloc, gs, i, g);
    }

    method RemoveSynonym(key: Key, i: nat, alloc: LeafAllocator) returns (r: bool)
      requires Valid(alloc) && i < |table| && key < INVALID_KEY
      modifies this, synonymTable, alloc.Repr
      ensures Valid(alloc) && OthersKept(alloc) && alloc.used == old(alloc.used) && Slots() == old(Slots())
      ensures i < |old(Groups(alloc))| && old(Groups(alloc))[i] != []
      ensures r <==> Lookup(Join(old(Groups(alloc))[i]), key).Some?
      ensures Groups(alloc) == old(Groups(alloc))[i := GroupRemoved(old(Groups(alloc))[i], key)]
    {
      hide Linked, GroupOk, Lookup, Join, Link, RouteIn, Covers, InUse, Removed, GroupsOf, OwnedOk, LeafAllocator.Valid;
      ValidParts(alloc);
      EntryFacts(alloc, i);
      ghost var gs, before := Groups(alloc), alloc.pool;
      GroupLookup(gs[i], key);
      var sLeaves := GetChain(i, alloc);
      var idx := PickSynonym(key, alloc, i, sLeaves);
      var cur := LeafAt(i, sLeaves, idx);
      ghost var j := idx + 1;
      assert cur == nums[i][j] && before[cur] == gs[i][j];
      RemovedLeafOk(gs[i], key);
      r := alloc.RemoveIn(cur, key);
      LeafReplaced(alloc, before, gs, i, j, Removed(before[cur], key));
      if alloc.IsEmptyIn(cur) && idx != -1 {
        DropLeaf(i, sLeaves, idx, gs[i := gs[i][j := []]], gs, GroupRemoved(gs[i], key), alloc);
      }
    }

    method Remove(key: Key, alloc: LeafAllocator, lo: nat, hi: nat) returns (r: bool)
      requires Valid(alloc) && lo <= hi < |table| && key < INVALID_KEY
      modifies this, synonymTable, alloc.Repr
      ensures Valid(alloc) && OthersKept(alloc) && alloc.used == old(alloc.used) && Slots() == old(Slots())
      ensures var gs := old(Groups(alloc)); var i := Route(gs, key, lo, hi);
              && (r <==> Lookup(Join(gs[i]), key).Some?)
              && Groups(alloc) == gs[i := GroupRemoved(gs[i], key)]
    {
      hide Linked, OwnedOk, GroupOk, GroupsOf, Lookup, Join, Route, GroupRemoved, LeafAllocator.Valid;
      ValidParts(alloc);
      var i := FindEntry(key, alloc, lo, hi);
      r := RemoveSynonym(key, i, alloc);
    }

    /** Whether removing the key would empty a head leaf that still has synonym leaves. */
    method RemovalStrands(key: Key, alloc: LeafAllocator, lo: nat, hi: nat) returns (r: bool)
      requires Valid(alloc) && lo <= hi < |table| && key < INVALID_KEY
      ensures r <==> Strands(Groups(alloc)[Route(Groups(alloc), key, lo, hi)], key)
    {
      hide Linked, OwnedOk, GroupOk, GroupsOf, Route, LeafAllocator.Valid;
      ValidParts(alloc);
      var i := FindEntry(key, alloc, lo, hi);
      EntryFacts(alloc, i);
      r := table[i].synonymLeaf != 0 && alloc.HoldsOnlyIn(table[i].leafNum, key);
      assert Groups(alloc)[i][0] == alloc.pool[nums[i][0]];
    }

    // ---------- range ----------

    /** The range over the synonym leaves from a position of the chain on. */
    method RangeChain(key: Key, n: nat, vals: seq<Val>, i: nat, sLeaves: seq<nat>, from: nat, alloc: LeafAllocator)
      returns (r: seq<Val>)
      requires Valid(alloc) && i < |table| == |chains| && sLeaves == chains[i] && key < INVALID_KEY
      requires from <= |sLeaves| == |Groups(alloc)[i]| - 1
      ensures r == vals + RangeVals(Join(Groups(alloc)[i][from + 1..]), key, Want(n, |vals|))
    {
      hide Linked, OwnedOk, InUse, GroupsOf, Link, Join, Sorted, RangeVals, LeafAllocator.Valid;
      ValidParts(alloc);
      EntryFacts(alloc, i);
      ghost var g := Groups(alloc)[i];
      var idx := from;
      r := vals;
      assert g[from + 1..from + 1] == [];
      EmptyRange(key, Want(n, |vals|));
      while |r| < n && idx < |sLeaves|
        invariant from <= idx <= |sLeaves|
        invariant r == vals + RangeVals(Join(g[from + 1..idx + 1]), key, Want(n, |vals|))
      {
        JoinSliceGrows(g, from + 1, idx + 1);
        RangeContinues(Join(g[from + 1..idx + 1]), g[idx + 1], key, n, vals, r);
        assert g[idx + 1] == alloc.pool[nums[i][idx + 1]];
        r := alloc.RangeIn(synonymTable[sLeaves[idx]].leafNum, key, n, r);
        idx := idx + 1;
      }
      if idx < |sLeaves| {
        JoinSliceGrows(g, from + 1, idx + 1);
        RangeContinues(Join(g[from + 1..idx + 1]), Join(g[idx + 1..]), key, n, vals, r);
      } else {
        assert g[from + 1..idx + 1] == g[from + 1..];
      }
    }

    /** The range over one group, starting at the leaf that covers the key. */
    method RangeSynonym(key: Key, n: nat, vals: seq<Val>, i: nat, alloc: LeafAllocator) returns (r: seq<Val>)
      requires Valid(alloc) && i < |table| && key < INVALID_KEY
      ensures i < |Groups(alloc)| && r == vals + RangeVals(Join(Groups(alloc)[i]), key, Want(n, |vals|))
    {
      hide Linked, OwnedOk, InUse, GroupsOf, Link, Join, Sorted, RangeVals, RouteIn, Covers, LeafAllocator.Valid;
      ValidParts(alloc);
      EntryFacts(alloc, i);
      ghost var g := Groups(alloc)[i];
      var sLeaves := GetChain(i, alloc);
      var idx := PickSynonym(key, alloc, i, sLeaves);
      var cur := LeafAt(i, sLeaves, idx);
      ghost var j := idx + 1;
      assert alloc.pool[cur] == g[j];
      r := alloc.RangeIn(cur, key, n, vals);
      RangeFromPicked(g, key, n, vals, r);
      r := RangeChain(key, n, r, i, sLeaves, idx + 1, alloc);
    }

    /** The range over one group from its head on. */
    method RangeGroup(key: Key, n: nat, vals: seq<Val>, i: nat, alloc: LeafAllocator) returns (r: seq<Val>)
      requires Valid(alloc) && i < |table| && key < INVALID_KEY
      ensures i < |Groups(alloc)| && r == vals + RangeVals(Join(Groups(alloc)[i]), key, Want(n, |vals|))
    {
      hide Linked, OwnedOk, InUse, GroupsOf, Link, Join, Sorted, RangeVals, LeafAllocator.Valid;
      ValidParts(alloc);
      EntryFacts(alloc, i);
      ghost var g := Groups(alloc)[i];
      assert alloc.pool[table[i].leafNum] == g[0];
      r := alloc.RangeIn(table[i].leafNum, key, n, vals);
      RangeFromHead(g, key, n, vals, r);
      if |r| >= n {
        return;
      }
      var sLeaves := GetChain(i, alloc);
      r := RangeChain(key, n, r, i, sLeaves, 0, alloc);
    }

    /** The range over the table from the group that the window and the scan pick. */
    method Range(key: Key, n: nat, vals: seq<Val>, alloc: LeafAllocator, lo: nat, hi: nat) returns (r: seq<Val>)
      requires Valid(alloc) && lo <= hi < |table| && key < INVALID_KEY
      requires Sorted(Content(Groups(alloc)))
      ensures var rest := Contents(Groups(alloc))[Route(Groups(alloc), key, lo, hi)..];
              r == vals + RangeVals(Join(rest), key, Want(n, |vals|))
    {
      hide Linked, OwnedOk, InUse, GroupsOf, Link, Join, Sorted, RangeVals, Route, Covers, GroupOk, LeafAllocator.Valid;
      ValidParts(alloc);
      ghost var gs := Groups(alloc);
      ghost var cs := Contents(gs);
      var start := FindEntry(key, alloc, lo, hi);
      EntryFacts(alloc, start);
      r := vals;
      var idx := start;
      assert cs[start..start] == [];
      EmptyRange(key, Want(n, |vals|));
      if alloc.InsertHereIn(table[start].leafNum, key) {
        JoinSliceGrows(cs, start, start);
        RangeContinues(Join(cs[start..start]), cs[start], key, n, vals, r);
        r := RangeSynonym(key, n, r, start, alloc);
        idx := start + 1;
      }
      while idx < |table| && |r| < n
        invariant start <= idx <= |table|
        invariant r == vals + RangeVals(Join(cs[start..idx]), key, Want(n, |vals|))
      {
        JoinSliceGrows(cs, start, idx);
        RangeContinues(Join(cs[start..idx]), cs[idx], key, n, vals, r);
        r := RangeGroup(key, n, r, idx, alloc);
        idx := idx + 1;
      }
      if idx < |table| {
        JoinSliceGrows(cs, start, idx);
        RangeContinues(Join(cs[start..idx]), Join(cs[idx..]), key, n, vals, r);
      } else {
        assert cs[start..idx] == cs[start..];
      }
    }
  }
}

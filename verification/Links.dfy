/**
 How table entries and synonym slots are linked into chains, as values: every chain walk ends,
 chains of different entries never meet, and no leaf belongs to two places.
 */
module Links {
  import opened Entries
  import opened Groups

  /** A table entry or synonym slot: its leaf and the next synonym slot, 0 for none. */
  datatype TableEntry = TableEntry(leafNum: nat, synonymLeaf: nat)

  /** Size of the synonym table; slot 0 holds the number of the next free slot. */
  const SYNONYM_MAX: nat := 128

  /** Leaf numbers have 48 bits in an entry, synonym slots 8. */
  const LEAF_NUMS: nat := 0x1_0000_0000_0000

  predicate EntriesFit(es: seq<TableEntry>) {
    forall i :: 0 <= i < |es| ==> es[i].leafNum < LEAF_NUMS && es[i].synonymLeaf < 256
  }

  /** No element occurs at two places. */
  ghost predicate Apart(ss: seq<seq<nat>>) {
    forall i, j, i', j' ::
      && 0 <= i < |ss| && 0 <= j < |ss[i]|
      && 0 <= i' < |ss| && 0 <= j' < |ss[i']|
      && ss[i][j] == ss[i'][j']
      ==> i == i' && j == j'
  }

  ghost function Link(chain: seq<nat>, j: nat): nat {
    if j < |chain| then chain[j] else 0
  }

  /** Entry te heads the chain of slots, and nums are the leaves along it, the head's first. */
  ghost predicate ChainOk(te: TableEntry, chain: seq<nat>, nums: seq<nat>, syn: seq<TableEntry>)
    requires |syn| == SYNONYM_MAX
  {
    && te.synonymLeaf == Link(chain, 0)
    && |nums| == |chain| + 1 && nums[0] == te.leafNum
    && (forall j :: 0 <= j < |chain| ==> 1 <= chain[j] < syn[0].leafNum < SYNONYM_MAX)
    && (forall j :: 0 <= j < |chain| ==> syn[chain[j]] == TableEntry(nums[j + 1], Link(chain, j + 1)))
  }

  ghost predicate InUse(nums: seq<seq<nat>>, used: nat) {
    forall i, j :: 0 <= i < |nums| && 0 <= j < |nums[i]| ==> nums[i][j] < used
  }

  /** All slots, also free and unlinked ones, hold numbers of used leaves or small ones, and small links. */
  ghost predicate SlotsBounded(syn: seq<TableEntry>, used: nat) {
    forall p :: 0 <= p < |syn| ==>
      (syn[p].leafNum < used || syn[p].leafNum < SYNONYM_MAX) && syn[p].synonymLeaf < SYNONYM_MAX
  }

  ghost predicate Linked(table: seq<TableEntry>, syn: seq<TableEntry>, chains: seq<seq<nat>>,
                         nums: seq<seq<nat>>, used: nat) {
    && |syn| == SYNONYM_MAX && 1 <= syn[0].leafNum < SYNONYM_MAX
    && |chains| == |nums| == |table|
    && (forall i :: 0 <= i < |table| ==> ChainOk(table[i], chains[i], nums[i], syn))
    && Apart(chains) && Apart(nums) && InUse(nums, used) && SlotsBounded(syn, used)
  }

  /** The groups that the leaf numbers stand for in a given leaf region. */
  ghost function GroupsOf(nums: seq<seq<nat>>, pool: seq<seq<Entry>>): (gs: seq<Group>)
    requires InUse(nums, |pool|)
    ensures |gs| == |nums|
    ensures forall i :: 0 <= i < |nums| ==> |gs[i]| == |nums[i]|
    ensures forall i, j :: 0 <= i < |nums| && 0 <= j < |nums[i]| ==> gs[i][j] == pool[nums[i][j]]
  {
    seq(|nums|, i requires 0 <= i < |nums| =>
          seq(|nums[i]|, j requires 0 <= j < |nums[i]| => pool[nums[i][j]]))
  }

  /** Two group sequences of the same leaves are the same. */
  lemma GroupsEqual(a: seq<Group>, b: seq<Group>)
    requires |a| == |b|
    requires forall i :: 0 <= i < |a| ==> |a[i]| == |b[i]|
    requires forall i, j :: 0 <= i < |a| && 0 <= j < |a[i]| ==> a[i][j] == b[i][j]
    ensures a == b
  {
    forall i | 0 <= i < |a| ensures a[i] == b[i] {
    }
  }

  /** Changing one leaf changes one place of one group. */
  lemma PoolUpdate(nums: seq<seq<nat>>, pool: seq<seq<Entry>>, i: nat, j: nat, l: seq<Entry>)
    requires InUse(nums, |pool|) && Apart(nums) && i < |nums| && j < |nums[i]|
    ensures GroupsOf(nums, pool[nums[i][j] := l])
         == GroupsOf(nums, pool)[i := GroupsOf(nums, pool)[i][j := l]]
  {
    var a, gs := GroupsOf(nums, pool[nums[i][j] := l]), GroupsOf(nums, pool);
    var b := gs[i := gs[i][j := l]];
    forall k, m | 0 <= k < |a| && 0 <= m < |a[k]| ensures a[k][m] == b[k][m] {
      if nums[k][m] == nums[i][j] { assert k == i && m == j; }
    }
    GroupsEqual(a, b);
  }

  function Put<T>(s: seq<T>, j: nat, x: T): seq<T>
    requires j <= |s|
  {
    s[..j] + [x] + s[j..]
  }

  function Drop<T>(s: seq<T>, j: nat): seq<T>
    requires j < |s|
  {
    s[..j] + s[j + 1..]
  }

  // ---------- linking a new slot ----------

  lemma PutOrigin(ss: seq<seq<nat>>, i: nat, j: nat, x: nat, a: nat, b: nat)
    requires i < |ss| && j <= |ss[i]| && a < |ss|
    requires var t := ss[i := Put<nat>(ss[i], j, x)]; b < |t[a]|
    ensures var t := ss[i := Put<nat>(ss[i], j, x)];
            if a != i then t[a] == ss[a]
            else if b < j then t[a][b] == ss[a][b]
            else if b == j then t[a][b] == x
            else b - 1 < |ss[a]| && t[a][b] == ss[a][b - 1]
  {
  }

  lemma PutApart(ss: seq<seq<nat>>, i: nat, j: nat, x: nat, bound: nat)
    requires Apart(ss) && i < |ss| && j <= |ss[i]| && InUse(ss, bound) && x >= bound
    ensures Apart(ss[i := Put<nat>(ss[i], j, x)])
    ensures InUse(ss[i := Put<nat>(ss[i], j, x)], x + 1)
  {
    var t := ss[i := Put<nat>(ss[i], j, x)];
    forall a, b, a', b' |
      && 0 <= a < |t| && 0 <= b < |t[a]|
      && 0 <= a' < |t| && 0 <= b' < |t[a']|
      && t[a][b] == t[a'][b']
      ensures a == a' && b == b'
    {
      PutOrigin(ss, i, j, x, a, b);
      PutOrigin(ss, i, j, x, a', b');
    }
    forall a, b | 0 <= a < |t| && 0 <= b < |t[a]| ensures t[a][b] < x + 1 {
      PutOrigin(ss, i, j, x, a, b);
    }
  }

  /** The state after a fresh slot with leaf y is linked in behind position j of group i. */
  function LinkedTable(table: seq<TableEntry>, i: nat, j: nat, slot: nat): seq<TableEntry>
    requires i < |table|
  {
    if j == 0 then table[i := table[i].(synonymLeaf := slot)] else table
  }

  ghost function LinkedSlots(syn: seq<TableEntry>, te: TableEntry, chain: seq<nat>, j: nat, y: nat): seq<TableEntry>
    requires |syn| == SYNONYM_MAX && 1 <= syn[0].leafNum < SYNONYM_MAX && j <= |chain|
    requires forall k :: 0 <= k < |chain| ==> 1 <= chain[k] < syn[0].leafNum
  {
    var slot := syn[0].leafNum;
    var more := syn[0 := syn[0].(leafNum := slot + 1)];
    var before := if j == 0 then more else more[chain[j - 1] := more[chain[j - 1]].(synonymLeaf := slot)];
    before[slot := TableEntry(y, Link(chain, j))]
  }

  lemma LinkKeepsOther(te: TableEntry, chain: seq<nat>, nums: seq<nat>, syn: seq<TableEntry>, syn': seq<TableEntry>)
    requires |syn| == |syn'| == SYNONYM_MAX && ChainOk(te, chain, nums, syn)
    requires syn[0].leafNum <= syn'[0].leafNum < SYNONYM_MAX
    requires forall k :: 0 <= k < |chain| ==> syn'[chain[k]] == syn[chain[k]]
    ensures ChainOk(te, chain, nums, syn')
  {
  }

  ghost predicate SlotOk(chain: seq<nat>, nums: seq<nat>, syn: seq<TableEntry>, k: nat)
    requires |syn| == SYNONYM_MAX && k < |chain| && |nums| == |chain| + 1
  {
    chain[k] < SYNONYM_MAX && syn[chain[k]] == TableEntry(nums[k + 1], Link(chain, k + 1))
  }

  ghost predicate Distinct(c: seq<nat>) {
    forall a, b :: 0 <= a < |c| && 0 <= b < |c| && c[a] == c[b] ==> a == b
  }

  lemma PutAt<T>(s: seq<T>, j: nat, x: T, k: nat)
    requires j <= |s| && k <= |s|
    ensures |Put(s, j, x)| == |s| + 1
    ensures Put(s, j, x)[k] == if k < j then s[k] else if k == j then x else s[k - 1]
  {
  }

  lemma LinkedSlotsAt(syn: seq<TableEntry>, te: TableEntry, chain: seq<nat>, j: nat, y: nat, p: nat)
    requires |syn| == SYNONYM_MAX && 1 <= syn[0].leafNum < SYNONYM_MAX - 1 && j <= |chain| && p < SYNONYM_MAX
    requires forall k :: 0 <= k < |chain| ==> 1 <= chain[k] < syn[0].leafNum
    ensures var s, slot := LinkedSlots(syn, te, chain, j, y), syn[0].leafNum;
            && |s| == SYNONYM_MAX
            && s[p] == if p == slot then TableEntry(y, Link(chain, j))
                       else if j > 0 && p == chain[j - 1] then syn[p].(synonymLeaf := slot)
                       else if p == 0 then syn[0].(leafNum := slot + 1)
                       else syn[p]
  {
  }

  lemma ChainBounds(te: TableEntry, chain: seq<nat>, nums: seq<nat>, syn: seq<TableEntry>)
    requires |syn| == SYNONYM_MAX && ChainOk(te, chain, nums, syn)
    ensures |nums| == |chain| + 1 && forall k :: 0 <= k < |chain| ==> 1 <= chain[k] < syn[0].leafNum
  {
  }

  lemma PutLink(chain: seq<nat>, j: nat, slot: nat, k: nat)
    requires j <= |chain| && k <= |chain| + 1
    ensures Link(Put<nat>(chain, j, slot), k) ==
              if k < j then Link(chain, k) else if k == j then slot else Link(chain, k - 1)
  {
  }

  lemma OldSlot(te: TableEntry, chain: seq<nat>, nums: seq<nat>, syn: seq<TableEntry>, o: nat, j: nat)
    requires |syn| == SYNONYM_MAX && ChainOk(te, chain, nums, syn) && Distinct(chain) && o < |chain| && j <= |chain|
    ensures |nums| == |chain| + 1 && 1 <= chain[o] < syn[0].leafNum < SYNONYM_MAX
    ensures syn[chain[o]] == TableEntry(nums[o + 1], Link(chain, o + 1))
    ensures j > 0 && chain[o] == chain[j - 1] ==> o == j - 1
  {
  }

  lemma LinkedSlotOk(te: TableEntry, chain: seq<nat>, nums: seq<nat>, syn: seq<TableEntry>, j: nat, y: nat, k: nat)
    requires |syn| == SYNONYM_MAX && 1 <= syn[0].leafNum < SYNONYM_MAX - 1
    requires ChainOk(te, chain, nums, syn) && j <= |chain| && Distinct(chain) && k <= |chain|
    ensures var c, n := Put<nat>(chain, j, syn[0].leafNum), Put<nat>(nums, j + 1, y);
            var s := LinkedSlots(syn, te, chain, j, y);
            && |c| == |chain| + 1 && |n| == |c| + 1 && |s| == SYNONYM_MAX
            && 1 <= c[k] <= syn[0].leafNum && SlotOk(c, n, s, k)
  {
    hide Put, LinkedSlots, ChainOk, Distinct, Link;
    ChainBounds(te, chain, nums, syn);
    var slot := syn[0].leafNum;
    var c, n := Put<nat>(chain, j, slot), Put<nat>(nums, j + 1, y);
    var s := LinkedSlots(syn, te, chain, j, y);
    PutAt<nat>(chain, j, slot, k);
    PutAt<nat>(nums, j + 1, y, k + 1);
    LinkedSlotsAt(syn, te, chain, j, y, c[k]);
    PutLink(chain, j, slot, k + 1);
    if k < j {
      OldSlot(te, chain, nums, syn, k, j);
      assert s[c[k]] == TableEntry(nums[k + 1], if k == j - 1 then slot else Link(chain, k + 1));
    } else if k == j {
      assert s[c[k]] == TableEntry(y, Link(chain, j));
    } else {
      OldSlot(te, chain, nums, syn, k - 1, j);
      assert s[c[k]] == TableEntry(nums[k], Link(chain, k));
    }
  }

  lemma LinkIntoChain(te: TableEntry, chain: seq<nat>, nums: seq<nat>, syn: seq<TableEntry>, j: nat, y: nat)
    requires |syn| == SYNONYM_MAX && 1 <= syn[0].leafNum < SYNONYM_MAX - 1
    requires ChainOk(te, chain, nums, syn) && j <= |chain| && Distinct(chain)
    ensures var slot := syn[0].leafNum;
            ChainOk(if j == 0 then te.(synonymLeaf := slot) else te,
                    Put<nat>(chain, j, slot), Put<nat>(nums, j + 1, y), LinkedSlots(syn, te, chain, j, y))
  {
    hide Put, LinkedSlots, Distinct;
    var slot := syn[0].leafNum;
    var c, n, s := Put<nat>(chain, j, slot), Put<nat>(nums, j + 1, y), LinkedSlots(syn, te, chain, j, y);
    PutAt<nat>(chain, j, slot, 0);
    PutAt<nat>(nums, j + 1, y, 0);
    LinkedSlotsAt(syn, te, chain, j, y, 0);
    forall k | 0 <= k < |c|
      ensures 1 <= c[k] < s[0].leafNum && SlotOk(c, n, s, k)
    {
      LinkedSlotOk(te, chain, nums, syn, j, y, k);
    }
  }

  /** The chains of all other entries are as before. */
  lemma OthersLinked(table: seq<TableEntry>, syn: seq<TableEntry>, chains: seq<seq<nat>>, nums: seq<seq<nat>>,
                     used: nat, i: nat, j: nat, y: nat)
    requires Linked(table, syn, chains, nums, used) && i < |table| && j <= |chains[i]|
    requires syn[0].leafNum < SYNONYM_MAX - 1
    requires forall k :: 0 <= k < |chains[i]| ==> 1 <= chains[i][k] < syn[0].leafNum
    ensures forall k :: 0 <= k < |table| && k != i ==>
              ChainOk(table[k], chains[k], nums[k], LinkedSlots(syn, table[i], chains[i], j, y))
  {
    hide LinkedSlots, Link, InUse;
    var syn' := LinkedSlots(syn, table[i], chains[i], j, y);
    LinkedSlotsAt(syn, table[i], chains[i], j, y, 0);
    forall k | 0 <= k < |table| && k != i ensures ChainOk(table[k], chains[k], nums[k], syn') {
      assert ChainOk(table[k], chains[k], nums[k], syn);
      forall m | 0 <= m < |chains[k]| ensures syn'[chains[k][m]] == syn[chains[k][m]] {
        if j > 0 { assert chains[k][m] != chains[i][j - 1]; }
        LinkedSlotsAt(syn, table[i], chains[i], j, y, chains[k][m]);
      }
      LinkKeepsOther(table[k], chains[k], nums[k], syn, syn');
    }
  }

  lemma SlotsInUse(table: seq<TableEntry>, syn: seq<TableEntry>, chains: seq<seq<nat>>, nums: seq<seq<nat>>, used: nat)
    requires Linked(table, syn, chains, nums, used)
    ensures InUse(chains, syn[0].leafNum)
  {
    forall i, j | 0 <= i < |chains| && 0 <= j < |chains[i]| ensures chains[i][j] < syn[0].leafNum {
      assert ChainOk(table[i], chains[i], nums[i], syn);
    }
  }

  /** What a linked table says of one entry. */
  lemma ChainParts(table: seq<TableEntry>, syn: seq<TableEntry>, chains: seq<seq<nat>>, nums: seq<seq<nat>>,
                   used: nat, i: nat)
    requires Linked(table, syn, chains, nums, used) && i < |table|
    ensures ChainOk(table[i], chains[i], nums[i], syn) && Distinct(chains[i])
    ensures |nums[i]| == |chains[i]| + 1
    ensures forall k :: 0 <= k < |chains[i]| ==> 1 <= chains[i][k] < syn[0].leafNum
  {
    assert ChainOk(table[i], chains[i], nums[i], syn);
  }

  lemma LinkKeepsBounds(syn: seq<TableEntry>, te: TableEntry, chain: seq<nat>, j: nat, used: nat, y: nat)
    requires |syn| == SYNONYM_MAX && 1 <= syn[0].leafNum < SYNONYM_MAX - 1 && j <= |chain| && y >= used
    requires forall k :: 0 <= k < |chain| ==> 1 <= chain[k] < syn[0].leafNum
    requires SlotsBounded(syn, used)
    ensures SlotsBounded(LinkedSlots(syn, te, chain, j, y), y + 1)
  {
    hide LinkedSlots;
    var s := LinkedSlots(syn, te, chain, j, y);
    LinkedSlotsAt(syn, te, chain, j, y, 0);
    forall p | 0 <= p < |s|
      ensures (s[p].leafNum < y + 1 || s[p].leafNum < SYNONYM_MAX) && s[p].synonymLeaf < SYNONYM_MAX
    {
      LinkedSlotsAt(syn, te, chain, j, y, p);
    }
  }

  lemma LinkIn(table: seq<TableEntry>, syn: seq<TableEntry>, chains: seq<seq<nat>>, nums: seq<seq<nat>>,
               used: nat, i: nat, j: nat, y: nat)
    requires Linked(table, syn, chains, nums, used) && i < |table| && j <= |chains[i]|
    requires syn[0].leafNum < SYNONYM_MAX - 1 && y >= used
    ensures Linked(LinkedTable(table, i, j, syn[0].leafNum), LinkedSlots(syn, table[i], chains[i], j, y),
                   chains[i := Put<nat>(chains[i], j, syn[0].leafNum)], nums[i := Put<nat>(nums[i], j + 1, y)], y + 1)
  {
    hide Put, Apart, ChainOk, InUse, Distinct, Link, LinkedSlots, SlotsBounded;
    var slot := syn[0].leafNum;
    ChainParts(table, syn, chains, nums, used, i);
    SlotsInUse(table, syn, chains, nums, used);
    PutApart(chains, i, j, slot, slot);
    PutApart(nums, i, j + 1, y, used);
    LinkIntoChain(table[i], chains[i], nums[i], syn, j, y);
    LinkedSlotsAt(syn, table[i], chains[i], j, y, 0);
    OthersLinked(table, syn, chains, nums, used, i, j, y);
    LinkKeepsBounds(syn, table[i], chains[i], j, used, y);
  }

  // ---------- unlinking a slot ----------

  lemma DropOrigin(ss: seq<seq<nat>>, i: nat, j: nat, a: nat, b: nat)
    requires i < |ss| && j < |ss[i]| && a < |ss|
    requires var t := ss[i := Drop<nat>(ss[i], j)]; b < |t[a]|
    ensures var t := ss[i := Drop<nat>(ss[i], j)]; var o := if a == i && b >= j then b + 1 else b;
            o < |ss[a]| && t[a][b] == ss[a][o]
  {
  }

  lemma DropApart(ss: seq<seq<nat>>, i: nat, j: nat, bound: nat)
    requires Apart(ss) && i < |ss| && j < |ss[i]| && InUse(ss, bound)
    ensures Apart(ss[i := Drop<nat>(ss[i], j)]) && InUse(ss[i := Drop<nat>(ss[i], j)], bound)
  {
    var t := ss[i := Drop<nat>(ss[i], j)];
    forall a, b, a', b' |
      && 0 <= a < |t| && 0 <= b < |t[a]|
      && 0 <= a' < |t| && 0 <= b' < |t[a']|
      && t[a][b] == t[a'][b']
      ensures a == a' && b == b'
    {
      DropOrigin(ss, i, j, a, b);
      DropOrigin(ss, i, j, a', b');
    }
    forall a, b | 0 <= a < |t| && 0 <= b < |t[a]| ensures t[a][b] < bound {
      DropOrigin(ss, i, j, a, b);
    }
  }

  function UnlinkedTable(table: seq<TableEntry>, i: nat, j: nat, next: nat): seq<TableEntry>
    requires i < |table|
  {
    if j == 0 then table[i := table[i].(synonymLeaf := next)] else table
  }

  function UnlinkedSlots(syn: seq<TableEntry>, chain: seq<nat>, j: nat): seq<TableEntry>
    requires j < |chain| && forall k :: 0 <= k < |chain| ==> chain[k] < |syn|
  {
    if j == 0 then syn else syn[chain[j - 1] := syn[chain[j - 1]].(synonymLeaf := syn[chain[j]].synonymLeaf)]
  }

  lemma DropAt<T>(s: seq<T>, j: nat, k: nat)
    requires j < |s| && k < |s| - 1
    ensures |Drop(s, j)| == |s| - 1
    ensures Drop(s, j)[k] == if k < j then s[k] else s[k + 1]
  {
  }

  lemma DropLink(chain: seq<nat>, j: nat, k: nat)
    requires j < |chain| && k < |chain|
    ensures Link(Drop<nat>(chain, j), k) == if k < j then Link(chain, k) else Link(chain, k + 1)
  {
  }

  lemma UnlinkedSlotsAt(syn: seq<TableEntry>, chain: seq<nat>, j: nat, p: nat)
    requires j < |chain| && p < |syn| && forall k :: 0 <= k < |chain| ==> chain[k] < |syn|
    ensures |UnlinkedSlots(syn, chain, j)| == |syn|
    ensures UnlinkedSlots(syn, chain, j)[p] ==
              if j > 0 && p == chain[j - 1] then syn[p].(synonymLeaf := syn[chain[j]].synonymLeaf) else syn[p]
  {
  }

  lemma UnlinkedSlotOk(te: TableEntry, chain: seq<nat>, nums: seq<nat>, syn: seq<TableEntry>, j: nat, k: nat)
    requires |syn| == SYNONYM_MAX && ChainOk(te, chain, nums, syn) && Distinct(chain)
    requires j < |chain| && k < |chain| - 1
    ensures SlotOk(Drop<nat>(chain, j), Drop<nat>(nums, j + 1), UnlinkedSlots(syn, chain, j), k)
  {
    hide Drop, UnlinkedSlots, ChainOk, Distinct, Link;
    ChainBounds(te, chain, nums, syn);
    var c, n := Drop<nat>(chain, j), Drop<nat>(nums, j + 1);
    var o := if k < j then k else k + 1;
    DropAt<nat>(chain, j, k);
    DropAt<nat>(nums, j + 1, k + 1);
    DropLink(chain, j, k + 1);
    OldSlot(te, chain, nums, syn, o, j);
    UnlinkedSlotsAt(syn, chain, j, chain[o]);
    OldSlot(te, chain, nums, syn, j, j);
  }

  lemma DropSize<T>(s: seq<T>, j: nat)
    requires j < |s|
    ensures |Drop(s, j)| == |s| - 1 && (j > 0 ==> Drop(s, j)[0] == s[0])
  {
  }

  /** Where the head points after the slot at position j is gone. */
  lemma DropFirst(te: TableEntry, chain: seq<nat>, nums: seq<nat>, syn: seq<TableEntry>, j: nat)
    requires |syn| == SYNONYM_MAX && ChainOk(te, chain, nums, syn) && j < |chain|
    ensures Link(Drop<nat>(chain, j), 0) == if j == 0 then syn[chain[0]].synonymLeaf else te.synonymLeaf
  {
  }

  lemma UnlinkFromChain(te: TableEntry, chain: seq<nat>, nums: seq<nat>, syn: seq<TableEntry>, j: nat)
    requires |syn| == SYNONYM_MAX && ChainOk(te, chain, nums, syn) && Distinct(chain) && j < |chain|
    ensures ChainOk(if j == 0 then te.(synonymLeaf := syn[chain[j]].synonymLeaf) else te,
                    Drop<nat>(chain, j), Drop<nat>(nums, j + 1), UnlinkedSlots(syn, chain, j))
  {
    hide Drop, UnlinkedSlots, Distinct, Link;
    var c, n, s := Drop<nat>(chain, j), Drop<nat>(nums, j + 1), UnlinkedSlots(syn, chain, j);
    DropSize<nat>(chain, j);
    DropSize<nat>(nums, j + 1);
    DropFirst(te, chain, nums, syn, j);
    UnlinkedSlotsAt(syn, chain, j, 0);
    forall k | 0 <= k < |c| ensures 1 <= c[k] < s[0].leafNum < SYNONYM_MAX {
      DropAt<nat>(chain, j, k);
    }
    forall k | 0 <= k < |c| ensures s[c[k]] == TableEntry(n[k + 1], Link(c, k + 1)) {
      UnlinkedSlotOk(te, chain, nums, syn, j, k);
    }
  }

  lemma OthersUnlinked(table: seq<TableEntry>, syn: seq<TableEntry>, chains: seq<seq<nat>>, nums: seq<seq<nat>>,
                       used: nat, i: nat, j: nat)
    requires Linked(table, syn, chains, nums, used) && i < |table| && j < |chains[i]|
    requires ChainOk(table[i], chains[i], nums[i], syn)
    ensures UnlinkedSlots(syn, chains[i], j)[0] == syn[0]
    ensures forall k :: 0 <= k < |table| && k != i ==>
              ChainOk(table[k], chains[k], nums[k], UnlinkedSlots(syn, chains[i], j))
  {
    var syn' := UnlinkedSlots(syn, chains[i], j);
    forall k | 0 <= k < |table| && k != i ensures ChainOk(table[k], chains[k], nums[k], syn') {
      assert ChainOk(table[k], chains[k], nums[k], syn);
      forall m | 0 <= m < |chains[k]| ensures syn'[chains[k][m]] == syn[chains[k][m]] {
        if j > 0 { assert chains[k][m] != chains[i][j - 1]; }
      }
      LinkKeepsOther(table[k], chains[k], nums[k], syn, syn');
    }
  }

  lemma UnlinkKeepsBounds(syn: seq<TableEntry>, chain: seq<nat>, j: nat, used: nat)
    requires j < |chain| && (forall k :: 0 <= k < |chain| ==> chain[k] < |syn|) && SlotsBounded(syn, used)
    ensures SlotsBounded(UnlinkedSlots(syn, chain, j), used)
  {
  }

  lemma UnlinkOut(table: seq<TableEntry>, syn: seq<TableEntry>, chains: seq<seq<nat>>, nums: seq<seq<nat>>,
                  used: nat, i: nat, j: nat)
    requires Linked(table, syn, chains, nums, used) && i < |table| && j < |chains[i]|
    ensures ChainOk(table[i], chains[i], nums[i], syn)
    ensures Linked(UnlinkedTable(table, i, j, syn[chains[i][j]].synonymLeaf), UnlinkedSlots(syn, chains[i], j),
                   chains[i := Drop<nat>(chains[i], j)], nums[i := Drop<nat>(nums[i], j + 1)], used)
  {
    hide Drop, Apart, ChainOk, InUse, Distinct, Link, UnlinkedSlots, SlotsBounded;
    ChainParts(table, syn, chains, nums, used, i);
    SlotsInUse(table, syn, chains, nums, used);
    DropApart(chains, i, j, syn[0].leafNum);
    DropApart(nums, i, j + 1, used);
    UnlinkFromChain(table[i], chains[i], nums[i], syn, j);
    OthersUnlinked(table, syn, chains, nums, used, i, j);
    UnlinkedSlotsAt(syn, chains[i], j, 0);
    UnlinkKeepsBounds(syn, chains[i], j, used);
  }

  lemma GroupsDrop(nums: seq<seq<nat>>, pool: seq<seq<Entry>>, i: nat, j: nat)
    requires InUse(nums, |pool|) && i < |nums| && j < |nums[i]|
    ensures InUse(nums[i := Drop<nat>(nums[i], j)], |pool|)
    ensures GroupsOf(nums[i := Drop<nat>(nums[i], j)], pool)
         == GroupsOf(nums, pool)[i := Drop(GroupsOf(nums, pool)[i], j)]
  {
    var t := nums[i := Drop<nat>(nums[i], j)];
    forall a, b | 0 <= a < |t| && 0 <= b < |t[a]| ensures t[a][b] < |pool| {
      DropOrigin(nums, i, j, a, b);
    }
    var gs := GroupsOf(nums, pool);
    GroupsEqual(GroupsOf(t, pool), gs[i := Drop(gs[i], j)]);
  }
}

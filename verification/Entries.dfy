/**
 The abstract content of every level of the index: a strictly sorted sequence of entries, with
 the operations of a finite map and of an ordered range on it.
 */
module Entries {
  import opened LinearModel

  type Val = Key

  /** Marks a free slot; no stored key has this value. */
  const INVALID_KEY: Key := MAX_U64

  datatype Entry = Entry(key: Key, val: Val)

  datatype Option<+T> = None | Some(value: T)

  ghost predicate Sorted(s: seq<Entry>) {
    && (forall i, j :: 0 <= i < j < |s| ==> s[i].key < s[j].key)
    && (forall i :: 0 <= i < |s| ==> s[i].key < INVALID_KEY)
  }

  /** The first position whose key is not below the given one. */
  function Rank(s: seq<Entry>, key: Key): (r: nat)
    ensures r <= |s|
    ensures forall i :: 0 <= i < r ==> s[i].key < key
    ensures r < |s| ==> s[r].key >= key
  {
    if s == [] || s[0].key >= key then 0 else 1 + Rank(s[1..], key)
  }

  ghost predicate Has(s: seq<Entry>, key: Key) {
    exists i :: 0 <= i < |s| && s[i].key == key
  }

  ghost function Lookup(s: seq<Entry>, key: Key): Option<Val> {
    var r := Rank(s, key);
    if r < |s| && s[r].key == key then Some(s[r].val) else None
  }

  /** The part from r to k replaced by x. */
  function Splice<T>(s: seq<T>, r: nat, k: nat, x: seq<T>): seq<T>
    requires r <= k <= |s|
  {
    s[..r] + x + s[k..]
  }

  ghost function Inserted(s: seq<Entry>, key: Key, val: Val): seq<Entry> {
    Splice(s, Rank(s, key), Rank(s, key), [Entry(key, val)])
  }

  ghost function Updated(s: seq<Entry>, key: Key, val: Val): seq<Entry> {
    if Lookup(s, key).Some? then Splice(s, Rank(s, key), Rank(s, key) + 1, [Entry(key, val)]) else s
  }

  ghost function Removed(s: seq<Entry>, key: Key): seq<Entry> {
    if Lookup(s, key).Some? then Splice(s, Rank(s, key), Rank(s, key) + 1, []) else s
  }

  ghost function Take(s: seq<Entry>, n: nat): seq<Entry> {
    if |s| <= n then s else s[..n]
  }

  ghost function Vals(s: seq<Entry>): (r: seq<Val>)
    ensures |r| == |s|
  {
    seq(|s|, i requires 0 <= i < |s| => s[i].val)
  }

  /** The values of the at most n first entries whose key is not below the given one. */
  ghost function RangeVals(s: seq<Entry>, key: Key, n: nat): seq<Val> {
    Vals(Take(s[Rank(s, key)..], n))
  }

  // ---------- what the operations mean for a sorted sequence ----------

  lemma HasIsLookup(s: seq<Entry>, key: Key)
    requires Sorted(s)
    ensures Has(s, key) <==> Lookup(s, key).Some?
  {
    var r := Rank(s, key);
    if i :| 0 <= i < |s| && s[i].key == key {
      assert i >= r;
      if i > r { assert s[r].key < s[i].key; }
    }
  }

  lemma LookupAt(s: seq<Entry>, i: nat)
    requires Sorted(s) && i < |s|
    ensures Rank(s, s[i].key) == i && Lookup(s, s[i].key) == Some(s[i].val)
  {
  }

  lemma InsertedSorted(s: seq<Entry>, key: Key, val: Val)
    requires Sorted(s) && key < INVALID_KEY && !Has(s, key)
    ensures Sorted(Inserted(s, key, val))
  {
    var t, r := Inserted(s, key, val), Rank(s, key);
    assert forall i :: 0 <= i < |s| ==> s[i].key != key;
    forall i, j | 0 <= i < j < |t| ensures t[i].key < t[j].key {
      assert j < r ==> t[i] == s[i] && t[j] == s[j];
      assert i < r < j ==> t[i] == s[i] && t[j] == s[j - 1];
      assert r < i ==> t[i] == s[i - 1] && t[j] == s[j - 1];
      assert i == r ==> s[r].key <= s[j - 1].key;
    }
  }

  lemma UpdatedSorted(s: seq<Entry>, key: Key, val: Val)
    requires Sorted(s)
    ensures Sorted(Updated(s, key, val))
  {
    var t := Updated(s, key, val);
    assert forall i :: 0 <= i < |s| ==> t[i].key == s[i].key;
  }

  lemma RemovedSorted(s: seq<Entry>, key: Key)
    requires Sorted(s)
    ensures Sorted(Removed(s, key))
  {
    var t, r := Removed(s, key), Rank(s, key);
    if Lookup(s, key).Some? {
      assert forall i :: 0 <= i < |t| ==> t[i] == s[if i < r then i else i + 1];
    }
  }

  lemma KeysAreLookups(s: seq<Entry>, keys: set<Key>)
    requires Sorted(s) && keys == set i | 0 <= i < |s| :: s[i].key
    ensures forall k :: k in keys <==> Lookup(s, k).Some?
  {
    forall k: Key ensures k in keys <==> Lookup(s, k).Some? {
      HasIsLookup(s, k);
    }
  }

  ghost function AsMap(s: seq<Entry>): (m: map<Key, Val>)
    requires Sorted(s)
    ensures forall k :: k in m <==> Lookup(s, k).Some?
    ensures forall k :: k in m ==> Lookup(s, k) == Some(m[k])
  {
    var keys := set i | 0 <= i < |s| :: s[i].key;
    KeysAreLookups(s, keys);
    map k | k in keys :: Lookup(s, k).value
  }

  lemma LookupFound(s: seq<Entry>, i: nat, k: Key)
    requires Sorted(s) && i < |s| && s[i].key == k
    ensures Lookup(s, k) == Some(s[i].val)
  {
    LookupAt(s, i);
  }

  lemma InsertedAt(s: seq<Entry>, key: Key, val: Val, i: nat)
    requires i <= |s|
    ensures |Inserted(s, key, val)| == |s| + 1
    ensures var r := Rank(s, key);
            Inserted(s, key, val)[i] == if i < r then s[i] else if i == r then Entry(key, val) else s[i - 1]
  {
  }

  lemma AbsentAt(s: seq<Entry>, key: Key)
    requires !Has(s, key)
    ensures forall i :: 0 <= i < |s| ==> s[i].key != key
  {
  }

  /** Insertion of an absent key is map update. */
  lemma InsertedLookup(s: seq<Entry>, key: Key, val: Val, k: Key)
    requires Sorted(s) && !Has(s, key) && Sorted(Inserted(s, key, val))
    ensures Lookup(Inserted(s, key, val), k) == if k == key then Some(val) else Lookup(s, k)
  {
    hide Sorted, Inserted, Has;
    AbsentAt(s, key);
    InsertedAt(s, key, val, 0);
    var t, r, q := Inserted(s, key, val), Rank(s, key), Rank(s, k);
    if k == key {
      InsertedAt(s, key, val, r);
      LookupFound(t, r, k);
    } else if Lookup(s, k).Some? {
      var p := if q < r then q else q + 1;
      InsertedAt(s, key, val, p);
      LookupFound(t, p, k);
    } else if Lookup(t, k).Some? {
      var w := Rank(t, k);
      InsertedAt(s, key, val, w);
      LookupFound(s, if w < r then w else w - 1, k);
      assert false;
    }
  }

  lemma RemovedAt(s: seq<Entry>, key: Key, i: nat)
    ensures if Lookup(s, key).None? then Removed(s, key) == s else |Removed(s, key)| == |s| - 1
    ensures Lookup(s, key).Some? && i < |s| - 1 ==> Removed(s, key)[i] == s[if i < Rank(s, key) then i else i + 1]
  {
  }

  lemma OtherKey(s: seq<Entry>, i: nat, j: nat)
    requires Sorted(s) && i < |s| && j < |s| && i != j
    ensures s[i].key != s[j].key
  {
  }

  lemma UpdatedLookup(s: seq<Entry>, key: Key, val: Val, k: Key)
    requires Sorted(s)
    ensures Lookup(Updated(s, key, val), k)
         == if k == key && Lookup(s, key).Some? then Some(val) else Lookup(s, k)
  {
    var t, q := Updated(s, key, val), Rank(s, k);
    if Lookup(s, key).Some? {
      assert forall i :: 0 <= i < |s| ==> t[i].key == s[i].key;
      assert Rank(t, k) == q;
    }
  }

  lemma RemovedLookup(s: seq<Entry>, key: Key, k: Key)
    requires Sorted(s) && Sorted(Removed(s, key))
    ensures Lookup(Removed(s, key), k) == if k == key then None else Lookup(s, k)
  {
    hide Sorted, Removed;
    var t, r, q := Removed(s, key), Rank(s, key), Rank(s, k);
    RemovedAt(s, key, 0);
    if Lookup(s, key).Some? {
      if k != key && Lookup(s, k).Some? {
        var p := if q < r then q else q - 1;
        RemovedAt(s, key, p);
        LookupFound(t, p, k);
      } else {
        var w := Rank(t, k);
        if Lookup(t, k).Some? {
          var v := if w < r then w else w + 1;
          RemovedAt(s, key, w);
          LookupFound(s, v, k);
          OtherKey(s, v, r);
          assert false;
        }
      }
    }
  }

  /** The operations on the sorted sequence are those of a finite map. */
  lemma InsertedIsMapUpdate(s: seq<Entry>, key: Key, val: Val)
    requires Sorted(s) && key < INVALID_KEY && key !in AsMap(s)
    ensures Sorted(Inserted(s, key, val))
    ensures AsMap(Inserted(s, key, val)) == AsMap(s)[key := val]
  {
    hide Rank, Lookup, Inserted, Sorted, Has;
    HasIsLookup(s, key);
    InsertedSorted(s, key, val);
    forall k: Key
      ensures Lookup(Inserted(s, key, val), k) == if k == key then Some(val) else Lookup(s, k)
    {
      InsertedLookup(s, key, val, k);
    }
  }

  lemma UpdatedIsMapUpdate(s: seq<Entry>, key: Key, val: Val)
    requires Sorted(s)
    ensures Sorted(Updated(s, key, val))
    ensures AsMap(Updated(s, key, val)) == if key in AsMap(s) then AsMap(s)[key := val] else AsMap(s)
  {
    hide Rank, Lookup, Updated, Sorted;
    UpdatedSorted(s, key, val);
    forall k: Key
      ensures Lookup(Updated(s, key, val), k)
           == if k == key && Lookup(s, key).Some? then Some(val) else Lookup(s, k)
    {
      UpdatedLookup(s, key, val, k);
    }
  }

  lemma RemovedIsMapRemoval(s: seq<Entry>, key: Key)
    requires Sorted(s)
    ensures Sorted(Removed(s, key))
    ensures AsMap(Removed(s, key)) == AsMap(s) - {key}
  {
    hide Rank, Lookup, Removed, Sorted;
    RemovedSorted(s, key);
    forall k: Key
      ensures Lookup(Removed(s, key), k) == if k == key then None else Lookup(s, k)
    {
      RemovedLookup(s, key, k);
    }
  }

  // ---------- the same operations inside a part of a longer sequence ----------

  ghost predicate AllBelow(s: seq<Entry>, key: Key) {
    forall i :: 0 <= i < |s| ==> s[i].key < key
  }

  ghost predicate AllAbove(s: seq<Entry>, key: Key) {
    forall i :: 0 <= i < |s| ==> s[i].key > key
  }

  /** The contract of the rank determines it. */
  lemma RankIs(s: seq<Entry>, key: Key, r: nat)
    requires r <= |s| && (forall i :: 0 <= i < r ==> s[i].key < key) && (r < |s| ==> s[r].key >= key)
    ensures Rank(s, key) == r
  {
    hide Rank;
    var q := Rank(s, key);
    assert q < |s| ==> s[q].key >= key;
  }

  lemma RankInTheMiddle(a: seq<Entry>, mid: seq<Entry>, b: seq<Entry>, key: Key)
    requires AllBelow(a, key) && AllAbove(b, key)
    ensures Rank(a + mid + b, key) == |a| + Rank(mid, key)
  {
    var s, r := a + mid + b, Rank(mid, key);
    forall i | 0 <= i < |a| + r ensures s[i].key < key {
      if i >= |a| { assert s[i] == mid[i - |a|]; }
    }
    assert r < |mid| ==> s[|a| + r] == mid[r];
    assert r == |mid| && b != [] ==> s[|a| + r] == b[0];
    RankIs(s, key, |a| + r);
  }

  lemma LookupInTheMiddle(a: seq<Entry>, mid: seq<Entry>, b: seq<Entry>, key: Key)
    requires AllBelow(a, key) && AllAbove(b, key)
    ensures Lookup(a + mid + b, key) == Lookup(mid, key)
  {
    var s, r := a + mid + b, Rank(mid, key);
    RankInTheMiddle(a, mid, b, key);
    assert r < |mid| ==> s[|a| + r] == mid[r];
    assert r == |mid| && b != [] ==> s[|a| + r] == b[0];
  }

  lemma SpliceInTheMiddle<T>(a: seq<T>, mid: seq<T>, b: seq<T>, r: nat, k: nat, x: seq<T>)
    requires r <= k <= |mid|
    ensures Splice(a + mid + b, |a| + r, |a| + k, x) == a + Splice(mid, r, k, x) + b
  {
    assert (a + mid + b)[..|a| + r] == a + mid[..r];
    assert (a + mid + b)[|a| + k..] == mid[k..] + b;
  }

  /** With everything in front below the key and everything behind above, only the middle matters. */
  lemma InTheMiddle(a: seq<Entry>, mid: seq<Entry>, b: seq<Entry>, key: Key, val: Val)
    requires AllBelow(a, key) && AllAbove(b, key)
    ensures Lookup(a + mid + b, key) == Lookup(mid, key)
    ensures Inserted(a + mid + b, key, val) == a + Inserted(mid, key, val) + b
    ensures Updated(a + mid + b, key, val) == a + Updated(mid, key, val) + b
    ensures Removed(a + mid + b, key) == a + Removed(mid, key) + b
  {
    hide Rank, Splice, AllBelow, AllAbove;
    var r := Rank(mid, key);
    RankInTheMiddle(a, mid, b, key);
    LookupInTheMiddle(a, mid, b, key);
    SpliceInTheMiddle(a, mid, b, r, r, [Entry(key, val)]);
    if Lookup(mid, key).Some? {
      SpliceInTheMiddle(a, mid, b, r, r + 1, [Entry(key, val)]);
      SpliceInTheMiddle(a, mid, b, r, r + 1, []);
    }
  }

  lemma SortedParts(a: seq<Entry>, b: seq<Entry>)
    requires Sorted(a + b)
    ensures Sorted(a) && Sorted(b)
    ensures forall i, j :: 0 <= i < |a| && 0 <= j < |b| ==> a[i].key < b[j].key
  {
    var s := a + b;
    assert forall i :: 0 <= i < |a| ==> s[i] == a[i];
    assert forall j :: 0 <= j < |b| ==> s[|a| + j] == b[j];
  }

  // ---------- ranges ----------

  lemma RankConcat(a: seq<Entry>, b: seq<Entry>, key: Key)
    ensures Rank(a + b, key) == if Rank(a, key) < |a| then Rank(a, key) else |a| + Rank(b, key)
  {
    var s, p, t := a + b, Rank(a, key), Rank(b, key);
    assert forall i :: 0 <= i < |a| ==> s[i] == a[i];
    assert forall j :: 0 <= j < |b| ==> s[|a| + j] == b[j];
    var r := if p < |a| then p else |a| + t;
    forall i | 0 <= i < r ensures s[i].key < key {
      if i >= |a| { assert s[i] == b[i - |a|]; }
    }
    RankIs(s, key, r);
  }

  lemma TakeConcat(x: seq<Entry>, y: seq<Entry>, n: nat)
    ensures |Take(x, n)| <= n
    ensures Vals(Take(x + y, n)) == Vals(Take(x, n)) + Vals(Take(y, n - |Take(x, n)|))
  {
    if |x| <= n {
      var k := n - |x|;
      assert Take(x + y, n) == x + Take(y, k);
    } else {
      assert Take(x + y, n) == Take(x, n);
      assert Take(y, 0) == [];
    }
  }

  lemma BackIsLarger(a: seq<Entry>, b: seq<Entry>, key: Key)
    requires Sorted(a + b)
    ensures Rank(a, key) < |a| && b != [] ==> b[0].key >= key
  {
    var p := Rank(a, key);
    if p < |a| && b != [] { assert (a + b)[p].key < (a + b)[|a|].key; }
  }

  lemma RestSplits(a: seq<Entry>, b: seq<Entry>, p: nat, q: nat, r: nat)
    requires p <= |a| && q <= |b| && r == (if p < |a| then p else |a| + q) && (p < |a| ==> q == 0)
    ensures (a + b)[r..] == a[p..] + b[q..]
  {
  }

  lemma FirstIsRankZero(b: seq<Entry>, key: Key)
    ensures b != [] && b[0].key >= key ==> Rank(b, key) == 0
    ensures b == [] ==> Rank(b, key) == 0
    ensures b[0..] == b
  {
  }

  /** A range over a concatenation: first from the front part, then the rest from the back part. */
  lemma RangeSplits(a: seq<Entry>, b: seq<Entry>, key: Key, n: nat)
    requires Sorted(a + b)
    ensures |RangeVals(a, key, n)| <= n
    ensures RangeVals(a + b, key, n)
         == RangeVals(a, key, n) + RangeVals(b, key, n - |RangeVals(a, key, n)|)
  {
    hide Rank, Sorted, Take, Vals;
    SortedParts(a, b);
    RankConcat(a, b, key);
    BackIsLarger(a, b, key);
    FirstIsRankZero(b, key);
    RestSplits(a, b, Rank(a, key), Rank(b, key), Rank(a + b, key));
    TakeConcat(a[Rank(a, key)..], b[Rank(b, key)..], n);
  }

  /** How many more values are wanted when c are there already. */
  function Want(n: nat, c: nat): (r: nat)
    ensures c <= c + r && n <= c + r && (c + r == n || r == 0)
  {
    if n <= c then 0 else n - c
  }

  lemma NoneWanted(s: seq<Entry>, key: Key)
    ensures RangeVals(s, key, 0) == []
  {
  }

  /** Appending the range over one more part continues the range over the parts before. */
  lemma RangeContinues(a: seq<Entry>, b: seq<Entry>, key: Key, n: nat, vals: seq<Val>, r: seq<Val>)
    requires Sorted(a + b)
    requires r == vals + RangeVals(a, key, Want(n, |vals|))
    ensures r + RangeVals(b, key, Want(n, |r|)) == vals + RangeVals(a + b, key, Want(n, |vals|))
    ensures |r| >= n ==> r == vals + RangeVals(a + b, key, Want(n, |vals|))
  {
    hide RangeVals, Sorted;
    RangeSplits(a, b, key, Want(n, |vals|));
    NoneWanted(b, key);
  }

  /** Smaller entries in front contribute nothing to a range. */
  lemma RangeSkips(a: seq<Entry>, b: seq<Entry>, key: Key, n: nat)
    requires Sorted(a + b) && AllBelow(a, key)
    ensures RangeVals(a + b, key, n) == RangeVals(b, key, n)
  {
    RangeSplits(a, b, key, n);
    RankIs(a, key, |a|);
    assert RangeVals(a, key, n) == [];
  }
}

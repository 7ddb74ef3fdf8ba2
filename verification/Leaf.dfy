/** A data leaf: fixed arrays of keys and values, used slots first, all others marked free. */
module Leaf {
  import opened LinearModel
  import opened Entries

  ghost predicate LeafOk(l: seq<Entry>) { Sorted(l) && |l| <= SLOTS }

  /** Whether a key may go into a leaf with this content: it is not below its first key. */
  predicate Covers(l: seq<Entry>, key: Key) { l != [] && l[0].key <= key }

  /** The arrays hold the entries in order, and free slots behind them. */
  ghost predicate Holds(ks: seq<Key>, vs: seq<Val>, l: seq<Entry>) {
    && |ks| == |vs| == SLOTS && |l| <= SLOTS
    && (forall i :: 0 <= i < |l| ==> ks[i] == l[i].key && vs[i] == l[i].val)
    && (forall i :: |l| <= i < SLOTS ==> ks[i] == INVALID_KEY)
  }

  /** One place up behind i, and x in its place. */
  function Opened<T>(a: seq<T>, i: nat, j: nat, x: T): seq<T>
    requires i <= j < |a|
  {
    a[..i] + [x] + a[i..j] + a[j + 1..]
  }

  /** One place down behind i. */
  function Closed<T>(a: seq<T>, i: nat, last: T): seq<T>
    requires i < |a|
  {
    a[..i] + a[i + 1..] + [last]
  }

  lemma OpenedHolds(ks: seq<Key>, vs: seq<Val>, l: seq<Entry>, i: nat, key: Key, val: Val)
    requires Holds(ks, vs, l) && i <= |l| < SLOTS
    ensures Holds(Opened(ks, i, |l|, key), Opened(vs, i, |l|, val), Splice(l, i, i, [Entry(key, val)]))
  {
    var j, t := |l|, Splice(l, i, i, [Entry(key, val)]);
    var ks', vs' := Opened(ks, i, j, key), Opened(vs, i, j, val);
    forall m | 0 <= m < |t| ensures ks'[m] == t[m].key && vs'[m] == t[m].val {
      if m > i { assert t[m] == l[m - 1] && ks'[m] == ks[m - 1] && vs'[m] == vs[m - 1]; }
    }
  }

  lemma ReplacedHolds(ks: seq<Key>, vs: seq<Val>, l: seq<Entry>, i: nat, val: Val)
    requires Holds(ks, vs, l) && i < |l|
    ensures Holds(ks, vs[i := val], Splice(l, i, i + 1, [Entry(l[i].key, val)]))
  {
  }

  lemma ClosedHolds(ks: seq<Key>, vs: seq<Val>, l: seq<Entry>, i: nat, last: Val)
    requires Holds(ks, vs, l) && i < |l|
    ensures Holds(Closed(ks, i, INVALID_KEY), Closed(vs, i, last), Splice(l, i, i + 1, []))
  {
    var t := Splice(l, i, i + 1, []);
    var ks', vs' := Closed(ks, i, INVALID_KEY), Closed(vs, i, last);
    forall m | 0 <= m < |t| ensures ks'[m] == t[m].key && vs'[m] == t[m].val {
      if m >= i { assert t[m] == l[m + 1] && ks'[m] == ks[m + 1] && vs'[m] == vs[m + 1]; }
    }
  }

  /** Moves the elements of [i, j) one place up and stores x in the gap. */
  method OpenAt(a: array<Key>, i: nat, j: nat, x: Key)
    requires i <= j < a.Length
    modifies a
    ensures a[..] == Opened(old(a[..]), i, j, x)
  {
    var k := j;
    while k > i
      invariant i <= k <= j
      invariant forall m :: 0 <= m < a.Length ==> a[m] == if k < m <= j then old(a[m - 1]) else old(a[m])
    {
      a[k] := a[k - 1];
      k := k - 1;
    }
    a[i] := x;
  }

  /** Moves the elements behind i one place down. */
  method ShiftDown(a: array<Key>, i: nat)
    requires i < a.Length
    modifies a
    ensures a[..] == Closed(old(a[..]), i, old(a[a.Length - 1]))
  {
    var k := i;
    while k < a.Length - 1
      invariant i <= k < a.Length
      invariant forall m :: 0 <= m < a.Length ==> a[m] == if i <= m < k then old(a[m + 1]) else old(a[m])
    {
      a[k] := a[k + 1];
      k := k + 1;
    }
  }

  class Leaf {
    const keys: array<Key>
    const vals: array<Val>
    /** The entries of the used slots. */
    ghost var entries: seq<Entry>

    ghost predicate Valid()
      reads this, keys, vals
    {
      && keys.Length == vals.Length == SLOTS && keys != vals
      && LeafOk(entries)
      && Holds(keys[..], vals[..], entries)
    }

    constructor ()
      ensures Valid() && entries == [] && fresh(keys) && fresh(vals)
    {
      keys := new Key[SLOTS](_ => INVALID_KEY);
      vals := new Val[SLOTS](_ => 0);
      entries := [];
    }

    predicate IsFull()
      requires Valid()
      reads this, keys, vals
      ensures IsFull() <==> |entries| == SLOTS
    {
      keys[SLOTS - 1] != INVALID_KEY
    }

    predicate IsEmpty()
      requires Valid()
      reads this, keys, vals
      ensures IsEmpty() <==> entries == []
    {
      keys[0] == INVALID_KEY
    }

    predicate InsertHere(key: Key)
      requires Valid() && key < INVALID_KEY
      reads this, keys, vals
      ensures InsertHere(key) <==> Covers(entries, key)
    {
      key >= keys[0]
    }

    /** The key is the only one in the leaf. */
    predicate HoldsOnly(key: Key)
      requires Valid() && key < INVALID_KEY
      reads this, keys, vals
      ensures HoldsOnly(key) <==> |entries| == 1 && entries[0].key == key
    {
      keys[0] == key && keys[1] == INVALID_KEY
    }

    /** The loop shared by search, contain and update. */
    method Find(key: Key) returns (found: bool, i: nat)
      requires Valid() && key < INVALID_KEY
      ensures found <==> Lookup(entries, key).Some?
      ensures found ==> i == Rank(entries, key) < |entries| && keys[i] == key
    {
      HasIsLookup(entries, key);
      i := 0;
      if keys[0] > key {
        assert entries != [] ==> entries[0].key > key;
        return false, 0;
      }
      while i < SLOTS
        invariant i <= SLOTS
        invariant forall j :: 0 <= j < i ==> keys[j] != key
      {
        if keys[i] == key {
          LookupFound(entries, i, key);
          LookupAt(entries, i);
          return true, i;
        }
        i := i + 1;
      }
      assert forall j :: 0 <= j < |entries| ==> entries[j].key == keys[j];
      return false, 0;
    }

    method Search(key: Key) returns (r: Option<Val>)
      requires Valid() && key < INVALID_KEY
      ensures r == Lookup(entries, key)
    {
      var found, i := Find(key);
      r := if found then Some(vals[i]) else None;
    }

    method Contain(key: Key) returns (r: bool)
      requires Valid() && key < INVALID_KEY
      ensures r <==> Lookup(entries, key).Some?
    {
      var i;
      r, i := Find(key);
    }

    method Update(key: Key, val: Val) returns (r: bool)
      requires Valid() && key < INVALID_KEY
      modifies this, vals
      ensures Valid()
      ensures r <==> Lookup(old(entries), key).Some?
      ensures entries == Updated(old(entries), key, val)
    {
      var i;
      UpdatedSorted(entries, key, val);
      r, i := Find(key);
      if r {
        ReplacedHolds(keys[..], vals[..], entries, i, val);
        hide Holds, Rank, Sorted;
        vals[i] := val;
        assert vals[..] == old(vals[..])[i := val];
        entries := Splice(entries, i, i + 1, [Entry(key, val)]);
      }
    }

    /** Where the key is, or the first slot with a larger key; free slots count as larger. */
    method FindSlot(key: Key) returns (found: bool, i: nat)
      requires Valid() && key < INVALID_KEY
      ensures found <==> Lookup(entries, key).Some?
      ensures !found ==> i == Rank(entries, key) <= |entries|
    {
      HasIsLookup(entries, key);
      i := 0;
      while i < SLOTS
        invariant i <= |entries|
        invariant forall k :: 0 <= k < i ==> keys[k] < key
      {
        if keys[i] == key {
          return true, i;
        }
        if keys[i] > key {
          break;
        }
        i := i + 1;
      }
      return false, i;
    }

    /** Keeps the order; an existing key or a full leaf is left alone. */
    method InsertNotFull(key: Key, val: Val) returns (pos: nat)
      requires Valid() && key < INVALID_KEY
      modifies this, keys, vals
      ensures Valid()
      ensures Lookup(old(entries), key).Some? ==> entries == old(entries) && pos == 0
      ensures Lookup(old(entries), key).None? && |old(entries)| == SLOTS ==> entries == old(entries) && pos == SLOTS
      ensures Lookup(old(entries), key).None? && |old(entries)| < SLOTS ==>
                entries == Inserted(old(entries), key, val) && pos == Rank(old(entries), key)
    {
      var found, i := FindSlot(key);
      if found {
        return 0;
      }
      var j := i;
      while j < SLOTS && keys[j] != INVALID_KEY
        invariant i <= j <= |entries|
      {
        j := j + 1;
      }
      if j >= SLOTS {
        return SLOTS;
      }
      HasIsLookup(entries, key);
      InsertedSorted(entries, key, val);
      OpenedHolds(keys[..], vals[..], entries, i, key, val);
      hide Holds, Rank, Sorted;
      OpenAt(keys, i, j, key);
      OpenAt(vals, i, j, val);
      entries := Splice(entries, i, i, [Entry(key, val)]);
      assert LeafOk(entries);
      assert Holds(keys[..], vals[..], entries);
      pos := i;
    }

    /** The loop of the removal: unlike the others it does not look at the first key beforehand. */
    method FindAnywhere(key: Key) returns (found: bool, i: nat)
      requires Valid() && key < INVALID_KEY
      ensures found <==> Lookup(entries, key).Some?
      ensures found ==> i == Rank(entries, key) < |entries|
    {
      HasIsLookup(entries, key);
      i := 0;
      while i < SLOTS
        invariant i <= SLOTS
        invariant forall j :: 0 <= j < i ==> keys[j] != key
      {
        if keys[i] == key {
          LookupAt(entries, i);
          return true, i;
        }
        i := i + 1;
      }
      assert forall j :: 0 <= j < |entries| ==> entries[j].key == keys[j];
      return false, 0;
    }

    /** Drops the entry and frees the last slot. */
    method Remove(key: Key) returns (r: bool)
      requires Valid() && key < INVALID_KEY
      modifies this, keys, vals
      ensures Valid()
      ensures r <==> Lookup(old(entries), key).Some?
      ensures entries == Removed(old(entries), key)
    {
      RemovedSorted(entries, key);
      var found, i := FindAnywhere(key);
      if found {
        ClosedHolds(keys[..], vals[..], entries, i, vals[SLOTS - 1]);
        hide Holds, Rank, Sorted;
        ShiftDown(keys, i);
        ShiftDown(vals, i);
        keys[SLOTS - 1] := INVALID_KEY;
        assert keys[..] == Closed(old(keys[..]), i, INVALID_KEY);
        entries := Splice(entries, i, i + 1, []);
      }
      r := found;
    }

    /** Appends the values of keys not below the given one until n values are collected. */
    method Range(key: Key, n: nat, vals': seq<Val>) returns (r: seq<Val>)
      requires Valid() && key < INVALID_KEY
      ensures r == vals' + RangeVals(entries, key, if n <= |vals'| then 0 else n - |vals'|)
    {
      r := vals';
      var i := 0;
      ghost var want := if n <= |vals'| then 0 else n - |vals'|;
      ghost var from := Rank(entries, key);
      while i < SLOTS && |r| < n
        invariant i <= |entries|
        invariant r == vals' + Vals(Take(entries[if from <= i then from else i..i], want))
        invariant |r| < n ==> i <= from || |r| == |vals'| + i - from
        invariant i <= from ==> r == vals'
      {
        if keys[i] == INVALID_KEY {
          break;
        }
        if keys[i] >= key {
          assert entries[from..i + 1] == entries[from..i] + [entries[i]];
          r := r + [vals[i]];
        }
        i := i + 1;
      }
    }

    /** The upper half moves to an empty leaf. */
    method MoveHalfTo(n: Leaf)
      requires Valid() && n.Valid() && |entries| == SLOTS && n.entries == []
      requires n != this && {keys, vals} !! {n.keys, n.vals}
      modifies this, keys, vals, n, n.keys, n.vals
      ensures Valid() && n.Valid()
      ensures entries == old(entries)[..SLOTS / 2] && n.entries == old(entries)[SLOTS / 2..]
    {
      var mid := SLOTS / 2;
      for i := 0 to mid
        modifies keys, n.keys, n.vals
        invariant forall k :: 0 <= k < i ==> n.keys[k] == old(keys[mid + k]) && n.vals[k] == old(vals[mid + k])
        invariant forall k :: i <= k < SLOTS ==> n.keys[k] == INVALID_KEY
        invariant forall k :: 0 <= k < SLOTS ==> keys[k] == if mid <= k < mid + i then INVALID_KEY else old(keys[k])
        invariant vals[..] == old(vals[..])
      {
        n.keys[i] := keys[mid + i];
        n.vals[i] := vals[mid + i];
        keys[mid + i] := INVALID_KEY;
      }
      n.entries := entries[mid..];
      entries := entries[..mid];
    }
  }
}

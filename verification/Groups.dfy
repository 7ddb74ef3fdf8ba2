/**
 A table entry stands for a group of leaves: its head leaf and the synonym leaves split off it.
 Group operations as values, and what they do to the group's content.
 */
module Groups {
  import opened LinearModel
  import opened Entries
  import opened Leaf

  type Group = seq<seq<Entry>>

  function Join<T>(ss: seq<seq<T>>): seq<T> {
    if ss == [] then [] else ss[0] + Join(ss[1..])
  }

  lemma {:induction false} JoinAppend<T>(a: seq<seq<T>>, b: seq<seq<T>>)
    ensures Join(a + b) == Join(a) + Join(b)
  {
    if a == [] {
      assert a + b == b;
    } else {
      assert (a + b)[1..] == a[1..] + b;
      JoinAppend(a[1..], b);
    }
  }

  lemma JoinFirst<T>(ss: seq<seq<T>>)
    requires ss != []
    ensures Join(ss) == ss[0] + Join(ss[1..])
  {
  }

  lemma Associate<T>(a: seq<T>, b: seq<T>, c: seq<T>)
    ensures a + (b + c) == a + b + c
  {
  }

  /** Any one part, with what stands before and behind it. */
  lemma JoinAround<T>(ss: seq<seq<T>>, j: nat)
    requires j < |ss|
    ensures Join(ss) == Join(ss[..j]) + ss[j] + Join(ss[j + 1..])
  {
    JoinFirst(ss[j..]);
    assert ss[j..][1..] == ss[j + 1..];
    hide Join;
    JoinAppend(ss[..j], ss[j..]);
    assert ss == ss[..j] + ss[j..];
    Associate(Join(ss[..j]), ss[j], Join(ss[j + 1..]));
  }

  lemma JoinReplace<T>(ss: seq<seq<T>>, j: nat, x: seq<T>)
    requires j < |ss|
    ensures Join(ss[j := x]) == Join(ss[..j]) + x + Join(ss[j + 1..])
  {
    var t := ss[j := x];
    JoinAround(t, j);
    assert t[..j] == ss[..j] && t[j + 1..] == ss[j + 1..];
  }

  lemma JoinSplit<T>(ss: seq<seq<T>>, j: nat, x: seq<T>, y: seq<T>)
    requires j < |ss|
    ensures Join(ss[..j] + [x, y] + ss[j + 1..]) == Join(ss[..j]) + (x + y) + Join(ss[j + 1..])
  {
    JoinAppend(ss[..j] + [x, y], ss[j + 1..]);
    JoinAppend(ss[..j], [x, y]);
    assert [x, y][1..] == [y] && [y][1..] == [];
    assert Join([x, y]) == x + y by { assert Join([y]) == y; }
  }

  lemma JoinDrop<T>(ss: seq<seq<T>>, j: nat)
    requires j < |ss|
    ensures Join(ss[..j] + ss[j + 1..]) == Join(ss[..j]) + [] + Join(ss[j + 1..])
  {
    JoinAppend(ss[..j], ss[j + 1..]);
  }

  /** Where an element of a join comes from. */
  lemma {:induction false} JoinOrigin<T>(ss: seq<seq<T>>, p: nat) returns (j: nat, k: nat)
    requires p < |Join(ss)|
    ensures j < |ss| && k < |ss[j]| && ss[j][k] == Join(ss)[p]
  {
    if p < |ss[0]| {
      j, k := 0, p;
    } else {
      j, k := JoinOrigin(ss[1..], p - |ss[0]|);
      j := j + 1;
    }
  }

  lemma JoinContains<T>(ss: seq<seq<T>>, j: nat, k: nat) returns (p: nat)
    requires j < |ss| && k < |ss[j]|
    ensures p < |Join(ss)| && Join(ss)[p] == ss[j][k] && p == |Join(ss[..j])| + k
  {
    JoinAround(ss, j);
    p := |Join(ss[..j])| + k;
  }

  lemma JoinPartSorted(ss: seq<seq<Entry>>, i: nat)
    requires Sorted(Join(ss)) && i < |ss|
    ensures Sorted(ss[i])
  {
    JoinAround(ss, i);
    SortedParts(Join(ss[..i]) + ss[i], Join(ss[i + 1..]));
    SortedParts(Join(ss[..i]), ss[i]);
  }

  /** In a sorted join, each part is sorted and earlier parts hold smaller keys. */
  lemma JoinOrder(ss: seq<seq<Entry>>, i: nat, j: nat)
    requires Sorted(Join(ss)) && i < j < |ss|
    ensures Sorted(ss[i]) && Sorted(ss[j])
    ensures forall a, b :: 0 <= a < |ss[i]| && 0 <= b < |ss[j]| ==> ss[i][a].key < ss[j][b].key
  {
    JoinPartSorted(ss, i);
    JoinPartSorted(ss, j);
    JoinAround(ss, j);
    JoinAround(ss[..j], i);
    assert ss[..j][i] == ss[i];
    SortedParts(Join(ss[..j]) + ss[j], Join(ss[j + 1..]));
    SortedParts(Join(ss[..j]), ss[j]);
    forall a, b | 0 <= a < |ss[i]| && 0 <= b < |ss[j]| ensures ss[i][a].key < ss[j][b].key {
      var p := JoinContains(ss[..j], i, a);
      assert Join(ss[..j])[p] == ss[i][a];
    }
  }

  lemma JoinSliceSorted(ss: seq<seq<Entry>>, a: nat, b: nat)
    requires Sorted(Join(ss)) && a <= b <= |ss|
    ensures Sorted(Join(ss[a..b]))
  {
    hide Join, Sorted;
    JoinAppend(ss[..a], ss[a..]);
    assert ss == ss[..a] + ss[a..];
    SortedParts(Join(ss[..a]), Join(ss[a..]));
    JoinAppend(ss[a..b], ss[b..]);
    assert ss[a..] == ss[a..b] + ss[b..];
    SortedParts(Join(ss[a..b]), Join(ss[b..]));
  }

  lemma JoinCut<T>(ss: seq<seq<T>>, a: nat, b: nat, c: nat)
    requires a <= b <= c <= |ss|
    ensures Join(ss[a..c]) == Join(ss[a..b]) + Join(ss[b..c])
  {
    JoinAppend(ss[a..b], ss[b..c]);
    assert ss[a..c] == ss[a..b] + ss[b..c];
  }

  lemma JoinOne<T>(t: seq<seq<T>>)
    requires |t| == 1
    ensures Join(t) == t[0]
  {
    assert t[1..] == [];
  }

  /** One more part of a slice, and what is still to come. */
  lemma JoinSliceGrows(ss: seq<seq<Entry>>, a: nat, b: nat)
    requires Sorted(Join(ss)) && a <= b < |ss|
    ensures Join(ss[a..b + 1]) == Join(ss[a..b]) + ss[b]
    ensures Join(ss[a..]) == Join(ss[a..b]) + Join(ss[b..])
    ensures Sorted(Join(ss[a..b]) + ss[b]) && Sorted(Join(ss[a..b]) + Join(ss[b..]))
  {
    hide Join, Sorted;
    JoinCut(ss, a, b, b + 1);
    assert ss[b..b + 1] == [ss[b]];
    JoinOne([ss[b]]);
    JoinCut(ss, a, b, |ss|);
    assert ss[a..|ss|] == ss[a..] && ss[b..|ss|] == ss[b..];
    JoinSliceSorted(ss, a, b + 1);
    JoinSliceSorted(ss, a, |ss|);
  }

  // ---------- one group ----------

  ghost predicate GroupOk(g: Group) {
    && g != []
    && Sorted(Join(g))
    && (forall j :: 0 <= j < |g| ==> |g[j]| <= SLOTS)
    && (forall j :: 1 <= j < |g| ==> g[j] != [])
  }

  /** The last synonym leaf that covers the key, or the head. */
  ghost function RouteIn(g: Group, key: Key): (j: nat)
    requires g != []
    ensures j < |g|
    ensures j > 0 ==> Covers(g[j], key)
    ensures forall k :: j < k < |g| ==> !Covers(g[k], key)
  {
    if |g| == 1 || Covers(g[|g| - 1], key) then |g| - 1 else RouteIn(g[..|g| - 1], key)
  }

  /** The contract of the choice determines its result. */
  lemma RouteInIs(g: Group, key: Key, j: nat)
    requires j < |g| && (j > 0 ==> Covers(g[j], key))
    requires forall k :: j < k < |g| ==> !Covers(g[k], key)
    ensures RouteIn(g, key) == j
  {
    var r := RouteIn(g, key);
    assert r > 0 ==> Covers(g[r], key);
  }

  /** The leaf picked for a key parts its group: smaller keys before, larger keys behind. */
  lemma RouteInParts(g: Group, key: Key)
    requires GroupOk(g)
    ensures var j := RouteIn(g, key);
            && AllBelow(Join(g[..j]), key)
            && AllAbove(Join(g[j + 1..]), key)
            && Join(g) == Join(g[..j]) + g[j] + Join(g[j + 1..])
            && LeafOk(g[j])
  {
    var j := RouteIn(g, key);
    JoinAround(g, j);
    JoinPartSorted(g, j);
    forall p | 0 <= p < |Join(g[..j])| ensures Join(g[..j])[p].key < key {
      var i, k := JoinOrigin(g[..j], p);
      JoinOrder(g, i, j);
      assert g[i][k].key < g[j][0].key;
    }
    var rest := g[j + 1..];
    forall p | 0 <= p < |Join(rest)| ensures Join(rest)[p].key > key {
      var i, k := JoinOrigin(rest, p);
      var m := j + 1 + i;
      assert rest[i] == g[m];
      JoinPartSorted(g, m);
      assert !Covers(g[m], key);
      assert g[m][0].key <= g[m][k].key;
    }
  }

  ghost function GroupUpdated(g: Group, key: Key, val: Val): Group
    requires g != []
  {
    var j := RouteIn(g, key);
    g[j := Updated(g[j], key, val)]
  }

  /** A full leaf is replaced by its two halves. */
  ghost function Halved(g: Group, j: nat): Group
    requires j < |g| && |g[j]| == SLOTS
  {
    g[..j] + [g[j][..SLOTS / 2], g[j][SLOTS / 2..]] + g[j + 1..]
  }

  /** Insertion into the picked leaf, or into the right half of it when it is full. */
  ghost function GroupInserted(g: Group, key: Key, val: Val): Group
    requires g != [] && forall j :: 0 <= j < |g| ==> |g[j]| <= SLOTS
  {
    var j := RouteIn(g, key);
    if |g[j]| < SLOTS then g[j := Inserted(g[j], key, val)]
    else
      var h := Halved(g, j);
      var k := if Covers(h[j + 1], key) then j + 1 else j;
      h[k := Inserted(h[k], key, val)]
  }

  /** The insertion of the key has to split a leaf. */
  ghost predicate TakesLeaf(g: Group, key: Key) {
    g != [] && Lookup(Join(g), key).None? && |g[RouteIn(g, key)]| == SLOTS
  }

  /** Removal from the picked leaf; a synonym leaf that becomes empty is unlinked. */
  ghost function GroupRemoved(g: Group, key: Key): Group
    requires g != []
  {
    var j := RouteIn(g, key);
    var l := Removed(g[j], key);
    if l == [] && j > 0 then g[..j] + g[j + 1..] else g[j := l]
  }

  lemma GroupLookup(g: Group, key: Key)
    requires GroupOk(g)
    ensures Lookup(g[RouteIn(g, key)], key) == Lookup(Join(g), key)
  {
    var j := RouteIn(g, key);
    RouteInParts(g, key);
    LookupInTheMiddle(Join(g[..j]), g[j], Join(g[j + 1..]), key);
  }

  lemma GroupUpdatedContent(g: Group, key: Key, val: Val)
    requires GroupOk(g)
    ensures GroupOk(GroupUpdated(g, key, val))
    ensures Join(GroupUpdated(g, key, val)) == Updated(Join(g), key, val)
    ensures GroupUpdated(g, key, val)[0] == [] <==> g[0] == []
  {
    hide Join, RouteIn, Covers, AllBelow, AllAbove, Rank;
    var j := RouteIn(g, key);
    RouteInParts(g, key);
    InTheMiddle(Join(g[..j]), g[j], Join(g[j + 1..]), key, val);
    JoinReplace(g, j, Updated(g[j], key, val));
    UpdatedSorted(Join(g), key, val);
  }

  lemma HalvedOk(g: Group, j: nat)
    requires GroupOk(g) && j < |g| && |g[j]| == SLOTS
    ensures GroupOk(Halved(g, j)) && Join(Halved(g, j)) == Join(g)
  {
    JoinSplit(g, j, g[j][..SLOTS / 2], g[j][SLOTS / 2..]);
    JoinAround(g, j);
    assert g[j][..SLOTS / 2] + g[j][SLOTS / 2..] == g[j];
    var h := Halved(g, j);
    forall k | 0 <= k < |h| ensures |h[k]| <= SLOTS && (k > 0 ==> h[k] != []) {
      if k > j + 1 { assert h[k] == g[k - 1]; }
    }
  }

  /** After the split, the usual choice of leaf picks one of the two halves. */
  lemma HalvedRoute(g: Group, key: Key)
    requires GroupOk(g) && |g[RouteIn(g, key)]| == SLOTS
    ensures var j := RouteIn(g, key); var h := Halved(g, j);
            RouteIn(h, key) == if Covers(h[j + 1], key) then j + 1 else j
  {
    var j := RouteIn(g, key);
    var h := Halved(g, j);
    HalvedOk(g, j);
    var k := if Covers(h[j + 1], key) then j + 1 else j;
    forall m | k < m < |h| ensures !Covers(h[m], key) {
      if m > j + 1 { assert h[m] == g[m - 1]; }
    }
    assert j > 0 ==> Covers(h[j], key);
  }

  /** Insertion without a split. */
  lemma PlainInserted(g: Group, key: Key, val: Val)
    requires GroupOk(g) && key < INVALID_KEY && Lookup(Join(g), key).None?
    requires |g[RouteIn(g, key)]| < SLOTS
    ensures var j := RouteIn(g, key); var t := g[j := Inserted(g[j], key, val)];
            && GroupOk(t) && Join(t) == Inserted(Join(g), key, val)
            && (t[0] == [] ==> j > 0 && g[0] == [])
  {
    hide Join, RouteIn, Covers, AllBelow, AllAbove, Rank;
    var j := RouteIn(g, key);
    RouteInParts(g, key);
    InTheMiddle(Join(g[..j]), g[j], Join(g[j + 1..]), key, val);
    JoinReplace(g, j, Inserted(g[j], key, val));
    HasIsLookup(Join(g), key);
    InsertedSorted(Join(g), key, val);
  }

  lemma GroupInsertedContent(g: Group, key: Key, val: Val)
    requires GroupOk(g) && key < INVALID_KEY && Lookup(Join(g), key).None?
    ensures GroupOk(GroupInserted(g, key, val))
    ensures Join(GroupInserted(g, key, val)) == Inserted(Join(g), key, val)
    ensures GroupInserted(g, key, val)[0] == [] ==> g[0] == [] && |g| > 1
  {
    var j := RouteIn(g, key);
    if |g[j]| < SLOTS {
      PlainInserted(g, key, val);
    } else {
      HalvedOk(g, j);
      HalvedRoute(g, key);
      PlainInserted(Halved(g, j), key, val);
    }
  }

  lemma RemovedShorter(l: seq<Entry>, key: Key)
    ensures |Removed(l, key)| <= |l| <= |Removed(l, key)| + 1
    ensures |Removed(l, key)| < |l| ==> Lookup(l, key).Some?
  {
  }

  lemma GroupRemovedContent(g: Group, key: Key)
    requires GroupOk(g)
    ensures GroupOk(GroupRemoved(g, key))
    ensures Join(GroupRemoved(g, key)) == Removed(Join(g), key)
  {
    hide Rank, Lookup, Sorted, Join, AllBelow, AllAbove, RouteIn, Covers, Removed, Splice;
    var j := RouteIn(g, key);
    var l := Removed(g[j], key);
    RouteInParts(g, key);
    InTheMiddle(Join(g[..j]), g[j], Join(g[j + 1..]), key, 0);
    RemovedSorted(Join(g), key);
    if l == [] && j > 0 {
      JoinDrop(g, j);
    } else {
      JoinReplace(g, j, l);
      RemovedShorter(g[j], key);
    }
  }

  /** The removal of the last head entry while synonym leaves remain. */
  ghost predicate Strands(g: Group, key: Key) {
    |g| > 1 && |g[0]| == 1 && g[0][0].key == key
  }

  /** When the head holds the key, the head is the leaf picked, and removal takes it from there. */
  lemma HeadHasKey(g: Group, key: Key)
    requires GroupOk(g) && Strands(g, key)
    ensures RouteIn(g, key) == 0 && Removed(g[0], key) == []
  {
    var j := RouteIn(g, key);
    if j > 0 {
      JoinOrder(g, 0, j);
      assert false;
    }
  }

  /** The head of a group runs empty under remaining synonym leaves exactly in that case. */
  lemma StrandsExactly(g: Group, key: Key)
    requires GroupOk(g) && g[0] != [] && key < INVALID_KEY
    ensures GroupRemoved(g, key)[0] == [] && Join(GroupRemoved(g, key)) != [] <==> Strands(g, key)
  {
    var j, t := RouteIn(g, key), GroupRemoved(g, key);
    RouteInParts(g, key);
    hide Sorted, Join, AllBelow, AllAbove, RouteIn, Removed;
    RemovedShorter(g[j], key);
    if Strands(g, key) {
      HeadHasKey(g, key);
      assert t[0] == [] && g[1] != [] && t[1] == g[1];
      var p := JoinContains(t, 1, 0);
    } else if t[0] == [] {
      assert j == 0 && Lookup(g[0], key).Some?;
      assert |g| == 1;
      JoinOne<Entry>(t);
    }
  }
}

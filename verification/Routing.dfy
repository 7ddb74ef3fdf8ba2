/**
 The routing invariant of one submodel: the groups are globally ordered, and every key lies
 inside the window its linear model predicts for it. It makes the backward scan find each key
 where it is stored, and it survives every insertion, even one that falls through to the lower
 end of its window.
 */
module Routing {
  import opened Geometry
  import opened LinearModel
  import opened Entries
  import opened Leaf
  import opened Groups

  /** The group picked by the backward scan: the last head in (lo, hi] that covers the key, else lo. */
  ghost function Route(gs: seq<Group>, key: Key, lo: nat, hi: nat): (i: nat)
    requires lo <= hi < |gs| && forall j :: 0 <= j < |gs| ==> gs[j] != []
    ensures lo <= i <= hi
    ensures i > lo ==> Covers(gs[i][0], key)
    ensures forall j :: i < j <= hi ==> !Covers(gs[j][0], key)
  {
    if hi == lo || Covers(gs[hi][0], key) then hi else Route(gs, key, lo, hi - 1)
  }

  /** The contract of the scan determines its result. */
  lemma RouteIs(gs: seq<Group>, key: Key, lo: nat, hi: nat, i: nat)
    requires lo <= i <= hi < |gs| && forall j :: 0 <= j < |gs| ==> gs[j] != []
    requires i > lo ==> Covers(gs[i][0], key)
    requires forall j :: i < j <= hi ==> !Covers(gs[j][0], key)
    ensures Route(gs, key, lo, hi) == i
  {
    var r := Route(gs, key, lo, hi);
    assert r > lo ==> Covers(gs[r][0], key);
  }

  ghost function Contents(gs: seq<Group>): (r: seq<seq<Entry>>)
    ensures |r| == |gs| && forall i :: 0 <= i < |gs| ==> r[i] == Join(gs[i])
  {
    seq(|gs|, i requires 0 <= i < |gs| => Join(gs[i]))
  }

  /** The whole content of a submodel in key order. */
  ghost function Content(gs: seq<Group>): seq<Entry> { Join(Contents(gs)) }

  /** Every entry of group i is predicted into a window that contains i. */
  ghost predicate InWindow(g: Group, i: nat, m: Line, size: nat)
    requires size > 0
  {
    forall k :: 0 <= k < |Join(g)| ==> Window(m, Join(g)[k].key, size).0 <= i <= Window(m, Join(g)[k].key, size).1
  }

  ghost predicate NotStranded(g: Group)
    requires g != []
  {
    g[0] == [] ==> Join(g) == []
  }

  ghost predicate TableOk(gs: seq<Group>, m: Line, size: nat) {
    && size > 0 && |gs| == LeafCount(size) && m.slope >= 0.0
    && (forall i :: 0 <= i < |gs| ==> GroupOk(gs[i]) && NotStranded(gs[i]) && InWindow(gs[i], i, m, size))
    && Sorted(Content(gs))
  }

  /** The group that the predicted window and the scan pick for a key. */
  ghost function Pick(gs: seq<Group>, m: Line, size: nat, key: Key): (i: nat)
    requires size > 0 && |gs| == LeafCount(size) && forall j :: 0 <= j < |gs| ==> gs[j] != []
    ensures i < |gs|
  {
    WindowInTable(m, key, size);
    Route(gs, key, Window(m, key, size).0, Window(m, key, size).1)
  }

  /** The groups after an insertion into, or a removal from, the picked group. */
  ghost function GroupsInserted(gs: seq<Group>, m: Line, size: nat, key: Key, val: Val): seq<Group>
    requires TableOk(gs, m, size)
  {
    var i := Pick(gs, m, size, key);
    gs[i := GroupInserted(gs[i], key, val)]
  }

  ghost function GroupsRemoved(gs: seq<Group>, m: Line, size: nat, key: Key): seq<Group>
    requires TableOk(gs, m, size)
  {
    var i := Pick(gs, m, size, key);
    gs[i := GroupRemoved(gs[i], key)]
  }

  lemma HeadIsFirst(g: Group)
    requires GroupOk(g) && g[0] != []
    ensures Join(g) != [] && Join(g)[0] == g[0][0]
    ensures forall k :: 0 <= k < |Join(g)| ==> g[0][0].key <= Join(g)[k].key
  {
  }

  /** Entries of groups behind the picked one are larger than the key. */
  lemma BehindIsLarger(gs: seq<Group>, m: Line, size: nat, key: Key, j: nat, k: nat)
    requires TableOk(gs, m, size) && Pick(gs, m, size, key) < j < |gs| && k < |Join(gs[j])|
    ensures Join(gs[j])[k].key > key
  {
    var hi, x := Window(m, key, size).1, Join(gs[j])[k].key;
    WindowInTable(m, key, size);
    assert InWindow(gs[j], j, m, size);
    if j <= hi {
      assert !Covers(gs[j][0], key);
      HeadIsFirst(gs[j]);
    } else if x <= key {
      WindowMonotone(m, x, key, size);
      assert false;
    }
  }

  /** Entries of groups before the picked one are smaller than the key. */
  lemma BeforeIsSmaller(gs: seq<Group>, m: Line, size: nat, key: Key, j: nat, k: nat)
    requires TableOk(gs, m, size) && j < Pick(gs, m, size, key) && k < |Join(gs[j])|
    ensures Join(gs[j])[k].key < key
  {
    var lo, x, i := Window(m, key, size).0, Join(gs[j])[k].key, Pick(gs, m, size, key);
    WindowInTable(m, key, size);
    assert InWindow(gs[j], j, m, size);
    if i > lo {
      assert Covers(gs[i][0], key);
      HeadIsFirst(gs[i]);
      JoinOrder(Contents(gs), j, i);
      assert Contents(gs)[j][k].key < Contents(gs)[i][0].key;
    } else if x >= key {
      WindowMonotone(m, key, x, size);
      assert false;
    }
  }

  lemma PickBelow(gs: seq<Group>, m: Line, size: nat, key: Key)
    requires TableOk(gs, m, size)
    ensures AllBelow(Join(Contents(gs)[..Pick(gs, m, size, key)]), key)
  {
    hide Join, NotStranded, InWindow, Sorted;
    var i := Pick(gs, m, size, key);
    var front: seq<seq<Entry>> := Contents(gs)[..i];
    forall p | 0 <= p < |Join(front)| ensures Join(front)[p].key < key {
      var j, k := JoinOrigin(front, p);
      BeforeIsSmaller(gs, m, size, key, j, k);
    }
  }

  lemma PickAbove(gs: seq<Group>, m: Line, size: nat, key: Key)
    requires TableOk(gs, m, size)
    ensures AllAbove(Join(Contents(gs)[Pick(gs, m, size, key) + 1..]), key)
  {
    hide Join, NotStranded, InWindow, Sorted;
    var i := Pick(gs, m, size, key);
    var rest: seq<seq<Entry>> := Contents(gs)[i + 1..];
    forall p | 0 <= p < |Join(rest)| ensures Join(rest)[p].key > key {
      var j, k := JoinOrigin(rest, p);
      assert rest[j] == Contents(gs)[i + 1 + j];
      BehindIsLarger(gs, m, size, key, i + 1 + j, k);
    }
  }

  /** So the picked group parts the submodel's content around the key. */
  lemma PickParts(gs: seq<Group>, m: Line, size: nat, key: Key)
    requires TableOk(gs, m, size)
    ensures var i := Pick(gs, m, size, key);
            && AllBelow(Join(Contents(gs)[..i]), key)
            && AllAbove(Join(Contents(gs)[i + 1..]), key)
            && Content(gs) == Join(Contents(gs)[..i]) + Join(gs[i]) + Join(Contents(gs)[i + 1..])
  {
    var i := Pick(gs, m, size, key);
    PickBelow(gs, m, size, key);
    PickAbove(gs, m, size, key);
    hide Join, Pick, TableOk;
    JoinAround(Contents(gs), i);
  }

  /** A stored key is picked back to the very group that stores it. */
  lemma StoredKeyIsPicked(gs: seq<Group>, m: Line, size: nat, i: nat, k: nat)
    requires TableOk(gs, m, size) && i < |gs| && k < |Join(gs[i])|
    ensures Pick(gs, m, size, Join(gs[i])[k].key) == i
  {
    var key := Join(gs[i])[k].key;
    if Pick(gs, m, size, key) < i {
      BehindIsLarger(gs, m, size, key, i, k);
    } else if Pick(gs, m, size, key) > i {
      BeforeIsSmaller(gs, m, size, key, i, k);
    }
  }

  /** The picked group moves right with the key. */
  lemma PickMonotone(gs: seq<Group>, m: Line, size: nat, key: Key, key': Key)
    requires TableOk(gs, m, size) && key <= key'
    ensures Pick(gs, m, size, key) <= Pick(gs, m, size, key')
  {
    var i, i' := Pick(gs, m, size, key), Pick(gs, m, size, key');
    WindowInTable(m, key, size);
    WindowInTable(m, key', size);
    WindowMonotone(m, key, key', size);
    if i' < i {
      assert false;
    }
  }

  ghost predicate WindowHolds(m: Line, size: nat, key: Key, i: nat)
    requires size > 0
  {
    Window(m, key, size).0 <= i <= Window(m, key, size).1
  }

  lemma ContentsReplaced(gs: seq<Group>, i: nat, g: Group)
    requires i < |gs|
    ensures Contents(gs[i := g]) == Contents(gs)[i := Join(g)]
  {
  }

  lemma HoldsIsInWindow(g: Group, i: nat, m: Line, size: nat)
    requires size > 0 && forall k :: 0 <= k < |Join(g)| ==> WindowHolds(m, size, Join(g)[k].key, i)
    ensures InWindow(g, i, m, size)
  {
    forall k | 0 <= k < |Join(g)| ensures Window(m, Join(g)[k].key, size).0 <= i <= Window(m, Join(g)[k].key, size).1 {
      assert WindowHolds(m, size, Join(g)[k].key, i);
    }
  }

  /** Replacing one group's content keeps the routing invariant if only picked keys are new. */
  lemma ReplaceKeeps(gs: seq<Group>, m: Line, size: nat, i: nat, g: Group)
    requires TableOk(gs, m, size) && i < |gs| && GroupOk(g) && NotStranded(g)
    requires forall k :: 0 <= k < |Join(g)| ==> WindowHolds(m, size, Join(g)[k].key, i)
    requires Sorted(Join(Contents(gs)[..i]) + Join(g) + Join(Contents(gs)[i + 1..]))
    ensures TableOk(gs[i := g], m, size)
    ensures Content(gs[i := g]) == Join(Contents(gs)[..i]) + Join(g) + Join(Contents(gs)[i + 1..])
  {
    hide Join, GroupOk, NotStranded, Sorted, Window, LeafCount;
    JoinReplace(Contents(gs), i, Join(g));
    ContentsReplaced(gs, i, g);
    HoldsIsInWindow(g, i, m, size);
    hide InWindow;
  }

  lemma PickedInWindow(gs: seq<Group>, m: Line, size: nat, key: Key)
    requires TableOk(gs, m, size)
    ensures WindowHolds(m, size, key, Pick(gs, m, size, key))
  {
    WindowInTable(m, key, size);
  }

  lemma OldKeysInWindow(gs: seq<Group>, m: Line, size: nat, i: nat, k: nat)
    requires TableOk(gs, m, size) && i < |gs| && k < |Join(gs[i])|
    ensures WindowHolds(m, size, Join(gs[i])[k].key, i)
  {
    assert InWindow(gs[i], i, m, size);
  }

  // ---------- the operations on a submodel ----------

  lemma TableLookup(gs: seq<Group>, m: Line, size: nat, key: Key)
    requires TableOk(gs, m, size)
    ensures Lookup(Join(gs[Pick(gs, m, size, key)]), key) == Lookup(Content(gs), key)
  {
    var i := Pick(gs, m, size, key);
    PickParts(gs, m, size, key);
    LookupInTheMiddle(Join(Contents(gs)[..i]), Join(gs[i]), Join(Contents(gs)[i + 1..]), key);
  }

  lemma InsertedOrigin(s: seq<Entry>, key: Key, val: Val, k: nat)
    requires k < |Inserted(s, key, val)|
    ensures |Inserted(s, key, val)| == |s| + 1
    ensures var r := Rank(s, key);
            Inserted(s, key, val)[k] == if k < r then s[k] else if k == r then Entry(key, val) else s[k - 1]
  {
  }

  lemma InsertedInWindow(gs: seq<Group>, m: Line, size: nat, key: Key, val: Val)
    requires TableOk(gs, m, size)
    ensures var i := Pick(gs, m, size, key); var t := Inserted(Join(gs[i]), key, val);
            forall k :: 0 <= k < |t| ==> WindowHolds(m, size, t[k].key, i)
  {
    var i := Pick(gs, m, size, key);
    var s := Join(gs[i]);
    var t, r := Inserted(s, key, val), Rank(s, key);
    hide Pick, Rank, Inserted;
    forall k | 0 <= k < |t| ensures WindowHolds(m, size, t[k].key, i) {
      InsertedOrigin(s, key, val, k);
      PickedInWindow(gs, m, size, key);
      if k != r { OldKeysInWindow(gs, m, size, i, if k < r then k else k - 1); }
    }
  }

  /** An insertion into the picked group is an insertion into the whole, and keeps all routing. */
  lemma TableInserted(gs: seq<Group>, m: Line, size: nat, key: Key, val: Val)
    requires TableOk(gs, m, size) && key < INVALID_KEY && Lookup(Content(gs), key).None?
    ensures var i := Pick(gs, m, size, key); var gs' := gs[i := GroupInserted(gs[i], key, val)];
            TableOk(gs', m, size) && Content(gs') == Inserted(Content(gs), key, val)
  {
    hide Pick, Rank, Lookup, Inserted, GroupInserted, Sorted, Join, AllBelow, AllAbove, InWindow;
    var i := Pick(gs, m, size, key);
    var g := gs[i];
    var g' := GroupInserted(g, key, val);
    PickParts(gs, m, size, key);
    TableLookup(gs, m, size, key);
    InTheMiddle(Join(Contents(gs)[..i]), Join(g), Join(Contents(gs)[i + 1..]), key, val);
    GroupInsertedContent(g, key, val);
    HasIsLookup(Content(gs), key);
    InsertedSorted(Content(gs), key, val);
    if g[0] == [] && |g| > 1 {
      var p := JoinContains(g, 1, 0);
    }
    InsertedInWindow(gs, m, size, key, val);
    ReplaceKeeps(gs, m, size, i, g');
  }

  lemma StillInGroup(g: Group, key: Key, val: Val, q: Key)
    requires GroupOk(g) && key < INVALID_KEY && Lookup(Join(g), key).None? && Lookup(Join(g), q).Some?
    ensures Lookup(Join(GroupInserted(g, key, val)), q).Some?
  {
    hide Join, Inserted, GroupInserted;
    GroupInsertedContent(g, key, val);
    HasIsLookup(Join(g), key);
    InsertedLookup(Join(g), key, val, q);
  }

  lemma LookupPlace(s: seq<Entry>, q: Key)
    requires Lookup(s, q).Some?
    ensures Rank(s, q) < |s| && s[Rank(s, q)].key == q
  {
  }

  /** No insertion changes the group that is picked for a key stored before. */
  lemma InsertKeepsPicks(gs: seq<Group>, m: Line, size: nat, key: Key, val: Val, q: Key)
    requires TableOk(gs, m, size) && key < INVALID_KEY && Lookup(Content(gs), key).None?
    requires Lookup(Content(gs), q).Some?
    ensures var gs' := GroupsInserted(gs, m, size, key, val);
            TableOk(gs', m, size) && Pick(gs', m, size, q) == Pick(gs, m, size, q)
  {
    hide Join, Pick, Content, Lookup, Inserted, GroupInserted, Sorted, InWindow, NotStranded;
    var gs', i, p := GroupsInserted(gs, m, size, key, val), Pick(gs, m, size, key), Pick(gs, m, size, q);
    TableInserted(gs, m, size, key, val);
    TableLookup(gs, m, size, key);
    TableLookup(gs, m, size, q);
    if p == i { StillInGroup(gs[i], key, val, q); }
    LookupPlace(Join(gs'[p]), q);
    StoredKeyIsPicked(gs', m, size, p, Rank(Join(gs'[p]), q));
  }

  lemma UpdatedKeys(s: seq<Entry>, key: Key, val: Val)
    ensures |Updated(s, key, val)| == |s|
    ensures forall k :: 0 <= k < |s| ==> Updated(s, key, val)[k].key == s[k].key
  {
  }

  lemma TableUpdated(gs: seq<Group>, m: Line, size: nat, key: Key, val: Val)
    requires TableOk(gs, m, size) && key < INVALID_KEY
    ensures var i := Pick(gs, m, size, key); var gs' := gs[i := GroupUpdated(gs[i], key, val)];
            TableOk(gs', m, size) && Content(gs') == Updated(Content(gs), key, val)
  {
    var i := Pick(gs, m, size, key);
    var g := gs[i];
    var g' := GroupUpdated(g, key, val);
    PickParts(gs, m, size, key);
    InTheMiddle(Join(Contents(gs)[..i]), Join(g), Join(Contents(gs)[i + 1..]), key, val);
    GroupUpdatedContent(g, key, val);
    UpdatedSorted(Content(gs), key, val);
    UpdatedKeys(Join(g), key, val);
    forall k | 0 <= k < |Join(g')| ensures WindowHolds(m, size, Join(g')[k].key, i) {
      OldKeysInWindow(gs, m, size, i, k);
    }
    if g'[0] == [] { assert |Join(g')| == |Join(g)|; }
    ReplaceKeeps(gs, m, size, i, g');
  }

  lemma RemovedOrigin(s: seq<Entry>, key: Key, k: nat) returns (o: nat)
    requires k < |Removed(s, key)|
    ensures o < |s| && Removed(s, key)[k] == s[o]
  {
    o := if Lookup(s, key).None? || k < Rank(s, key) then k else k + 1;
  }

  lemma RemovedStrands(g: Group, key: Key)
    requires GroupOk(g) && NotStranded(g) && key < INVALID_KEY
    ensures NotStranded(GroupRemoved(g, key)) <==> !Strands(g, key)
  {
    GroupRemovedContent(g, key);
    if g[0] == [] {
      assert Join(g) == [] && Removed(Join(g), key) == [];
      if Strands(g, key) { assert false; }
    } else {
      StrandsExactly(g, key);
    }
  }

  /** A removal keeps all routing exactly when it does not strand synonym leaves under an empty head. */
  lemma TableRemoved(gs: seq<Group>, m: Line, size: nat, key: Key)
    requires TableOk(gs, m, size) && key < INVALID_KEY
    ensures var i := Pick(gs, m, size, key); var gs' := gs[i := GroupRemoved(gs[i], key)];
            && (TableOk(gs', m, size) <==> !Strands(gs[i], key))
            && Content(gs') == Removed(Content(gs), key) && Sorted(Content(gs'))
            && GroupOk(GroupRemoved(gs[i], key))
  {
    hide Join, Pick, AllBelow, AllAbove, Removed, GroupRemoved, Strands, Window, LeafCount, Sorted;
    var i := Pick(gs, m, size, key);
    var g := gs[i];
    var g' := GroupRemoved(g, key);
    PickParts(gs, m, size, key);
    InTheMiddle(Join(Contents(gs)[..i]), Join(g), Join(Contents(gs)[i + 1..]), key, 0);
    GroupRemovedContent(g, key);
    RemovedSorted(Content(gs), key);
    JoinReplace(Contents(gs), i, Join(g'));
    ContentsReplaced(gs, i, g');
    RemovedStrands(g, key);
    if !Strands(g, key) {
      forall k | 0 <= k < |Join(g')| ensures WindowHolds(m, size, Join(g')[k].key, i) {
        var o := RemovedOrigin(Join(g), key, k);
        OldKeysInWindow(gs, m, size, i, o);
      }
      ReplaceKeeps(gs, m, size, i, g');
    } else {
      assert gs[i := g'][i] == g';
    }
  }

  lemma StrandedHead(g: Group, key: Key)
    requires GroupOk(g) && Strands(g, key)
    ensures GroupRemoved(g, key) != [] && GroupRemoved(g, key)[0] == []
  {
    HeadHasKey(g, key);
  }

  lemma BelowLater(cs: seq<seq<Entry>>, i: nat, r: nat, p: nat)
    requires Sorted(Join(cs)) && i < p < |cs| && r < |cs[i]| && cs[p] != []
    ensures cs[i][r].key < cs[p][0].key
  {
    JoinOrder(cs, i, p);
  }

  /** A head behind the group that holds q does not cover q. */
  lemma LaterHeadIsLarger(gs: seq<Group>, i: nat, p: nat, q: Key)
    requires i < p < |gs| && Sorted(Content(gs)) && Lookup(Join(gs[i]), q).Some? && GroupOk(gs[p])
    ensures !Covers(gs[p][0], q)
  {
    JoinOrder(Contents(gs), i, p);
    if Covers(gs[p][0], q) {
      HeadIsFirst(gs[p]);
      BelowLater(Contents(gs), i, Rank(Join(gs[i]), q), p);
    }
  }

  lemma StrandedWindow(gs: seq<Group>, m: Line, size: nat, key: Key, q: Key)
    requires TableOk(gs, m, size) && key < INVALID_KEY
    requires var i := Pick(gs, m, size, key); Lookup(Join(GroupRemoved(gs[i], key)), q).Some?
    ensures WindowHolds(m, size, q, Pick(gs, m, size, key))
  {
    var i := Pick(gs, m, size, key);
    var s := Join(gs[i]);
    GroupRemovedContent(gs[i], key);
    var o := RemovedOrigin(s, key, Rank(Removed(s, key), q));
    OldKeysInWindow(gs, m, size, i, o);
  }

  lemma ElsewhereAbsent(gs: seq<Group>, p: nat, i: nat, q: Key)
    requires p < i < |gs| && Sorted(Content(gs)) && Lookup(Join(gs[i]), q).Some?
    ensures Lookup(Join(gs[p]), q).None?
  {
    JoinOrder(Contents(gs), p, i);
    if Lookup(Join(gs[p]), q).Some? {
      assert false;
    }
  }

  lemma GroupsStay(gs: seq<Group>, m: Line, size: nat, key: Key)
    requires TableOk(gs, m, size) && key < INVALID_KEY
    ensures Sorted(Content(gs))
    ensures var i, gs' := Pick(gs, m, size, key), GroupsRemoved(gs, m, size, key);
            && |gs'| == |gs| == LeafCount(size) && size > 0 && (forall j :: 0 <= j < |gs'| ==> gs'[j] != [])
            && GroupOk(gs[i]) && gs'[i] == GroupRemoved(gs[i], key)
            && (forall j :: 0 <= j < |gs| && j != i ==> gs'[j] == gs[j])
            && Sorted(Join(gs[i])) && Sorted(Join(gs'[i])) && Sorted(Content(gs'))
  {
    hide Join, Pick, Content, GroupRemoved, Sorted, Removed;
    TableRemoved(gs, m, size, key);
  }

  /** The picked group lies in the window, and above its lower end its head covers the key. */
  lemma PickBounds(gs: seq<Group>, m: Line, size: nat, q: Key)
    requires size > 0 && |gs| == LeafCount(size) && forall j :: 0 <= j < |gs| ==> gs[j] != []
    ensures WindowHolds(m, size, q, Pick(gs, m, size, q))
    ensures var p := Pick(gs, m, size, q); p > Window(m, q, size).0 ==> Covers(gs[p][0], q)
  {
    WindowInTable(m, q, size);
  }

  /**
   After a removal that strands synonym leaves, a key in them is still picked back to its group
   exactly when the group is the lower end of its predicted window; otherwise a search misses it.
   */
  lemma StrandedKeyFound(gs: seq<Group>, m: Line, size: nat, key: Key, q: Key)
    requires TableOk(gs, m, size) && key < INVALID_KEY && Strands(gs[Pick(gs, m, size, key)], key)
    requires var i := Pick(gs, m, size, key); Lookup(Join(GroupRemoved(gs[i], key)), q).Some?
    ensures var i := Pick(gs, m, size, key); var gs' := gs[i := GroupRemoved(gs[i], key)];
            && (forall j :: 0 <= j < |gs'| ==> gs'[j] != [])
            && (Lookup(Join(gs'[Pick(gs', m, size, q)]), q).Some? <==> Window(m, q, size).0 == i)
  {
    hide Join, GroupRemoved, Window, LeafCount, Sorted, Lookup, Pick, Content, Removed, InWindow, NotStranded;
    var i, gs' := Pick(gs, m, size, key), GroupsRemoved(gs, m, size, key);
    GroupsStay(gs, m, size, key);
    StrandedHead(gs[i], key);
    StrandedWindow(gs, m, size, key, q);
    PickBounds(gs', m, size, q);
    var p := Pick(gs', m, size, q);
    if p > i {
      LaterHeadIsLarger(gs', i, p, q);
    } else if p < i {
      ElsewhereAbsent(gs', p, i, q);
    }
  }

  /** The keys of all other groups are still picked back to where they are. */
  lemma OthersStillPicked(gs: seq<Group>, m: Line, size: nat, key: Key, q: Key)
    requires TableOk(gs, m, size) && key < INVALID_KEY && Strands(gs[Pick(gs, m, size, key)], key)
    requires Lookup(Content(gs), q).Some? && Pick(gs, m, size, q) != Pick(gs, m, size, key)
    ensures var i := Pick(gs, m, size, key); var gs' := gs[i := GroupRemoved(gs[i], key)];
            && (forall j :: 0 <= j < |gs'| ==> gs'[j] != [])
            && Pick(gs', m, size, q) == Pick(gs, m, size, q)
  {
    var i, j, w := Pick(gs, m, size, key), Pick(gs, m, size, q), Window(m, q, size);
    var gs' := gs[i := GroupRemoved(gs[i], key)];
    WindowInTable(m, q, size);
    StrandedHead(gs[i], key);
    hide Join, GroupRemoved, Window, LeafCount, Predict, Sorted, Lookup;
    assert forall p :: j < p <= w.1 ==> !Covers(gs[p][0], q);
    RouteIs(gs', q, w.0, w.1, j);
  }

  /** What a group stores is stored. */
  lemma InGroupIsInAll(gs: seq<Group>, p: nat, q: Key)
    requires p < |gs| && Sorted(Content(gs))
    ensures Lookup(Join(gs[p]), q).Some? ==> Lookup(Content(gs), q) == Lookup(Join(gs[p]), q)
  {
    if Lookup(Join(gs[p]), q).Some? {
      var k := JoinContains(Contents(gs), p, Rank(Join(gs[p]), q));
      LookupFound(Content(gs), k, q);
    }
  }

  /**
   After any removal, a search for any key answers rightly, unless the key is stored, was picked
   from the group whose head ran empty in front of synonym leaves, and its window starts before it.
   */
  lemma SearchAfterRemoval(gs: seq<Group>, m: Line, size: nat, key: Key, q: Key)
    requires TableOk(gs, m, size) && key < INVALID_KEY
    ensures var i := Pick(gs, m, size, key); var gs' := GroupsRemoved(gs, m, size, key);
            && (forall j :: 0 <= j < |gs'| ==> gs'[j] != [])
            && (Lookup(Join(gs'[Pick(gs', m, size, q)]), q) == Lookup(Content(gs'), q) <==>
                  || !Strands(gs[i], key) || Lookup(Content(gs'), q).None?
                  || Pick(gs, m, size, q) != i || Window(m, q, size).0 == i)
  {
    hide Join, Pick, Content, GroupRemoved, Window, LeafCount, Sorted, Lookup, InWindow, NotStranded, Removed;
    var i, gs' := Pick(gs, m, size, key), GroupsRemoved(gs, m, size, key);
    TableRemoved(gs, m, size, key);
    GroupsStay(gs, m, size, key);
    InGroupIsInAll(gs', Pick(gs', m, size, q), q);
    if !Strands(gs[i], key) {
      TableLookup(gs', m, size, q);
    } else if Lookup(Content(gs'), q).Some? {
      RemovedLookup(Content(gs), key, q);
      TableLookup(gs, m, size, q);
      if Pick(gs, m, size, q) != i {
        OthersStillPicked(gs, m, size, key, q);
        InGroupIsInAll(gs', Pick(gs, m, size, q), q);
      } else {
        GroupRemovedContent(gs[i], key);
        RemovedLookup(Join(gs[i]), key, q);
        StrandedKeyFound(gs, m, size, key, q);
      }
    }
  }

  /** Removing key makes a search miss q, although q stays stored. */
  ghost predicate LosesKey(gs: seq<Group>, m: Line, size: nat, key: Key, q: Key) {
    && TableOk(gs, m, size) && key < INVALID_KEY && q != key
    && var gs' := gs[Pick(gs, m, size, key) := GroupRemoved(gs[Pick(gs, m, size, key)], key)];
    && (forall j :: 0 <= j < |gs'| ==> gs'[j] != [])
    && Lookup(Content(gs'), q).Some?
    && Lookup(Join(gs'[Pick(gs', m, size, q)]), q).None?
  }
}

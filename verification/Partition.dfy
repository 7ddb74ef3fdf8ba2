/** How the upper keys split the key space among the submodels, and the whole index content. */
module Partition {
  import opened LinearModel
  import opened Entries
  import opened Groups

  ghost predicate StrictlyAscending(mk: seq<Key>) {
    forall i, j :: 0 <= i < j < |mk| ==> mk[i] < mk[j]
  }

  /** Submodel i is responsible for the keys above the previous upper key up to its own; the last for all others. */
  ghost predicate Responsible(mk: seq<Key>, i: nat, key: Key)
    requires i < |mk|
  {
    && (forall j :: 0 <= j < i ==> mk[j] < key)
    && (i < |mk| - 1 ==> key <= mk[i])
  }

  /** No key has two responsible submodels. */
  lemma OneResponsible(mk: seq<Key>, i: nat, j: nat, key: Key)
    requires StrictlyAscending(mk) && i < |mk| && j < |mk|
    requires Responsible(mk, i, key) && Responsible(mk, j, key)
    ensures i == j
  {
  }

  ghost predicate PartitionOk(es: seq<seq<Entry>>, mk: seq<Key>) {
    && |es| == |mk| && StrictlyAscending(mk)
    && (forall i :: 0 <= i < |es| ==> Sorted(es[i]))
    && (forall i, k :: 0 <= i < |es| && 0 <= k < |es[i]| ==> Responsible(mk, i, es[i][k].key))
  }

  /** The responsible submodel parts the content around the key. */
  lemma ResponsibleParts(es: seq<seq<Entry>>, mk: seq<Key>, i: nat, key: Key)
    requires PartitionOk(es, mk) && i < |es| && Responsible(mk, i, key)
    ensures AllBelow(Join(es[..i]), key) && AllAbove(Join(es[i + 1..]), key)
    ensures Join(es) == Join(es[..i]) + es[i] + Join(es[i + 1..])
  {
    JoinAround(es, i);
    forall p | 0 <= p < |Join(es[..i])| ensures Join(es[..i])[p].key < key {
      var j, k := JoinOrigin(es[..i], p);
      assert Responsible(mk, j, es[j][k].key);
      assert mk[j] < key;
    }
    var rest := es[i + 1..];
    forall p | 0 <= p < |Join(rest)| ensures Join(rest)[p].key > key {
      var j, k := JoinOrigin(rest, p);
      assert rest[j] == es[i + 1 + j];
      assert Responsible(mk, i + 1 + j, es[i + 1 + j][k].key);
      assert mk[i] < es[i + 1 + j][k].key;
    }
  }

  lemma PartitionDrop(es: seq<seq<Entry>>, mk: seq<Key>, i: nat, j: nat, a: nat, b: nat)
    requires PartitionOk(es, mk) && i < j < |es| && a < |es[i]| && b < |es[j]|
    ensures es[i][a].key < es[j][b].key
  {
    assert Responsible(mk, i, es[i][a].key);
    assert Responsible(mk, j, es[j][b].key);
    assert mk[i] < es[j][b].key;
  }

  ghost predicate PartsAscend(es: seq<seq<Entry>>) {
    && (forall i :: 0 <= i < |es| ==> Sorted(es[i]))
    && (forall i, j, a, b :: 0 <= i < j < |es| && 0 <= a < |es[i]| && 0 <= b < |es[j]| ==> es[i][a].key < es[j][b].key)
  }

  lemma SortedConcat(a: seq<Entry>, b: seq<Entry>)
    requires Sorted(a) && Sorted(b)
    requires forall x, y :: 0 <= x < |a| && 0 <= y < |b| ==> a[x].key < b[y].key
    ensures Sorted(a + b)
  {
  }

  lemma {:induction false} JoinAscends(es: seq<seq<Entry>>)
    requires PartsAscend(es)
    ensures Sorted(Join(es))
  {
    if es != [] {
      var rest := es[1..];
      assert forall i :: 0 <= i < |rest| ==> rest[i] == es[i + 1];
      JoinAscends(rest);
      var a, b := es[0], Join(rest);
      forall x, y | 0 <= x < |a| && 0 <= y < |b| ensures a[x].key < b[y].key {
        var j, k := JoinOrigin(rest, y);
        assert es[0][x].key < es[j + 1][k].key;
      }
      SortedConcat(a, b);
    }
  }

  /** The whole content is sorted. */
  lemma PartitionSorted(es: seq<seq<Entry>>, mk: seq<Key>)
    requires PartitionOk(es, mk)
    ensures Sorted(Join(es))
  {
    forall i, j, a, b | 0 <= i < j < |es| && 0 <= a < |es[i]| && 0 <= b < |es[j]|
      ensures es[i][a].key < es[j][b].key
    {
      PartitionDrop(es, mk, i, j, a, b);
    }
    JoinAscends(es);
  }

  lemma PartLookup(es: seq<seq<Entry>>, mk: seq<Key>, i: nat, key: Key)
    requires PartitionOk(es, mk) && i < |es| && Responsible(mk, i, key)
    ensures Lookup(Join(es), key) == Lookup(es[i], key)
  {
    ResponsibleParts(es, mk, i, key);
    LookupInTheMiddle(Join(es[..i]), es[i], Join(es[i + 1..]), key);
  }

  /** Keys in s come from part i or equal the key. */
  ghost predicate OnlyNew(s: seq<Entry>, old': seq<Entry>, key: Key) {
    forall k :: 0 <= k < |s| ==> s[k].key == key || exists o :: 0 <= o < |old'| && old'[o].key == s[k].key
  }

  lemma PartReplaced(es: seq<seq<Entry>>, mk: seq<Key>, i: nat, key: Key, s: seq<Entry>)
    requires PartitionOk(es, mk) && i < |es| && Responsible(mk, i, key)
    requires Sorted(s) && OnlyNew(s, es[i], key)
    ensures PartitionOk(es[i := s], mk)
    ensures Join(es[i := s]) == Join(es[..i]) + s + Join(es[i + 1..])
  {
    JoinReplace(es, i, s);
    forall k | 0 <= k < |s| ensures Responsible(mk, i, s[k].key) {
      if s[k].key != key {
        var o :| 0 <= o < |es[i]| && es[i][o].key == s[k].key;
        assert Responsible(mk, i, es[i][o].key);
      }
    }
  }

  lemma PartInserted(es: seq<seq<Entry>>, mk: seq<Key>, i: nat, key: Key, val: Val)
    requires PartitionOk(es, mk) && i < |es| && Responsible(mk, i, key) && key < INVALID_KEY
    requires Lookup(es[i], key).None?
    ensures PartitionOk(es[i := Inserted(es[i], key, val)], mk)
    ensures Join(es[i := Inserted(es[i], key, val)]) == Inserted(Join(es), key, val)
  {
    var s := Inserted(es[i], key, val);
    HasIsLookup(es[i], key);
    InsertedSorted(es[i], key, val);
    forall k | 0 <= k < |s| && s[k].key != key ensures exists o :: 0 <= o < |es[i]| && es[i][o].key == s[k].key {
      assert s[k] == es[i][if k < Rank(es[i], key) then k else k - 1];
    }
    PartReplaced(es, mk, i, key, s);
    ResponsibleParts(es, mk, i, key);
    InTheMiddle(Join(es[..i]), es[i], Join(es[i + 1..]), key, val);
  }

  lemma PartUpdated(es: seq<seq<Entry>>, mk: seq<Key>, i: nat, key: Key, val: Val)
    requires PartitionOk(es, mk) && i < |es| && Responsible(mk, i, key)
    ensures PartitionOk(es[i := Updated(es[i], key, val)], mk)
    ensures Join(es[i := Updated(es[i], key, val)]) == Updated(Join(es), key, val)
  {
    var s := Updated(es[i], key, val);
    UpdatedSorted(es[i], key, val);
    forall k | 0 <= k < |s| ensures s[k].key == es[i][k].key {
    }
    PartReplaced(es, mk, i, key, s);
    ResponsibleParts(es, mk, i, key);
    InTheMiddle(Join(es[..i]), es[i], Join(es[i + 1..]), key, val);
  }

  lemma PartRemoved(es: seq<seq<Entry>>, mk: seq<Key>, i: nat, key: Key)
    requires PartitionOk(es, mk) && i < |es| && Responsible(mk, i, key)
    ensures PartitionOk(es[i := Removed(es[i], key)], mk)
    ensures Join(es[i := Removed(es[i], key)]) == Removed(Join(es), key)
  {
    var s := Removed(es[i], key);
    RemovedSorted(es[i], key);
    forall k | 0 <= k < |s| ensures exists o :: 0 <= o < |es[i]| && es[i][o].key == s[k].key {
      assert s[k] == es[i][if s == es[i] || k < Rank(es[i], key) then k else k + 1];
    }
    PartReplaced(es, mk, i, key, s);
    ResponsibleParts(es, mk, i, key);
    InTheMiddle(Join(es[..i]), es[i], Join(es[i + 1..]), key, 0);
  }

  /** A range over the whole is a range from the responsible submodel on. */
  lemma PartRange(es: seq<seq<Entry>>, mk: seq<Key>, i: nat, key: Key, n: nat)
    requires PartitionOk(es, mk) && i < |es| && Responsible(mk, i, key)
    ensures Sorted(Join(es)) && RangeVals(Join(es[i..]), key, n) == RangeVals(Join(es), key, n)
  {
    PartitionSorted(es, mk);
    ResponsibleParts(es, mk, i, key);
    JoinCut(es, 0, i, |es|);
    assert es[0..i] == es[..i] && es[i..|es|] == es[i..] && es[0..|es|] == es;
    RangeSkips(Join(es[..i]), Join(es[i..]), key, n);
  }

  lemma UpperKeysAscend(mk: seq<Key>, first: Key, top: Key)
    requires StrictlyAscending(mk) && first <= top && (mk != [] ==> mk[|mk| - 1] < first)
    ensures StrictlyAscending(mk + [top])
    ensures forall j :: 0 <= j < |mk| ==> mk[j] < first
  {
    assert forall j :: 0 <= j < |mk| ==> mk[j] <= mk[|mk| - 1];
  }

  lemma StillResponsible(mk: seq<Key>, i: nat, key: Key, top: Key)
    requires i < |mk| && Responsible(mk, i, key) && key <= mk[i]
    ensures Responsible(mk + [top], i, key)
  {
  }

  lemma LastResponsible(mk: seq<Key>, s: seq<Entry>, k: nat, top: Key)
    requires Sorted(s) && k < |s| && forall j :: 0 <= j < |mk| ==> mk[j] < s[0].key
    ensures Responsible(mk + [top], |mk|, s[k].key)
  {
    assert s[0].key <= s[k].key;
  }

  /** Training appends a part whose keys are above all earlier upper keys. */
  lemma PartAppended(es: seq<seq<Entry>>, mk: seq<Key>, s: seq<Entry>, top: Key)
    requires PartitionOk(es, mk) && Sorted(s) && s != [] && s[|s| - 1].key == top
    requires mk != [] ==> mk[|mk| - 1] < s[0].key
    requires forall i, k :: 0 <= i < |es| && 0 <= k < |es[i]| ==> es[i][k].key <= mk[i]
    ensures PartitionOk(es + [s], mk + [top]) && Join(es + [s]) == Join(es) + s
  {
    assert s[0].key <= top;
    JoinAppend(es, [s]);
    JoinOne([s]);
    var es': seq<seq<Entry>> := es + [s];
    var mk' := mk + [top];
    UpperKeysAscend(mk, s[0].key, top);
    hide Sorted, StrictlyAscending, Responsible, Join;
    forall i, k | 0 <= i < |es'| && 0 <= k < |es'[i]| ensures Responsible(mk', i, es'[i][k].key) {
      if i < |es| {
        StillResponsible(mk, i, es[i][k].key, top);
      } else {
        LastResponsible(mk, s, k, top);
      }
    }
  }
}

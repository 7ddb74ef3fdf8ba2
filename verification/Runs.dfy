/** Whole runs of operations on a trained index, explained as runs on a finite ordered map. */
module Runs {
  import opened LinearModel
  import opened Entries
  import opened Links
  import opened Partition
  import R = Rolex

  datatype Op =
    | Search(key: Key)
    | Insert(key: Key, val: Val)
    | Update(key: Key, val: Val)
    | Remove(key: Key)
    | Range(key: Key, n: nat)

  datatype Outcome = Found(res: Option<Val>) | Done(ok: bool) | Listed(vals: seq<Val>)

  /** Everything stored, in key order, and the next free synonym slot of every submodel. */
  datatype State = State(content: seq<Entry>, slots: seq<nat>)

  /** At most one slot of the submodel a key belongs to is taken, and only by an insertion that succeeds. */
  ghost predicate SlotsTaken(mk: seq<Key>, slots: seq<nat>, slots': seq<nat>, key: Key, ok: bool)
    requires |mk| == |slots|
  {
    slots' == slots || (ok && R.SlotsStep(mk, slots, slots', key, true))
  }

  /**
   What one operation answers and does. An insertion fails exactly if the key is there already or
   its submodel has used up its synonym slots.
   */
  ghost predicate Explains(mk: seq<Key>, op: Op, out: Outcome, before: State, after: State) {
    && |before.slots| == |after.slots| == |mk|
    && var s, s' := before.content, after.content;
    && (op.Insert? || after.slots == before.slots)
    && match op
       case Search(k) => out == Found(Lookup(s, k)) && s' == s
       case Insert(k, v) =>
         && out == Done(!R.FullAt(mk, before.slots, k) && Lookup(s, k).None?)
         && s' == (if out.ok then Inserted(s, k, v) else s)
         && SlotsTaken(mk, before.slots, after.slots, k, out.ok)
       case Update(k, v) => out == Done(Lookup(s, k).Some?) && s' == Updated(s, k, v)
       case Remove(k) => out == Done(Lookup(s, k).Some?) && s' == Removed(s, k)
       case Range(k, n) => out == Listed(RangeVals(s, k, n)) && s' == s
  }

  ghost predicate RunExplained(mk: seq<Key>, ops: seq<Op>, outs: seq<Outcome>, states: seq<State>) {
    && |outs| == |ops| && |states| == |ops| + 1
    && forall i :: 0 <= i < |ops| ==> Explains(mk, ops[i], outs[i], states[i], states[i + 1])
  }

  lemma RunStart(mk: seq<Key>, ops: seq<Op>, s: State)
    ensures RunExplained(mk, ops[..0], [], [s])
  {
  }

  lemma RunGrows(mk: seq<Key>, ops: seq<Op>, n: nat, outs: seq<Outcome>, states: seq<State>, out: Outcome,
                 before: State, after: State)
    requires n < |ops| && |states| == n + 1 && RunExplained(mk, ops[..n], outs, states)
    requires before == states[n] && Explains(mk, ops[n], out, before, after)
    ensures RunExplained(mk, ops[..n + 1], outs + [out], states + [after])
  {
    var o, u, s := ops[..n + 1], outs + [out], states + [after];
    forall i | 0 <= i < |o| ensures Explains(mk, o[i], u[i], s[i], s[i + 1]) {
      if i < n { assert Explains(mk, ops[..n][i], outs[i], states[i], states[i + 1]); }
    }
  }

  /** What the index holds at the moment. */
  ghost function StateOf(index: R.Rolex): State
    requires index.Intact()
    reads index, index.Repr
  {
    State(index.Contents(), index.Slots())
  }

  lemma SlotsFollow(mk: seq<Key>, slots: seq<nat>, slots': seq<nat>, key: Key, splits: bool, ok: bool)
    requires |mk| == |slots| && R.SlotsStep(mk, slots, slots', key, splits) && (splits ==> ok)
    ensures SlotsTaken(mk, slots, slots', key, ok)
  {
    if !splits { assert slots' == slots; }
  }

  method Apply(index: R.Rolex, op: Op) returns (out: Outcome)
    requires index.Valid() && |index.models| >= 2 && op.key < INVALID_KEY
    requires op.Remove? ==> !index.WouldStrand(op.key)
    requires op.Insert? && index.Splits(op.key) ==> index.alloc.used < |index.alloc.leaves|
    modifies index.Repr
    ensures index.Valid() && unchanged(index)
    ensures index.HeadNums() == old(index.HeadNums())
    ensures Explains(index.modelKeys, op, out, old(StateOf(index)), StateOf(index))
  {
    hide Lookup, Inserted, Updated, Removed, RangeVals, PartitionOk, R.Rolex.Intact, R.Rolex.HeadNums, R.Rolex.Splits;
    hide R.Rolex.WouldStrand, R.Rolex.Contents, R.Rolex.Sound, R.Rolex.Slots, R.FullAt, R.SlotsStep, SlotsTaken;
    index.ValidIntact();
    match op
    case Search(k) =>
      var r := index.Search(k);
      out := Found(r);
    case Insert(k, v) =>
      ghost var slots, splits := index.Slots(), index.Splits(k);
      var ok := index.Insert(k, v);
      index.ValidIntact();
      SlotsFollow(index.modelKeys, slots, index.Slots(), k, splits, ok);
      out := Done(ok);
    case Update(k, v) =>
      var ok := index.Update(k, v);
      out := Done(ok);
    case Remove(k) =>
      var ok := index.Remove(k);
      out := Done(ok);
    case Range(k, n) =>
      var vals := index.Range(k, n, []);
      out := Listed(vals);
  }

  /**
   Any run on a trained index, up to the first removal that would strand synonym leaves under an
   emptied head, or the first insertion that needs another leaf when all are used: every answer is
   that of the ordered map, and the index stays valid.
   */
  method Run(index: R.Rolex, ops: seq<Op>) returns (outs: seq<Outcome>, ghost states: seq<State>)
    requires index.Valid() && |index.models| >= 2
    requires forall i :: 0 <= i < |ops| ==> ops[i].key < INVALID_KEY
    modifies index.Repr
    ensures index.Valid() && |outs| <= |ops| && unchanged(index) && index.HeadNums() == old(index.HeadNums())
    ensures RunExplained(index.modelKeys, ops[..|outs|], outs, states)
    ensures states[0] == old(StateOf(index)) && states[|outs|] == StateOf(index)
    ensures |outs| < |ops| ==>
              || (ops[|outs|].Remove? && index.WouldStrand(ops[|outs|].key))
              || (ops[|outs|].Insert? && index.alloc.used == |index.alloc.leaves| && index.Splits(ops[|outs|].key))
  {
    hide R.Rolex.Sound, R.Rolex.Intact, PartitionOk, R.Rolex.WouldStrand, StateOf, R.Rolex.HeadNums, Explains;
    hide RunExplained, R.Rolex.Splits;
    index.ValidIntact();
    outs, states := [], [StateOf(index)];
    RunStart(index.modelKeys, ops, StateOf(index));
    var i := 0;
    while i < |ops|
      invariant i == |outs| <= |ops| && |states| == i + 1 && unchanged(index)
      invariant index.Valid() && index.Intact()
      invariant RunExplained(index.modelKeys, ops[..i], outs, states) && index.HeadNums() == old(index.HeadNums())
      invariant states[0] == old(StateOf(index)) && states[i] == StateOf(index)
    {
      if ops[i].Remove? {
        var strands := index.RemovalStrands(ops[i].key);
        if strands {
          return;
        }
      }
      index.LeavesLeft();
      if ops[i].Insert? && index.alloc.used == |index.alloc.leaves| {
        var splits := index.InsertionSplits(ops[i].key);
        if splits {
          return;
        }
      }
      ghost var before := StateOf(index);
      var out := Apply(index, ops[i]);
      index.ValidIntact();
      ghost var after := StateOf(index);
      RunGrows(index.modelKeys, ops, i, outs, states, out, before, after);
      outs, states := outs + [out], states + [after];
      i := i + 1;
    }
  }

  // ---------- when an insertion can be turned away ----------

  /** Insertions among the first n operations that succeeded in submodel i. */
  ghost function Grown(mk: seq<Key>, ops: seq<Op>, outs: seq<Outcome>, n: nat, i: nat): nat
    requires n <= |ops| == |outs| && i < |mk|
  {
    if n == 0 then 0 else
    Grown(mk, ops, outs, n - 1, i) +
    if ops[n - 1].Insert? && outs[n - 1] == Done(true) && Responsible(mk, i, ops[n - 1].key) then 1 else 0
  }

  /** Slots are taken by successful insertions only, at most one each. */
  lemma {:induction false} SlotsBound(mk: seq<Key>, ops: seq<Op>, outs: seq<Outcome>, states: seq<State>,
                                      n: nat, i: nat)
    requires RunExplained(mk, ops, outs, states) && n <= |ops| && i < |mk| && |states[0].slots| == |mk|
    ensures |states[n].slots| == |mk| && states[0].slots[i] <= states[n].slots[i]
    ensures states[n].slots[i] <= states[0].slots[i] + Grown(mk, ops, outs, n, i)
  {
    hide R.FullAt, Lookup, Inserted, Updated, Removed, RangeVals, Responsible;
    if n > 0 {
      SlotsBound(mk, ops, outs, states, n - 1, i);
      assert Explains(mk, ops[n - 1], outs[n - 1], states[n - 1], states[n - 1 + 1]);
    }
  }

  /** An insertion of an absent key fails only after its submodel took in enough keys for all its slots. */
  lemma RefusedWhenFull(mk: seq<Key>, ops: seq<Op>, outs: seq<Outcome>, states: seq<State>, n: nat) returns (i: nat)
    requires RunExplained(mk, ops, outs, states) && n < |ops| && |states[0].slots| == |mk|
    requires ops[n].Insert? && outs[n] == Done(false) && Lookup(states[n].content, ops[n].key).None?
    ensures i < |mk| && Responsible(mk, i, ops[n].key)
    ensures Grown(mk, ops, outs, n, i) >= SYNONYM_MAX - 1 - states[0].slots[i]
  {
    hide Lookup, Inserted, Updated, Removed, RangeVals, Responsible;
    assert Explains(mk, ops[n], outs[n], states[n], states[n + 1]);
    i :| 0 <= i < |mk| && Responsible(mk, i, ops[n].key) && states[n].slots[i] == SYNONYM_MAX - 1;
    SlotsBound(mk, ops, outs, states, n, i);
  }

  // ---------- the run as a run on a finite map ----------

  /** ks are the least keys of the map from key on, at most n, in ascending order; vals are their values. */
  ghost predicate IsRange(m: map<Key, Val>, key: Key, n: nat, ks: seq<Key>, vals: seq<Val>) {
    && |ks| == |vals| <= n
    && (forall i, j :: 0 <= i < j < |ks| ==> ks[i] < ks[j])
    && (forall i :: 0 <= i < |ks| ==> ks[i] in m && key <= ks[i] && vals[i] == m[ks[i]])
    && (forall k :: k in m && k >= key && k !in ks ==> |ks| == n && forall i :: 0 <= i < |ks| ==> ks[i] < k)
  }

  /** One step of the finite map; full tells that the map takes no more keys where this one belongs. */
  ghost predicate MapStep(op: Op, out: Outcome, full: bool, m: map<Key, Val>, m': map<Key, Val>) {
    match op
    case Search(k) => out == Found(if k in m then Some(m[k]) else None) && m' == m
    case Insert(k, v) => out == Done(!full && k !in m) && m' == if out.ok then m[k := v] else m
    case Update(k, v) => out == Done(k in m) && m' == if k in m then m[k := v] else m
    case Remove(k) => out == Done(k in m) && m' == m - {k}
    case Range(k, n) => out.Listed? && m' == m && exists ks :: IsRange(m, k, n, ks, out.vals)
  }

  ghost function RangeKeys(s: seq<Entry>, key: Key, n: nat): (ks: seq<Key>)
    ensures var r := Rank(s, key);
            && |ks| == (if |s| - r <= n then |s| - r else n)
            && forall i :: 0 <= i < |ks| ==> ks[i] == s[r + i].key
  {
    var t := Take(s[Rank(s, key)..], n);
    seq(|t|, i requires 0 <= i < |t| => t[i].key)
  }

  lemma RangeValsAt(s: seq<Entry>, key: Key, n: nat)
    ensures |RangeVals(s, key, n)| == |RangeKeys(s, key, n)| <= n
    ensures forall i :: 0 <= i < |RangeKeys(s, key, n)| ==> RangeVals(s, key, n)[i] == s[Rank(s, key) + i].val
  {
  }

  lemma NearIsListed(s: seq<Entry>, key: Key, n: nat, p: nat)
    requires Rank(s, key) <= p < Rank(s, key) + |RangeKeys(s, key, n)|
    ensures s[p].key in RangeKeys(s, key, n)
  {
    assert RangeKeys(s, key, n)[p - Rank(s, key)] == s[p].key;
  }

  /** A stored key from key on that is not listed lies behind a full list. */
  lemma UnlistedIsLarger(s: seq<Entry>, key: Key, n: nat, p: nat)
    requires Sorted(s) && p < |s| && s[p].key >= key && s[p].key !in RangeKeys(s, key, n)
    ensures |RangeKeys(s, key, n)| == n && forall i :: 0 <= i < n ==> RangeKeys(s, key, n)[i] < s[p].key
  {
    var r, ks := Rank(s, key), RangeKeys(s, key, n);
    assert p >= r;
    if p - r < |ks| { NearIsListed(s, key, n, p); }
  }

  lemma SortedPair(s: seq<Entry>, i: nat, j: nat)
    requires Sorted(s) && i < j < |s|
    ensures s[i].key < s[j].key
  {
  }

  lemma LookupRank(s: seq<Entry>, k: Key)
    requires Lookup(s, k).Some?
    ensures Rank(s, k) < |s| && s[Rank(s, k)].key == k
  {
  }

  /** The range of a sorted sequence is the range of its map. */
  lemma RangeIsLeast(s: seq<Entry>, key: Key, n: nat)
    requires Sorted(s)
    ensures IsRange(AsMap(s), key, n, RangeKeys(s, key, n), RangeVals(s, key, n))
  {
    hide RangeVals, RangeKeys, AsMap, Lookup, Rank, Sorted;
    var r, ks, m := Rank(s, key), RangeKeys(s, key, n), AsMap(s);
    RangeValsAt(s, key, n);
    forall i, j | 0 <= i < j < |ks| ensures ks[i] < ks[j] {
      SortedPair(s, r + i, r + j);
    }
    forall i | 0 <= i < |ks| ensures ks[i] in m && key <= ks[i] && m[ks[i]] == s[r + i].val {
      LookupFound(s, r + i, ks[i]);
      if i > 0 { SortedPair(s, r, r + i); }
    }
    forall k | k in m ensures Rank(s, k) < |s| && s[Rank(s, k)].key == k {
      LookupRank(s, k);
    }
    forall k | k in m && k >= key && k !in ks ensures |ks| == n && forall i :: 0 <= i < |ks| ==> ks[i] < k {
      UnlistedIsLarger(s, key, n, Rank(s, k));
    }
  }

  /** One explained step is one step of the map. */
  lemma StepIsMapStep(mk: seq<Key>, op: Op, out: Outcome, before: State, after: State)
    requires Sorted(before.content) && op.key < INVALID_KEY && Explains(mk, op, out, before, after)
    ensures Sorted(after.content)
    ensures MapStep(op, out, R.FullAt(mk, before.slots, op.key), AsMap(before.content), AsMap(after.content))
  {
    hide Rank, Lookup, Inserted, Updated, Removed, RangeVals, Sorted, IsRange, R.FullAt, SlotsTaken;
    match op
    case Search(k) =>
    case Insert(k, v) => if out.ok { InsertedIsMapUpdate(before.content, k, v); }
    case Update(k, v) => UpdatedIsMapUpdate(before.content, k, v);
    case Remove(k) => RemovedIsMapRemoval(before.content, k);
    case Range(k, n) => RangeIsLeast(before.content, k, n);
  }

  lemma StepSlots(mk: seq<Key>, op: Op, out: Outcome, before: State, after: State)
    requires Explains(mk, op, out, before, after)
    ensures |before.slots| == |mk|
  {
  }

  /** Every run that the index answers is a run of the finite ordered map. */
  lemma {:induction false} RunIsMapRun(mk: seq<Key>, ops: seq<Op>, outs: seq<Outcome>, states: seq<State>, n: nat)
    requires RunExplained(mk, ops, outs, states) && n <= |ops| && Sorted(states[0].content)
    requires forall i :: 0 <= i < |ops| ==> ops[i].key < INVALID_KEY
    ensures forall i :: 0 <= i <= n ==> Sorted(states[i].content)
    ensures forall i :: 0 <= i < n ==>
              && |states[i].slots| == |mk|
              && MapStep(ops[i], outs[i], R.FullAt(mk, states[i].slots, ops[i].key),
                         AsMap(states[i].content), AsMap(states[i + 1].content))
  {
    hide MapStep, Explains, AsMap, Sorted, R.FullAt;
    if n > 0 {
      RunIsMapRun(mk, ops, outs, states, n - 1);
      StepSlots(mk, ops[n - 1], outs[n - 1], states[n - 1], states[n - 1 + 1]);
      StepIsMapStep(mk, ops[n - 1], outs[n - 1], states[n - 1], states[n - 1 + 1]);
    }
  }
}

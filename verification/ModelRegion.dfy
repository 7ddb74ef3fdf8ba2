/**
 The memory region that holds the trained models for others to read: a count, an array of upper
 keys, an array of offsets in the second half of the head, and the serialized submodels behind it.
 */
module ModelRegion {
  import opened Entries
  import opened Serialization

  /** Size of the head. */
  const UPPER: nat := 32 * 1024 * 1024
  const HALF: nat := UPPER / 2
  const MAX_UPPER: nat := if (HALF - 8) / 8 < HALF / 8 then (HALF - 8) / 8 else HALF / 8

  function KeyAt(i: nat): nat { 8 + 8 * i }
  function OffsetAt(i: nat): nat { HALF + 8 * i }

  /**
   Slots of the head stay apart for exactly as many models as the limit says. The check in front of
   the allocation lets one more through, whose key then lies on the first offset.
   */
  lemma UpperSlots(n: nat)
    requires n > 0
    ensures n <= MAX_UPPER <==>
              KeyAt(n - 1) + 8 <= OffsetAt(0) && OffsetAt(n - 1) + 8 <= UPPER
    ensures n == MAX_UPPER + 1 ==> KeyAt(n - 1) == OffsetAt(0)
  {
    assert HALF == 16777216 && MAX_UPPER == 2097151;
  }

  // ---------- reading and writing bytes ----------

  function Slice(mem: Bytes, at: nat, n: nat): Bytes
    requires at + n <= |mem|
  {
    mem[at..at + n]
  }

  ghost function Patch(mem: Bytes, at: nat, b: Bytes): (r: Bytes)
    requires at + |b| <= |mem|
    ensures |r| == |mem|
  {
    mem[..at] + b + mem[at + |b|..]
  }

  lemma PatchSame(mem: Bytes, at: nat, b: Bytes)
    requires at + |b| <= |mem|
    ensures Slice(Patch(mem, at, b), at, |b|) == b
  {
  }

  lemma PatchOther(mem: Bytes, at: nat, b: Bytes, a: nat, n: nat)
    requires at + |b| <= |mem| && a + n <= |mem| && (a + n <= at || at + |b| <= a)
    ensures Slice(Patch(mem, at, b), a, n) == Slice(mem, a, n)
  {
  }

  // ---------- the image ----------

  ghost function BlobSize(m: Keyed): nat { 4 + |ModelBytes(m.model)| }

  /** Model i is recorded: its key, its offset, and at the offset its size and bytes. */
  ghost predicate Holds(mem: Bytes, i: nat, m: Keyed, off: nat) {
    && |mem| > UPPER && i < MAX_UPPER && UPPER <= off && off + BlobSize(m) <= |mem|
    && Slice(mem, KeyAt(i), 8) == Encode(8, m.key)
    && Slice(mem, OffsetAt(i), 8) == Encode(8, off)
    && Slice(mem, off, 4) == Encode(4, |ModelBytes(m.model)|)
    && Slice(mem, off + 4, |ModelBytes(m.model)|) == ModelBytes(m.model)
  }

  ghost predicate Image(mem: Bytes, ms: seq<Keyed>, offs: seq<nat>, cur: nat) {
    && UPPER < |mem| <= MAX_WORD && UPPER <= cur <= |mem|
    && |ms| == |offs| <= MAX_UPPER && AllFit(ms)
    && (forall i :: 0 <= i < |ms| ==> offs[i] + BlobSize(ms[i]) <= cur && Holds(mem, i, ms[i], offs[i]))
    && (forall i, j :: 0 <= i < j < |ms| ==> offs[i] + BlobSize(ms[i]) <= offs[j])
  }

  /** A write that misses everything recorded about model i. */
  lemma HoldsStill(mem: Bytes, i: nat, m: Keyed, off: nat, at: nat, b: Bytes)
    requires Holds(mem, i, m, off) && at + |b| <= |mem|
    requires KeyAt(i) + 8 <= at || at + |b| <= KeyAt(i)
    requires OffsetAt(i) + 8 <= at || at + |b| <= OffsetAt(i)
    requires off + BlobSize(m) <= at || at + |b| <= off
    ensures Holds(Patch(mem, at, b), i, m, off)
  {
    hide Patch, Slice;
    var image := ModelBytes(m.model);
    PatchOther(mem, at, b, KeyAt(i), 8);
    PatchOther(mem, at, b, OffsetAt(i), 8);
    PatchOther(mem, at, b, off, 4);
    PatchOther(mem, at, b, off + 4, |image|);
  }

  ghost predicate AllHold(mem: Bytes, ms: seq<Keyed>, offs: seq<nat>)
    requires |ms| == |offs|
  {
    forall i :: 0 <= i < |ms| ==> Holds(mem, i, ms[i], offs[i])
  }

  /** A write of n bytes misses the head slots and the blobs of all models. */
  ghost predicate Misses(ms: seq<Keyed>, offs: seq<nat>, at: nat, n: nat)
    requires |ms| == |offs|
  {
    forall i :: 0 <= i < |ms| ==>
      && (KeyAt(i) + 8 <= at || at + n <= KeyAt(i))
      && (OffsetAt(i) + 8 <= at || at + n <= OffsetAt(i))
      && (offs[i] + BlobSize(ms[i]) <= at || at + n <= offs[i])
  }

  lemma AllHoldStill(mem: Bytes, ms: seq<Keyed>, offs: seq<nat>, at: nat, b: Bytes)
    requires |ms| == |offs| && AllHold(mem, ms, offs)
    requires at + |b| <= |mem| && Misses(ms, offs, at, |b|)
    ensures AllHold(Patch(mem, at, b), ms, offs)
  {
    hide Holds, Patch, BlobSize;
    forall i | 0 <= i < |ms| ensures Holds(Patch(mem, at, b), i, ms[i], offs[i]) {
      HoldsStill(mem, i, ms[i], offs[i], at, b);
    }
  }

  /** The region after the four writes that record model n at an offset. */
  ghost function Written(mem: Bytes, n: nat, m: Keyed, off: nat): (r: Bytes)
    requires UPPER < |mem| && n < MAX_UPPER && off + BlobSize(m) <= |mem|
    ensures |r| == |mem|
  {
    var image := ModelBytes(m.model);
    var sized := Patch(mem, off, Encode(4, |image|));
    var stored := Patch(sized, off + 4, image);
    UpperSlots(n + 1);
    var keyed := Patch(stored, KeyAt(n), Encode(8, m.key));
    Patch(keyed, OffsetAt(n), Encode(8, off))
  }

  lemma WrittenHolds(mem: Bytes, n: nat, m: Keyed, off: nat)
    requires UPPER < |mem| && n < MAX_UPPER && UPPER <= off && off + BlobSize(m) <= |mem|
    ensures Holds(Written(mem, n, m, off), n, m, off)
  {
    hide Patch, Slice, Encode, ModelBytes;
    UpperSlots(n + 1);
    var image := ModelBytes(m.model);
    var size, key, place := Encode(4, |image|), Encode(8, m.key), Encode(8, off);
    var sized := Patch(mem, off, size);
    var stored := Patch(sized, off + 4, image);
    var keyed := Patch(stored, KeyAt(n), key);
    PatchSame(mem, off, size);
    PatchSame(sized, off + 4, image);
    PatchSame(stored, KeyAt(n), key);
    PatchSame(keyed, OffsetAt(n), place);
    PatchOther(sized, off + 4, image, off, 4);
    PatchOther(stored, KeyAt(n), key, off, 4);
    PatchOther(stored, KeyAt(n), key, off + 4, |image|);
    PatchOther(keyed, OffsetAt(n), place, off, 4);
    PatchOther(keyed, OffsetAt(n), place, off + 4, |image|);
    PatchOther(keyed, OffsetAt(n), place, KeyAt(n), 8);
  }

  lemma Starts(mem: Bytes, ms: seq<Keyed>, offs: seq<nat>, cur: nat)
    requires Image(mem, ms, offs, cur)
    ensures forall i :: 0 <= i < |ms| ==> UPPER <= offs[i] && offs[i] + BlobSize(ms[i]) <= cur
  {
  }

  lemma WrittenKeeps(mem: Bytes, ms: seq<Keyed>, offs: seq<nat>, cur: nat, m: Keyed)
    requires Image(mem, ms, offs, cur) && |ms| < MAX_UPPER && cur + BlobSize(m) <= |mem|
    ensures AllHold(Written(mem, |ms|, m, cur), ms, offs)
  {
    hide Patch, Slice, Encode, ModelBytes, Holds;
    var n := |ms|;
    UpperSlots(n + 1);
    var image := ModelBytes(m.model);
    var size, key, place := Encode(4, |image|), Encode(8, m.key), Encode(8, cur);
    var sized := Patch(mem, cur, size);
    var stored := Patch(sized, cur + 4, image);
    var keyed := Patch(stored, KeyAt(n), key);
    Starts(mem, ms, offs, cur);
    AllHoldStill(mem, ms, offs, cur, size);
    AllHoldStill(sized, ms, offs, cur + 4, image);
    AllHoldStill(stored, ms, offs, KeyAt(n), key);
    AllHoldStill(keyed, ms, offs, OffsetAt(n), place);
  }

  lemma ImageSize(mem: Bytes, ms: seq<Keyed>, offs: seq<nat>, cur: nat)
    requires Image(mem, ms, offs, cur)
    ensures UPPER < |mem| <= MAX_WORD && UPPER <= cur <= |mem| && |ms| == |offs| <= MAX_UPPER
  {
  }

  /** Recording one more model keeps the region a faithful image. */
  lemma Appended(mem: Bytes, ms: seq<Keyed>, offs: seq<nat>, cur: nat, m: Keyed)
    requires Image(mem, ms, offs, cur) && |ms| < MAX_UPPER && cur + BlobSize(m) <= |mem|
    requires m.key <= MAX_WORD && ModelFits(m.model)
    ensures Image(Written(mem, |ms|, m, cur), ms + [m], offs + [cur], cur + BlobSize(m))
  {
    hide Holds, Written, ModelFits, BlobSize;
    WrittenKeeps(mem, ms, offs, cur, m);
    WrittenHolds(mem, |ms|, m, cur);
  }

  /** The count does not touch any model. */
  lemma TotalKeeps(mem: Bytes, ms: seq<Keyed>, offs: seq<nat>, cur: nat, b: Bytes)
    requires Image(mem, ms, offs, cur) && |b| == 8
    ensures Image(Patch(mem, 0, b), ms, offs, cur)
  {
    hide Holds, Patch, BlobSize, ModelFits;
    Starts(mem, ms, offs, cur);
    AllHoldStill(mem, ms, offs, 0, b);
  }

  lemma CountRead(mem: Bytes, n: nat)
    requires |mem| >= 8 && Slice(mem, 0, 8) == Encode(8, n) && n <= MAX_UPPER
    ensures Decode(Slice(mem, 0, 8)) == n
  {
    WordRoundTrip(n);
  }

  /** What is recorded about model i reads back as that model. */
  lemma ReadBack(mem: Bytes, ms: seq<Keyed>, offs: seq<nat>, cur: nat, i: nat)
    requires Image(mem, ms, offs, cur) && i < |ms|
    ensures |ms| == |offs| && KeyAt(i) + 8 <= |mem| && OffsetAt(i) + 8 <= |mem| && offs[i] + 4 <= |mem|
    ensures Decode(Slice(mem, KeyAt(i), 8)) == ms[i].key
    ensures Decode(Slice(mem, OffsetAt(i), 8)) == offs[i]
    ensures var size := Decode(Slice(mem, offs[i], 4));
            && offs[i] + 4 + size <= |mem|
            && ParsedModel(Slice(mem, offs[i] + 4, size)) == Some(ms[i].model)
  {
    hide Encode, Decode, ParsedModel, ModelBytes, ModelFits;
    UpperSlots(i + 1);
    assert Holds(mem, i, ms[i], offs[i]) && ModelFits(ms[i].model);
    ModelSize(ms[i].model);
    WordRoundTrip(ms[i].key);
    WordRoundTrip(offs[i]);
    CountRoundTrip(|ModelBytes(ms[i].model)|);
    ModelRoundTrip(ms[i].model);
  }

  class ModelAllocator {
    const pool: array<nat>
    var curAllocSz: nat
    var upperAllocNum: nat
    ghost var list: seq<Keyed>
    ghost var offs: seq<nat>

    ghost predicate Valid()
      reads this, pool
    {
      upperAllocNum == |list| && Image(pool[..], list, offs, curAllocSz)
    }

    /** The count at the front agrees with the models written. */
    ghost predicate Counted()
      reads this, pool
    {
      pool.Length >= 8 && Slice(pool[..], 0, 8) == Encode(8, |list|)
    }

    lemma KeysFit()
      requires Valid()
      ensures forall i :: 0 <= i < |list| ==> list[i].key <= MAX_WORD
    {
    }

    method Write(at: nat, b: Bytes)
      requires at + |b| <= pool.Length
      modifies pool
      ensures pool[..] == Patch(old(pool[..]), at, b)
    {
      for i := 0 to |b|
        invariant forall k :: 0 <= k < pool.Length ==>
                    pool[k] == if at <= k < at + i then b[k - at] else old(pool[..])[k]
      {
        pool[at + i] := b[i];
      }
    }

    constructor (pool: array<nat>)
      requires UPPER < pool.Length <= MAX_WORD
      modifies pool
      ensures Valid() && Counted() && list == [] && this.pool == pool && curAllocSz == UPPER
    {
      this.pool, curAllocSz, upperAllocNum := pool, UPPER, 0;
      list, offs := [], [];
      new;
      ghost var before := pool[..];
      Write(0, Encode(8, 0));
      PatchSame(before, 0, Encode(8, 0));
    }

    /** Room for a key and for an offset in the head. */
    method AllocUpper() returns (r: Option<(nat, nat)>)
      modifies `upperAllocNum
      ensures r.None? <==> old(upperAllocNum) > MAX_UPPER
      ensures r.Some? ==> r.value == (KeyAt(old(upperAllocNum)), OffsetAt(old(upperAllocNum)))
      ensures upperAllocNum == if r.Some? then old(upperAllocNum) + 1 else old(upperAllocNum)
    {
      if upperAllocNum > MAX_UPPER {
        return None;
      }
      r := Some((KeyAt(upperAllocNum), OffsetAt(upperAllocNum)));
      upperAllocNum := upperAllocNum + 1;
    }

    method AllocSubmodel(size: nat) returns (r: Option<nat>)
      modifies `curAllocSz
      ensures r.None? <==> old(curAllocSz) + size > pool.Length
      ensures r.Some? ==> r.value == old(curAllocSz)
      ensures curAllocSz == if r.Some? then old(curAllocSz) + size else old(curAllocSz)
    {
      if curAllocSz + size > pool.Length {
        return None;
      }
      r := Some(curAllocSz);
      curAllocSz := curAllocSz + size;
    }

    /** Writes one trained model behind the others; false when the region is too small for it. */
    method AppendModel(m: Keyed) returns (ok: bool)
      requires Valid() && |list| < MAX_UPPER && m.key <= MAX_WORD && ModelFits(m.model)
      modifies this, pool
      ensures Valid()
      ensures ok <==> old(curAllocSz) + BlobSize(m) <= pool.Length
      ensures list == if ok then old(list) + [m] else old(list)
      ensures ok ==> curAllocSz == old(curAllocSz) + BlobSize(m)
    {
      hide Image, ModelBytes, ModelFits, Encode, Patch;
      var bytes := SerializeModel(m.model);
      var sub := AllocSubmodel(|bytes| + 4);
      if sub.None? {
        return false;
      }
      ghost var mem, n := pool[..], |list|;
      ImageSize(mem, list, offs, sub.value);
      UpperSlots(n + 1);
      Write(sub.value, Encode(4, |bytes|));
      Write(sub.value + 4, bytes);
      var upper := AllocUpper();
      var (keyAt, offsetAt) := upper.value;
      Write(keyAt, Encode(8, m.key));
      Write(offsetAt, Encode(8, sub.value));
      Appended(mem, list, offs, sub.value, m);
      list, offs := list + [m], offs + [sub.value];
      return true;
    }

    method WriteTotal()
      requires Valid()
      modifies pool
      ensures Valid() && Counted() && list == old(list)
    {
      hide Image, Encode, Patch;
      ghost var mem, b := pool[..], Encode(8, |list|);
      ImageSize(mem, list, offs, curAllocSz);
      TotalKeeps(mem, list, offs, curAllocSz, b);
      PatchSame(mem, 0, b);
      Write(0, Encode(8, upperAllocNum));
    }

    method ReadNumber(at: nat, n: nat) returns (x: nat)
      requires at + n <= pool.Length
      ensures x == Decode(Slice(pool[..], at, n))
    {
      assert pool[at..at + n] == pool[..][at..at + n];
      x := Decode(pool[at..at + n]);
    }

    /** One model from its place in the region. */
    method ReadModel(off: nat) returns (r: Option<ModelImage>)
      requires off + 4 <= pool.Length && off + 4 + Decode(Slice(pool[..], off, 4)) <= pool.Length
      ensures r == ParsedModel(Slice(pool[..], off + 4, Decode(Slice(pool[..], off, 4))))
    {
      hide ParsedModel;
      var size := ReadNumber(off, 4);
      assert pool[off + 4..off + 4 + size] == pool[..][off + 4..off + 4 + size];
      r := DeserializeModel(pool[off + 4..off + 4 + size]);
    }

    /** A memory node restores the models from its region. */
    method Deserialize() returns (r: seq<Keyed>)
      requires Valid() && Counted()
      ensures r == list
    {
      hide Image, Holds, Encode, Decode, ParsedModel, Slice;
      ImageSize(pool[..], list, offs, curAllocSz);
      CountRead(pool[..], |list|);
      var total := ReadNumber(0, 8);
      r := [];
      for i := 0 to total
        invariant r == list[..i]
      {
        ReadBack(pool[..], list, offs, curAllocSz, i);
        var key := ReadNumber(KeyAt(i), 8);
        var off := ReadNumber(OffsetAt(i), 8);
        var m := ReadModel(off);
        r := r + [Keyed(key, m.value)];
      }
    }

    /** A compute node fetches the count, all keys, all offsets, and then each model. */
    method ReadRemoteIndex() returns (r: seq<Keyed>)
      requires Valid() && Counted()
      ensures r == list
    {
      hide Image, Holds, Encode, Decode, ParsedModel, Slice;
      ImageSize(pool[..], list, offs, curAllocSz);
      CountRead(pool[..], |list|);
      var total := ReadNumber(0, 8);
      var keys, places := [], [];
      for i := 0 to total
        invariant |keys| == |places| == i
        invariant forall k :: 0 <= k < i ==> keys[k] == list[k].key && places[k] == offs[k]
      {
        ReadBack(pool[..], list, offs, curAllocSz, i);
        var key := ReadNumber(KeyAt(i), 8);
        var off := ReadNumber(OffsetAt(i), 8);
        keys, places := keys + [key], places + [off];
      }
      r := [];
      for i := 0 to total
        invariant r == list[..i]
      {
        ReadBack(pool[..], list, offs, curAllocSz, i);
        var m := ReadModel(places[i]);
        r := r + [Keyed(keys[i], m.value)];
      }
    }
  }
}

/** The learned index on the memory node: trained submodels over one region of leaves. */
module Rolex {
  import opened Geometry
  import opened LinearModel
  import opened Plr
  import opened Segment
  import opened Entries
  import opened LeafAllocator
  import opened Groups
  import opened Routing
  import opened Links
  import opened LeafTable
  import opened SubModel
  import opened BinarySearch
  import opened Partition
  import opened TrainingRuns
  import opened Serialization
  import Region = ModelRegion

  datatype TrainResult = Trained | Duplicate | NotIncreasing | OutOfLeaves | OutOfRegion

  /** The submodel a key belongs to has used up its synonym slots. */
  ghost predicate FullAt(mk: seq<Key>, slots: seq<nat>, key: Key)
    requires |mk| == |slots|
  {
    exists i :: 0 <= i < |mk| && Responsible(mk, i, key) && slots[i] == SYNONYM_MAX - 1
  }

  /** An insertion takes one slot of the submodel the key belongs to if it splits a leaf. */
  ghost predicate SlotsStep(mk: seq<Key>, slots: seq<nat>, slots': seq<nat>, key: Key, splits: bool)
    requires |mk| == |slots|
  {
    && |slots'| == |slots|
    && forall i :: 0 <= i < |slots| ==>
         slots'[i] == if splits && Responsible(mk, i, key) then slots[i] + 1 else slots[i]
  }

  lemma SameAt<T>(s: seq<T>, i: nat)
    requires i < |s|
    ensures s[i := s[i]] == s
  {
  }

  lemma OneSlotStep(mk: seq<Key>, slots: seq<nat>, i: nat, key: Key, splits: bool, s: nat)
    requires |mk| == |slots| && StrictlyAscending(mk) && i < |mk| && Responsible(mk, i, key)
    requires s == if splits then slots[i] + 1 else slots[i]
    ensures SlotsStep(mk, slots, slots[i := s], key, splits)
  {
    hide Responsible, StrictlyAscending;
    forall j | 0 <= j < |mk| && Responsible(mk, j, key) ensures j == i {
      OneResponsible(mk, i, j, key);
    }
  }

  /** The regression object holds the open run, ending in the given key. */
  ghost predicate OpenRun(opt: PLR, ks: seq<Key>, last: Key)
    reads opt
  {
    && 0 < |ks| <= MAX_Y && opt.Valid() && opt.epsilon == EPSILON - 1
    && opt.run == RankBands(ks) && opt.pointsInHull == |opt.run| && opt.lastX == last
  }

  /** A new regression with the first key of a run at rank 0. */
  method NewRun(key: Key) returns (opt: PLR)
    ensures fresh(opt) && OpenRun(opt, [key], key)
  {
    opt := new PLR(EPSILON - 1);
    var r := opt.AddPoint(key, 0);
    assert RankBands([key]) == [BandOf(EPSILON - 1, key, 0)];
  }

  class Rolex {
    const alloc: LeafAllocator
    /** Where training records the submodels for other nodes. */
    const region: Region.ModelAllocator
    /** The bit patterns of slope and intercept of a line. */
    const bits: Line -> (Word, Word)
    var modelKeys: seq<Key>
    var models: seq<SubModel>
    ghost var Repr: set<object>

    /** No two submodels share state. */
    ghost predicate Separate(i: nat, j: nat)
      requires i < |models| && j < |models|
      reads this, models[i].ltable, models[j].ltable
    {
      && models[i].ltable != models[j].ltable
      && models[i].ltable.synonymTable != models[j].ltable.synonymTable
      && models[i].ltable.owned !! models[j].ltable.owned
    }

    ghost predicate Within(i: nat)
      requires i < |models|
      reads this
    {
      models[i].ltable in Repr && models[i].ltable.synonymTable in Repr
    }

    /** The structure is intact; some keys may be stranded. */
    ghost predicate Intact()
      reads this, Repr
    {
      && this in Repr && alloc in Repr && alloc.Repr <= Repr && this !in alloc.Repr && alloc.Valid()
      && |models| == |modelKeys|
      && (forall i :: 0 <= i < |models| ==> Within(i) && models[i].ltable.Valid(alloc))
      && (forall i, j :: 0 <= i < |models| && 0 <= j < |models| && i != j ==> Separate(i, j))
    }

    ghost function Parts(): (es: seq<seq<Entry>>)
      requires Intact()
      reads this, Repr
      ensures |es| == |models| && forall i :: 0 <= i < |models| ==> es[i] == models[i].Entries(alloc)
    {
      seq(|models|, i requires 0 <= i < |models| reads this, Repr requires Intact() =>
        assert Within(i);
        models[i].Entries(alloc))
    }

    ghost function Shapes(): (r: seq<ModelShape>)
      reads this
      ensures |r| == |models|
      ensures forall i :: 0 <= i < |models| ==> r[i] == ModelShape(models[i].model, models[i].capacity)
    {
      seq(|models|, i requires 0 <= i < |models| reads this => ModelShape(models[i].model, models[i].capacity))
    }

    /** The head leaf of every table entry of every submodel, by number. */
    ghost function HeadNums(): (r: seq<seq<nat>>)
      requires Intact()
      reads this, Repr
      ensures |r| == |models| && forall i :: 0 <= i < |models| ==> r[i] == models[i].ltable.HeadNums()
    {
      seq(|models|, i requires 0 <= i < |models| reads this, Repr requires Intact() =>
        assert Within(i);
        models[i].ltable.HeadNums())
    }

    /** The next free synonym slot of every submodel. */
    ghost function Slots(): (r: seq<nat>)
      requires Intact()
      reads this, Repr
      ensures |r| == |models| && forall i :: 0 <= i < |models| ==> r[i] == models[i].ltable.Slots()
    {
      seq(|models|, i requires 0 <= i < |models| reads this, Repr requires Intact() =>
        assert Within(i);
        models[i].ltable.Slots())
    }

    ghost predicate Sound()
      reads this, Repr
    {
      Intact() && PartitionOk(Parts(), modelKeys)
    }

    ghost predicate Valid()
      reads this, Repr
    {
      Sound() && forall i :: 0 <= i < |models| ==> Within(i) && models[i].Valid(alloc)
    }

    /** Everything stored, in key order. */
    ghost function Contents(): seq<Entry>
      requires Intact()
      reads this, Repr
    {
      Join(Parts())
    }

    lemma ValidIntact()
      requires Valid()
      ensures Sound() && Intact() && this in Repr && alloc in Repr
    {
    }

    lemma LeavesLeft()
      requires Valid()
      ensures alloc.used <= |alloc.leaves|
    {
    }

    lemma KeysAscend()
      requires Valid()
      ensures |models| == |modelKeys| && StrictlyAscending(modelKeys)
    {
    }

    lemma ValidParts()
      requires Valid()
      ensures Sound() && Intact() && this in Repr && alloc in Repr
      ensures PartitionOk(Parts(), modelKeys) && Contents() == Join(Parts())
    {
    }

    /** The submodels as they are serialized, each under its upper key. */
    ghost function Images(): (r: seq<Keyed>)
      requires Intact()
      reads this, Repr
      ensures |r| == |models| && forall i :: 0 <= i < |models| ==> r[i] == Keyed(modelKeys[i], models[i].Image(bits))
    {
      seq(|models|, i requires 0 <= i < |models| reads this, Repr requires Intact() =>
        assert Within(i);
        Keyed(modelKeys[i], models[i].Image(bits)))
    }

    /** The region holds exactly the submodels of this index, and shares nothing with it. */
    ghost predicate Recorded()
      requires Intact()
      reads this, Repr, region, region.pool
    {
      region.Valid() && region !in Repr && region.pool !in Repr && region.list == Images()
    }

    constructor (alloc: LeafAllocator, region: Region.ModelAllocator, bits: Line -> (Word, Word))
      requires alloc.Valid() && region.Valid() && region.list == [] && region.Counted()
      requires region !in alloc.Repr && region.pool !in alloc.Repr
      ensures Valid() && this.alloc == alloc && this.region == region && this.bits == bits
      ensures models == [] && Contents() == [] && Recorded() && region.Counted()
      ensures fresh(Repr - alloc.Repr) && alloc.Repr <= Repr
    {
      this.alloc, this.region, this.bits, modelKeys, models := alloc, region, bits, [], [];
      Repr := {this} + alloc.Repr;
    }

    /** As after training: no table entry has synonym leaves, and all synonym slots are free. */
    ghost predicate NoSynonyms()
      requires Intact()
      reads this, Repr
    {
      forall i :: 0 <= i < |models| && Within(i) ==> models[i].ltable.IsFresh()
    }

    /** While training: no submodel holds a key above its upper key, and none has synonym leaves. */
    ghost predicate Bounded()
      requires Intact()
      reads this, Repr
    {
      UpperBounds(Parts(), modelKeys) && NoSynonyms()
    }

    /** What has been spent so far and what the keys from start on will take. */
    ghost function Budget(keys: seq<Key>, start: nat): Need
      requires start <= |keys| <= MAX_Y
      reads this, alloc, region
    {
      var n := NeedOf(keys, start);
      Need(alloc.used + n.leaves, region.curAllocSz + n.bytes, |models| + n.models)
    }

    /** The preallocated leaves and the model region suffice. */
    ghost predicate Affordable(n: Need)
      reads this
    {
      n.leaves <= |alloc.leaves| && n.bytes <= region.pool.Length
    }

    /** What the sizes of index and memory must be for counts, offsets and leaf numbers to fit their fields. */
    ghost predicate Sized(keys: seq<Key>)
      reads this
    {
      |keys| <= MAX_COUNT && |alloc.leaves| <= LEAF_NUMS
    }

    lemma EmptyFlat(keys: seq<Key>)
      requires Valid() && models == [] && Sized(keys) && Recorded()
      ensures Intact() && NoSynonyms() && Contents() == []
      ensures keys == [] ==> Reaches(Shapes(), modelKeys, keys) && Greedy(Shapes(), modelKeys, keys)
      ensures keys == [] ==> StartOf(Shapes(), |models|) == |keys| && Affordable(Budget(keys, 0))
    {
    }

    lemma BoundedFlat()
      requires Valid() && Bounded()
      ensures Intact() && NoSynonyms()
    {
    }

    /** A submodel created by a step that touched only fresh leaves leaves the others as they were. */
    twostate lemma ModelAdded(new m: SubModel, s: seq<Entry>)
      requires old(Intact()) && models == old(models) + [m] && |modelKeys| == |models|
      requires Repr == old(Repr) + {m.ltable, m.ltable.synonymTable}
      requires fresh(m.ltable) && fresh(m.ltable.synonymTable)
      requires alloc.Valid() && m.ltable.Valid(alloc) && m.Entries(alloc) == s
      requires old(alloc.used) <= alloc.used && |alloc.pool| == old(|alloc.pool|)
      requires forall n :: 0 <= n < old(alloc.used) && n < |alloc.pool| ==> alloc.pool[n] == old(alloc.pool)[n]
      requires forall n :: n in m.ltable.owned ==> n >= old(alloc.used)
      requires forall j :: 0 <= j < |old(models)| ==>
                 unchanged(old(models)[j].ltable) && unchanged(old(models)[j].ltable.synonymTable)
      ensures Intact() && Parts() == old(Parts()) + [s] && Contents() == Join(old(Parts()) + [s])
      ensures forall j :: 0 <= j < |old(models)| && old(models[j].Valid(alloc)) ==> models[j].Valid(alloc)
      ensures old(NoSynonyms()) && m.ltable.IsFresh() ==> NoSynonyms()
    {
      hide Join, Routing.Contents, GroupOk;
      var t := |old(models)|;
      forall j | 0 <= j < t
        ensures models[j].ltable.Valid(alloc)
        ensures models[j].ltable.Groups(alloc) == old(models[j].ltable.Groups(alloc))
      {
        assert old(Within(j));
        models[j].ltable.Kept(alloc);
      }
      forall a, b | 0 <= a < |models| && 0 <= b < |models| && a != b ensures Separate(a, b) {
        if a < t && b < t { assert old(Separate(a, b)); }
        if a < t { assert old(Within(a)); }
        if b < t { assert old(Within(b)); }
      }
      forall a | 0 <= a < |models| ensures Within(a) {
        if a < t { assert old(Within(a)); }
      }
    }

    twostate lemma ImagesAdded(new m: SubModel)
      requires old(Intact()) && Intact() && models == old(models) + [m]
      requires |modelKeys| == |models| && modelKeys[..|old(models)|] == old(modelKeys)
      requires forall j :: 0 <= j < |old(models)| ==>
                 unchanged(old(models)[j].ltable) && unchanged(old(models)[j].ltable.synonymTable)
      ensures Images() == old(Images()) + [Keyed(modelKeys[|old(models)|], m.Image(bits))]
    {
      hide LeafTable.Valid, Separate;
      var n := |old(models)|;
      forall j | 0 <= j < n ensures Images()[j] == old(Images())[j] {
        assert old(Within(j)) && Within(j);
        assert models[j].Image(bits) == old(models[j].Image(bits));
      }
    }

    twostate lemma ShapesAdded(new m: SubModel)
      requires models == old(models) + [m]
      ensures Shapes() == old(Shapes()) + [ModelShape(m.model, m.capacity)]
    {
    }

    lemma OthersInside()
      requires Intact()
      ensures forall j :: 0 <= j < |models| ==>
                && models[j].ltable !in alloc.Repr && models[j].ltable.synonymTable !in alloc.Repr
                && models[j].ltable in Repr && models[j].ltable.synonymTable in Repr
    {
      forall j | 0 <= j < |models|
        ensures models[j].ltable !in alloc.Repr && models[j].ltable.synonymTable !in alloc.Repr
        ensures models[j].ltable in Repr && models[j].ltable.synonymTable in Repr
      {
        assert Within(j);
        assert models[j].ltable.Valid(alloc);
      }
    }

    /** A structure that parts the keys, in which every submodel is valid, is valid. */
    lemma NowValid()
      requires Intact() && PartitionOk(Parts(), modelKeys) && UpperBounds(Parts(), modelKeys) && NoSynonyms()
      requires forall i :: 0 <= i < |models| ==> models[i].Valid(alloc)
      ensures Valid() && Bounded()
    {
      hide PartitionOk, UpperBounds, TableOk;
    }

    /** Trains one more submodel and appends it with its largest key as upper key. */
    method TrainModel(line: Line, ks: seq<Key>, vs: seq<Val>) returns (m: SubModel)
      requires Valid() && Bounded() && |ks| == |vs| > 0 && Increasing(ks) && Predicts(line, ks)
      requires modelKeys != [] ==> modelKeys[|modelKeys| - 1] < ks[0]
      requires alloc.used + LeafCount(|ks|) <= |alloc.leaves|
      modifies Repr
      ensures Valid() && Bounded() && Repr == old(Repr) + {m.ltable, m.ltable.synonymTable}
      ensures fresh(m.ltable) && fresh(m.ltable.synonymTable)
      ensures modelKeys == old(modelKeys) + [ks[|ks| - 1]] && Shapes() == old(Shapes()) + [ModelShape(line, |ks|)]
      ensures Contents() == old(Contents()) + Pairs(ks, vs)
      ensures alloc.used == old(alloc.used) + LeafCount(|ks|) && |models| == old(|models|) + 1
      ensures Images() == old(Images()) + [Keyed(ks[|ks| - 1], m.Image(bits))]
      ensures m.capacity == |ks| && |m.ltable.table| == LeafCount(|ks|) && m.ltable.IsFresh()
    {
      hide Join, TableOk, Predicts, Sorted, PartitionOk, UpperBounds, Pairs, Increasing, LeafCount, Fresh, Content;
      hide GroupOk, Responsible, Routing.Contents, Shapes, HeadNums, Slots, LeafTable.IsFresh, Images, NoSynonyms;
      hide LeafTable.Valid, LeafTable.HeadNums, Contents, Parts;
      ValidParts();
      ghost var es, s := Parts(), Pairs(ks, vs);
      RunAppended(es, modelKeys, ks, vs);
      OthersInside();
      m := new SubModel(line, ks, vs, alloc);
      modelKeys := modelKeys + [ks[|ks| - 1]];
      models := models + [m];
      Repr := Repr + {m.ltable, m.ltable.synonymTable};
      ModelAdded(m, s);
      NowValid();
      ImagesAdded(m);
      ShapesAdded(m);
    }

    /** Records the submodel that was trained last, if the region has room for it. */
    method Record(k: Keyed) returns (ok: bool)
      requires Valid() && Bounded() && region.Valid() && region !in Repr && region.pool !in Repr
      requires Images() == region.list + [k] && |region.list| < Region.MAX_UPPER
      requires k.key <= MAX_WORD && ModelFits(k.model)
      modifies region, region.pool
      ensures Valid() && Bounded()
      ensures ok <==> old(region.curAllocSz) + Region.BlobSize(k) <= region.pool.Length
      ensures ok ==> Recorded() && region.curAllocSz == old(region.curAllocSz) + Region.BlobSize(k)
    {
      hide Valid, Bounded, Images, ModelFits, Region.BlobSize, Region.Image;
      ok := region.AppendModel(k);
    }

    /** The image of a fresh submodel fits its fields, and its size is known from the number of keys. */
    lemma ImageFits(m: SubModel, ks: seq<Key>)
      requires Sized(ks) && m.capacity == |ks| && |m.ltable.table| == LeafCount(|ks|) && m.ltable.IsFresh()
      ensures ModelFits(m.Image(bits)) && 4 + |ModelBytes(m.Image(bits))| == RecordBytes(|ks|)
    {
    }

    /** Trains one more submodel, appends it with its largest key as upper key, and records it. */
    method AppendModel(line: Line, ks: seq<Key>, vs: seq<Val>) returns (res: TrainResult)
      requires Valid() && Bounded() && Recorded() && |ks| == |vs| > 0 && Increasing(ks) && Predicts(line, ks)
      requires modelKeys != [] ==> modelKeys[|modelKeys| - 1] < ks[0]
      requires |models| < Region.MAX_UPPER && Sized(ks)
      modifies Repr, region, region.pool
      ensures res == Trained || res == OutOfLeaves || res == OutOfRegion
      ensures res == Trained <==>
                && old(alloc.used) + LeafCount(|ks|) <= |alloc.leaves|
                && old(region.curAllocSz) + RecordBytes(|ks|) <= region.pool.Length
      ensures res == Trained ==> Valid() && Bounded() && Recorded() && old(Repr) <= Repr
      ensures res == Trained ==>
                modelKeys == old(modelKeys) + [ks[|ks| - 1]] && Shapes() == old(Shapes()) + [ModelShape(line, |ks|)]
      ensures res == Trained ==> Contents() == old(Contents()) + Pairs(ks, vs)
      ensures res == Trained ==>
                && alloc.used == old(alloc.used) + LeafCount(|ks|)
                && region.curAllocSz == old(region.curAllocSz) + RecordBytes(|ks|)
      ensures fresh(Repr - old(Repr))
    {
      hide Valid, Bounded, Images, Predicts, Pairs, Increasing, LeafCount, RecordBytes, Shapes, Contents, ModelFits;
      hide ModelBytes, Region.Image;
      if alloc.used + LeafCount(|ks|) > |alloc.leaves| {
        return OutOfLeaves;
      }
      var m := TrainModel(line, ks, vs);
      ImageFits(m, ks);
      var ok := Record(Keyed(ks[|ks| - 1], m.Image(bits)));
      return if ok then Trained else OutOfRegion;
    }

    /** The finished run of the regression becomes a submodel over its own keys. */
    method CloseRun(opt: PLR, ks: seq<Key>, vs: seq<Val>) returns (res: TrainResult, ghost line: Line)
      requires Valid() && Bounded() && Recorded() && 0 < |ks| == |vs| <= MAX_Y && Increasing(ks)
      requires opt.Valid() && opt.run == RankBands(ks)
      requires modelKeys != [] ==> modelKeys[|modelKeys| - 1] < ks[0]
      requires |models| < Region.MAX_UPPER && Sized(ks)
      modifies Repr, region, region.pool
      ensures res == Trained || res == OutOfLeaves || res == OutOfRegion
      ensures res == Trained <==>
                && old(alloc.used) + LeafCount(|ks|) <= |alloc.leaves|
                && old(region.curAllocSz) + RecordBytes(|ks|) <= region.pool.Length
      ensures res == Trained ==> Valid() && Bounded() && Recorded() && old(Repr) <= Repr
      ensures res == Trained ==>
                modelKeys == old(modelKeys) + [ks[|ks| - 1]] && Shapes() == old(Shapes()) + [ModelShape(line, |ks|)]
      ensures Predicts(line, ks) && Fits(line, RankBands(ks)) && Middle(line, RankBands(ks))
      ensures res == Trained ==> Contents() == old(Contents()) + Pairs(ks, vs)
      ensures res == Trained ==>
                && alloc.used == old(alloc.used) + LeafCount(|ks|)
                && region.curAllocSz == old(region.curAllocSz) + RecordBytes(|ks|)
      ensures fresh(Repr - old(Repr))
    {
      hide Middle, Shapes, Valid, Bounded, Recorded, Describes, Predicts, Increasing, RankBands, SlopeIntercept;
      hide PLR.Valid;
      RunNotEmpty(ks);
      var s := opt.GetSegment();
      SegmentPredicts(s, ks);
      line := SlopeIntercept(s);
      res := AppendModel(SlopeIntercept(s), ks, vs);
    }

    /** The submodels trained so far hold exactly the first start keys, and are recorded. */
    ghost predicate TrainedUpTo(keys: seq<Key>, vals: seq<Val>, start: nat)
      requires |keys| == |vals| <= MAX_Y
      reads this, Repr, region, region.pool
    {
      && start <= |keys| && Sized(keys) && CutSoFar(Shapes(), modelKeys, keys, start)
      && Intact() && Bounded() && Recorded() && Contents() == Pairs(keys[..start], vals[..start]) && Valid()
    }

    /** What the training loop keeps after i keys, the open run starting at start. */
    ghost predicate Training(opt: PLR, keys: seq<Key>, vals: seq<Val>, start: nat, i: nat)
      requires |keys| == |vals| <= MAX_Y
      reads this, Repr, region, region.pool, opt
    {
      && start < i <= |keys| && Increasing(keys[..i]) && opt !in Repr && opt != region as object && this in Repr
      && TrainedUpTo(keys, vals, start) && OpenRun(opt, keys[start..i], keys[i - 1]) && StillOpen(keys, start, i)
    }

    /** The open run ends before key i, and the regression holds exactly it. */
    ghost predicate Closing(opt: PLR, keys: seq<Key>, vals: seq<Val>, start: nat, i: nat)
      requires |keys| == |vals| <= MAX_Y && start < i <= |keys|
      reads this, Repr, region, region.pool, opt
    {
      && StillOpen(keys, start, i) && Increasing(keys[..i])
      && opt.Valid() && opt.run == RankBands(keys[start..i])
      && (i < |keys| ==> !Fittable(RankBands(keys[start..i + 1])))
      && |models| + NeedOf(keys, start).models <= Region.MAX_UPPER
      && TrainedUpTo(keys, vals, start)
    }

    /** What closing the run needs, and what it will cost. */
    lemma ClosingParts(opt: PLR, keys: seq<Key>, vals: seq<Val>, start: nat, i: nat)
      requires |keys| == |vals| <= MAX_Y && start < i <= |keys| && Closing(opt, keys, vals, start, i)
      ensures this in Repr && |models| == |modelKeys| && |models| < Region.MAX_UPPER
      ensures Increasing(keys[start..i]) && Sized(keys[start..i])
      ensures opt.Valid() && opt.run == RankBands(keys[start..i])
      ensures modelKeys != [] ==> modelKeys[|modelKeys| - 1] < keys[start]
      ensures Intact() && Valid() && Bounded() && Recorded()
      ensures var rest := NeedOf(keys, i);
              NeedOf(keys, start) ==
                Need(LeafCount(i - start) + rest.leaves, RecordBytes(i - start) + rest.bytes, 1 + rest.models)
    {
      hide Valid, Bounded, Recorded, Increasing, RankBands, PLR.Valid, Pairs, Contents, Shapes, Reaches, Fits;
      hide Fittable, StartOf, Greedy, LeafCount, RecordBytes, NeedOf, StillOpen;
      RunFacts(keys, vals, start, i);
      KeysAscend();
      ValidIntact();
      NeedNext(keys, start, i);
    }

    /** The first start keys and one more submodel over the keys from there to i are the first i keys. */
    lemma TrainedMore(keys: seq<Key>, vals: seq<Val>, start: nat, i: nat, ms: seq<ModelShape>, mk: seq<Key>, line: Line)
      requires |keys| == |vals| <= MAX_Y && start < i <= |keys| && Increasing(keys[..i]) && Sized(keys)
      requires StrictlyAscending(mk) && CutSoFar(ms, mk, keys, start) && RunCut(line, keys, start, i)
      requires Intact() && Bounded() && Recorded() && Valid()
      requires modelKeys == mk + [keys[i - 1]] && Shapes() == ms + [ModelShape(line, i - start)]
      requires Contents() == Pairs(keys[..start], vals[..start]) + Pairs(keys[start..i], vals[start..i])
      ensures TrainedUpTo(keys, vals, i) && modelKeys != []
    {
      hide Intact, Valid, Bounded, Recorded, Increasing, Pairs, Contents, Shapes, CutSoFar, RunCut, StrictlyAscending;
      RunFacts(keys, vals, start, i);
      CutMore(ms, mk, keys, start, i, line);
    }

    /** What closing the run builds on. */
    lemma ClosingBase(opt: PLR, keys: seq<Key>, vals: seq<Val>, start: nat, i: nat)
      requires |keys| == |vals| <= MAX_Y && start < i <= |keys| && Closing(opt, keys, vals, start, i)
      ensures Increasing(keys[..i]) && Sized(keys) && |models| == |modelKeys| && StrictlyAscending(modelKeys)
      ensures CutSoFar(Shapes(), modelKeys, keys, start)
      ensures i < |keys| ==> !Fittable(RankBands(keys[start..i + 1]))
      ensures Intact() && Contents() == Pairs(keys[..start], vals[..start])
    {
      hide Valid, Bounded, Recorded, Increasing, RankBands, PLR.Valid, Pairs, Contents, CutSoFar;
      hide Fittable, NeedOf, StillOpen, StrictlyAscending, Intact, LeafTable.Valid, Shapes;
      KeysAscend();
    }

    /** The regression refused the next key: its run becomes a submodel. */
    method CutRun(opt: PLR, keys: seq<Key>, vals: seq<Val>, start: nat, i: nat) returns (res: TrainResult)
      requires |keys| == |vals| <= MAX_Y && start < i <= |keys| && Closing(opt, keys, vals, start, i)
      modifies Repr, region, region.pool
      ensures res == Trained || res == OutOfLeaves || res == OutOfRegion
      ensures res == Trained ==> TrainedUpTo(keys, vals, i) && modelKeys != [] && old(Repr) <= Repr && this in Repr
      ensures res == Trained ==> Budget(keys, i) == old(Budget(keys, start))
      ensures res != Trained ==> !Affordable(old(Budget(keys, start)))
      ensures fresh(Repr - old(Repr))
    {
      hide Middle, Valid, Bounded, Recorded, Increasing, RankBands, PLR.Valid, Pairs, Contents, Shapes, Reaches;
      hide Predicts, Fits;
      hide Fittable, StartOf, Greedy, LeafCount, RecordBytes, NeedOf, StillOpen, Closing, TrainedUpTo;
      hide StrictlyAscending;
      ClosingParts(opt, keys, vals, start, i);
      ClosingBase(opt, keys, vals, start, i);
      ghost var ms, mk := Shapes(), modelKeys;
      ghost var line;
      res, line := CloseRun(opt, keys[start..i], vals[start..i]);
      if res == Trained {
        ValidIntact();
        TrainedMore(keys, vals, start, i, ms, mk, line);
      }
    }

    lemma OpensItself(keys: seq<Key>, i: nat)
      requires i < |keys| <= MAX_Y
      ensures StillOpen(keys, i, i + 1)
    {
    }

    /** One more key: it joins the open run, or closes it and opens the next. */
    method TrainStep(opt: PLR, keys: seq<Key>, vals: seq<Val>, start: nat, i: nat)
      returns (res: TrainResult, opt': PLR, start': nat)
      requires |keys| == |vals| <= MAX_Y && i < |keys| && keys[i] < INVALID_KEY && Training(opt, keys, vals, start, i)
      requires Budget(keys, start).models <= Region.MAX_UPPER
      modifies Repr, region, region.pool, opt
      ensures res != Duplicate
      ensures res == TrainResult.NotIncreasing <==> keys[i] <= keys[i - 1]
      ensures res == Trained ==> start' == if Fittable(RankBands(keys[start..i + 1])) then start else i
      ensures start' <= i
      ensures res == Trained ==> Training(opt', keys, vals, start', i + 1) && (opt' == opt || fresh(opt'))
      ensures res == Trained ==> Budget(keys, start') == old(Budget(keys, start))
      ensures res == OutOfLeaves || res == OutOfRegion ==> !Affordable(old(Budget(keys, start)))
      ensures fresh(Repr - old(Repr))
    {
      hide TrainedUpTo, Increasing, RankBands, PLR.Valid, BandOf, Fittable, Pairs, NeedOf, StillOpen;
      NextBands(keys, start, i);
      NextIncreasing(keys, i);
      OpenNext(keys, start, i);
      OpensItself(keys, i);
      res, opt', start' := Trained, opt, start;
      var pos := i - start;
      var r := opt.AddPoint(keys[i], pos);
      if r == AddResult.NotIncreasing {
        res := TrainResult.NotIncreasing;
        return;
      }
      if r == Refused {
        res := CutRun(opt, keys, vals, start, i);
        start' := i;
        opt' := NewRun(keys[i]);
      }
    }

    method StartTraining(keys: seq<Key>, vals: seq<Val>) returns (opt: PLR)
      requires Valid() && models == [] && Recorded() && 0 < |keys| == |vals| <= MAX_Y && keys[0] < INVALID_KEY
      requires Sized(keys)
      ensures fresh(opt) && Training(opt, keys, vals, 0, 1)
    {
      opt := NewRun(keys[0]);
      assert keys[0..1] == [keys[0]];
      assert Parts() == [] && Pairs(keys[..0], vals[..0]) == [];
    }

    lemma RunParts(opt: PLR, keys: seq<Key>, vals: seq<Val>, start: nat)
      requires |keys| == |vals| <= MAX_Y && Training(opt, keys, vals, start, |keys|)
      ensures opt.Valid() && opt.run == RankBands(keys[start..|keys|]) && StillOpen(keys, start, |keys|)
    {
      hide TrainedUpTo, PLR.Valid, RankBands, StillOpen, Increasing;
    }

    /** Writing into the region leaves the index alone. */
    lemma RecordSafe()
      requires Valid() && Recorded()
      ensures region.Valid() && region !in Repr && region.pool !in Repr
    {
    }

    /** The count in front of the region; the index does not notice. */
    method WriteCount(keys: seq<Key>, vals: seq<Val>)
      requires |keys| == |vals| <= MAX_Y && TrainedUpTo(keys, vals, |keys|)
      modifies region.pool
      ensures TrainedUpTo(keys, vals, |keys|) && region.Counted()
    {
      hide Valid, Bounded, Images, Reaches, Greedy, StartOf, Pairs, Contents, Shapes, Region.Image;
      RecordSafe();
      region.WriteTotal();
    }

    /** Everything trained has been paid for. */
    lemma Spent(keys: seq<Key>, vals: seq<Val>)
      requires |keys| == |vals| <= MAX_Y && TrainedUpTo(keys, vals, |keys|)
      ensures Affordable(Budget(keys, |keys|))
    {
    }

    /** The end of the keys: the open run becomes the last submodel, and the count is written. */
    method FinishTraining(opt: PLR, keys: seq<Key>, vals: seq<Val>, start: nat) returns (res: TrainResult)
      requires |keys| == |vals| <= MAX_Y && start < |keys| && Training(opt, keys, vals, start, |keys|)
      requires Budget(keys, start).models <= Region.MAX_UPPER
      modifies Repr, region, region.pool
      ensures res == Trained || res == OutOfLeaves || res == OutOfRegion
      ensures res == Trained <==> Affordable(old(Budget(keys, start)))
      ensures res == Trained ==> TrainedUpTo(keys, vals, |keys|) && modelKeys != [] && region.Counted()
      ensures fresh(Repr - old(Repr))
    {
      hide Increasing, RankBands, PLR.Valid, NeedOf, StillOpen, TrainedUpTo;
      RunParts(opt, keys, vals, start);
      res := CutRun(opt, keys, vals, start, |keys|);
      if res == Trained {
        Spent(keys, vals);
        WriteCount(keys, vals);
      }
    }

    lemma WholeIncreasing(opt: PLR, keys: seq<Key>, vals: seq<Val>, start: nat)
      requires |keys| == |vals| <= MAX_Y && Training(opt, keys, vals, start, |keys|)
      ensures Increasing(keys) && start < |keys|
    {
      hide TrainedUpTo, OpenRun, Increasing, StillOpen;
      assert keys[..|keys|] == keys;
    }

    lemma AllTrained(keys: seq<Key>, vals: seq<Val>)
      requires |keys| == |vals| <= MAX_Y && TrainedUpTo(keys, vals, |keys|) && modelKeys != []
      ensures Valid() && Contents() == Pairs(keys, vals) && Recorded()
      ensures |models| == |modelKeys| && Reaches(Shapes(), modelKeys, keys) && NoSynonyms()
      ensures Greedy(Shapes(), modelKeys, keys) && StartOf(Shapes(), |models|) == |keys|
      ensures keys != [] && modelKeys[|modelKeys| - 1] == keys[|keys| - 1]
    {
      hide Valid, Bounded, Recorded, Reaches, Greedy, StartOf, Pairs, Contents, Shapes, NoSynonyms, Parts, Intact;
      assert keys[..|keys|] == keys && vals[..|vals|] == vals;
      BoundedFlat();
      KeysAscend();
    }

    /**
     Cuts the keys into runs that one line each can fit, trains a submodel per run and records it. A
     repeated key ends the process; a key below its predecessor makes the regression throw; missing
     leaves or a full region fail an assertion.
     */
    method Train(keys: seq<Key>, vals: seq<Val>) returns (res: TrainResult)
      requires Valid() && models == [] && Recorded() && region.Counted() && |keys| == |vals| && Sized(keys)
      requires forall i :: 0 <= i < |keys| ==> keys[i] < INVALID_KEY
      requires NeedOf(keys, 0).models <= Region.MAX_UPPER
      modifies Repr, region, region.pool
      ensures res == Trained <==> Increasing(keys) && Affordable(old(Budget(keys, 0)))
      ensures res == Trained ==> Valid() && Contents() == Pairs(keys, vals)
      ensures res == Trained ==> Recorded() && region.Counted()
      ensures res == Trained ==> |models| == |modelKeys| && Reaches(Shapes(), modelKeys, keys) && NoSynonyms()
      ensures res == Trained ==> Greedy(Shapes(), modelKeys, keys) && StartOf(Shapes(), |models|) == |keys|
      ensures res == Trained && keys != [] ==> modelKeys != [] && modelKeys[|modelKeys| - 1] == keys[|keys| - 1]
      ensures fresh(Repr - old(Repr))
    {
      hide Valid, Bounded, Recorded, Describes, Increasing, RankBands, PLR.Valid, Pairs, Training, TrainedUpTo, NeedOf;
      hide Reaches, Greedy, StartOf, Shapes, Contents, NoSynonyms;
      StartFacts(keys, vals);
      KeysAscend();
      EmptyFlat(keys);
      if |keys| == 0 {
        return Trained;
      }
      var opt := StartTraining(keys, vals);
      var start: nat := 0;
      ghost var budget := Budget(keys, 0);
      for i := 1 to |keys|
        invariant start < i && Training(opt, keys, vals, start, i) && fresh(opt) && fresh(Repr - old(Repr))
        invariant Budget(keys, start) == budget
      {
        if keys[i] == keys[i - 1] {
          NotIncreasingAt(keys, i);
          return Duplicate;
        }
        res, opt, start := TrainStep(opt, keys, vals, start, i);
        if res != Trained {
          if res == TrainResult.NotIncreasing { NotIncreasingAt(keys, i); }
          return;
        }
      }
      WholeIncreasing(opt, keys, vals, start);
      res := FinishTraining(opt, keys, vals, start);
      if res == Trained { AllTrained(keys, vals); }
    }

    /** In every state, table and synonym slots of a submodel come back from the words of its image. */
    lemma ImageDecodes(i: nat)
      requires Intact() && i < |models| && |alloc.leaves| <= LEAF_NUMS
      ensures var m, k := models[i], Images()[i];
              && k.key == modelKeys[i] && (k.model.slope, k.model.icpt) == bits(m.model)
              && k.model.capacity == m.capacity
              && WordEntries(k.model.table.table) == m.ltable.table
              && WordEntries(k.model.table.synonyms) == m.ltable.synonymTable[..]
    {
      hide GroupOk, WordEntry, EntryWord, EntriesFit;
      var lt := models[i].ltable;
      assert Within(i) && lt.Valid(alloc);
      lt.FieldsFit(alloc);
      EntriesRoundTrip(lt.table);
      EntriesRoundTrip(lt.synonymTable[..]);
    }

    /** In every state, the images fit their fields if the string of all of them can be counted. */
    lemma ImagesFit()
      requires Valid() && |ListBytes(Images())| <= MAX_COUNT
      ensures AllFit(Images())
    {
      hide ListBytes, PartitionOk, ModelBytes, ModelFits, SubModel.Valid;
      forall i | 0 <= i < |models| ensures Images()[i].key <= MAX_WORD && ModelFits(Images()[i].model) {
        PartSize(Images(), i);
        assert Within(i);
        models[i].ImageFits(bits, alloc);
      }
    }

    /** The string form of the index, in any state; the parser gets every submodel back from it. */
    method Serialize() returns (r: Bytes)
      requires Valid()
      ensures r == IndexBytes(Images())
      ensures |ListBytes(Images())| <= MAX_COUNT ==>
                ParsedIndex(r) == if models == [] then None else Some(Images())
    {
      hide ListBytes, ParsedIndex, IndexBytes, PartitionOk, GroupOk, TableOk;
      ValidIntact();
      KeysAscend();
      var ms: seq<Keyed> := [];
      for i := 0 to |models|
        invariant |ms| == i && forall j :: 0 <= j < i ==> ms[j] == Keyed(modelKeys[j], models[j].Image(bits))
      {
        ms := ms + [Keyed(modelKeys[i], models[i].Image(bits))];
      }
      assert ms == Images();
      r := Serialization.Serialize(ms);
      if |ListBytes(Images())| <= MAX_COUNT {
        ImagesFit();
        IndexRoundTrip(Images());
      }
    }

    /** A memory node restores the index from the region: keys, lines, sizes, tables and synonym slots. */
    method Deserialize() returns (r: seq<Keyed>)
      requires Intact() && Recorded() && region.Counted()
      ensures r == Images()
    {
      hide Intact, Images;
      r := region.Deserialize();
    }

    /** The submodel that is responsible for a key. */
    method ModelForKey(key: Key) returns (i: nat)
      requires Valid() && |models| >= 2
      ensures i < |models| == |modelKeys| && Responsible(modelKeys, i, key)
    {
      var idx := BinarySearchBranchless(modelKeys, key);
      i := if idx < |models| then idx else |models| - 1;
    }

    /** After a step of submodel i alone, the other parts are as they were. */
    twostate lemma OneModelStepped(i: nat)
      requires old(Sound()) && unchanged(this) && i < |models|
      requires alloc.Valid() && models[i].ltable.Valid(alloc)
      requires models[i].ltable.OthersKept(alloc)
      requires forall j :: 0 <= j < |models| && j != i ==>
                 unchanged(models[j].ltable) && unchanged(models[j].ltable.synonymTable)
      ensures Intact() && Parts() == old(Parts())[i := models[i].Entries(alloc)]
      ensures Slots() == old(Slots())[i := models[i].ltable.Slots()]
      ensures HeadNums() == old(HeadNums()) && Contents() == Join(old(Parts())[i := models[i].Entries(alloc)])
      ensures forall j :: 0 <= j < |models| && j != i && old(models[j].Valid(alloc)) ==> models[j].Valid(alloc)
    {
      hide Join, Routing.Contents, GroupOk;
      models[i].ltable.HeadNumsKept(alloc);
      forall j | 0 <= j < |models| && j != i
        ensures models[j].ltable.Valid(alloc)
        ensures models[j].ltable.Groups(alloc) == old(models[j].ltable.Groups(alloc))
      {
        assert old(Separate(i, j));
        models[j].ltable.Kept(alloc);
      }
      forall a, b | 0 <= a < |models| && 0 <= b < |models| && a != b ensures Separate(a, b) {
        assert old(Separate(a, b));
      }
    }

    method Search(key: Key) returns (r: Option<Val>)
      requires Valid() && |models| >= 2 && key < INVALID_KEY
      ensures r == Lookup(Contents(), key)
    {
      hide Join, LeafTable.Valid, Responsible, Lookup, TableOk;
      var i := ModelForKey(key);
      assert Within(i);
      PartLookup(Parts(), modelKeys, i, key);
      r := models[i].Search(key, alloc);
    }

    method Update(key: Key, val: Val) returns (r: bool)
      requires Valid() && |models| >= 2 && key < INVALID_KEY
      modifies Repr
      ensures Valid() && unchanged(this) && alloc.used == old(alloc.used) && HeadNums() == old(HeadNums())
      ensures Slots() == old(Slots())
      ensures r <==> Lookup(old(Contents()), key).Some?
      ensures Contents() == Updated(old(Contents()), key, val)
    {
      hide Join, Responsible, Lookup, TableOk, PartitionOk, Updated, Content, GroupOk, HeadNums, LeafTable.HeadNums;
      hide Sorted, Contents, Parts;
      ValidParts();
      var i := ModelForKey(key);
      assert Within(i);
      PartLookup(Parts(), modelKeys, i, key);
      PartUpdated(Parts(), modelKeys, i, key, val);
      r := models[i].Update(key, val, alloc);
      OneModelStepped(i);
    }

    /** The submodel a key belongs to has no synonym slot left. */
    ghost predicate Full(key: Key)
      requires Intact()
      reads this, Repr
    {
      FullAt(modelKeys, Slots(), key)
    }

    /** The insertion of the key takes another leaf. */
    ghost predicate Splits(key: Key)
      requires Valid()
      reads this, Repr
    {
      exists i :: 0 <= i < |models| && Responsible(modelKeys, i, key) && Within(i) && models[i].Splits(key, alloc)
    }

    /** The objects one submodel changes belong to no other. */
    lemma OtherModels(i: nat)
      requires Intact() && i < |models|
      ensures forall j :: 0 <= j < |models| && j != i ==>
                && models[j].ltable != models[i].ltable
                && models[j].ltable.synonymTable != models[i].ltable.synonymTable
                && models[j].ltable !in alloc.Repr && models[j].ltable.synonymTable !in alloc.Repr
    {
      forall j | 0 <= j < |models| && j != i
        ensures models[j].ltable != models[i].ltable && models[j].ltable.synonymTable != models[i].ltable.synonymTable
        ensures models[j].ltable !in alloc.Repr && models[j].ltable.synonymTable !in alloc.Repr
      {
        assert Separate(i, j);
        assert models[j].ltable.Valid(alloc);
      }
    }

    /** The insertion inside the responsible submodel. */
    method InsertInto(i: nat, key: Key, val: Val) returns (r: bool)
      requires Valid() && i < |models| && Within(i) && key < INVALID_KEY
      requires models[i].Splits(key, alloc) ==> alloc.used < |alloc.leaves|
      modifies Repr
      ensures Intact() && unchanged(this) && HeadNums() == old(HeadNums())
      ensures forall j :: 0 <= j < |models| ==> Within(j) && models[j].Valid(alloc)
      ensures Contents() == Join(Parts()) && Parts() == old(Parts())[i := models[i].Entries(alloc)]
      ensures r <==> !old(models[i].ltable.Exhausted()) && Lookup(old(models[i].Entries(alloc)), key).None?
      ensures var e := old(models[i].Entries(alloc)); models[i].Entries(alloc) == if r then Inserted(e, key, val) else e
      ensures var more := if old(models[i].Splits(key, alloc)) then 1 else 0;
              alloc.used == old(alloc.used) + more && Slots() == old(Slots())[i := old(models[i].ltable.Slots()) + more]
    {
      hide Join, Lookup, TableOk, Inserted, PartitionOk, Content, GroupOk, Responsible, Sorted, Parts;
      hide HeadNums, Slots, SubModel.Splits, GroupsInserted, LeafTable.Slots, LeafTable.Exhausted, LeafTable.OthersKept;
      hide Separate, LeafTable.Valid, SubModel.Valid, SubModel.Sound;
      OtherModels(i);
      r := models[i].Insert(key, val, alloc);
      models[i].TableValid(alloc);
      OneModelStepped(i);
    }

    lemma OneFull(i: nat, key: Key)
      requires Valid() && i < |models| == |modelKeys| && Responsible(modelKeys, i, key) && Within(i)
      ensures Full(key) <==> models[i].ltable.Exhausted()
      ensures Splits(key) <==> models[i].Splits(key, alloc)
    {
      hide TableOk, GroupOk, Strands, Sorted, Pick;
      assert StrictlyAscending(modelKeys);
      forall j | 0 <= j < |models| && Responsible(modelKeys, j, key) ensures j == i {
        OneResponsible(modelKeys, i, j, key);
      }
    }

    /** Tells a caller beforehand whether an insertion will take a leaf. */
    method InsertionSplits(key: Key) returns (r: bool)
      requires Valid() && |models| >= 2 && key < INVALID_KEY
      ensures r <==> Splits(key)
    {
      hide Join, TableOk, SubModel.Splits;
      var i := ModelForKey(key);
      assert Within(i);
      OneFull(i, key);
      r := models[i].InsertionSplits(key, alloc);
    }

    method Insert(key: Key, val: Val) returns (r: bool)
      requires Valid() && |models| >= 2 && key < INVALID_KEY && (Splits(key) ==> alloc.used < |alloc.leaves|)
      modifies Repr
      ensures Valid() && unchanged(this) && HeadNums() == old(HeadNums())
      ensures SlotsStep(modelKeys, old(Slots()), Slots(), key, old(Splits(key)))
      ensures r <==> !old(Full(key)) && Lookup(old(Contents()), key).None?
      ensures Contents() == if r then Inserted(old(Contents()), key, val) else old(Contents())
      ensures alloc.used == if old(Splits(key)) then old(alloc.used) + 1 else old(alloc.used)
      ensures old(Splits(key)) ==> r
    {
      hide Join, Lookup, TableOk, Inserted, PartitionOk, Content, GroupOk, Responsible, Sorted, Contents, Parts, Intact;
      hide HeadNums, Slots, SlotsStep, FullAt, Splits, SubModel.Splits, StrictlyAscending, SubModel.Valid;
      hide LeafTable.Exhausted;
      ValidParts();
      KeysAscend();
      var i := ModelForKey(key);
      assert Within(i);
      OneFull(i, key);
      if Splits(key) { models[i].SplitInserts(key, alloc); }
      ghost var es, slots, splits := Parts(), Slots(), Splits(key);
      PartLookup(es, modelKeys, i, key);
      if Lookup(es[i], key).None? { PartInserted(es, modelKeys, i, key, val); }
      SameAt(es, i);
      r := InsertInto(i, key, val);
      OneSlotStep(modelKeys, slots, i, key, splits, Slots()[i]);
    }

    /** The removal would leave synonym leaves of submodel i behind an emptied head leaf. */
    ghost predicate StrandsIn(i: nat, key: Key)
      requires Valid() && i < |models|
      reads this, Repr
    {
      Within(i) && Strands(models[i].Picked(key, alloc), key)
    }

    /** The removal would leave synonym leaves behind an emptied head leaf. */
    ghost predicate WouldStrand(key: Key)
      requires Valid()
      reads this, Repr
    {
      exists i :: 0 <= i < |models| && Responsible(modelKeys, i, key) && StrandsIn(i, key)
    }

    lemma OneStrands(i: nat, key: Key)
      requires Valid() && i < |models| == |modelKeys| && Responsible(modelKeys, i, key) && Within(i)
      ensures WouldStrand(key) <==> StrandsIn(i, key)
    {
      hide TableOk, GroupOk, Strands, Sorted, Pick;
      assert StrictlyAscending(modelKeys);
      forall j | 0 <= j < |models| && Responsible(modelKeys, j, key) ensures j == i {
        OneResponsible(modelKeys, i, j, key);
      }
    }

    /** The removal inside the responsible submodel. */
    method RemoveFrom(i: nat, key: Key) returns (r: bool)
      requires Valid() && i < |models| && Within(i) && key < INVALID_KEY
      modifies Repr
      ensures Intact() && unchanged(this) && HeadNums() == old(HeadNums()) && Slots() == old(Slots())
      ensures forall j :: 0 <= j < |models| && j != i ==> Within(j) && models[j].Valid(alloc)
      ensures Within(i) && (models[i].Valid(alloc) <==> !old(StrandsIn(i, key)))
      ensures Contents() == Join(Parts()) && Parts() == old(Parts())[i := Removed(old(Parts())[i], key)]
      ensures (r <==> Lookup(old(Parts())[i], key).Some?) && alloc.used == old(alloc.used)
    {
      hide Join, Lookup, TableOk, Removed, PartitionOk, Content, GroupOk, Responsible, Sorted, Parts, Strands;
      hide HeadNums, Slots, LeafTable.Slots, GroupsRemoved, Separate, LeafTable.Valid, LeafTable.OthersKept;
      hide SubModel.Valid, SubModel.Sound;
      OtherModels(i);
      r := models[i].Remove(key, alloc);
      models[i].TableValid(alloc);
      OneModelStepped(i);
      SameAt(old(Slots()), i);
    }

    /** Removal is always right about the content; the routing survives unless it strands keys. */
    method Remove(key: Key) returns (r: bool)
      requires Valid() && |models| >= 2 && key < INVALID_KEY
      modifies Repr
      ensures Sound() && unchanged(this) && alloc.used == old(alloc.used) && HeadNums() == old(HeadNums())
      ensures Slots() == old(Slots())
      ensures Valid() <==> !old(WouldStrand(key))
      ensures r <==> Lookup(old(Contents()), key).Some?
      ensures Contents() == Removed(old(Contents()), key)
    {
      hide Join, Lookup, TableOk, Removed, Strands, PartitionOk, Content, GroupOk, Responsible, Sorted, Contents, Parts;
      hide Intact, HeadNums, Slots, WouldStrand, SubModel.Valid;
      ValidParts();
      var i := ModelForKey(key);
      assert Within(i);
      OneStrands(i, key);
      ghost var es := Parts();
      PartLookup(es, modelKeys, i, key);
      PartRemoved(es, modelKeys, i, key);
      r := RemoveFrom(i, key);
    }

    /** Tells a caller beforehand whether a removal would strand keys. */
    method RemovalStrands(key: Key) returns (r: bool)
      requires Valid() && |models| >= 2 && key < INVALID_KEY
      ensures r <==> WouldStrand(key)
    {
      hide Join, TableOk, Strands;
      var i := ModelForKey(key);
      assert Within(i);
      OneStrands(i, key);
      r := models[i].RemovalStrands(key, alloc);
    }

    /** The values of the n least stored keys from key on, or of all of them. */
    method Range(key: Key, n: nat, vals: seq<Val>) returns (r: seq<Val>)
      requires Valid() && |models| >= 2 && key < INVALID_KEY
      ensures r == vals + RangeVals(Contents(), key, Want(n, |vals|))
    {
      hide Join, TableOk, RangeVals, Sorted, Responsible, PartitionOk, Content, GroupOk, Contents, Parts, Want;
      ValidParts();
      var start := ModelForKey(key);
      ghost var es := Parts();
      PartRange(es, modelKeys, start, key, Want(n, |vals|));
      assert es[start..start] == [];
      EmptyRange(key, Want(n, |vals|));
      JoinSliceGrows(es, start, start);
      RangeContinues(Join(es[start..start]), es[start], key, n, vals, vals);
      r := models[start].Range(key, n, vals, alloc);
      var i := start + 1;
      while |r| < n && i < |models|
        invariant start < i <= |models|
        invariant r == vals + RangeVals(Join(es[start..i]), key, Want(n, |vals|))
      {
        JoinSliceGrows(es, start, i);
        RangeContinues(Join(es[start..i]), es[i], key, n, vals, r);
        r := models[i].Range(key, n, r, alloc);
        i := i + 1;
      }
      if i < |models| {
        JoinSliceGrows(es, start, i);
        RangeContinues(Join(es[start..i]), Join(es[i..]), key, n, vals, r);
      } else {
        assert es[start..i] == es[start..];
      }
    }
  }
}

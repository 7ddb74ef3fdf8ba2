# A model of the ROLEX learned index and its small protocols

The project models the learned index of this repository from the regression up to whole runs of
operations, the model cache of a compute node, the image of the models in memory, and three small
protocols the system rests on: versioned reads without locks, the message ring, and the coroutine
scheduler.

How the parts build on each other:

- `Geometry`, `Hull`, `HullStep`, `HullLoops` and `Plr`: points arrive by increasing x, and two
  convex chains and four corner points stand for all lines that stay within epsilon of every point
  so far. The integer tests refuse a point exactly when no line is left. `Segment` chooses the one
  line that is handed on, and `Segmentation` shows that cutting only where a point is refused gives
  the fewest pieces.
- `LinearModel`: the line, with its truncation, predicts a window of leaves. Windows move right with
  the key, and the window of a trained key holds its leaf.
- `Entries`, `Leaf`, `LeafAllocator`, `Links`, `Groups` and `LeafTable`: leaves of 64 sorted slots,
  table entries, and chains of synonym leaves that splits create. The abstract content is a sorted
  sequence of entries; a group is a head leaf with its chain.
- `Routing`: why the backward scan over a window always ends in the group that holds a key, and why
  no insertion changes that, not even one that becomes a new head key.
- `SubModel`, `BinarySearch`, `Partition`, `TrainingRuns` and `Rolex`: training cuts the keys into
  runs, each run becomes a submodel and is recorded in the model region, and the upper keys divide
  the key space. `Serialization` and `ModelRegion` are the bytes of models and of that region.
- `Runs`: the trained index behaves as a finite ordered map over every run of operations.
- `LearnedCache`: a copy of lines, sizes and head leaf numbers, read from the region, stays usable
  while the index changes.
- `TrainedExamples`: two failures carried out after training, for every line training could choose.
- `AtomicRead`, `RingMsg`, `RoutineRing` and `Scheduler`: the protocols, as steps or as methods on
  the state they change.

Numbers are exact: hull points and their products are unbounded integers where the code uses
128-bit ones, and slopes, intercepts and intersections are real numbers where it uses floating
point. Leaf width, error bound and key width are those of `rolex/trait.hpp` (64, 32, 64-bit keys).

## Where the code differs from what it says

- Removing the only key of a head leaf that still has synonym leaves leaves an empty head, which
  `insertHere` takes for a leaf whose first key is the largest one (the note at
  `rolex/leaf.hpp:78`). `Routing.TableRemoved` and `Rolex.Rolex.Remove` say exactly when that
  happens, and `Routing.SearchAfterRemoval` for exactly which keys a search goes wrong then.
  `TrainedExamples.LoseKey` and `TrainedExamples.LoseTrainedKey` train, insert, remove and then miss
  a stored key, whatever line training chooses.
- On the memory node a window that lies before the table is clamped to leaf 0
  (`rolex/submodel.hpp:139-140`). The cache uses the same prediction without the clamp
  (`rolex/submodel.hpp:182-187`), so there the bound check of the table fails.
  `LearnedCache.LearnedCache.Search` states exactly when. It never happens for a key from the first
  one of a run on (`TrainingRuns.PredictedFromFirst`), and it does for every key far enough below a
  run of more than 63 keys (`TrainingRuns.FarBelow`, `LearnedCache.FarUnpredicted`);
  `TrainedExamples.SearchBeforeTable` trains an index where the key 0 does it.
- The leaf allocator that fills a region (`rolex/leaf_allocator.hpp:41-43`) sets aside 8 bytes where
  its own comment and layout have two counters of 8, so its last leaf fits only if 8 bytes are left
  over: `LeafAllocator.FilledFits`. The constructor with a number of leaves is not affected
  (`LeafAllocator.SizedFits`).
- `alloc_upper` refuses a model only beyond the limit plus one (`rolex/model_allocator.hpp:48`), and
  the key of the one model too many lies on the first offset: `ModelRegion.UpperSlots`. The comment
  at `rolex/rolex_util.hh:11` speaks of 131,072 models in 2 MB; the constant below it gives 32 MB
  and a limit of 2,097,151.
- `atomic_read` clears its retry counter at the `retry` label (`xcomm/src/atomic_rw/mod.hh:30-31`),
  so the limit of 1000000 is never met and `report_reties` is 0 after every read that succeeds:
  `AtomicRead.AtomicRW.Read`.
- The stamps of a versioned object wrap after 2^32 writes. Fewer during one read are harmless
  (`AtomicRead.AcceptedIsSnapshot`), from 2^32 on any number can do harm (`AtomicRead.WrapTears`).
- Nothing keeps a sender from overrunning messages that were not read yet
  (`deps/r2/src/ring_msg/session.hh:147-178`). `RingMsg.WholeNext` and `RingMsg.Channel.Send` say
  exactly which sends do, in terms of the receiver's tail and the bytes outstanding, and
  `RingMsg.Overrun` carries one out.
- With `send_depth` half of the queue size (`deps/r2/src/ring_msg/session.hh:58`), sends in flight
  reach twice the depth plus one, one more than an even queue size: `RingMsg.ReachPeak`.
- `send_blocking` waits for one completion, which is an older one if an unsignalled series is open:
  `RingMsg.SendQueue.SendBlocking`.
- A coroutine that yields or exits with requests pending, which nothing forbids
  (`deps/r2/src/sshed.hh:116-121`, `deps/r2/src/sshed.cc:47-59`), is active or deleted when its last
  request is reported: `Scheduler.SScheduler.PollOne` states exactly what happens then,
  `Scheduler.YieldInsteadOfPause` and `Scheduler.ExitInsteadOfPause` carry it out. Coroutines that
  pause after posting are put back, each once (`Scheduler.SScheduler.PollAllFutures`).
- The parser of an index string refuses what `serialize` writes for an index without models:
  `Serialization.IndexRoundTrip`.

## Model

| member | source | states |
|---|---|---|
| `Plr.PLR.AddPoint` | rolex/plr.hpp:71-163 | a point is added exactly if some line fits the whole run and the point within epsilon; a refused point leaves run and rectangle for the segment; a non-increasing x throws and changes nothing; both extreme lines fit every point ever added, popped or skipped ones included |
| `Plr.PLR.AddToRun` | rolex/plr.hpp:103-162 | the branch for runs of two or more points: added if and only if the longer run can be fitted, and the extreme lines stay extreme |
| `Plr.RejectionIsExact` | rolex/plr.hpp:103-111 | the two integer comparisons refuse a point only when no line at all fits the run with it |
| `Plr.LineTests` | rolex/plr.hpp:103-106 | the slope comparisons on integers are the tests on which side of an extreme line a point lies |
| `Plr.Absorb` | rolex/plr.hpp:113-159 | the two swing steps in sequence keep both lines fitting and extreme for the run with the new point |
| `Plr.LowerMaxLine` | rolex/plr.hpp:113-135 | swinging the greatest line down to the new upper bound keeps the invariant and leaves the least line alone |
| `Plr.RaiseMinLine` | rolex/plr.hpp:137-159 | swinging the least line up to the new lower bound keeps the invariant, also when the upper bound was just pushed |
| `Plr.BandExact` | rolex/plr.hpp:76-79 | a band holds exactly the representable values within epsilon of the point's own |
| `Plr.PLR.constructor` | rolex/plr.hpp:64-69 | an empty regression with no run |
| `Plr.PLR.GetSegment` | rolex/plr.hpp:165-169 | the segment's two lines fit the run and are the least and the steepest of all lines that do, its corners are bounds of the run, and it starts at the first x; the one-point case included |
| `Plr.PLR.Reset` | rolex/plr.hpp:171-175 | no run is left |
| `Geometry.SlopeOrder` | rolex/plr.hpp:27-36 | comparing products of differences is comparing slopes, for positive dx |
| `Geometry.CrossSide` | rolex/plr.hpp:55-59 | the sign of the cross product tells the side of the line through the first two points |
| `Hull.SlopesStayUp` | rolex/plr.hpp:117-123 | once the slopes from the lower chain into a later point turn up they stay up, so the walk may stop there |
| `HullLoops.FindMinSlope` | rolex/plr.hpp:114-123 | the walk with its early break finds the tangent point: the line from it to the new point runs above the whole chain |
| `HullLoops.FindMaxSlope` | rolex/plr.hpp:138-147 | the mirrored walk finds the tangent point of the upper chain |
| `HullLoops.TrimUpper` | rolex/plr.hpp:129-134 | what is popped from the upper chain is implied by what is left and the new point, for every line; what is left turns the right way |
| `HullLoops.TrimLower` | rolex/plr.hpp:153-158 | the mirrored trimming of the lower chain |
| `HullStep.ExtremesEnclose` | rolex/plr.hpp:103-108 | every line that fits the run lies between the two extreme lines at every later x |
| `HullStep.SkipUpper` | rolex/plr.hpp:113-113 | an upper bound that is not pushed is already implied by the extreme lines |
| `HullStep.SkipLower` | rolex/plr.hpp:137-137 | a lower bound that is not pushed is already implied by the extreme lines |
| `HullStep.NewMaxFits` | rolex/plr.hpp:125-127 | the new greatest line fits all bounds, also those cut off by the start index |
| `HullStep.PushUpper` | rolex/plr.hpp:125-134 | after the push the two chains again decide which lines fit all points so far |
| `HullStep.PushLower` | rolex/plr.hpp:149-158 | the mirrored push keeps the same invariant |
| `Segment.SlopeRangeIsExact` | rolex/plr.hpp:251-258 | every line that fits the run has a slope in the range, and both ends are slopes of lines that fit |
| `Segment.ChosenIsMidpoint` | rolex/plr.hpp:201-258 | the chosen line is the midpoint, in slope and intercept, of the two extreme lines; of parallel ones it is the first |
| `Segment.ChosenIsMiddle` | rolex/plr.hpp:201-258 | the chosen line is halfway, in slope and intercept, between two lines that fit the run and span the slopes of all that do; for one point it is the flat line at the integer mean of the bounds |
| `Segment.MiddleUnique` | rolex/plr.hpp:201-258 | a run has only one such line, since between two parallel lines that fit there is room to tilt |
| `Segment.ChosenFits` | rolex/plr.hpp:240-249 | the chosen line fits every point of the run, the one-point case included |
| `Segment.ChosenRises` | rolex/plr.hpp:240-258 | the chosen slope is not negative when the values of the run do not fall |
| `Segmentation.MakeSegmentation` | rolex/plr.hpp:276-303 | succeeds exactly on inputs sorted by x; the segments describe consecutive runs that together are the de-duplicated points; no partition into runs that a line fits has fewer |
| `Segmentation.GreedyOptimal` | rolex/plr.hpp:289-302 | cutting only where a point is refused is optimal among all partitions |
| `Segmentation.GreedyAhead` | rolex/plr.hpp:294-298 | after any number of pieces the greedy cuts are at least as far as those of any other partition |
| `Segmentation.DedupOrigin` | rolex/plr.hpp:288-292 | a point that is kept is the first one of its x |
| `Segmentation.DedupKeeps` | rolex/plr.hpp:288-292 | every x is kept, by its first point |
| `Segmentation.DedupAscends` | rolex/plr.hpp:288-292 | of sorted points each x is kept once, in order |
| `LinearModel.WindowInTable` | rolex/submodel.hpp:48-55 | for every key the predicted window lies inside the leaf table, so the bound check never fails on the memory node |
| `LinearModel.PositionNear` | rolex/submodel.hpp:49-49 | the position is the line's value, less by the truncated fraction of the product |
| `LinearModel.PredictExact` | rolex/submodel.hpp:10-55 | which ranks are predicted, told by their distance from the position, the clamps at both ends included |
| `LinearModel.PredictWidth` | rolex/submodel.hpp:10-55 | the predicted ranks span at most twice the error bound and two, so a window has at most three leaves |
| `LinearModel.PredictNear` | rolex/submodel.hpp:10-55 | inside the segment both bounds stay within the error bound and two of the line's value |
| `LinearModel.WindowExact` | rolex/submodel.hpp:133-142 | the leaves of the window are those that hold a predicted rank |
| `LinearModel.WindowMonotone` | rolex/submodel.hpp:48-55 | both ends of the window move right with the key although the product is truncated |
| `LinearModel.WindowHoldsRank` | rolex/submodel.hpp:10-11 | a key fitted with the bound less one is predicted, with truncation, into a window that holds its rank, and never before the table |
| `LinearModel.UnderflowExact` | rolex/submodel.hpp:182-187 | the window lies before the table exactly if the upper bound, converted towards zero, is negative, that is from a position of -35 on down |
| `Leaf.Leaf.constructor` | rolex/leaf.hpp:23-27 | an empty leaf |
| `Leaf.Leaf.Find` | rolex/leaf.hpp:47-56 | the scan finds the slot of a key exactly if the leaf holds it |
| `Leaf.Leaf.Search` | rolex/leaf.hpp:47-56 | the stored value, or nothing |
| `Leaf.Leaf.Contain` | rolex/leaf.hpp:58-65 | whether the key is stored |
| `Leaf.Leaf.Update` | rolex/leaf.hpp:67-76 | replaces the value of a stored key and nothing else |
| `Leaf.Leaf.InsertNotFull` | rolex/leaf.hpp:104-118 | inserts in order; an existing key or a full leaf is left alone, with the positions the code returns |
| `Leaf.Leaf.Remove` | rolex/leaf.hpp:125-135 | drops exactly that entry and frees the last slot |
| `Leaf.Leaf.Range` | rolex/leaf.hpp:137-144 | appends the values of the smallest keys from the key on, up to the limit |
| `Leaf.Leaf.MoveHalfTo` | rolex/leaf_table.hpp:372-378 | the upper half moves to an empty leaf; together both still hold the same entries |
| `Leaf.Leaf.InsertHere` | rolex/leaf.hpp:78-79 | true exactly if the leaf is not empty and its first key is not larger, because a free slot holds the largest key |
| `Leaf.Leaf.IsFull` | rolex/leaf.hpp:34-34 | the last slot tells whether all slots are used |
| `Leaf.Leaf.IsEmpty` | rolex/leaf.hpp:36-36 | the first slot tells whether none is used |
| `LeafAllocator.LeafAllocator.constructor` | rolex/leaf_allocator.hpp:50-54 | the size check leaves room for all leaves; separate empty leaves, none handed out |
| `LeafAllocator.LeavesApart` | rolex/leaf_allocator.hpp:65-77 | the bytes of different leaves do not overlap each other or the two counters |
| `LeafAllocator.FilledFits` | rolex/leaf_allocator.hpp:41-43 | the constructor that fills the region counts one leaf too many unless 8 bytes are left over: it divides by the leaf size behind one counter, but there are two |
| `LeafAllocator.LeafAllocator.FetchNewLeaf` | rolex/leaf_allocator.hpp:70-77 | the next unused leaf, empty, under the next number |
| `Links.LinkIn` | rolex/leaf_table.hpp:117-137 | linking a fresh slot keeps all chains ending at 0, disjoint and with their own leaves |
| `Links.UnlinkOut` | rolex/leaf_table.hpp:139-142 | unlinking a slot keeps all chains ending at 0, disjoint and with their own leaves |
| `LeafTable.LeafTable.constructor` | rolex/leaf_table.hpp:90-92 | no entries, and slot 1 is the next free synonym slot |
| `LeafTable.LeafTable.GetChain` | rolex/leaf_table.hpp:163-170 | following the links ends and gives the chain of the entry |
| `LeafTable.LeafTable.FindEntry` | rolex/leaf_table.hpp:303-316 | the backward scan picks the last entry above the lower end whose head covers the key, else the lower end |
| `LeafTable.LeafTable.PickSynonym` | rolex/leaf_table.hpp:337-352 | the scan of a chain from its back picks the last leaf that covers the key |
| `LeafTable.LeafTable.SynonymEmplaceBack` | rolex/leaf_table.hpp:117-137 | refuses exactly when the slots are used up; else the fresh leaf follows the given one and no head changes |
| `LeafTable.LeafTable.SplitLeaf` | rolex/leaf_table.hpp:359-378 | a full leaf becomes two neighbours that hold its halves; all other leaves are untouched |
| `LeafTable.LeafTable.SynonymTableRemove` | rolex/leaf_table.hpp:139-142 | exactly that slot leaves its chain |
| `LeafTable.LeafTable.Search` | rolex/leaf_table.hpp:144-176 | finds exactly what the picked group stores, in the head or in any leaf of its chain |
| `LeafTable.LeafTable.Update` | rolex/leaf_table.hpp:245-284 | changes one value in the picked group, and no leaf of another table |
| `LeafTable.LeafTable.Insert` | rolex/leaf_table.hpp:303-387 | true exactly for an absent key while slots are left; adds it to the picked group; takes one leaf and one slot exactly if that splits a full leaf; false changes nothing; no leaf of another table and no head number changes |
| `LeafTable.LeafTable.Remove` | rolex/leaf_table.hpp:389-431 | removes it from the picked group and unlinks a synonym leaf that runs empty; no leaf of another table and no head number changes |
| `LeafTable.LeafTable.Range` | rolex/leaf_table.hpp:178-243 | continues the range from the picked group over all later groups, heads and chains in key order |
| `Groups.RouteInParts` | rolex/leaf_table.hpp:337-352 | the picked leaf of a chain parts the group's entries around the key |
| `Groups.GroupInsertedContent` | rolex/leaf_table.hpp:358-382 | inserting, with or without a split, is insertion into the group's sorted entries |
| `Groups.GroupUpdatedContent` | rolex/leaf_table.hpp:281-281 | updating the picked leaf updates the group's entries |
| `Groups.GroupRemovedContent` | rolex/leaf_table.hpp:424-428 | removing from the picked leaf, with or without unlinking, removes from the group's entries |
| `Groups.StrandsExactly` | rolex/leaf_table.hpp:424-428 | a head is left empty in front of synonym leaves exactly when it held only the removed key and has synonym leaves |
| `Routing.PickParts` | rolex/leaf_table.hpp:303-316 | the picked group parts the submodel's content around the key |
| `Routing.StoredKeyIsPicked` | rolex/leaf_table.hpp:303-316 | every stored key is routed back to the group that holds it |
| `Routing.PickMonotone` | rolex/leaf_table.hpp:303-316 | the picked group moves right with the key |
| `Routing.TableLookup` | rolex/leaf_table.hpp:144-160 | looking only into the picked group is looking into everything |
| `Routing.TableInserted` | rolex/leaf_table.hpp:303-316 | an insertion, also one that falls through to the lower end and becomes a new head key, keeps every stored key routed to its group |
| `Routing.InsertKeepsPicks` | rolex/leaf_table.hpp:303-316 | no insertion changes the group that is picked for a key stored before |
| `Routing.TableUpdated` | rolex/leaf_table.hpp:245-259 | an update keeps all routing and updates the whole content |
| `Routing.TableRemoved` | rolex/leaf_table.hpp:389-400 | a removal removes from the whole content; all routing survives if and only if it does not leave an empty head in front of synonym leaves |
| `Routing.SearchAfterRemoval` | rolex/leaf.hpp:78-79 | after any removal a search answers rightly for every key, except exactly for a stored key that was picked from the group whose head ran empty in front of synonym leaves and whose window starts before that group |
| `SubModel.FreshOk` | rolex/submodel.hpp:80-97 | the freshly filled leaves are in order and each trained key is predicted into its leaf |
| `SubModel.RankPlace` | rolex/submodel.hpp:89-96 | rank r sits in slot r mod 64 of leaf r / 64 |
| `SubModel.SubModel.constructor` | rolex/submodel.hpp:80-97 | training stores exactly the given pairs in fresh leaves, in order and without synonym leaves, whatever the line; a line that predicts the keys routes each to its leaf |
| `SubModel.SubModel.Search` | rolex/submodel.hpp:133-142 | what the picked group stores for the key, in every state; that is what the submodel stores as long as no keys are stranded |
| `SubModel.SubModel.Update` | rolex/submodel.hpp:144-151 | updates the content; true exactly for a stored key |
| `SubModel.SubModel.Insert` | rolex/submodel.hpp:153-161 | true exactly for an absent key while synonym slots are left; inserts it, keeps the routing, and takes a leaf exactly if it splits one |
| `SubModel.SubModel.Remove` | rolex/submodel.hpp:163-170 | removes it; keeps the routing exactly if no keys are stranded |
| `SubModel.SubModel.Range` | rolex/submodel.hpp:172-179 | continues the range with the submodel's values from the key on |
| `BinarySearch.BinarySearchBranchless` | rolex/rolex_util.hh:22-39 | for every length from 2 on: stays in bounds, ends, and returns the first position whose element is not smaller, or the length |
| `Partition.OneResponsible` | rolex/rolex.hpp:227-230 | at most one submodel is responsible for a key |
| `Partition.PartitionSorted` | rolex/rolex.hpp:227-230 | the parts of all submodels one after the other are in key order |
| `Partition.PartLookup` | rolex/rolex.hpp:147-149 | looking into the responsible submodel is looking into everything |
| `Partition.PartInserted` | rolex/rolex.hpp:155-159 | inserting into the responsible submodel is inserting into the whole |
| `Partition.PartUpdated` | rolex/rolex.hpp:151-153 | updating the responsible submodel is updating the whole |
| `Partition.PartRemoved` | rolex/rolex.hpp:161-163 | removing from the responsible submodel is removing from the whole |
| `Partition.PartRange` | rolex/rolex.hpp:165-173 | a range over the whole is a range from the responsible submodel on |
| `TrainingRuns.SegmentPredicts` | rolex/rolex.hpp:110-131 | the line handed over for a run fits it, is the middle of the run, and predicts every key of it into a window with its leaf |
| `TrainingRuns.FitsRanks` | rolex/rolex.hpp:110-118 | a line fits a run of keys exactly if at each key it is not negative and within 31 of the key's rank |
| `TrainingRuns.TrainingDetermined` | rolex/rolex.hpp:104-144 | the keys alone determine all submodels: upper keys, sizes and lines |
| `TrainingRuns.PredictedFromFirst` | rolex/submodel.hpp:48-55 | a key from the first one of a run on is never predicted before the table |
| `TrainingRuns.FarBelow` | rolex/submodel.hpp:48-55 | for every line that fits a run of more than 63 keys, a key far enough below the run is predicted before the table |
| `TrainingRuns.FewModels` | rolex/rolex.hpp:117-135 | every run but the last takes at least 63 keys, so the number of submodels is bounded by the number of keys |
| `Rolex.Rolex.AppendModel` | rolex/rolex.hpp:188-225 | succeeds exactly if leaves and model region suffice; then one more submodel under its largest key, with all earlier submodels kept, and the region holds exactly the images of all submodels |
| `Rolex.Rolex.TrainStep` | rolex/rolex.hpp:117-135 | one more key joins the open run exactly if some line fits the run with it, else it opens the next; nothing is lost or repeated, and the cost of what is left is known |
| `Rolex.Rolex.Train` | rolex/rolex.hpp:104-144 | succeeds exactly on strictly increasing keys whose runs the leaves and the model region can take; then the index holds exactly the given pairs, its submodels cover consecutive runs of all keys, each ends with its upper key exactly where no line fits one key more, its line fits its run and is the middle of it, none has synonym leaves, each key is predicted into its table, and the region holds exactly their images and their number |
| `Rolex.Rolex.Deserialize` | rolex/rolex.hpp:73-98 | reading the region back gives, for every submodel, its upper key and its image, as recorded by training |
| `Rolex.Rolex.ImageDecodes` | rolex/rolex.hpp:73-98 | in every state the image of a submodel names its upper key, line bits, capacity, table entries and synonym slots, all unchanged |
| `Rolex.Rolex.Serialize` | rolex/rolex.hpp:57-71 | in every state the string form of the index, if its length can be counted, parses back to the images of exactly its submodels, or is refused if there are none |
| `TrainingRuns.GreedyMore` | rolex/rolex.hpp:117-135 | a run closed because no line fits one key more, or because the keys end, continues the cuts |
| `TrainingRuns.ReachesMore` | rolex/rolex.hpp:188-206 | a further submodel takes over exactly the keys of its run, and predicts each into its table |
| `Rolex.Rolex.ModelForKey` | rolex/rolex.hpp:227-230 | picks the one responsible submodel |
| `Rolex.Rolex.Search` | rolex/rolex.hpp:147-149 | the value stored for the key, or nothing |
| `Rolex.Rolex.Update` | rolex/rolex.hpp:151-153 | updates the whole content; true exactly for a stored key; head numbers stay |
| `Rolex.Rolex.Insert` | rolex/rolex.hpp:155-159 | true exactly for an absent key whose submodel has synonym slots left, and then adds just it; one slot of that submodel and one leaf are taken exactly if it splits a leaf; false changes nothing; head numbers stay |
| `Rolex.Rolex.Remove` | rolex/rolex.hpp:161-163 | removes just the key; true exactly for a stored key; the index stays routable if and only if no keys are stranded |
| `Rolex.Rolex.Range` | rolex/rolex.hpp:165-173 | appends the values of the smallest stored keys from the key on, across submodels |
| `TrainedExamples.LoseKey` | rolex/leaf.hpp:78-79 | for 66 keys on a line and any line that fits them: a submodel trained on these keys, 63 insertions and 32 removals later, misses a stored key that was never removed |
| `TrainedExamples.FirstRun` | rolex/rolex.hpp:104-144 | training these keys and one far away gives two submodels, the first over the 66 keys, whatever lines are chosen |
| `TrainedExamples.LoseTrainedKey` | rolex/leaf.hpp:78-79 | the key is lost for the very line that training the index chooses: the same leaves are reached, and the answer of the search is what the picked group lacks |
| `Entries.InsertedIsMapUpdate` | rolex/leaf.hpp:104-118 | an insertion into sorted entries is a map update |
| `Entries.UpdatedIsMapUpdate` | rolex/leaf.hpp:67-76 | an update of sorted entries is a map update of a present key |
| `Entries.RemovedIsMapRemoval` | rolex/leaf.hpp:125-135 | a removal from sorted entries is a map removal |
| `Runs.Run` | rolex/rolex.hpp:146-173 | any run of operations, up to the first removal that would strand keys or the first insertion that needs another leaf when all are used, answers step by step as the sorted content and the used-up synonym slots dictate and ends in a valid index |
| `Runs.RefusedWhenFull` | rolex/leaf_table.hpp:322-324 | in a run an insertion of an absent key fails only after its submodel took in at least as many keys as it had synonym slots left |
| `Runs.RangeIsLeast` | rolex/rolex.hpp:165-173 | the listed values belong to the n least keys from the key on, in ascending order, or to all of them |
| `Runs.StepIsMapStep` | rolex/rolex.hpp:146-173 | one answered operation is one step of a finite map; only an insertion into a submodel without synonym slots is turned away |
| `Runs.RunIsMapRun` | rolex/rolex.hpp:146-173 | every answered run is a run of a finite ordered map in which exactly the insertions into used-up submodels and of present keys fail |
| `LearnedCache.LearnedCache.constructor` | rolex/learned_cache.hpp:197-239 | the cache holds the upper keys, lines, sizes and head leaf numbers that the bytes of the region encode, one by one |
| `LearnedCache.ImageIsRead` | rolex/learned_cache.hpp:197-239 | the recorded image of a trained submodel is read as that submodel's upper key, line, size and head leaf numbers |
| `LearnedCache.CacheOf` | rolex/learned_cache.hpp:36-39 | a cache read from the region that training filled agrees with the index |
| `LearnedCache.RemoteIsLocal` | rolex/learned_cache.hpp:246-246 | the offset a compute node computes for a leaf is the one the memory node uses, and leads to that leaf |
| `LearnedCache.LearnedCache.ReadLeaves` | rolex/learned_cache.hpp:74-82 | reads the head leaves of the window by their offsets, last first, and stops at the first hit |
| `LearnedCache.LearnedCache.Search` | rolex/learned_cache.hpp:70-84 | in any later state a hit is the current value; hits are exactly the keys in head leaves, except that a window before the table fails the bound check; at most three leaves are read |
| `LearnedCache.HeadIsPicked` | rolex/learned_cache.hpp:70-84 | a key in a head leaf lies inside its predicted window and is current there |
| `LearnedCache.TrainedIsReachable` | rolex/learned_cache.hpp:70-84 | right after training every trained key is predicted into the table and found in a head leaf |
| `LearnedCache.FarUnpredicted` | rolex/learned_cache.hpp:70-84 | in every trained index whose first run has more than 63 keys, a key far enough below is predicted before the table |
| `TrainedExamples.SearchBeforeTable` | rolex/learned_cache.hpp:70-84 | a trained index and a cache read from its region, for which searching an absent key fails the bound check |
| `LearnedCache.CacheThroughRun` | rolex/learned_cache.hpp:70-84 | a cache read from the region after training answers for each trained key at once, and after any run, explained step by step, exactly for those still in a head leaf, with the value of the moment |
| `Serialization.EntryRoundTrip` | rolex/leaf_table.hpp:62-70 | a table entry survives as a word exactly if its leaf number has 48 bits and its slot 8 |
| `Serialization.EncodeAt` | xutils/marshal.hh:44-66 | byte i is digit i of the value to the base 256 |
| `Serialization.EntryLayout` | rolex/leaf_table.hpp:62-70 | lock and region in the lowest byte, the synonym slot in bits 8 to 15, the leaf number in the upper 48 bits |
| `Serialization.TableLayout` | rolex/leaf_table.hpp:473-482 | size, entries and synonym slots at their places in the bytes |
| `Serialization.ModelLayout` | rolex/submodel.hpp:124-132 | slope, intercept, capacity, length and table at their places in the bytes |
| `Serialization.SerializeTable` | rolex/leaf_table.hpp:473-482 | the bytes are size, entries and synonym slots |
| `Serialization.DeserializeTable` | rolex/leaf_table.hpp:455-471 | parses as the format says, and fails where the code's size checks fail |
| `Serialization.TableRoundTrip` | rolex/leaf_table.hpp:455-482 | parsing undoes writing |
| `Serialization.LeafTableSurvives` | rolex/leaf_table.hpp:455-482 | a leaf table with its synonym slots comes back from its bytes exactly if every entry fits its word |
| `Serialization.SerializeModel` | rolex/submodel.hpp:124-132 | the bytes are line, capacity, size and table |
| `Serialization.DeserializeModel` | rolex/submodel.hpp:100-118 | parses as the format says, and fails where the code's size checks fail |
| `Serialization.ModelRoundTrip` | rolex/submodel.hpp:100-132 | parsing undoes writing |
| `Serialization.Serialize` | rolex/rolex.hpp:57-71 | the bytes are the total and then key, size and model of each submodel |
| `Serialization.Deserialize` | rolex/rolex.hpp:33-51 | the parsing loop consumes exactly what the format says |
| `Serialization.IndexRoundTrip` | rolex/rolex.hpp:33-71 | parsing undoes writing, except that the parser refuses the string of an empty index |
| `ModelRegion.UpperSlots` | rolex/model_allocator.hpp:38-55 | the key and offset slots of the head stay apart exactly up to the limit; the check before the allocation lets one more through, whose key lies on the first offset |
| `ModelRegion.ModelAllocator.constructor` | rolex/model_allocator.hpp:30-39 | an empty region with count 0 |
| `ModelRegion.Appended` | rolex/rolex.hpp:208-224 | recording one more model overwrites nothing recorded before |
| `ModelRegion.ModelAllocator.AppendModel` | rolex/rolex.hpp:208-224 | the region stays a faithful image with one more model, exactly if it has the room |
| `ModelRegion.ModelAllocator.WriteTotal` | rolex/rolex.hpp:138-143 | the count agrees with the models and overwrites none |
| `ModelRegion.ModelAllocator.Deserialize` | rolex/rolex.hpp:73-98 | a memory node reads back exactly the models that were written |
| `ModelRegion.ModelAllocator.ReadRemoteIndex` | rolex/learned_cache.hpp:197-239 | a compute node reads back exactly the models that were written |
| `AtomicRead.StepInv` | xcomm/src/atomic_rw/wrapper_type.hh:60-76 | every store of the writer and every copy step of the reader keeps the invariant |
| `AtomicRead.ExecInv` | xcomm/src/atomic_rw/wrapper_type.hh:53-76 | the invariant holds in every state that any interleaving reaches |
| `AtomicRead.AcceptedIsSnapshot` | xcomm/src/atomic_rw/wrapper_type.hh:53-76 | for every interleaving, a copy accepted within fewer than 2^32 commits is the whole payload of one commit that was the latest at some moment of the read |
| `AtomicRead.WriteCommits` | xcomm/src/atomic_rw/wrapper_type.hh:53-69 | a whole write of any payload commits that payload and leaves it in the object |
| `AtomicRead.QuietReadAccepted` | xcomm/src/atomic_rw/local_rw_op.hh:33-53 | a read with no write in between is accepted at once, except exactly on the version whose stamp wrapped to 0 |
| `AtomicRead.QuietNotRejected` | xcomm/src/atomic_rw/mod.hh:30-46 | an attempt that finds the writer at rest, at a valid stamp, is not rejected |
| `AtomicRead.AfterWriter` | xcomm/src/atomic_rw/mod.hh:30-46 | between attempts the object is as the writer's actions left it |
| `AtomicRead.WrapTears` | xcomm/src/atomic_rw/wrapper_type.hh:70-76 | for every number of commits from 2^32 on there is a read during which that many happen and whose accepted copy is a mixture that was never committed |
| `AtomicRead.AtomicRW.Read` | xcomm/src/atomic_rw/mod.hh:20-54 | whatever the writer does meanwhile: returns the first consistent copy or the first error; the copy was begun after all earlier attempts, and is one committed payload, the latest at some moment of its attempt, if fewer than 2^32 writes commit during it; the retry counter is cleared on every attempt, so it never exceeds 1 and its limit is never met |
| `RingMsg.WrapOnce` | deps/r2/src/ring_msg/ring.hh:28-28 | wrapping after every message is wrapping the total once, so sender and receiver agree on every offset |
| `RingMsg.PairExact` | deps/r2/src/ring_msg/ring.hh:26-72 | two messages less than a ring apart keep clear of each other exactly if the later one starts before the end of the ring or ends within a ring of the start of the earlier one |
| `RingMsg.SpanKeepsApart` | deps/r2/src/ring_msg/ring.hh:26-72 | two messages that together span at most one ring do not overlap, even when one spills into the slack |
| `RingMsg.WholeNext` | deps/r2/src/ring_msg/session.hh:147-178 | a further non-empty message leaves all outstanding ones whole exactly if the tail plus the bytes outstanding are below the ring size, or with the message at most the ring size |
| `RingMsg.Channel.constructor` | deps/r2/src/ring_msg/session.hh:57-63 | an empty channel over a memory of one ring and one largest message |
| `RingMsg.Channel.Send` | deps/r2/src/ring_msg/session.hh:147-178 | for every run of messages of allowed size, the address is the one the receiver will look at; what is outstanding and whole stays whole exactly if there is room |
| `RingMsg.Channel.Receive` | deps/r2/src/ring_msg/ring.hh:50-57 | for every run of messages the receiver gets the oldest outstanding one, never nothing, at the address it was sent to, and unchanged unless a later one was written over it |
| `RingMsg.Overrun` | deps/r2/src/ring_msg/session.hh:147-178 | a run of three sends, which nothing keeps back, after which the first message is received as other bytes than were sent |
| `RingMsg.SizeSurvives` | deps/r2/src/ring_msg/id_helper.hh:16-36 | the id is in the upper 16 bits and the size in the lower; both come back exactly if the size is below 2^16 |
| `RingMsg.SendQueue.SendUnsignaled` | deps/r2/src/ring_msg/session.hh:193-209 | every wait has a signalled send to wait for, and at most twice the depth plus one sends are in flight |
| `RingMsg.SendQueue.SendBlocking` | deps/r2/src/ring_msg/session.hh:147-178 | the completion waited for is its own exactly if no signalled send was outstanding, else the oldest signalled one |
| `RingMsg.ReachPeak` | deps/r2/src/ring_msg/session.hh:180-212 | the bound of twice the depth plus one sends in flight is reached, one more than an even queue size |
| `RoutineRing.LinkedList.Add` | deps/r2/src/linked_list.hh:38-57 | the node joins behind the tail; next links form the cycle and every node but the header links back to its predecessor, while the header's backward link goes stale |
| `RoutineRing.LinkedList.LeaveOne` | deps/r2/src/linked_list.hh:62-72 | exactly that node leaves and is unlinked, the tail moves back if needed, and its successor is returned |
| `RoutineRing.LinkedList.Follow` | deps/r2/src/linked_list.hh:38-72 | following next links from the header visits the members in order and comes back |
| `Scheduler.SScheduler.constructor` | deps/r2/src/sshed.cc:13-26 | the main coroutine alone in the ring |
| `Scheduler.SScheduler.Spawn` | deps/r2/src/sshed.cc:28-45 | a new coroutine at the end of the ring, refused exactly from 64 on |
| `Scheduler.SScheduler.EmplaceForRoutine` | deps/r2/src/sshed.hh:79-83 | one more future and one more pending request; both sums stay equal |
| `Scheduler.SScheduler.Pause` | deps/r2/src/sshed.hh:103-114 | a coroutine leaves the ring, inactive, exactly if it has pending requests; its successor runs |
| `Scheduler.SScheduler.YieldToNext` | deps/r2/src/sshed.hh:116-121 | the successor in the ring runs; the ring is unchanged, whether or not the coroutine has pending requests |
| `Scheduler.SScheduler.Exit` | deps/r2/src/sshed.cc:47-59 | the running coroutine leaves the ring for good, whether or not it has pending requests |
| `Scheduler.SScheduler.PollOne` | deps/r2/src/sshed.cc:62-97 | the count never underflows; when its last pending request is reported a coroutine is put back exactly if it has paused, while one that has not is still active, where an assertion fails, or has exited and is gone |
| `Scheduler.SScheduler.PollAllFutures` | deps/r2/src/sshed.cc:61-99 | whatever coroutine a future reports, pending counts match outstanding requests and live futures; the futures not ready are left in their order; the coroutines whose count reached zero join the ring, in the order of the reports, exactly if all of them have paused, which holds if everyone pauses after posting |
| `Scheduler.KeptAt` | deps/r2/src/sshed.cc:86-91 | of the futures polled exactly those not ready stay, each behind as many as were kept before it |
| `Scheduler.YieldInsteadOfPause` | deps/r2/src/sshed.cc:92-96 | a coroutine that posts and yields without pausing is active in the ring when its request is reported |
| `Scheduler.ExitInsteadOfPause` | deps/r2/src/sshed.cc:92-96 | a coroutine that posts and exits is gone when its request is reported |
| `Scheduler.WokenOnce` | deps/r2/src/sshed.cc:74-96 | over one round of polling a coroutine is woken once if its count reaches zero, else not at all |

## Left out

- Rolex.Rolex.Train: asks for an index without models, for keys below the largest 64-bit value, which marks free slots, for at most 2^31 - 1 keys, which the loop counter can count, for at most 2^48 leaves, and for runs that make no more than 2,097,151 submodels, of which `TrainingRuns.FewModels` says that 132 million keys never make more; beyond that `alloc_upper` lets keys and offsets overlap.
- Rolex.Rolex.AppendModel: asks for a line that predicts the keys and for keys behind those trained before, as training hands them over; nothing else calls it.
- Rolex.Rolex.Insert: asks for a spare leaf if the insertion splits one; the code stops with an assertion there.
- LeafTable.LeafTable.Insert: asks for a spare leaf if the insertion splits one, for the same reason.
- SubModel.SubModel.constructor: asks for strictly increasing keys and enough leaves, which training ensures.
- SubModel.SubModel.Insert: asks for a spare leaf if the insertion splits one, for the same reason.
- Rolex.Rolex.Search: like all operations of the index it asks for at least two submodels, because the binary search takes the highest bit of 0 for one.
- Runs.Run: ends before a removal that would leave an empty head in front of synonym leaves; what single later searches find is stated, later runs are not. It also ends before an insertion that needs another leaf when all are used, where the code stops with an assertion.
- LearnedCache.CacheOf: the bit patterns of lines are a parameter, and that they name the lines of the index again is asked for; 64-bit words cannot do that for all pairs of real numbers.
- LearnedCache.LearnedCache.Search: a negative bound is taken to fail the bound check of the table; the conversion to an unsigned number is undefined in the language.
- LinearModel.WindowInTable: a negative bound ends in leaf 0, as the clamp intends; the cast before it is undefined in the language.
- LinearModel.WindowHoldsRank: the product of slope and key is not cut to 64 bits, so keys whose product is beyond that range are not modelled.
- Plr.PLR.AddPoint: products of differences are unbounded, where 128-bit ones could overflow for the widest coordinates.
- Segment.ChosenFits: the sum of the two bounds of a single point is unbounded, where a 64-bit sum could wrap.
- Serialization.Deserialize: returns nothing for strings too short for what they announce, where the code would read past their end; a negative 32-bit count is not modelled.
- AtomicRead.AcceptedIsSnapshot: one writer, sequential consistency, payloads of whole 32-bit words, and copies of two words at a time as one step.
- RingMsg.Channel.Send: delivery in order is part of the model; messages larger than the largest one are not sent.
- RoutineRing.LinkedList.LeaveOne: not for the header, whose backward link is not kept and which the list would still start with.
- Scheduler.SScheduler.PollAllFutures: no failed completions, which put a coroutine back without lowering its count; one completion per future.
- Scheduler.SScheduler.PollOne: no failed completions, for the same reason.
- Scheduler.SScheduler.EmplaceForRoutine: one request per future of the running coroutine, as the asynchronous operations use it.
- Threads on the leaf table and its locks, of which insertion and the other operations take different ones; all operations run one after the other.
- Rounding of `double` and `long double`.
- The counters in front of the leaf region as bytes, and the check in `get_leaf`; the region is a sequence of leaves with their offsets.
- The asynchronous and unfinished searches of the cache, remote insertion, and the separate encoding helpers.
- Verbs, queue pairs, connection set-up, remote procedure calls, coroutine switching, timers, logging, benchmarks and loaders.
- `peek` of the coroutine list and coroutines put back by remote procedure calls.

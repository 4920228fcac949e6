# TinyInfiniTensor core, modelled in Dafny

This project models three parts of TinyInfiniTensor, a small tensor-graph engine written in C++:

- **The arena allocator** (`src/core/allocator.cc`). It plans memory as byte ranges before any memory exists.
  - `alloc` is first-fit over an address-ordered map of free blocks, and splits the chosen block.
  - `free` puts a range back and merges it with its neighbours.
  - `getPtr` ends the planning phase by requesting one buffer of `peak` bytes.
  - `getAlignedSize` rounds sizes up to 8 bytes.
- **The graph engine** (`src/core/graph.cc`):
  - `addOperatorAndConnect` wires a new operator to the producers and consumers of its tensors.
  - `topo_sort` orders the operators in repeated passes and caches the result in the `sorted` flag.
  - `optimize` is a two-rule peephole optimizer. Rule 1 removes a pair of transposes that undo each other. Rule 2 folds a transpose of the last two axes into a MatMul's `transA`/`transB` flag.
  - `dataMalloc` lays all tensors out contiguously in one allocation.
  - `getTensor` looks a tensor up by fuid.
  - `invalid_trans` and `last2_premute` are the two permutation tests the optimizer uses.
  - `checkValid` states the graph's structural invariant.
- **MatMul shape inference** (`src/operators/matmul.cc`). The batch dimensions are broadcast. The contracted dimension must agree. The output shape is the batch shape followed by `[m, n]`.

Operators and tensors live in an arena: maps from integer ids to records. A `shared_ptr` becomes an id. The graph's `ops` and `tensors` vectors become sequences of ids. The validity of every `shared_ptr` becomes the predicate `GraphObjects.Closed`: every id that a record holds names an existing record.

The object helpers that graph.cc calls are given the semantics of sequence operations:

| helper | model |
|---|---|
| `addTarget`, `addPredecessors`, `addSuccessors` | append |
| `removeTarget`, `removePredecessors`, `removeSuccessors`, `removeTensor`, `removeOperator` | erase every occurrence |
| `replaceInput` | replace every occurrence |

`src/core/graph.h` and the operator headers are not part of this model.

Files:

| file | contents |
|---|---|
| `wrappers.dfy` | `Option` and `Result` |
| `sequences.dfy` | sequence helpers and cardinality lemmas |
| `allocator.dfy` (module `Allocation`) | the allocator |
| `matmul.dfy` (module `Shapes`) | shape inference |
| `permutations.dfy` | the permutation tests and transpose shapes |
| `graph_objects.dfy` | the arena of operator and tensor records, and what wiring and rewiring do to it |
| `topo.dfy` | the passes of `topo_sort` |
| `rewrites.dfy` | the two optimizer rules as functions on the state of the scan |
| `layout.dfy` | the `dataMalloc` layout |
| `validity.dfy` | `checkValid` |
| `graph.dfy` (module `Graphs`) | the `Graph` class, whose methods update its fields in place |

The `Graph` methods are proved against the functions of the other modules.

## Model

| member | source | states |
|---|---|---|
| Allocation.AlignedSize | src/core/allocator.cc:97-100 | the aligned size is a multiple of 8, at least `size` and less than `size + 8`; size 0 gives 0, as the size_t arithmetic wraps back |
| Allocation.AlignedSizeIsLeast | src/core/allocator.cc:97-100 | no multiple of 8 at or above `size` is below the aligned size: it is the smallest one |
| Allocation.Allocator.constructor | src/core/allocator.cc:6-16 | a new arena has `used` and `peak` 0 and no buffer; its free map is the given one |
| Allocation.SortedKeys | src/core/allocator.cc:36 | the free blocks' starts in the order a map iterator visits them: strictly increasing and exactly the keys |
| Allocation.FirstFit | src/core/allocator.cc:36-38 | the search of `alloc` finds the lowest-addressed block of at least `size` bytes, or reports that no block is large enough |
| Allocation.FirstInOrderFits | src/core/allocator.cc:36-38 | the first block in address order with enough bytes is the first fit |
| Allocation.NoneFits | src/core/allocator.cc:36-50 | when no block in address order has enough bytes, no block does |
| Allocation.SplitBlock | src/core/allocator.cc:39-43 | the definition: the chosen block is erased and its non-empty tail `[a + size, a + m[a])` is put back |
| Allocation.SplitBlockKeepsCoalesced | src/core/allocator.cc:39-43 | splitting a block of a map with no two adjacent free blocks leaves no two adjacent |
| Allocation.SplitBlockKeepsBlocks | src/core/allocator.cc:39-43 | erasing the chosen block and re-inserting its non-empty tail keeps the free blocks disjoint and non-empty, and leaves the granted range out of every free block |
| Allocation.Allocator.Alloc | src/core/allocator.cc:26-52 | planning phase only; returns the first fit for the aligned size; the new free map is the split one; `used` grows by the aligned size modulo 2^64 (size_t `+=`); `peak` becomes max(peak, used). When nothing fits, fails with freeBlocks, used and peak unchanged. The arena invariant is kept: free blocks non-empty, disjoint and never adjacent, `used` a size_t value at most `peak` |
| Allocation.LowerBound | src/core/allocator.cc:65 | `lower_bound`: every start before the index is below `addr`, every start from it on is not |
| Allocation.Absorb | src/core/allocator.cc:74-80 | the merged end never shrinks below its start value |
| Allocation.AbsorbSpan | src/core/allocator.cc:74-80 | the merging loop erases exactly the walked blocks that start at or below the limit; the merged end covers each of them and is its start value or one of their ends |
| Allocation.AbsorbFromStart | src/core/allocator.cc:74-80 | started at the lowest block, the loop erases every block starting at or below the limit and covers all of them |
| Allocation.AbsorbAdjacent | src/core/allocator.cc:74-80 | started at `lower_bound(addr)` on an allocated range, the loop absorbs only the block starting exactly at `addr + size`, if there is one |
| Allocation.MergeUpTo | src/core/allocator.cc:74-80 | the loop as a method computes what Absorb describes |
| Allocation.WalkFrom | src/core/allocator.cc:65-73 | the steps before the loop, as written, reach the state WalkStart describes |
| Allocation.Wrap | src/core/allocator.cc:44 | a size_t result: the value reduced modulo 2^64, always below 2^64 |
| Allocation.WrapInRange | src/core/allocator.cc:44 | a value that already fits in a size_t is unchanged by the reduction |
| Allocation.SizeSub | src/core/allocator.cc:82-83 | the size_t difference `rhs - lhs` is exact when `rhs >= lhs` and wraps modulo 2^64 otherwise |
| Allocation.ReleaseAsWrittenWalks | src/core/allocator.cc:62-84 | away from the end() dereference, `free` as written is the loop run from WalkStart's state, then the insertion at `lhs` |
| Allocation.ReleaseAsWritten | src/core/allocator.cc:54-85 | the definition of `free` as written, with size_t arithmetic on `used` and on `rhs - lhs`; none when it would dereference end() |
| Allocation.ReleaseBlocks | src/core/allocator.cc:62-84 | the statements of `free`, run on the free map and `used`, compute exactly ReleaseAsWritten |
| Allocation.Allocator.Free | src/core/allocator.cc:54-85 | planning phase only, and end() is never dereferenced; the new free map and `used` are exactly what `free` as written computes (ReleaseAsWritten); `peak` and the buffer are unchanged. When no free block starts below `addr` and the range is allocated, `used` drops by the aligned size modulo 2^64, the free blocks stay non-empty, disjoint and never adjacent, and the whole arena invariant is kept when the aligned size is at most the old `used` |
| Allocation.ReleaseAsWrittenWrapsLength | src/core/allocator.cc:65-83 | as written, freeing [8, 16) with free blocks [0, 8) and [32, 40) and used 24 leaves one block at 32 whose size_t length wrapped to 2^64 - 16, and used 56 |
| Allocation.ReleaseAsWrittenWithoutPredecessor | src/core/allocator.cc:65-73 | when no free block starts below `addr`, the code as written and the corrected reading compute the same thing |
| Allocation.ReleaseWithoutPredecessor | src/core/allocator.cc:62-84 | when no free block starts below `addr`: every block starting at or before `addr + size` is erased and the others are kept; one block is put at `addr` whose end is the larger of `addr + size` and the erased blocks' ends |
| Allocation.ReleaseWithoutPredecessorAccounts | src/core/allocator.cc:74-83 | in the same case, on an allocated range, `used` drops by the aligned size modulo 2^64 (exactly, when it does not underflow) and the free blocks stay disjoint and non-empty, and never adjacent when they were not before |
| Allocation.Release | src/core/allocator.cc:62-84 | the definition of the corrected `free`: the predecessor is the block before `lower_bound(addr)` |
| Allocation.ReleaseCoalesces | src/core/allocator.cc:62-84 | corrected `free`: the released range, its free left neighbour ending at `addr` and its free right neighbour starting at `addr + size` become one block; `used` drops by `size` modulo 2^64; the blocks stay disjoint and non-empty, and never adjacent when they were not before |
| Allocation.MergedBlockKeepsBlocks | src/core/allocator.cc:82 | the merged block is disjoint from every block that remains |
| Allocation.MergedBlockKeepsCoalesced | src/core/allocator.cc:82 | the merged block is adjacent to no block that remains, when no two blocks were adjacent before |
| Allocation.ReleaseAsWrittenLosesBlocks | src/core/allocator.cc:65-72 | as written, freeing [8, 16) between free blocks [0, 8) and [16, 24) leaves a single empty block at 16 and raises `used` from 8 to 24 |
| Allocation.ReleaseMergesBothNeighbours | src/core/allocator.cc:62-84 | corrected, the same release yields the one block [0, 24) and `used` 0 |
| Allocation.ReleaseAsWrittenReadsEnd | src/core/allocator.cc:65-68 | as written, freeing just above the last free block dereferences end() |
| Allocation.FreeBelowOnlyBlock | src/core/allocator.cc:54-85 | freeing [0, 8) below the only free block [24, 64) puts [0, 8) back on its own and gives back 8 bytes |
| Allocation.Allocator.GetPtr | src/core/allocator.cc:87-95 | the first call requests exactly `peak` bytes and caches the buffer; later calls return the cached one; free map, used and peak never change |
| Allocation.ReuseLowestBlock | src/core/allocator.cc:26-85 | from one free block [0, 64): alloc(8) = 0, alloc(16) = 8, then free(0, 8), then alloc(8) = 0 again |
| Shapes.Broadcast | src/operators/matmul.cc:40-42 | a broadcast shape has the rank of the longer operand |
| Shapes.BroadcastMeetsRule | src/operators/matmul.cc:40-42 | broadcasting succeeds exactly when every right-aligned pair of dimensions is equal or has a 1, and then each dimension is the broadcast of its pair |
| Shapes.MatmulShape | src/operators/matmul.cc:25-59 | inference succeeds iff the batch shapes broadcast and the contracted dimensions agree; the output is the broadcast batch shape followed by m (A's free dimension) and n (B's free dimension), as selected by transA and transB |
| Shapes.SwapLastTwo | src/operators/matmul.cc:49-54 | swapping the last two dimensions keeps the batch dimensions and exchanges the last two |
| Shapes.TransAIsSwap | src/operators/matmul.cc:49-53 | toggling transA infers what swapping A's last two dimensions infers |
| Shapes.TransBIsSwap | src/operators/matmul.cc:50-54 | toggling transB infers what swapping B's last two dimensions infers |
| Shapes.BatchedExample | src/operators/matmul.cc:40-57 | [2, 3, 4] × [2, 4, 5] gives [2, 3, 5] |
| Shapes.TransposedExample | src/operators/matmul.cc:49-57 | [4, 3] with transA × [4, 5] gives [3, 5]; [3, 4] with transA × [4, 5] fails, because its contracted dimension is 3 |
| Shapes.BatchMismatchExample | src/operators/matmul.cc:40-42 | batch dimensions 2 and 3 do not broadcast, so inference fails |
| Shapes.Matmul.constructor | src/operators/matmul.cc:7-13 | the flags are the ones given |
| Shapes.Matmul.InferShape | src/operators/matmul.cc:25-59 | one output shape, MatmulShape's, with m, n and k = kA = kB recorded; on a failed assertion, none, with nothing recorded; the flags never change |
| Permutations.InvalidTrans | src/core/graph.cc:107-119 | true iff `p2[p1[i]] == i` for every i, given the asserted equal sizes |
| Permutations.Last2Permute | src/core/graph.cc:121-129 | true iff the permutation has at least two axes, fixes all but the last two and swaps those |
| Permutations.LastTwoSwapUndoesItself | src/core/graph.cc:107-129 | a last-two swap passes invalid_trans against itself |
| Permutations.TransposeShape | src/core/graph.cc:149-154 | axis i of a transposed shape is axis p[i] of the input |
| Permutations.InverseTransposesCancel | src/core/graph.cc:149-181 | two transposes that pass invalid_trans give back the shape they started from, so Rule 1 keeps shapes |
| Permutations.LastTwoSwapShape | src/core/graph.cc:193-200 | a last-two swap transposes a shape by exchanging its last two dimensions |
| Permutations.FusedTransposeShape | src/core/graph.cc:186-221 | a MatMul of the last-two-swapped operand infers the same shape as one of the operand with its flag toggled, so Rule 2 keeps shapes |
| Permutations.LastTwoSwapExamples | src/core/graph.cc:121-129 | [0, 2, 1] is a last-two swap; [1, 0, 2] is not |
| GraphObjects.AddTarget | src/core/graph.cc:23 | keeps every id, and no link dangles if the added target exists |
| GraphObjects.RemoveTarget | src/core/graph.cc:159 | keeps every id and leaves no link dangling |
| GraphObjects.SetSource | src/core/graph.cc:35 | keeps every id, and no link dangles if the source exists |
| GraphObjects.AddPredecessor | src/core/graph.cc:27 | keeps every id, and no link dangles if the predecessor exists |
| GraphObjects.RemovePredecessor | src/core/graph.cc:175 | keeps every id and leaves no link dangling |
| GraphObjects.AddSuccessor | src/core/graph.cc:26 | keeps every id, and no link dangles if the successor exists |
| GraphObjects.RemoveSuccessor | src/core/graph.cc:170 | keeps every id and leaves no link dangling |
| GraphObjects.ReplaceInput | src/core/graph.cc:161 | keeps every id, and no link dangles if the new input exists |
| GraphObjects.ToggleTrans | src/core/graph.cc:196-200 | keeps every id and leaves no link dangling |
| GraphObjects.SetBlob | src/core/graph.cc:282 | keeps every id and leaves no link dangling |
| GraphObjects.ConnectInputs | src/core/graph.cc:19-30 | the input loop keeps every id and every tensor's source |
| GraphObjects.LinkConsumers | src/core/graph.cc:36-40 | the consumer loop keeps every id and touches no tensor |
| GraphObjects.ConnectOutputs | src/core/graph.cc:31-42 | the output loop keeps every target list and the source of every tensor that is not an output |
| GraphObjects.ConnectInputsKeep | src/core/graph.cc:19-30 | the input loop keeps each object's data and every link it had |
| GraphObjects.LinkConsumersKeep | src/core/graph.cc:36-40 | the consumer loop keeps each object's data and every link it had |
| GraphObjects.ConnectOutputsKeep | src/core/graph.cc:31-42 | the output loop keeps each object's data and every link it had |
| GraphObjects.ConnectInputsTarget | src/core/graph.cc:23 | the new op becomes a target of each input |
| GraphObjects.ConnectInputsLinkSource | src/core/graph.cc:24-28 | the new op and the source of each input become successor and predecessor of each other |
| GraphObjects.LinkConsumersLink | src/core/graph.cc:36-40 | the new op and each listed consumer become predecessor and successor of each other |
| GraphObjects.ConnectOutputsLink | src/core/graph.cc:36-40 | the new op and each existing target of an output become predecessor and successor of each other |
| GraphObjects.ConnectOutputsSource | src/core/graph.cc:35 | the new op becomes the source of each output |
| GraphObjects.Connect | src/core/graph.cc:15-43 | the definition of addOperatorAndConnect on the objects: store the op, run the input loop, then the output loop |
| GraphObjects.ConnectTargetsAndSources | src/core/graph.cc:15-43 | addOperatorAndConnect makes the op a target of every input and the source of every output, and leaves every other tensor's source alone |
| GraphObjects.ConnectLinksProducers | src/core/graph.cc:19-30 | the op is linked both ways with the producer of each input |
| GraphObjects.ConnectLinksConsumers | src/core/graph.cc:31-42 | the op is linked both ways with each op that already consumed one of its outputs |
| GraphObjects.ConnectKeeps | src/core/graph.cc:15-43 | the op is stored; existing objects keep their data and only gain links |
| GraphObjects.ConnectKeepsClosed | src/core/graph.cc:15-43 | wiring an op whose links point at existing objects leaves no link dangling |
| GraphObjects.EvolvesTrans | src/core/graph.cc:144-224 | the changes the optimizer may make compose |
| GraphObjects.RemoveTargetEvolves | src/core/graph.cc:159 | dropping a target is an allowed change |
| GraphObjects.RemoveSuccessorEvolves | src/core/graph.cc:170 | dropping a successor is an allowed change |
| GraphObjects.AddSuccessorEvolves | src/core/graph.cc:177 | adding a successor is an allowed change |
| GraphObjects.RemovePredecessorEvolves | src/core/graph.cc:175 | dropping a predecessor is an allowed change |
| GraphObjects.ToggleTransEvolves | src/core/graph.cc:196-200 | flipping a MatMul flag is an allowed change |
| GraphObjects.Rewire | src/core/graph.cc:160-163 | rewiring consumers keeps every id |
| GraphObjects.RewireResult | src/core/graph.cc:160-163 | in closed form: the listed consumers read `to` where they read `from` and become targets of `to`; nothing else changes |
| GraphObjects.RewireEvolves | src/core/graph.cc:160-163 | rewiring is an allowed change |
| GraphObjects.RewireClosed | src/core/graph.cc:160-163 | rewiring to an existing tensor leaves no link dangling |
| GraphObjects.Unlink | src/core/graph.cc:173-179 | unlinking keeps every id |
| GraphObjects.UnlinkResult | src/core/graph.cc:173-179 | in closed form: each former successor loses the op from its predecessors and becomes a successor of the predecessor of `pre`; tensors are untouched |
| GraphObjects.UnlinkEvolves | src/core/graph.cc:173-179 | unlinking is an allowed change |
| GraphObjects.UnlinkClosed | src/core/graph.cc:173-179 | unlinking existing ops leaves no link dangling |
| GraphObjects.EvolvesKeepsShape | src/core/graph.cc:144-224 | allowed changes keep the arities the rules read and the agreement of chained transposes |
| Rewrites.Bypass | src/core/graph.cc:157-163 | the bypass of a transpose keeps every id |
| Rewrites.Rule1 | src/core/graph.cc:149-181 | Rule 1 keeps every id |
| Rewrites.Detach | src/core/graph.cc:167-179 | the link half of Rule 1 keeps every id |
| Rewrites.Rule2 | src/core/graph.cc:186-221 | Rule 2 keeps every id |
| Rewrites.Refold | src/core/graph.cc:210-216 | the link half of Rule 2 keeps every id |
| Rewrites.Visit | src/core/graph.cc:144-224 | one iteration of the scan keeps every id |
| Rewrites.ScanOps | src/core/graph.cc:144-224 | the scan keeps every id |
| Rewrites.ProgressQueued | src/core/graph.cc:180-181 | from an empty queue, every queued op was a transpose of the starting graph |
| Rewrites.ProgressTrans | src/core/graph.cc:144-224 | allowed progress of the scan composes |
| Rewrites.BypassKeeps | src/core/graph.cc:157-163 | the bypass is an allowed change and leaves no link dangling |
| Rewrites.DetachKeeps | src/core/graph.cc:167-179 | the link half of Rule 1 is an allowed change and leaves no link dangling |
| Rewrites.RefoldKeeps | src/core/graph.cc:210-216 | the link half of Rule 2 is an allowed change and leaves no link dangling |
| Rewrites.Rule1ObjectsKeep | src/core/graph.cc:155-181 | when Rule 1 fires, its changes are allowed and leave no link dangling |
| Rewrites.Rule1Keeps | src/core/graph.cc:149-181 | Rule 1 makes only allowed progress: objects evolve, tensors are only dropped, only transposes are queued; no link dangles |
| Rewrites.Rule2ObjectsKeep | src/core/graph.cc:196-218 | when Rule 2 fires, its changes are allowed and leave no link dangling |
| Rewrites.Rule2Keeps | src/core/graph.cc:186-221 | Rule 2 makes only allowed progress and leaves no link dangling |
| Rewrites.VisitKeeps | src/core/graph.cc:144-224 | one iteration makes only allowed progress and leaves no link dangling |
| Rewrites.ScanKeeps | src/core/graph.cc:144-224 | the whole scan makes only allowed progress and leaves no link dangling |
| Rewrites.ScanOutcome | src/core/graph.cc:144-224 | from an empty queue, the scan's outcome keeps the rules' arities, its objects evolved from the start, its tensors are among the start's, and it queued only transposes |
| Rewrites.Rule1Applies | src/core/graph.cc:149-154 | the definition of Rule 1's guard: one predecessor, both transposes, invalid_trans of the two permutations |
| Rewrites.Rule2Applies | src/core/graph.cc:186-195 | the definition of Rule 2's guard on input i: a MatMul whose input i has a transpose source with one successor and a last-two-swap permutation |
| Rewrites.Rule1Guard | src/core/graph.cc:149-154 | the size assertion of invalid_trans always holds where it is called, and Rule 1 fires exactly when the op has one predecessor, both are transposes and invalid_trans holds |
| Rewrites.Rule2Guard | src/core/graph.cc:186-195 | Rule 2 fires on input i exactly when the op is a MatMul whose input i comes from a last-two-swap transpose with one successor |
| Rewrites.Rule1Rewires | src/core/graph.cc:157-163 | every consumer of the op's output reads the input of `pre` in its place |
| Rewrites.Rule1Retargets | src/core/graph.cc:159-163 | the targets of `pre`'s input lose `pre` and gain the consumers of the op's output |
| Rewrites.Rule1Unlinks | src/core/graph.cc:167-179 | the op's successors lose it as a predecessor; the predecessor of `pre`, when it is the only one, has `pre` replaced by them among its successors |
| Rewrites.Rule1Drops | src/core/graph.cc:164-181 | the op's output and input are dropped from the tensor list; `pre` and the op are queued |
| Rewrites.Rule2Toggles | src/core/graph.cc:196-200 | the flag of input i is flipped and the other is kept |
| Rewrites.Rule2Drops | src/core/graph.cc:208-217 | the transpose's output is dropped from the tensor list and the transpose is queued |
| Rewrites.Rule2Rewires | src/core/graph.cc:202-207 | every consumer of the input reads the transpose's input in its place; so does the MatMul at i |
| Rewrites.Rule2Retargets | src/core/graph.cc:202-207 | the targets of the transpose's input lose the transpose and gain the consumers of the MatMul's input |
| Rewrites.Rule2Refolds | src/core/graph.cc:210-216 | the MatMul loses the transpose as a predecessor; the transpose's only predecessor has it replaced by the MatMul among its successors |
| TopoOrder.TopologicalSnoc | src/core/graph.cc:84-96 | placing a ready op keeps the order topological |
| TopoOrder.StuckKeepsOut | src/core/graph.cc:98-101 | when no unplaced op is ready, any topological order of the ops holds only placed ops |
| TopoOrder.StuckHasNoOrder | src/core/graph.cc:98-101 | a pass that places nothing before all ops are placed proves that no order of the ops is topological |
| TopoOrder.StuckAt | src/core/graph.cc:98-101 | no given order of the ops is topological once a pass is stuck |
| TopoOrder.OrderElems | src/core/graph.cc:103 | a reordering lists the same ops |
| TopoOrder.PlacedWithin | src/core/graph.cc:78 | the placed ops never outnumber the ops, and as many means a reordering of them all |
| TopoOrder.SortOps | src/core/graph.cc:74-104 | on success, every op once, after the producers of its inputs; on failure, no such order exists; at most \|ops\| passes |
| Layout.Bind | src/core/graph.cc:280-284 | binding keeps every id and leaves no link dangling |
| Layout.BindSnoc | src/core/graph.cc:280-284 | binding one more tensor sets its blob at its offset |
| Layout.BindKeeps | src/core/graph.cc:282 | binding keeps every link and all data but the blobs |
| Layout.BindSkips | src/core/graph.cc:280-284 | a tensor not listed keeps its blob |
| Layout.BindPlaces | src/core/graph.cc:280-284 | a listed tensor is bound at the offset of its last listing |
| Layout.Contiguous | src/core/graph.cc:283 | each range starts where the one before it ends |
| Layout.OffsetsGrow | src/core/graph.cc:283 | offsets grow with the position |
| Layout.RangesDisjoint | src/core/graph.cc:275-284 | ranges of different positions do not overlap, and all lie within [addr, addr + total) |
| Validity.WellFormed | src/core/graph.cc:314-357 | the definition of checkValid: every tensor has a source or a target, all in the op list; every op's tensors are in the tensor list and its links in the op list; fuids are distinct |
| Validity.WellFormedReordered | src/core/graph.cc:314-357 | checkValid depends only on which ops the list holds, not on their order |
| Validity.ConnectLinksIn | src/core/graph.cc:15-43 | after wiring, every link of the graph's objects stays within the graph |
| Validity.ConnectKeepsTensorsValid | src/core/graph.cc:316-326 | each tensor keeps a source or a target, and its links stay in the graph |
| Validity.ConnectKeepsOpsValid | src/core/graph.cc:327-347 | each op, and the new one, keeps its tensors and its links in the graph |
| Validity.ConnectKeepsWellFormed | src/core/graph.cc:314-357 | addOperatorAndConnect of an op whose tensors are in the graph and which has no links yet keeps checkValid |
| Sequences.RemoveAll | src/core/graph.cc:164-165 | erasing a value keeps exactly the other elements |
| Sequences.RemoveEach | src/core/graph.cc:226-228 | erasing a set keeps exactly the elements outside it |
| Sequences.RemoveAllThenEach | src/core/graph.cc:226-228 | erasing the queued ops one at a time erases them all |
| Graphs.TotalBytes | src/core/graph.cc:275-278 | the summing loop computes the tensors' total size |
| Graphs.BindTensors | src/core/graph.cc:280-284 | the binding loop binds each tensor at its offset in the arena's buffer; it requests the buffer once and leaves free map, used and peak alone |
| Graphs.Graph.constructor | src/core/allocator.cc:6-16 | an empty, unsorted graph that satisfies checkValid, over a fresh planning-phase allocator with the given free map |
| Graphs.Graph.AddTensor | src/core/graph.cc:288-301 | a new tensor, without links or memory, is appended to the tensor list |
| Graphs.Graph.AddOperatorAndConnect | src/core/graph.cc:15-43 | clears `sorted`, appends the op and wires it (Connect); keeps the arena invariant, and keeps checkValid for an op whose tensors are in the graph |
| Graphs.Graph.WireInputs | src/core/graph.cc:19-30 | the input loop computes ConnectInputs |
| Graphs.Graph.WireOutputs | src/core/graph.cc:31-42 | the output loop computes ConnectOutputs |
| Graphs.Graph.LinkConsumersOf | src/core/graph.cc:36-40 | the consumer loop computes LinkConsumers |
| Graphs.Graph.TopoSort | src/core/graph.cc:68-105 | if already sorted: true and nothing changes. On success: a topological reordering of the same ops, and `sorted` set. On failure: nothing changes and no topological order exists. Validity and checkValid are kept |
| Graphs.Graph.CheckValid | src/core/graph.cc:314-357 | checkValid on the graph's fields: WellFormed of its objects, op list and tensor list |
| Graphs.Graph.GetTensor | src/core/graph.cc:231-241 | the first tensor in the list with that fuid, or none when no tensor has it |
| Graphs.Graph.DataMalloc | src/core/graph.cc:266-286 | sorts first and fails only when no order exists; fails when the arena's buffer is already out, or when no block fits; otherwise takes the first fit for the tensors' total size, with the allocator's state after it as `alloc` leaves it (AllocatedAt: split free map, `used` up by the aligned size modulo 2^64, `peak` the maximum), and binds each tensor at its offset in list order |
| Graphs.Graph.Place | src/core/graph.cc:275-284 | the planning half of dataMalloc: allocator outcome and layout as above, with ops and tensors unchanged |
| Graphs.Graph.Optimize | src/core/graph.cc:131-229 | sorts first. It then scans the sorted ops once, as ScanOps, and removes the queued ops from the op list. Only transposes are queued. Objects only evolve. The tensor list only shrinks. No link dangles. With no order, nothing changes |
| Graphs.CancellingChainShaped | src/core/graph.cc:149-181 | the two-transpose chain X0 → T0 → X1 → T1 → X2 has the arities the rules read and its transposes agree |
| Graphs.CancellingChainChecks | src/core/graph.cc:314-357 | the chain satisfies checkValid before optimizing |
| Graphs.CancellingChainScan | src/core/graph.cc:149-181 | on the chain, Rule 1 fires at T1 and the scan of [T0, T1] is that one rewrite |
| Graphs.OptimizeCanBreakCheckValid | src/core/graph.cc:144-228 | after optimize on the chain, both transposes are removed and X0 is left with neither source nor target, so checkValid fails |
| Graphs.Graph.ScanAll | src/core/graph.cc:144-224 | the scan loop computes ScanOps over the op list |
| Graphs.Graph.RemoveQueued | src/core/graph.cc:226-228 | the removal loop erases exactly the queued ops |
| Graphs.Graph.VisitStep | src/core/graph.cc:147-221 | one iteration: Rule 1, then on a MatMul Rule 2 on inputs 0 and 1, as Visit |
| Graphs.Graph.Rule1Step | src/core/graph.cc:149-183 | the guards of Rule 1 and, when they pass, its rewrite: as Rule1 |
| Graphs.Graph.CancelTransposes | src/core/graph.cc:155-181 | the rewrite of Rule 1 computes Rule1 |
| Graphs.Graph.Rule2Step | src/core/graph.cc:188-195 | the guards of Rule 2 on input i and, when they pass, its rewrite: as Rule2 |
| Graphs.Graph.FoldTranspose | src/core/graph.cc:196-218 | the rewrite of Rule 2 computes Rule2 |
| Graphs.Graph.RewireConsumers | src/core/graph.cc:160-163 | the rewiring loop computes Rewire over the targets of `from` |
| Graphs.Graph.UnlinkSuccessors | src/core/graph.cc:173-179 | the unlinking loop computes Unlink |

## Left out

- Printing and reporting (`toString`, `info`, the printf in `getPtr`) are not modelled: they only produce output.
- The runtime's `alloc`/`dealloc` and `BlobObj` are external. The buffer handle the runtime returns is the parameter `provided` of GetPtr, DataMalloc and BindTensors. The destructor is not modelled.
- Reference counting and `shared_ptr` ownership are replaced by ids in an arena. Objects that the graph drops stay in the arena.
- `shape_infer` and the shape inference of operators other than MatMul are not part of this model. Tensor shapes are not stored; each tensor carries its size in bytes.
- The guid and fuid counters are not modelled. Ids and fuids are parameters of AddTensor and AddOperatorAndConnect.
- Null tensor slots in an op's inputs or outputs (the `if (input)` checks) are not modelled: every id names a tensor.
- Graphs.Graph.Optimize: states the graph's invariants (no dangling link, the rules' arities) and the outcome of each rule. It does not state that predecessor and successor lists stay mirror images of each other after a rewrite. That property is not stated for the source either.
- Graphs.Graph.Optimize: checkValid is not promised after optimize, because the code does not keep it. When nothing reads the second transpose's output, Rule 1 leaves the first transpose's input with neither source nor target (Graphs.OptimizeCanBreakCheckValid). Rule 1 also drops `pre`'s output while another op may still read it (Rewrites.Rule1Drops).
- Allocation.Allocator.Free: `used <= peak` is promised only when the aligned size is at most the old `used`. Otherwise the size_t subtraction wraps `used` above `peak`, as in the source.
- Graphs.Graph.DataMalloc: `total_size` and `addr` are unbounded, so the size_t wrap of a sum of at least 2^64 bytes is not modelled.
- Allocation.Allocator.Free: when no free block starts at or after `addr` but some block starts below it, the code dereferences end(). That is undefined behaviour, so it is excluded by a precondition (ReleaseAsWrittenReadsEnd shows the case).
- Allocation.Allocator.Free: coalescing and exact accounting are stated only when no free block starts below `addr`. With a block below `addr`, the code as written loses blocks (see Findings).
- The `GraphObj` constructor is declared in `src/core/graph.h`, which is not part of this model. Graphs.Graph.constructor builds an empty graph and creates its allocator as `src/core/allocator.cc` does.
- `removeTensor` and `removeOperator` (declared in `src/core/graph.h`, not part of this model) are modelled as erasing every occurrence from the list.
- Permutations.InvalidTrans: the size assertion of `invalid_trans` and its in-range indexing are preconditions. Rewrites.Rule1Guard proves both hold wherever the optimizer calls it, on graphs whose chained transposes permute equally many axes.
- Rewrites.Rule1Rewires: the closed-form rewiring and unlinking lemmas assume that the links they read do not loop back (Rule1Plain, Rule2Plain), which always holds in an acyclic graph. The loops in Graphs.Graph.RewireConsumers and Graphs.Graph.UnlinkSuccessors iterate over a snapshot of the list, as the source does, and are proved for every graph.
- The rules read fixed positions (`getInputs()[0]`, `getOutputs()[0]`, input 0 and 1 of a MatMul). The arities behind these reads are the precondition Shaped of Graphs.Graph.Optimize.
- Rewrites.Rule1Drops: Rule 1 drops `pre`'s output from the tensor list even when another op still reads it, as the source does; the model keeps that behaviour.
- Graphs.Graph.AddTensor: a tensor with neither source nor target breaks checkValid until an op is connected to it, as in the source. So AddTensor promises only the arena invariant.
- Graphs.Graph.DataMalloc: the `IT_ASSERT` on `topo_sort` is the error Cyclic, and the allocator's assertion `ptr == nullptr` is the error PlanningOver. The exception `alloc` throws when nothing fits is the error NoFreeBlock.
- Graphs.Graph.DataMalloc: each tensor's byte size is read from the objects before binding. Binding never changes a size.
- Shapes.MatmulShape: with `transA` set, `A`'s contracted dimension is its second-to-last (src/operators/matmul.cc:49-53), so `[3, 4]` with `transA` times `[4, 5]` fails and `[4, 3]` with `transA` times `[4, 5]` gives `[3, 5]` (Shapes.TransposedExample).

## Findings

| source | as written | input that shows it | evidently intended | confidence | as-written member | corrected member |
|---|---|---|---|---|---|---|
| src/core/allocator.cc:67-68 | `auto jt = it--;` leaves `jt` on the block at `lower_bound(addr)`, not on its predecessor. That block is erased and becomes the merged block's start. The loop then walks from the predecessor, so the merged block can end before it starts. With no block at or after `addr`, `jt` is end() and is dereferenced | free map {[0, 8), [16, 24)}, used 8, free(8, 8): the free map becomes one empty block at 16 and used becomes 24 | `jt` should be the block before `lower_bound(addr)`, merged only when it ends at or after `addr`. The result is then the one block [0, 24) and used 0 | not executed | Allocation.ReleaseAsWrittenLosesBlocks (on Allocation.ReleaseAsWritten, which Allocation.Allocator.Free follows) | Allocation.ReleaseMergesBothNeighbours and Allocation.ReleaseCoalesces (on Allocation.Release) |

# Tensor layout, dispatch and runtime core of gotorch, verified

gotorch binds Go to libtorch and carries a copy of libtorch's `c10/core`. This project models the parts of
that code whose correctness is not visible from any single function, and proves what they are for:

- **Tensor layout.** `Permutations`, `MixedRadix` and `Contiguity` treat a layout as the map from an index
  to its offset. The contiguity, channels-last and density tests are loops over sizes and strides; each is
  proved to decide a statement about that map. `Symbolic`, `SymContiguity`, `SymDensity` and `MemoryFormat`
  do the same for symbolic sizes, whatever a sound but incomplete guard oracle answers. `ShapeFlags`,
  `ShapeMeta`, `TensorShape`, `ShapeRuns` and `ShapeWorkers` are the lazy cache of these answers, the
  operations that change a shape under it, and its initialisers running interleaved.
- **Dispatch keys.** `Bits`, `DispatchKeys`, `DispatchTable` and `KeyIterator` take the number of backends
  and the list of per-backend functionalities as parameters (`DispatchKeys.TORCH` has the numbers of this
  repository) and prove the table index, the priority rule and the skipping iterator consistent.
- **Thread pool.** `PoolProtocol` is the lock and condition-variable protocol as a state machine over critical
  sections; `ThreadPool` is the class whose methods are proved to be its steps.
- **Ownership.** `SymIntWord` and `SymIntOwnership` are the tagged word and the node counts of `SymInt`;
  `SharedStorage` is the refcounted deleter.
- **Parsers and scoped state.** `ConfigTokenizer`, `RoundupTable`, `RoundupText`, `DeviceString`,
  `GuardScopes`, `DataLoader`. (`Wrappers` and `Decimals` are helpers.)

`dafny verify dfyconfig.toml` checks everything.

## Findings

Places where the code does less than a comment, a document or a first reading suggests. The model follows
the code and states the exact condition.

- The density flag of the lazy cache short-circuits on contiguity. That gives the plain density test's answer for
  all strides exactly when no dimension is empty or none is larger than 1 (`ShapeFlags.GlueExactly`).
- Restriding assumes flags instead of computing them. An assumed flag is right exactly when the tensor has valid
  strides and, for `is_channels_last` and `is_channels_last_3d`, no dimension is empty and one batch entry
  holds more than one element (`TensorShape.AssumedFlagsExactly`).
- The pool signals completion with `notify_one`: a waiter can stay blocked on a finished pool exactly when there
  are at least two waiting clients (`PoolProtocol.StrandingExactly`).
- Node addresses survive tagging exactly when they are below 2^61; the sign extension in
  `toSymNodeImplUnowned` never restores a higher one (`SymIntWord.RoundTripExactly`).
- Callers of `ConfigTokenizer::checkToken` ignore its result, so the ':' and ',' of a rounding list may be any
  tokens at all (a ']' excepted where a ',' belongs) and change nothing (`RoundupTable.SeparatorsUnread`, with
  `WrongSeparatorsPass` for inputs). `RoundupTable.AcceptedExactly` says which lists are accepted.
- The value behind ">" in a rounding list reaches the sizes above the last boundary exactly when that boundary
  is below 2^15 MB or has the same value (`RoundupTable.RestReachesExactly`).
- Parsing the printed form of a device gives it back exactly under the condition of
  `DeviceString.RoundTripExactly`; among the exceptions are Metal, a type whose name a private backend has
  taken, and, in the other direction, a private backend registered under a name like `privateuseone:255`, whose
  index narrows to -1.
- The hot-path table index agrees with the priority rule for every keyset inside FULL, also for one whose
  top functionality is per-backend and that has no backend bit (`DispatchTable.HotPathRefinesPriority`).

## Model

| member | source | states |
|---|---|---|
| Contiguity.ComputeNonOverlappingAndDense | c10/core/Contiguity.h:273-307 | for all ranks, sizes and strides: true exactly when index to offset is a bijection from the index box (sizes below 1 counted as 1) onto [0, numel) |
| Contiguity.StdSort | c10/core/Contiguity.h:286-294 | the sort yields a permutation in comparator order; nothing about ties is promised |
| Contiguity.SortedTestDecides | c10/core/Contiguity.h:286-306 | whichever sorted permutation is tested, the stride test decides bijectivity |
| Contiguity.TestSorted | c10/core/Contiguity.h:295-306 | the loop behind the sort, with its early exits, decides bijectivity |
| Contiguity.OneDimension | c10/core/Contiguity.h:277-280 | the rank-1 shortcut gives the same answer as the general test |
| MixedRadix.DenseIffBijective | c10/core/Contiguity.h:295-306 | in ascending stride order, running products as strides and bijectivity are the same, both directions |
| MixedRadix.BijectiveIsDense | c10/core/Contiguity.h:301-304 | a bijective ascending layout has every stride forced to the product of the smaller ones |
| MixedRadix.BijectiveReorder | c10/core/Contiguity.h:281-294 | listing the dimensions in another order changes nothing about bijectivity |
| Contiguity.ComputeContiguous | c10/core/Contiguity.h:13-33 | true exactly when the tensor is empty or every stride that matters is the row-major one |
| Contiguity.ContiguousIffRowMajor | c10/core/Contiguity.h:13-33 | without empty dimensions: contiguous exactly when every offset is its row-major rank |
| Contiguity.MatchesOrder | c10/core/Contiguity.h:110-121 | the channels-last loop accepts exactly the running products along its order |
| Contiguity.ComputeChannelsLastContiguous2d | c10/core/Contiguity.h:103-130 | true exactly for rank 4 with running products along 1, 3, 2, 0 |
| Contiguity.ComputeChannelsLastContiguous3d | c10/core/Contiguity.h:191-218 | true exactly for rank 5 with running products along 1, 4, 3, 2, 0 |
| Contiguity.ChannelsLast2dIffRank | c10/core/Contiguity.h:103-130 | channels-last exactly when every offset is the N, H, W, C rank |
| Contiguity.ChannelsLast3dIffRank | c10/core/Contiguity.h:191-218 | channels-last-3d exactly when every offset is the N, D, H, W, C rank |
| Contiguity.ContiguousImpliesDense | c10/core/SymbolicShapeMeta.cpp:267-272 | without empty dimensions a contiguous layout passes the density test, so the short circuit is sound |
| Contiguity.ChannelsLastImpliesDense | c10/core/SymbolicShapeMeta.cpp:216-265 | the same for both channels-last layouts |
| Symbolic.SymInt.Mul | c10/core/SymInt.h:187-214 | the product means the product under every valuation, folded or as a node |
| Symbolic.SymInt.SymEq | c10/core/SymInt.h:246-252 | symbolic equality means equality under every valuation |
| Symbolic.SymBool.SymAnd | c10/core/SymBool.cpp:20-42 | conjunction under every valuation, constants folded on either side |
| Symbolic.SymBool.SymOr | c10/core/SymBool.cpp:20-42 | disjunction under every valuation |
| Symbolic.SymBool.SymNot | c10/core/SymBool.cpp:44-49 | negation under every valuation |
| Symbolic.Guards.GuardOrFalse | c10/core/SymBool.cpp:76-82 | a true answer holds under every allowed valuation |
| Symbolic.Guards.GuardOrTrue | c10/core/SymBool.cpp:92-98 | a false answer is false under every allowed valuation |
| Symbolic.Guards.GuardBool | c10/core/SymBool.cpp:60-66 | the answer is the value under every valuation consistent with what was asked |
| SymContiguity.ContiguousOrFalse | c10/core/Contiguity.h:44-78 | the fast path with its two expected strides says true only if every allowed valuation is contiguous; on plain integers it decides contiguity; on the strides that restriding writes it succeeds without knowing any size |
| SymContiguity.OrderCondition | c10/core/Contiguity.h:86-97 | the built expression holds in a valuation exactly when the concrete test does |
| SymContiguity.ComputeContiguousSym | c10/core/Contiguity.h:38-98 | the SymBool evaluates to the concrete answer under every allowed valuation, on both paths, and is the constant true on written strides |
| SymContiguity.MatchesOrderOrFalse | c10/core/Contiguity.h:142-159 | the channels-last fast path is never wrong when it says true, decides plain integers, and succeeds on written strides when the guards see through products |
| SymContiguity.ComputeChannelsLastContiguous2dSym | c10/core/Contiguity.h:135-186 | evaluates to the concrete channels-last answer under every allowed valuation |
| SymContiguity.ComputeChannelsLastContiguous3dSym | c10/core/Contiguity.h:220-271 | evaluates to the concrete channels-last-3d answer under every allowed valuation |
| SymContiguity.ComputeContiguousGuarded | c10/core/Contiguity.h:13-33 | the template on symbolic sizes answers right for every valuation that agrees with the guards it asked; so for the hinted one when guards answer from hints |
| SymContiguity.MatchesOrderGuarded | c10/core/Contiguity.h:103-130 | the same for the channels-last templates |
| SymDensity.StdSortGuarded | c10/core/Contiguity.h:286-294 | sorting with a guarding comparator leaves a permutation sorted in every valuation that agrees with its guards |
| SymDensity.ComputeNonOverlappingAndDenseGuarded | c10/core/Contiguity.h:273-307 | the density template on symbolic sizes decides bijectivity in every such valuation, and for the hinted one when guards answer from hints |
| MemoryFormat.GetChannelsLastStrides2d | c10/core/MemoryFormat.h:38-57 | ranks 4 and 3 get running products along the channels-last order, other ranks fail |
| MemoryFormat.GetChannelsLastStrides3d | c10/core/MemoryFormat.h:63-84 | ranks 5 and 4 likewise |
| MemoryFormat.IsChannelsLastStrides2dGuarded | c10/core/MemoryFormat.h:101-141 | accepts exactly: no empty dimension, each stride at least the span of the next faster one, positive channel stride, unambiguous batch stride |
| MemoryFormat.IsChannelsLastStrides3dGuarded | c10/core/MemoryFormat.h:143-167 | the same for rank 5 |
| MemoryFormat.WrittenStridesLook | c10/core/MemoryFormat.h:38-84 | written channels-last strides are recognised exactly on non-empty shapes whose faster dimensions hold more than one element |
| ShapeFlags.GlueOnNonEmpty | c10/core/SymbolicShapeMeta.cpp:216-272 | without empty dimensions the short-circuiting density flag is the density test |
| ShapeFlags.GlueExactly | c10/core/SymbolicShapeMeta.cpp:216-272 | for which sizes flag and test agree for all strides: none empty, or none above 1 |
| ShapeFlags.AssumedContiguityIsRight | c10/core/TensorImpl.cpp:1022-1045 | every contiguity or density flag that restriding assumes is what would be computed, all non-negative sizes |
| ShapeFlags.AssumedChannelsLastExactly | c10/core/TensorImpl.cpp:1028-1032 | the assumed is_channels_last is right exactly on non-degenerate shapes |
| ShapeFlags.AssumedChannelsLast3dExactly | c10/core/TensorImpl.cpp:1034-1038 | the assumed is_channels_last_3d likewise |
| ShapeFlags.AssumedExactlyTheMeant | c10/core/TensorImpl.cpp:1022-1045 | for each format restriding assumes exactly the flags that hold on all non-degenerate shapes with the format's strides |
| ShapeMeta.SymbolicShapeMeta.constructor | c10/core/SymbolicShapeMeta.h:204-216 | starts as one dimension of size 0 with nothing available |
| ShapeMeta.SymbolicShapeMeta.Copy | c10/core/SymbolicShapeMeta.cpp:9-27 | a copy publishes the same fields for the same shape and stays coherent |
| ShapeMeta.SymbolicShapeMeta.Get | c10/core/SymbolicShapeMeta.h:79-135 | a lazy accessor returns the flag's defining computation, only fills in missing fields and terminates along the dependency order of the initialisers |
| ShapeMeta.SymbolicShapeMeta.GetNumel | c10/core/SymbolicShapeMeta.h:79-84 | numel is the product of the current sizes |
| ShapeMeta.SymbolicShapeMeta.InitNumel | c10/core/SymbolicShapeMeta.cpp:337-339 | computes and publishes numel unless it was there |
| ShapeMeta.SymbolicShapeMeta.Init | c10/core/SymbolicShapeMeta.cpp:341-404 | dispatch on the rank, then publish; coherence is kept |
| ShapeMeta.SymbolicShapeMeta.SetFlag | c10/core/SymbolicShapeMeta.cpp:283-335 | the first published value stays |
| ShapeMeta.SymbolicShapeMeta.SetNumel | c10/core/SymbolicShapeMeta.cpp:274-281 | the same for numel |
| ShapeMeta.SymbolicShapeMeta.ComputeContiguous | c10/core/SymbolicShapeMeta.cpp:97-120 | symbolic answer, then eager answer when everything is hinted: either way the flag's meaning; hinted shapes get a constant, and unhinted ones ask no guard |
| ShapeMeta.SymbolicShapeMeta.ComputeChannelsLastContiguous2d | c10/core/SymbolicShapeMeta.cpp:122-145 | the same for channels-last |
| ShapeMeta.SymbolicShapeMeta.ComputeChannelsLastContiguous3d | c10/core/SymbolicShapeMeta.cpp:147-170 | the same for channels-last-3d |
| ShapeMeta.SymbolicShapeMeta.ComputeChannelsLastContiguous3dDim5 | c10/core/SymbolicShapeMeta.cpp:229-235 | the exclusion by the 2d flag does not change the answer |
| ShapeMeta.SymbolicShapeMeta.ComputeChannelsLast2dDim5 | c10/core/SymbolicShapeMeta.cpp:237-244 | on rank 5 the answer is the is_channels_last test's |
| ShapeMeta.SymbolicShapeMeta.ComputeChannelsLast3dDim5 | c10/core/SymbolicShapeMeta.cpp:246-251 | on rank 5 the answer is the is_channels_last_3d test's |
| ShapeMeta.SymbolicShapeMeta.ComputeIsNonOverlappingAndDenseDim4 | c10/core/SymbolicShapeMeta.cpp:216-227 | short circuits and disjunction give the density flag's meaning |
| ShapeMeta.SymbolicShapeMeta.ComputeIsNonOverlappingAndDenseDim5 | c10/core/SymbolicShapeMeta.cpp:253-265 | the same with three contiguity flags |
| ShapeMeta.SymbolicShapeMeta.ComputeIsNonOverlappingAndDenseAnyDim | c10/core/SymbolicShapeMeta.cpp:267-272 | the same with one |
| ShapeMeta.SymbolicShapeMeta.OrWithDensity | c10/core/SymbolicShapeMeta.cpp:224-226 | the disjunction of the flags read and the plain density test is the density flag, on ranks 4, 5 and all others |
| ShapeMeta.CombineRight | c10/core/SymbolicShapeMeta.cpp:216-272 | whatever right values an initialiser read, its expression over them and its own computation is its flag's meaning |
| ShapeMeta.ShortCutRight | c10/core/SymbolicShapeMeta.cpp:216-272 | taking the short circuit on any input is right |
| ShapeMeta.SymbolicShapeMeta.RefreshNumel | c10/core/SymbolicShapeMeta.h:32-36 | forgets numel and nothing else |
| ShapeMeta.SymbolicShapeMeta.RefreshContiguous | c10/core/SymbolicShapeMeta.h:38-47 | forgets all flags and keeps numel |
| ShapeRuns.ReadKeepsInv | c10/core/SymbolicShapeMeta.cpp:216-272 | an initialiser that reads a flag another thread published holds a right value, or a right short cut |
| ShapeRuns.LeafKeepsInv | c10/core/SymbolicShapeMeta.cpp:216-272 | a partly evaluated initialiser that adds its own computation holds its flag's meaning, and more guards asked harm no other job |
| ShapeRuns.StepKeepsInv | c10/core/SymbolicShapeMeta.cpp:274-404 | begin, read, compute, publish, copy, refresh and restride on any object keep every published field and every job of every object right |
| ShapeRuns.RunKeepsInv | c10/core/SymbolicShapeMeta.h:32-162 | in every state of every interleaved run, copies included, a published field is its defining computation on the current shape |
| ShapeRuns.PublishedIsStable | c10/core/SymbolicShapeMeta.cpp:274-335 | a published field does not change until the object's next refresh, so a flag read twice reads the same |
| ShapeRuns.SomeJobCanMove | c10/core/SymbolicShapeMeta.cpp:341-404 | the dependencies are well-founded: whichever initialiser one looks at, it or one it waits for can go on |
| ShapeWorkers.ComputeLeaf | c10/core/SymbolicShapeMeta.cpp:341-404 | the part of an initialiser that reads no flag has the value the machine's compute step needs, publishing nothing |
| ShapeWorkers.SharedMeta.ReadNext | c10/core/SymbolicShapeMeta.h:95-135 | reading a published flag of the object is the machine's read step |
| ShapeWorkers.SharedMeta.Compute | c10/core/SymbolicShapeMeta.cpp:97-272 | the computing methods of the class perform an enabled compute step |
| ShapeWorkers.SharedMeta.Publish | c10/core/SymbolicShapeMeta.cpp:283-335 | set_* is the commit step, the first one winning |
| ShapeWorkers.SharedMeta.Copy | c10/core/SymbolicShapeMeta.cpp:9-27 | a copy taken while initialisers run is coherent and publishes the same |
| ShapeWorkers.SharedMeta.Execute | c10/core/SymbolicShapeMeta.h:32-162 | every schedule of initialisers and shape changes on the class is a run of the machine and leaves every available flag right |
| TensorShape.RowMajorStrides | c10/core/TensorImpl.cpp:986-995 | the descending loop writes running products, empty dimensions counted as 1, in the very form the contiguity fast path recognises |
| TensorShape.EmptyTensorRestride | c10/core/TensorImpl.cpp:979-1046 | error cases by rank and format; otherwise the format's strides, sizes and numel kept, exactly the three (two for contiguous) named flags available and true, and the cache coherent |
| TensorShape.AssumedFlagsExactly | c10/core/TensorImpl.cpp:1022-1045 | when an assumed flag is right: valid strides, and a non-degenerate shape for the is_channels_last flags |
| TensorShape.RestridedCoherent | c10/core/TensorImpl.cpp:1017-1045 | restriding a shape with valid strides keeps the cache coherent |
| TensorShape.SetSizesAndStrides | c10/core/TensorImpl.cpp:910-950 | new shape, nothing published, or no change when metadata changes are not allowed |
| TensorShape.GenericSetSizesContiguous | c10/core/TensorImpl.cpp:952-977 | new sizes with row-major strides, contiguous and dense published, numel to be recomputed |
| PoolProtocol.StepKeepsInv | c10/core/thread_pool.cpp:89-164 | every critical section keeps the conservation of tasks, the exact complete_ flag and the wakeup invariant |
| PoolProtocol.RunKeepsInv | c10/core/thread_pool.cpp:89-164 | in every state of every run each submitted task is queued, running or finished exactly once, tasks start in FIFO order, available_ + running = total_, complete_ is exact, no wakeup is lost |
| PoolProtocol.WaitReturnsWhenDone | c10/core/thread_pool.cpp:100-103 | when waitWorkComplete returns, every task submitted so far has finished, once |
| PoolProtocol.TurnDecreases | c10/core/thread_pool.cpp:105-164 | a worker's turn decreases the measure; after shutdown it exits with the queue untouched |
| PoolProtocol.TurnsAreBounded | c10/core/thread_pool.cpp:105-164 | left alone, the workers take at most Measure many turns |
| PoolProtocol.QuietMeansDone | c10/core/thread_pool.cpp:54-69 | when no turn is left, a running pool has finished everything and a shut-down pool has no thread left |
| PoolProtocol.ShutdownStartsNothing | c10/core/thread_pool.cpp:54-69 | after running_ is cleared no task starts, in any run |
| PoolProtocol.StepMovesFew | c10/core/thread_pool.cpp:89-164 | a step moves its own thread and by notify_one at most one other; only shutdown wakes all sleepers |
| PoolProtocol.StrandingExactly | c10/core/thread_pool.cpp:155-158 | no waiter is ever left blocked on a complete pool exactly when there is at most one client |
| PoolProtocol.TwoWaitersStrand | c10/core/thread_pool.cpp:155-158 | the run that leaves the second of two waiters blocked |
| ThreadPool.ThreadPool.constructor | c10/core/thread_pool.cpp:33-52 | the initial protocol state, with the default size for a negative request |
| ThreadPool.ThreadPool.Run | c10/core/thread_pool.cpp:89-98 | fails on an empty pool, otherwise is the submit step |
| ThreadPool.ThreadPool.RunTaskWithID | c10/core/thread_pool.h:85-94 | is the submit step |
| ThreadPool.ThreadPool.MainLoopTurn | c10/core/thread_pool.cpp:105-164 | one round between taking and releasing the lock is the worker's turn; the task it starts is the next in order |
| ThreadPool.ThreadPool.WaitWorkComplete | c10/core/thread_pool.cpp:100-103 | returns only when all is finished once; blocks only when work is left |
| ThreadPool.ThreadPool.Shut | c10/core/thread_pool.cpp:54-60 | is the shutdown step |
| ThreadPool.ThreadPool.NumAvailable | c10/core/thread_pool.cpp:75-78 | the threads that run no task |
| DispatchKeys.RuntimeKeyRoundTrip | c10/core/DispatchKey.h:617-722 | functionality and backend of a runtime key give both back, for every layout of blocks |
| DispatchKeys.RuntimeKeyOnto | c10/core/DispatchKey.h:617-722 | the blocks leave no gap: encoding what a number decodes to gives the number back |
| DispatchKeys.CountPerBackend | c10/core/DispatchKey.h:572-579 | the counting loop finds every per-backend functionality |
| DispatchKeys.TorchIsValid | c10/core/DispatchKey.h:543-570 | the numbers of this repository meet all assumptions made about them; CPU is number 50 and the last runtime key 150 |
| DispatchTable.InsideFullIsSubset | c10/core/DispatchKeySet.h:177-178 | being inside FULL is having no bit beyond the functionalities |
| DispatchTable.InitializeFunctionalityOffsetsAndMasks | c10/core/DispatchKeySet.cpp:264-300 | the loop computes the closed form of every offset and mask, and its closing check holds |
| DispatchTable.GetDispatchTableIndex | c10/core/DispatchKeySet.h:484-495 | reading the table gives an index below num_runtime_entries |
| DispatchTable.HotPathRefinesPriority | c10/core/DispatchKeySet.h:403-495 | for every keyset inside FULL the hot-path index is the index of highestPriorityTypeId |
| DispatchTable.HighestPriorityIsTop | c10/core/DispatchKeySet.h:403-437 | the key of highest priority names the top functionality bit and, if that is per backend, the top backend bit, or no backend when there is none |
| DispatchTable.KeyBits | c10/core/DispatchKeySet.h:206-250 | the keyset of one key has the key's functionality bit and backend bit and no other |
| DispatchTable.SlotsAscend | c10/core/DispatchKeySet.cpp:264-300 | slots follow the order of functionality, then backend |
| DispatchTable.IndexOfKey | c10/core/DispatchKeySet.h:206-250 | a single runtime key lands in its own slot |
| DispatchTable.SlotsAreDistinct | c10/core/DispatchKeySet.cpp:264-300 | two runtime keys never share a slot |
| DispatchTable.SlotsFillTheTable | c10/core/DispatchKey.h:585-587 | the slots are exactly [0, num_runtime_entries) |
| KeyIterator.Iterator.Advance | c10/core/DispatchKeySet.cpp:183-262 | one increment yields the first of the keys still to come and leaves the rest, or reaches end(); before that it never equals end() |
| KeyIterator.Collect | c10/core/DispatchKeySet.h:616-627 | iteration terminates and lists exactly the runtime keys of the set, each once, ascending by functionality then backend |
| KeyIterator.LastIsHighestPriority | c10/core/DispatchKeySet.h:430-437 | the key of highest priority is the last one iteration yields, whenever the top functionality contributes one |
| KeyIterator.KeysFromMember | c10/core/DispatchKeySet.cpp:218-260 | the listing contains a key exactly when its functionality bit, and its backend bit if per-backend, is set |
| KeyIterator.KeysFromAscending | c10/core/DispatchKeySet.cpp:183-262 | the listing is strictly ascending |
| KeyIterator.StepBackend | c10/core/DispatchKeySet.cpp:232-253 | the mask update after a backend leaves exactly the keys after it |
| KeyIterator.SkipEmptyFunctionality | c10/core/DispatchKeySet.cpp:222-230 | a per-backend functionality without backend bits contributes no key |
| KeyIterator.DereferenceOk | c10/core/DispatchKeySet.h:579-604 | the order check of operator* never fails |
| SymIntWord.ClassesByTopBits | c10/core/SymInt.h:400-426 | a word is a node exactly when its top two bits are 10 |
| SymIntWord.InlineRange | c10/core/SymInt.h:366-376 | the integers stored inline are those from -2^62 up |
| SymIntWord.RoundTripExactly | c10/core/SymInt.h:86-95 | an address survives tagging and untagging exactly below 2^61 |
| SymIntWord.DecodeEncode | c10/core/SymInt.h:355-376 | packing a content and reading it back is the identity exactly on representable contents |
| SymIntWord.EncodeDecode | c10/core/SymInt.h:86-95 | which words are packings of what they read as |
| SymIntOwnership.Arena.FromInt | c10/core/SymInt.cpp:14-20 | every int64 reads back unchanged, inline or boxed in a node with count 1 |
| SymIntOwnership.Arena.FromNode | c10/core/SymInt.cpp:36-43 | the handle's reference is taken over, no count changes |
| SymIntOwnership.Arena.CopyConstruct | c10/core/SymInt.h:57-61 | same content, one more owner counted, every other SymInt untouched |
| SymIntOwnership.Arena.MoveConstruct | c10/core/SymInt.h:62-64 | the source becomes 0 and no count changes |
| SymIntOwnership.Arena.CopyAssign | c10/core/SymInt.h:66-75 | releases the old node and counts the new one, also on self-assignment |
| SymIntOwnership.Arena.MoveAssign | c10/core/SymInt.h:76-84 | the source is cleared exactly when it held a node and is another object |
| SymIntOwnership.Arena.Destroy | c10/core/SymInt.h:97-122 | gives one reference back |
| SymIntOwnership.Arena.ToSymNode | c10/core/SymInt.cpp:30-34 | one more handle on the same node |
| SymIntOwnership.Arena.Execute | c10/core/SymInt.h:42-122 | over any run the SymInts and handles hold what value semantics gives, each node's count is the number of its owners, and exactly the owned nodes are alive |
| SymIntOwnership.Arena.NothingLeaks | c10/core/SymInt.h:97-122 | when the last owner is gone no node is left |
| SharedStorage.Process.MaybeApplyRefcountedDeleter | c10/core/RefcountedDeleter.cpp:19-47 | wraps the owner once, runs no deleter, changes nothing on a second call or an access error |
| SharedStorage.Process.NewStorageImplFromRefcountedDataPtr | c10/core/RefcountedDeleter.cpp:49-77 | both storages carry the shared context, which counts one more; on errors no storage appears; the whole new state |
| SharedStorage.CloneMeans | c10/core/RefcountedDeleter.cpp:49-77 | the new storage has pointer, size, allocator and resizability of the old one; all other storages stay as they are |
| SharedStorage.Process.DropStorage | c10/core/RefcountedDeleter.cpp:7-15 | after a drop the deleter a context was created with has run once if nothing leads to it, else not at all, and no other deleter ever |
| SharedStorage.DropInv | c10/core/RefcountedDeleter.cpp:7-15 | dropping keeps every count equal to the storages carrying the context and every context in one place |
| SharedStorage.DeletedExactlyOnceAtTheEnd | c10/core/RefcountedDeleter.cpp:7-15 | the deleter the context was created with has run once if nothing leads to it any more and not at all before; no other deleter runs on it |
| SharedStorage.Process.Execute | c10/core/RefcountedDeleter.cpp:7-77 | over any sequential run of create, share, clone and drop the state is that of the operations in order, with both statements above |
| ConfigTokenizer.Tokenize | c10/core/AllocatorConfig.h:36-52 | a token list whose concatenation is the input without whitespace |
| ConfigTokenizer.TokensAreUnique | c10/core/AllocatorConfig.h:36-52 | a text has only one token list, so the tokenizer has no choice |
| ConfigTokenizer.TokenizeFlattened | c10/core/AllocatorConfig.h:36-52 | tokenizing the concatenation of a token list gives the list back |
| RoundupTable.AllocatorConfig.ParseRoundUpPower2Divisions | c10/core/AllocatorConfig.cpp:159-225 | the in-place parser leaves the table and position of the recursive one, also when it throws half-way |
| RoundupTable.AllocatorConfig.RoundupPower2Divisions | c10/core/AllocatorConfig.cpp:69-85 | the lookup reads the interval of the size, also for size 0 |
| RoundupTable.PowerOf2Iff | c10/core/AllocatorConfig.cpp:173-175 | the bit trick accepts exactly the powers of two |
| RoundupTable.ParseKeepsTable | c10/core/AllocatorConfig.cpp:159-225 | for any tokens the table keeps 16 entries, each 0 or a power of two |
| RoundupTable.AcceptedExactly | c10/core/AllocatorConfig.cpp:165-212 | which token lists are accepted, and where the parser stops: entries four tokens apart with acceptable boundaries and values, and a closing bracket behind the last value or one token later |
| RoundupTable.SeparatorsUnread | c10/core/AllocatorConfig.h:64-67 | table and end do not depend on what stands in the places of ':' and ',' |
| RoundupTable.WrongSeparatorsPass | c10/core/AllocatorConfig.cpp:165-212 | a list with any other separators is accepted like the well-formed one |
| RoundupTable.AcceptedTable | c10/core/AllocatorConfig.cpp:165-213 | after any accepted list, in any order and with ">" anywhere, each interval has the value of the last entry that covers it, or 0 |
| RoundupTable.ListMeans | c10/core/AllocatorConfig.cpp:159-225 | after a well-formed list: first value below 2*b1 MB, vj on [bj, 2*bj) MB, the rest value from 2*bk MB up and for size 0, 0 in gaps |
| RoundupTable.ListWithoutRestMeans | c10/core/AllocatorConfig.cpp:165-213 | a list without ">" looks up as with ">:0" |
| RoundupTable.RefusedHalfWay | c10/core/AllocatorConfig.cpp:168-193 | when a token is refused the parser throws and the entries before it stay in the table |
| RoundupTable.SingleValueMeans | c10/core/AllocatorConfig.cpp:214-222 | without brackets a power of two is looked up for every size, 0 included; anything else throws and changes nothing |
| RoundupTable.BoundaryInterval | c10/core/AllocatorConfig.cpp:190-192 | boundary 2^e has interval e, and all from 2^15 up share the last |
| RoundupTable.RestReachesExactly | c10/core/AllocatorConfig.cpp:178-185 | when the rest value reaches every size above the last boundary |
| RoundupText.TextHasTheseTokens | c10/core/AllocatorConfig.h:36-52 | the tokenizer can only return the intended tokens for the text of an option |
| RoundupText.OptionMeans | c10/core/AllocatorConfig.cpp:159-225 | printed numbers are read back, so the option's tokens give the stated lookup |
| RoundupText.Configure | c10/core/AllocatorConfig.cpp:159-225 | from the text "key:[b1:v1,...,bk:vk,>:w]" through tokenizer and parser to the lookup of every size |
| RoundupText.ConfigureAll | c10/core/AllocatorConfig.cpp:214-222 | from the text "key:v" to the lookup: v for every size exactly if v is a power of two below 2^64, else a throw |
| DeviceString.ParseSyntax | c10/core/Device.cpp:76-132 | the automaton accepts exactly the strings of the regular expression and returns their name and index |
| DeviceString.SplitUnique | c10/core/Device.cpp:80-82 | a string matches in one way only |
| DeviceString.ParseDevice | c10/core/Device.cpp:73-149 | every error case, and the device otherwise |
| DeviceString.TableInvertsNames | c10/core/Device.cpp:13-38 | the table finds the type of every lower-case type name but Metal's |
| DeviceString.FindTypeExactly | c10/core/Device.cpp:15-38 | the table answers a type exactly for its lower-case name, Metal's excepted, and nothing else |
| DeviceString.BareName | c10/core/Device.cpp:73-148 | a name alone gives its type without an index, a registered backend's name first |
| DeviceString.NumberedName | c10/core/Device.cpp:134-148 | a number beyond int is refused, any other is narrowed modulo 256 to the range of int8 |
| DeviceString.StrSplits | c10/core/Device.cpp:151-158 | a printed device splits into its type name and digits, or not at all |
| DeviceString.RoundTripExactly | c10/core/Device.cpp:73-158 | for every device and backend name: when parsing the printed form gives the device back |
| GuardScopes.RunRestores | c10/core/InferenceMode.h:81-84 | closing every guard of a nested run restores the starting state, whatever it was |
| GuardScopes.RunKeepsModes | c10/core/InferenceMode.h:54-84 | in every visited state inference mode is on exactly when ADInplaceOrView is not included and exactly when the autograd keys are excluded; ADInplaceOrView is never excluded |
| GuardScopes.InnermostGuardDecides | c10/core/GradMode.h:15-50 | in every visited state every autograd flag and every bit of both key sets is what the innermost enclosing guard that sets it asks for, or the start's |
| GuardScopes.InferenceModeFrame | c10/core/InferenceMode.h:54-74 | opening InferenceMode sets ADInplaceOrView and the autograd bits, keeps every other bit of both sets, backend bits included, and resets the autograd record |
| GuardScopes.GradGuardsCommute | c10/core/GradMode.h:23-49 | grad-mode destructors put back one flag each and can be run in any order |
| GuardScopes.DefaultModesAgree | c10/core/DispatchKeySet.h:650-686 | the default key sets satisfy all of this |
| GuardScopes.HasMinus | c10/core/DispatchKeySet.h:329-336 | removing keys removes functionality bits and nothing else |
| GuardScopes.ThreadLocals.OpenGuard | c10/core/InferenceMode.h:54-74 | the guard's constructor on the xor-encoded thread-local sets |
| GuardScopes.ThreadLocals.CloseGuard | c10/core/GradMode.h:23-25 | the destructors put back what the constructors saved |
| GuardScopes.ThreadLocals.Execute | c10/core/InferenceMode.h:54-84 | a block of nested guards on the real variables is the run of the model |
| DataLoader.DataLoader.Reset | gotorch.go:1646-1659 | a permutation of 0..n-1, in place the shuffle the loop defines |
| DataLoader.ShuffledSameItems | gotorch.go:1650-1657 | the shuffle loses and doubles nothing, whatever range it still has to do |
| DataLoader.ShuffledEntries | gotorch.go:1653-1656 | position i receives entry i * 6700417 mod (i + 1), whose place its own entry takes, and the positions below are shuffled alike |
| DataLoader.DataLoader.Next | gotorch.go:1664-1668 | the next batchSize indices in order, or those that are left |
| DataLoader.DataLoader.Epoch | gotorch.go:1646-1679 | draining fetches each index once, in order, in exactly Len() batches, all full but possibly the last |
| DataLoader.NextPosition | gotorch.go:1661-1668 | positions are multiples of the batch size until the end, which comes after Len() batches |

## Left out

- `_sym_non_overlapping_and_dense` on a Python node (`normalize_sym_sizes_strides`): a parameter that answers the density question soundly; used when a size or stride has no hint.
- Guard oracles are functions of the expression asked; that a guard is recorded and may specialise the program is modelled only by the set of expressions asked. A data-dependent error is a run in which no valuation is consistent.
- The six cache fields and their `available_` bits are one map and one set keyed by flag; the mutex is modelled by publishing, and copying, being one step each. The sequential methods of `ShapeMeta` read a flag once where the code reads it again in its expression; the jobs of `ShapeRuns` read it both times.
- ShapeRuns.RunKeepsInv: assumed is_channels_last flags are covered on non-degenerate shapes, and restriding on valid strides, only, as `TensorShape.AssumedFlagsExactly` demands; sizes and strides change only while no initialiser is in flight on the object, since those operations take no lock.
- ShapeWorkers.SharedMeta.Execute: one object per schedule; copies are objects of their own.
- TensorShape.GenericSetSizesContiguous: promises a coherent cache only when strides are valid; otherwise the two published flags are wrong by `TensorShape.AssumedFlagsExactly`.
- TensorShape.SetSizesAndStrides: storage offset, the all-integer fast path and the creation of fresh metadata for a dense or sparse tensor are not modelled; the refreshes come before the sizes are replaced, which ends in the same state.
- Overflow of `int64_t` in products of sizes and strides, and in the shuffle's `i * 6700417`.
- SymInt arithmetic other than multiplication, maximum and the comparisons the layout code uses; intrusive pointers other than by their counts; nodes that learn a constant value after their creation.
- The order in which the real `std::sort` compares; it may ask other guards than the insertion sort here, which changes the answers' conditions but not their form.
- The trimmed mobile dispatch table, alias keys and the functionality bit of `EndOfFunctionalityKeys`.
- Thread-pool scheduling fairness, the worker's init function, NUMA binding and joining in the destructor; pools of size 0 beyond refusing `run`.
- Materialisation and copy-on-write hooks of `StorageImpl`, warnings, allocator callbacks, concurrent calls of the refcounted deleter, and storages shared by intrusive pointer: a storage here is one `StorageImpl`.
- The remaining options of `parseArgs`, `skipKey` and the device-specific hook: one value each, checked against constants.
- Standard-library number parsing is modelled for decimal digits with leading sign; leading whitespace cannot occur in a token.
- `Device::validate` (debug builds only), warnings for "mkldnn", and locales other than C.
- Other `AutogradState` setters, TLS snapshots across threads, and the non-scoped key-set guards.
- DataLoader items and tensor stacking; a batch size below 1, with which `Len` divides by zero or `Next` does not advance.
- All calls into libtorch, layers, optimizers, schedulers, tools and finite name tables.

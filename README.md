# A verified model of the engine core

This project is a Dafny model of the core of a small C++ game engine and its
game. It covers:

- the bookkeeping arithmetic of the bundled rpmalloc allocator (size
  classes, span and page counts, the reallocation decision, high-water
  counters, the segment free-slot mask, the thread span cache, the
  heap-pointer tag bit);
- the integer and vector helpers of `Util.hpp`;
- the entity–component registry of `Scene` and `GameObject`, with its
  deferred init and kill queues, per-type component lists and two-phase
  message relay;
- the collision rules of `CollisionSystem`: weight routing, composition of
  deltas, grouping by weight and the nearest-hit pick;
- A* search, path reconstruction and closest-node search of
  `PathfindingComponent`, and the grid filter, outlier pruning and
  neighbour-graph building of `MapExploreComponent`;
- the particle activation ring of `ParticleEffect`;
- the index arrays built by `BounderShader`, the mesh cache and buffer
  concatenation of `Loader`, basename extraction and collider decisions
  of `FileReader`, and the toon-cell tables of `ParticleShader`;
- the lazily cached matrices of `SpatialComponent` and `Transform`, the
  previous/current tracking of `Positionable` and `Scaleable`;
- the registries `Depot`, `Library`, `GameLogicSystem`,
  `PathfindingSystem` and `PostCollisionSystem`;
- `Mouse`, the command-line scan `parseArgs`, and the grenade, stat and
  enemy components.

Pure code is modelled as datatypes, functions and lemmas. Code that
updates state in place is modelled as classes whose methods state their
new state in terms of a specification function, with the properties of
those functions proved as lemmas. Floating-point values are reals. Calls
into code that is not part of the model (geometric tests, normalisation,
JSON and OBJ parsing, message receivers) are parameters.

`GameObject::m_receivers` is held by the `Scene` model as a map from game
object to its receiver lists (`objectReceivers`), so that the relay can be
stated over one state.

## Model

| member | source | states |
|---|---|---|
| RpmallocSizeClasses.ConstantValues | src/Engine/ThirdParty/CoherentLabs_rpmalloc/rpmalloc.cpp:163-210 | the derived limits: 16 pages per span, 14 small classes, small limit 224, medium limit 2096, 74 classes, large limit 32720 |
| RpmallocSizeClasses.ClassIndex | src/Engine/ThirdParty/CoherentLabs_rpmalloc/rpmalloc.cpp:597-599 | for 1 ≤ size ≤ 2096 the raw index is a valid class whose base size holds the request while the previous class's does not |
| RpmallocSizeClasses.BaseSizeMonotone | src/Engine/ThirdParty/CoherentLabs_rpmalloc/rpmalloc.cpp:1245-1256 | the base sizes 16·(i+1) and 224+32·(i+1) capped at 2096 are positive and non-decreasing in the class index |
| RpmallocSizeClasses.AdjustSizeClass | src/Engine/ThirdParty/CoherentLabs_rpmalloc/rpmalloc.cpp:1209-1234 | adjusting class i sets 16 pages and (16·512−48)/size blocks, merges the preceding run of classes with equal block counts into it: it returns the run's start p, every class from p to i then holds class i's entry, every class from p to i−1 had 16 pages and i's block count before, class p−1 (if any) did not, classes below p and after i are unchanged, and the table invariant holds up to i |
| RpmallocSizeClasses.MergeRun | src/Engine/ThirdParty/CoherentLabs_rpmalloc/rpmalloc.cpp:1223-1233 | the walk overwrites exactly the run of directly preceding entries with the current class's page and block counts, and stops at the first that differs |
| RpmallocSizeClasses.MergeKeepsTable | src/Engine/ThirdParty/CoherentLabs_rpmalloc/rpmalloc.cpp:1223-1233 | the backward merge redirects a run to the current class only, so every entry still names a later-or-equal class of equal page and block counts |
| RpmallocSizeClasses.InitializeSizeClasses | src/Engine/ThirdParty/CoherentLabs_rpmalloc/rpmalloc.cpp:1245-1256 | after both loops the whole table satisfies the invariant |
| RpmallocSizeClasses.ServingClass | src/Engine/ThirdParty/CoherentLabs_rpmalloc/rpmalloc.cpp:597-602 | the class reached through `class_idx` is at or after the raw index and its size holds the request |
| RpmallocSizeClasses.TableClassesFit | src/Engine/ThirdParty/CoherentLabs_rpmalloc/rpmalloc.cpp:1209-1234 | size·block_count ≤ 8144 for every class, and the redirect target has the same page and block counts |
| RpmallocBlocks.SpanCount | src/Engine/ThirdParty/CoherentLabs_rpmalloc/rpmalloc.cpp:729-734 | the span count is the ceiling of (size+48 mod 2^64)/8192: enough spans, one fewer would not be, and at least one unless the sum wraps |
| RpmallocBlocks.PageCount | src/Engine/ThirdParty/CoherentLabs_rpmalloc/rpmalloc.cpp:1089-1093 | the page count is the ceiling of (size+48 mod 2^64)/512, and those pages fit in the 64-bit address space |
| RpmallocBlocks.LargeSpanCountRange | src/Engine/ThirdParty/CoherentLabs_rpmalloc/rpmalloc.cpp:729-735 | a large request needs between 1 and 4 spans, so its cache index is in range |
| RpmallocBlocks.UsableSize | src/Engine/ThirdParty/CoherentLabs_rpmalloc/rpmalloc.cpp:1186-1205 | a small or medium block reports its class size |
| RpmallocBlocks.AllocatedHeader | src/Engine/ThirdParty/CoherentLabs_rpmalloc/rpmalloc.cpp:1083-1101 | the span header written by `_memory_allocate`: a heap-owned small/medium class, a heap-owned large class, or heap id 0 with a page count for oversized requests |
| RpmallocBlocks.UsableSizeCoversRequest | src/Engine/ThirdParty/CoherentLabs_rpmalloc/rpmalloc.cpp:1186-1205 | the usable size reported for a fresh allocation is at least the requested size, whenever size+48 does not wrap |
| RpmallocBlocks.WrappedRequestGetsOnePage | src/Engine/ThirdParty/CoherentLabs_rpmalloc/rpmalloc.cpp:1089-1093 | a request of 2^64−1 bytes wraps to a one-page block of 464 usable bytes |
| RpmallocBlocks.WrappedReallocKeeps | src/Engine/ThirdParty/CoherentLabs_rpmalloc/rpmalloc.cpp:1145-1152 | reallocating a one-span large block to 2^64−1 bytes keeps it in place, though it holds 8144 bytes |
| RpmallocBlocks.Reallocate | src/Engine/ThirdParty/CoherentLabs_rpmalloc/rpmalloc.cpp:1129-1182 | for every 64-bit size: a small or medium block stays in place exactly when its class size holds the new size; a large block exactly when its span count c satisfies needed ≤ c and c/2 ≤ needed, where needed is the new size in spans; a huge block the same with page counts |
| RpmallocBlocks.ReallocateMoves | src/Engine/ThirdParty/CoherentLabs_rpmalloc/rpmalloc.cpp:1129-1182 | otherwise the block allocated is max(size, lower bound of the old size), where the old size is the usable size when none is passed; min(old size, size) bytes are copied unless there is no old block or no-preserve is set; the old block is freed exactly when there was one |
| RpmallocHeap.SpanCounter.Increase | src/Engine/ThirdParty/CoherentLabs_rpmalloc/rpmalloc.cpp:415-424 | the current count rises by one (uint32 wrap), the high-water mark, cache limit max/16 and global mark follow it only when it passes the mark, and global ≥ max is kept |
| RpmallocHeap.Heap.CacheInsert | src/Engine/ThirdParty/CoherentLabs_rpmalloc/rpmalloc.cpp:896-931 | the span becomes the head with list size old+1; past 16 and the cache limit exactly the first 8 spans are released and the new head records the remaining count |
| RpmallocHeap.Heap.CacheExtract | src/Engine/ThirdParty/CoherentLabs_rpmalloc/rpmalloc.cpp:668-688 | the head is taken, the next span becomes the head with list size one less, an empty cache yields null |
| RpmallocHeap.LargeCacheIndex | src/Engine/ThirdParty/CoherentLabs_rpmalloc/rpmalloc.cpp:780-783 | the search starts at num_spans−1, skips only empty caches and stops at a non-empty one, the last class or num_spans+1 |
| RpmallocSegments.Segment.GetSpan | src/Engine/ThirdParty/CoherentLabs_rpmalloc/rpmalloc.cpp:1499-1535 | a full mask yields no span and no change; otherwise exactly the lowest clear bit is set and its index returned |
| RpmallocSegments.Segment.ReturnSpan | src/Engine/ThirdParty/CoherentLabs_rpmalloc/rpmalloc.cpp:1536-1547 | exactly the span's bit is cleared, and the result says whether the mask became empty |
| RpmallocSegments.GetThenReturnRestores | src/Engine/ThirdParty/CoherentLabs_rpmalloc/rpmalloc.cpp:1499-1547 | taking a free slot and returning it restores the mask |
| RpmallocSegments.MarkHeapInUse | src/Engine/ThirdParty/CoherentLabs_rpmalloc/rpmalloc.cpp:1365-1367 | the tagged pointer is in use and untags to the same pointer |
| RpmallocSegments.UnmarkHeapInUse | src/Engine/ThirdParty/CoherentLabs_rpmalloc/rpmalloc.cpp:1369-1371 | the untagged pointer is not in use, and an untagged pointer is unchanged |
| RpmallocSegments.MarkUnmarkRoundTrip | src/Engine/ThirdParty/CoherentLabs_rpmalloc/rpmalloc.cpp:1361-1371 | tagging then untagging an aligned heap pointer gives it back, and tagging is idempotent through untagging |
| Util.Pow2 | src/Engine/Util/Util.hpp:270-273 | 1 shifted left by v is a non-zero power of two |
| Util.IsPow2Shift | src/Engine/Util/Util.hpp:275-278 | every single-bit value passes `isPow2` |
| Util.IsPow2Exact | src/Engine/Util/Util.hpp:275-297 | `isPow2(v)` holds exactly for 0 and for 1 shifted by log2Floor(v) |
| Util.Log2Floor | src/Engine/Util/Util.hpp:280-297 | the result is below 64 |
| Util.Log2FloorBounds | src/Engine/Util/Util.hpp:280-297 | for v ≥ 1, 2^k ≤ v < 2^(k+1) with k = log2Floor(v) |
| Util.Log2FloorOfZero | src/Engine/Util/Util.hpp:280-297 | log2Floor(0) is 0 |
| Util.Log2Ceil | src/Engine/Util/Util.hpp:299-302 | log2Ceil is log2Floor(2v−1): below 64, and 63 for v = 0 where 2v−1 wraps |
| Util.Floor2 | src/Engine/Util/Util.hpp:304-307 | a non-zero power of two ≤ v whose double exceeds v |
| Util.Ceil2 | src/Engine/Util/Util.hpp:309-312 | a non-zero power of two |
| Util.Ceil2Covers | src/Engine/Util/Util.hpp:299-312 | for 1 ≤ v ≤ 2^63 with k = log2Ceil(v): v ≤ 2^k = ceil2(v) and, when k > 0, 2^(k−1) < v, so ceil2 is the least power of two not below v |
| Util.Ceil2Above | src/Engine/Util/Util.hpp:299-312 | for 1 ≤ v ≤ 2^63, v ≤ ceil2(v) |
| Util.Ceil2Least | src/Engine/Util/Util.hpp:299-312 | for 1 ≤ v ≤ 2^63, the power of two one below ceil2(v) is less than v |
| Util.Truncate | src/Engine/Util/Util.hpp:249-251 | conversion to `nat` truncates toward zero |
| Util.Floor | src/Engine/Util/Util.hpp:248-252 | floor(v) ≤ v < floor(v)+1, negative values included |
| Util.Ceil | src/Engine/Util/Util.hpp:259-263 | ceil(v)−1 < v ≤ ceil(v) |
| Util.IntegralOverloadsAgree | src/Engine/Util/Util.hpp:254-268 | the integral overloads are the identity and agree with the floating ones on integers |
| Util.SumAppend | src/Engine/Util/Util.hpp:63-68 | the reference sum distributes over concatenation |
| Util.PairwiseSumIsSum | src/Engine/Util/Util.hpp:63-68 | the split at n/2 and (n+1)/2 covers vals[0..n) exactly, so pairwiseSum equals the plain sum |
| Util.RemoveAllAgainst | src/Engine/Util/Util.hpp:149-155 | a vector not pointing against norm is returned unchanged |
| Util.RemoveAllAgainstClamps | src/Engine/Util/Util.hpp:149-155 | for a unit norm the result never points against it, and the component against it is removed exactly |
| Util.SafeNorm | src/Engine/Util/Util.hpp:175-180 | the zero vector maps to zero, any other to its normalisation |
| Seqs.FindFirst | src/Engine/GameObject/GameObject.cpp:22-27 | the forward search finds x iff present, at its first index |
| Seqs.FindLast | src/Engine/GameObject/GameObject.cpp:32-37 | the backward search finds x iff present, at its last index |
| Seqs.RemoveOneCopy | src/Engine/GameObject/GameObject.cpp:20-38 | erasing the first or last occurrence removes exactly one copy, and nothing when absent |
| Seqs.AppendThenRemove | src/Engine/GameObject/GameObject.cpp:12-38 | erasing the last occurrence of an appended element undoes the append |
| Entities.Attach | src/Engine/GameObject/GameObject.cpp:12-18 | the component is appended to the all-list and its type list, the type becomes a key of the map, no other type list changes, and the spatial pointer becomes the component when the type is SpatialComponent and is otherwise left as it was |
| Entities.DetachRemovesOneCopy | src/Engine/GameObject/GameObject.cpp:20-42 | removal drops one copy from the all-list and from an existing type list, keeps the other lists and keys, and clears the spatial pointer iff it pointed at the component |
| Entities.DetachAbsent | src/Engine/GameObject/GameObject.cpp:20-42 | removing an absent component changes nothing |
| Entities.AttachThenDetach | src/Engine/GameObject/GameObject.cpp:12-42 | adding then removing a new component restores both collections (an unseen type keeps an empty list) |
| Entities.GameObject.AddComponent | src/Engine/GameObject/GameObject.cpp:12-18 | the object's new state is the attach of the old |
| Entities.GameObject.RemoveComponent | src/Engine/GameObject/GameObject.cpp:20-42 | the object's new state is the detach of the old |
| Scene.Scene.CreateGameObject | src/Engine/Scene/Scene.cpp:60-63 | one new empty object is appended to the init queue and returned; nothing else changes |
| Scene.Scene.DestroyGameObject | src/Engine/Scene/Scene.cpp:65-67 | only the kill queue grows, by the object |
| Scene.Scene.AddComponentAs | src/Engine/Scene/Scene.hpp:122-130 | exactly one (SuperT, new component) entry is appended to the component init queue |
| Scene.Scene.AddComponent | src/Engine/Scene/Scene.hpp:117-120 | the same with SuperT = CompT |
| Scene.Scene.RemoveComponent | src/Engine/Scene/Scene.hpp:132-138 | exactly one entry is appended to the component kill queue |
| Scene.Scene.SendMessage | src/Engine/Scene/Scene.hpp:140-145 | exactly one message is appended to the message buffer |
| Scene.Scene.AddReceiver | src/Engine/Scene/Scene.hpp:147-157 | the receiver joins the object's list for the type when the object is non-null, the scene-level list otherwise |
| Scene.Scene.GetComponents | src/Engine/Scene/Scene.hpp:159-172 | an unseen type gets an empty list; the list returned is the registered one and nothing else changes |
| Scene.Scene.InitGameObjects | src/Engine/Scene/Scene.cpp:148-154 | queued objects join the active list in queue order, one init message each, and the queue empties |
| Scene.Scene.InitComponents | src/Engine/Scene/Scene.cpp:156-179 | every queued component is attached to its object and appended to its type's list in queue order, with one added message each, and the queue empties |
| Scene.RegisterAppendsInOrder | src/Engine/Scene/Scene.cpp:156-179 | each type list grows by exactly the queued components of that type, in order, creating the list when absent |
| Scene.AttachAllAppends | src/Engine/Scene/Scene.cpp:156-179 | attaching a queue appends its components to the object's all-list and type lists in order |
| Scene.Scene.KillGameObjects | src/Engine/Scene/Scene.cpp:181-210 | each killed active object is erased (last match) from the active list and its components queued for killing; others are erased from the init queue; the kill queue empties |
| Scene.Scene.KillNext | src/Engine/Scene/Scene.cpp:183-208 | one pass of the loop extends the processed prefix of the kill queue by one object and keeps the collected entries equal to those held by the objects killed so far |
| Scene.Scene.KillObject | src/Engine/Scene/Scene.cpp:184-207 | one kill-queue entry: active iff erased from the active list, and the component kill queue gains exactly its components |
| Scene.KillObjectsRemovesAll | src/Engine/Scene/Scene.cpp:181-210 | no killed object remains active or pending, no duplicates appear, and active plus killed is the old active list |
| Scene.Scene.KillComponents | src/Engine/Scene/Scene.cpp:212-241 | each killed component is erased from its type list with a removed message, or else from the init queue; both kill queues empty |
| Scene.KillComponentsRemovesAll | src/Engine/Scene/Scene.cpp:212-241 | no killed component stays under its type, lists only shrink, and at most one message per entry is sent |
| Scene.Scene.DoKillQueue | src/Engine/Scene/Scene.cpp:138-146 | the queued components are removed from their objects; the objects are killed; then the component queue, extended by every component of a killed object, is processed: components, pending components and messages are what processing that queue gives, and (with duplicate-free type lists) every such component has left its type's list; both queues end empty and receivers are untouched |
| Scene.Scene.KillObjectsThenComponents | src/Engine/Scene/Scene.cpp:143-145 | the object kill pass then the component kill pass, stated as above for the queue the object pass leaves |
| Scene.KilledWereActive | src/Engine/Scene/Scene.cpp:181-198 | only objects active before the kill pass are killed, and the active list only shrinks |
| Scene.Scene.RelayMessages | src/Engine/Scene/Scene.cpp:243-274 | rounds run until the buffer is empty (within the fuel); round k+1 is exactly what the receivers of round k sent; the relay itself changes only the buffer, since receivers are modelled as pure responders |
| Scene.RelayRound | src/Engine/Scene/Scene.cpp:249-271 | one round delivers every buffered message to its object's receivers and then the scene's, collecting their messages in order |
| Scene.DeliveriesComplete | src/Engine/Scene/Scene.cpp:249-271 | a receiver is called with a message iff the message was buffered and the receiver is registered for it |
| Scene.SilentReceiversSendNothing | src/Engine/Scene/Scene.cpp:243-274 | receivers that send nothing end the relay after one round |
| CollisionSystem.Received | src/Engine/System/CollisionSystem.cpp:45-70 | a side receives at most one pair, iff it was hit, both weights are non-zero, it is not heavier and not immovable; the pair carries the other weight |
| CollisionSystem.Route | src/Engine/System/CollisionSystem.cpp:37-73 | two immovable bounders leave the map alone and report no hit; otherwise each side's list grows by what it receives (b2's delta negated), others are unchanged |
| CollisionSystem.EqualWeightsSplitEvenly | src/Engine/System/CollisionSystem.cpp:66-70 | equal weights give each side half the delta with opposite signs |
| CollisionSystem.HeavierNeverReceives | src/Engine/System/CollisionSystem.cpp:58-65 | the heavier bounder never receives a delta |
| CollisionSystem.Collide | src/Engine/System/CollisionSystem.cpp:37-73 | with no map only the hit is returned; with a map its new entries are the routing of the old |
| CollisionSystem.CompositeComponent | src/Engine/System/CollisionSystem.cpp:76-92 | per component: max of two positives, min of two negatives, sum otherwise |
| CollisionSystem.CompositeDeltasLaws | src/Engine/System/CollisionSystem.cpp:76-92 | compositeDeltas is commutative, has zero as identity and is idempotent |
| CollisionSystem.CompositeDeltasNotAssociative | src/Engine/System/CollisionSystem.cpp:76-92 | the fold order matters: a concrete triple associates differently |
| CollisionSystem.LastGroupStart | src/Engine/System/CollisionSystem.cpp:105-135 | the start of the final run of equal weights |
| CollisionSystem.OneWeightNetDelta | src/Engine/System/CollisionSystem.cpp:105-135 | with one weight the net delta is the compositeDeltas fold of all deltas |
| CollisionSystem.InsertLastSorted | src/Engine/System/CollisionSystem.cpp:109 | inserting into a sorted list keeps it sorted and adds exactly the element |
| CollisionSystem.SortBy | src/Engine/System/CollisionSystem.cpp:109 | sorting is a permutation |
| CollisionSystem.SortBySorted | src/Engine/System/CollisionSystem.cpp:109 | the result is sorted by the key |
| CollisionSystem.SortOneWeight | src/Engine/System/CollisionSystem.cpp:109 | a list of one weight is left as it is |
| CollisionSystem.StoredKey | src/Engine/System/CollisionSystem.cpp:95-97 | the weight as stored in an int: unchanged below 2^31, negative above |
| CollisionSystem.ImmovableSortsFirst | src/Engine/System/CollisionSystem.cpp:95-109 | as written, an immovable (UINT_MAX) entry sorts before weight 5 |
| CollisionSystem.WeightKey | src/Engine/System/CollisionSystem.cpp:95-97 | the corrected key is the unsigned weight itself |
| CollisionSystem.ImmovableSortsLast | src/Engine/System/CollisionSystem.cpp:95-109 | with the corrected key every immovable entry sorts after every movable one |
| CollisionSystem.SortedWeightsAscend | src/Engine/System/CollisionSystem.cpp:105-109 | after sorting, weights ascend |
| CollisionSystem.DetNetDelta | src/Engine/System/CollisionSystem.cpp:105-135 | the net delta of the list sorted by the given key (StoredKey as written, WeightKey as corrected), group by group; zero for an empty list; the fold of all deltas for a single weight |
| CollisionSystem.FirstRun | src/Engine/System/CollisionSystem.cpp:113-119 | the first loop stops exactly at the end of the leading run of equal weights and folds that run's deltas |
| CollisionSystem.ClampRun | src/Engine/System/CollisionSystem.cpp:113-131 | the inner loop consumes exactly one run of equal weights, folding its deltas and clamping the net against each |
| CollisionSystem.Pick | src/Engine/System/CollisionSystem.cpp:331-375 | null iff no bounder passes the filter and is hit; otherwise a passing bounder with least distance, the earliest on ties |
| Pathfinding.HeuristicIsMetric | src/Engine/Component/PathfindingComponents/PathfindingComponent.cpp:100-102 | the Manhattan heuristic is symmetric, zero exactly on equal points and obeys the triangle inequality |
| Pathfinding.HeuristicStep | src/Engine/Component/PathfindingComponents/PathfindingComponent.cpp:100-102 | a unit step changes the heuristic by at most one (it is consistent) |
| Pathfinding.ClosestNoneEligible | src/Engine/Component/PathfindingComponents/PathfindingComponent.cpp:182-197 | with no key within abs(Δy) < 3 the result is the zero vector |
| Pathfinding.ClosestIsNearest | src/Engine/Component/PathfindingComponents/PathfindingComponent.cpp:182-197 | otherwise the result is an eligible key of least squared distance |
| Pathfinding.ClosestIsFirst | src/Engine/Component/PathfindingComponents/PathfindingComponent.cpp:182-197 | ties go to the first key in iteration order |
| Pathfinding.ClosestPos | src/Engine/Component/PathfindingComponents/PathfindingComponent.cpp:182-197 | the loop computes that closest key |
| Pathfinding.MinIndex | src/Engine/Component/PathfindingComponents/PathfindingComponent.cpp:129-131 | the frontier pop takes an entry of least priority |
| Pathfinding.WalkReachesStart | src/Engine/Component/PathfindingComponents/PathfindingComponent.cpp:121-151 | in the search tree every reached node leads back to the start along cameFrom within its cost |
| Pathfinding.Relax | src/Engine/Component/PathfindingComponents/PathfindingComponent.cpp:139-147 | a neighbour's cost and cameFrom are written together, only when absent or strictly lower, to cost[current]+1 and current |
| Pathfinding.RelaxKeepsTree | src/Engine/Component/PathfindingComponents/PathfindingComponent.cpp:139-147 | relaxation keeps cost and cameFrom a search tree rooted at the start |
| Pathfinding.AStarSearch | src/Engine/Component/PathfindingComponents/PathfindingComponent.cpp:117-153 | seeds the closest node to start with cost 0; cost and cameFrom stay a search tree; Found means the end node was reached; Exhausted means the end node's closest node was never reached and every neighbour of a reached node was itself reached |
| Pathfinding.ReconstructPath | src/Engine/Component/PathfindingComponents/PathfindingComponent.cpp:155-180 | the path starts at the start node, consecutive nodes follow cameFrom, it is no longer than |cameFrom|+1, and ends at the end node when that differs from start |
| Pathfinding.ReversedLinks | src/Engine/Component/PathfindingComponents/PathfindingComponent.cpp:164-179 | reversing the backward walk gives a path whose links point back along cameFrom |
| MapExplore.ValidNeighborOnGrid | src/Engine/Component/MapExploreComponents/MapExploreComponent.cpp:310-326 | on integer cells the real-valued test is abs(Δx) ≤ step, abs(Δz) ≤ step and abs(Δy) < 0.5 |
| MapExplore.GridCells | src/Engine/Component/MapExploreComponents/MapExploreComponent.cpp:329-339 | exactly the cells with the given x and z |
| MapExplore.GridFind | src/Engine/Component/MapExploreComponents/MapExploreComponent.cpp:329-339 | the loop returns those cells |
| MapExplore.CountBounds | src/Engine/Component/MapExploreComponents/MapExploreComponent.cpp:289-305 | the contiguity count of a present cell lies in [4, 20] |
| MapExplore.IsolatedCount | src/Engine/Component/MapExploreComponents/MapExploreComponent.cpp:289-305 | a cell with no same-y axis neighbour counts exactly 4 |
| MapExplore.RunMonotone | src/Engine/Component/MapExploreComponents/MapExploreComponent.cpp:289-305 | erasing cells can only lower a run |
| MapExplore.CountNeighbours | src/Engine/Component/MapExploreComponents/MapExploreComponent.cpp:289-301 | the loops compute the four-direction count |
| MapExplore.PruneOnlyErases | src/Engine/Component/MapExploreComponents/MapExploreComponent.cpp:287-306 | removeOutliers only erases: the result is among the input and keeps no duplicates |
| MapExplore.IsolatedCellErased | src/Engine/Component/MapExploreComponents/MapExploreComponent.cpp:289-305 | an isolated cell is always erased |
| MapExplore.RemoveOutliers | src/Engine/Component/MapExploreComponents/MapExploreComponent.cpp:279-307 | the pass keeps a cell iff its count at the time it is examined reaches 6 |
| MapExplore.Candidate | src/Engine/Component/MapExploreComponents/MapExploreComponent.cpp:187-213 | at most one neighbour per direction: the same-y candidate of two first, else the second, each only when valid |
| MapExplore.NeighboursUpTo | src/Engine/Component/MapExploreComponents/MapExploreComponent.cpp:187-213 | at most one valid neighbour per direction, all present in the set |
| MapExplore.ChooseNeighbor | src/Engine/Component/MapExploreComponents/MapExploreComponent.cpp:191-212 | the branches for one direction append exactly the candidate that Candidate chooses |
| MapExplore.FindNeighbours | src/Engine/Component/MapExploreComponents/MapExploreComponent.cpp:187-213 | the eight-direction loop computes those neighbours |
| MapExplore.BuildGraph | src/Engine/Component/MapExploreComponents/MapExploreComponent.cpp:183-218 | a cell enters the graph iff it has more than four neighbours, with those neighbours; existing entries are kept |
| Particles.MakeParticle | src/Engine/Component/ParticleComponents/ParticleEffect.cpp:212-239 | id i, life 0, active iff rate is 0, orientation 0 without orientations and below their count otherwise |
| Particles.FirstOrientations | src/Engine/Component/ParticleComponents/ParticleEffect.cpp:219-231 | the first `orientations` particles get their own index as orientation |
| Particles.ActiveIds | src/Engine/Component/ParticleComponents/ParticleEffect.cpp:298-306 | every listed id is an active particle |
| Particles.ActiveEntries | src/Engine/Component/ParticleComponents/ParticleEffect.cpp:278-306 | the three builders give equal lengths and entry k is the position and orientation of the k-th active particle |
| Particles.ActiveIdsAscend | src/Engine/Component/ParticleComponents/ParticleEffect.cpp:298-306 | active ids are listed in index order |
| Particles.ActiveIdsComplete | src/Engine/Component/ParticleComponents/ParticleEffect.cpp:298-306 | every active particle is listed |
| Particles.GeneratedAt | src/Engine/Component/ParticleComponents/ParticleEffect.cpp:202-209 | particle k of a fresh pool is the one made with id k |
| Particles.GeneratedActivity | src/Engine/Component/ParticleComponents/ParticleEffect.cpp:202-239 | a fresh set is all active at rate 0 and all inactive otherwise |
| Particles.NextActivation | src/Engine/Component/ParticleComponents/ParticleEffect.cpp:308-315 | 0 at rate 0, else 1/rate |
| Particles.NextId | src/Engine/Component/ParticleComponents/ParticleEffect.cpp:107-116 | the next id is back+1 wrapping to 0 at n, and below n |
| Particles.SurvivorsAgree | src/Engine/Component/ParticleComponents/ParticleEffect.cpp:88-97 | the three lists are filtered alike, keeping exactly the ids whose life does not exceed the particle duration |
| Particles.ParticleEffect.constructor | src/Engine/Component/ParticleComponents/ParticleEffect.cpp:11-23 | for any rate and pool size, the fields are the generated particles, their active lists, the first activation time and life 0 |
| Particles.ParticleEffect.RemoveActiveParticle | src/Engine/Component/ParticleComponents/ParticleEffect.cpp:128-132 | position i is erased from all three lists and nothing else changes |
| Particles.ParticleEffect.AddActiveParticle | src/Engine/Component/ParticleComponents/ParticleEffect.cpp:135-139 | the particle is appended to all three lists |
| Particles.ParticleEffect.ExpireParticles | src/Engine/Component/ParticleComponents/ParticleEffect.cpp:87-97 | the expiry pass leaves exactly the survivors, in order, in all three lists |
| Particles.ParticleEffect.ActivateOne | src/Engine/Component/ParticleComponents/ParticleEffect.cpp:100-120 | at capacity the front id is recycled to the back; otherwise the next id is appended; the activation time advances by 1/rate and the count stays ≤ n; the new ring state is `Activated` of the old one |
| Particles.ParticleEffect.UpdateActiveParticles | src/Engine/Component/ParticleComponents/ParticleEffect.cpp:83-124 | at rate 0 nothing changes; otherwise the new state is the expiry pass followed by exactly the activations due: k of them, where life ≤ next activation after k and life > next activation after k−1 |
| Particles.ParticleEffect.ActivateDue | src/Engine/Component/ParticleComponents/ParticleEffect.cpp:99-121 | the new state is k activations of the old one, for the least k after which life ≤ next activation |
| Particles.ParticleEffect.DueUnique | src/Engine/Component/ParticleComponents/ParticleEffect.cpp:99-121 | at most one activation count is due, so the loop's result is determined by the ring and the age |
| Particles.ParticleEffect.NotDueAbove | src/Engine/Component/ParticleComponents/ParticleEffect.cpp:99-121 | once life ≤ next activation, no larger count is due |
| Particles.ParticleEffect.Expired | src/Engine/Component/ParticleComponents/ParticleEffect.cpp:87-97 | the expiry pass keeps the pool and the next activation time and leaves a ring within capacity |
| Particles.ParticleEffect.ExpiredMembers | src/Engine/Component/ParticleComponents/ParticleEffect.cpp:87-97 | an id survives the expiry pass exactly when it was active and its particle's life does not exceed the particle duration |
| Particles.ParticleEffect.Activated | src/Engine/Component/ParticleComponents/ParticleEffect.cpp:100-120 | one activation keeps the ring within capacity, recycling at n and growing by one below it |
| Particles.ParticleEffect.Activations | src/Engine/Component/ParticleComponents/ParticleEffect.cpp:99-121 | k activations leave min(count + k, n) active |
| Particles.ParticleEffect.ActivationsSchedule | src/Engine/Component/ParticleComponents/ParticleEffect.cpp:120 | k activations move the next activation time on by k/rate |
| Particles.RateStep | src/Engine/Component/ParticleComponents/ParticleEffect.cpp:99-121 | each activation brings the next activation time one period closer to the effect's age, so the loop ends |
| Particles.NegativeRateNeverCatchesUp | src/Engine/Component/ParticleComponents/ParticleEffect.cpp:99-121 | with a negative rate and life past the next activation, life stays past it after any number of passes: the loop does not end |
| Particles.PositiveRateCatchesUp | src/Engine/Component/ParticleComponents/ParticleEffect.cpp:99-121 | with a positive rate some number of passes brings the next activation time up to life |
| Particles.ParticleEffect.MoveActive | src/Engine/Component/ParticleComponents/ParticleEffect.cpp:59-64 | the new ring state is `MoveOne` of the old: one active particle accelerated, moved and aged by dt, and its position entry updated |
| Particles.ParticleEffect.MoveOne | src/Engine/Component/ParticleComponents/ParticleEffect.cpp:59-64 | moving one particle keeps the active ids, orientations and activation time |
| Particles.ParticleEffect.Moved | src/Engine/Component/ParticleComponents/ParticleEffect.cpp:59-65 | the motion loop keeps the active ids, orientations and activation time |
| Particles.ParticleEffect.MovedUntouched | src/Engine/Component/ParticleComponents/ParticleEffect.cpp:59-65 | particles not listed in the positions moved are left as they were |
| Particles.ParticleEffect.MoveAll | src/Engine/Component/ParticleComponents/ParticleEffect.cpp:59-65 | the loop leaves the ring as `Moved` over every active position |
| Particles.ParticleEffect.LiveUpdate | src/Engine/Component/ParticleComponents/ParticleEffect.cpp:57-66 | the live branch leaves the ring as `Lived`: the expiry pass and exactly the due activations, then every active particle moved |
| Particles.ParticleEffect.UpdateOnce | src/Engine/Component/ParticleComponents/ParticleEffect.cpp:54-81 | life grows by dt; while the effect lasts the ring is `Lived` of the old one with the due activation count; a finished non-looping effect is otherwise untouched; a looping one at rate 0 is regenerated at age 0, and one with a rate has its duration extended by its age; a further pass is asked for exactly in the loop branch |
| Particles.ParticleEffect.Update | src/Engine/Component/ParticleComponents/ParticleEffect.cpp:54-81 | passes repeated while the loop branch asks for one; a lasting or non-looping effect takes a single pass, stated as for UpdateOnce |
| Particles.ParticleEffect.Restart | src/Engine/Component/ParticleComponents/ParticleEffect.cpp:68-75 | the rate-0 loop branch regenerates every field as the constructor does |
| Particles.GenerateParticles | src/Engine/Component/ParticleComponents/ParticleEffect.cpp:202-209 | the loop builds the generated particles |
| Particles.GetActiveMap | src/Engine/Component/ParticleComponents/ParticleEffect.cpp:298-306 | the loop builds the active id list |
| Particles.GetActiveParticlePositions | src/Engine/Component/ParticleComponents/ParticleEffect.cpp:278-286 | the loop builds the active position list |
| Particles.GetActiveParticleOrientationIDs | src/Engine/Component/ParticleComponents/ParticleEffect.cpp:288-296 | the loop builds the active orientation list |
| BounderMeshes.AABEdgesOnCube | src/Engine/Shaders/BounderShader.cpp:144-170 | 24 indices below 8 forming 12 edges, each joining cube corners that differ in one axis |
| BounderMeshes.AABEdgesDistinct | src/Engine/Shaders/BounderShader.cpp:144-170 | the 12 edges are pairwise distinct |
| BounderMeshes.SphereIndex | src/Engine/Shaders/BounderShader.cpp:176-202 | every sphere index is below 192 |
| BounderMeshes.SphereCirclesClose | src/Engine/Shaders/BounderShader.cpp:192-202 | each edge stays within one circle and the closers make each circle a loop |
| BounderMeshes.CapIndex | src/Engine/Shaders/BounderShader.cpp:231-266 | every cap index is below 130 |
| BounderMeshes.CapArcs | src/Engine/Shaders/BounderShader.cpp:231-266 | each cap edge stays within one arc, and the arcs start and end at the expected vertices |
| BounderMeshes.RodIndex | src/Engine/Shaders/BounderShader.cpp:295-321 | every rod index is below 72, and entries 128..135 are 64..71 |
| BounderMeshes.RodLines | src/Engine/Shaders/BounderShader.cpp:295-321 | the circle edges stay on the circle and the last 4 edges are the rod lines |
| BounderMeshes.BounderShader.InitAABMesh | src/Engine/Shaders/BounderShader.cpp:131-173 | the array is the AAB index list and the stored count is its length |
| BounderMeshes.BounderShader.InitSphereMesh | src/Engine/Shaders/BounderShader.cpp:175-226 | the array holds the sphere indices and the stored count is 384 |
| BounderMeshes.BounderShader.InitCapMesh | src/Engine/Shaders/BounderShader.cpp:228-290 | the array holds the cap indices and the stored count is 256 |
| BounderMeshes.BounderShader.InitRodMesh | src/Engine/Shaders/BounderShader.cpp:292-345 | the array holds the rod indices and the stored count is 136 |
| Loader.Shift | src/Engine/Loader/Loader.cpp:49-52 | every index is re-based by the given vertex count |
| Loader.ElementsLayout | src/Engine/Loader/Loader.cpp:41-52 | the element buffer has the total index count and index j of shape k is that shape's index plus the earlier shapes' vertex count |
| Loader.ElementsInRange | src/Engine/Loader/Loader.cpp:41-52 | for well-formed shapes every element index is below the total vertex count |
| Loader.PushShifted | src/Engine/Loader/Loader.cpp:49-52 | the loop appends the re-based indices and touches no other buffer |
| Loader.AppendShape | src/Engine/Loader/Loader.cpp:41-52 | one shape's positions, normals and texture coordinates are appended and its indices appended re-based by the earlier vertex count |
| Loader.BuildMesh | src/Engine/Loader/Loader.cpp:36-59 | a fresh mesh whose buffers are the concatenation over all shapes in order and whose recorded sizes are the buffer lengths |
| Loader.GetMesh | src/Engine/Loader/Loader.cpp:21-75 | a cached mesh is returned without loading; a parse failure, which ends the program, is represented by a null result; otherwise a new mesh with the concatenated buffers and their sizes is added under its name and returned |
| FileReader.LastSeparator | src/Engine/Loader/FileReader.cpp:152-154 | the index of the last '/' or '\\', or −1 when there is none |
| FileReader.BasenameIsLastPart | src/Engine/Loader/FileReader.cpp:152-154 | the basename holds no separator, is the whole path when there is none, and otherwise the suffix after the last one |
| FileReader.BasenameIdempotent | src/Engine/Loader/FileReader.cpp:46-48 | taking the basename twice changes nothing |
| FileReader.CylinderHeight | src/Engine/Loader/FileReader.cpp:80-81 | max(0, height − 2·radius) |
| FileReader.Bounders | src/Engine/Loader/FileReader.cpp:66-126 | one collider per JSON member |
| FileReader.GetOfDistinct | src/Engine/Loader/FileReader.cpp:66-126 | a member lookup by name yields the first member of that name |
| FileReader.Explicit | src/Engine/Loader/FileReader.cpp:66-126 | the explicit colliders count the capsule, sphere and box members, all with weight UINT_MAX and a non-negative cylinder height |
| FileReader.ObjectLayout | src/Engine/Loader/FileReader.cpp:150-173 | an object's components are the spatial one, the explicit colliders, then the mesh collider and the render part |
| FileReader.MeshBounderIff | src/Engine/Loader/FileReader.cpp:164-168 | a mesh-derived bounder is added iff no explicit collider was added and colliders are allowed |
| FileReader.RenderIff | src/Engine/Loader/FileReader.cpp:171-172 | a render component is added iff the file path is non-empty, and it comes last |
| FileReader.AddColliderComponents | src/Engine/Loader/FileReader.cpp:66-126 | each adder returns the number of members and appends one collider per member |
| FileReader.LoadObject | src/Engine/Loader/FileReader.cpp:145-173 | the loop body builds those components |
| FileReader.LevelObjectsOfMembers | src/Engine/Loader/FileReader.cpp:145-174 | object k is built from the first member of its name |
| FileReader.LoadObjects | src/Engine/Loader/FileReader.cpp:145-174 | the loop builds every object |
| FileReader.LoadLevel | src/Engine/Loader/FileReader.cpp:128-176 | status 1 iff the document fails to parse, with no objects; otherwise status 0 and every object built |
| ParticleCells.Resize | src/Engine/Shaders/ParticleShader.cpp:192-193 | resizing keeps the prefix and fills new entries |
| ParticleCells.CellsDecrease | src/Engine/Shaders/ParticleShader.cpp:194-198 | cell 0 has scale and intensity 1, and both strictly decrease with the cell index |
| ParticleCells.SetCapped | src/Engine/Shaders/ParticleShader.cpp:201-207 | entry 0 takes f, entry i > 0 takes min(entry i−1, f), no other entry changes |
| ParticleCells.SetCappedKeepsOrder | src/Engine/Shaders/ParticleShader.cpp:201-207 | a non-increasing table stays non-increasing when the next entry is at most f |
| ParticleCells.ParticleShader.constructor | src/Engine/Shaders/ParticleShader.cpp:13-16 | one cell with intensity 1 and scale 1 |
| ParticleCells.ParticleShader.SetCells | src/Engine/Shaders/ParticleShader.cpp:190-199 | the cell count is min(in, 16) and both tables are rebuilt to that length with the decreasing formulas |
| ParticleCells.ParticleShader.SetCellIntensity | src/Engine/Shaders/ParticleShader.cpp:201-203 | the intensity table is updated by the capped rule, scales untouched |
| ParticleCells.ParticleShader.SetCellScale | src/Engine/Shaders/ParticleShader.cpp:205-207 | the scale table is updated by the capped rule, intensities untouched |
| Assets.Find | src/Engine/Loader/Library.hpp:13-19 | the mapped value, or null for an unknown name |
| Assets.Insert | src/Engine/Loader/Library.hpp:20-22 | insertion adds a new name and never overwrites an existing one |
| Assets.FindAfterInsert | src/Engine/Loader/Library.hpp:13-22 | after adding, lookup of that name gives the first mapping, and other names are unaffected |
| Assets.InsertIdempotent | src/Engine/Loader/Library.hpp:20-22 | adding the same name twice keeps the first mapping |
| Assets.Library.GetMesh | src/Engine/Loader/Library.hpp:13-19 | the mapped mesh or null |
| Assets.Library.AddMesh | src/Engine/Loader/Library.hpp:20-22 | the mesh map gains the name unless present; textures untouched |
| Assets.Library.GetTexture | src/Engine/Loader/Library.hpp:24-30 | the mapped texture or null |
| Assets.Library.AddTexture | src/Engine/Loader/Library.hpp:31-33 | the texture map gains the name unless present; meshes untouched |
| Transforms.Initial | src/Engine/GameObject/Transform.cpp:7-15 | the default pose has both caches invalid |
| Transforms.Placed | src/Engine/GameObject/Transform.cpp:17-28 | the argument constructor has both caches valid and coherent |
| Transforms.MutatorsKeepCoherent | src/Engine/GameObject/Transform.cpp:30-60 | every mutator (rotation corrected) keeps the caches coherent; position changes keep the normal flag |
| Transforms.GettersReturnCurrent | src/Engine/GameObject/Transform.cpp:62-70 | a getter returns the matrix of the current inputs, leaves its flag set, changes nothing else, and a second call changes nothing |
| Transforms.StaleModelAfterRotation | src/Engine/GameObject/Transform.cpp:52-55 | as written, setRotation after the argument constructor leaves a stale model matrix that the getter keeps returning |
| Transforms.Transform.constructor | src/Engine/GameObject/Transform.cpp:7-15 | the default state |
| Transforms.Transform.At | src/Engine/GameObject/Transform.cpp:17-28 | the placed state |
| Transforms.Transform.SetPosition | src/Engine/GameObject/Transform.cpp:30-33 | the position changes and only the model flag clears |
| Transforms.Transform.Move | src/Engine/GameObject/Transform.cpp:35-38 | the position moves by delta and only the model flag clears |
| Transforms.Transform.SetScale | src/Engine/GameObject/Transform.cpp:40-44 | the scale changes and both flags clear |
| Transforms.Transform.ScaleBy | src/Engine/GameObject/Transform.cpp:46-50 | the scale is multiplied component-wise and both flags clear |
| Transforms.Transform.SetRotation | src/Engine/GameObject/Transform.cpp:52-55 | corrected: the rotation changes and both flags clear |
| Transforms.Transform.Rotate | src/Engine/GameObject/Transform.cpp:57-60 | corrected: the rotation is premultiplied and both flags clear |
| Transforms.Transform.GetModelMatrix | src/Engine/GameObject/Transform.cpp:62-65 | the model matrix of the current inputs, recomputed only when invalid |
| Transforms.Transform.GetNormalMatrix | src/Engine/GameObject/Transform.cpp:67-70 | the normal matrix of the current inputs, recomputed only when invalid |
| SpatialComponents.Mutate | src/Engine/Component/SpatialComponents/SpatialComponent.cpp:36-72 | every mutator sets the transformed flag and keeps the caches coherent |
| SpatialComponents.MutatorFootprint | src/Engine/Component/SpatialComponents/SpatialComponent.cpp:36-72 | position mutators clear only the model flag, scale mutators both, rotation mutators leave position and scale alone |
| SpatialComponents.StaleModelAfterSetRotation | src/Engine/Component/SpatialComponents/SpatialComponent.cpp:62-66 | as written, setRotation leaves the model matrix flagged valid and stale |
| SpatialComponents.SpatialComponent.constructor | src/Engine/Component/SpatialComponents/SpatialComponent.cpp:7-16 | both caches invalid, not transformed |
| SpatialComponents.SpatialComponent.At | src/Engine/Component/SpatialComponents/SpatialComponent.cpp:18-30 | both caches valid, not transformed |
| SpatialComponents.SpatialComponent.Update | src/Engine/Component/SpatialComponents/SpatialComponent.cpp:32-34 | only the transformed flag clears |
| SpatialComponents.SpatialComponent.SetPosition | src/Engine/Component/SpatialComponents/SpatialComponent.cpp:36-40 | the mutation of the old state by setPosition |
| SpatialComponents.SpatialComponent.Move | src/Engine/Component/SpatialComponents/SpatialComponent.cpp:42-46 | the mutation by move |
| SpatialComponents.SpatialComponent.SetScale | src/Engine/Component/SpatialComponents/SpatialComponent.cpp:48-53 | the mutation by setScale |
| SpatialComponents.SpatialComponent.ScaleBy | src/Engine/Component/SpatialComponents/SpatialComponent.cpp:55-60 | the mutation by scale(factor) |
| SpatialComponents.SpatialComponent.SetRotation | src/Engine/Component/SpatialComponents/SpatialComponent.cpp:62-66 | corrected: the mutation by setRotation, clearing both flags |
| SpatialComponents.SpatialComponent.Rotate | src/Engine/Component/SpatialComponents/SpatialComponent.cpp:68-72 | corrected: the mutation by rotate, clearing both flags |
| SpatialComponents.SpatialComponent.GetModelMatrix | src/Engine/Component/SpatialComponents/SpatialComponent.cpp:74-77 | the model matrix of the current inputs, the transformed flag untouched |
| SpatialComponents.SpatialComponent.GetNormalMatrix | src/Engine/Component/SpatialComponents/SpatialComponent.cpp:79-82 | the normal matrix of the current inputs, the transformed flag untouched |
| Positionables.Positionable.constructor | src/Engine/Component/SpatialComponents/Positionable.cpp:5-9 | origin, previous equal to current, unchanged |
| Positionables.Positionable.At | src/Engine/Component/SpatialComponents/Positionable.cpp:11-15 | the given position, previous equal to it, unchanged |
| Positionables.Positionable.Update | src/Engine/Component/SpatialComponents/Positionable.cpp:17-20 | previous := current and the change flag clears |
| Positionables.Positionable.SetPosition | src/Engine/Component/SpatialComponents/Positionable.cpp:22-26 | position and previous both become p, unchanged |
| Positionables.Positionable.Move | src/Engine/Component/SpatialComponents/Positionable.cpp:28-37 | previous := old position; a zero delta keeps the position and clears the flag, any other adds it and sets the flag |
| Positionables.Positionable.PositionAt | src/Engine/Component/SpatialComponents/Positionable.cpp:39-41 | the current position when unchanged; otherwise the previous at 0 and the current at 1 |
| Scaleables.Scaleable.constructor | src/Engine/Component/SpatialComponents/Scaleable.cpp:5-9 | unit scale, previous equal to it, unchanged |
| Scaleables.Scaleable.Of | src/Engine/Component/SpatialComponents/Scaleable.cpp:11-15 | the given scale, previous equal to it, unchanged |
| Scaleables.Scaleable.Update | src/Engine/Component/SpatialComponents/Scaleable.cpp:17-20 | previous := current and the change flag clears |
| Scaleables.Scaleable.SetScale | src/Engine/Component/SpatialComponents/Scaleable.cpp:22-26 | scale and previous both become s, unchanged |
| Scaleables.Scaleable.ScaleBy | src/Engine/Component/SpatialComponents/Scaleable.cpp:28-37 | previous := old scale; the unit factor keeps the scale and clears the flag, any other multiplies component-wise and sets it |
| Scaleables.Scaleable.ScaleAt | src/Engine/Component/SpatialComponents/Scaleable.cpp:39-41 | the current scale when unchanged; otherwise the previous at 0 and the current at 1 |
| Depots.Added | src/Engine/Util/Depot.hpp:23-26 | the value is in the store afterwards and no other key changes |
| Depots.Removed | src/Engine/Util/Depot.hpp:32-40 | a present key is removed and returned; an absent one gives null and no change |
| Depots.AddThenRemove | src/Engine/Util/Depot.hpp:23-40 | adding a new value and removing it restores the store and returns the value |
| Depots.Depot.Add | src/Engine/Util/Depot.hpp:23-26 | returns v and `has(v)` holds afterwards |
| Depots.Depot.Remove | src/Engine/Util/Depot.hpp:32-40 | the removal above, `has(v)` false afterwards, other keys unaffected |
| Systems.LogicAdded | src/Engine/System/GameLogicSystem.cpp:25-36 | a camera, camera controller, player controller or ImGui component is appended to exactly its own list; other types change nothing |
| Systems.LogicRemovedAsWritten | src/Engine/System/GameLogicSystem.cpp:38-63 | as written: the first match is erased from the component's list, except that player controllers have no branch |
| Systems.PlayerControllerNeverRemoved | src/Engine/System/GameLogicSystem.cpp:38-63 | as written, a player controller added and then removed is still listed |
| Systems.LogicRemoved | src/Engine/System/GameLogicSystem.cpp:38-63 | corrected: the first match is erased from its type's list only |
| Systems.RemovalsAgree | src/Engine/System/GameLogicSystem.cpp:38-63 | both removals agree on every type but player controllers |
| Systems.LogicAddThenRemove | src/Engine/System/GameLogicSystem.cpp:25-63 | adding then removing a new component restores all four lists |
| Systems.VisitAll | src/Engine/System/GameLogicSystem.cpp:10-23 | each loop visits its list once, in order |
| Systems.GameLogicSystem.Update | src/Engine/System/GameLogicSystem.cpp:10-23 | the components are visited ImGui first, then player controllers, camera controllers, cameras |
| Systems.GameLogicSystem.Add | src/Engine/System/GameLogicSystem.cpp:25-36 | the new lists are the add of the old; an unknown type is reported as the assertion failure |
| Systems.GameLogicSystem.Remove | src/Engine/System/GameLogicSystem.cpp:38-63 | corrected: the new lists are the removal of the old |
| Systems.EraseFirst | src/Engine/System/GameLogicSystem.cpp:40-45 | the scan erases the first match and nothing else (RemoveFirst) |
| Systems.Registered | src/Engine/System/PathfindingSystem.cpp:11-15 | the ref is always appended, and to the typed list iff of the system's type |
| Systems.Unregistered | src/Engine/System/PathfindingSystem.cpp:17-33 | one copy leaves the refs, and the typed list for a component of the system's type |
| Systems.UnregisterAbsent | src/Engine/System/PathfindingSystem.cpp:17-33 | removing an absent component changes nothing |
| Systems.RegisterThenUnregister | src/Engine/System/PathfindingSystem.cpp:11-33 | adding then removing a new component restores both lists |
| Systems.PathfindingSystem.Update | src/Engine/System/PathfindingSystem.cpp:5-9 | every pathfinding component is updated once, in list order |
| Systems.PathfindingSystem.Add | src/Engine/System/PathfindingSystem.cpp:11-15 | the registration of the old lists |
| Systems.PathfindingSystem.Remove | src/Engine/System/PathfindingSystem.cpp:17-33 | the unregistration of the old lists |
| Systems.PostCollisionSystem.Update | src/Engine/System/PostCollisionSystem.cpp:4-8 | every ground component is updated once, in list order |
| Systems.PostCollisionSystem.Add | src/Engine/System/PostCollisionSystem.cpp:10-16 | the registration of the old lists; any non-ground type fails after the ref push |
| Systems.PostCollisionSystem.Remove | src/Engine/System/PostCollisionSystem.cpp:18-34 | the unregistration of the old lists |
| Input.Delta | src/Engine/IO/Mouse.cpp:10-26 | zero after a reset, otherwise the difference of the coordinates |
| Input.DeltasCompose | src/Engine/IO/Mouse.cpp:10-26 | consecutive deltas add up to the total movement since the first sample after a reset |
| Input.Mouse.constructor | src/Engine/IO/Mouse.cpp:3-8 | zero coordinates and deltas, reset pending, every button released |
| Input.Mouse.Update | src/Engine/IO/Mouse.cpp:10-26 | the deltas of the old and new coordinates, then the new coordinates and no reset pending |
| Input.Mouse.Reset | src/Engine/IO/Mouse.cpp:37-39 | only the reset flag is set |
| Input.Mouse.SetButtonStatus | src/Engine/IO/Mouse.cpp:33-35 | only that button's status changes, to the action |
| App.ScanStatus | src/App/main.cpp:20-50 | the scan returns 0 iff no "-h" occurs and the line does not end in "-r" or "-n", and 1 otherwise |
| App.ScanSettings | src/App/main.cpp:29-46 | on success verbose is set iff "-v" occurs, and the last "-r" and "-n" with a value win |
| App.EngineApp.constructor | src/App/main.cpp:20-22 | the settings before the scan |
| App.ParseArgs | src/App/main.cpp:20-50 | the loop, with its early returns, computes the scan's status and settings |
| Weapons.RunCounts | src/Engine/Component/WeaponComponents/ProjectileComponents.cpp:39-55 | over any events the bounces add up, and the flag ends set iff it was set, the bounces reach 3 or the own bounder hit something with health |
| Weapons.DetonatesWhen | src/Engine/Component/WeaponComponents/ProjectileComponents.cpp:25-55 | a new grenade detonates exactly after three bounces or a hit on something with health |
| Weapons.GrenadeComponent.constructor | src/Engine/Component/WeaponComponents/ProjectileComponents.cpp:25-31 | no bounces, not detonating |
| Weapons.GrenadeComponent.Init | src/Engine/Component/WeaponComponents/ProjectileComponents.cpp:19-21 | the bounder is found, the counters untouched |
| Weapons.GrenadeComponent.OnBounce | src/Engine/Component/WeaponComponents/ProjectileComponents.cpp:50-55 | one bounce step; the flag never clears |
| Weapons.GrenadeComponent.OnCollision | src/Engine/Component/WeaponComponents/ProjectileComponents.cpp:39-47 | one collision step; the flag never clears |
| Weapons.SpawnBlast | src/Engine/Component/WeaponComponents/ProjectileComponents.cpp:61-66 | the detonation queues exactly one new object, its three new components in order, and the grenade's object for destruction, and changes nothing else in the scene |
| Weapons.GrenadeComponent.Update | src/Engine/Component/WeaponComponents/ProjectileComponents.cpp:59-68 | when detonating, a blast object with spatial, sphere-bounder and blast components is queued and the grenade destroyed; otherwise the scene is untouched |
| Stats.StatComponent.constructor | src/Engine/Component/StatComponents/StatComponents.cpp:5-8 | the initial value is stored |
| Stats.StatComponent.SetValue | src/Engine/Component/StatComponents/StatComponents.cpp:10-12 | the value becomes v |
| Stats.StatComponent.ChangeValue | src/Engine/Component/StatComponents/StatComponents.cpp:14-16 | the value rises by delta, so 0 changes nothing |
| Enemies.EnemyComponent.constructor | src/Engine/Component/EnemyComponents/EnemyComponent.cpp:7-10 | the initial HP is stored |
| Enemies.EnemyComponent.Damage | src/Engine/Component/EnemyComponents/EnemyComponent.cpp:18-20 | HP falls by the amount |
| Enemies.EnemyComponent.Heal | src/Engine/Component/EnemyComponents/EnemyComponent.cpp:22-24 | HP rises by the amount |
| Enemies.EnemyComponent.SetHP | src/Engine/Component/EnemyComponents/EnemyComponent.cpp:26-28 | HP becomes the amount |
| Enemies.EnemyComponent.Update | src/Engine/Component/EnemyComponents/EnemyComponent.cpp:12-16 | the object is queued for destruction exactly when isLE(hp, 0) holds; otherwise the scene is untouched |
| Enemies.DamageThenUpdate | src/Engine/Component/EnemyComponents/EnemyComponent.cpp:12-20 | a hit then an update queues the object for destruction exactly when the remaining HP is at or below zero by `isLE`, and leaves the scene untouched otherwise |

## Left out

- The segment's `free_markers` word is modelled as 32 booleans rather than a 32-bit integer; the bit operations are the same one slot at a time.
- rpmalloc concurrency: atomics, CAS loops, the global caches, thread-local heaps and locks are not modelled, nor `memcpy`, `memset` or the external allocator; the packed global-cache pointer is not modelled.
- Pathfinding.AStarSearch: carries a fuel bound on its iterations; with the fuel spent it reports a third outcome, which the source's loop does not have.
- Scene.Scene.RelayMessages: carries a fuel bound on its rounds, since receivers may keep sending forever.
- Scene.Scene.RelayMessages: receivers are pure responders that only return the messages they send; what a receiver does to the scene or to components while handling a message (the grenade counters at src/Engine/Component/WeaponComponents/ProjectileComponents.cpp:39-56, destroyGameObject at src/App/Game.cpp:110-118) is applied outside the relay, so its "only the buffer changes" holds for the relay alone.
- Pathfinding.MinIndex: takes the first entry of least priority; std::priority_queue breaks ties in an order of its own, so among equal priorities the model may pop a different node than the source, and AStarSearch's visiting order (not its guarantees) may differ with it.
- The source compares graph nodes by a fuzzy, non-transitive distance and hashes them; nodes here are exact integer triples, and unordered containers are iterated in a given order.
- MapExplore.RemoveOutliers: the hash-set iteration order is a parameter (the input sequence), so which cell of a borderline pair is erased first follows that order.
- CollisionSystem.SortBy: a stable insertion sort stands for `std::sort`, whose order among equal weights is unspecified.
- CollisionSystem.DetNetDelta: the clamp against each group's normalised delta uses `normalize` as a parameter; no geometry is proved about it.
- CollisionSystem.Pick: the octree branch and the ray intersection are left out; intersections are a parameter.
- CollisionSystem::update and the octree are left out: they are driven by the message bus and the unseen Octree class.
- Particles.MakeParticle: states orientation ids only as below their count, and exactly i only for the first `orientations` particles, not the general i mod orientations.
- Particle motion (random directions, sphere, cone and disk motion) is left out; positions and velocities are opaque vectors.
- Particles.ParticleEffect.Update: carries a fuel bound for the recursive loop branch, which re-enters `update` after extending the effect, and states that branch only through UpdateOnce, one pass at a time: the state after the repeated passes is not stated. It requires the same rate and n as `updateActiveParticles`.
- Matrix arithmetic is abstract: a computed model or normal matrix is identified by the position, scale and rotation it was built from.
- Ownership (`unique_ptr`) and deletion are not modelled: PathfindingSystem::add of a non-pathfinding component leaves a dangling reference in the source, and Depot::add of a present key deletes the value it is given; the model keeps only the registry contents.
- Weapons.GrenadeComponent.Update: the blast components' constructor arguments (centre, radius, damage) are not modelled, only their types and order.
- Enemies.EnemyComponent.Update: `Util::isLE` is a parameter.
- App.ParseArgs: printing the usage text is not modelled.
- RpmallocBlocks.UsableSizeCoversRequest: stated only for size + 48 < 2^64. rpmalloc does not validate sizes (its MAX_ALLOC_SIZE check is compiled out, rpmalloc.cpp:139-142 and 219-221), and above that bound the header addition wraps and the block is smaller than the request (WrappedRequestGetsOnePage).
- RpmallocBlocks.Reallocate: "a kept block holds the new size" is stated only for size + 48 < 2^64; above that bound the wrapped span or page count can keep a block that is too small (WrappedReallocKeeps).
- RpmallocBlocks.AllocatedHeader: requires a non-zero size; for size 0 the source indexes the class table at `(size_t)-1`.
- Particles.ParticleEffect.UpdateActiveParticles: requires a rate ≥ 0, and n > 0 when the rate is positive. With a negative rate the source's activation loop never ends (see Findings); with a positive rate and n = 0 it reads the first entry of an empty active map (ParticleEffect.cpp:100-101).
- Particles.ParticleEffect.ActivateDue: the same requirement, and a positive rate, since the source runs the loop only then.
- Particles.ParticleEffect.ActivateOne: the same requirement, and a positive rate.
- Particles.ParticleEffect.LiveUpdate: the same requirement on the rate and n, inherited from `updateActiveParticles`.
- Particles.ParticleEffect.UpdateOnce: the same requirement on the rate and n, inherited from `updateActiveParticles`.
- ParticleCells.ParticleShader.SetCellIntensity: requires the index to be within the table; the source writes out of bounds for larger indices (ParticleShader.cpp:201-203).
- ParticleCells.ParticleShader.SetCellScale: requires the index to be within the table; the source writes out of bounds for larger indices (ParticleShader.cpp:205-207).
- Input.Mouse.SetButtonStatus: requires the button index to be below the 7-slot array; the source writes out of bounds for larger indices.
- Input.Mouse.IsDown is a predicate with no separate contract: it reads the stored status against `GLFW_PRESS`.
- The game objects' receiver lists live in the Scene model (`objectReceivers`); killed objects keep their entry there, where the source deletes the object.
- Floating-point values are reals: no rounding, no NaN.
- OpenGL, GLFW, ImGui and FMOD calls, the JSON, OBJ and image parsers, timing, the allocator wrappers, and the Python sound-file script are left out; parsed documents are input values.
- The stale duplicates (`src/Engine/Collision`, `GameObjec.cpp`, `LevelBuilder/FileReader.cpp`, `src/Engine/ParticleEffect`, `src/Engine/Old`, `src/World`, `src/Entity`) are not part of this model.
- Scene.Scene.InitComponents: does not call each component's `init()` (Scene.cpp:175); the initialisers, which among other things register message receivers, are not part of this model.
- Loader.GetMesh: a parse failure prints the error and calls `exit(1)` (Loader.cpp:31-33); the model returns null instead, since ending the process is not expressible here.

## Findings

| source | as written | input that shows it | evidently intended | confidence | as-written member | corrected member |
|---|---|---|---|---|---|---|
| src/Engine/GameObject/Transform.cpp:52-60 | `setRotation` and `rotate` clear only the normal-matrix flag, although the model matrix is built from the rotation | construct with (origin, unit scale, identity), then `setRotation` by a quarter turn: `modelMatrix()` still returns the unrotated matrix | both flags cleared | not executed | Transforms.StaleModelAfterRotation | Transforms.Transform.SetRotation |
| src/Engine/Component/SpatialComponents/SpatialComponent.cpp:62-72 | the same in `SpatialComponent::setRotation` and `rotate` | the same sequence on a component built with the argument constructor | both flags cleared | not executed | SpatialComponents.StaleModelAfterSetRotation | SpatialComponents.SpatialComponent.SetRotation |
| src/Engine/System/GameLogicSystem.cpp:38-63 | `remove` has no branch for PlayerControllerComponent | add a player controller, then remove it: it is still in the list and keeps being updated | erase it from the player-controller list | not executed | Systems.PlayerControllerNeverRemoved | Systems.LogicAddThenRemove |
| src/Engine/Component/ParticleComponents/ParticleEffect.cpp:99-121 | a negative rate is accepted; each pass of the activation loop adds 1/rate < 0 to the next activation time, so `m_life > m_nextActivation` never fails | rate −1, n > 0 and an effect duration above dt: the first activation time is −1, and the first `update(dt)` loops forever | a rate that is never negative, so that the loop ends | not executed | Particles.NegativeRateNeverCatchesUp | Particles.PositiveRateCatchesUp |
| src/Engine/System/CollisionSystem.cpp:95-97 | weights are stored as `int`, so UINT_MAX becomes −1 and immovable bounders sort first | deltas with weights 5 and UINT_MAX: the immovable one is processed first | immovable bounders processed last (highest precedence) | not executed | CollisionSystem.ImmovableSortsFirst | CollisionSystem.ImmovableSortsLast |

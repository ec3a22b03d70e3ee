# gc-lite, verified in Dafny

A model of gc-lite's partitioned, incremental tri-colour mark-sweep collector and of the bookkeeping around it,
with proofs of what the collector is for: it never frees a reachable node, it frees every unreachable one, it
stops within a bound, and its counters, weak handles, scopes, drop order and arena stay consistent over every run.

`dafny verify dfyconfig.toml` checks the project.

## How it is organised

- **The abstract heap.** `Graphs` (nodes, trace edges, chains, reachability), `Marking` (colours, flags, gray stacks and
  every marking step as a function), `Accounting`, `Weak`, `Scopes`, `DropOrder`. A node's payload is the finite list
  of children its trace function reports.
- **The theory.** `Tricolor` and `Cycles` (what marking computes, for an arbitrary set of partitions, and how long it
  takes), `Exactness` (what marking computes and a collection takes from any state, and exactly when that is exact),
  `Bounds` (exactly how many calls a collection makes), `Schedules` (draining the whole heap within a bound), `Sweep`
  (what a sweep takes, when it is safe, and concrete runs where it is not), `Collection`, `Machine` (23 operations as a
  state machine), `Preservation` (each keeps the invariant), `Runs` (theorems over all runs), `Global` (the heap-wide
  cycle with the program running), `Rounds` (any number of such cycles), `Snapshot` (what they free), `Ownership` (the
  discipline under which partitions can always be removed), `Hazards` (where the source asks less of its callers than
  safety needs: what goes wrong, and exactly when), `Effects` (what each operation does to every column of the heap and
  what it leaves alone, said without the functions it is made of; what that means for roots and stores over runs).
- **The collector as written.** `Heap.GcHeap` is the source's struct: a map from addresses to headers whose attribute
  word is 32 bits (`Header`), partitions with intrusive chains and gray lists, weak slots, scope stacks, counters. Its
  methods are the source's loops and pointer surgery. `Valid()` says the fields represent an abstract state `s`, and
  every method ensures that the new `s` is a function of the old one - the functions the theory is about. `Memory`,
  `Seeding` and `Scanning` hold the list and loop lemmas behind that. `Conformance` carries out the state machine's
  operations by calling those methods and proves that the heap then represents what `Machine.Step` and `Runs.Exec` say,
  so the theorems about runs are about sequences of calls.
- **The arena.** `Arena` is the allocator on values, with its theorems over runs; `ArenaMemory.GcArena` keeps the free
  list's headers inside an array of words; `Placement` ties a partition's nodes to its arena's blocks and
  `ArenaNodes` ties both to the ARENA_ALLOC flag. `Layout` and `Numbers` do the layout arithmetic.
- **Traversal.** `Traversal` proves that `traverse` is breadth-first.

Raw pointers are addresses (`Ptr`); freeing a node removes its key, so a method that follows a pointer to freed memory
does not verify. `limbo` nodes are those a sweep has unlinked but not yet disposed.

The discipline behind the whole-run safety theorem is the set `closed`: partitions into which the program stores no
pointer from another partition. Those may be collected on their own at any time. Without it a partition-local collection
can free a reachable node, which `Sweep.LocalCollectionFreesAReachableNode` shows on two nodes;
`Hazards.LocalCollectionTakesReachableIff` says exactly when, on the heap before the call and from any state. With edges
between any partitions the safe way is the heap-wide cycle of `Global`: prepare once, mark and mutate in any
interleaving, and sweep when every gray stack is empty.

Where the code and its comments differ, the model follows the code: `traverse` is documented as depth-first but is
breadth-first, and its filter limits the callbacks, not the traversal; the step before it, `traverse_start`, resets one
partition only. `finish_sweep` discards the previous free list. `downgrade` refuses when the table is full even if a
slot of it is free.

`mark_prepare` does not recolour unprotected nodes of a partition with pending grays, so that partition's old Black
nodes are kept and never scanned again. Marking elsewhere leaves such grays in a partition that is not marking
(`Hazards.ScanLeavesPending`). Collecting it then may keep garbage (`Sweep.PendingGraysKeepGarbage`) and may free nodes
that its own roots reach (`Hazards.PendingGraysFreeAReachableNode`); `Exactness.TakenIff` says exactly which nodes go.

## Model

| member | source | states |
|---|---|---|
| Runs.Exec | src/mark_sweep.rs:33-201 | over any legal interleaving of budgeted marks, allocations, root and scope changes, barriered stores, sweeps, disposals, weak references and limit changes the whole invariant holds, and weak slots only move forward |
| Conformance.Perform | src/mark_sweep.rs:33-451 | for every one of the 23 operations: calling the heap's methods it stands for takes the heap to exactly the state the machine steps to, and keeps it ready for the next |
| Conformance.PerformAll | src/mark_sweep.rs:33-451 | so a legal run of the machine is a run of calls: the heap ends in the state `Runs.Exec` names |
| Conformance.PerformFromNew | src/heap.rs:107-124 | and so is every run from nothing, on a new heap |
| Runs.SweepSparesTheLive | src/mark_sweep.rs:379-451 | after any run, a sweep leaves every node a root or local reaches linked, with all its children linked, and protects the same nodes |
| Runs.RunKeepsTricolor | src/mark_sweep.rs:33-201 | after any run, in a marking partition nothing points into: Gray nodes are listed, roots and locals are not White, no Black node has a White child; when not marking its gray list is empty |
| Runs.CollectionIsExact | src/mark_sweep.rs:589-602 | at any point of a run, mid-cycle or not: marking ends within the call bound, the sweep takes no reachable node, and it takes every unreachable one iff nothing unreachable is coloured once the cycle is prepared, as is always so when the partition is not mid-cycle |
| Runs.CollectionLeavesTheLive | src/mark_sweep.rs:589-602 | after `garbage_collect` at any point of a run the reachable nodes are linked, no pointer dangles, usage has dropped by the sizes of what went, and from a sound start every other node of the partition is gone from memory |
| Runs.CollectionFreesAllGarbageIff | src/mark_sweep.rs:589-602 | a collection leaves no garbage of its partition in memory iff it starts sound |
| Runs.CollectedOk | src/mark_sweep.rs:589-602 | a collection keeps the invariant, so collections can repeat with mutation between them |
| Runs.CachedNodesSurvive | src/scope.rs:142-183 | a node cached in an open scope, of whichever partition, is linked after any run and survives a sweep of any partition |
| Runs.RunKeepsAccounts | src/heap.rs:260-285 | after any run total usage is the sum over partitions, each counter is the layout size of the partition's nodes in memory, a set limit is not exceeded, and the threshold is below it or the minimum |
| Runs.HandleAfterRun | src/weak.rs:100-174 | a weak handle taken before any run upgrades afterwards only if its slot was re-issued a multiple of 255 times, and to its own node if fewer |
| Runs.HandleStaysGood | src/weak.rs:100-174 | a handle taken before any run still upgrades to its node after it, as long as the node has stayed in memory |
| Runs.StepKeepsId | src/weak.rs:100-147 | no operation changes the identifier of a node that stays in memory |
| Runs.UpgradeGivesLinkedNode | src/weak.rs:150-174 | with no unlinked node awaiting disposal an upgrade yields a linked node |
| Preservation.StepOk | src/mark_sweep.rs:18-451 | every enabled operation keeps well-formed chains and stacks, no dangling edges, tri-colour safety of closed partitions, scope, weak and accounting invariants |
| Preservation.AddNodeMarksOkIff | src/scope.rs:142-158 | shading a node in its scope's partition keeps the gray stacks well formed iff that is the node's partition or nothing is pushed |
| Preservation.ProtectedOkIff | src/scope.rs:142-158 | `add_node` through any scope keeps the whole invariant iff its shading pushes nothing on a foreign list and leaves no White node of a marking closed partition unshaded |
| Tricolor.MarkLoopTri | src/mark_sweep.rs:127-188 | a `mark_grays` call keeps: Gray is stacked, protected is not White, no Black node has a White child |
| Tricolor.MarkLoopSound | src/mark_sweep.rs:127-188 | a call colours only reachable nodes |
| Tricolor.MarkLoopElsewhere | src/mark_sweep.rs:155-181 | marking one partition leaves colours, flags, stack and state of a partition no edge enters untouched |
| Tricolor.PrepareFresh | src/mark_sweep.rs:50-99 | from drained stacks and a target that is not marking, `mark_prepare` establishes the tri-colour invariant and soundness |
| Tricolor.PrepareSafe | src/mark_sweep.rs:50-99 | re-seeding mid-cycle, pending grays or not, keeps a partition's invariant |
| Tricolor.DrainedIsExact | src/mark_sweep.rs:101-192 | with the stacks of a set of partitions empty, their Black nodes are exactly those reachable inside the set |
| Tricolor.ReachedIsBlack | src/mark_sweep.rs:101-192 | with drained stacks every node reachable inside the set is Black, sound or not |
| Exactness.MarkingFromAnyState | src/mark_sweep.rs:50-201 | from any state, `mark` calls that drain a set of partitions blacken exactly what was Black after preparing or is reached from a stacked node without passing a Black one, and recolour nothing else |
| Exactness.ExactIff | src/mark_sweep.rs:50-201 | the outcome is exact iff, once prepared, Black and due nodes together are the reachable ones and nothing else is coloured |
| Exactness.ExactIffSound | src/mark_sweep.rs:50-201 | where the prepared state satisfies the tri-colour invariant, the outcome is exact iff nothing unreachable is coloured in it |
| Exactness.PreparedSoundIff | src/mark_sweep.rs:68-98 | ... which is so iff every coloured node of a partition with pending grays is reachable before the call |
| Exactness.WhileFromAnyState | src/mark_sweep.rs:594 | the same for `while !mark(p, k)` on one partition |
| Exactness.TakenIff | src/mark_sweep.rs:50-201 | on the state before the call, whatever it is: a collection takes exactly the unprotected nodes that are White, or of a partition without grays that is not marking, and that no source reaches inside it without passing a Black node `mark_prepare` keeps |
| Cycles.MarkingIsExact | src/mark_sweep.rs:155-201 | any sequence of `mark` calls with any budgets on the partitions of a set, starting fresh, once it drains their stacks, blackens exactly the nodes reachable inside them (one partition: local exactness; all: the global fixpoint) |
| Cycles.BudgetsDoNotMatter | src/mark_sweep.rs:101-201 | however the work is cut into calls, the finished colouring is the same |
| Cycles.LimitedCallWorks | src/mark_sweep.rs:133-139 | a call stopped by its limit has blackened exactly that many nodes and leaves work |
| Bounds.StoppedAtGray | src/mark_sweep.rs:133-139 | and the node it stopped at is back on top of the stack, Gray and without its flag |
| Cycles.MarkWhileTerminates | src/mark_sweep.rs:594 | `while !mark(p, k)` with `k` positive stops within max(1, ceil(N / k)) calls for N nodes, from any state |
| Cycles.CallBound | src/mark_sweep.rs:594 | the bound is max(1, ceil(N / k)) |
| Bounds.CallsExactly | src/mark_sweep.rs:594 | from a fresh start the loop has ended after so many calls iff they are at least max(1, ceil(R / k)), R being the nodes reached inside the partition |
| Bounds.BoundIsMet | src/mark_sweep.rs:594 | for every N and k a heap of N nodes on which the bound suffices and one call fewer does not |
| Schedules.DiligentIsBounded | src/mark_sweep.rs:127-201 | `mark` calls that keep choosing a partition with pending grays and a positive budget number at most N(P+1)+P for N nodes and P partitions |
| Schedules.DrainingSchedule | src/mark_sweep.rs:127-201 | from any state with all partitions marking and for any positive budget such a schedule drains the whole heap |
| Schedules.FullCycleWithinBound | src/mark_sweep.rs:379-451 | so a full cycle that leaves exactly the reachable nodes is always within reach, in at most one call more than the bound |
| Sweep.SweepSparesReachable | src/mark_sweep.rs:403-414 | a tri-colour safe partition nothing points into loses no reachable node |
| Sweep.SweepDanglesIff | src/mark_sweep.rs:379-428 | a sweep leaves a dangling edge iff a node it leaves points at one it takes; after a tri-colour safe marking iff one of another partition does |
| Sweep.TakesReachableIff | src/mark_sweep.rs:379-428 | it takes a reachable node iff a reachable node it leaves points at one it takes |
| Hazards.LocalCollectionTakesReachableIff | src/mark_sweep.rs:589-602 | before the call and from any state: collecting one partition frees a reachable node iff a condemned one (as in `Exactness.TakenIff`) is reachable; where the partition is tri-colour safe, iff a reachable node outside points at a condemned one; from a fresh start, iff at one that nothing reaches inside |
| Hazards.LocalCollectionDanglesIff | src/mark_sweep.rs:589-602 | and it leaves a dangling pointer iff a node that is not condemned points at one that is, of another partition where this one is safe |
| Hazards.ScanLeavesPending | src/mark_sweep.rs:155-181 | a scan elsewhere that meets a child in a partition that is not marking leaves grays pending there, and the partition unsafe |
| Hazards.PendingGraysFreeAReachableNode | src/mark_sweep.rs:68-98 | one partition no edge enters, with a gray pending, on which a collection frees a node its own root reaches and leaves a dangling pointer |
| Sweep.FullCycleKeepsExactlyReachable | src/mark_sweep.rs:155-201 | any draining `mark` calls, then sweeping every partition in any order, leaves linked exactly the reachable nodes and nothing dangling |
| Global.StepKeepsCycle | src/node.rs:442-677 | every operation that may run during a heap-wide cycle keeps the tri-colour invariant across all partitions, cross-partition stores and `bind` included |
| Global.RunKeepsCycle | src/mark_sweep.rs:33-201 | so does any interleaving of them |
| Global.ConcurrentCycleIsSafe | src/mark_sweep.rs:50-451 | prepare from drained stacks, run any such interleaving with edges between any partitions, and once all stacks are empty sweep every partition: no node then reachable is taken and nothing dangles |
| Rounds.SweptAllOk | src/mark_sweep.rs:379-451 | such a cycle's sweeps keep the whole invariant and every live node and leave nothing marking or pending |
| Rounds.RestStartsCycle | src/mark_sweep.rs:50-99 | so the next cycle may start at once, on any partition |
| Rounds.RoundsAreSafe | src/mark_sweep.rs:33-451 | over any number of cycles, with anything legal between them, no sweep takes a live node, a child of one, or a path to one |
| Snapshot.StepLeaves | src/mark_sweep.rs:127-192 | during a cycle no operation shades, protects or points at what was garbage when it began, as long as the program uses only nodes it can reach or has allocated since |
| Snapshot.CycleTakesOldGarbage | src/mark_sweep.rs:50-451 | so the sweeps take every node that nothing reached when `mark_prepare` ran |
| Snapshot.CycleKeepsBetween | src/mark_sweep.rs:50-451 | of the nodes linked when the cycle began, all that are live at its end are kept, and only what was live at its start |
| Effects.BornIsAllocated | src/mem.rs:62-209 | the nodes such a cycle counts as new are exactly those it has allocated |
| Effects.OpenHeapAllows | src/node.rs:442-677 | with no partition closed nothing is swept or removed on its own, `add_non_local` shades only where the stack stays well formed, and every other operation is allowed exactly when what it names exists |
| Effects.PrepareEffect | src/mark_sweep.rs:50-99 | `mark_prepare`: unless its target is marking already, every partition is switched on; roots and locals are Gray and on their partition's stack; where a stack was empty all else is White; otherwise colours, stacks and flags stay |
| Effects.ScanEffect | src/mark_sweep.rs:133-187 | one scan: the node is Black, off its stack and unflagged; exactly its children that were not Black are Gray, flagged and on their own partitions' stacks; nothing else changes |
| Effects.MarkOpEffect | src/mark_sweep.rs:194-201 | a `mark` call changes marks only: it prepares, then blackens at most `budget` nodes, exactly so many if work remains |
| Effects.GraysOpEffect | src/mark_sweep.rs:101-192 | `mark_grays` the same without preparing |
| Effects.PrepareOpEffect | src/mark_sweep.rs:50-99 | preparing changes marks only |
| Effects.ResetOpEffect | src/mark_sweep.rs:33-48 | after a reset the partition's linked nodes are White, its stack empty and marking off; every other node, stack and switch is as it was |
| Effects.AllocOpEffect | src/mem.rs:62-245 | refused, without effect, iff the partition is missing or a limit is set and would be exceeded; else the node is first on its partition's chain, with its children, type and null handle, charged for, a root iff asked for, and every other node, chain and counter is as it was |
| Effects.RootOpEffect | src/heap.rs:203-213 | the node is protected, no other node's ROOT changes; it is shaded iff it was no root, is not Black and its partition marks |
| Effects.RootsSurvive | src/mark_sweep.rs:33-451 | a root stays a root, linked and live, through any run that does not remove its partition |
| Effects.RootedForGood | src/heap.rs:203-213 | so what `set_root_node` is called on is protected and linked ever after |
| Effects.WriteOpEffect | src/node.rs:442-466 | after a barriered store the node has exactly the new children and every other node those it had; the node is regrayed iff it is Black in a marking partition, and nothing else changes |
| Effects.StoredIsLive | src/node.rs:442-466 | a child stored into a live node is live afterwards, and so is the node |
| Effects.StoredSurvivesSweep | src/mark_sweep.rs:379-451 | ... and it is linked, with its own children, after a sweep of any closed partition |
| Effects.BindOpEffect | src/node.rs:633-677 | the master has exactly the new children; the slave is shaded iff it is not Black and the master is Black, or of another partition while the slave's marks; nothing else changes |
| Effects.ScopeOpEffect | src/scope.rs:202-320 | remove, promote, clear and pop change what each open scope caches in exactly the way they say, and nothing outside the scope table; push, acquire and release change no cache |
| Effects.ScopeShapeEffect | src/scope.rs:366-489 | which scopes are open and who holds which stack changes only with push, pop, acquire and release, one stack at a time |
| Effects.ProtectOpEffect | src/scope.rs:142-183 | `add_non_local` leaves a root or local alone; any other node is cached there, once, and Gray unless Black where the scope's partition marks |
| Effects.UnlinkOpEffect | src/mark_sweep.rs:379-451 | where marking is complete exactly the unprotected White nodes leave the chain, the rest keep their order and marking ends; elsewhere nothing happens |
| Effects.DisposeOpEffect | src/mem.rs:287-339 | exactly the nodes disposed leave memory, their layout sizes leave both counters, and no handle upgrades to them any more |
| Effects.TableOpEffect | src/heap.rs:140-171 | downgrading and the two setters change their own table only; a handle just given upgrades to its node; the limit is the request or the usage, the threshold the lesser of request and cap |
| Effects.CreateOpEffect | src/partition.rs:147-156 | one more partition, empty, idle and unused; nothing else changes |
| Effects.RemoveOpEffect | src/partition.rs:179-321 | the partition's nodes leave memory, roots and scopes, its counter is freed and it ends idle and empty; every other node is as it was |
| Effects.RemoveOpHandles | src/partition.rs:199-209 | no handle upgrades to a node of it any more; handles to other nodes upgrade as before |
| Sweep.LocalCollectionFreesAReachableNode | src/mark_sweep.rs:127-139 | two nodes on which a completed single-partition collection frees a node a root reaches (exactly when: `Hazards.LocalCollectionTakesReachableIff`) |
| Sweep.PendingGraysKeepGarbage | src/mark_sweep.rs:68-98 | one node on which marking from a partition with pending grays keeps garbage (that it may also free live nodes: `Hazards.PendingGraysFreeAReachableNode`) |
| Marking.PrepareOk | src/mark_sweep.rs:50-99 | `mark_prepare` keeps flagged nodes listed and every listed node linked in the right partition, and leaves its target marking |
| Marking.ScanOk | src/mark_sweep.rs:133-187 | one scan keeps the stacks well formed and takes exactly the scanned node from the non-Black nodes of its partition |
| Marking.MarkLoopOk | src/mark_sweep.rs:101-192 | a call keeps the stacks well formed and marking flags as they are, and reports done only with its stack empty |
| Marking.BindMarksOk | src/node.rs:633-677 | `bind` keeps the gray stacks well formed |
| Preservation.BarrierOk | src/node.rs:442-455 | the write barrier keeps a partition safe and leaves its node not Black while the partition marks, so the store that follows is safe |
| Preservation.BindOk | src/node.rs:633-677 | after `bind` the slave of a Black master is not White, and nothing turns Black |
| Collection.GarbageOk | src/mark_sweep.rs:379-451 | the white list of a collection has no duplicates, is unlinked, belongs to the partition, and is covered by its counters |
| Collection.CollectedEffect | src/mark_sweep.rs:589-602 | the white list is in chain order and holds exactly the nodes that were linked and no longer are; they and no others leave memory, and every other node keeps its children, partition and type |
| Heap.GcHeap.constructor | src/heap.rs:107-124 | a new heap represents the empty state |
| Heap.GcHeap.AddGrayNodeTo | src/partition.rs:109-131 | Black nodes are left alone; others turn Gray and are pushed once, when not flagged |
| Heap.GcHeap.AddGrayNode | src/mark_sweep.rs:19-24 | the same, on the node's own partition |
| Heap.GcHeap.WithWriteBarrier | src/node.rs:442-466 | the barrier's effect, then the node's new children; headers keep their links |
| Heap.GcHeap.Bind | src/node.rs:633-677 | exactly the two-stage shading of the slave, across partitions too |
| Heap.GcHeap.SetRootNode | src/heap.rs:203-213 | the node and no other gains ROOT, and it is shaded if its partition is marking; nothing else changes |
| Heap.GcHeap.MarkReset | src/mark_sweep.rs:33-48 | flags of the listed nodes cleared, list emptied, chain whitened, marking off |
| Heap.GcHeap.MarkPrepare | src/mark_sweep.rs:50-99 | the loops over all partitions compute the seeded colours, flags and stacks of `Marking.Prepare` |
| Heap.GcHeap.TraceNode | src/trace.rs:37-46 | a trace is the child list without duplicates, first occurrences in order |
| Heap.GcHeap.ShadeChildren | src/mark_sweep.rs:155-181 | direct pushes and the flushed cross-partition buffer shade the children last-traced first |
| Heap.GcHeap.MarkGrays | src/mark_sweep.rs:101-192 | the loop with its step limit and push-back computes `Marking.MarkLoop`, terminating despite duplicates and cycles |
| Heap.GcHeap.MarkSome | src/mark_sweep.rs:194-201 | `mark`: prepare, then a budgeted drain |
| Heap.GcHeap.MarkToTheEnd | src/mark_sweep.rs:594 | the unbounded loop ends, in the state the call bound predicts |
| Heap.GcHeap.SplitChain | src/mark_sweep.rs:392-425 | relinking yields two lists, the stable filters of the chain by dead and not dead, touching no other header |
| Heap.GcHeap.SweepUnlink | src/mark_sweep.rs:379-451 | a result iff marking is complete and the chain is not empty; the dead nodes in chain order; the survivors back on the chain |
| Heap.GcHeap.SweepDropPayloads | src/mark_sweep.rs:460-470 | payloads needing a drop, in list order |
| Heap.GcHeap.DisposePass | src/mark_sweep.rs:497-553 | one pass frees its nodes in order and relinks the others in order |
| Heap.GcHeap.SweepDispose | src/mark_sweep.rs:482-571 | every node of the white list freed exactly once in drop-pass order; `collect_hole` called for exactly those flagged ARENA_ALLOC, in that order; the bytes returned are what the counters lose |
| Heap.GcHeap.GarbageCollect | src/mark_sweep.rs:589-602 | the whole collection equals `Collection.Collected`; bytes returned are exactly the drop in total usage; drops, frees and holes logged in their orders |
| Heap.GcHeap.FilterRemoveWith | src/node_link.rs:44-74 | in place, the list becomes its filter and the removed nodes are destroyed once each, in order |
| Heap.GcHeap.DisposeAllNodes | src/mark_sweep.rs:605-651 | the detached list empties, every node destroyed exactly once, drops and frees in drop-pass order |
| Heap.GcHeap.UpdateMemUse | src/heap.rs:260-285 | a signed delta changes one partition's counter and the total alike |
| Heap.GcHeap.DisposeNoDrop | src/mem.rs:287-305 | the node leaves memory, its weak slot empties, its layout size leaves both counters |
| Heap.GcHeap.DisposeMemOnly | src/mem.rs:307-339 | the same for the memory part, through the 32-bit delta |
| Heap.GcHeap.Dispose | src/mem.rs:248-283 | as above, after a drop iff the type needs one |
| Heap.GcHeap.AllocNodeMem | src/mem.rs:62-183 | PartitionNotFound iff the partition is missing, else PartitionFull iff a limit is set and usage plus size exceeds it, else AllocationFailed iff there is no block; nothing changed on error; else a White flagless node in memory and the size charged |
| Heap.GcHeap.AttachNode | src/heap.rs:185-201 | the node becomes the head of its partition's chain, no other header changed |
| Heap.GcHeap.AllocRaw | src/mem.rs:192-209 | the same three errors; else the machine's allocation step, and the node is linked and no root added |
| Heap.GcHeap.AllocRootRaw | src/mem.rs:220-245 | as above, and the new node and no other gains ROOT, shaded if the partition is marking |
| Heap.GcHeap.AllocLocal | src/scope.rs:131-140 | the same three errors, for the scope's partition; else allocation there, then protection by the scope |
| Heap.GcHeap.AddNode | src/scope.rs:142-173 | LOCAL set, shaded in the scope's partition if that is marking, cached last; the gray lists stay well formed iff that shading pushes nothing foreign |
| Heap.GcHeap.AddNonLocal | src/scope.rs:176-183 | refuses exactly roots and locals, unchanged; else as `AddNode` |
| Heap.GcHeap.RemoveNode | src/scope.rs:202-219 | true iff cached here; then swap-removed and LOCAL cleared, else unchanged |
| Heap.GcHeap.PromoteNodeTo | src/scope.rs:239-270 | true iff cached here; then moved to the target's cache, possibly its own, keeping LOCAL |
| Heap.GcHeap.Clear | src/scope.rs:273-282 | the cache empties and its nodes lose LOCAL |
| Heap.GcHeap.NewScope | src/scope.rs:453-489 | a new empty scope on top, of the stack's partition, at the next depth |
| Heap.GcHeap.PopScope | src/scope.rs:297-320 | the top scope goes and its nodes lose LOCAL |
| Heap.GcHeap.AcquireScopeStack | src/scope.rs:366-382 | the first idle stack, else a new one |
| Heap.GcHeap.ReleaseScopeStack | src/scope.rs:384-393 | the stack is idle again |
| Heap.GcHeap.Downgrade | src/weak.rs:100-147 | the existing handle, or the first free slot with its next version; none exactly when the table is full |
| Heap.GcHeap.Upgrade | src/weak.rs:150-174 | the slot's node iff the handle is not null and versions agree |
| Heap.GcHeap.SetMemoryLimit | src/heap.rs:140-155 | limit and threshold after the setter; the limit is returned |
| Heap.GcHeap.SetGcThreshold | src/heap.rs:162-171 | the threshold capped at eight tenths of the limit, saturating |
| Heap.GcHeap.CreatePartition | src/partition.rs:147-156 | one more empty partition, its index returned |
| Heap.GcHeap.FinalizePartitionPrepare | src/partition.rs:179-212 | scopes of the partition cleared, weak slots of its nodes emptied, the chain returned |
| Heap.GcHeap.FinalizePartition | src/partition.rs:223-239 | then every payload dropped once, by pass and in chain order |
| Heap.GcHeap.DeallocPartition | src/partition.rs:248-321 | exactly the partition's counter is freed; it ends empty, unmarked, with no grays |
| Heap.GcHeap.TraverseStart | src/trace.rs:92-98 | the visited flags of one partition are cleared |
| Heap.GcHeap.Traverse | src/trace.rs:103-138 | visits in the order of `Traversal.Traverse`, calls back those passing the filter, flags exactly what it visited |
| Memory.TwoPhases | src/partition.rs:179-321 | finalize then dealloc, nothing between, removes the partition |
| Memory.FinalizedSlots | src/partition.rs:199-209 | before any drop, no weak handle upgrades to a node of the partition |
| Memory.BypassedIsList | src/node_link.rs:55-66 | bypassing a node and destroying it leaves a well-linked list without it |
| Memory.OrderEnds | src/mark_sweep.rs:494-557 | when the passes are through, everything has been taken once, in drop order |
| Memory.DisposedTwice | src/mem.rs:287-339 | freeing one set of nodes after another equals freeing them together |
| Memory.InvSuffices | src/heap.rs:26-53 | every state of a legal run meets the preconditions of the heap's methods |
| Memory.DropsIff | src/mark_sweep.rs:460-470 | of the nodes given exactly those whose registered type has a drop function are dropped, and their pass is that type's |
| DropOrder.PeelIsDropOrder | src/mark_sweep.rs:491-557 | peeling passes off a shrinking list visits in stable drop-pass order |
| DropOrder.EachOnce | src/mark_sweep.rs:605-651 | and every node exactly once |
| DropOrder.NoneEarly | src/partition.rs:226-236 | no node is visited before one of an earlier pass |
| Accounting.SettersKeepLimit | src/heap.rs:140-171 | both setters keep usage within a set limit and the threshold below it or minimal |
| Accounting.SetLimitEffect | src/heap.rs:140-155 | a limit of zero lifts it; else it is the larger of request and usage, and a threshold it meets becomes the least number at or above three quarters of it, or the minimum |
| Accounting.SetThresholdEffect | src/heap.rs:162-171 | the threshold is the lesser of the request and eight tenths of the limit, rounded down and saturating; without a limit the request |
| Accounting.OverLimitIff | src/mem.rs:83-87 | an allocation is refused iff admitting it would break the limit |
| Accounting.ChargeOk | src/mem.rs:83-87 | an admitted allocation keeps the counters right and the limit unexceeded |
| Accounting.ReleaseOk | src/heap.rs:267-284 | freeing nodes by their layout sizes underflows no counter and keeps them right |
| Accounting.DeltaFaithfulIff | src/mem.rs:180 | the 32-bit delta is the size iff the size is below 2^31 |
| Weak.PackRoundTrip | src/weak.rs:8-28 | packing index and version in 32 bits loses neither and is never null |
| Weak.DowngradeOk | src/weak.rs:100-147 | occupied slots and identified nodes stay in bijection, versions count issues modulo 255, and the new handle upgrades to its node |
| Weak.DowngradeEffect | src/weak.rs:100-147 | an identifier once given stays; a new one takes the lowest free slot, else one more, and is refused only with all 2^24 - 1 slots made; no other identifier or slot changes |
| Weak.ForgetOk | src/mem.rs:287-297 | disposal keeps the bijection |
| Weak.ForgetEffect | src/mem.rs:287-297 | and afterwards no handle upgrades to what is gone, while every other handle upgrades as before |
| Weak.LiveHandleUpgrades | src/weak.rs:150-174 | while a node is in memory its handle upgrades to it |
| Weak.HandlesAreUnique | src/weak.rs:100-147 | different nodes have different handles |
| Weak.StaleHandle | src/weak.rs:134-174 | an old handle upgrades iff its slot is occupied and was re-issued a multiple of 255 times, and to its own node if fewer |
| Scopes.LocalIffCached | src/scope.rs:142-173 | a node carries LOCAL iff some open scope caches it |
| Scopes.CachedOnlyOnce | src/scope.rs:142-282 | no node is in two scopes or twice in one |
| Scopes.RemoveOk | src/scope.rs:202-219 | removal keeps that, dropping LOCAL of exactly the removed node |
| Scopes.PromoteOk | src/scope.rs:239-270 | promotion to any open scope, of any partition and itself included, keeps that and every LOCAL flag |
| Scopes.PromoteEffect | src/scope.rs:239-270 | exactly a node cached in the first scope moves to the target's cache; no other cache, and no LOCAL flag, changes |
| Scopes.PromoteOwnNodesIff | src/scope.rs:239-270 | scopes keep to nodes of their own partition iff nothing moved or both scopes are of one partition |
| Scopes.PopScopeOk | src/scope.rs:297-320 | popping keeps the invariant |
| Scopes.PopEffect | src/scope.rs:297-320 | with a scope open: one scope fewer, the lower scopes and other stacks as they were, and exactly the nodes the top scope cached lose LOCAL |
| Scopes.PopUndoesScope | src/scope.rs:297-489 | push, then any additions to the new scope, then pop gives back the table |
| Scopes.PushOk | src/scope.rs:453-489 | pushing keeps that and popping undoes it |
| Scopes.AcquireEffect | src/scope.rs:366-382 | the stack acquired is the first idle one, else a new one, and empty; no other stack changes |
| Scopes.ReleaseEffect | src/scope.rs:384-393 | a released stack is idle, and is the one acquired next if it is the first idle; acquiring it again for its partition gives back the table |
| Scopes.ReleaseUndoesAcquire | src/scope.rs:366-393 | releasing what was just acquired from an idle stack gives back the table |
| Scopes.ClearPartitionOk | src/partition.rs:186-192 | after clearing a partition's stacks, exactly the locals cached by other stacks remain |
| Scopes.ClearPartitionEffect | src/partition.rs:186-192 | every scope stays open; those of the partition's stacks cache nothing and all others what they did |
| Scopes.ClearedOfPartitionIff | src/partition.rs:186-192 | none of them is a node of the partition iff its own stacks held all its locals |
| Hazards.RemovalKeepsScopesIff | src/partition.rs:186-321 | removing a partition leaves the scopes well formed iff its own stacks hold all its locals |
| Ownership.StepKeepsOwn | src/scope.rs:131-282 | caching and promoting within one partition, every operation leaves each scope with nodes of its own partition only |
| Ownership.OwnRunsMayRemove | src/partition.rs:179-321 | after any run that keeps to that, every closed partition without unlinked nodes may be removed |
| Hazards.PromotedThenFreed | src/partition.rs:186-321 | a node promoted to another partition's scope stays cached there when its partition's removal frees it |
| Hazards.PromotionOutlivesItsNode | src/scope.rs:239-270 | a concrete heap with one node on which that happens |
| Scopes.ClearUpToScope | src/partition.rs:186-192 | one more `clear` advances the nested loops' state by one scope |
| Header.DecodeSetColor | src/node.rs:127-129 | setting the colour changes the colour bits and nothing else |
| Header.DecodeFlag | src/node.rs:136-146 | setting or clearing a flag changes that flag and nothing else |
| Header.DecodeNew | src/mem.rs:113-128 | a new word is White, of its type, without flags but ARENA_ALLOC where the arena served it |
| Header.RootOrLocalIff | src/node.rs:165-169 | the combined mask test is the disjunction of the two flags |
| Traversal.TraverseIsBreadthFirst | src/trace.rs:100-138 | exactly the nodes reachable through unflagged nodes, each once, in ascending distance, each from an earlier parent one step nearer with an edge to it |
| Traversal.BfsComplete | src/trace.rs:114-137 | from any loop state, what remains to be visited is exactly what is reachable and not yet visited |
| Traversal.Called | src/trace.rs:124-126 | called back are exactly the visits passing the filter; without a filter all, in order |
| Traversal.CalledIsFilter | src/trace.rs:124-126 | with a filter the callbacks are the stable filter of the visits, order and multiplicity kept |
| Arena.RunOk | src/arena.rs:57-175 | over any run of `alloc`, `collect_hole` and `finish_sweep`, live blocks, free entries and pending holes are disjoint and below the frontier, which is within capacity |
| Arena.AllocOk | src/arena.rs:57-100 | an allocation returns a block that was not live and keeps the invariant, or changes nothing |
| Arena.AllocRefusedIff | src/arena.rs:57-100 | refused iff no aligned place between frontier and capacity holds the request and no free entry is long enough |
| Arena.AllocBumps | src/arena.rs:57-68 | with room at the frontier: the least multiple of the alignment at or above it, and the frontier moves just past the block |
| Arena.AllocReuses | src/arena.rs:70-100 | without: the lowest entry that is long enough leaves the list whole, and the frontier stays |
| Arena.CollectOk | src/arena.rs:106-131 | collecting keeps the invariant, also when it rewinds the frontier |
| Arena.CollectEffect | src/arena.rs:106-131 | each word of a collected block is above the new frontier or in a pending hole; every other word, block and entry is as it was |
| Arena.CollectUndoesBump | src/arena.rs:115-124 | collecting the block just bumped returns the frontier to where it began |
| Arena.CoalesceOk | src/arena.rs:143-165 | disjoint holes in any order become strictly ascending entries, no two touching, covering exactly the same words |
| Arena.FinishOk | src/arena.rs:134-175 | a sweep's end keeps live blocks; with none live it resets fully, else the free list covers exactly the holes |
| Arena.FirstFitIsLowest | src/arena.rs:80-100 | first fit is the lowest address that fits |
| Arena.RunsAreAligned | src/arena.rs:61-78 | when every requested alignment is a multiple of one, every block of every run is aligned to it |
| Arena.MixedAlignmentsMisalign | src/arena.rs:70-74 | a run with mixed alignments that returns a misaligned block |
| Arena.PointersAlignedIff | src/arena.rs:37 | aligned offsets give aligned pointers for every base iff the alignment is at most 16 bytes |
| Placement.HistoryOk | src/mem.rs:96-146 | over any history of allocations, sweeps in any order and removals, a partition's arena nodes and its arena's live blocks are in bijection, each block as large as its node's layout |
| Placement.PlaceEffect | src/mem.rs:96-146 | a node is placed iff the arena serves it, in the block it was given; no other node moves |
| Placement.RemovalForgets | src/partition.rs:91-97 | what follows a removal goes as it would in a new arena, whatever came before |
| Placement.NodesDisjoint | src/arena.rs:57-78 | two arena nodes never share a word |
| Placement.CollectAllOk | src/mark_sweep.rs:521-540 | every `collect_hole` of a sweep is for a live block of the size it was asked for; exactly the other nodes stay placed (which nodes the flag picks: `ArenaNodes.SweepKeepsFlags`) |
| Placement.SweepArenaOk | src/mark_sweep.rs:487-562 | survivors keep their blocks; with none left the arena is as new |
| Placement.SweepLosesNothing | src/mark_sweep.rs:487-562 | every word of a node a sweep frees is above the frontier or on the free list afterwards |
| ArenaNodes.SweepKeepsFlags | src/mark_sweep.rs:521-562 | where the flagged headers of a partition are the nodes its arena serves, the calls made for a sweep's flagged nodes are all legal, with the registry's sizes, and do what sweeping all its nodes would; afterwards flags and placement agree again |
| ArenaNodes.CollectionKeepsFlags | src/mark_sweep.rs:589-602 | so with the order and holes that `garbage_collect` reports |
| ArenaNodes.AllocKeepsFlags | src/mem.rs:96-146 | an allocation that the arena serves is flagged, one that it refuses is not, and both keep the agreement |
| ArenaMemory.LiveWritesKeepFreeList | src/arena.rs:185-209 | writing into a live block cannot disturb the in-memory free list |
| ArenaMemory.Unlinked | src/arena.rs:87-94 | one link write takes an entry out of the list in memory |
| ArenaMemory.GcArena.Alloc | src/arena.rs:57-78 | refines the value-level allocation; no live word changes; the live count is right |
| ArenaMemory.GcArena.AllocFromFreeList | src/arena.rs:81-100 | the walk in memory finds and unlinks the first fit |
| ArenaMemory.GcArena.CollectHole | src/arena.rs:106-131 | refines the value-level step and writes no word |
| ArenaMemory.GcArena.FinishSweep | src/arena.rs:134-175 | rebuilds the headers in dead blocks only; no live word changes |
| ArenaMemory.GcArena.MergeInPlace | src/arena.rs:149-165 | the in-place two-pointer pass computes the fold that `CoalesceOk` is about |
| Layout.MaskIsAlignUp | src/gctype.rs:51-55 | for every value and power of two the mask expression rounds up to a multiple |
| Layout.MaskIsLeast | src/gctype.rs:51-55 | and that is the least multiple at or above the value |
| Layout.LayoutOk | src/gctype.rs:57-88 | the payload starts past the header and fits, the size is the least multiple of the alignment that holds it; the alignment is the header's or the payload's and a multiple of the header's |
| Layout.HeadAligns | src/gctype.rs:57-88 | a head aligned as the layout asks has an aligned payload |
| Layout.LayoutInWords | src/gctype.rs:67-88 | layouts are whole words, word-aligned, larger than a free entry's header |
| Layout.AlignUpInWords | src/arena.rs:61-62 | rounding up in words is rounding up in bytes |

## Left out

- Rust's own unsafety (aliasing, lifetimes, `Gc`/`GcRef` dereferencing, type punning) and the system allocator: an allocation's fresh address, or its failure, is a parameter.
- Heap.GcHeap.AllocNodeMem: whether the block comes from the arena is a parameter, and the class holds no arena: it logs the `collect_hole` calls it makes, and `Placement` and `ArenaNodes` say on values what they do.
- Arena.RunOk: counts in 8-byte words, not bytes; `Layout.LayoutInWords` shows that the collector's layouts are whole words.
- Payload destructors run no code of the heap here; drops are logged as a sequence of nodes.
- The deprecated `sweep` and `remove_partition`; their multi-step replacements are modelled.
- Debug-only code: poisoning, living-node tracking, assertions (they appear as preconditions).
- Preservation.StepOk: a run removes a partition only while its own stacks cache all its LOCAL nodes and adds a node to a scope only where the shading is right, which the source does not check; `Hazards.RemovalKeepsScopesIff` and `Preservation.ProtectedOkIff` show both to be exact.
- Heap.GcHeap.DisposeAllNodes: takes a list of one partition already off its chain; the heap's destructor, which detaches all chains and calls it, is not modelled.
- Heap.GcHeap.FilterRemoveWith: has the predicate and removal function of its one caller built in, not arbitrary closures.
- Heap.GcHeap.CreatePartition: stops below 65536 partitions, where the source's 16-bit ids would wrap; scope stacks are not bounded at 65536, nor scope depth at 2^32.
- Runs.SweepSparesTheLive: sweeps only partitions nothing else points into; for the others see `Hazards.LocalCollectionTakesReachableIff` and `Global.ConcurrentCycleIsSafe`.
- Global.ConcurrentCycleIsSafe: no reset, removal, sweep or new partition until the stacks are drained; what dies during the cycle may stay Black and go only in the next (`Snapshot.CycleTakesOldGarbage`).
- Memory.InvSuffices: registered layouts are below 2^31 bytes, since from there on the counters go wrong (`Accounting.DeltaFaithfulIff`); machine-word overflow of the counters is not modelled.
- `clear_local_flag`, free-standing `GcScopeState::new` and stale `GcRef`s, which break the invariants by contract.
- An absent and an empty scope cache are the same here.
- The derive macro, container trace implementations and trivial getters, `contains`, `protect_nodes`, `should_gc`.

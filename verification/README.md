# A model of the binder driver

The driver under `kext/` lets processes call objects in other processes. A parcel of bytes goes from one process to
another; the objects named in it are rewritten so that they mean the same on the other side; counts of references are
kept so that an object lives as long as somebody can name it; threads wait on queues for calls, answers and news. All
of it happens under one lock, so every command is one step and a sleep is the only place where others get in between.

The model follows that. Each component has its state and its steps as values and functions, what every run keeps as an
invariant with one lemma per step, and theorems over whole runs. Beside it stands the code: a class whose fields are
the driver's, whose methods change them in place with the driver's loops, and whose contracts say that the new state is
what the step function gives. Failing allocations are inputs, so both outcomes are covered everywhere.

| files | component |
|---|---|
| `Arena`, `ArenaRuns`, `ArenaAllocator` | the buffers of a process's arena, as a list and as a map from bytes to owners |
| `Payload` | the layout of a payload and of its scatter-gather buffers, in 64-bit arithmetic |
| `Slots`, `SlotLives` | the table of cloned minors, and the life of one slot in it |
| `CallStacks`, `CallInvariant`, `CallSteps`, `CallEndings`, `CallTheorems`, `CallDelivery`, `CallBack` | synchronous calls, the two stacks each of them sits on, and their delivery |
| `CallClosing`, `CallDriver` | the same as code, with the teardown of threads and processes |
| `RefCounts`, `RefHandles`, `RefClose`, `RefFlags`, `RefRoutes` | nodes, handles, counts, news for owners and where it waits, and what becomes of them when processes go |
| `RefFreeing`, `RefOrphans` | when a node is freed, and what outlives its owner |
| `Transfer`, `Parcels`, `ParcelRefusal`, `ParcelSelf`, `ParcelRelease` | objects translated, refused and released, one by one and by the parcel |
| `Reconcile` | what an owner is told about an object, and in which order |
| `RefRuns`, `RefLedger`, `RefCommands`, `RefWitness` | runs of all of that together: internal counts, news, the grammar, the ledger of counts, and asking for handles |
| `RefDriver`, `HandleTable` | the counts and the handle list as code |
| `Wire`, `WireDriver`, `WireOverlap`, `WireWitness` | parcels as bytes, the two walks over them as code, and offsets given twice |
| `WorkQueues` | every operation that queues, moves or frees a work item |
| `ReadLoop` | the loop that turns queued work into commands |
| `Oneway` | oneway calls to one object |
| `Death` | death notifications |

Some things the comments in the driver suggest do not hold in general. Each of these is stated with a concrete input
that shows it and with the exact condition under which it does hold:

- A send that fails part way releases objects it never translated, read as the receiver's own
  (`ParcelRelease.FailedSendRestores`, `SendRestoresIff`, `RefWitness.FailedSendDisturbs`; which object fails is
  `ParcelRefusal.RefusedIff` and `ParcelSelf.StopIsKnown`).
- Such a send, and a client that releases more than it took, leave counts that nothing accounts for
  (`RefLedger.LedgerKeptIff`, `RefWitness.FailedSendDisturbs`).
- An offset given twice can leave the receiver with another object (`WireOverlap.RepeatedOffset`,
  `WireWitness.RepeatMisleads`).
- A thread that exits takes news and death notices on its own queue with it (`RefRuns.ExitKeepsNewsIff`,
  `RefWitness.ExitCanLoseNews`, `Death.ExitKeepsIff`, `ExitCanLoseNotice`).
- An object its owner was told of, or had counts on, is never freed once the owner has gone
  (`RefOrphans.CloseFreesIff`, `ObjectFate`, `RefWitness.ToldObjectIsLeft`).
- A weak hold taken first or given back last is not reported to a live owner (`RefFreeing.TakeWeakNewsIff`,
  `DropWeakNewsIff`, `RefWitness.WeakHoldUnreported`).
- Freeing a buffer of an ordinary call lets a second oneway call into flight (`Oneway.FreeKeepsOneIff`, `TwoInFlight`).
- Returning a buffer's size rather than its charge lets asynchronous traffic exceed half the arena
  (`ArenaRuns.AsyncHalf`, `StepKeepsHalfIff`, `HalfCanBeExceeded`).
- A second manager is given descriptor 0 while a handle on the first one has it (`HandleTable.DistinctIff`,
  `SecondManagerHides`, `TwoManagers`).
- A nested call on a thread's own queue is freed unanswered when its process closes
  (`CallTheorems.CloseAnswersIff`, `CloseTellsIff`, `CallBack.CallBackUnanswered`).

The runs of `CallTheorems` are those in which a thread calls only when idle or while serving the top of its stack, and
not into its own process. The runs of `RefRuns` are those with at most one manager per context; clients may give back
what they do not have, and any send may fail. Only the account of counts in `RefLedger` is about fewer: the runs whose
steps keep it, by an exact condition on each step. All allow any number of processes, threads, objects, exits and
closes.

`dafny verify dfyconfig.toml` checks everything.

## Model

| member | source | states |
|---|---|---|
| `Arena.RunInOneBuffer` | kext/binder_alloc.c:295-306 | A run of free bytes lies inside one free buffer: neighbours are always merged |
| `Arena.LowestFit` | kext/binder_alloc.c:224-231 | First fit over buffers is lowest fit over bytes, and finds nothing exactly when no run of `need` free bytes exists |
| `Arena.CarveKeepsList` | kext/binder_alloc.c:233-246 | Taking and splitting a buffer keeps the list tiling the arena in order, in non-empty 8-aligned extents, with no two free neighbours |
| `Arena.CarveAddsLive` | kext/binder_alloc.c:233-261 | An allocation adds exactly one live extent and moves none |
| `Arena.CoalesceRemovesLive` | kext/binder_alloc.c:286-306 | A free keeps the list valid and removes exactly that live extent |
| `Arena.NeedAligned` | kext/binder_alloc.c:215-216 | The size asked for is a multiple of eight whatever the client supplied, wrap-around included |
| `Arena.Canonical` | kext/binder_alloc.c:233-306 | Two valid lists with the same live extents are the same list |
| `Arena.AllocThenFree` | kext/binder_alloc.c:204-307 | An allocation freed at once leaves the list exactly as it was |
| `ArenaRuns.RunKeepsInv` | kext/binder_alloc.c:126-307 | Every run of allocations and frees keeps the arena tiled, merged and charged |
| `ArenaRuns.AllocRefines` | kext/binder_alloc.c:204-261 | As a map from bytes to owners: the extent handed out was free, is as low as any that fits, and only its bytes change owner |
| `ArenaRuns.AllocFailsIffNoRun` | kext/binder_alloc.c:217-231 | Once the size, budget and record checks pass, allocation fails if and only if no run of `need` free bytes exists |
| `ArenaRuns.AllocGrantedIff` | kext/binder_alloc.c:204-246 | An allocation is granted if and only if something is asked for, an asynchronous one is within the budget, a run of that many free bytes exists, and there is memory for a record when the lowest one leaves a split's worth; nothing else is refused |
| `ArenaRuns.FreeRefines` | kext/binder_alloc.c:267-307 | As a map from bytes to owners: exactly the bytes of the freed extent are let go |
| `ArenaRuns.FreesCommute` | kext/binder_alloc.c:295-306 | Two frees in either order leave the same list |
| `ArenaRuns.FreeEverything` | kext/binder_alloc.c:295-306 | Freeing all live extents, in any order, leaves the one free buffer of registration |
| `ArenaRuns.CreditIsSlack` | kext/binder_alloc.c:257-284 | What a free returns beyond its charge is 0, 8, 16 or 24 bytes |
| `ArenaRuns.AsyncLedger` | kext/binder_alloc.c:159-284 | After every run, unspent budget plus live asynchronous charges is half the arena plus the slack credited so far |
| `ArenaRuns.AsyncHalf` | kext/binder_alloc.c:159-284 | After every run, live asynchronous charges are within half the arena if and only if the slack credited so far is within the unspent budget |
| `ArenaRuns.StepKeepsHalfIff` | kext/binder_alloc.c:217-261 | Before each operation: charges within half the arena stay so if and only if it is no asynchronous allocation that goes through, or the budget covers its size and the slack credited |
| `ArenaRuns.HalfCanBeExceeded` | kext/binder_alloc.c:257-284 | A concrete run that credits slack and ends with more than half the arena charged to asynchronous buffers |
| `ArenaAllocator.Allocator.constructor` | kext/binder_alloc.c:165-184 | A process starts without an arena |
| `ArenaAllocator.Allocator.Register` | kext/binder_alloc.c:126-163 | Exactly one result in each case: EBUSY with an arena, EINVAL for a range that cannot be one, ENOMEM without memory, and otherwise the registered state of the model |
| `ArenaAllocator.Allocator.Alloc` | kext/binder_alloc.c:204-261 | The scan, the split and the budget, in place, are the allocation step of the model; failures change nothing |
| `ArenaAllocator.Allocator.FindFit` | kext/binder_alloc.c:224-231 | The scan is the first fit of the model |
| `ArenaAllocator.Allocator.Take` | kext/binder_alloc.c:233-260 | Splitting and taking the chosen buffer in place is the carving of the model |
| `ArenaAllocator.Allocator.Free` | kext/binder_alloc.c:267-307 | Freeing in place is the free step of the model; a buffer already free is left alone |
| `ArenaAllocator.Allocator.Merge` | kext/binder_alloc.c:286-306 | Merging forwards and then backwards in place is the coalescing of the model |
| `ArenaAllocator.Allocator.Lookup` | kext/binder_alloc.c:315-338 | A pointer finds a buffer if and only if it is the client address of the start of a live extent, and then that one |
| `Payload.AcceptedMeans` | kext/binder_txn.c:429-443 | The bounds checks admit exactly the sizes whose rounded sum is positive and within the limit in unbounded arithmetic: nothing gets past by wrapping |
| `Payload.AreasDisjoint` | kext/binder_txn.c:437-449 | The three areas are in order, disjoint and aligned, and fill a kernel copy as large as what the allocator is asked for |
| `Payload.PlaceBuffers` | kext/binder_txn.c:499-550 | The walk over scatter-gather lengths succeeds if and only if all fit, and then each pointer is the next aligned place in the third area; `PayloadFits` derives what it asks of the address |
| `Payload.PayloadFits` | kext/binder_alloc.c:126-163 | Of every payload that got a buffer: the third area ends inside the arena, and the arena inside the address space |
| `Payload.BufferInArea` | kext/binder_txn.c:535-550 | Every placed buffer stays inside the third area |
| `Payload.BuffersDisjoint` | kext/binder_txn.c:535-550 | No two placed buffers overlap |
| `Payload.BuffersAligned` | kext/binder_txn.c:535-550 | Placed buffers are 8-aligned |
| `Payload.BuffersTight` | kext/binder_txn.c:535-550 | The first buffer is at the start of the area and each next one at the first aligned address behind the one before, so gaps are under 8 bytes |
| `Payload.PointersInOwnExtent` | kext/binder_txn.c:547-549 | Every rewritten pointer lies in bytes that the arena holds for this payload |
| `Slots.EveryRun` | kext/binder_dev.c:115-249 | After every run of lookups, opens and closes, no two unopened slots share a process and context, and sequence numbers tell lookups apart |
| `Slots.FailsIffAllOpened` | kext/binder_dev.c:145-165 | A lookup in a context in use fails if and only if every slot is opened |
| `Slots.OpenedIsLeftAlone` | kext/binder_dev.c:136-176 | An opened slot is neither handed out nor changed by anything but its own close |
| `Slots.ReclaimsLeastRecent` | kext/binder_dev.c:149-165 | A slot taken back is, of all unopened ones, the one looked up longest ago |
| `Slots.StableUntilConsumed` | kext/binder_dev.c:135-143 | A repeated lookup returns the same minor through any run that does not open, close or reclaim the slot |
| `SlotLives.LookupHands` | kext/binder_dev.c:133-176 | A lookup that succeeds leaves its slot outstanding for its own process and context, was given no opened slot, and changes no other |
| `SlotLives.OpenAnswers` | kext/binder_dev.c:196-225 | ENXIO if and only if the slot is not handed out, EBUSY if and only if it is in use, and otherwise Opened or ENOMEM by memory; only Opened changes anything |
| `SlotLives.InUseUntilClosed` | kext/binder_dev.c:196-225 | After an open, through any run without its close, the slot is in use, every further open of it answers EBUSY, and no lookup is handed it |
| `SlotLives.NeverHandedIsRefused` | kext/binder_dev.c:196-204 | After any run, opening a slot that was never handed out answers ENXIO and changes nothing |
| `SlotLives.ClosedIsRefused` | kext/binder_dev.c:229-249 | So does opening a closed one, after any run that does not hand it out again |
| `SlotLives.ClosedIsHandedOut` | kext/binder_dev.c:229-249 | After a close no lookup fails, and one that finds every other slot taken and none of its own gets the closed slot |
| `Slots.SlotTable.constructor` | kext/binder_dev.c:69-70 | The table starts empty |
| `Slots.SlotTable.Clone` | kext/binder_dev.c:115-176 | An action other than allocation returns 0 and changes nothing; otherwise the lookup in place is the lookup step of the model |
| `Slots.SlotTable.FindMine` | kext/binder_dev.c:135-143 | The first scan finds the first outstanding lookup of the process in the context |
| `Slots.SlotTable.FindRoom` | kext/binder_dev.c:145-165 | The second finds the first slot not handed out, or else the unopened one looked up longest ago |
| `Slots.SlotTable.Open` | kext/binder_dev.c:181-227 | Opening in place is the open step of the model, with each error; of the minors that name no slot only the control device opens; `SlotLives` says what the answers mean over runs |
| `Slots.SlotTable.Close` | kext/binder_dev.c:229-249 | Closing in place is the close step of the model; `SlotLives.ClosedIsHandedOut` and `ClosedIsRefused` say what follows |
| `CallInvariant.ServedTopIsLast` | kext/binder_txn.c:603-617 | The call a thread is serving on top of its stack is the end of its chain of nested calls |
| `CallInvariant.QueuedIsLast` | kext/binder_txn.c:603-617 | A call still queued is the end of its chain |
| `CallInvariant.TargetThreadIs` | kext/binder_txn.c:333-344 | The walk up the chain finds the deepest caller of the target process, or nobody exactly when there is none |
| `CallSteps.CallKeepsInv` | kext/binder_txn.c:608-617 | A synchronous call, made idle or while serving and not into its own process, keeps the invariant of chains and stacks |
| `CallSteps.DeliverKeepsInv` | kext/binder_proc.c:852-858 | A delivery keeps the invariant of chains and stacks |
| `CallEndings.ReplyKeepsInv` | kext/binder_txn.c:374-388 | A reply keeps the invariant of chains and stacks |
| `CallEndings.ExitKeepsInv` | kext/binder_proc.c:198-273 | A thread exit keeps the invariant of chains and stacks |
| `CallEndings.CloseKeepsInv` | kext/binder_proc.c:308-399 | A process close keeps the invariant of chains and stacks |
| `CallTheorems.EveryRun` | kext/binder_txn.c:603-617 | After every run, with any exits and closes along the way, the stacks below each call are the ones from before it, and each live caller is queued, served or answered |
| `CallTheorems.ReplyReturns` | kext/binder_txn.c:374-388 | A reply goes to the own queue of exactly the thread that made the call, and both stacks are again what they were before it |
| `CallTheorems.ReplyLeavesOthers` | kext/binder_txn.c:244-264 | No third thread's stack changes by a reply |
| `CallDelivery.ReplyIsDone` | kext/binder_proc.c:852-858 | A delivered reply is gone; no thread and no other transaction has changed |
| `CallDelivery.CallIsTaken` | kext/binder_proc.c:852-858 | A delivered call is off its queue and on top of the reader's stack, above what was there; nothing else has changed |
| `CallDelivery.NeverTwice` | kext/binder_proc.c:852-858 | In every run no transaction, call or reply, is delivered twice |
| `CallTheorems.CallbackLands` | kext/binder_txn.c:333-344 | A nested call into a process with a waiting thread in the chain is queued on that very thread, and otherwise on the process |
| `CallTheorems.CloseAnswers` | kext/binder_proc.c:357-389 | When a process closes, every live caller whose call is on the process queue or on a server's stack has BR_DEAD_REPLY queued; in the latter case the call stays on the caller's stack |
| `CallTheorems.CloseAnswersIff` | kext/binder_proc.c:357-389 | A close answers a live caller's call into the process if and only if the call does not wait on the own queue of a thread |
| `CallTheorems.CloseTellsIff` | kext/binder_proc.c:357-389 | After it a caller that stays has BR_DEAD_REPLY queued if and only if it had before or has a call into the process that is on the process queue or being served |
| `CallTheorems.ClosePops` | kext/binder_proc.c:247-262 | A call still queued in the closing process is gone, and the top of its caller's stack is again what lay below it |
| `CallDelivery.ExitTellsIff` | kext/binder_proc.c:198-246 | When a thread exits, a thread that stays has BR_DEAD_REPLY queued if and only if it had before or the exiting thread was serving a call it made, and nothing else about it changes |
| `CallDelivery.ExitLeaves` | kext/binder_proc.c:247-273 | An exit leaves every transaction there and none addressed to the thread: what waited on its queue waits on its process, and what concerns others is as it was |
| `CallDelivery.CloseLeaves` | kext/binder_proc.c:308-398 | A close leaves no thread of the process; a transaction is gone if and only if it waited on a queue of the process or of one of its threads, and one between others is as it was |
| `CallDelivery.ReplyToNobody` | kext/binder_txn.c:374-388 | A reply whose caller has gone ends the call and queues BR_DEAD_REPLY on the replier, and nothing else |
| `CallDelivery.ErrorsAre` | kext/binder_proc.c:941-998 | A send that fails queues exactly its error on exactly the sender, reading an error clears exactly the reader's, and neither touches a stack or a transaction |
| `CallDelivery.ErrorUntilRead` | kext/binder_proc.c:941-998 | In every run a thread with an error queued has one queued until it reads it or goes |
| `CallBack.CallBackUnanswered` | kext/binder_proc.c:257-262 | A run in which that happens: one process calls another, is called back on the waiting thread, and closes; the caller back is left with nothing queued |
| `CallDriver.Driver.TargetThreadFor` | kext/binder_txn.c:333-344 | The loop up the caller's links is the target thread of the model |
| `CallDriver.Driver.FreeTransaction` | kext/binder_txn.c:244-264 | Freeing pops whichever of the two stacks has it on top, in place |
| `CallDriver.Driver.SendCall` | kext/binder_txn.c:608-617 | Queueing a call in place is the call step of the model |
| `CallDriver.Driver.SendReply` | kext/binder_txn.c:374-388 | Popping, finding the caller and queueing the answer in place is the reply step of the model, a dead caller included |
| `CallDriver.Driver.ReadTransaction` | kext/binder_proc.c:852-858 | Delivering in place is the delivery step of the model, of which `CallDelivery` says that it is done with a reply and takes a call off its queue |
| `CallDriver.Driver.Unwind` | kext/binder_proc.c:212-245 | The walk down a dying thread's links detaches every call it made and tells every caller it was serving |
| `CallDriver.Driver.ThreadRelease` | kext/binder_proc.c:198-273 | The stack walk and the queue loop are the exit step of the model |
| `CallDriver.Driver.HandBack` | kext/binder_proc.c:247-262 | The queue loop moves exactly the undelivered transactions of the thread to the process |
| `CallDriver.Driver.ProcRelease` | kext/binder_proc.c:357-394 | The queue loop and the releases of all threads, in any order, are the close step of the model |
| `CallDriver.WalkReachesAll` | kext/binder_proc.c:212-245 | After every run, following a thread's links from its top reaches every call it takes part in, once |
| `CallDriver.ClosableAlways` | kext/binder_proc.c:357-394 | After every run a process meets what ProcRelease requires |
| `RefHandles.TakeRefInv` | kext/binder_node.c:328-396 | Taking a handle keeps internal counts, handle tables and news, unless a new handle lands on a used descriptor |
| `RefHandles.DropRefInv` | kext/binder_node.c:358-396 | Dropping a count, with the deletion of an empty handle and of a node nothing needs, keeps them too |
| `RefHandles.RefDeleteInv` | kext/binder_node.c:411-435 | Deleting a handle outright keeps them, and removes that handle alone |
| `RefCounts.LocalUpdateInv` | kext/binder_node.c:195-242 | A change of the owner's own counts keeps them |
| `RefCounts.MaybeFreeInv` | kext/binder_node.c:119-158 | A node that is freed was held by nobody, so nothing else changes |
| `Transfer.FreshDesc` | kext/binder_node.c:311-325 | With one manager, a new handle never lands on a descriptor in use |
| `Transfer.TakeRefCounts` | kext/binder_node.c:328-396 | Taking a handle raises exactly one count, by one, on the descriptor handed out |
| `Transfer.LocalUpCounts` | kext/binder_node.c:195-242 | A handle going home raises exactly one count of the owner's, by one |
| `Parcels.TranslateIs` | kext/binder_txn.c:129-207 | Whichever way one object goes: what was named stays named, one count goes up, and receiver and sender mean the same node with the same strength; a failure changes no count |
| `Parcels.HandleGoesHome` | kext/binder_txn.c:187-196 | A handle that reaches the owner becomes the owner's own address and cookie |
| `Parcels.TranslateAllIs` | kext/binder_txn.c:471-569 | For a whole parcel, up to its end or the first failure: each rewritten object means the same to the receiver and holds one count |
| `Parcels.ReleaseIs` | kext/binder_txn.c:291-318 | Releasing one object lowers exactly the count it names, by one, if that is not zero already |
| `ParcelRefusal.RefusedIff` | kext/binder_txn.c:129-207 | One object is refused if and only if it is not accepted, names a descriptor the sender does not have, has another cookie than its node, or needs a node or handle there is no memory for |
| `ParcelRefusal.WalkStopsAt` | kext/binder_txn.c:471-569 | A walk rewrites exactly the objects before the first one refused on the way |
| `ParcelRefusal.StopBetween` | kext/binder_txn.c:471-569 | Between two processes that first one is decided by the state before the send: by what the sender's objects name, which of them name the same, and what the receiver has |
| `ParcelSelf.StopWithin` | kext/binder_txn.c:471-569 | In a parcel to the sender itself too: a handle is refused if and only if its descriptor is neither in the table nor among those that earlier objects of the parcel are given |
| `ParcelSelf.StopIsKnown` | kext/binder_txn.c:471-569 | So for every parcel: a walk rewrites `k` objects if and only if `k` is the first that the state before the send refuses |
| `ParcelRelease.ReleaseAllIs` | kext/binder_txn.c:273-324 | The release walk lowers each count by the number of objects naming it, down to none |
| `ParcelRelease.ReleaseUndoesTranslate` | kext/binder_txn.c:273-324 | Release after a complete translation restores every count, every handle table and every internal count |
| `ParcelRelease.FailedSendRestores` | kext/binder_txn.c:565-568 | A send refused at object `k` restores them if and only if the objects from `k` on name nothing the receiver holds |
| `ParcelRelease.SendRestoresIff` | kext/binder_txn.c:471-653 | The same with `k` known before the send |
| `ParcelRelease.FailedSendCanDisturb` | kext/binder_txn.c:650-653 | A concrete send that fails and costs the receiver a handle of its own |
| `RefWitness.FailedSendDisturbs` | kext/binder_txn.c:650-653 | A run that ends with that send, after which a live buffer names a handle its process no longer has |
| `RefClose.ThreadExitInv` | kext/binder_proc.c:247-267 | A thread exit loses the news on its own queue and nothing else |
| `RefClose.StepDownInv` | kext/binder_proc.c:328-339 | A manager that steps down changes nobody else's counts |
| `RefClose.CloseInv` | kext/binder_proc.c:308-353 | A closing process changes nobody else's counts or handles, and every object it owned has no owner |
| `RefFreeing.LocalFreesIff` | kext/binder_node.c:119-158 | A change of the owner's counts frees the node if and only if it gives back the last one, nobody has a handle, the owner is gone and nothing is told or queued; a live owner is told instead |
| `RefFreeing.ReleaseFreesIff` | kext/binder_node.c:358-396 | Giving back a count of a handle frees its node if and only if it is the last count of the last handle, the owner has none, nothing is told or queued, and the owner is gone or the count weak |
| `RefFreeing.DeleteFreesIff` | kext/binder_node.c:411-435 | Deleting a handle outright frees its node by the same condition, whatever its counts |
| `RefFreeing.ReadFreesIff` | kext/binder_proc.c:662-732 | A read emits DECREFS if and only if it fits, the owner was told and nobody holds the node; it frees the node if and only if it emits that and no temporary hold is left; a node that stays is off its queue and its owner knows who holds it |
| `RefFreeing.DieFreesIff` | kext/binder_node.c:250-268 | An owner that goes takes along exactly the nodes that nobody holds and of which nothing is told or queued |
| `RefFreeing.TakeWeakNewsIff` | kext/binder_node.c:358-396 | A live owner informed of weak holds, or with news queued, stays so when a handle is taken if and only if it is not the first hold, taken weakly, while the owner was told of none and has nothing queued |
| `RefFreeing.DropWeakNewsIff` | kext/binder_node.c:358-396 | It does not stay so when a count is given back if and only if that is the last hold, given back weakly, while the owner was told of one and has nothing queued, and the node stays |
| `RefWitness.WeakHoldUnreported` | kext/binder_node.c:358-396 | A run that ends with an object held weakly whose live owner was told of nothing and has no news of it |
| `RefOrphans.CloseFreesIff` | kext/binder_proc.c:341-353 | Of the objects of a closing process exactly those go that no other process has a handle on, that have no count of the owner's, and of which the owner was told nothing and has nothing queued |
| `RefOrphans.CloseFrees` | kext/binder_proc.c:316-353 | The same on the state before the close: a closing manager lets go of its own object with the role, so that object goes unless another process has a handle on it or it is queued |
| `RefOrphans.OrphanLives` | kext/binder_node.c:119-158 | In every run an object without an owner is there while somebody has a handle on it, and for ever if its owner had a count on it or was told of one, or nobody had a handle |
| `RefOrphans.ObjectFate` | kext/binder_proc.c:341-353 | In every run, from the state before its owner closes: the object is there later if and only if the owner had a count on it or was told of one, or had news of it that nobody else had a handle on, or somebody has a handle then |
| `RefWitness.ToldObjectIsLeft` | kext/binder_node.c:119-158 | A run after which an object whose owner was told of it is still there, with no process left |
| `RefFlags.TranslateAllFlags` | kext/binder_txn.c:471-569 | Translation touches no flag of what owners were told |
| `RefFlags.ReleaseAllFlags` | kext/binder_txn.c:273-324 | Release touches no flag of what owners were told |
| `RefRuns.EveryRun` | kext/binder_node.c:174-242 | Invariant, births and grammar hold in every state of every run, whatever clients give back and whichever sends fail |
| `RefLedger.LedgerKeptIff` | kext/binder_txn.c:273-324 | A step keeps the ledger of counts if and only if it is neither the release of a count the client did not take nor a failing send that names something of the receiver's past the failure |
| `RefLedger.EveryFairRun` | kext/binder_txn.c:273-324 | In every run of such steps every count is the holder's balance plus the objects naming it in its live buffers |
| `RefLedger.HandleAccount` | kext/binder_proc.c:454-473 | So a handle's strong and weak counts are what its process took itself plus the objects naming it in its live buffers |
| `RefRuns.InternalCounts` | kext/binder_node.c:174-242 | In every run a node's internal count is the number of processes with a strong handle on it, all of them on its list |
| `RefRuns.NoEmptyHandle` | kext/binder_node.c:358-396 | In every run a handle's counts are never both zero, and its node exists and lists the holder |
| `RefCommands.AcquireAcceptedIff` | kext/binder_proc.c:454-473 | An increment is accepted if and only if the client has the descriptor, or asks for 0 while there is a manager that it has a handle on or can be given one; a refused one changes nothing |
| `RefCommands.AcquireGives` | kext/binder_proc.c:454-473 | An accepted one leaves the client with the answered descriptor on the node asked for and exactly that count one higher; the answer is the descriptor named, and 0 if the client had no handle on the manager |
| `RefCommands.ManagerIsReached` | kext/binder_node.c:449-504 | Once a manager has registered an object, every process without a handle on it that asks for handle 0 is given 0, on that object |
| `RefRuns.NoNewsLost` | kext/binder_node.c:174-242 | In every run whose threads exit with no strong news on their queues, a live owner has been told the truth about its object or the news waits where a thread of the owner reads |
| `RefRuns.NewsIsRouted` | kext/binder_node.c:174-187 | In every run a queued node has an owner, waits on the queue of the owner or of one of its threads, and is read by no thread but the owner's |
| `RefRoutes.TranslateAllRouted` | kext/binder_node.c:174-187 | Whoever sends, a parcel queues news only where the owners of its objects read |
| `RefRoutes.CloseRouted` | kext/binder_proc.c:357-398 | A process that closes leaves no node on its queue or on that of one of its threads |
| `RefRuns.ExitKeepsNewsIff` | kext/binder_proc.c:247-267 | A thread exit loses no strong news if and only if its queue held none |
| `RefWitness.ExitCanLoseNews` | kext/binder_proc.c:247-267 | A run in which it holds some and loses it: a thread sends a new object and exits before it reads |
| `RefRuns.GrammarKept` | kext/binder_proc.c:662-732 | In every run what is emitted about an object that is never the manager's is a prefix of (INCREFS (ACQUIRE RELEASE)* DECREFS)* |
| `Reconcile.Commands` | kext/binder_proc.c:681-695 | There are never more than two commands to emit |
| `Reconcile.ReadNodeInv` | kext/binder_proc.c:662-732 | Reading a node keeps the invariant, and leaves no lost news on that node |
| `Reconcile.CommandsContinue` | kext/binder_proc.c:700-731 | The commands continue the stream by the grammar, and the flags afterwards describe where in it the owner is |
| `Reconcile.ToldInGrammar` | kext/binder_proc.c:662-732 | A stream the flags describe is a prefix of the grammar |
| `Reconcile.NodeRecord.ReadNodeWork` | kext/binder_proc.c:662-732 | All or nothing: without room for all commands nothing changes; otherwise they are emitted and both flags are the truth |
| `RefDriver.Registry.MaybeFree` | kext/binder_node.c:119-158 | Freeing in place is the model's, the manager role included |
| `RefDriver.Registry.NotifyOwner` | kext/binder_node.c:174-187 | The owner's thread or process queue is chosen as in the model, once; `RefRuns.NewsIsRouted` says that it is one the owner reads |
| `RefDriver.Registry.UpdateRefs` | kext/binder_node.c:195-242 | The one entry point for counts, in place, is the model's, refusals included |
| `RefDriver.Registry.RefDelete` | kext/binder_node.c:411-435 | Deleting in place is the model's |
| `RefDriver.Registry.RefUpdate` | kext/binder_node.c:358-396 | Counting and deleting in place is the model's, refusals included |
| `RefDriver.Registry.GetForNode` | kext/binder_node.c:328-350 | The search, the next descriptor and the two links are the model's |
| `RefDriver.Registry.LowestUnused` | kext/binder_node.c:317-321 | The loop finds the lowest unused descriptor |
| `RefDriver.Registry.WriteRefCmd` | kext/binder_proc.c:454-473 | A client's command in place is the model's, asking for handle 0 included; `RefCommands` says when it is accepted and what it gives |
| `RefDriver.Registry.ContextMgrSet` | kext/binder_node.c:449-504 | Registration is refused while there is a manager, to any user but the first who tried, and without memory, in that order; otherwise it is the model's |
| `RefDriver.Registry.TranslateBinder` | kext/binder_txn.c:129-163 | Rewriting an own object in place is the model's, failures included |
| `RefDriver.Registry.TranslateHandle` | kext/binder_txn.c:172-207 | Rewriting a handle in place is the model's, failures included |
| `RefDriver.Registry.ReleaseObject` | kext/binder_txn.c:291-318 | Releasing one object in place is the model's |
| `RefDriver.Registry.KillNodes` | kext/binder_proc.c:343-347 | The loop over the objects of a closing process orphans and frees them as the model does |
| `RefDriver.Registry.DeleteRefs` | kext/binder_proc.c:351-353 | The loop over its handles deletes them as the model does |
| `RefDriver.Registry.ProcRelease` | kext/binder_proc.c:308-353 | Stepping down, the two loops and the emptied queues are the close step of the model |
| `HandleTable.Compact` | kext/binder_node.c:311-325 | The lowest free descriptor is at most the number of handles plus one |
| `HandleTable.Handles.FindByDesc` | kext/binder_node.c:280-290 | The search from the head finds the entry the table shows, or nothing exactly when it shows none |
| `HandleTable.Handles.FindForNode` | kext/binder_node.c:293-303 | The search by node finds an entry if and only if there is one |
| `HandleTable.Handles.NextDesc` | kext/binder_node.c:311-325 | 0 for the manager, otherwise the lowest number not in use, at most the number of handles plus one |
| `HandleTable.Handles.GetForNode` | kext/binder_node.c:328-350 | A new handle goes in front and leaves one per node; descriptors stay distinct unless a manager gets 0 while it is in use |
| `HandleTable.Handles.SetCounts` | kext/binder_node.c:358-391 | Counts changed on the list are changed in the table and nowhere else |
| `HandleTable.Handles.Remove` | kext/binder_node.c:422-425 | An entry off the list is gone from the table and nothing else is |
| `HandleTable.DistinctIff` | kext/binder_node.c:311-325 | A new handle keeps descriptors distinct if and only if it is not the manager's while 0 is in use |
| `HandleTable.SecondManagerHides` | kext/binder_node.c:311-325 | A handle on a second manager gets descriptor 0 beside any handle on the first, and a search for 0 then finds the second |
| `HandleTable.TwoManagers` | kext/binder_node.c:328-350 | Calls that get there: a handle on one manager, then on the next, and two handles with descriptor 0 |
| `HandleTable.ListRefinesTable` | kext/binder_node.c:328-350 | With one manager, the list after a new handle has distinct descriptors, one handle per node, and shows the table of the model |
| `Wire.DecodeEncode` | include/fs/devfs/binder.h:147-195 | Little-endian numbers written read back |
| `Wire.KindAt` | kext/binder_txn.c:97-117 | An offset names an object only if it is aligned and the whole object is inside the data |
| `Wire.RewriteIs` | kext/binder_txn.c:156-206 | A rewritten object reads back as what translation made of it and is as long as it was |
| `Wire.RewriteElsewhere` | kext/binder_txn.c:156-206 | Rewriting changes no byte outside the object |
| `Wire.SameObject` | kext/binder_txn.c:97-117 | Only the bytes of its extent decide what an offset names |
| `WireDriver.StoreAt` | kext/binder_txn.c:156-161 | A field stored byte by byte |
| `WireDriver.RewriteAt` | kext/binder_txn.c:156-206 | The stores of one translated object, in place |
| `WireDriver.RewriteStep` | kext/binder_txn.c:471-569 | When offsets name disjoint objects, rewriting one changes what that offset names and nothing else |
| `WireDriver.TranslateAt` | kext/binder_txn.c:473-500 | One turn of the loop on bytes is the translation of the object there |
| `WireDriver.TranslateData` | kext/binder_txn.c:471-569 | Whatever the offsets name, the loop over the array is the walk over bytes of the model, each turn reading what the turns before it left |
| `WireDriver.DisjointWalk` | kext/binder_txn.c:471-569 | On disjoint objects that walk is the walk over objects: the first ones are rewritten, the rest and every byte outside are as they came |
| `WireOverlap.RepeatedOffset` | kext/binder_txn.c:471-569 | An offset given twice leaves the receiver with what the sender has under the name the first turn wrote for the receiver; that is what the sender meant if and only if it is the receiver or has the node under the same descriptor |
| `WireWitness.RepeatMisleads` | kext/binder_txn.c:471-569 | A run and a parcel in which it is not: the receiver is left with another object than the one sent |
| `WireDriver.ReleaseData` | kext/binder_txn.c:273-324 | The release walk on bytes is the release of the objects named there |
| `WireDriver.SendData` | kext/binder_txn.c:471-653 | Whatever the offsets name, a send that fails, in the walk or after it, releases every object as the bytes then stand |
| `WireDriver.DisjointSend` | kext/binder_txn.c:471-653 | On disjoint objects a failed send restores counts and tables if and only if the objects from the first refused on name nothing the receiver holds |
| `WireDriver.BytesKeepMeaning` | kext/binder_txn.c:471-569 | Each object read from the rewritten bytes by the receiver means what the sender's bytes meant to the sender, and each count has risen by the number of rewritten objects that stand for it |
| `WorkQueues.InsertExact` | kext/binder_proc.c:50-61 | An insertion keeps every item on at most one queue, once, with its field naming it; an item queued already stays |
| `WorkQueues.DequeueExact` | kext/binder_proc.c:82-89 | A removal keeps that, and leaves the item nowhere |
| `WorkQueues.PutBackInPlace` | kext/binder_proc.c:1000-1011 | An item put back in front is where it was if it was the first |
| `WorkQueues.Queues.constructor` | kext/binder_proc.c:279-299 | No queues, no items |
| `WorkQueues.Queues.OpenProc` | kext/binder_proc.c:279-299 | A process starts with an empty queue |
| `WorkQueues.Queues.NewThread` | kext/binder_proc.c:168-191 | A thread starts with an empty queue and its error unlinked |
| `WorkQueues.Queues.NewNode` | kext/binder_node.c:55-88 | A node starts with its news unlinked and nothing behind it |
| `WorkQueues.Queues.QueueInsert` | kext/binder_proc.c:50-61 | The insertion in place |
| `WorkQueues.Queues.Unlink` | kext/binder_proc.c:82-89 | The removal in place, from the list the field names |
| `WorkQueues.Queues.Drop` | kext/binder_txn.c:250-263 | A transaction or death record is unlinked before it is freed |
| `WorkQueues.Queues.FreeThread` | kext/binder_proc.c:269-271 | A thread is freed with its own error unlinked and its queue empty |
| `WorkQueues.Queues.FreeNode` | kext/binder_node.c:148-158 | A node is freed with its news unlinked and nothing waiting behind it |
| `WorkQueues.Queues.FreeProc` | kext/binder_proc.c:391-398 | A process is freed with its queue empty |
| `WorkQueues.Queues.Send` | kext/binder_txn.c:603-638 | A call goes to the end of its target's queue and its completion to the end of the sender's, and nothing else moves |
| `WorkQueues.Queues.Reply` | kext/binder_txn.c:603-607 | A reply frees what it answers, wherever that is linked, before queueing |
| `WorkQueues.Queues.SendOneway` | kext/binder_txn.c:618-638 | A oneway call goes behind the node if one is in flight and otherwise to the process, one is then in flight, and nothing else moves |
| `WorkQueues.Queues.NextAsync` | kext/binder_proc.c:499-509 | With one in flight, the first call behind the node moves to the end of the process queue, or none is in flight any more |
| `WorkQueues.Queues.Notify` | kext/binder_node.c:174-187 | News of a node is queued unless it is already |
| `WorkQueues.Queues.MaybeFreeNode` | kext/binder_node.c:119-158 | A queued node stays; one that goes takes exactly the oneway calls behind it along, unlinked first |
| `WorkQueues.Queues.NodeDied` | kext/binder_node.c:250-268 | Every notice not yet queued goes to its holder's process and none moves |
| `WorkQueues.Queues.RequestDeath` | kext/binder_node.c:515-545 | A record for a dead object is queued at once |
| `WorkQueues.Queues.ClearDeath` | kext/binder_node.c:548-579 | A queued record stays where it is; another is queued for the clearing thread |
| `WorkQueues.Queues.ReadItem` | kext/binder_proc.c:881-1011 | Reading unlinks an item and then keeps, frees, requeues or puts it back in front, and nothing else moves |
| `WorkQueues.Queues.DeleteRef` | kext/binder_node.c:411-435 | A death record is unlinked before it is freed, a node with news queued is kept, and every other item stays where it is |
| `WorkQueues.Queues.ReportAll` | kext/binder_proc.c:236-242 | Every waiting thread ends with its error queued and no other queue changes |
| `WorkQueues.Queues.DrainThread` | kext/binder_proc.c:247-267 | Transactions go to the end of the process queue in order, or are freed with the process; completions are freed, the rest is unlinked, and every other item is where it was |
| `WorkQueues.Queues.ExitThread` | kext/binder_proc.c:198-273 | A thread goes with nothing of it linked anywhere, those who wait on it have their errors queued, and every other item is where it was |
| `WorkQueues.Queues.DrainProc` | kext/binder_proc.c:357-384 | Everything on the process queue is unlinked, what is freed is freed after that, every sender still there has its error queued, and every other item is where it was |
| `WorkQueues.Queues.CloseQueues` | kext/binder_proc.c:357-398 | A process goes after its queue and all its threads, each empty; everybody else who waited on it has the error queued, and nothing queued elsewhere has moved |
| `WorkQueues.NothingLeft` | kext/binder_proc.c:357-398 | After it no call or completion from a queue of the process is left, and any other item that was there is linked nowhere |
| `ReadLoop.PassConserves` | kext/binder_proc.c:881-1011 | Every pass takes weight from the queues, a pending death with its clear weighing two, and what was owed is emitted or owed still |
| `ReadLoop.PassInOrder` | kext/binder_proc.c:881-1011 | An unfrozen reader emits the front of the stream its queues stand for, and puts back in place |
| `ReadLoop.PassesAccount` | kext/binder_proc.c:876-1036 | However many passes there are, all that was owed is accounted for, in order |
| `ReadLoop.KindConserved` | kext/binder_proc.c:941-998 | Of each kind of command, and of each object, cookie or code, as many are emitted as there are fewer queued items that stand for it |
| `ReadLoop.PassesAllowed` | kext/binder_proc.c:881-904 | A frozen reader is given no transaction, one that owes an answer or is outside the pool takes nothing of its process's, and a reader comes to owe an answer by being given a call and in no other way |
| `ReadLoop.Reader.First` | kext/binder_proc.c:882-888 | The scan for the first item a possibly frozen thread may take |
| `ReadLoop.Reader.Take` | kext/binder_proc.c:881-904 | Own work first, process work only for a pool thread that owes nobody |
| `ReadLoop.Reader.Emit` | kext/binder_proc.c:941-998 | An item that does not fit changes nothing; one that does emits what it stands for, by `ReadLoop.KindConserved` of the kind it is |
| `ReadLoop.Reader.MaybeSpawn` | kext/binder_proc.c:1017-1027 | Another thread is asked for exactly when process work was taken, none is ready or on its way and more are allowed; it is recorded even without room to say so |
| `ReadLoop.Reader.Process` | kext/binder_proc.c:881-1011 | One pass does with the item it finds what the model says |
| `ReadLoop.Reader.Loop` | kext/binder_proc.c:876-1033 | The loop ends, and is a sequence of passes that read something and one that does not |
| `ReadLoop.Reader.Read` | kext/binder_proc.c:863-1036 | What was owed is what was emitted plus what is still queued, each once and kind by kind, frozen or not; unfrozen, in order; it keeps to what the reader may take, and stops early only for want of room |
| `Oneway.EveryRunInOrder` | kext/binder_proc.c:481-511 | In every run calls of each kind are delivered in the order sent, none twice and none lost while the object lives, oneway calls wait behind it only while one is in flight, and the buffers held are those delivered and not freed |
| `Oneway.EveryRunOneAtATime` | kext/binder_proc.c:499-509 | At most one is in flight in every run that frees no ordinary call's buffer meanwhile |
| `Oneway.OnlyOneway` | kext/binder_txn.c:618-633 | An object that gets only oneway calls has at most one in flight in every run |
| `Oneway.FreeKeepsOneIff` | kext/binder_proc.c:499-509 | Freeing a buffer keeps it one at a time if and only if the buffer was a oneway call's or none is in flight |
| `Oneway.TwoInFlight` | kext/binder_proc.c:499-509 | A concrete run with two in flight |
| `Oneway.Target.Enqueue` | kext/binder_txn.c:618-633 | Sending in place is the send step of the model |
| `Oneway.Target.Read` | kext/binder_proc.c:852-858 | Delivering in place is the delivery step of the model |
| `Oneway.Target.FreeBuffer` | kext/binder_proc.c:481-511 | Freeing in place is the free step of the model |
| `Death.EveryRun` | kext/binder_node.c:250-268 | In every run, exits included, each registration is waiting, being answered, over or lost, as its record, queue and log say, and a queued record is where its holder reads |
| `Death.LogsAre` | kext/binder_proc.c:972-994 | In every run, exits included, what was emitted for a registration is nothing, a death, a clear, or a death then a clear; a death only of a dead object |
| `Death.DeathQueuesEach` | kext/binder_node.c:250-268 | An object's death queues the notice of every standing registration on it, once, on the queue of the process that holds the handle, and of no other |
| `Death.ClearIsAnswered` | kext/binder_node.c:548-579 | What was read and what is pending for a cleared registration holds one clear unless an exit took it, and a death if and only if the object died before the clear and no exit took that; all of it, in that order, if and only if no exit took anything |
| `Death.GetsAllIff` | kext/binder_proc.c:247-267 | In every run a registration gets all it is owed if and only if no exit took anything of it off a queue |
| `Death.ExitKeepsIff` | kext/binder_proc.c:247-267 | A thread exit keeps what a registration is owed if and only if its record is not on the own queue of the thread |
| `Death.LostIsNeverTold` | kext/binder_proc.c:247-267 | A death notice or an answer an exit takes is never given, whatever is called afterwards |
| `Death.ExitCanLoseNotice` | kext/binder_proc.c:247-267 | A run in which that happens: a thread registers for an object already dead and exits before it reads |
| `Death.Book.Request` | kext/binder_node.c:515-545 | Requesting in place is the model's, refusals included |
| `Death.Book.ClearIt` | kext/binder_node.c:548-579 | Clearing in place is the model's, refusals included |
| `Death.Book.NodeDied` | kext/binder_node.c:250-268 | The walk over the handles queues exactly the notices that are due |
| `Death.Book.ReadRecord` | kext/binder_proc.c:972-994 | Reading in place is the model's |
| `Death.Book.DeleteRef` | kext/binder_node.c:411-423 | Deleting in place is the model's |
| `Death.Book.EmptyQueue` | kext/binder_proc.c:357-384 | The loop over a queue takes exactly the records on it off it |
| `Death.Book.ThreadExit` | kext/binder_proc.c:247-267 | The death part of a thread exit in place is the model's |

## Left out

- copyin, copyout and their faults: transfers are total, so the path that fails a transaction because the receiver's arena is unwritable is not modelled.
- Sleeping and waking: `ReadLoop.Reader.Read` ends where the driver would sleep, and starts again after it.
- The delivery form with a security context, descriptors and descriptor arrays beyond passing through, and scatter-gather buffers with a parent.
- The freeze, extended-error and debug ioctls, binderfs, sysctls, module start and stop, `kext/android_dev.c` and the tools: plumbing, or constants.
- More than one context at a time in the reference-count modules.
- The life of the C structures themselves: identities stand for pointers and are never reused. A `target_node` or `to_thread` that outlives its object has no counterpart.
- tmp_refs and the pending_strong_ref and pending_weak_ref flags: a send is one step, and nothing reads the pending flags.
- Overflow of the int reference counts and of debug identifiers.
- CallClosing, CallEndings, CallSteps: which payload buffers a teardown releases is in the arena and count models, not in the call model.
- CallTheorems.EveryRun: oneway transactions and completions are not on call stacks and are left to `WorkQueues`, `ReadLoop` and `Oneway`.
- CallSteps.CallKeepsInv: a call into the caller's own process, or by a thread that is itself waiting for an answer, is outside the runs; the driver accepts both, and chains of nested calls are then no longer lines.
- Death.EveryRun: a closing process is its handles deleted, its queue drained and its threads exiting, as separate steps in any order; records that outlive their handles stay, as they do in the driver.
- HandleTable.Handles.NextDesc: descriptors are unbounded; by `HandleTable.Compact` the 32-bit counter cannot wrap below 2^32 - 1 handles.
- Oneway.EveryRunInOrder: an object freed while calls wait behind it drops them; they are accounted for as dropped. Freeing a buffer after that is not modelled.
- ReadLoop.Reader.Read: a transaction without a payload ends the read with an error and is gone; it counts as owing nothing. A node's commands are those its counts call for when the read begins.
- RefDriver.Registry.ProcRelease: news is taken off the queues of a closing process in one step; `WorkQueues` has the loops over queues.
- RefRuns.EveryRun: a context has one manager in a run; with a second one two handles share descriptor 0 (`HandleTable.SecondManagerHides`), which tables keyed by descriptor do not hold. Buffers are freed by clients only; a buffer that a thread exit releases is the same step on the counts.
- Slots.EveryRun: covers runs of fewer than 2^64 - 1 lookups, after which the sequence counter would wrap.
- WireDriver.DisjointWalk: for offsets that name overlapping objects, which the driver does not refuse, the walk is stated byte by byte (`TranslateData`, `WireOverlap.RepeatedOffset`) but not as a translation of objects; it assumes descriptors that fit their 32-bit field.
- WireDriver.DisjointSend: as for `DisjointWalk`.
- WireDriver.RewriteStep: as for `DisjointWalk`.
- WireDriver.TranslateAt: whether a descriptor or scatter-gather buffer is accepted, and the address or pid stored for it, are inputs; `Payload` has the placing of buffers.
- WorkQueues.Queues.MaybeFreeNode: whether counts and flags keep the node is an input; `RefDriver.Registry.MaybeFree` computes it.
- WorkQueues.Queues.ReadItem: what becomes of the item read is an input; `ReadLoop.Reader.Process`, `Reconcile` and `Death` compute it.
- WorkQueues.Queues.DeleteRef: whether and where the owner hears of it, and whether the node is held, are inputs; `RefDriver.Registry.RefDelete` computes them.
- WorkQueues.Queues.ExitThread: the threads waiting on the one that exits are an input; `CallDriver.Driver.Unwind` computes them.
- WorkQueues.Queues.CloseQueues: the objects and handles of a closing process go through `NodeDied`, `MaybeFreeNode` and `DeleteRef` before it; which thread sent what, and who waits on which thread, are inputs.

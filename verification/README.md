# Pinned-memory pool, connections and controller

A Dafny model of the part of the RDMA helper library that owns pinned memory and
moves it about, with proofs about whole runs of it. The model covers the
three-tier pool of registered blocks, the connections that take small blocks from
it to post receives, the controller that refills, drains, adds and removes
clients, the search for an unfragmented memory region, and the buffer of
completions. `dafny verify dfyconfig.toml` checks everything.

| file | what it models |
|---|---|
| `Collections.dfy`, `Regions.dfy` | sequences without repetition; a memory region as the pool sees it |
| `PoolContainers.dfy` | one tier: free list, block list, use count; `AllocatePool`, `DeallocatePool`, `push`, `pop` |
| `PoolProtocol.dfy` | any number of threads in `push` and `pop`, with the mutex and the condition variable |
| `LifeCycleRaces.dfy` | `AllocatePool` and `DeallocatePool` of a tier while other threads push and pop |
| `MemoryPools.dfy`, `PoolRuns.dfy` | the three tiers with temporary blocks and the pointer index; every run of its callers, changes of the protection domain at any time included |
| `Preposts.dfy` | the counter of waiting receives, posting, and the two refill loops |
| `RefillRaces.dfy` | several threads refilling one client, with the gaps between test, pop, post and count |
| `BlockAccounting.dfy` | where every small block is, over runs of connecting, posting, completing, allocating and closing |
| `RegionAllocation.dfy` | region allocation with its best-of-sixteen search, and release |
| `CompletionQueues.dfy` | the 256-slot buffer behind a FIFO queue |
| `Controllers.dfy`, `ControllerRuns.dfy` | the event handler with the refill inside it, client map, draining, polling counter and removal loop; their runs |
| `ServiceRuns.dfy` | runs of the event handler together with the small blocks its refills depend on |

Objects the library updates in place are classes whose methods are proved against
functions on values (`View()` before and after); the results about runs are lemmas
about those functions. What the environment answers (the kernel, the verbs
library, the connection manager, the completion function) comes in as arguments,
so a theorem holds for every answer that meets the stated assumptions: a new
mapping does not overlap a live one, new region objects and registration keys are
new, a queue-pair number is not given to two open connections, the device gives no
more completions than it is asked for, and callers return only what they hold, once.

The threads in `PoolProtocol` follow C++11 clause 30.5: waiting releases the mutex
and blocks in one step, a blocked thread may wake for no reason, a woken thread
takes the mutex again and tests again, and `notify_one` is a step of its own after
the unlock.

## Where the code does not do what its comments or names say

The model follows the code. Each of these is proved, with the exact condition
under which the code does what was meant.

- `refill_preposts` says it aborts when the pool is dry, but keeps looping
  (include/RdmaConnectionBase.h:66-74), and a refused post throws out of it with the
  block already popped (include/RdmaConnection.h:289-292). It returns exactly when the
  free small blocks cover the deficit and no post is refused first, throws exactly when
  one is, and loops otherwise: `Preposts.RefillEnds`, for the loops
  `Preposts.Connection.RefillPreposts` and `Preposts.RefillClientReceives`. A loop that
  may never end is given an iteration budget; it ends if some budget lets it end.
- The handler refills all clients between mapping a new one and accepting it
  (src/RdmaController.cpp:342-351). If that refill throws or does not end, the event is
  not acknowledged and the client stays mapped, never accepted:
  `ControllerRuns.RequestLeaks`, `ControllerRuns.AcknowledgedExactly`, `ControllerRuns.ClientMapExact`,
  `ControllerRuns.OrphansStay`. It returns exactly when the free blocks cover a full
  complement for the new client on top of what the others miss:
  `ControllerRuns.RefillReturnsExactly`, `ServiceRuns.ServedExactly`.
- A client closed with receives pending keeps their blocks for ever
  (include/RdmaConnectionBase.h:39-42). Two clients that connect and send nothing
  dry the default pool of 64 blocks (`BlockAccounting.TwoSilentClients`), and from then
  on no connection request is ever accepted or acknowledged:
  `ServiceRuns.TwoSilentPeersSilenceTheServer`. A block stranded that way also keeps
  every tier from ever being drained again: `PoolRuns.KeptBlockGrowsAll`.
- The unlocked test before the pop and the count after the post leave gaps
  (include/RdmaConnectionBase.h:66-72, include/RdmaClient.h:122-123). n threads that
  refill one client can bring it to 31 + n receives and no more, and a thread whose
  test found a block can still wait in `pop`: `RefillRaces.AtMostOneEachOver`,
  `RefillRaces.OneEachOver`, `RefillRaces.TwoSeeOneBlock`.
- `setProtectionDomain` ignores the answer of `DeallocateList`, which stops at the
  first tier it cannot drain (src/RdmaMemoryPool.cpp:44-53, 176-183). A tier is
  replaced exactly when it and every smaller tier can be drained, and grows past its
  maximum otherwise: `PoolRuns.DomainChangeExact`, with `PoolRuns.OneBlockOutGrowsAll`
  for a pool that does. A tier that grew with blocks out
  cannot be drained again by any pushes and pops; a later change of the domain with
  all blocks back resets its count.
- The pointer index is never purged (src/RdmaMemoryPool.cpp:159):
  `PoolRuns.StaleEntries`. What it has for an address is a block of the pool exactly when
  some live block has that address: `PoolRuns.IndexExact`.
- An `AllocatePool` that fails half-way leaves the use count below zero
  (include/RdmaMemoryPool.h:158-163): `PoolContainers.FillOverOutstanding`. The one
  callback the library passes never answers with a null block
  (src/RdmaMemoryPool.cpp:153-161), so this takes another callback; a failed allocation
  there ends in a null dereference instead.
- `AllocatePool` and `DeallocatePool` take no lock of their own. A pop by another thread
  before the reset of the use count is forgotten by it (include/RdmaMemoryPool.h:163):
  the count is then short by exactly the blocks out at the reset, and the pool can be
  drained again if and only if the pops and pushes in between cancel those out before,
  `LifeCycleRaces.AllocatePoolRaces`, with `LifeCycleRaces.ResetForgetsAPop` for a run
  that loses one. `DeallocatePool` clears a list that others hold blocks of, or that has
  free blocks again, exactly when it did not pop every block itself
  (include/RdmaMemoryPool.h:170-181), `LifeCycleRaces.DeallocatePoolRaces`; and it can
  fall asleep in its own `pop`, `LifeCycleRaces.DeallocatePoolCanSleep`.
- The search for the fewest fragments starts from a minimum of 100
  (src/RdmaMemoryRegion.cpp:174). It keeps a region with the fewest exactly when some
  region has fewer than 100 or the first one has the fewest:
  `RegionAllocation.MinimumExactly`; `RegionAllocation.MinimumMissed` is a search of
  sixteen attempts where it does not.
- `release` unmaps a length narrowed to 32 bits (src/RdmaMemoryRegion.cpp:329): the
  round trip holds exactly below 2^32 bytes, `RegionAllocation.RegionRoundTrip`.
- The error exits of `allocate` leave every earlier attempt mapped and registered
  (src/RdmaMemoryRegion.cpp:130, 150): `RegionAllocation.FailureLeaks`.
- `_totalCompletions` adds the slots in use instead of the number polled
  (src/RdmaCompletionQueue.cpp:180): right exactly when every poll finds the buffer
  empty, `CompletionQueues.TotalOvercounts`.
- `eventMonitor` polls the event channel at every tenth value of a counter it reads after
  draining the queues (src/RdmaController.cpp:263-271), and a failed poll of a queue
  throws out of it before that (src/RdmaCompletionQueue.cpp:138-141). Only calls whose
  drain finishes count: one in ten of those polls the channel,
  `ControllerRuns.FairToFinishedCalls`; a queue whose polls keep failing starves it for
  good, `ControllerRuns.FailingDrainsStarve`; and a tenth of all calls poll, wherever the
  counter stands, exactly when the failed ones leave as many full tens,
  `ControllerRuns.FairToAllCallsExactly`.
- A request refused by the pre-connection callback is served as if it had not been
  (src/RdmaController.cpp:310-317). The requests both rejected and accepted are exactly
  the refused ones for which everything after the refusal succeeds:
  `ControllerRuns.RejectedAndAccepted`; `ControllerRuns.RefusedClientServed` is one.
- A failure to create the completion queue or the client returns without
  acknowledging the event (src/RdmaController.cpp:326, 337):
  `ControllerRuns.AcknowledgedExactly`.
- The loop that removes our own connections never advances its iterator
  (src/RdmaController.cpp:562-568). It ends exactly when no connection of our own
  comes after a foreign one in the walk of the map: `ControllerRuns.RemovalEnds`.

## Model

| member | source | states |
|---|---|---|
| PoolProtocol.NoLostWakeup | include/RdmaMemoryPool.h:186-239 | in every reachable interleaving, while a thread sleeps in `pop` the free blocks do not outnumber the wake-ups still on their way; with the mutex free these are the waiters woken but not resumed and the pushers between unlock and notify |
| PoolProtocol.ExclusiveOwnership | include/RdmaMemoryPool.h:186-239 | in every reachable interleaving the free list repeats nothing, each block is free or with exactly one holder, the use count is the number held, the block list never changes, one thread is in a critical section, and the duplicate push that terminates the process does not happen |
| PoolProtocol.EveryScheduleSettlesAlike | include/RdmaMemoryPool.h:213-239 | calls already made end within a bound, however scheduled; then a sleeping thread means an empty free list, and the numbers of sleepers and of free blocks are the same for every schedule |
| PoolProtocol.SomeScheduleSettles | include/RdmaMemoryPool.h:186-239 | from every state some schedule brings the calls made to their end |
| PoolProtocol.NotStuck | include/RdmaMemoryPool.h:186-239 | when no step of a call is possible, every thread is between calls or asleep: no deadlock on the mutex, no forgotten notification |
| PoolProtocol.PopUndoesPush | include/RdmaMemoryPool.h:186-239 | an undisturbed pop after a push returns the same block and restores the whole state |
| PoolProtocol.RunInv | include/RdmaMemoryPool.h:186-239 | every run keeps mutual exclusion, single ownership and the bound on wake-ups, and the block list |
| PoolProtocol.PromisingStep | include/RdmaMemoryPool.h:207-225 | each single step keeps the bound on wake-ups, spurious wake-ups and barging pops included |
| PoolProtocol.OwnedStep | include/RdmaMemoryPool.h:201-236 | each single step keeps every block with exactly one owner and the use count equal to the blocks held |
| PoolProtocol.InternalRun | include/RdmaMemoryPool.h:186-239 | every step of calls already made takes from a bounded amount of work and leaves the difference of blocks wanted and blocks offered unchanged |
| LifeCycleRaces.AllocatePoolRaces | include/RdmaMemoryPool.h:147-165 | over every interleaving of AllocatePool with pushes and pops of other threads, the blocks it forgets are those out before plus the pops less the pushes meanwhile; the pool can be drained once all blocks are back if and only if that is zero, and otherwise never again; single ownership and wake-ups stay intact |
| LifeCycleRaces.ResetForgetsAPop | include/RdmaMemoryPool.h:151-163 | a run in which another thread pops the block just made before the reset, and it is forgotten |
| LifeCycleRaces.DeallocatePoolRaces | include/RdmaMemoryPool.h:168-183 | over every interleaving that gets past the tests of DeallocatePool, when the block list is about to be cleared other threads hold as many blocks as they popped less what they pushed since the count was read; clearing is safe if and only if DeallocatePool popped every block itself |
| LifeCycleRaces.DeallocatePoolTests | include/RdmaMemoryPool.h:170-175 | over every interleaving, DeallocatePool gets past its tests only if the free blocks were as many as all when it compared them and, later, the count was 0 when it read it; it refuses only if one of the two was not so, and then the block list is as it was |
| LifeCycleRaces.TestsUndisturbed | include/RdmaMemoryPool.h:170-175 | with no other thread moving in between, the tests let through exactly a tier with all blocks free and none counted as used, and refuse every other, changing nothing |
| LifeCycleRaces.DeallocatePoolCanSleep | include/RdmaMemoryPool.h:177-179 | from every quiescent pool with blocks there is a run in which another thread takes the last block and DeallocatePool sleeps in its own pop |
| LifeCycleRaces.SleepsUntilAPush | include/RdmaMemoryPool.h:177-179 | in every run without a push it does not get out of there |
| LifeCycleRaces.RunInv | include/RdmaMemoryPool.h:147-183 | every step of AllocatePool, DeallocatePool and the other threads, up to the clearing, keeps mutual exclusion, single ownership, the bound on wake-ups and the tally of who holds how much |
| LifeCycleRaces.AllocatePoolAlone | include/RdmaMemoryPool.h:147-165 | step by step and undisturbed, AllocatePool does what it does to a tier used by one thread |
| LifeCycleRaces.DeallocatePoolAlone | include/RdmaMemoryPool.h:168-183 | step by step and undisturbed, DeallocatePool drains or refuses as it does for a tier used by one thread |
| PoolContainers.PoolContainer.constructor | include/RdmaMemoryPool.h:139-144 | a new tier has its chunk size and maximum and no blocks |
| PoolContainers.PoolContainer.AllocatePool | include/RdmaMemoryPool.h:147-165 | succeeds exactly when every allocation does, with all blocks owned and free and the count reset to 0; otherwise the blocks before the failure are in and the count is below what it was by as many |
| PoolContainers.PoolContainer.DeallocatePool | include/RdmaMemoryPool.h:168-183 | lets go of all blocks exactly when all are free and none is counted as used, leaving the count at the number of blocks; otherwise changes nothing |
| PoolContainers.PoolContainer.Push | include/RdmaMemoryPool.h:186-211 | terminates exactly on a block already free; otherwise puts it on top and counts one less in use |
| PoolContainers.PoolContainer.Pop | include/RdmaMemoryPool.h:213-239 | takes the block last pushed and counts one more in use |
| PoolContainers.DrainThenFill | include/RdmaMemoryPool.h:147-183 | draining a quiescent tier and filling it again gives a full tier of new blocks with count 0, though the count is the whole tier in between |
| PoolContainers.FillOverOutstanding | include/RdmaMemoryPool.h:151-163 | filling over blocks that are out forgets exactly those; a filling that fails forgets exactly the blocks it pushed |
| PoolContainers.UnaccountedForever | include/RdmaMemoryPool.h:168-239 | no mixture of pushes and pops mends the accounts of a tier that forgot blocks: DeallocatePool refuses it every time |
| MemoryPools.MemoryPool.constructor | src/RdmaMemoryPool.cpp:22-37 | builds 64 small, 16 medium and 4 large blocks, indexed by address, in the given domain, which it remembers |
| MemoryPools.MemoryPool.AllocateRegisteredBlock | src/RdmaMemoryPool.cpp:153-161 | a new block of the length asked for in the current domain, found in the index under its address |
| MemoryPools.MemoryPool.DeallocateList | src/RdmaMemoryPool.cpp:176-183 | drains the tiers in order up to the first that refuses; true exactly when all could be drained |
| MemoryPools.MemoryPool.SetProtectionDomain | src/RdmaMemoryPool.cpp:44-53 | drains what DeallocateList drains, changes the domain for good and fills every tier, drained or not |
| MemoryPools.MemoryPool.CanAllocateRegionUnsafe | src/RdmaMemoryPool.cpp:67-79 | true exactly when a request of this length would not wait; when that is, `PoolRuns.WaitsExactly` tells by the chunk sizes |
| MemoryPools.MemoryPool.AllocateRegion | src/RdmaMemoryPool.cpp:82-118 | hands out the top of the tier for the length, or a counted temporary block when the length is above the largest chunk; which tier that is, `PoolRuns.SmallestFit` tells by the chunk sizes |
| MemoryPools.MemoryPool.Deallocate | src/RdmaMemoryPool.cpp:121-151 | user and temporary regions leave the tiers alone, others go to the tier their 32-bit length asks for; terminates exactly on a block already free there |
| MemoryPools.MemoryPool.AllocateBytes | src/RdmaMemoryPool.cpp:55-64 | the address of the region for the length; terminates exactly above the largest chunk |
| MemoryPools.MemoryPool.DeallocateAddress | include/RdmaMemoryPool.h:316-320 | returns the region the index has for the address |
| PoolRuns.ReachableHeap | include/RdmaMemoryPool.h:316-343 | over every run, domain changes at any time included: free means not held, the use count is the blocks held less those out at the last filling, the size is one complement for each filling since the last draining, a tier can be drained exactly when nothing is out and nothing forgotten, `temp_regions` counts the live temporary blocks, and every live block's address leads to that block |
| PoolRuns.NewPoolIsInit | src/RdmaMemoryPool.cpp:22-37 | the pool the constructor builds is in order, full, quiescent and nothing of it is held, whatever new buffers the environment gives |
| PoolRuns.NewPoolDomain | src/RdmaMemoryPool.cpp:22-37 | every block of it is registered in the domain given, which the pool remembers |
| PoolRuns.RunInv | src/RdmaMemoryPool.cpp:44-173 | the invariant behind it is kept by every run of allocate, deallocate by region and by address, user regions and domain changes |
| PoolRuns.SmallestFit | src/RdmaMemoryPool.cpp:82-118 | in every state of a run, a request gets a block of the pool no longer than any chunk it would fit in; above all chunks it gets a temporary block of exactly its length and no tier changes |
| PoolRuns.WaitsExactly | src/RdmaMemoryPool.cpp:67-79 | a request waits if and only if the tier with the smallest chunks it fits in has no free block, whatever the larger ones have |
| PoolRuns.TemporaryBlocks | src/RdmaMemoryPool.cpp:163-173 | over every run, a request above the largest chunk never waits and gets a block of exactly its length, where the environment put it, registered in the domain last set in the run, or the first if none was |
| PoolRuns.DomainIsLast | src/RdmaMemoryPool.cpp:44-53 | over every run the domain the pool remembers is the one last set |
| PoolRuns.RoutingRoundTrip | src/RdmaMemoryPool.cpp:82-151 | for every length the region is at least as long, and returning it restores the pool exactly |
| PoolRuns.ReturnsToOwner | src/RdmaMemoryPool.cpp:121-151 | however long it was out, a block goes back to the tier that owns it, other tiers untouched, and is not there already; a temporary or user region touches no tier |
| PoolRuns.ReturnedTwice | include/RdmaMemoryPool.h:186-211 | returning a block of the pool that no caller holds always ends the process |
| PoolRuns.LowBitsRoute | src/RdmaMemoryPool.cpp:134-143 | a region longer by any multiple of 2^32 bytes goes back to the same tier, for its length is read as 32 bits |
| PoolRuns.BytesRoundTrip | src/RdmaMemoryPool.cpp:55-64 | for every length up to the largest chunk, freeing the address that `allocate` gave finds the same block and restores the pool |
| PoolRuns.IndexFindsOwner | include/RdmaMemoryPool.h:316-325 | the address of a held pool block leads to a held pool block |
| PoolRuns.LifeCycle | src/RdmaMemoryPool.cpp:44-53 | from every reachable pool with all blocks back, a domain change gives full tiers of the original sizes with count 0 and every block in the new domain |
| PoolRuns.DomainChangeExact | src/RdmaMemoryPool.cpp:44-53 | from every reachable pool, a tier is replaced if and only if it and every smaller tier can be drained; otherwise it grows past its maximum and forgets exactly the blocks out |
| PoolRuns.OneBlockOutGrowsAll | src/RdmaMemoryPool.cpp:44-53 | a reachable pool, one small block out, where a domain change grows all three tiers |
| PoolRuns.KeptBlockGrowsAll | src/RdmaMemoryPool.cpp:44-53 | if one small block never comes back, every later domain change of any run adds a full complement to every tier and none is ever drained |
| PoolRuns.StaleEntries | src/RdmaMemoryPool.cpp:153-161 | the index still finds a released block under its old address unless a new buffer has that address |
| PoolRuns.IndexExact | src/RdmaMemoryPool.cpp:153-161 | over every run, what the index has for an address is a block of the pool if and only if some live block has that address |
| PoolRuns.SetDomainStep | src/RdmaMemoryPool.cpp:44-53 | a domain change at any time keeps ownership, the temporary count and the index |
| PoolRuns.LedgerRun | src/RdmaMemoryPool.cpp:44-53 | the blocks a tier has forgotten and the complements it holds are told by the domain changes of the run alone |
| Preposts.Connection.PopReceive | include/RdmaConnectionBase.h:48-51 | counts one receive less; below zero the counter wraps and refilling sees no deficit |
| Preposts.Connection.PostRecvRegionAsID | include/RdmaClient.h:118-125 | the block joins the receive queue and the counter goes up by one; a refused post throws before either |
| Preposts.Connection.RefillPreposts | include/RdmaConnectionBase.h:64-75 | whether it returns, throws or is still looping after any number of iterations, told by the deficit, the free blocks and the first refused post; the blocks posted are the top of the free list, last pushed first, and a refused post has popped one more |
| Preposts.RefillClientReceives | src/RdmaController.cpp:211-218 | the same for all clients by their summed deficits; however it ends, each client got its own share by its place in the walk, and the pool is short by the blocks popped |
| Preposts.RefillEnds | include/RdmaConnectionBase.h:64-75 | over all budgets: it returns if and only if the free blocks cover the deficit and no post is refused first; throws if and only if one is refused while blocks last; loops for ever if and only if blocks run out first |
| Preposts.PostsAreMost | include/RdmaConnectionBase.h:64-75 | the posts made are as many as the deficit, the free blocks, the iterations and the device allow; a refill that throws has popped one block more than it posted |
| Preposts.DeficitIs | include/RdmaConnectionBase.h:61-66 | a counter that fits 32 bits and its deficit make up the full complement, and there is none above it |
| Preposts.SharesJoin | src/RdmaController.cpp:211-218 | the shares of all clients, put together in the order of the walk, are the blocks posted in the order they were popped |
| Preposts.FullShare | include/RdmaConnectionBase.h:64-75 | when all deficits are made up, each client got its own deficit and has none left |
| Preposts.RefillAgain | src/RdmaController.cpp:211-218 | after a refill of all that returns, another returns at once and takes nothing |
| Preposts.DispensedConserves | include/RdmaConnectionBase.h:71-72 | what refilling takes and what it leaves are together the free list, without repetition, top first |
| Preposts.CounterStep | include/RdmaConnectionBase.h:61-66 | the 64-bit counter seen through 32 bits loses exactly one of its deficit at each post |
| RefillRaces.AtMostOneEachOver | include/RdmaConnectionBase.h:64-75 | however n refilling threads, refused posts, completions and other users of the pool interleave, a client has at most 31 + n receives, and the counter is the receives on the device and the completions not counted off, less the posts not counted yet |
| RefillRaces.ThreadsTell | include/RdmaConnectionBase.h:64-75 | over every interleaving, how many threads have found the counter short, are in `pop`, hold a block or have posted one is told by how often each step was taken |
| RefillRaces.BlocksTell | include/RdmaConnectionBase.h:64-75 | and so are the free blocks, the receives on the device and the blocks of refused posts |
| RefillRaces.CountsTell | include/RdmaConnectionBase.h:48-75 | and so are the completions not counted off and the counter |
| RefillRaces.RefillsConserve | include/RdmaConnectionBase.h:64-75 | over every interleaving, refilling makes and loses no block but one for each refused post |
| RefillRaces.SpinsWhenDry | include/RdmaConnectionBase.h:66-74 | with no free block, any number of rounds of the loop leave everything as it was |
| RefillRaces.OneEachOver | include/RdmaConnectionBase.h:64-75 | a run of n threads that reaches 31 + n |
| RefillRaces.TwoSeeOneBlock | include/RdmaConnectionBase.h:69-71 | two threads whose tests see the same block: one ends up in `pop` with the pool empty |
| RefillRaces.BlockedUntilGiven | include/RdmaConnectionBase.h:69-71 | it stays there in every run in which no block is given back |
| RefillRaces.SeenShort | include/RdmaConnectionBase.h:61-66 | the counter seen through 32 bits looks short exactly when it is short and not below zero |
| BlockAccounting.Conservation | include/RdmaConnectionBase.h:39-75 | over every run each small block is in exactly one of the free list, one client's posted receives, the application's hands and the stranded blocks; the last three sum to the use count, and each client's counter is the number of its posted blocks |
| BlockAccounting.StrandedExactly | include/RdmaConnectionBase.h:39-75 | over every run the stranded blocks grow by exactly the receives waiting at the clients closed and the posts refused, and by nothing else |
| BlockAccounting.RunMovesExactly | include/RdmaConnectionBase.h:39-75 | over every run the blocks in each of the four places are as many as the steps of the run brought there less those they took away |
| BlockAccounting.DeallocateUndoesAllocate | src/RdmaMemoryPool.cpp:82-151 | in every state with a free block, the one allocated is the application's and can be returned, which restores everything |
| BlockAccounting.DeallocateAfterComplete | src/RdmaController.cpp:221-251 | a completed block is the application's, none is stranded by it, and it can be returned to the free list |
| BlockAccounting.CompleteUndoesPost | include/RdmaConnectionBase.h:64-75 | a block posted and completed at once leaves everything as if it had been allocated |
| BlockAccounting.CloseStep | src/RdmaController.cpp:378-432 | closing a client strands exactly its waiting receives and touches nothing else |
| BlockAccounting.StrandedForEver | include/RdmaConnectionBase.h:39-45 | no run gives a stranded block back or frees it |
| BlockAccounting.FullClientsFit | include/RdmaConnectionBase.h:64-75 | full clients and blocks stranded earlier never exceed the pool: with 64 blocks never three full clients, and none once more than 32 blocks are stranded |
| BlockAccounting.RefillExact | src/RdmaController.cpp:211-218 | posts alone can fill every client if and only if the free blocks cover the missing receives, in whatever order they come, and then exactly that many are made |
| BlockAccounting.RefillIsPosts | include/RdmaConnectionBase.h:64-75 | one refill of a client is a run of single posts with the same blocks and the same pool |
| BlockAccounting.PostRun | include/RdmaConnectionBase.h:64-75 | every post costs one free block and makes up for one missing receive, whichever client it is for |
| BlockAccounting.DryForEver | include/RdmaConnectionBase.h:39-45 | once all blocks are stranded, no run posts or allocates anything again and the tier can never be drained |
| BlockAccounting.SilentClient | src/RdmaController.cpp:342-432 | a client that connects, is refilled and disconnects costs the pool a full complement |
| BlockAccounting.TwoSilentClients | src/RdmaController.cpp:342-432 | two of them leave a pool of 64 with no free block in any later run, and no later client is ever full |
| RegionAllocation.RdmaMemoryRegion.Allocate | src/RdmaMemoryRegion.cpp:105-219 | how many attempts are made, which candidate is kept, which calls undo the others, and what an error leaves, for every script of kernel answers; the number of attempts is told outright by `RegionAllocation.SearchEnds` and `RegionAllocation.OneAttempt` |
| RegionAllocation.SearchEnds | src/RdmaMemoryRegion.cpp:116-165 | on the BG/Q device a search ends exactly at its first attempt that fails, finds at most one fragment, or is the sixteenth: with the error of that attempt, 12 for a registration, or with as many candidates |
| RegionAllocation.OneAttempt | src/RdmaMemoryRegion.cpp:116-165 | on any other device it ends with the first attempt |
| RegionAllocation.Search | src/RdmaMemoryRegion.cpp:116-165 | the loop maps and registers the candidates in order, and a failed registration leaves its pages mapped |
| RegionAllocation.RdmaMemoryRegion.KeepOne | src/RdmaMemoryRegion.cpp:167-215 | of several candidates one is kept and the others are undone; it becomes the region, with its fragment count on the BG/Q device and 1 elsewhere |
| RegionAllocation.PagesAre | src/RdmaMemoryRegion.cpp:119-120 | a mapping takes exactly the pages of 4096 bytes that some of its bytes lie on |
| RegionAllocation.FewestFragments | src/RdmaMemoryRegion.cpp:174-182 | the leftmost candidate with the fewest fragments if that is below 100, else the first |
| RegionAllocation.KeptIsUnique | src/RdmaMemoryRegion.cpp:174-182 | that description fits one candidate only |
| RegionAllocation.MinimumExactly | src/RdmaMemoryRegion.cpp:174-182 | the region kept has the fewest fragments if and only if some region has fewer than 100 or the first has the fewest; of several with the fewest it is the first |
| RegionAllocation.MinimumMissed | src/RdmaMemoryRegion.cpp:112-209 | a possible search of sixteen attempts that keeps 200 fragments with 150 on offer |
| RegionAllocation.EarlyEndKeepsLast | src/RdmaMemoryRegion.cpp:163-209 | a search that ends before the sixteenth attempt keeps the last candidate, which has at most one fragment |
| RegionAllocation.DropOthers | src/RdmaMemoryRegion.cpp:189-199 | deregisters and unmaps every candidate but the kept one |
| RegionAllocation.SearchAccounting | src/RdmaMemoryRegion.cpp:116-218 | a successful allocation adds one mapping and one registration, both of the kept candidate; every other candidate was deregistered once and unmapped once, at its own address and full length |
| RegionAllocation.FailureLeaks | src/RdmaMemoryRegion.cpp:119-150 | an error exit leaves every earlier candidate registered, and exactly the pages of those and of the one whose registration failed mapped, and undoes nothing |
| RegionAllocation.RdmaMemoryRegion.Release | src/RdmaMemoryRegion.cpp:325-348 | a second release does nothing; a failed deregistration changes nothing; otherwise the registration goes, and the mapping unless it is a user's |
| RegionAllocation.RegionRoundTrip | src/RdmaMemoryRegion.cpp:325-348 | allocate then release restores the registrations always, and the mappings if and only if the length is below 2^32 |
| RegionAllocation.UserRegionRelease | src/RdmaMemoryRegion.cpp:337-343 | releasing a user's region removes its registration and unmaps nothing |
| RegionAllocation.RdmaMemoryRegion.FromBuffer | src/RdmaMemoryRegion.cpp:79-102 | a user region registers its length narrowed to 32 bits, or nothing when registration fails |
| CompletionQueues.CompletionQueue.RemoveCompletions | src/RdmaCompletionQueue.cpp:163-183 | appends the polled completions to the pending ones; a failed poll changes nothing; the counter grows by the slots in use |
| CompletionQueues.CompletionQueue.PopCompletion | src/RdmaCompletionQueue.cpp:185-218 | takes the oldest pending completion, or none; the slots come back with the last one |
| CompletionQueues.CompletionQueue.HandleNotification | src/RdmaController.cpp:449-477 | handles everything the device gives before it has no more or a poll fails, once each and in order, never using more than one slot |
| CompletionQueues.Fifo | src/RdmaCompletionQueue.cpp:163-218 | over every run the completions handed out, followed by those pending, are those polled |
| CompletionQueues.SlotsSpent | src/RdmaCompletionQueue.cpp:176-214 | the slots in use are the entries polled since the buffer last became empty |
| CompletionQueues.StaysInsideExactly | src/RdmaCompletionQueue.cpp:167-176 | every poll of a run stays inside the 256 slots if and only if that number and the size of each request never exceed 256 together |
| CompletionQueues.RequirementsMetExactly | src/RdmaCompletionQueue.cpp:167-176 | a run stays inside if and only if at each poll of it every answer of the device fits the array |
| CompletionQueues.TotalOvercounts | src/RdmaCompletionQueue.cpp:180-180 | the counter exceeds the completions polled by the slots each poll found in use, and is right if and only if every poll found none |
| CompletionQueues.TotalIsNotACount | src/RdmaCompletionQueue.cpp:180-180 | two polls of one completion each can count three |
| Controllers.RdmaController.WaitForEvent | src/RdmaConnection.cpp:694-707 | a fetched event takes the slot; a failure changes nothing |
| Controllers.RdmaController.AckEvent | src/RdmaConnection.cpp:709-727 | acknowledges the event in the slot and empties it; refused with an empty slot, unchanged on failure |
| Controllers.RdmaController.EventChannelHandler | src/RdmaController.cpp:274-446 | one event: what becomes of the map, the slot, the acknowledgements and the clients announced or destroyed, on every branch; and for a request that gets to the refill, how the refill ends, what it takes from the pool and what each client gets, with the event left in the slot and the client mapped unless it returns |
| Controllers.RdmaController.RefillClients | src/RdmaController.cpp:211-218 | the refill of all mapped clients in the order of the walk |
| Controllers.RdmaController.ConnectRequested | src/RdmaController.cpp:288-364 | the case of a connection request, up to the acknowledgement |
| Controllers.RdmaController.ClientDisconnected | src/RdmaController.cpp:378-432 | the event is acknowledged, then the client unmapped and destroyed, whether or not disconnecting worked |
| Controllers.RdmaController.MakeServerToServerConnection | src/RdmaController.cpp:481-520 | with no client or no queue pair it goes through a null pointer; otherwise the client is mapped as one of our own whether or not connecting worked, an entry already there stays, all clients are refilled, and the client is returned only if that returns |
| Controllers.RdmaController.RemoveServerToServerConnection | src/RdmaController.cpp:523-551 | exactly this client's entry goes, whether or not disconnecting worked |
| Controllers.RdmaController.RemoveAllInitiatedConnections | src/RdmaController.cpp:554-570 | with any number of iterations, the entries removed are those at the front of the walk up to the first foreign one; it ends exactly when these are all of our own and the iterations suffice |
| Controllers.RdmaController.PollCompletionQueues | src/RdmaController.cpp:221-251 | the completion function saw each good completion once with its own client, in walk order, up to the end or the first bad entry; then every queue is empty and the number returned is the total, or the process ends at a failed completion, or a failed poll throws with nothing lost but that poll |
| Controllers.RdmaController.DrainInTurn | src/RdmaController.cpp:227-249 | the loop over the clients, and at which entry of which queue it stops |
| Controllers.RdmaController.DrainQueue | src/RdmaCompletionQueue.cpp:135-160 | one queue is polled to its end, its first failed completion or its first failed poll |
| Controllers.RdmaController.EventMonitor | src/RdmaController.cpp:263-271 | the queues are drained for the clients mapped before the event; if that finishes, the counter advances through 32 bits and the event channel is polled exactly at multiples of ten; if not, neither happens; and the number returned, when the handler returns |
| Controllers.RdmaController.PollEventChannel | src/RdmaController.cpp:253-261 | calls the handler when something is ready, and does nothing else |
| ControllerRuns.HandleAcks | src/RdmaController.cpp:274-446 | one call fetches one event and acknowledges that one or leaks it, and says which, a refill that throws or does not end included |
| ControllerRuns.AcknowledgedExactly | src/RdmaController.cpp:274-446 | over every run the events unacknowledged are as many as the leaking calls; all are acknowledged once, in order, with none pending, if and only if no call leaks |
| ControllerRuns.RequestLeaks | src/RdmaController.cpp:316-351 | a run of one request that leaks, for each of its causes: no completion queue, no client, a refill that throws or does not end |
| ControllerRuns.RefillReturnsExactly | src/RdmaController.cpp:342-351 | the refill before an accept returns if and only if the free blocks cover 32 for the new client plus the deficits of the others, with no post refused first; and when it loops for ever |
| ControllerRuns.ClientMapExact | src/RdmaController.cpp:288-432 | over every run with live queue-pair numbers unique, the map is exactly the connections the events say are open plus the clients whose refill threw or did not end, keyed by their own numbers, up to the first null client, which is met exactly when the events say so; so it is the open connections if and only if no refill of a new client failed |
| ControllerRuns.OrphansStay | src/RdmaController.cpp:342-351 | a client whose refill failed is never accepted and stays mapped in every continuation |
| ControllerRuns.EventsFindTheirClient | src/RdmaController.cpp:366-432 | an established or disconnected event finds the client accepted on that queue pair, and meets a null client if there is none; a failed accept restores the map |
| ControllerRuns.PeerMappedOrCrash | src/RdmaController.cpp:481-520 | in every run, making a connection of our own maps its client as one of our own and changes nothing else; if the client cannot be made the process is gone and no later call does anything |
| ControllerRuns.NothingFollows | src/RdmaController.cpp:481-520 | after a null client or a refill that does not end, no call changes anything |
| ControllerRuns.TakenNumber | src/RdmaController.cpp:343-364 | a request whose client has the number of a mapped one leaves the older client in the map, though the newer is accepted; if the accept fails it is the older that goes |
| ControllerRuns.RefusalChangesNothing | src/RdmaController.cpp:310-317 | a refused request is rejected and then served: everything but the rejection is the same, and the client may be accepted |
| ControllerRuns.RejectedAndAccepted | src/RdmaController.cpp:310-351 | over every run, a request is both rejected and accepted if and only if the callback refused it and its queue, client, refill and accept all succeeded |
| ControllerRuns.RejectedExactly | src/RdmaController.cpp:310-364 | over every run, a request is rejected if and only if the callback refuses it or it is the accept that fails, and accepted if and only if nothing of it fails |
| ControllerRuns.RefusedClientServed | src/RdmaController.cpp:310-351 | a run in which a refused client is accepted, mapped and acknowledged |
| ControllerRuns.TenCallsPoll | src/RdmaController.cpp:263-271 | any ten calls in a row whose drains finish poll the event channel, across the wrap too |
| ControllerRuns.PollingIsFair | src/RdmaController.cpp:263-271 | any n calls in a row whose drains finish poll the event channel at least n/10 times, from every value of the 32-bit counter |
| ControllerRuns.FairToFinishedCalls | src/RdmaController.cpp:263-271 | over any calls, some of them left by an exception of the drain, the polls are those of the calls that finish, at least one in ten of them |
| ControllerRuns.PolledExactly | src/RdmaController.cpp:263-271 | calls poll the channel at all if and only if more of them finish than the counter is short of the next multiple of ten or of the wrap |
| ControllerRuns.FailingDrainsStarve | src/RdmaController.cpp:263-271 | n calls whose drains all throw poll the channel zero times, for every n and every counter |
| ControllerRuns.FairToAllCallsExactly | src/RdmaController.cpp:263-271 | for fewer than 2^32 calls, a tenth of all of them poll from every counter if and only if the finished ones hold as many full tens |
| ControllerRuns.NextPoll | src/RdmaController.cpp:267-267 | after a poll the next comes exactly ten calls later, or six at the wrap, counting those whose drain finishes |
| ControllerRuns.DrainPerClient | src/RdmaController.cpp:227-249 | in whatever order the map is walked, each client gets exactly its own queue, in order and once |
| ControllerRuns.DrainToNoOther | src/RdmaController.cpp:227-249 | no one who is not a client gets anything |
| ControllerRuns.EachGetsItsOwn | src/RdmaController.cpp:221-251 | one drain of a keyed map, in any walk order, hands each client a prefix of its own queue, all of it when the drain finishes, and no one else anything |
| ControllerRuns.DrainStopsExactly | src/RdmaController.cpp:221-251 | a drain finishes if and only if every entry is a good completion, and otherwise stops at the first that is not; only good ones are handed over |
| ControllerRuns.RemovalEnds | src/RdmaController.cpp:554-570 | removal ends if and only if no connection of our own comes after a foreign one in the walk; then exactly the foreign ones are left, and a foreign one is never removed |
| ControllerRuns.RemovalCanSpin | src/RdmaController.cpp:562-568 | one foreign connection before one of our own: nothing is removed, however long it runs |
| ServiceRuns.RunInv | src/RdmaController.cpp:274-551 | over every run of the handler, our own connections and other threads on the blocks, the accounts of the blocks hold and the mapped clients are the live ones |
| ServiceRuns.BlocksOfService | src/RdmaController.cpp:274-551 | over every run, what becomes of the blocks is a run of exactly the block steps of its acts, each refill between connecting its client and, after a failed accept, closing it; the blocks stranded grow by the receives waiting at the clients closed and the posts refused |
| ServiceRuns.ControlOfService | src/RdmaController.cpp:274-551 | over every run from the start, what becomes of the controller is the run of its calls alone, other threads changing nothing of it |
| ServiceRuns.ServedExactly | src/RdmaController.cpp:342-351 | an undisturbed refill for a new client can return if and only if the free blocks cover 32 plus what the other clients miss |
| ServiceRuns.MissingIsDeficit | src/RdmaController.cpp:211-218 | the receives missing by the accounts are the summed deficits of the refill loop |
| ServiceRuns.DryRequest | src/RdmaController.cpp:288-364 | with every block stranded, one request changes neither the acknowledgements nor the accepted clients, and if its client can be made the handler never leaves the refill |
| ServiceRuns.DryServerAnswersNoOne | src/RdmaController.cpp:288-364 | the same for every request of every run |
| ServiceRuns.TwoSilentPeersSilenceTheServer | src/RdmaController.cpp:288-432 | a run of a fresh server with 64 small blocks, two clients that connect, are accepted and leave, after which no request of any later run is accepted or acknowledged |

## Left out

- The bodies of libibverbs, rdma_cm, mmap, HPX and the event-channel poll are not part of this model; their answers are arguments.
- Builds with `NDEBUG`: `push` then does not look for the block on the free list, and a block returned twice would be on it twice. The model is the debug build; `PoolProtocol.ExclusiveOwnership` shows the check never fires for callers that return what they hold.
- Region objects in the pool are values: their identity, address, length, flags and domain. The message length, the contents, and the lifetime through `shared_ptr` are not modelled.
- PoolContainers.PoolContainer.Pop: waiting for a block is a precondition here and in the sequential methods above it; the wait itself is in `PoolProtocol`.
- PoolProtocol.ExclusiveOwnership: covers `push` and `pop` after a successful AllocatePool; AllocatePool and DeallocatePool among other threads are in `LifeCycleRaces`.
- LifeCycleRaces.DeallocatePoolRaces: ends with the clearing of the block list; what threads do with blocks destroyed under them is not modelled. Reads without the lock are taken as atomic.
- MemoryPools.MemoryPool.AllocateRegisteredBlock: assumes the region's own allocation succeeds; the code ignores its error and would go through a null registration.
- MemoryPools.MemoryPool.DeallocateAddress: an unknown address is only reported (`found` false); the code would go through a null region. Likewise an event for a queue pair without a client ends in the status `Crashed`, and the null entry the lookup inserts in either map is not modelled.
- Preposts.Connection.RefillPreposts: one thread at a time, as in RefillClientReceives; several threads on one client are in `RefillRaces`, which counts threads and blocks and does not say which block goes where, nor model two clients at once.
- Controllers.RdmaController.EventChannelHandler: the pre-connection and connection callbacks return; one that throws would leak the event as a failing refill does. The refill runs with no other thread on the pool; other threads are in `ServiceRuns`, by block and not by statement.
- Controllers.RdmaController.MakeServerToServerConnection: that a client is mapped before it has its memory pool, which another thread's refill could meet, is not modelled.
- Controllers.RdmaController.PollCompletionQueues: the completion function posts nothing during the drain.
- ControllerRuns.ClientMapExact: a refill that does not end keeps the lock of the map, so such a run has no further step on the map.
- Controllers.RdmaController.RemoveAllInitiatedConnections: erasing an entry is assumed to leave the walk order of the others, as the C++ standard says of its unordered map; the HPX map is not part of this model.
- RegionAllocation.RdmaMemoryRegion.Allocate: the build with `mmap`; releasing a losing candidate is assumed to succeed, as the code does not look. The log line of `release` that reads a null registration is left out.
- CompletionQueues.CompletionQueue.PopCompletion: returns the completion, not a pointer into the array that later polls may overwrite.
- CompletionQueues.TotalOvercounts: the counter is unbounded; its wrap as a 32-bit statistic is not modelled.
- BG/Q kernel variants, `allocate64kB`, `allocateFromBgvrnicDevice`, work-request construction, device and interface discovery, startup, `SystemLock`, the shared receive queue and logging are not modelled: they are I/O, unused, or straight-line variants of what is.

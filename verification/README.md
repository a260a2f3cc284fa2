# Verification of the jowi::asio lock-free structures and event loop

This project models the lock-free library of `jowi::asio` and the coroutine scheduler that
runs on it, and proves what they promise.

- **Split reference counts.** `AllocData`, `SharedPtr` and `std::atomic<SharedPtr>` form a
  machine with one program counter per thread (`SharedPtrMachine`). A step is one atomic
  operation on a tagged word or on a reference count, with the thread-local code that follows
  it. Any number of cells, control blocks and threads (fewer than 65536) take part, a freed
  address may be reused at once, and every weak compare-and-swap may fail for no reason.
  Touching a freed control block, or taking a count below zero, sets `fault`. `SharedPtrLedger`
  states the invariant, `SharedPtrSafety` keeps it, `SharedPtrTheorems` says what it means,
  `SharedPtrProgress` says when the retry loops end, `SharedPtrCalls` what whole calls left
  alone come to, from the call to its return, `SharedPtrLinear` refines the machine to plain
  atomic pointers. `SharedPtrRawMachine` is the same machine on the 64-bit words of `TaggedPtr`,
  and `SharedPtrRaw` proves that the two have the same runs. `AtomicSharedPtr` is the code in
  its own form, retry loops over heap objects, for one thread.
- **`LockFreeQueue`.** `QueueMachine` takes each operation on a `SharedPtr` cell as one step,
  which is what `SharedPtrLinear` proves of it. `QueueOrder`, `QueueSize`, `QueueProgress`,
  `QueueChain` and `QueuePhases` hold for every interleaving, `QueueCalls` ties the values in
  the queue to the pushes that were begun with them, and `QueueLinear` and `QueueWhole` say
  exactly which runs are those of an atomic FIFO and which lose nothing; `LockFreeQueue` and
  `LockFreeQueueCalls` are the class and its call sequences for one thread.
- **`RingbufQueue`.** `RingMachine` claims slots by the packed counter and fills or empties them
  later. `RingLedger`, `RingTheorems` and `RingProgress` hold for every interleaving,
  `RingCalls` says what each call left alone answers, `RingLinear` and `RingClean` for the clean
  ones; `RingbufQueue` is the class with its array for one thread.
- **The event loop.** `TaskPrograms` gives coroutines as finite programs with a direct recursive
  meaning and a history: the polls, branches, awaited values and the return, in order.
  `TaskSteps` is a step-by-step reference that agrees with that meaning. `Scheduler` gives the
  states of the loop and proves every step; `EventLoop` runs them and records what each
  coroutine does, with the nested runs of an await as recursive method calls and a
  `RingbufQueue` as its queue. A loop of the program that can wait for ever is a method that is
  watched for a given number of attempts.

A thread *left alone* takes steps while all others pause, and its weak compare-and-swaps fail
only if the values differ.

## What the code does not give

Some promises are false of the code; each is stated with the condition under which it holds.

- `LockFreeQueue` under concurrent pushes and pops can lose a value (`PushCanBeLost`): a pop
  that read "no successor" unlinks a node that a push has extended since. A step is *harmless*
  if a push links behind a node that pops can reach, and a pop that takes a node has read the
  successor the node still has. `RunRefinesIff` and `NothingLostIff`: a run is one of an atomic
  FIFO, and loses nothing, if and only if all its steps are harmless. In one thread a push
  directly after the pop that drained the queue is lost (`PushAfterDrainIsLost`); `Replay`: the
  queue is a FIFO if and only if a call sequence has no such push.
- `RingbufQueue` with capacity 0 or 1 divides by zero or leaves its slots;
  `SafeIffCapacityTwo` is an if-and-only-if. A pop that overtakes a pending store answers
  "nothing" although a push came first (`PopCanOvertakeStore`). A run is *clean* if no claim
  lands on a slot with a store or a load still pending. `CleanIffSlotsReady`: no load ever finds
  its slot empty and no store ever finds its slot full if and only if the run is clean, and then
  the ring is a bounded FIFO (`CleanRunRefines`).
- `parallel_expected` comes to an end if and only if the ring has a free slot for each task when
  it is called (`RunParallel`), however deep the tasks nest; otherwise one of its pushes, all of
  which come before the run, waits for ever.
- A packed word gives its pointer back exactly when the pointer is below 2^48 (`PackUnpack`).
- `size()` counts linked values, lost ones included (`SizeAtRest`, `LockFreeQueue.Size`).

## Model

| member | source | states |
|---|---|---|
| SharedPtrTheorems.CountLedger | src/lockfree/shared_ptr.cc:183-275 | In every state of every run, for every block: count plus owners handed out before being counted (lines 266 to 269) equals owners plus cells holding it plus references in hand, `d` and the cell counting once until `d.__release()` |
| SharedPtrTheorems.NeverTouchesFreed | src/lockfree/shared_ptr.cc:17-82 | No step of any run touches a freed block or takes a count below zero |
| SharedPtrTheorems.DeletedExactlyOnce | src/lockfree/shared_ptr.cc:17-34 | Each allocation's deleter has run at most once, and exactly once if and only if the block is no longer live |
| SharedPtrTheorems.DeleterRunsAtLastReference | src/lockfree/shared_ptr.cc:20-31 | When a thread is about to run a deleter the count is zero, no thread and no cell refers to the block, and no other thread is about to delete it |
| SharedPtrTheorems.PinnedStaysAlive | src/lockfree/shared_ptr.cc:184-206 | While a reader is between pin and unpin, the cell's block is live with a positive count |
| SharedPtrTheorems.EverythingFreedAtRest | src/lockfree/shared_ptr.cc:289-294 | Once every cell is cleared and every owner dropped, nothing is allocated and each deleter has run once |
| SharedPtrTheorems.TagCountsReaders | src/lockfree/shared_ptr.cc:191-210 | The tag of a cell is the number of threads between their pin and unpin, and fits 16 bits |
| SharedPtrTheorems.PointerMovesAtTagZero | src/lockfree/shared_ptr.cc:222-227 | A step changes a cell's pointer only at tag 0 |
| SharedPtrTheorems.PinnedPointerIsConstant | src/lockfree/shared_ptr.cc:204-211 | Across any pinned interval the cell's pointer is constant, so the one read at the unpin is the one counted |
| SharedPtrSafety.RunKeepsInv | src/lockfree/shared_ptr.cc:11-295 | The whole invariant (ledger, tags, deleters, registers of every loop) holds in every state of every run |
| SharedPtrSafety.AtomicKeepsInv | src/lockfree/shared_ptr.cc:183-275 | Each atomic step of load, exchange, compare_exchange, release and delete keeps it |
| SharedPtrLedger.CountCovers | src/lockfree/shared_ptr.cc:57-63 | A count is at least the references any one thread contributes, so whatever a thread refers to is live |
| SharedPtrLinear.RunIsLinearizable | src/lockfree/shared_ptr.cc:183-275 | Every step of every run is a stutter or a step of plain atomic cells with load, exchange and a strong compare-and-swap, by the same thread and for the same action: a call begins with the arguments it was given |
| SharedPtrLinear.AtomicRefines | src/lockfree/shared_ptr.cc:183-275 | Each atomic step shows its client nothing, the one atomic moment of its call, its return, or both at once |
| SharedPtrLinear.PlainRefines | src/lockfree/shared_ptr.cc:104-124 | Creating, copying, moving and dropping owners and beginning a call have their plain effect on the client's variables |
| SharedPtrLinear.CompareVerdict | src/lockfree/shared_ptr.cc:235-275 | compare_exchange never fails spuriously: it succeeds exactly if the cell holds `e` at the deciding step; otherwise `e` becomes the other pointer held then and the cell is unchanged |
| SharedPtrProgress.LoadFinishesAlone | src/lockfree/shared_ptr.cc:183-212 | A load left alone is done after at most four atomic steps, its block counted once more, the cell as before |
| SharedPtrProgress.ExchangeFinishesAloneIff | src/lockfree/shared_ptr.cc:222-228 | An exchange left alone is done after two attempts if and only if no reader is in progress; otherwise it waits for ever |
| SharedPtrProgress.CompareDecidedAloneIff | src/lockfree/shared_ptr.cc:241-268 | A compare_exchange left alone is decided after two attempts, and waits for ever if and only if the cell holds `e` with a reader in progress |
| SharedPtrProgress.ReleasesAlone | src/lockfree/shared_ptr.cc:18-27 | A release left alone has its reference off the count after two attempts |
| SharedPtrCalls.DropFinishesAlone | src/lockfree/shared_ptr.cc:17-34 | A dropped owner left alone is off the count after two steps and its thread idle: the last one has run the deleter, exactly once, and freed the block; any other leaves the block live with its count one less |
| SharedPtrCalls.LoadReturnsAlone | src/lockfree/shared_ptr.cc:183-212 | A load left alone returns the pointer the cell held when it was called, counted once more, with all cells as before |
| SharedPtrCalls.ExchangeReturnsAlone | src/lockfree/shared_ptr.cc:214-229 | An exchange of a cell without readers, left alone, leaves the new pointer in the cell and the old one with the caller, and nothing else changed |
| SharedPtrCalls.CompareReturnsAlone | src/lockfree/shared_ptr.cc:235-275 | A compare_exchange left alone, unless it has to wait for a reader, returns after at most eight steps: the cell holds `d` if and only if it held `e`, the caller has the pointer the cell held, and the counts and deleters of all three blocks are settled, aliased or not |
| SharedPtrWords.RunKeepsFit | src/lockfree/tagged_ptr.cc:110-117 | In every run all words fit 48 bits of pointer and 16 of tag |
| SharedPtrRaw.StepPacks | src/lockfree/shared_ptr.cc:172-295 | Packing cells and registers turns every step of the machine on pairs into the same step on 64-bit words: pins, retries, the tag test of line 260, the hand-overs of lines 204 and 267, and the pointers that are counted, released and handed out |
| SharedPtrRaw.RawRunIsPacked | src/lockfree/shared_ptr.cc:172-295 | Every run on 64-bit words is a run on pairs, packed, so whatever holds of the runs on pairs holds of the words |
| SharedPtrRaw.PackedRunIsRaw | src/lockfree/shared_ptr.cc:172-295 | Every run on pairs, packed, is a run on 64-bit words |
| SharedPtrRaw.RawRunIsSafe | src/lockfree/shared_ptr.cc:172-295 | In every run on words no freed block is touched, no deleter runs twice, the tag bits never exceed the number of threads, and the pointer bits of a cell are null or a live block with a positive count |
| TaggedPtr.PackUnpack | src/lockfree/tagged_ptr.cc:73-117 | Unpacking a packed pair gives back the tag, and the pointer if and only if it is below 2^48 |
| TaggedPtr.UnpackPack | src/lockfree/tagged_ptr.cc:73-117 | Packing an unpacked word gives it back, for every 64-bit word |
| TaggedPtr.PackedSum | src/lockfree/tagged_ptr.cc:110-117 | The shifts and the bitwise or compute the pointer's low 48 bits plus the tag times 2^48 |
| TaggedPtr.OrOfDisjointBits | src/lockfree/tagged_ptr.cc:116 | An or of disjoint bit ranges is their sum |
| TaggedPtr.PackingIsInjective | src/lockfree/tagged_ptr.cc:99-117 | Packed words are equal if and only if the pairs are |
| TaggedPtr.CasOnRawWords | src/lockfree/tagged_ptr.cc:168-175 | A compare-and-swap on words is the compare-and-swap on pairs: cell, expected value and verdict |
| TaggedPtr.RetriesOnRawWords | src/lockfree/shared_ptr.cc:194-272 | The words that retries compute from a word they read are the packed pairs, and the tests on them agree |
| TaggedPtr.OnlyNullPacksToZero | src/lockfree/tagged_ptr.cc:119-121 | The zero word is the null pair and nothing else |
| AtomicSharedPtrClass.AllocData.Release | src/lockfree/shared_ptr.cc:17-34 | One thread, any spurious failures: the count drops by one; the deleter has run if and only if it reached zero |
| AtomicSharedPtrClass.Copy | src/lockfree/shared_ptr.cc:57-63 | One more reference to the same block; null stays null |
| AtomicSharedPtrClass.Drop | src/lockfree/shared_ptr.cc:17-34 | One reference less, the deleter exactly at the last; null is left alone |
| AtomicSharedPtrClass.AtomicSharedPtr.constructor | src/lockfree/shared_ptr.cc:178 | The cell takes the pointer over at tag 0 |
| AtomicSharedPtrClass.AtomicSharedPtr.Lower | src/lockfree/shared_ptr.cc:207-210 | The unpin loop takes one off the tag, whatever other pins there are, and keeps the pointer |
| AtomicSharedPtrClass.AtomicSharedPtr.Load | src/lockfree/shared_ptr.cc:183-212 | Returns the cell's pointer with one reference more and leaves the cell's word as it was, also while other readers pause in their pins |
| AtomicSharedPtrClass.AtomicSharedPtr.Exchange | src/lockfree/shared_ptr.cc:214-229 | Swaps the pointer and moves no count |
| AtomicSharedPtrClass.AtomicSharedPtr.Store | src/lockfree/shared_ptr.cc:230-234 | The cell holds the new pointer; counts of the old and the new block balance, aliased or not |
| AtomicSharedPtrClass.AtomicSharedPtr.CompareExchange | src/lockfree/shared_ptr.cc:235-275 | True if and only if the cell holds `e`, whatever fails spuriously; all counts of the cell's block, `e` and `d` balance, aliased or not, and a block is deleted exactly if none of its references is left |
| QueueOrder.RunKeepsInv | src/lockfree/lockfree_queue.cc:35-87 | In every run links lead forward in link order, popped nodes stay behind the head, and no pointer to nothing is followed |
| QueueOrder.ValuesLeaveInLinkOrder | src/lockfree/lockfree_queue.cc:35-83 | In every run the popped values are a subsequence of the linked ones, in link order |
| QueueOrder.ReturnedOnce | src/lockfree/lockfree_queue.cc:53-56 | Each popped node is returned by exactly one pop or still held by one |
| QueueOrder.PoppedNeverReturnsToHead | src/lockfree/lockfree_queue.cc:40-56 | Link order is append-only and a popped node is never `__head.next` again |
| QueueOrder.WalkTerminates | src/lockfree/lockfree_queue.cc:73-81 | Each failed link attempt brings a push closer to the end; only another thread's link moves the end away |
| QueueProgress.PushLinksAlone | src/lockfree/lockfree_queue.cc:77-79 | A push left alone links its value after at most as many failed attempts as there are nodes behind the one it looks at |
| QueueCalls.PushFinishesAlone | src/lockfree/lockfree_queue.cc:64-83 | `push(v)` left alone from its call is done within as many steps as there are nodes plus three: a node with the value `v` is linked, the hint is on it and the size is one more |
| QueueCalls.PopFinishesAlone | src/lockfree/lockfree_queue.cc:35-57 | A pop left alone from its call, with a first node, has taken that node after five steps, its successor behind the head, its own link cleared, the size one less |
| QueueCalls.EmptyPopFinishesAlone | src/lockfree/lockfree_queue.cc:41-44 | A pop left alone of a queue whose head leads nowhere is done after two steps, and has only put the hint on the head |
| QueueCalls.ValuesAreThoseBegun | src/lockfree/lockfree_queue.cc:64-83 | In every run the values linked and those of pushes in progress are, counted with multiplicity, the values with which pushes were begun |
| QueueProgress.PopFailsIffTaken | src/lockfree/lockfree_queue.cc:46-52 | In every run a pop's compare-and-swap fails if and only if another pop has taken its node; it then goes on with a later node that no pop has taken, or finds the queue empty |
| QueueProgress.ReturnedIsCutLoose | src/lockfree/lockfree_queue.cc:55-56 | A node that a pop has returned never again leads to a node linked before its return |
| QueueChain.PushReachesIff | src/lockfree/lockfree_queue.cc:77 | A push's value becomes reachable from the head if and only if the node it found is; otherwise the chain is unchanged |
| QueueChain.PopTakesOneIff | src/lockfree/lockfree_queue.cc:45-51 | A successful pop takes exactly the first node off if and only if the successor it read is still current; otherwise the rest of the chain is lost |
| QueueChain.OtherStepsKeepChain | src/lockfree/lockfree_queue.cc:35-87 | No other step changes what pops can reach |
| QueuePhases.PushesAllReach | src/lockfree/lockfree_queue.cc:64-83 | From a quiescent queue with its hint on the chain, any interleaving of pushes keeps the hint there and appends every value in link order |
| QueuePhases.PopsTakeInOrder | src/lockfree/lockfree_queue.cc:35-57 | From a quiescent queue, any interleaving of pops takes the chain off in order; taken and left together are what was there |
| QueuePhases.TwoPhases | src/lockfree/lockfree_queue.cc:35-87 | Pushes, then pops: exactly the linked values come out, in link order, each once |
| QueuePhases.EmptyAnswerIsTrue | src/lockfree/lockfree_queue.cc:41-50 | A pop answers "empty" only if no value is reachable |
| QueuePhases.ResetRestoresHint | src/lockfree/lockfree_queue.cc:85-87 | The reset of an empty pop puts the hint on the chain |
| QueuePhases.FreshQueueIsReady | src/lockfree/lockfree_queue.cc:60 | A new queue is quiescent, empty, and its hint on the chain |
| QueuePhases.PushCanBeLost | src/lockfree/lockfree_queue.cc:45-46 | A reachable state in which a linked value that was never popped is out of reach |
| QueueLinear.StepRefinesIff | src/lockfree/lockfree_queue.cc:35-87 | A step of any thread is a step of an atomic unbounded FIFO for the same thread and action (a push begun with `v` wants to append `v`), or invisible to it, if and only if it is harmless |
| QueueLinear.RunRefinesIff | src/lockfree/lockfree_queue.cc:35-87 | A run with the values its pushes are given and the answers its pops give is a run of the atomic FIFO if and only if all its steps are harmless |
| QueueWhole.NothingLostIff | src/lockfree/lockfree_queue.cc:35-87 | In every run, what was popped and what pops can reach are together all linked values in link order if and only if every step so far was harmless |
| QueueSize.RunKeepsSize | src/lockfree/lockfree_queue.cc:54-82 | In every run `__size` is what has been linked and counted less what has been popped and counted, modulo 2^64 |
| QueueSize.SizeAtRest | src/lockfree/lockfree_queue.cc:100-102 | With no call in progress `size()` is the number of values linked and not popped, modulo 2^64 |
| LockFreeQueueClass.LockFreeQueue.constructor | src/lockfree/lockfree_queue.cc:60 | Empty, not drained |
| LockFreeQueueClass.LockFreeQueue.Push | src/lockfree/lockfree_queue.cc:64-83 | Appends the value unless the queue has just been drained; then, and only then, the value is lost |
| LockFreeQueueClass.LockFreeQueue.Pop | src/lockfree/lockfree_queue.cc:35-57 | Returns and removes the first value and cuts its node loose, or finds the queue empty and mends the hint |
| LockFreeQueueClass.LockFreeQueue.ResetTail | src/lockfree/lockfree_queue.cc:85-87 | Only the hint changes, to `__head` |
| LockFreeQueueClass.LockFreeQueue.Clear | src/lockfree/lockfree_queue.cc:93-98 | Pops until empty |
| LockFreeQueueClass.LockFreeQueue.Size | src/lockfree/lockfree_queue.cc:100-102 | Values held plus values lost, modulo 2^64 |
| LockFreeQueueClass.TakeFirst | src/lockfree/lockfree_queue.cc:45-55 | Swinging the head over the first node and clearing its link removes exactly the first value |
| QueueValues.LinkAdds | src/lockfree/lockfree_queue.cc:77 | Linking behind a reachable last node appends the value |
| QueueValues.LinkLoses | src/lockfree/lockfree_queue.cc:77 | Linking behind an unreachable node changes nothing a pop can see |
| LockFreeQueueCalls.Replay | src/lockfree/lockfree_queue.cc:35-102 | Over every call sequence the queue answers and keeps what an unbounded FIFO does if and only if no push directly follows the pop that drained it; then `size()` is the FIFO's length, and otherwise values are missing |
| LockFreeQueueCalls.TakeRest | src/lockfree/lockfree_queue.cc:93-98 | Popping until empty yields the contents in order |
| LockFreeQueueCalls.PushAfterDrainIsLost | src/lockfree/lockfree_queue.cc:53-81 | After push, pop, push the second value never comes out although `size()` is 1, where a FIFO would hold it |
| RingLedger.StepKeepsLedger | src/lockfree/ringbuf_queue.cc:100-168 | Each step keeps the ledger of each slot |
| RingLedger.RunKeepsInv | src/lockfree/ringbuf_queue.cc:80-169 | For capacity 2 and more, counters stay in range and every slot balances in every run |
| RingTheorems.EverySlotBalances | src/lockfree/ringbuf_queue.cc:31-168 | Occupied plus pending stores equals in-window plus pending loads plus past misses, for every slot of every reachable state |
| RingTheorems.OccupiedIsWindowAtRest | src/lockfree/ringbuf_queue.cc:100-168 | With nothing pending and no misses, the occupied slots are exactly the window |
| RingTheorems.EveryPointerIsSomewhere | src/lockfree/ringbuf_queue.cc:31-168 | In every run the (pointer, deleter) pairs given to pushes are those in slots, in the hands of pushes, returned by pops or handed back, counted with multiplicity |
| RingTheorems.StoreNeverOverwrites | src/lockfree/ringbuf_queue.cc:63-71 | A full slot keeps its pointer until a load hands that pointer out |
| RingTheorems.SafeIffCapacityTwo | src/lockfree/ringbuf_queue.cc:100-168 | No run leaves the slots or divides by zero if and only if the capacity is 2 or more |
| RingTheorems.CapacityOneFails | src/lockfree/ringbuf_queue.cc:101-102 | With capacity 1 the first guesses bypass the modulus and a run leaves the slots |
| RingTheorems.CapacityZeroFails | src/lockfree/ringbuf_queue.cc:160 | With capacity 0 a pop divides by zero |
| RingTheorems.PopCanOvertakeStore | src/lockfree/ringbuf_queue.cc:156-168 | For every capacity of 2 and more a pop can answer "nothing" after a push has claimed its slot |
| RingClean.CleanRunRefines | src/lockfree/ringbuf_queue.cc:100-168 | Every run in which no claim lands on a slot with a pending store or load is, with all its calls and answers, a run of an atomic bounded FIFO of capacity-1 elements, whose full push waits and whose full try_push hands back |
| RingClean.CleanRunNeverWaits | src/lockfree/ringbuf_queue.cc:63-71 | In such a run no store finds its slot full and no load finds it empty |
| RingClean.CleanIffSlotsReady | src/lockfree/ringbuf_queue.cc:31-71 | A run is clean if and only if in none of its states a claimed store finds its slot full or a claimed load finds its slot empty |
| RingClean.CleanRunStaysClean | src/lockfree/ringbuf_queue.cc:100-168 | In such a run at most one thread is busy with a slot and nothing is ever missed |
| RingLinear.StepSimulates | src/lockfree/ringbuf_queue.cc:100-168 | Each push, try_push and pop begins as the call it is and takes effect at its counter compare-and-swap |
| RingProgress.PushClaimsAloneIff | src/lockfree/ringbuf_queue.cc:100-148 | Left alone with room, push and try_push claim the slot at the push point within two attempts; on a full ring try_push hands back at once and push waits for ever |
| RingProgress.PopClaimsAloneIff | src/lockfree/ringbuf_queue.cc:156-168 | Left alone, a pop answers empty at once if and only if the counters are equal, and otherwise claims the slot at the pop point within two attempts |
| RingProgress.StoreFillsAloneIff | src/lockfree/ringbuf_queue.cc:63-71 | Left alone, a claimed store fills its slot if and only if the slot is empty, and otherwise waits for ever |
| RingCalls.PushReturnsAlone | src/lockfree/ringbuf_queue.cc:100-148 | Push and try_push left alone from the call, with room and an empty slot, store the pointer at the push point and return within three steps |
| RingCalls.PushWaitsForSlot | src/lockfree/ringbuf_queue.cc:63-71 | With room and a slot still to be emptied by a pop, they claim it and wait for that pop |
| RingCalls.TryPushRefusedAlone | src/lockfree/ringbuf_queue.cc:131-148 | On a full ring try_push hands the pointer back within two steps and leaves the ring alone |
| RingCalls.PushWaitsForRoom | src/lockfree/ringbuf_queue.cc:100-123 | On a full ring push, however long it is left alone, never returns and changes nothing |
| RingCalls.PopReturnsAlone | src/lockfree/ringbuf_queue.cc:156-168 | A pop left alone from the call returns within three steps: nothing if the counters are equal, otherwise what the slot at the pop point holds, and the slot is empty |
| RingbufQueueClass.RingbufQueue.constructor | src/lockfree/ringbuf_queue.cc:89-94 | Any capacity can be asked for; the queue is usable if and only if it is 2 or more, and then empty |
| RingbufQueueClass.RingbufQueue.BlockingStore | src/lockfree/ringbuf_queue.cc:63-71 | Fills the empty slot, whatever fails spuriously, and touches no other |
| RingbufQueueClass.RingbufQueue.PushWithin | src/lockfree/ringbuf_queue.cc:100-123 | Watched for any number of attempts: with room the push is done once its spurious failures are over, and has appended; on a full ring it is never done and nothing changes |
| RingbufQueueClass.RingbufQueue.Push | src/lockfree/ringbuf_queue.cc:100-123 | Appends, given room, whatever fails spuriously |
| RingbufQueueClass.RingbufQueue.TryPush | src/lockfree/ringbuf_queue.cc:131-148 | Hands the same pointer back exactly if capacity-1 are held, else appends |
| RingbufQueueClass.RingbufQueue.Pop | src/lockfree/ringbuf_queue.cc:156-168 | Returns and removes the oldest pointer, or answers empty exactly if nothing is held |
| RingbufQueueClass.HeldAfterPush | src/lockfree/ringbuf_queue.cc:109-122 | Claiming and filling the push slot appends to what the window holds |
| RingbufQueueClass.HeldAfterPop | src/lockfree/ringbuf_queue.cc:159-167 | Claiming and emptying the pop slot removes the oldest |
| RingbufQueueClass.RoomIff | src/lockfree/ringbuf_queue.cc:110-162 | The full test means capacity-1 held, the empty test means none |
| TaskPrograms.FibProgramComputesFib | src/basic_task.cc:234-242 | The coroutine `fib`, which tests its parameter as it runs and hands smaller ones to its children, evaluates to the Fibonacci number of the parameter as `uint64_t`, modulo 2^64 |
| TaskPrograms.FibBodyComputesFib | src/basic_task.cc:234-242 | The body of `fib` gives the Fibonacci number of whatever parameter it finds, in whatever environment, if its calls are written out deeply enough for that parameter |
| TaskPrograms.TraceEndsInValue | src/basic_task.cc:152-156 | The history of every program ends with the return of its direct evaluation |
| TaskSteps.EvalIsStepwise | src/basic_task.cc:21-40 | Every program, run step by step with an explicit stack of callers, comes to an end with the value of its direct evaluation |
| TaskSteps.PollsPass | src/basic_task.cc:100-123 | A poller that is ready after k polls is passed after k steps that are not ready and one that is |
| TaskPrograms.FibDepth | src/basic_task.cc:234-242 | The longest chain of tasks of `fib(n)` that await each other is n, or 1 for n of zero |
| Scheduler.OnePlace | src/basic_task.cc:27-33 | In every state of the loop an unfinished task is in exactly one place, once on the stack of nested runs or in one queue entry; a finished one in none |
| Scheduler.TakeEntryKeeps | src/event_loop.cc:95-102 | Taking the oldest entry gives an unfinished coroutine that is not inside an await; invariant kept, measure lowered |
| Scheduler.ParkKeeps | src/basic_task.cc:100-123 | A poll that is not ready re-queues one waiter; invariant kept, measure lowered |
| Scheduler.ParkTells | src/basic_task.cc:100-123 | A poll that is not ready is recorded as such, and what the coroutine has done and has still to do are together still its history |
| Scheduler.MoveOnKeeps | src/basic_task.cc:100-109 | Running on within a coroutine keeps its meaning and the invariant |
| Scheduler.FinishKeeps | src/basic_task.cc:152-156 | The completed value is the program's direct evaluation |
| Scheduler.SpawnKeeps | src/basic_task.cc:27-30 | Awaiting queues the child once and keeps the parent on the stack; invariant kept, measure lowered |
| Scheduler.AwaitedIsQueued | src/basic_task.cc:30-31 | While the awaited task is incomplete the queue is not empty, so the nested loop stops only when it is complete |
| Scheduler.CollectKeeps | src/basic_task.cc:35-37 | await_resume finds the child's value; moving it out keeps the invariant |
| Scheduler.LaunchKeeps | src/executor.cc:119 | A task pushed from outside keeps the invariant and adds one to the unfinished launched tasks |
| Scheduler.EntriesFit | src/event_loop.cc:65-69 | The queue never holds more entries than there are unfinished launched tasks, however deep they nest, one fewer while a coroutine runs, and exactly as many between runs |
| Scheduler.StackFits | src/basic_task.cc:27-33 | Entries and nested runs together are exactly the unfinished tasks, and at most the longest await chains of the launched programs together |
| Scheduler.IdleMeansDone | src/executor.cc:120-121 | With queue and stack empty every launched task is complete with its direct evaluation |
| EventLoopClass.EventLoop.constructor | src/event_loop.cc:60-63 | A loop of any capacity; an empty usable one from 2 on |
| EventLoopClass.EventLoop.Push | src/event_loop.cc:65-69 | Appends the entry and never blocks, given room |
| EventLoopClass.EventLoop.RunOne | src/event_loop.cc:95-102 | Runs one entry if and only if there is one, leaves the frames below alone, lowers the measure |
| EventLoopClass.EventLoop.RecWait | src/basic_task.cc:100-109 | Polls once. If the poller is not ready the coroutine keeps waiting with one poll fewer, exactly one fresh waiter is queued behind the other entries, and nothing else changes; if it is ready the coroutine runs on |
| EventLoopClass.EventLoop.Resume | src/event_loop.cc:100 | Runs the coroutine until it completes or suspends; terminates |
| EventLoopClass.EventLoop.RunOn | src/basic_task.cc:100-123 | One step of a coroutine: a return completes, a poll that is not ready queues a waiter and suspends, one that is ready and a branch run on, an await comes back with the child's direct evaluation; the new state is given exactly |
| EventLoopClass.EventLoop.AwaitTask | src/basic_task.cc:27-37 | A co_await on a task comes back to the same coroutine, with the child's direct evaluation as its latest value and the rest of its program to run; the frames below are untouched |
| EventLoopClass.EventLoop.AwaitSuspend | src/basic_task.cc:27-33 | The nested loop ends with the awaited task complete |
| EventLoopClass.EventLoop.AwaitResume | src/basic_task.cc:35-37 | The value is there and is moved out |
| EventLoopClass.EventLoop.ReturnValue | src/basic_task.cc:152-156 | The promise is complete with the value of the returned expression |
| EventLoopClass.EventLoop.Suspend | src/basic_task.cc:118-123 | A waiter is queued and the coroutine leaves the stack |
| EventLoopClass.EventLoop.RunForever | src/event_loop.cc:85-90 | Terminates with an empty queue and the meanings of all tasks unchanged |
| EventLoopClass.EventLoop.Launch | src/executor.cc:119 | The push from outside is done if and only if the ring has a free slot; then the task is queued, otherwise nothing changes |
| EventLoopClass.EventLoop.ExpectedValue | src/task.cc:76-78 | After the run the value is the direct evaluation, and the task has done exactly what its program says |
| EventLoopClass.LaunchAll | src/executor.cc:119 | Pushes the tasks in order until one finds no free slot, which is the one that makes the queued entries capacity-1 |
| EventLoopClass.RunParallel | src/executor.cc:111-122 | On any loop between runs: it comes to an end if and only if the ring has a free slot for each task, however deep they nest, and then the queue is empty, each result is the program's direct recursive evaluation, and each task's recorded history is its program's: a poller ready after k polls was passed after exactly k that were not |
| EventLoopClass.ParallelExpected | src/executor.cc:111-122 | On a new loop: it comes to an end if and only if there are fewer tasks than slots, and then each result is the program's direct recursive evaluation and each history the program's |
| EventLoopClass.RunFib | src/basic_task.cc:234-242 | `fib(n)` run by the loop returns the Fibonacci number of n as `uint64_t`, modulo 2^64, on every ring of two slots and more |

## Left out

- Memory orders: every atomic operation is sequentially consistent.
- `PoolWorker` and `PoolExecutor` (src/executor.cc:11-106): their start and stop loops use the flag against its comment; the scheduler here is single-threaded.
- `BitTuple` (src/lockfree/bit_tuple.cc): the packed counter is an atomic pair.
- `exchange_tag`, `exchange_ptr`, `try_store`, `RingbufQueueNode::store` and the signed and boolean tags: not used by the structures modelled.
- 65536 or more threads: the 16-bit tag can then wrap; all runs have fewer threads.
- The 64-bit wrap of `__rcount`: counts are unbounded, so a run with 2^64 references to one block is not modelled.
- Deleters: running one is a single step without effects of its own. That a node's destructor stores null into its `next`, and so releases further nodes, is not modelled.
- Assignment over a non-null owner has no action of its own: it is a copy (or a move) followed by a drop of the old owner, in that order, as in src/lockfree/shared_ptr.cc:117-124.
- Destroying a cell is storing null into it; the cell itself stays in the machine's list.
- The exclusive-access rule for plain `SharedPtr` variables is built in: each belongs to one idle thread, and only cells are shared.
- Nodes of `LockFreeQueue` in the concurrent machine are named by link position, and each operation on a `SharedPtr` cell is one step; the composition of the two machines is argued by `SharedPtrLinear` and not built as one machine.
- LockFreeQueueClass.LockFreeQueue.Push: nodes are a sequence indexed by link order instead of heap objects, so their deallocation is not modelled.
- QueueOrder.WalkTerminates: bounds the walk while no other thread links; `push` has no bound otherwise.
- RingClean.CleanRunRefines: one direction only; a run with an overlapping claim may still happen to give FIFO answers, so being clean is not necessary for that. It is necessary for no store and no load to meet its slot in the wrong state (`CleanIffSlotsReady`).
- RingbufQueueClass.RingbufQueue.Push: requires room, because on a full ring it waits for a pop of another thread; `PushWithin` has no such requirement.
- Null pointers pushed into the ring: the ring cannot tell them from an empty slot.
- AtomicSharedPtrClass.AtomicSharedPtr.Exchange: requires tag 0, because with a reader in progress it waits for that reader (`ExchangeFinishesAloneIff`).
- AtomicSharedPtrClass.AtomicSharedPtr.Store: requires tag 0 for the same reason.
- AtomicSharedPtrClass.AtomicSharedPtr.CompareExchange: requires tag 0 if the cell holds `e`, because with a reader in progress it then waits (`CompareDecidedAloneIff`).
- EventLoopClass.ParallelExpected: takes the loop's capacity, and a sequence of programs for its variadic arguments; the thread-to-loop registry is not modelled. Capacities 0 and 1 are excluded because the ring fails there (`SafeIffCapacityTwo`).
- EventLoopClass.EventLoop.Push: requires room, which `EntriesFit` establishes at every call from inside a run.
- Coroutine frames and promises are values of one task table, so aliasing of handles and the freeing of frames are not modelled.
- TaskPrograms.FibProgramComputesFib: programs are finite, so the recursive calls of `fib(n)` are written out as deep as they can go for the parameter; each still tests its parameter as it runs. Takes the left operand of `+` first, an order the language leaves open.
- A task awaited after it was started elsewhere: programs create each child where they await it, so `await_ready` is false at that point.
- Pollers, clocks, sleeping, mutexes and semaphores: a poller is ready after a fixed number of polls and returns no value.
- Exceptions in coroutines: programs return values.
- `apush`, `run_until_complete` and `parallel`, which differs from `parallel_expected` only in how it hands out values and exceptions.
- Template concepts, build files and benchmarks.

# Verified models of Concurrency Kit

Dafny models of the lock-free structures, reclamation schemes and locks of Concurrency Kit, with
proofs of what they are for. `dafny verify dfyconfig.toml` checks everything.

There are two kinds of model.

**Protocols are state machines.** Every `ck_pr` load, store, compare-and-swap, fetch-and-add or swap
is one step of one thread; a run (`Machine.dfy`) is any interleaving of any number of threads, over
memory of any size. Program counters name the access that is due and the local variables still needed. History
variables, named as such in each file, record what happened; no step depends on them. The invariant
of each machine has a shared part and a part per thread, with a relation that says what a step of one
thread may do to the assertions of another. Main results are about whole runs. They say what is true at
every point; what each call has done by the time it returns, measured against the arguments in the label
of the call and not against what the steps carry along; and how soon it can return.

| file | steps | code |
|---|---|---|
| `Fifo.dfy` | `EnqueueStep`, `DequeueStep` | include/ck_fifo.h, `ck_fifo_mpmc_enqueue` and `ck_fifo_mpmc_dequeue`; calls in `FifoCalls.dfy` |
| `Stack.dfy` | `Step` | include/ck_stack.h, `push_mpmc`, `pop_mpmc`, `batch_pop_mpmc` |
| `Ring.dfy` | `Step` | include/ck_ring.h, `_ck_ring_enqueue_mp`, `_ck_ring_trydequeue_mc`, `_ck_ring_dequeue_mc`; calls in `RingCalls.dfy` |
| `Epoch.dfy` | `BeginStep`, `EndStep`, `CallStep`, `ScanStep`, `FinishStep` | src/ck_epoch.c and include/ck_epoch.h; the invariant is kept in `EpochSteps.dfy`, whole runs are in `EpochRuns.dfy`, calls in `EpochCalls.dfy`, `EpochEnds.dfy` and `EpochWaits.dfy` |
| `HashSetSpmc.dfy` | `Act`, `Proceed` (the writer), `Get` (a reader) | src/ck_hs.c, `ck_hs_get` beside one writer; operations and calls in `HashSetCalls.dfy` |
| `Barrier.dfy` | `Step` | src/ck_barrier_dissemination.c |
| `HazardStack.dfy` | `Step` | include/ck_hp_stack.h, and `ck_hp_reclaim` of src/ck_hp.c as it races with it; whole runs in `HazardStackRuns.dfy` |
| `Pflock.dfy` | `Arrive`, `Step` | include/ck_pflock.h |
| `Swlock.dfy` | `Step` | include/ck_swlock.h |
| `EventCount.dfy` | `Step` | src/ck_ec.c and include/ck_ec.h, several producers; calls in `EventCountCalls.dfy` |

**Sequential code is imperative.** `HashSet.dfy` (over the values of `HashTable.dfy`; `HashSetRoom.dfy`
says when a rehash is sure to fit), `RobinHoodMap.dfy` (over the probe arithmetic of `RobinHood.dfy`), `Hazard.dfy`, the construction in
`Barrier.dfy` and the loop in `Backoff.dfy` are classes and methods with arrays, linked nodes and
loops like those of the code, proved against specifications. `Bits.dfy` has the bit tricks of
src/ck_internal.h on 32-bit words, and what they compute as numbers; `Growth.dfy` what they make of the
capacities that both hash sets ask for.

Conventions: memory is sequentially consistent and fences do nothing. Cache lines are 64 bytes and
pointers 8, so a `ck_hs` line has 8 slots. Hash and comparison are abstract: `hf` gives the hash of a
key, and two objects compare equal exactly if they have the same key. An `unsigned long` has 64 bits.
`malloc` is a parameter that tells which allocations succeed, by their number. Counters of protocols are unbounded, with lemmas about their 32-bit
counterparts; the words of `EventCount.dfy` wrap as in the code.

Six promises hold only under a condition, which the models state exactly:

- The dissemination barrier separates episodes exactly when there are at most 2^31 threads
  (`Barrier.SafeExactly`); beyond that the number of rounds overflows to 0.
- include/ck_epoch.h:233-236 promises that the end of a section returns true if no more sections exist for
  the caller. With section objects the code looks at the bucket of the section that ends only. Its answer
  is right exactly unless sections are open that all count in the other bucket
  (`EpochEnds.EndReturnsRight`, `EpochEnds.TrueTooEarly`).
- include/ck_ec.h:139-144 promises that a wait that returns 0 has seen a changed count. The code can
  return 0 without a change when a producer clears the flag late (`EventCount.ZeroWithoutChange`). An
  answer of 0 is sure to mean a change exactly if, at the call, no producer is about to clear the flag or
  to add 0 (`EventCount.ZeroMeansExactly`), as long as nobody begins to add 0 during the call.
- A sleeper on a 64-bit word is compared by its low half only. It never sleeps through fewer than 2^31
  increments (`EventCount.NoWakeUpIsLost`), and may sleep through 2^31 (`EventCount.SleepsThrough`).
- doc/ck_hs_grow and doc/ck_rhs_grow promise that, unless memory is short, a grow succeeds and makes room
  for as many entries as asked for. When the entries there are fit the capacity asked for, that is so
  exactly if it is not less than the present one and at most 2^31 (`Growth.PromiseExactly`): the
  capacity is cut to 32 bits. Asked for 2^32, a set of few entries shrinks to 8 slots
  (`Growth.ShrinksAtWord`), and the grow of a larger set fails with memory left (`Growth.FailsAtWord`).
  Which entries fit, whatever their hashes, is `HashSetRoom.Roomy` and `RobinHoodMap.Roomy`.
- The backoff of an event count finds its next deadline exactly when its waiting time is long enough
  or grows under the configured factor and shift (`Backoff.EndsExactly`). The code does not check that.

## Model

| member | source | states |
|---|---|---|
| Fifo.NextInv | include/ck_fifo.h:244-418 | Every access of every interleaving, and every new call with any free node, keeps the list, tail and snapshot invariant, although nodes are reused at once |
| Fifo.NothingOutOfRange | include/ck_fifo.h:244-418 | No access ever goes to a node outside the memory |
| Fifo.StepIsFifo | include/ck_fifo.h:244-418 | Each access either leaves the queue alone, appends the value of the node it links, or removes the oldest value, which is the one returned |
| Fifo.RunIsFifo | include/ck_fifo.h:244-418 | At every point of every run, the values returned so far followed by the contents are the values linked so far, in order: none lost, duplicated or reordered |
| Fifo.RunMemory | include/ck_fifo.h:244-418 | At every point a walk through memory from the head finds exactly the contents, and the tail is not behind the head |
| Fifo.LinkNeverStale | include/ck_fifo.h:267-286 | The compare-and-swap on a next field succeeds exactly if the snapshot of the tail is the node that is last now: no write into a recycled node |
| Fifo.LinkIsCurrent | include/ck_fifo.h:267-286 | A generation that still matches shows that the snapshot is still the last node |
| Fifo.EnqueueLinksOnce | include/ck_fifo.h:244-300 | Each enqueue call links its node exactly once before it returns |
| Fifo.EmptyWasTrue | include/ck_fifo.h:366-399 | Any step of a dequeue that answers that the queue is empty is right: at an instant of that very call the list in memory was empty |
| Fifo.AnswersAreRight | include/ck_fifo.h:366-399 | What each answer means at the step that gives it, wherever in the call that is: an enqueue returns after it has linked its node; a dequeue returns the oldest value, takes it out, and hands back the node that was the head |
| FifoCalls.CallTakesEffect | include/ck_fifo.h:244-418 | Every call does what its arguments ask for, once: an enqueue of v in node n has appended exactly that by exactly one of its accesses; a dequeue removes the oldest value with its last access, or nothing if it answers empty, and none of its other accesses removes or appends anything |
| FifoCalls.ReturnsWhatWasAsked | include/ck_fifo.h:244-418 | In every run, the values returned so far followed by the contents are the arguments of the enqueue calls, in the order in which they took effect |
| FifoCalls.AloneEnds | include/ck_fifo.h:244-418 | From every reachable state, whatever others have left half done, a thread that runs alone is done with its call after at most 22 accesses |
| Stack.PopInstallsSuccessor | include/ck_stack.h:203-232 | A successful double-width swap installs the node that is below the top right now, even if popped nodes were pushed back meanwhile |
| Stack.NextInv | include/ck_stack.h:53-68 | Every access of pushes, pops and batch pops keeps the stack invariant in every interleaving |
| Stack.StepIsLifo | include/ck_stack.h:312-335 | Each access is a step of a last-in first-out stack and the answer is what it did; a batch returns the whole list, top first; empty is answered only when the stack is empty |
| Stack.RunConserves | include/ck_stack.h:312-335 | In every run, what was pushed is what was popped plus what is on the stack, as multisets |
| Stack.RunMemory | include/ck_stack.h:312-335 | At every point a walk through memory from the head finds exactly the stack |
| Stack.CallTakesEffect | include/ck_stack.h:203-335 | Every call does what was asked for, once, with its last access: push(n) puts n on top; a pop takes the top and a batch everything, and they answer empty exactly if nothing is there; no earlier access of the call changes the stack |
| Stack.AloneEnds | include/ck_stack.h:203-335 | From every reachable state a thread that runs alone is done with its call after at most five accesses |
| Ring.ReserveKeeps | include/ck_ring.h:317-401 | Reserving a slot keeps the invariant that counters, tickets, slots and published entries agree, and every other thread's assertions |
| Ring.PublishKeeps | include/ck_ring.h:317-401 | Publishing keeps it: the slot holds the whole entry of its ticket by then |
| Ring.FullWasTrue | include/ck_ring.h:317-401 | An enqueue that answers that the ring is full is right at an instant of its own call |
| Ring.TakeKeeps | include/ck_ring.h:403-489 | Taking an entry keeps it, although slots are reused from then on |
| Ring.AnswersAreRight | include/ck_ring.h:403-489 | What each call returns: an enqueue publishes the next ticket; a dequeue returns the entry at the consumer counter, and its word-by-word copy was not overwritten; empty only if the ring is empty at that instant |
| Ring.RunCounters | include/ck_ring.h:403-489 | Always consumer head <= producer tail <= producer head <= consumer head + mask |
| Ring.RunIsFifo | include/ck_ring.h:403-489 | In every run, the entries taken are the entries ticketed, in ticket order |
| Ring.NextInv | include/ck_ring.h:403-489 | Every access keeps the ring invariant in every interleaving, word by word |
| RingCalls.CallTakesEffect | include/ck_ring.h:317-489 | Every call does what was asked for, once: an enqueue of v has taken exactly one ticket, for v, and returns by publishing the whole of v under it; or it has taken none and the ring was full at an instant of the call. A dequeue takes the oldest entry with its last access, or answers empty when nothing is published; only a single try may lose |
| RingCalls.TicketedIsArgument | include/ck_ring.h:317-489 | The entry ticketed by a step is the argument of the last enqueue call of the thread that takes it |
| RingCalls.ReturnsWhatWasAsked | include/ck_ring.h:317-489 | In every run, the entries handed out are the arguments of the enqueues in ticket order, up to the consumer counter |
| RingCalls.LostWasTrue | include/ck_ring.h:418-446 | A single try that gives up has lost to another consumer: an entry was taken since it loaded the counter, within its call |
| RingCalls.DequeueAlone | include/ck_ring.h:403-489 | From every reachable state, whatever producers and consumers have left half done, a dequeue that runs alone is done after at most 2w+5 accesses, for entries of w words |
| RingCalls.EnqueueAlone | include/ck_ring.h:258-315 | So is an enqueue, if no other thread holds a ticket that it has not published |
| RingCalls.EnqueueWaits | include/ck_ring.h:258-315 | The condition is needed: with its ticket taken, an enqueue does not return for as long as an earlier one is not published |
| Ring.WrapAgrees | include/ck_ring.h:326-340 | The test on 32-bit counters agrees with the one on unbounded counters while they are less than 2^32 apart |
| EpochRuns.PollRunsNothingEarly | src/ck_epoch.c:577-640 | In every run, when a poll dispatches an entry, every section that was open when its call read the global epoch has ended |
| EpochRuns.DispatchIsSafe | src/ck_epoch.c:577-640 | The same for a single dispatch, from the invariant |
| EpochRuns.SlotAge | src/ck_epoch.c:577-640 | The slot that an epoch selects for dispatch holds nothing filed in that epoch or the one before it: indices modulo 4 do not alias |
| EpochCalls.NoCallbackIsLost | src/ck_epoch.c:371-405 | In every run, at every point, for every thread and callback: it was the argument of as many finished calls of the thread as its polls have run it and it is pending in its record; none is lost or run twice |
| EpochCalls.PollRunsWhatItTakes | src/ck_epoch.c:371-405 | A poll runs exactly what it takes out of its record: nothing if it answers false, and all there is if it answers true without having met an active record |
| EpochCalls.CallTakesEffect | include/ck_epoch.h:125-285 | Every call does what was asked for, once, and leaves the rest of its record alone: begin opens one section under a new number; end closes the given one; call files its callback in front of the slot of the epoch that it read; a poll answers false only having met an active record under another epoch than it read, and true after it has emptied the slot two epochs back and the epoch has moved on, or, if it met no active record, all slots, with its record on the epoch that it read; a synchronize changes nothing of its own |
| EpochCalls.StaysOpen | include/ck_epoch.h:237-265 | A section stays open until its own thread asks to end it |
| EpochCalls.EndCloses | include/ck_epoch.h:237-265 | When the end of a section returns, it has ended, in whatever record one looks |
| EpochEnds.EndMovesOn | include/ck_epoch.h:233-265 | With section objects the end of a section leaves what the record publishes alone, unless it empties its bucket while later sections are open; then the record publishes the epoch that all of those observed |
| EpochEnds.EndReturns | include/ck_epoch.h:233-265 | What the end of a section returns, in every run: without section objects whether it was the last of its record, with them whether its bucket counts no more |
| EpochEnds.EndReturnsRight | include/ck_epoch.h:233-265 | It returns true exactly if no more sections exist for the caller, as the header promises, unless sections are open that all count in the other bucket |
| EpochEnds.TrueTooEarly | include/ck_epoch.h:233-265 | A concrete run in which it returns true with another section of the record still open |
| EpochRuns.SynchronizeWaits | src/ck_epoch.c:436-538 | In every run, when a synchronize returns, by two scanned rounds, by an inactive scan or because rivals reached its goal, every section open when it read the epoch has ended |
| EpochSteps.GoalKeeps | src/ck_epoch.c:436-538 | Reaching the goal epoch proves the same without a scan of one's own |
| EpochSteps.QuietEnded | src/ck_epoch.c:436-538 | A complete scan that met no active record shows that all sections opened before it have ended |
| EpochCalls.SynchronizeEnds | src/ck_epoch.c:436-545 | The epoch was read within the call that returns, after it began, and all that was open then has ended |
| EpochWaits.CallEnds | src/ck_epoch.c:436-545 | Begin, end, call and poll wait for nobody: whatever other threads do they are over after 5, 3, 2 and 3n+9 accesses at most, with n records; and a synchronize after 24n+28 unless it is stalled: it comes to a record active under another epoch, and finds the global epoch unchanged |
| EpochWaits.StallMeans | src/ck_epoch.c:436-545 | A stall is the fault of a record that the same scan has found active under another epoch |
| EpochCalls.BarrierRunsNothingEarly | src/ck_epoch.c:548-555 | When a synchronize has returned, every section that was open when any callback now pending in the caller's record was filed has ended: running them all is safe |
| EpochSteps.OlderEnded | src/ck_epoch.c:320-369 | A complete scan for epoch e shows that every section older than e has ended, although records move on while it runs |
| EpochSteps.TickShared | src/ck_epoch.c:320-369 | A tick after such a scan keeps every active record within one epoch of the global one |
| EpochRuns.SectionsAreNear | include/ck_epoch.h:125-186 | An open section has observed the global epoch or the one before it |
| EpochSteps.NextInv | include/ck_epoch.h:125-186 | Every access of sections, calls, polls, synchronizations and registrations keeps the invariant in every interleaving |
| EpochRuns.BucketsNeverMix | src/ck_epoch.c:150-226 | Two open sections of a record that share a bucket observed the same epoch: a parity index is enough |
| EpochSteps.AddRefBuckets | src/ck_epoch.c:185-226 | Adding a reference counts the section in the bucket of its epoch |
| EpochSteps.DelRefKeeps | src/ck_epoch.c:150-183 | Dropping a reference, and the forward move of the record's epoch with the last one, never passes an open section |
| HashTable.BoundSetCovers | src/ck_hs.c:330-350 | Setting a bound lowers none, covers the position it was set for, and does nothing if that was covered |
| HashSet.Map.BoundSet | src/ck_hs.c:330-350 | The stores of the maximum and of the clamped bound make exactly that change |
| HashSet.Map.BoundGet | src/ck_hs.c:351-366 | The bound is read as the invariant means it, with the clamp |
| HashTable.ModelIsContents | src/ck_hs.c:466-584 | The map stands for exactly the objects in the slots |
| HashTable.NotFoundMeansAbsent | src/ck_hs.c:466-584 | A search that meets neither a match nor an empty slot up to the bound, or an empty slot, has shown the key absent |
| HashTable.FoundMeansPresent | src/ck_hs.c:466-584 | A match is the one slot of its key |
| HashSet.ProbeDecides | src/ck_hs.c:466-584 | What a probe finds is what the map holds for the key |
| HashSet.FoundWithin | src/ck_hs.c:466-584 | A match is met exactly at the recorded position of its key, within its bound |
| HashSet.Map.Place | src/ck_hs.c:466-584 | The slot at a position of the probe sequence, inside its aligned line |
| HashSet.Map.ProbeSlot | src/ck_hs.c:466-584 | One position of a probe: it ends at the limit, at an empty slot or a match, or at the first tombstone when that is enough; otherwise it goes on |
| HashSet.Map.ProbeLine | src/ck_hs.c:466-584 | One line of a probe |
| HashSet.Map.MapProbe | src/ck_hs.c:466-584 | The whole probe: how far it went, that every slot before was neither empty nor a match, which tombstone was the first, and that it ends |
| HashSet.Map.constructor | src/ck_hs.c:233-288 | A new map is empty, with clear bounds, a maximum of 0 and a power of two of slots, from one line to 2^31; limit and step follow from their number |
| HashSet.Map.Signal | src/ck_hs.c:104-126 | The generation of the parity of the hash grows by one |
| HashSet.Map.FirstEmpty | src/ck_hs.c:375-446 | The search for room in the table under construction finds the first empty slot, or none up to the limit |
| HashSet.Set.RehashOne | src/ck_hs.c:375-446 | One slot of the old table moves over, unless the probe limit is hit, which shows that there was no sure room for all entries |
| HashSet.NoRoom | src/ck_hs.c:375-446 | When the probe limit is hit there are more entries than the new table is sure to hold |
| HashSet.Set.Rehash | src/ck_hs.c:375-446 | The new table holds exactly the map of the old one, counted right, unless the probe limit is hit; the entries that there is sure room for never hit it |
| HashSet.MovedAll | src/ck_hs.c:375-446 | After all slots, both tables stand for the same map |
| HashSet.Set.Attempt | src/ck_hs.c:375-446 | One attempt: it fails without memory, or because there was no sure room, and then changes nothing |
| HashSet.Set.Grow | src/ck_hs.c:375-446 | Growing keeps the map. Every restart had memory and no sure room at a capacity doubled in 64 bits and then cut to 32; it ends in a table of the last capacity tried, or without memory, or when the doubled capacity is below the present one; the restarts end because 64 doublings leave 0 |
| Growth.DoubledEnds | src/ck_hs.c:432-439 | After 64 doublings the capacity word is 0 |
| Growth.FirstFits | src/ck_hs.c:432-439 | If the entries fit the capacity asked for there is no restart: the grow makes that capacity, or lacks memory, or was asked for less than there is |
| Growth.ShrinksAtWord | src/ck_hs.c:432-439 | Asked for 2^32 slots with memory at hand, a set whose entries fit one line ends up with one line |
| Growth.FailsAtWord | src/ck_hs.c:432-439 | Asked for 2^32 slots, a set of more than eight entries fails after 32 attempts that all had memory |
| Growth.DoublingGrows | src/ck_hs.c:432-439 | A successful grow to twice the slots never makes the table smaller than that |
| Growth.PromiseExactly | doc/ck_hs_grow:38-60 | With memory, and room for the entries in the capacity asked for, a grow succeeds and makes at least that capacity exactly if it is not less than the present one and at most 2^31 |
| Growth.CapacityIsPower | src/ck_hs.c:233-241 | The capacity of a map is a power of two from 8 to 2^31, whatever 64-bit number was asked for |
| Growth.CapacityCovers | src/ck_hs.c:233-241 | It is at least the number asked for exactly if that is at most 2^31 |
| Growth.CapacityOf | src/ck_hs.c:233-241 | The capacity by the word operations is the one of the model |
| HashSetRoom.DrainedOffset | src/ck_hs.c:314-328 | Once a 64-bit hash has no bits left to shift in, lines start at distances that grow by one each time |
| HashSetRoom.SlotsApart | src/ck_hs.c:314-328 | No two positions in those lines meet at a slot, until a whole turn |
| HashSetRoom.FullMeansMany | src/ck_hs.c:314-328 | A search that sees full slots only, up to its probe limit, has seen as many entries as the table has sure room for |
| HashSetRoom.RoomStays | src/ck_hs.c:314-328 | Sure room for n entries stays when the table doubles |
| HashSetRoom.RoomAtMost | src/ck_hs.c:314-328 | The largest table has sure room for 520000 entries, whatever their hashes |
| HashSet.Set.PostInsert | src/ck_hs.c:448-456 | The set grows until it is at most half full; if not, an allocation failed, or twice the slots are more than 2^31 or have no sure room; the map stays |
| HashSet.Set.GrowTwice | src/ck_hs.c:448-456 | Asking for twice the slots yields at least as many, or one of those reasons |
| HashSet.Set.Put | src/ck_hs.c:875-934 | A put adds the object exactly if the key was absent, and otherwise changes nothing; it fails on an absent key only if its last allocation failed, or if twice the slots are more than 2^31 or have no sure room; trying again ends |
| HashSet.Set.MoreRoom | src/ck_hs.c:875-934 | A put that finds no place makes the table larger, within 2^31 slots, or knows why not |
| HashSet.Set.InsertHere | src/ck_hs.c:875-934 | The insertion into the first tombstone or the empty slot found, with its bound and counters |
| HashTable.Insert | src/ck_hs.c:875-934 | Storing a new object at the first free position keeps every other key in place and adds exactly this one |
| HashTable.InsertCounts | src/ck_hs.c:875-934 | Entry and tombstone counters stay equal to the actual counts |
| HashSet.Set.Assign | src/ck_hs.c:816-873 | A set replaces or inserts, and returns the previous object of the key; it fails only on an absent key, for the reasons of a put |
| HashSet.Set.Modify | src/ck_hs.c:816-873 | Bound, replacement in place or by relocation, or insertion with growth |
| HashSet.Set.RelocateHere | src/ck_hs.c:843-859 | New copy, signal, then tombstone: the key moves to the first tombstone of its sequence and the map changes only by the new object |
| HashTable.Relocate | src/ck_hs.c:843-859 | Moving a key to an earlier tombstone keeps every other key findable |
| HashTable.RelocateCounts | src/ck_hs.c:843-859 | A relocation leaves the counters right without touching them |
| HashSet.Set.ReplaceHere | src/ck_hs.c:843-859 | Replacing in place or by relocation; no key moves away from the start of its sequence |
| HashTable.Replace | src/ck_hs.c:843-859 | Replacing an object in its slot changes exactly that key |
| HashSet.Set.FetchAndStore | src/ck_hs.c:698-728 | Replaces and returns the object of a present key, and does nothing for an absent one |
| HashSet.Set.Apply | src/ck_hs.c:743-813 | The map becomes what the callback asked for: removal, nothing, replacement or insertion; it fails only on an absent key, for the reasons of a put |
| HashSet.Set.ApplyHere | src/ck_hs.c:743-813 | The end of an apply after its probe |
| HashSet.Set.Remove | src/ck_hs.c:968-986 | Removes exactly the key and returns its object, or nothing |
| HashTable.Remove | src/ck_hs.c:968-986 | A tombstone in place of an entry keeps every other key findable |
| HashTable.RemoveCounts | src/ck_hs.c:968-986 | Both counters follow a removal |
| HashSet.Set.Get | src/ck_hs.c:937-966 | Without a writer beside it, a get returns what the map holds for the key |
| HashSet.Set.Gc | src/ck_hs.c:608-696 | The map and both counters stay, no entry moves later in its sequence, no bound rises, after a full scan no bound is higher than some entry needed before it, and a partial scan leaves the bounds alone; it fails exactly when it has no memory for new bounds |
| HashSet.Set.FullScan | src/ck_hs.c:608-696 | The same for a full scan |
| HashSet.Set.Sweep | src/ck_hs.c:608-696 | After a full scan the recomputed, clamped bounds cover every entry, although entries move during the scan |
| HashSet.Set.SweepOne | src/ck_hs.c:608-696 | One slot: an entry in it moves to the first tombstone of its sequence, is covered from then on, and nothing covered before is uncovered |
| HashSet.Set.GcEntry | src/ck_hs.c:608-696 | An entry moves to the first tombstone of its sequence, if one comes earlier: every slot before its new position is in use |
| HashSet.TightOne | src/ck_hs.c:608-696 | What is noted for an entry keeps the new bounds as low as the entries allow |
| HashSet.SweptOne | src/ck_hs.c:608-696 | Recording a visited entry keeps the others covered or still to be visited |
| HashSet.TurnUnique | src/ck_hs.c:608-696 | A scan from any seed visits every slot, each once |
| HashSet.CoversReplace | src/ck_hs.c:608-696 | Bounds that cover every entry may replace the present ones |
| HashSet.Set.Clear | src/ck_hs.c:617-623 | Clearing the bounds of a set without entries |
| HashSet.Set.Tighten | src/ck_hs.c:680-693 | Storing the recomputed maximum and bounds keeps the map and raises no bound |
| HashSet.Map.InstallBounds | src/ck_hs.c:680-693 | The loop that copies the bounds makes exactly that change |
| HashSetSpmc.ActKeeps | src/ck_hs.c:660-666 | At every single store of the writer, in the middle of every operation, the published table is the table before the operation plus the stores made so far |
| HashSetSpmc.CurReadable | src/ck_hs.c:660-666 | At every instant each key of the map sits at its place, before any empty slot and within the bound that a reader computes from two loads |
| HashSetSpmc.CurCurrent | src/ck_hs.c:660-666 | At every instant each stored object is the current one of its key, except the old copy of a relocation in progress |
| HashSetSpmc.CurNewFirst | src/ck_hs.c:660-666 | During a relocation a search meets the new copy before the old one |
| HashSetSpmc.ProbeGivesOp | src/ck_hs.c:843-859 | What a probe returns is what the stores of an insertion, a replacement or a relocation need |
| HashSetSpmc.ActRely | src/ck_hs.c:843-859 | What a store of the writer can do to a search in progress |
| HashSetSpmc.GetKeeps | src/ck_hs.c:937-966 | Each load of a get keeps what it knows: unless the key was absent at some instant or a signal came, its place is ahead of the search and within the loaded bound |
| HashSetSpmc.ReaderStays | src/ck_hs.c:937-966 | No store of the writer invalidates that |
| HashSetSpmc.AnswerWasCurrent | src/ck_hs.c:937-966 | In every run, the answer of a get was true at an instant of the call: the object returned was then the object of the key, or the key was then absent |
| HashSetSpmc.PresentIsFound | src/ck_hs.c:937-966 | A key that is present throughout a get is found, through any number of relocations, collections and growths |
| HashSetSpmc.IdleIsModel | src/ck_hs.c:937-966 | Between operations the map is exactly what the published slots hold |
| HashSetCalls.PutTakesEffect | src/ck_hs.c:816-934 | In every run, from the beginning of an insertion or replacement of an object to the next point at which the writer is idle, the map changes once, at one store, and comes to hold that object under its key, all else unchanged |
| HashSetCalls.WriterEnds | src/ck_hs.c:816-934 | The writer waits for no reader: an insertion, replacement or relocation is over after at most five stores, lowering the bounds after one for each and one more, however many gets are in progress |
| HashSetCalls.OthersTakeEffect | src/ck_hs.c:843-986 | The other steps of a run: a removal takes exactly its key away, a grow or a reset publishes its new table, which stands for the same map or, after a reset, for none, and readers change nothing |
| HashSetCalls.LowerTakesEffect | src/ck_hs.c:609-690 | Lowering the bounds one store at a time changes the map at no point, and ends with the table as it was but for exactly the lower bounds |
| HashSetCalls.GetEnds | src/ck_hs.c:937-966 | While the writer makes no store, a get has its answer after a number of loads fixed from the start, no matter what other readers do and what was half done |
| Barrier.Barrier.constructor | src/ck_barrier_dissemination.c:35-76 | All flags are clear and the partner of thread i in round k is thread i + 2^k modulo the number of threads, whichever way it is computed, in as many rounds as the rounded-up logarithm |
| Barrier.Barrier.LinkThread | src/ck_barrier_dissemination.c:35-76 | The same for the rounds of one thread, which leaves the other threads alone |
| Barrier.NewsOf | src/ck_barrier_dissemination.c:96-130 | A thread that gets past round r has heard from its 2^(r+1) - 1 predecessors in this episode |
| Barrier.SeenIsNew | src/ck_barrier_dissemination.c:96-130 | The flag value that a thread waits for was stored in this very episode, never left over from another: two parity sets and a reversed sense are enough |
| Barrier.Toggles | src/ck_barrier_dissemination.c:96-130 | Which value a flag has after k episodes |
| Barrier.StepKeeps | src/ck_barrier_dissemination.c:96-130 | Every access of every thread keeps the invariant |
| Barrier.Together | src/ck_barrier_dissemination.c:96-130 | A thread that has left an episode has heard that every thread entered it |
| Barrier.SafeExactly | src/ck_barrier_dissemination.c:96-130 | For any number of threads: in every run no thread leaves an episode before all have entered it, exactly when there are at most 2^31 threads |
| Barrier.NeverStuck | src/ck_barrier_dissemination.c:96-130 | In every run, if all threads have entered an episode that some thread has not left, a thread in it can go on: none wait for each other in a circle |
| Barrier.TooMany | src/ck_barrier_dissemination.c:96-130 | Beyond 2^31 threads the number of rounds overflows to 0, and a run in which thread 0 leaves alone |
| Bits.CeilLog | src/ck_internal.h:38-61 | The logarithm of the rounded-up power is the least exponent that suffices, exactly as long as a 32-bit word can hold the power |
| Bits.LogOfPower | src/ck_internal.h:38-61 | The same, of the word operations |
| Bits.PowerOf2IsNext | src/ck_internal.h:50-61 | The least power of two not below the argument, and 0 exactly for 0 and beyond 2^31 |
| Bits.NextPower | src/ck_internal.h:50-61 | The same of numbers: the power of the least sufficient exponent, or 0 |
| Bits.PowerIs | src/ck_internal.h:50-61 | What the word operations yield, as a number |
| Bits.LogIsExponent | src/ck_internal.h:38-48 | On powers of two the mask trick is the logarithm |
| Bits.MaxIsMax | src/ck_internal.h:77-82 | The branch-free maximum is the maximum |
| Bits.MaskIsMod | src/ck_barrier_dissemination.c:57-66 | Masking with a power of two less one is the remainder |
| Bits.Remainder | src/ck_barrier_dissemination.c:57-66 | The partner by mask or by remainder is the same number |
| RobinHood.AtPlace | src/ck_rhs.c:469-482 | The probe sequence in closed form: lines at triangular distances, each entered one place earlier |
| RobinHood.TrianglesDiffer | src/ck_rhs.c:469-482 | The first 2^m triangular numbers differ modulo 2^m |
| RobinHood.SlotsDiffer | src/ck_rhs.c:469-482 | No two of the first C positions meet at a slot |
| RobinHood.VisitsAll | src/ck_rhs.c:469-482 | From any home the first C positions visit every slot, each exactly once, for every power of two of lines of any length |
| RobinHood.PrevUndoesNext | src/ck_rhs.c:483-494 | Going back undoes going on, and going on undoes going back |
| RobinHood.FirstOffset | src/ck_rhs.c:941-952 | The home is recovered from a slot and its position in the sequence, beyond the first C positions too |
| RobinHood.BackALine | src/ck_rhs.c:941-952 | One round of the loop goes to the same place of the line before |
| RobinHoodMap.LinesArePower | src/ck_rhs.c:337-347 | The capacity, cut to 32 bits as in the code, is a power of two of lines, for both line lengths |
| RobinHoodMap.BoundsRise | src/ck_rhs.c:497-536 | Setting a bound lowers none and covers its position |
| RobinHoodMap.Map.BoundGet | src/ck_rhs.c:497-536 | The bound that a get loads |
| RobinHoodMap.Map.Store | src/ck_rhs.c:497-536 | Slot, position and bound are stored, and nothing else changes |
| RobinHoodMap.Map.Insert | src/ck_rhs.c:567-609 | The inner loop adds exactly one entry, keeps every entry at its true position before any empty slot and within its bound, keeps robin-hood order, and ends although entries displace one another; it hits the probe limit only if the entries are more than the slots or than the limit |
| RobinHoodMap.Crowded | src/ck_rhs.c:567-609 | A search that has met no empty slot up to the limit has met as many different entries as there are slots, or as the limit allows |
| RobinHoodMap.Map.Contend | src/ck_rhs.c:567-609 | At a slot in use, the entry in hand displaces one nearer to its home or goes by; positions in use only grow |
| RobinHoodMap.Map.Settle | src/ck_rhs.c:567-609 | The entry in hand takes an empty slot, and everything is in place |
| RobinHoodMap.Displaces | src/ck_rhs.c:567-609 | The displaced entry goes on from its slot, with nothing lost |
| RobinHoodMap.PutOk | src/ck_rhs.c:567-609 | A store leaves all other entries where searches find them |
| RobinHoodMap.PutFair | src/ck_rhs.c:567-609 | A store keeps robin-hood order: an entry has gone past others only if they were no nearer to their homes |
| RobinHoodMap.Set.Rehash | src/ck_rhs.c:538-615 | The new map holds exactly the entries of the old one, unless the probe limit is hit; as many entries as the limit and the slots allow never hit it |
| RobinHoodMap.Set.RehashOne | src/ck_rhs.c:538-615 | One slot of the old map |
| RobinHoodMap.Set.Grow | src/ck_rhs.c:538-615 | Growing keeps the entries and their number; restarts, capacities, failures and the end of the restarts are those of `Growth.dfy`, as for ck_hs |
| RobinHoodMap.Set.Attempt | src/ck_rhs.c:538-615 | One attempt: it fails without memory, or because the entries were more than the limit or the slots, and then changes nothing |
| RobinHoodMap.AnswerIsUnique | src/ck_rhs.c:538-615 | The answer of a get is determined by the entries, so it is the same before and after a grow |
| RobinHoodMap.Map.Get | src/ck_rhs.c:1461-1488 | Without a writer beside it, a get finds the entry of the key exactly if there is one |
| RobinHoodMap.Missing | src/ck_rhs.c:1461-1488 | A search without a match up to the bound or an empty slot has shown the key absent |
| Hazard.MemberScan | src/ck_hp.c:164-187 | The scan from the marker finds a pointer exactly if a record from there on holds it |
| Hazard.MemberCache | src/ck_hp.c:193-227 | The cache holds hazards only, and all those of the records before the marker; there is a marker only when the cache is full |
| Hazard.Sort | src/ck_hp.c:153-162 | The cache is sorted, with the same elements |
| Hazard.OrderKeeps | src/ck_hp.c:153-162 | Sorting keeps the elements, with their number, and orders them |
| Hazard.Search | src/ck_hp.c:256-261 | Binary search finds exactly the members |
| Hazard.Record.Match | src/ck_hp.c:254-275 | Cache and marker scan together decide exactly whether some record holds the pointer; NULL is never in the cache, so it matches only a free hazard slot from the marker on |
| Hazard.Record.Reclaim | src/ck_hp.c:229-291 | Exactly the pending entries whose pointers are hazards stay (a NULL pointer only if the full cache left a record with a free slot to scan), in order, the data of all others is destroyed, and n_pending is the length of the list |
| Hazard.Record.Scan | src/ck_hp.c:229-291 | The loop over the pending list, unlinking in place |
| Hazard.Record.Visit | src/ck_hp.c:229-291 | One round of the loop |
| Hazard.Record.Unlink | src/ck_hp.c:277-283 | Unlinking one entry leaves the others linked in order |
| Hazard.Record.Retire | src/ck_hp.c:293-309 | Retiring puts an entry in front, with its count and peak, whatever its pointer |
| HazardStackRuns.ReadsNothingFreed | include/ck_hp_stack.h:54-84 | A pop reads the next field of a node, and swings the head past it, only while the node is not destroyed |
| HazardStackRuns.PopInstallsSuccessor | include/ck_hp_stack.h:54-84 | Without any generation count, a successful pop installs the node that is below the top |
| HazardStackRuns.StepIsLifo | include/ck_hp_stack.h:54-84 | Each access is a step of a last-in first-out stack, and the answer is what it did |
| HazardStackRuns.CallTakesEffect | include/ck_hp_stack.h:54-84 | Every call does what was asked for, once, with its last access: a push has pushed its node, a pop takes the top or answers empty exactly if nothing is there, a reclaim leaves the stack alone |
| HazardStackRuns.AloneEnds | include/ck_hp_stack.h:54-84 | From every reachable state a push or a pop that runs alone is done after at most seven accesses |
| HazardStack.ValidateKeeps | include/ck_hp_stack.h:54-84 | A node that is the head again after it was published is guarded from then on |
| HazardStackRuns.DestroysNothingGuarded | src/ck_hp.c:229-291 | In every run, a node is never destroyed while a thread that found it to be the head after publishing it has not overwritten its hazard slot |
| HazardStackRuns.ReclaimDestroysTheRest | src/ck_hp.c:229-291 | When a reclaim is done, every entry that it was to go through has been destroyed by it or was found in a hazard slot by one of its loads |
| HazardStackRuns.ReclaimEnds | src/ck_hp.c:229-291 | A reclaim waits for nobody: in every run it is over after a number of accesses that the numbers of its entries and of the records fix from the start |
| HazardStack.Unguarded | src/ck_hp.c:229-291 | What neither the cache nor the new scan has shown to be a hazard is guarded by no record, although records change during the scan |
| HazardStack.NextInv | src/ck_hp.c:229-291 | Every access keeps the invariant in every interleaving, with nodes reused as soon as they are destroyed |
| Pflock.WriterExcludes | include/ck_pflock.h:84-108 | In every run, a writer in its critical section excludes every reader and every other writer |
| Pflock.Flushed | include/ck_pflock.h:84-108 | When as many readers have left as had arrived before the writer, none of those is inside, waiting or not |
| Pflock.OneWriterBetween | include/ck_pflock.h:119-140 | In every run, from the arrival of a reader and for as long as it waits, at most one writer enters |
| Pflock.EntriesAreCounted | include/ck_pflock.h:119-140 | The writers counted in that statement are those that have entered |
| Pflock.NextInv | include/ck_pflock.h:119-140 | Every access keeps the ticket and phase invariant in every interleaving |
| Pflock.CallIsGranted | include/ck_pflock.h:84-140 | A thread that is done with a lock call has been in the critical section that it asked for, since that call |
| Pflock.NeverStuck | include/ck_pflock.h:84-140 | At no point of any run do threads wait for each other in a circle: if one is in a call or holds the lock, the next access of some thread takes it further |
| Pflock.TicketsAreHeld | include/ck_pflock.h:84-140 | Every ticket whose turn is now or still to come is in the hands of a writer |
| Pflock.WrapAgrees | include/ck_pflock.h:70-108 | The comparisons on 32-bit words agree with those on unbounded ones while fewer than 2^24 readers are inside |
| Swlock.WriterExcludes | include/ck_swlock.h:108-118 | In every run, a held write lock or latch excludes all holders of the read lock and other writers |
| Swlock.FieldCounts | include/ck_swlock.h:152-194 | While not latched, the reader field counts the holders and the readers that still have to back out; while latched there are none |
| Swlock.UnlatchErasesNobody | include/ck_swlock.h:139-146 | The plain store of 0 erases no holder and no pending decrement |
| Swlock.DecrementsFind | include/ck_swlock.h:205-212 | Every decrement finds something to take away, and is never made under a latch |
| Swlock.FieldFits | include/ck_swlock.h:171-194 | The reader field never exceeds the number of threads, left-over increments under a latch included, so it stays clear of the two bits above it |
| Swlock.NextInv | include/ck_swlock.h:171-194 | Every access keeps the invariant in every interleaving |
| Swlock.CallIsGranted | include/ck_swlock.h:76-194 | A thread that is done with a call has held the lock since, in the way it asked for; only a try can end without, and only if at one of its accesses the lock was in its way |
| Swlock.NeverStuck | include/ck_swlock.h:76-194 | At no point of any run do threads wait for each other in a circle: if one is in a call or holds the lock, the next access of some thread takes it further |
| EventCount.NoWakeUpIsLost | src/ck_ec.c:233-284 | In every run, when a thread sleeps and no producer is between its addition and its wake, a 32-bit word is still the one it sleeps on, and what was added since it last saw that word is a multiple of 2^31, hence 0 if less than 2^31 was added |
| EventCount.SleepsThrough | src/ck_ec.c:233-284 | That bound is the exact one: a 64-bit run in which a thread sleeps with nobody about to wake it, and 2^31 was added since it last saw its word |
| EventCount.NoneIsLost | src/ck_ec.c:233-284 | Each access keeps every sleeper on the present word or a wake on its way |
| EventCount.FlagGuards | src/ck_ec.c:34-41 | As long as somebody sleeps without a wake on its way the flag is set, so the next producer will wake |
| EventCountCalls.AddTakesEffect | include/ck_ec.h:686-764 | When an addition returns, exactly one of its accesses has added its argument, and no other has changed the value; and no access of a wait ever does |
| EventCountCalls.NonzeroIsGivingUp | src/ck_ec.c:309-425 | A wait answers anything but 0 only if that very call gave up, at its deadline or by its predicate |
| EventCountCalls.ChangeIsNoticed | src/ck_ec.c:309-425 | Once the value is not the awaited one, a waiter that is awake, and not about to sleep on a word with the same low half, returns 0 after at most four more accesses, however its busy loops go |
| EventCount.ZeroMeans | src/ck_ec.c:309-375 | A wait that answers 0 has seen an instant at which the value differed, or some producer cleared the flag during the call |
| EventCount.ZeroMeansExactly | src/ck_ec.c:309-375 | From any state that a run can reach: every wait begun there that answers 0, with no addition of 0 begun meanwhile, has seen the value differ at an instant of the call, exactly if at the call no producer is about to clear a flag or to add 0 |
| EventCount.QuietMeansChange | src/ck_ec.c:309-375 | One direction: only a change of the value makes a producer clear the flag |
| EventCount.NoisyMeansNothing | src/ck_ec.c:309-375 | The other: with such a producer, some continuation answers 0 with the value unchanged throughout, for both widths |
| EventCount.ZeroWithoutChange | src/ck_ec.c:309-375 | A concrete run in which a wait answers 0 although the value was the awaited one throughout |
| EventCount.Adds | include/ck_ec.h:686-711 | Adding changes the value by the increment and nothing else that matters, in both encodings, across wrap-around |
| EventCount.Unpacks | include/ck_ec.h:686-711 | A word is its value and its flag |
| EventCount.MatchesMeans | include/ck_ec.h:835-856 | Comparing the low half of a 64-bit word compares the flag and the value modulo 2^31 |
| Backoff.EndsExactly | src/ck_ec.c:125-180 | The inner loop of the backoff ends exactly when the present time is long enough already or scaling makes it grow |
| Backoff.NextDeadline | src/ck_ec.c:125-180 | The loop takes the first scaled time that reaches past the present; if that time grows under the scaling, it leaves one that grows too or is the largest, with which it ends again |
| Backoff.NoBitsLost | src/ck_ec_timeutil.h:16-28 | For shift counts below 32 the product and the threshold fit 64 bits |
| Backoff.GrowsOn | src/ck_ec_timeutil.h:16-28 | A waiting time that grows once keeps growing, up to the largest word |

## Left out

- Weak memory and the per-architecture primitives: each is one atomic step here.
- Counter wrap-around after 2^32 stale operations, except where a `WrapAgrees` lemma or `EventCount` covers it.
- Fair scheduling: nothing is said about threads that never get to run. What is proved is that calls wait for nobody, or end if others stand still, or that some thread can always go on; loops of sequential code are proved to end.
- Fifo.StepIsFifo: the `try` variants and the single-producer single-consumer queue with `recycle` are not modelled.
- Stack.StepIsLifo: `batch_pop_mpmc_wf` is not modelled, because its generation and head stores are separate steps; nor are the variants for fewer consumers.
- Ring.AnswersAreRight: the single-producer and single-consumer paths and the size-reporting and reserve and commit calls are not modelled.
- EpochSteps.NextInv: `ck_epoch_call_strict`, `ck_epoch_observe`, `ck_epoch_pending`, `ck_epoch_dispatched` and the statistics counters are not modelled; sections with and without section objects are not mixed; unregistering is one step. The wait callback of synchronize does nothing. `ck_epoch_barrier` is not a call of its own: `EpochCalls.BarrierRunsNothingEarly` is what it adds to a synchronize.
- HashSet.Set.Gc: pointer packing, key offsets, seeds of the hash and `ck_hs_move` are not modelled; an allocation succeeds or fails by its number, whatever its size. Creating a set is taken to find memory.
- HashSetRoom.FullMeansMany: a shift of the hash by 64 or more, which C leaves undefined and which only a search beyond 512 positions can reach, is taken to give 0.
- HashSet.Set.Grow: entries that are not sure to fit may fit all the same; which of them do depends on their hashes and is not described.
- HashSetSpmc.ActKeeps: the writer's own loads are not steps, since no other thread stores to what it reads; a map replaced by a grow is not reused while a reader holds it, which is the user's reclamation scheme; iterators are not modelled.
- Barrier.SafeExactly: subscribing is left out, threads are numbered from the start.
- RobinHoodMap.Set.Grow: the `wanted` counters, put, delete with backward shift and concurrent gets of `ck_rhs` are not modelled.
- Hazard.Record.Reclaim: `qsort` and `bsearch` are stood for by an insertion sort and a binary search; statistics and `ck_hp_purge` are left out.
- HazardStack.NextInv: one hazard slot for each record, which is what the stack uses; a record that registers later counts as a free record from the start; `trypop` is left out. Unregistering keeps the pending entries pending.
- Swlock.NextInv: writers take turns outside the lock, as a single-writer lock demands; a latch is released by an unlatch, never by the plain unlock; lock elision is left out.
- EventCount.NextInv: the single-producer mode, which the code itself calls heuristic in part, predicates beyond ending a wait, and clocks are left out; a deadline is a step that may come at any time.
- Backoff.NextDeadline: shift counts are below 32, as include/ck_ec.h:96-99 has it, and nothing is clamped to the end of time.
- `ck_ht`, `ck_array`, `ck_bitmap`, `ck_queue`, the other barriers and locks and the cohort locks: either close to what is here or easy next to it.

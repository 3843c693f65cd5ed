# A verified model of the queues

This project models three queues in Dafny and proves what they promise.

1. **The bounded MPMC queue of `src/lib.rs`.** Any number of threads run `push`, `force_push`, `pop`,
   `len`, `is_empty` and `is_full`, one shared access per step, in any interleaving, with any spurious
   compare-exchange failures. `Words` is the machine with w-bit words, masks and wrapping arithmetic;
   `Tickets` is the same machine on ticket numbers; `Encoding` shows that they run in lockstep;
   `TicketInvariant` and `TicketSteps` hold the step invariant; `Fifo` is the independent
   specification, a bounded FIFO as an atomic object. On top of that stand linearizability (`Runs`),
   memory safety (`Safety`), conservation up to `Drop` (`Conservation`), the two scenarios of
   heapless issue 583 (`Issue583`), what the observers tell (`Observers`), progress of a lone thread
   (`Progress`) and the delivery of replies (`Answers`). `SequentialQueue` is the class with its arrays and loops, one call at a time, for
   counters that wrap any number of times (`WrappedWords`).
2. **The SCQ ring and the two-ring queue of `third-party/lfqueue/src/scq.rs`.** `ScqRing` is the
   machine of the index ring on records (cycle and slot taken together as a turn, safe bit, index),
   `ScqInvariant` and `ScqSteps` its invariant, `ScqRuns` its theorems. `PackedEntries` proves the bit
   arithmetic on packed words, `ScqWords` is the machine on w-bit words, and `ScqEncoding` shows that it
   runs in lockstep with the records. `ScqAnswers` gives the reasons for what the ring answers, and
   `ScqLone` shows that its machine gives a lone caller exactly the answers of a FIFO of indices.
   `TwoRings` is the bounded queue made of two such rings, with ownership, payloads and the `used`
   counter proved in `TwoRingInvariant`, `TwoRingSteps` and `TwoRingRuns`, the reasons for its refusals
   in `TwoRingAnswers`, and its exact answers to a lone caller in `TwoRingLone`. `IndexRing` and
   `BoundedQueue` are the classes, one call at a time.
3. **The segment list of `third-party/lfqueue/src/lfstd.rs`**, one call at a time: `SegmentList`, a
   linked list of finalizable bounded queues that is an unbounded FIFO.

A run is a schedule: a sequence of turns that names the thread and what it may do. Every schedule is a
run, so a lemma over all schedules speaks about all interleavings. Every atomic access is one
sequentially consistent step. Payloads are values of an opaque type with equality.

`dafny verify dfyconfig.toml` checks the whole project.

Where the code and its comments disagree, the model follows the code. The comments at
`src/lib.rs:353` and `src/lib.rs:439` give the mask as the reason for `index < N`; the mask only gives
an index below `one_lap`, and `Safety.MemorySafe` proves the rest from the invariant. The comment at
`third-party/lfqueue/src/scq.rs:250` calls the xor with `n - 1` a modulo; `PackedEntries.InsertIs`
proves what it is, one half of a xor that writes the index itself.

## Model

| member | source | states |
|---|---|---|
| `Runs.Linearizable` | src/lib.rs:336-479 | In every run of any number of threads, the invocations and replies are those of an atomic FIFO of capacity N: push Ok at the tail CAS, push Err at the head load, pop Some at the head CAS, pop None at the tail load, an overwriting force_push at its head CAS as one remove-and-append |
| `Linearization.StepRefines` | src/lib.rs:343-479 | Every step of the ticket machine is a commit of the atomic FIFO at its linearization point, or leaves the FIFO alone, with the same visible label |
| `TicketSteps.StepInv` | src/lib.rs:343-479 | Every step of every thread keeps the global invariant on counters, stamps, cells, owners and stale locals |
| `TicketInvariant.InitInv` | src/lib.rs:285-304 | The new queue satisfies the invariant |
| `TicketSteps.ClaimFindsFreeSlot` | src/lib.rs:357-367 | A successful tail CAS finds an empty cell that no other thread holds |
| `TicketSteps.ClaimFindsValue` | src/lib.rs:443-459 | A successful head CAS finds the value of exactly its own ticket |
| `TicketSteps.ClaimOverwrite` | src/lib.rs:408-422 | The head CAS of force_push keeps the invariant while `tail` still lags behind it |
| `TicketSteps.SlotOwnership` | src/lib.rs:364-369 | Two threads between claim and stamp store own different slots |
| `TicketSteps.SwapValue` | src/lib.rs:418-421 | The replacing thread of force_push finds the initialised oldest value and puts its own in its place |
| `Encoding.Lockstep` | src/lib.rs:343-522 | One step of the machine on words is the encoding of the same step on tickets, with the same label, as long as the word has room |
| `Encoding.Position` | src/lib.rs:344-351 | On the word of ticket p, masking gives p mod N, and the next position is the word of ticket p + 1 |
| `Runs.RunLockstep` | src/lib.rs:343-522 | The words of a whole run are the encodings of the tickets of the same run |
| `Runs.TraceIsLabels` | src/lib.rs:336-522 | A run on words shows exactly what the same run on tickets shows |
| `Runs.RunRefines` | src/lib.rs:336-522 | What a run of the ticket machine shows is a behaviour of the atomic FIFO along the abstract states |
| `Runs.RunIsBehaviour` | src/lib.rs:285-522 | What a run of the words from a new queue shows is a behaviour of the atomic FIFO |
| `Laps.OneLapFor` | src/lib.rs:129-136 | The loop returns the least power of two above the capacity |
| `Laps.EncInjective` | src/lib.rs:347-351 | Different tickets have different words |
| `Laps.StampTests` | src/lib.rs:357-375 | The free, published and one-lap-behind tests on words decide the same questions on tickets |
| `Safety.MemorySafe` | src/lib.rs:343-355 | In every run every unchecked access has an index below N, however stale the word, no cell is read uninitialised and no value is overwritten by a plain write |
| `Safety.SlotsExclusive` | src/lib.rs:157-182 | In every run at most one thread is between claim and stamp store on a slot, a force_push between its head CAS and its stamp store included |
| `Safety.CountersAdvance` | src/lib.rs:358-421 | In every run each step moves head, tail and every stamp forward or not at all, and head <= tail <= head + one_lap |
| `Safety.CountersAreTickets` | src/lib.rs:343-375 | In every run head, tail and all stamps encode tickets, stamps those of their own slot, and head <= tail <= head + N in tickets |
| `Conservation.Conserved` | src/lib.rs:407-557 | From an empty queue to Drop, every value is accepted exactly as often as it is popped, displaced or dropped |
| `Conservation.DropFindsContents` | src/lib.rs:530-555 | At rest, the wrapped index walk of Drop visits exactly the live tickets, in FIFO order, each with its initialised value |
| `Conservation.RunBalanced` | src/lib.rs:336-479 | In every behaviour of the atomic FIFO, accepted values are returned, stored or owed, each counted once |
| `Conservation.CountIsDistance` | src/lib.rs:508-519 | The length computed from the two masked indices is tail - head in tickets |
| `Issue583.RefillNeverRefused` | tests/repro583.rs:28-48 | From a full queue at rest, however it got there, any number of threads that pop before they push never see a push refused |
| `Issue583.HandOffNeverFails` | tests/repro583.rs:52-71 | On an empty queue, at most N threads that push and then pop never see a push refused or a pop empty |
| `Observers.AnswersJustified` | src/lib.rs:488-522 | Every answer of len, is_empty or is_full, true or false, agrees with the ticket count tail - head at some instant inside the call; len is at most N |
| `Observers.ShownLength` | src/lib.rs:412-418 | tail - head in tickets is the length of the abstract queue if and only if no force_push is between its head CAS and its tail store; otherwise it is one less |
| `Observers.ShownIsLength` | src/lib.rs:488-522 | In runs without force_push the ticket count is the length of the abstract queue at every instant, and at most N |
| `Observers.OverwriteLooksEmpty` | src/lib.rs:412-418 | A run of two threads on capacity 1 in which is_empty answers true although the abstract queue holds a value at every instant of the call |
| `Progress.SoloCompletes` | src/lib.rs:343-384 | In every reachable state where no other thread holds a slot, a thread that runs alone has its result within eight steps, stale local index or not |
| `Answers.SoloReturns` | src/lib.rs:343-479 | In every reachable state where no other thread holds a slot, a thread that runs alone shows the reply to the call it invoked last within nine steps and is at rest again |
| `Answers.StartInvokes` | src/lib.rs:388-431 | A call started at rest shows its invocation, and it is the call under way |
| `Answers.InLastCall` | src/lib.rs:336-522 | In every run a thread that is not at rest is in the call that it invoked last |
| `Progress.LoneStep` | src/lib.rs:343-478 | Each step of the lone thread makes the bound on the steps left smaller |
| `Progress.OvertakenCas` | src/lib.rs:370-373 | A compare-exchange that fails without being spurious finds the counter strictly past the ticket the thread had loaded |
| `SequentialQueue.Queue.constructor` | src/lib.rs:285-304 | A new queue of capacity N with w-bit counters is empty |
| `SequentialQueue.Queue.PositionOf` | src/lib.rs:344-367 | On the wrapped word of ticket p the mask gives p mod N, below N, the next position is the word of ticket p + 1, and the plain `+ 1` never overflows |
| `SequentialQueue.Queue.PushOrElse` | src/lib.rs:336-385 | One caller: a queue that is not full takes the value at the end; a full one runs the closure: refusal, or the oldest value out and the new one in |
| `SequentialQueue.Queue.Push` | src/lib.rs:388-397 | Ok and appended exactly when the queue is not full; otherwise the value comes back and nothing changes, past any number of counter overflows |
| `SequentialQueue.Queue.ForcePush` | src/lib.rs:407-428 | Appends; on a full queue the oldest value comes out |
| `SequentialQueue.Queue.Pop` | src/lib.rs:431-479 | The oldest value, or None exactly when empty |
| `SequentialQueue.Queue.IsEmpty` | src/lib.rs:488-492 | True exactly when the contents are empty |
| `SequentialQueue.Queue.IsFull` | src/lib.rs:495-499 | True exactly when N values are stored |
| `SequentialQueue.Queue.Len` | src/lib.rs:502-522 | The number of values stored |
| `SequentialQueue.Queue.Drop` | src/lib.rs:525-557 | Drops exactly the contents, in order, and leaves every cell empty |
| `SequentialQueue.LayoutPush` | src/lib.rs:364-369 | Writing the value and then the stamp of the next ticket lays out the contents with the value appended |
| `SequentialQueue.LayoutPop` | src/lib.rs:456-459 | Taking the first value and restamping its slot for the next lap lays out the rest |
| `SequentialQueue.LayoutForce` | src/lib.rs:408-422 | Overwriting the oldest slot lays out the rest with the value appended |
| `SequentialQueue.TailTests` | src/lib.rs:357-375 | Modulo 2^W the tests of push tell a free slot from a full queue, for every ticket |
| `SequentialQueue.HeadTests` | src/lib.rs:443-466 | Modulo 2^W the tests of pop tell a published value from an empty queue, for every ticket |
| `WrappedWords.WordNext` | src/lib.rs:347-351 | The next position of a wrapped word is the wrapped word of the next ticket, by `+ 1` inside a lap and by a wrapping lap addition at its end |
| `WrappedWords.WordsDiffer` | src/lib.rs:391-391 | Different tickets at most a lap apart keep different words modulo 2^W |
| `ScqSteps.StepInv` | third-party/lfqueue/src/scq.rs:254-405 | Every step of every thread, and finalization at any moment, keeps the invariant of the SCQ ring |
| `ScqSteps.PlaceStep` | third-party/lfqueue/src/scq.rs:282-289 | A successful insertion fills a slot whose ticket was neither filled nor given up, and overwrites no live index |
| `ScqSteps.LeaveStep` | third-party/lfqueue/src/scq.rs:360-382 | A dequeuer that leaves empty-handed leaves a ticket that was not placed, in a slot that is past it or unsafe |
| `ScqSteps.TakeStep` | third-party/lfqueue/src/scq.rs:354-358 | The index taken is the live one placed at the same ticket, below 2^order |
| `ScqSteps.EnqTestOk` | third-party/lfqueue/src/scq.rs:265-279 | The safe bit or the `head <= tail` re-check shows that every ticket given up on the slot lies before the enqueuer's |
| `ScqRuns.GivenUpOrPlaced` | third-party/lfqueue/src/scq.rs:254-390 | In every run, once the dequeuer of a ticket has left empty-handed nothing is ever placed there, and a placed ticket is never left |
| `ScqRuns.NoIndexLost` | third-party/lfqueue/src/scq.rs:254-390 | In every run a placed index was handed out or lies in its slot, and if its turn has come a thread is at work on exactly its ticket |
| `ScqRuns.ExactlyOnce` | third-party/lfqueue/src/scq.rs:342-358 | In every run a dequeued index is the one placed at the same ticket, is below 2^order, and no ticket is served twice |
| `ScqRuns.TicketOrder` | third-party/lfqueue/src/scq.rs:313-325 | In every run, once a later ticket was served an earlier placed index was handed out or is just being fetched, although catchup skips tickets |
| `ScqRuns.LaterCallsLaterTickets` | third-party/lfqueue/src/scq.rs:256-342 | A call that starts after another one has its result is served at a later ticket |
| `ScqRuns.RunInside` | third-party/lfqueue/src/scq.rs:254-405 | A step inside a call places the carried index, takes the index of its own ticket, or changes neither; entries and counters only move forward |
| `ScqAnswers.FinalizedRefuses` | third-party/lfqueue/src/scq.rs:273-279 | In every run an enqueue that starts on a finalized ring is refused, as too large or as finalized, and no step of its thread places an index |
| `ScqAnswers.SealFinalizes` | third-party/lfqueue/src/scq.rs:226-235 | Sealing a finalizable ring leaves it finalized for the rest of the run |
| `ScqAnswers.NothingHasReason` | third-party/lfqueue/src/scq.rs:332-402 | In every run a dequeue that comes back with nothing has an instant inside its own call at which the threshold was used up, or at which it had given up a ticket with none drawn after it, everything placed was handed out or being fetched, and catchup has moved the tail past that ticket since |
| `ScqAnswers.StoredRaisedThreshold` | third-party/lfqueue/src/scq.rs:291-298 | In every run an enqueue that reports success has an instant, after placing its index, at which the threshold was 3 * 2^order - 1 |
| `ScqLone.LoneEnqueue` | third-party/lfqueue/src/scq.rs:238-306 | On the machine, a lone enqueue on a ring at rest is refused exactly when its index is out of range or the ring is finalized, and otherwise appends, sets the threshold and returns |
| `ScqLone.LoneDequeue` | third-party/lfqueue/src/scq.rs:327-406 | On the machine, a lone dequeue on a ring at rest returns the oldest index with its ticket, or nothing exactly when the ring is empty, with one threshold decrement for every ticket given up |
| `ScqLone.NewRingsSit` | third-party/lfqueue/src/scq.rs:155-179 | New rings are at rest, empty or with all indices in order |
| `ScqLone.LoneTry` | third-party/lfqueue/src/scq.rs:260-302 | In any state, an enqueuer alone fills its slot exactly when it is empty, of an earlier cycle, and safe or not behind the head, is refused on a finalized ring, and otherwise draws the next ticket |
| `ScqLone.LoneLook` | third-party/lfqueue/src/scq.rs:347-389 | In any state, a dequeuer alone takes the index of its own cycle; otherwise it marks an earlier index unsafe, advances an earlier empty entry keeping its safe bit, or leaves a later entry alone |
| `ScqLone.LateExchange` | third-party/lfqueue/src/scq.rs:282-378 | A compare-exchange that comes too late leads back to the same slot and ticket |
| `PackedEntries.ModUpIs` | third-party/lfqueue/src/scq.rs:102-104 | modup on a packed entry keeps its cycle and is its safe and empty form, for every order and word width |
| `PackedEntries.CycleIs` | third-party/lfqueue/src/scq.rs:257-257 | modup of a doubled ticket is the packed safe and empty entry of the ticket's cycle |
| `PackedEntries.InsertIs` | third-party/lfqueue/src/scq.rs:251-283 | The two xors write the safe entry of the ticket's cycle with the index itself |
| `PackedEntries.ConsumeIs` | third-party/lfqueue/src/scq.rs:356-357 | Or-ing in n - 1 empties the entry and keeps cycle and safe bit; masking with n - 1 reads the index |
| `PackedEntries.MarkUnsafeIs` | third-party/lfqueue/src/scq.rs:361-361 | Masking with !n clears the safe bit and nothing else |
| `PackedEntries.AdvanceIs` | third-party/lfqueue/src/scq.rs:372-372 | The xor of the head cycle with !entry & n is the empty entry of the head's cycle, as safe as before |
| `PackedEntries.PackInjective` | third-party/lfqueue/src/scq.rs:267-283 | Words are equal exactly when cycle, safe bit and index are |
| `PackedEntries.OrderIs` | third-party/lfqueue/src/scq.rs:111-113 | The signed comparison orders numbers less than half the word range apart |
| `PackedEntries.CycleOrder` | third-party/lfqueue/src/scq.rs:263-265 | Comparing modup words compares cycles, -1 included |
| `ScqEncoding.TestsAre` | third-party/lfqueue/src/scq.rs:265-360 | The tests on words decide earlier turn, own turn, safe and empty, unsafe and empty, occupied |
| `ScqEncoding.StepLockstep` | third-party/lfqueue/src/scq.rs:238-405 | One step of the ring on words is the packing of the same step on records |
| `ScqEncoding.WordsFollowRecords` | third-party/lfqueue/src/scq.rs:238-405 | The words of a whole run are the packed records of the same run |
| `ScqEncoding.MinusOneIs` | third-party/lfqueue/src/scq.rs:156-156 | -1 is the entry of cycle -1, safe and empty, in every slot |
| `ScqEncoding.NewRingsPacked` | third-party/lfqueue/src/scq.rs:132-179 | The arrays of new empty and new full rings are the packed records of the model's rings |
| `ScqEncoding.NewRingsRun` | third-party/lfqueue/src/scq.rs:132-405 | From new rings on, every run on words is the packed run on records until a counter uses the top quarter of the word |
| `TwoRingSteps.StepOwned` | third-party/lfqueue/src/scq.rs:699-766 | Every step of every thread keeps the assignment of indices, payloads and values to their places |
| `TwoRingRuns.EveryIndexHasOnePlace` | third-party/lfqueue/src/scq.rs:699-766 | In every run each index is in exactly one of the free ring, the allocated ring and one thread's hands, and its payload is initialised exactly when it should be |
| `TwoRingRuns.NothingBreaks` | third-party/lfqueue/src/scq.rs:713-764 | In every run no payload is read uninitialised, written over or reached out of bounds, the free ring never refuses a returned index, roll-back included, and the allocated ring refuses only when finalized |
| `TwoRingRuns.UsedCounts` | third-party/lfqueue/src/scq.rs:701-756 | In every run `used` is the items in the allocated ring plus the enqueuers between increment and publication or roll-back plus the dequeuers with an index before their decrement; it never underflows |
| `TwoRingRuns.ValuesDelivered` | third-party/lfqueue/src/scq.rs:713-765 | In every run a published value is still in the allocated ring, is about to be read by the thread served its ticket, or was read back unchanged |
| `TwoRingRuns.FetchedOnce` | third-party/lfqueue/src/scq.rs:752-765 | In every run no two reads get the value of the same ticket |
| `TwoRingRuns.DeliveredInOrder` | third-party/lfqueue/src/scq.rs:752-765 | In every run, once a later value was read an earlier one was read or its dequeuer is at work on it |
| `TwoRingRuns.ReportsTrue` | third-party/lfqueue/src/scq.rs:699-766 | In every run a stored item is published at its ticket, a refused item is the argument itself, a refusal as finalized means that the queue is finalized, and a dequeued value is the one published at its ticket |
| `TwoRingAnswers.FullHasReason` | third-party/lfqueue/src/scq.rs:701-711 | In every run an enqueue refused as full has an instant inside its call at which `used` was 2^order or more when it counted itself in, or at which the free ring had answered it that there is nothing |
| `TwoRingAnswers.NoneFreeHasReason` | third-party/lfqueue/src/scq.rs:708-711 | In every run that answer of the free ring has its reason inside the call: its threshold was used up, or it was drained |
| `TwoRingAnswers.EmptyHasReason` | third-party/lfqueue/src/scq.rs:749-752 | In every run a dequeue that comes back empty has an instant inside its call at which the threshold of the allocated ring was used up, or at which it had given up a ticket with none drawn after it and everything published was handed out or being fetched |
| `TwoRingLone.LoneEnqueue` | third-party/lfqueue/src/scq.rs:699-738 | On the machine, a lone enqueue on a queue at rest is refused as full exactly when 2^order values are stored, as finalized exactly when it is finalized and not full, and otherwise appends; with FINALIZE the item that fills the queue finalizes it; the call returns |
| `TwoRingLone.LoneDequeue` | third-party/lfqueue/src/scq.rs:749-766 | On the machine, a lone dequeue on a queue at rest returns the oldest value, or Empty exactly when there is none |
| `TwoRingLone.NewAtRest` | third-party/lfqueue/src/lfstd.rs:96-108 | The new queue is at rest, with all indices free and no value stored |
| `IndexRing.InitializeFull` | third-party/lfqueue/src/scq.rs:132-151 | The two loops build the array of a full ring |
| `IndexRing.FullEqualsFilled` | third-party/lfqueue/src/lfstd.rs:1027-1043 | A ring initialised full equals, field by field and entry by entry, an empty ring after enqueueing 0 to 2^order - 1 |
| `IndexRing.Indices.Empty` | third-party/lfqueue/src/lfstd.rs:67-75 | A new empty ring holds nothing |
| `IndexRing.Indices.Full` | third-party/lfqueue/src/lfstd.rs:50-64 | A new full ring holds all indices in order |
| `IndexRing.Indices.Enqueue` | third-party/lfqueue/src/scq.rs:238-306 | One caller: the index is appended at the next ticket; an index out of range and a finalized ring are refused, the latter leaving one ticket unfilled; the loop ends |
| `IndexRing.Indices.Dequeue` | third-party/lfqueue/src/scq.rs:327-406 | One caller: the oldest index, or None exactly when the ring is empty; a negative threshold means empty, and both loops end |
| `IndexRing.LaidPut` | third-party/lfqueue/src/scq.rs:282-283 | Placing at the next ticket lays out the contents with the index appended |
| `IndexRing.LaidTake` | third-party/lfqueue/src/scq.rs:354-358 | The head's entry holds the first index, and consuming it lays out the rest |
| `IndexRing.LaidSkip` | third-party/lfqueue/src/scq.rs:366-382 | On an empty ring the head's entry is empty and of an earlier turn, and advancing it leaves the ring empty |
| `BoundedQueue.Bounded.constructor` | third-party/lfqueue/src/lfstd.rs:96-108 | A new bounded queue is empty and all its objects are fresh |
| `BoundedQueue.Bounded.EnqueueCycle` | third-party/lfqueue/src/scq.rs:699-738 | One caller: QueueFull exactly when full, QueueFinalized exactly when finalized and not full, otherwise appended; with FINALIZE the item that fills the queue finalizes it; a finalized refusal uses one ticket |
| `BoundedQueue.Bounded.Publish` | third-party/lfqueue/src/scq.rs:714-727 | The slot is written and published, or the item is read back and its index returned to the free ring |
| `BoundedQueue.Bounded.Enqueue` | third-party/lfqueue/src/scq.rs:671-681 | The same without finalization |
| `BoundedQueue.Bounded.Dequeue` | third-party/lfqueue/src/scq.rs:749-766 | The oldest value, or None exactly when empty; returning the index never fails |
| `BoundedQueue.Bounded.ResetThreshold` | third-party/lfqueue/src/lfstd.rs:298-302 | The store of 3n - 1 keeps the queue valid and its contents |
| `BoundedQueue.Bounded.Drop` | third-party/lfqueue/src/scq.rs:784-789 | Drops exactly the contents, in order, and leaves no initialised slot |
| `BoundedQueue.KeptPut` | third-party/lfqueue/src/scq.rs:708-716 | Moving the first free index to the allocated ones keeps the split and appends the value |
| `BoundedQueue.KeptTake` | third-party/lfqueue/src/scq.rs:752-762 | Moving the first allocated index back keeps the split and removes the first value |
| `SegmentList.Unbounded.constructor` | third-party/lfqueue/src/lfstd.rs:165-183 | A new segment list is an empty queue |
| `SegmentList.Unbounded.Enqueue` | third-party/lfqueue/src/lfstd.rs:185-273 | One caller: every value is appended, through finalization and new segments |
| `SegmentList.Unbounded.Append` | third-party/lfqueue/src/lfstd.rs:223-251 | A new segment with one value is linked behind the last one and becomes the tail |
| `SegmentList.Unbounded.Dequeue` | third-party/lfqueue/src/lfstd.rs:276-332 | One caller: the oldest value, or None exactly when no segment holds any |
| `SegmentList.Unbounded.Retire` | third-party/lfqueue/src/lfstd.rs:297-330 | A drained segment with a successor is retried in vain and left behind, and the contents stay the same |
| `SegmentList.Unbounded.Drop` | third-party/lfqueue/src/lfstd.rs:335-351 | All segments are walked and exactly the contents are dropped, in order |
| `SegmentList.ChainCut` | third-party/lfqueue/src/lfstd.rs:131-134 | A chain of linked segments is two chains that share nothing |
| `SegmentList.ChainJoin` | third-party/lfqueue/src/lfstd.rs:232-240 | Two chains that share nothing, the first linked to the second, are one |

## Left out

- Weak memory orderings and fences: every atomic access is one sequentially consistent step.
- `Backoff`, `Padded`, the loom shim, `yield_marker`, `Send` and `Sync`: they have no effect on results.
- Counter wrap-around in the concurrent machines: the runs on words end before a counter uses up its word (`Encoding.Room`, `ScqEncoding.Room`); wrap-around of the first queue is proved for one caller at a time, with no bound on the calls.
- Unconditional lock-freedom of the first queue: a stalled slot holder blocks others, so progress is proved for a thread that runs while nobody else holds a slot.
- `is_empty` and `is_full` against the abstract queue while a force_push is between its head CAS and its tail store: `Observers.OverwriteLooksEmpty` shows that they fail there; the results are stated for runs without force_push.
- Concurrent exactness of "full" and "empty" in the two-ring queue: the `used` guard can refuse transiently and None can come from the threshold, so safety, order, conservation and a reason inside the call for every refusal are proved there, and exact refusals for one caller at a time, on the classes and on the machines.
- Concurrent behaviour of the segment list and hazard-pointer reclamation: the `haphazard` crate is not part of this model; retired segments are simply left behind.
- The word width of `threshold`, `used` and the segment classes: they are unbounded integers, and the classes of the ring hold records instead of packed words, which `PackedEntries` and `ScqEncoding` relate.
- Spurious compare-exchange failures in the classes of the ring, the bounded queue and the segment list: with one caller the code would retry; the concurrent machines have them.
- `IndexRing.Indices.Enqueue`: requires an array that is not full of indices, because on a full array the code looks for an empty slot for ever; the bounded queue never gets there.
- Sizes that are not powers of two: the documentation requires powers of two, and `determine_order` with its panics is not modelled.
- `third-party/lfqueue/src/single.rs` and `CountedUnboundedQueue`: a four-state hand-off and a counter wrapper, which would only add easy members.
- Benchmarks, fuzzing, `Display`, `Debug` and `Error` implementations and handle wrappers: plumbing.

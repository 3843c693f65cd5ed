/** The bounded queue of third-party/lfqueue/src/scq.rs as a machine: a ring of free indices, a ring
    of allocated indices, a backing array and the `used` counter, shared by any number of threads.
    A call inside one of the rings advances by that ring's own steps.

    Auxiliary: an enqueue remembers its argument, a dequeue the ticket it was served at; `sent` maps
    tickets of the allocated ring to the values published at them, and `fetched` to the values that
    were read back. */
module TwoRings {
  import opened Options
  import R = ScqRing
  import Fifo

  type Ring = R.Ring
  type Value = Fifo.Value

  datatype Call = Enqueue(v: Value, finalize: bool) | Dequeue

  datatype Outcome = Stored(ticket: nat) | Refused(v: Value, finalized: bool) | Fetched(v: Value, ticket: nat) | Empty

  datatype Fault = OutOfBounds | Uninitialised | RingRefused

  datatype Pc =
    | Idle
    | EnqCount(call: Call)                                // used.fetch_add
    | EnqFull(call: Call)                                 // used.fetch_sub, then refuse
    | EnqPick(call: Call, size: int)                      // free_queue.dequeue
    | EnqWrite(call: Call, size: int, pos: nat)           // write the payload
    | EnqShare(call: Call, size: int, pos: nat)           // alloc_queue.enqueue
    | EnqUncount(call: Call, pos: nat)                    // finalized: used.fetch_sub
    | EnqReread(call: Call, pos: nat)                     // finalized: read the payload back
    | EnqReturn(call: Call, v: Value, pos: nat)           // finalized: free_queue.enqueue
    | EnqSeal(call: Call, t: nat)                         // alloc_queue.finalize
    | DeqFetch                                            // alloc_queue.dequeue
    | DeqCount(pos: nat, t: nat)                          // used.fetch_sub
    | DeqRead(pos: nat, t: nat)                           // read the payload
    | DeqReturn(v: Value, pos: nat, t: nat)               // free_queue.enqueue
    | Done(call: Call, out: Outcome)
    | Broken(fault: Fault)

  datatype Queue = Queue(
    free: Ring,
    alloc: Ring,
    used: int,
    backing: seq<Option<Value>>,
    sent: map<nat, Value>,
    fetched: map<nat, Value>,
    threads: seq<Pc>)

  datatype Action = Start(call: Call) | Run(spurious: bool)

  function New(half: nat, finalizable: bool, threads: nat): Queue {
    Queue(R.FullRing(half, finalizable, threads), R.EmptyRing(half, finalizable, threads), 0,
          seq(2 * half, i => None), map[], map[], seq(threads, i => Idle))
  }

  predicate Shaped(q: Queue) {
    && q.free.half > 0 && |q.free.entries| == R.Size(q.free) && q.alloc.half > 0 && |q.alloc.entries| == R.Size(q.alloc)
    && |q.free.threads| == |q.threads| && |q.alloc.threads| == |q.threads|
  }

  function Goto(q: Queue, tid: nat, pc: Pc): Queue
    requires tid < |q.threads|
  {
    q.(threads := q.threads[tid := pc])
  }

  /** Enter a ring, advance in it, or leave it with its reply. */
  function FreeStep(q: Queue, tid: nat, act: R.Action): Queue
    requires Shaped(q)
  {
    q.(free := R.Step(q.free, tid, act))
  }

  function AllocStep(q: Queue, tid: nat, act: R.Action): Queue
    requires Shaped(q)
  {
    q.(alloc := R.Step(q.alloc, tid, act))
  }

  /** The step that fills a slot of the allocated ring publishes the payload. */
  function Published(q: Queue, tid: nat, spurious: bool, pos: nat): map<nat, Value>
    requires Shaped(q) && tid < |q.threads|
  {
    var pc, pc' := q.alloc.threads[tid], R.Step(q.alloc, tid, R.Run(spurious)).threads;
    if pc.EnqCas? && tid < |pc'| && pc'[tid].EnqThreshold? && pos < |q.backing| && q.backing[pos].Some? then
      q.sent[pc.t := q.backing[pos].value]
    else q.sent
  }

  function StepEnqueue(q: Queue, tid: nat, spurious: bool): Queue
    requires Shaped(q) && tid < |q.threads|
  {
    match q.threads[tid]
    case EnqCount(c) =>
      if q.used >= q.free.half then Goto(q.(used := q.used + 1), tid, EnqFull(c))
      else Goto(FreeStep(q.(used := q.used + 1), tid, R.Start(R.Dequeue)), tid, EnqPick(c, q.used))
    case EnqFull(c) =>
      if c.Enqueue? then Goto(q.(used := q.used - 1), tid, Done(c, Refused(c.v, false))) else q
    case EnqPick(c, size) =>
      if !q.free.threads[tid].Reply? then FreeStep(q, tid, R.Run(spurious))
      else
        var res := q.free.threads[tid].res;
        Goto(FreeStep(q, tid, R.Run(false)), tid, if res.Got? then EnqWrite(c, size, res.index) else EnqFull(c))
    case EnqWrite(c, size, pos) =>
      if pos >= |q.backing| || !c.Enqueue? then Goto(q, tid, Broken(OutOfBounds))
      else Goto(AllocStep(q.(backing := q.backing[pos := Some(c.v)]), tid, R.Start(R.Enqueue(pos))), tid, EnqShare(c, size, pos))
    case EnqShare(c, size, pos) =>
      if !q.alloc.threads[tid].Reply? then
        AllocStep(q, tid, R.Run(spurious)).(sent := Published(q, tid, spurious, pos))
      else
        var res := q.alloc.threads[tid].res;
        Goto(AllocStep(q, tid, R.Run(false)), tid,
             if !res.Enqueued? then EnqUncount(c, pos)
             else if c.Enqueue? && c.finalize && size + 1 >= q.free.half then EnqSeal(c, res.ticket)
             else Done(c, Stored(res.ticket)))
    case EnqSeal(c, t) => Goto(AllocStep(q, tid, R.Seal), tid, Done(c, Stored(t)))
    case _ => q
  }

  /** A refused enqueuer reads its item back and starts to return the index. */
  function StepReread(q: Queue, tid: nat, c: Call, pos: nat): Queue
    requires Shaped(q) && tid < |q.threads|
  {
    if pos >= |q.backing| then Goto(q, tid, Broken(OutOfBounds))
    else if q.backing[pos].None? then Goto(q, tid, Broken(Uninitialised))
    else
      Goto(FreeStep(q.(backing := q.backing[pos := None]), tid, R.Start(R.Enqueue(pos))), tid,
           EnqReturn(c, q.backing[pos].value, pos))
  }

  function StepRollBack(q: Queue, tid: nat, spurious: bool): Queue
    requires Shaped(q) && tid < |q.threads|
  {
    match q.threads[tid]
    case EnqUncount(c, pos) => Goto(q.(used := q.used - 1), tid, EnqReread(c, pos))
    case EnqReread(c, pos) => StepReread(q, tid, c, pos)
    case EnqReturn(c, v, pos) =>
      if !q.free.threads[tid].Reply? then FreeStep(q, tid, R.Run(spurious))
      else
        Goto(FreeStep(q, tid, R.Run(false)), tid,
             if q.free.threads[tid].res.Enqueued? then Done(c, Refused(v, true)) else Broken(RingRefused))
    case _ => q
  }

  /** A dequeuer reads its value and starts to return the index. */
  function StepRead(q: Queue, tid: nat, pos: nat, t: nat): Queue
    requires Shaped(q) && tid < |q.threads|
  {
    if pos >= |q.backing| then Goto(q, tid, Broken(OutOfBounds))
    else if q.backing[pos].None? then Goto(q, tid, Broken(Uninitialised))
    else
      var v := q.backing[pos].value;
      Goto(FreeStep(q.(backing := q.backing[pos := None], fetched := q.fetched[t := v]), tid, R.Start(R.Enqueue(pos))),
           tid, DeqReturn(v, pos, t))
  }

  function StepDequeue(q: Queue, tid: nat, spurious: bool): Queue
    requires Shaped(q) && tid < |q.threads|
  {
    match q.threads[tid]
    case DeqFetch =>
      if !q.alloc.threads[tid].Reply? then AllocStep(q, tid, R.Run(spurious))
      else
        var res := q.alloc.threads[tid].res;
        Goto(AllocStep(q, tid, R.Run(false)), tid,
             if res.Got? then DeqCount(res.index, res.ticket) else Done(Dequeue, Empty))
    case DeqCount(pos, t) => Goto(q.(used := q.used - 1), tid, DeqRead(pos, t))
    case DeqRead(pos, t) => StepRead(q, tid, pos, t)
    case DeqReturn(v, pos, t) =>
      if !q.free.threads[tid].Reply? then FreeStep(q, tid, R.Run(spurious))
      else
        Goto(FreeStep(q, tid, R.Run(false)), tid,
             if q.free.threads[tid].res.Enqueued? then Done(Dequeue, Fetched(v, t)) else Broken(RingRefused))
    case _ => q
  }

  predicate Enqueuing(pc: Pc) { pc.EnqCount? || pc.EnqFull? || pc.EnqPick? || pc.EnqWrite? || pc.EnqShare? || pc.EnqSeal? }
  predicate RollingBack(pc: Pc) { pc.EnqUncount? || pc.EnqReread? || pc.EnqReturn? }
  predicate Dequeuing(pc: Pc) { pc.DeqFetch? || pc.DeqCount? || pc.DeqRead? || pc.DeqReturn? }

  function Step(q: Queue, tid: nat, act: Action): Queue
    requires Shaped(q)
  {
    if tid >= |q.threads| then q
    else
      var pc := q.threads[tid];
      match act
      case Start(call) =>
        if !pc.Idle? then q
        else if call.Enqueue? then Goto(q, tid, EnqCount(call))
        else Goto(AllocStep(q, tid, R.Start(R.Dequeue)), tid, DeqFetch)
      case Run(spurious) =>
        if Enqueuing(pc) then StepEnqueue(q, tid, spurious)
        else if RollingBack(pc) then StepRollBack(q, tid, spurious)
        else if Dequeuing(pc) then StepDequeue(q, tid, spurious)
        else if pc.Done? then Goto(q, tid, Idle)
        else q
  }
}

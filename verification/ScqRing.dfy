/** The SCQ index ring of third-party/lfqueue/src/scq.rs as a machine: any number of threads
    enqueue and dequeue indices, one shared access per step.

    An entry's `turn` is its cycle and its slot taken together: cycle * n + slot, the ticket that
    the entry last served.  Entries of one slot are compared by cycle in the code, which is the
    same as comparing their turns.  An empty entry holds the index n - 1.

    Three auxiliary variables record history: `placed` maps every enqueue ticket that was filled
    to its index, `taken` are the tickets whose index was handed out, and `gone` are the dequeue
    tickets that left their slot empty-handed.  Results carry the ticket they were served at. */
module ScqRing {

  datatype Entry = Entry(turn: int, safe: bool, index: nat)

  datatype Op = Enqueue(index: nat) | Dequeue

  datatype Res = Enqueued(ticket: nat) | TooLarge | Finalized | Got(index: nat, ticket: nat) | Nothing

  /** Where a thread is; entries it remembers are of type E. */
  datatype PcOf<E> =
    | Rest
    | EnqTail(i: nat)                         // fetch_add tail
    | EnqLoad(i: nat, t: nat)                 // load the entry
    | EnqHead(i: nat, t: nat, e: E)           // unsafe entry: load head
    | EnqSeal(i: nat, t: nat, e: E)           // finalizable ring: load is_finalized
    | EnqCas(i: nat, t: nat, e: E)            // compare-exchange the entry
    | EnqThreshold(i: nat, t: nat)            // load threshold
    | EnqReset(i: nat, t: nat)                // store threshold
    | DeqThreshold                            // load threshold
    | DeqHead                                 // fetch_add head
    | DeqLoad(h: nat, attempt: nat)           // load the entry
    | DeqCas(h: nat, attempt: nat, e: E)      // compare-exchange the entry
    | DeqTake(h: nat, e: E)                   // fetch_or the entry
    | DeqTail(h: nat)                         // load tail
    | CatchCas(t: nat, h: nat)                // catchup: compare-exchange tail
    | CatchHead                               // catchup: load head
    | CatchTail(h: nat)                       // catchup: load tail
    | DeqLast                                 // fetch_sub threshold, then give up
    | DeqNext                                 // fetch_sub threshold, then maybe try again
    | Reply(op: Op, res: Res)

  type Pc = PcOf<Entry>

  datatype Ring = Ring(
    half: nat,
    finalizable: bool,
    finalized: bool,
    head: nat,
    tail: nat,
    threshold: int,
    entries: seq<Entry>,
    placed: map<nat, nat>,
    taken: set<nat>,
    gone: set<nat>,
    threads: seq<Pc>)

  /** `Seal` is the store of `finalize`, which may happen at any moment. */
  datatype Action = Start(op: Op) | Run(spurious: bool) | Seal

  function Size(r: Ring): nat { 2 * r.half }

  function Nil(half: nat): nat { if half > 0 then 2 * half - 1 else 0 }

  /** lfring_threshold3 */
  function FullThreshold(half: nat): int { half + 2 * half - 1 }

  // ---- what the code does to an entry ------------------------------------------------------------

  function Placed(t: nat, i: nat): Entry { Entry(t, true, i) }
  function Consumed(half: nat, e: Entry): Entry { e.(index := Nil(half)) }
  function Unsafe(e: Entry): Entry { e.(safe := false) }
  function Advanced(half: nat, e: Entry, h: nat): Entry { Entry(h, e.safe, Nil(half)) }

  predicate IsEmpty(half: nat, e: Entry) { e.index == Nil(half) }

  function Identity(k: nat): (m: map<nat, nat>)
    ensures forall i: nat :: i in m <==> i < k
    ensures forall i :: i in m ==> m[i] == i
  {
    if k == 0 then map[] else Identity(k - 1)[k - 1 := k - 1]
  }

  // ---- initial rings -------------------------------------------------------------------------------

  function EmptyRing(half: nat, finalizable: bool, threads: nat): Ring {
    Ring(half, finalizable, false, 0, 0, -1,
         seq(2 * half, i => Entry(i - 2 * half, true, Nil(half))), map[], {}, {}, seq(threads, i => Rest))
  }

  function FullRing(half: nat, finalizable: bool, threads: nat): Ring {
    Ring(half, finalizable, false, 0, half, FullThreshold(half),
         seq(2 * half, i requires i >= 0 => if i < half then Entry(i, true, i) else Entry(i - 2 * half, true, Nil(half))),
         Identity(half), {}, {}, seq(threads, i => Rest))
  }

  // ---- steps ----------------------------------------------------------------------------------------

  ghost predicate Shaped(r: Ring) { r.half > 0 && |r.entries| == Size(r) }

  function SlotOf(r: Ring, t: nat): nat
    requires r.half > 0
  {
    t % Size(r)
  }

  function EntryOf(r: Ring, t: nat): Entry
    requires r.half > 0 && |r.entries| == Size(r)
  {
    r.entries[SlotOf(r, t)]
  }

  function WithPc(r: Ring, tid: nat, pc: Pc): Ring
    requires tid < |r.threads|
  {
    r.(threads := r.threads[tid := pc])
  }

  function WithEntry(r: Ring, t: nat, e: Entry): Ring
    requires r.half > 0 && |r.entries| == Size(r)
  {
    r.(entries := r.entries[SlotOf(r, t) := e])
  }

  /** Where the loads of enqueue lead. */
  function EnqTest(r: Ring, pc: Pc): Pc
    requires r.half > 0 && |r.entries| == Size(r)
    requires pc.EnqLoad? || pc.EnqHead? || pc.EnqSeal? || pc.EnqThreshold?
  {
    match pc
    case EnqLoad(i, t) =>
      var e := EntryOf(r, t);
      if e.turn < t && IsEmpty(r.half, e) then
        if e.safe then (if r.finalizable then EnqSeal(i, t, e) else EnqCas(i, t, e)) else EnqHead(i, t, e)
      else EnqTail(i)
    case EnqHead(i, t, e) =>
      if r.head <= t then (if r.finalizable then EnqSeal(i, t, e) else EnqCas(i, t, e)) else EnqTail(i)
    case EnqSeal(i, t, e) => if r.finalized then Reply(Enqueue(i), Finalized) else EnqCas(i, t, e)
    case EnqThreshold(i, t) =>
      if r.threshold != FullThreshold(r.half) then EnqReset(i, t) else Reply(Enqueue(i), Enqueued(t))
  }

  function StepEnq(r: Ring, tid: nat, spurious: bool): Ring
    requires r.half > 0 && |r.entries| == Size(r) && tid < |r.threads|
  {
    match r.threads[tid]
    case EnqTail(i) => WithPc(r.(tail := r.tail + 1), tid, EnqLoad(i, r.tail))
    case EnqLoad(_, _) | EnqHead(_, _, _) | EnqSeal(_, _, _) | EnqThreshold(_, _) => WithPc(r, tid, EnqTest(r, r.threads[tid]))
    case EnqCas(i, t, e) =>
      if !spurious && EntryOf(r, t) == e then
        WithPc(WithEntry(r, t, Placed(t, i)).(placed := r.placed[t := i]), tid, EnqThreshold(i, t))
      else WithPc(r, tid, EnqLoad(i, t))
    case EnqReset(i, t) => WithPc(r.(threshold := FullThreshold(r.half)), tid, Reply(Enqueue(i), Enqueued(t)))
    case _ => r
  }

  /** The dequeuer of ticket h leaves its slot without an index. */
  function Leave(r: Ring, tid: nat, h: nat): Ring
    requires tid < |r.threads|
  {
    WithPc(r.(gone := r.gone + {h}), tid, DeqTail(h))
  }

  /** What the dequeuer of ticket h makes of the entry it loaded. */
  function Look(r: Ring, tid: nat, h: nat, attempt: nat): Ring
    requires r.half > 0 && |r.entries| == Size(r) && tid < |r.threads|
  {
    var e := EntryOf(r, h);
    if e.turn == h then WithPc(r, tid, DeqTake(h, e))
    else if !IsEmpty(r.half, e) then
      if e.safe && e.turn < h then WithPc(r, tid, DeqCas(h, attempt, e)) else Leave(r, tid, h)
    else if attempt + 1 <= 10 then WithPc(r, tid, DeqLoad(h, attempt + 1))
    else if e.turn < h then WithPc(r, tid, DeqCas(h, attempt + 1, e))
    else Leave(r, tid, h)
  }

  function Swapped(half: nat, e: Entry, h: nat): Entry {
    if IsEmpty(half, e) then Advanced(half, e, h) else Unsafe(e)
  }

  function StepDeq(r: Ring, tid: nat, spurious: bool): Ring
    requires r.half > 0 && |r.entries| == Size(r) && tid < |r.threads|
  {
    match r.threads[tid]
    case DeqThreshold => WithPc(r, tid, if r.threshold < 0 then Reply(Dequeue, Nothing) else DeqHead)
    case DeqHead => WithPc(r.(head := r.head + 1), tid, DeqLoad(r.head, 0))
    case DeqLoad(h, attempt) => Look(r, tid, h, attempt)
    case DeqCas(h, attempt, e) =>
      if !spurious && EntryOf(r, h) == e then Leave(WithEntry(r, h, Swapped(r.half, e, h)), tid, h)
      else WithPc(r, tid, DeqLoad(h, attempt))
    case DeqTake(h, e) =>
      WithPc(WithEntry(r, h, Consumed(r.half, EntryOf(r, h))).(taken := r.taken + {h}), tid, Reply(Dequeue, Got(e.index, h)))
    case _ => r
  }

  function StepLeave(r: Ring, tid: nat, spurious: bool): Ring
    requires tid < |r.threads|
  {
    match r.threads[tid]
    case DeqTail(h) => WithPc(r, tid, if r.tail <= h + 1 then CatchCas(r.tail, h + 1) else DeqNext)
    case CatchCas(t, h) =>
      if !spurious && r.tail == t then WithPc(r.(tail := h), tid, DeqLast) else WithPc(r, tid, CatchHead)
    case CatchHead => WithPc(r, tid, CatchTail(r.head))
    case CatchTail(h) => WithPc(r, tid, if r.tail >= h then DeqLast else CatchCas(r.tail, h))
    case DeqLast => WithPc(r.(threshold := r.threshold - 1), tid, Reply(Dequeue, Nothing))
    case DeqNext =>
      WithPc(r.(threshold := r.threshold - 1), tid, if r.threshold <= 0 then Reply(Dequeue, Nothing) else DeqHead)
    case _ => r
  }

  predicate Enqueuing(pc: Pc) {
    pc.EnqTail? || pc.EnqLoad? || pc.EnqHead? || pc.EnqSeal? || pc.EnqCas? || pc.EnqThreshold? || pc.EnqReset?
  }

  predicate Dequeuing(pc: Pc) { pc.DeqThreshold? || pc.DeqHead? || pc.DeqLoad? || pc.DeqCas? || pc.DeqTake? }

  predicate Leaving(pc: Pc) {
    pc.DeqTail? || pc.CatchCas? || pc.CatchHead? || pc.CatchTail? || pc.DeqLast? || pc.DeqNext?
  }

  function Entry0(half: nat, op: Op): Pc {
    match op
    case Enqueue(i) => if i >= half then Reply(op, TooLarge) else EnqTail(i)
    case Dequeue => DeqThreshold
  }

  function Step(r: Ring, tid: nat, act: Action): Ring
    requires r.half > 0 && |r.entries| == Size(r)
  {
    match act
    case Seal => if r.finalizable then r.(finalized := true) else r
    case Start(op) =>
      if tid < |r.threads| && r.threads[tid].Rest? then WithPc(r, tid, Entry0(r.half, op)) else r
    case Run(spurious) =>
      if tid >= |r.threads| then r
      else
        var pc := r.threads[tid];
        if Enqueuing(pc) then StepEnq(r, tid, spurious)
        else if Dequeuing(pc) then StepDeq(r, tid, spurious)
        else if Leaving(pc) then StepLeave(r, tid, spurious)
        else WithPc(r, tid, Rest)
  }
}

/** The queue as src/lib.rs runs it: `head`, `tail` and the stamps are w-bit words, the
    slot index and the lap are taken apart with masks, and new positions are computed with
    wrapping additions.  The threads take the same steps as in module Tickets; the
    positions in their program counters are words here.

    A buffer access with an index outside 0..n sends the thread to `Broken`, as does
    reading an empty cell or writing over a value. */
module Words {
  import opened Options
  import opened Bits
  import opened Laps
  import opened Fifo
  import opened TicketPc = Tickets

  datatype WordSlot = WordSlot(stamp: nat, cell: Option<Value>)

  datatype Queue = Queue(
    n: nat,                   // capacity
    w: nat,                   // width of the index type
    k: nat,                   // one_lap == 2^k
    head: nat,
    tail: nat,
    slots: seq<WordSlot>,
    threads: seq<Pc>)

  predicate Config(n: nat, w: nat, k: nat) { 0 < n < Pow2(k) && k <= w }

  function New(n: nat, w: nat, k: nat, threads: nat): Queue {
    Queue(n, w, k, 0, 0, seq(n, i requires i >= 0 => WordSlot(i, None)), seq(threads, i => Rest))
  }

  function Lap(q: Queue): nat { Pow2(q.k) }

  function Wrap(q: Queue, x: nat): nat { x % Pow2(q.w) }

  /** `pos & (one_lap - 1)` */
  function Index(q: Queue, pos: nat): nat { And(q.w, pos, Lap(q) - 1) }

  /** `pos & !(one_lap - 1)` */
  function LapPart(q: Queue, pos: nat): nat { if Lap(q) <= Pow2(q.w) then And(q.w, pos, Not(q.w, Lap(q) - 1)) else 0 }

  /** The position after `pos`. */
  function NextPos(q: Queue, pos: nat): nat {
    if Index(q, pos) + 1 < q.n then pos + 1 else Wrap(q, LapPart(q, pos) + Lap(q))
  }

  function WrapSub(q: Queue, x: nat, y: nat): nat {
    if y <= x then x - y else (x + Pow2(q.w) - y) % Pow2(q.w)
  }

  function WithPc(q: Queue, tid: nat, pc: Pc): Queue
    requires tid < |q.threads|
  {
    q.(threads := q.threads[tid := pc])
  }

  function WithSlot(q: Queue, i: nat, slot: WordSlot): Queue
    requires i < |q.slots|
  {
    q.(slots := q.slots[i := slot])
  }

  predicate InBounds(q: Queue, pos: nat) { Index(q, pos) < |q.slots| }

  function PushLoad(q: Queue, pc: Pc): Pc
    requires pc.PushTail? || pc.PushStamp?
  {
    match pc
    case PushTail(op) => PushStamp(op, q.tail)
    case PushStamp(op, tail) =>
      if !InBounds(q, tail) then Broken
      else
        var stamp := q.slots[Index(q, tail)].stamp;
        if tail == stamp then PushCas(op, tail)
        else if Wrap(q, stamp + Lap(q)) == tail + 1 then PushFull(op, tail)
        else PushTail(op)
  }

  function StepPush(q: Queue, tid: nat, spurious: bool): Queue
    requires tid < |q.threads|
  {
    match q.threads[tid]
    case PushTail(_) | PushStamp(_, _) => WithPc(q, tid, PushLoad(q, q.threads[tid]))
    case PushCas(op, tail) =>
      if !spurious && q.tail == tail && op.Inserts() then
        WithPc(q.(tail := NextPos(q, tail)), tid, PushWrite(op, tail))
      else
        WithPc(q, tid, PushStamp(op, q.tail))
    case PushWrite(op, tail) =>
      if InBounds(q, tail) && op.Inserts() && q.slots[Index(q, tail)].cell.None? then
        WithPc(WithSlot(q, Index(q, tail), q.slots[Index(q, tail)].(cell := Some(op.item))), tid, PushPublish(op, tail))
      else WithPc(q, tid, Broken)
    case PushPublish(op, tail) =>
      if InBounds(q, tail) then
        WithPc(WithSlot(q, Index(q, tail), q.slots[Index(q, tail)].(stamp := tail + 1)), tid, Reply(op, Pushed))
      else WithPc(q, tid, Broken)
    case PushFull(op, tail) =>
      if op.Push? then
        WithPc(q, tid, if Wrap(q, q.head + Lap(q)) == tail then Reply(op, Full(op.item)) else PushTail(op))
      else if !spurious && q.head == WrapSub(q, tail, Lap(q)) && op.ForcePush? then
        WithPc(q.(head := WrapSub(q, NextPos(q, tail), Lap(q))), tid, ForceTail(op, tail))
      else WithPc(q, tid, PushTail(op))
    case _ => q
  }

  function StepForce(q: Queue, tid: nat): Queue
    requires tid < |q.threads|
  {
    match q.threads[tid]
    case ForceTail(op, tail) => WithPc(q.(tail := NextPos(q, tail)), tid, ForceSwap(op, tail))
    case ForceSwap(op, tail) =>
      if InBounds(q, tail) && op.Inserts() && q.slots[Index(q, tail)].cell.Some? then
        WithPc(WithSlot(q, Index(q, tail), q.slots[Index(q, tail)].(cell := Some(op.item))), tid,
               ForcePublish(op, tail, q.slots[Index(q, tail)].cell.value))
      else WithPc(q, tid, Broken)
    case ForcePublish(op, tail, prev) =>
      if InBounds(q, tail) then
        WithPc(WithSlot(q, Index(q, tail), q.slots[Index(q, tail)].(stamp := tail + 1)), tid, Reply(op, Displaced(prev)))
      else WithPc(q, tid, Broken)
    case _ => q
  }

  function PopLoad(q: Queue, pc: Pc): Pc
    requires pc.PopHead? || pc.PopStamp? || pc.PopTail?
  {
    match pc
    case PopHead => PopStamp(q.head)
    case PopStamp(head) =>
      if !InBounds(q, head) then Broken
      else
        var stamp := q.slots[Index(q, head)].stamp;
        if head + 1 == stamp then PopCas(head)
        else if stamp == head then PopTail(head)
        else PopHead
    case PopTail(head) => if q.tail == head then Reply(Pop, Empty) else PopHead
  }

  function StepPop(q: Queue, tid: nat, spurious: bool): Queue
    requires tid < |q.threads|
  {
    match q.threads[tid]
    case PopHead | PopStamp(_) | PopTail(_) => WithPc(q, tid, PopLoad(q, q.threads[tid]))
    case PopCas(head) =>
      if !spurious && q.head == head then WithPc(q.(head := NextPos(q, head)), tid, PopRead(head))
      else WithPc(q, tid, PopStamp(q.head))
    case PopRead(head) =>
      if InBounds(q, head) && q.slots[Index(q, head)].cell.Some? then
        WithPc(WithSlot(q, Index(q, head), q.slots[Index(q, head)].(cell := None)), tid,
               PopFree(head, q.slots[Index(q, head)].cell.value))
      else WithPc(q, tid, Broken)
    case PopFree(head, v) =>
      if InBounds(q, head) then
        WithPc(WithSlot(q, Index(q, head), q.slots[Index(q, head)].(stamp := Wrap(q, head + Lap(q)))), tid,
               Reply(Pop, Popped(v)))
      else WithPc(q, tid, Broken)
    case _ => q
  }

  /** The element count that `len` and `drop` derive from two positions. */
  function CountOf(q: Queue, tail: nat, head: nat): int {
    var hix, tix := Index(q, head), Index(q, tail);
    if hix < tix then tix - hix
    else if hix > tix then q.n - hix + tix
    else if tail == head then 0
    else q.n
  }

  function Observe(q: Queue, pc: Pc): Pc
    requires Observing(pc)
  {
    match pc
    case LenTail => LenHead(q.tail)
    case LenHead(tail) => LenAgain(tail, q.head)
    case LenAgain(tail, head) =>
      if q.tail == tail then
        if CountOf(q, tail, head) >= 0 then Reply(Len, Size(CountOf(q, tail, head))) else Broken
      else LenTail
    case EmptyHead => EmptyTail(q.head)
    case EmptyTail(head) => Reply(IsEmpty, Flag(q.tail == head))
    case FullTail => FullHead(q.tail)
    case FullHead(tail) => Reply(IsFull, Flag(Wrap(q, q.head + Lap(q)) == tail))
  }

  function Advance(q: Queue, tid: nat, spurious: bool): Queue
    requires tid < |q.threads|
  {
    var pc := q.threads[tid];
    if Pushing(pc) then StepPush(q, tid, spurious)
    else if Forcing(pc) then StepForce(q, tid)
    else if Popping(pc) then StepPop(q, tid, spurious)
    else if Observing(pc) then WithPc(q, tid, Observe(q, pc))
    else q
  }

  function Step(q: Queue, tid: nat, act: Action): (Queue, Label) {
    if tid >= |q.threads| then (q, Tau)
    else match act
      case Start(op) =>
        if q.threads[tid].Rest? then (WithPc(q, tid, Entry(op)), Invoked(tid, op)) else (q, Tau)
      case Run(spurious) =>
        match q.threads[tid]
        case Reply(op, res) => (WithPc(q, tid, Rest), Replied(tid, op, res))
        case _ => (Advance(q, tid, spurious), Tau)
  }
}

/** The Vyukov protocol of src/lib.rs as a machine over ticket numbers.

    Any number of threads interleave; one step performs at most one shared access,
    and a thread's locals may be stale by the time it uses them.  `head` and `tail`
    count the tickets handed out to consumers and producers.  A slot's stamp says
    which ticket it is waiting for (`full == false`) or holding (`full == true`).

    `log` is an auxiliary variable: the value of every ticket ever accepted, in
    ticket order, extended at the instant the insertion takes effect.  It is one
    longer than `tail` exactly while an overwrite has moved `head` but not `tail`. */
module Tickets {
  import opened Options
  import opened Fifo

  datatype Stamp = Stamp(ticket: nat, full: bool)

  datatype Slot = Slot(stamp: Stamp, cell: Option<Value>)

  /** Program counters, named after the shared access the thread performs next. */
  datatype Pc =
    | Rest
    | PushTail(op: Op)                         // load tail
    | PushStamp(op: Op, t: nat)                // load the stamp of t's slot
    | PushCas(op: Op, t: nat)                  // compare-exchange tail t -> t + 1
    | PushWrite(op: Op, t: nat)                // write_value
    | PushPublish(op: Op, t: nat)              // stamp_store
    | PushFull(op: Op, t: nat)                 // push: load head; force_push: compare-exchange head
    | ForceTail(op: Op, t: nat)                // store tail
    | ForceSwap(op: Op, t: nat)                // replace_value
    | ForcePublish(op: Op, t: nat, prev: Value) // stamp_store
    | PopHead                                  // load head
    | PopStamp(h: nat)                         // load the stamp of h's slot
    | PopCas(h: nat)                           // compare-exchange head h -> h + 1
    | PopRead(h: nat)                          // read_value
    | PopFree(h: nat, v: Value)                // stamp_store
    | PopTail(h: nat)                          // load tail
    | LenTail
    | LenHead(t: nat)
    | LenAgain(t: nat, h: nat)
    | EmptyHead
    | EmptyTail(h: nat)
    | FullTail
    | FullHead(t: nat)
    | Reply(op: Op, res: Res)
    | Broken                                   // undefined behaviour or a leaked value

  datatype State = State(
    n: nat,
    head: nat,
    tail: nat,
    slots: seq<Slot>,
    log: seq<Value>,
    threads: seq<Pc>)

  /** What the scheduler may do with a thread: start a call, or let it take its next
      step; `spurious` makes a weak compare-exchange fail for no reason. */
  datatype Action = Start(op: Op) | Run(spurious: bool)

  function Entry(op: Op): Pc {
    match op
    case Push(_) => PushTail(op)
    case ForcePush(_) => PushTail(op)
    case Pop => PopHead
    case Len => LenTail
    case IsEmpty => EmptyHead
    case IsFull => FullTail
  }

  function Init(n: nat, threads: nat): State
    requires n > 0
  {
    State(n, 0, 0, seq(n, i requires i >= 0 => Slot(Stamp(i, false), None)), [], seq(threads, i => Rest))
  }

  function SetPc(s: State, tid: nat, pc: Pc): State
    requires tid < |s.threads|
  {
    s.(threads := s.threads[tid := pc])
  }

  function SetSlot(s: State, i: nat, slot: Slot): State
    requires i < |s.slots|
  {
    s.(slots := s.slots[i := slot])
  }

  ghost predicate Shaped(s: State) { s.n > 0 && |s.slots| == s.n }

  function StampOf(s: State, p: nat): Stamp
    requires s.n > 0 && |s.slots| == s.n
  {
    s.slots[p % s.n].stamp
  }

  function CellOf(s: State, p: nat): Option<Value>
    requires s.n > 0 && |s.slots| == s.n
  {
    s.slots[p % s.n].cell
  }

  function SetCell(s: State, p: nat, cell: Option<Value>): State
    requires s.n > 0 && |s.slots| == s.n
  {
    SetSlot(s, p % s.n, Slot(StampOf(s, p), cell))
  }

  function SetStamp(s: State, p: nat, stamp: Stamp): State
    requires s.n > 0 && |s.slots| == s.n
  {
    SetSlot(s, p % s.n, Slot(stamp, CellOf(s, p)))
  }

  // ---- push_or_else and its two closures ------------------------------------

  /** Where the loads of push_or_else lead. */
  function PushLoad(s: State, pc: Pc): Pc
    requires s.n > 0 && |s.slots| == s.n
    requires pc.PushTail? || pc.PushStamp?
  {
    match pc
    case PushTail(op) => PushStamp(op, s.tail)
    case PushStamp(op, t) =>
      var st := StampOf(s, t);
      if st == Stamp(t, false) then PushCas(op, t)
      else if st.full && st.ticket + s.n == t then PushFull(op, t)
      else PushTail(op)
  }

  function StepPush(s: State, tid: nat, spurious: bool): State
    requires s.n > 0 && |s.slots| == s.n && tid < |s.threads|
  {
    match s.threads[tid]
    case PushTail(_) | PushStamp(_, _) => SetPc(s, tid, PushLoad(s, s.threads[tid]))
    case PushCas(op, t) =>
      if !spurious && s.tail == t && op.Inserts() then
        SetPc(s.(tail := t + 1, log := s.log + [op.item]), tid, PushWrite(op, t))
      else
        SetPc(s, tid, PushStamp(op, s.tail))
    case PushWrite(op, t) =>
      if op.Inserts() && CellOf(s, t).None? then SetPc(SetCell(s, t, Some(op.item)), tid, PushPublish(op, t))
      else SetPc(s, tid, Broken)
    case PushPublish(op, t) => SetPc(SetStamp(s, t, Stamp(t, true)), tid, Reply(op, Pushed))
    case PushFull(op, t) =>
      if op.Push? then
        SetPc(s, tid, if s.head + s.n == t then Reply(op, Full(op.item)) else PushTail(op))
      else if !spurious && s.head + s.n == t && op.ForcePush? then
        SetPc(s.(head := s.head + 1, log := s.log + [op.item]), tid, ForceTail(op, t))
      else SetPc(s, tid, PushTail(op))
    case _ => s
  }

  function StepForce(s: State, tid: nat): State
    requires s.n > 0 && |s.slots| == s.n && tid < |s.threads|
  {
    match s.threads[tid]
    case ForceTail(op, t) => SetPc(s.(tail := t + 1), tid, ForceSwap(op, t))
    case ForceSwap(op, t) =>
      if op.Inserts() && CellOf(s, t).Some? then
        SetPc(SetCell(s, t, Some(op.item)), tid, ForcePublish(op, t, CellOf(s, t).value))
      else SetPc(s, tid, Broken)
    case ForcePublish(op, t, prev) => SetPc(SetStamp(s, t, Stamp(t, true)), tid, Reply(op, Displaced(prev)))
    case _ => s
  }

  // ---- pop -------------------------------------------------------------------

  /** Where the loads of pop lead. */
  function PopLoad(s: State, pc: Pc): Pc
    requires s.n > 0 && |s.slots| == s.n
    requires pc.PopHead? || pc.PopStamp? || pc.PopTail?
  {
    match pc
    case PopHead => PopStamp(s.head)
    case PopStamp(h) =>
      var st := StampOf(s, h);
      if st == Stamp(h, true) then PopCas(h)
      else if st == Stamp(h, false) then PopTail(h)
      else PopHead
    case PopTail(h) => if s.tail == h then Reply(Pop, Empty) else PopHead
  }

  function StepPop(s: State, tid: nat, spurious: bool): State
    requires s.n > 0 && |s.slots| == s.n && tid < |s.threads|
  {
    match s.threads[tid]
    case PopCas(h) =>
      if !spurious && s.head == h then SetPc(s.(head := h + 1), tid, PopRead(h))
      else SetPc(s, tid, PopStamp(s.head))
    case PopRead(h) =>
      if CellOf(s, h).Some? then SetPc(SetCell(s, h, None), tid, PopFree(h, CellOf(s, h).value))
      else SetPc(s, tid, Broken)
    case PopFree(h, v) => SetPc(SetStamp(s, h, Stamp(h + s.n, false)), tid, Reply(Pop, Popped(v)))
    case PopHead | PopStamp(_) | PopTail(_) => SetPc(s, tid, PopLoad(s, s.threads[tid]))
    case _ => s
  }

  // ---- len, is_empty, is_full --------------------------------------------------

  /** The count that `len` derives from the two counters it read. */
  function Count(n: nat, t: nat, h: nat): nat
    requires n > 0
  {
    var hix := h % n;
    var tix := t % n;
    if hix < tix then tix - hix
    else if hix > tix then n - hix + tix
    else if t == h then 0
    else n
  }

  predicate Observing(pc: Pc) {
    pc.LenTail? || pc.LenHead? || pc.LenAgain? || pc.EmptyHead? || pc.EmptyTail? || pc.FullTail? || pc.FullHead?
  }

  /** The observers only load. */
  function Observe(s: State, pc: Pc): Pc
    requires s.n > 0 && Observing(pc)
  {
    match pc
    case LenTail => LenHead(s.tail)
    case LenHead(t) => LenAgain(t, s.head)
    case LenAgain(t, h) => if s.tail == t then Reply(Len, Size(Count(s.n, t, h))) else LenTail
    case EmptyHead => EmptyTail(s.head)
    case EmptyTail(h) => Reply(IsEmpty, Flag(s.tail == h))
    case FullTail => FullHead(s.tail)
    case FullHead(t) => Reply(IsFull, Flag(s.head + s.n == t))
  }

  predicate Pushing(pc: Pc) {
    pc.PushTail? || pc.PushStamp? || pc.PushCas? || pc.PushWrite? || pc.PushPublish? || pc.PushFull?
  }

  predicate Forcing(pc: Pc) { pc.ForceTail? || pc.ForceSwap? || pc.ForcePublish? }

  predicate Popping(pc: Pc) {
    pc.PopHead? || pc.PopStamp? || pc.PopCas? || pc.PopRead? || pc.PopFree? || pc.PopTail?
  }

  /** A step of a call that is under way. */
  function Advance(s: State, tid: nat, spurious: bool): State
    requires s.n > 0 && |s.slots| == s.n && tid < |s.threads|
  {
    var pc := s.threads[tid];
    if Pushing(pc) then StepPush(s, tid, spurious)
    else if Forcing(pc) then StepForce(s, tid)
    else if Popping(pc) then StepPop(s, tid, spurious)
    else if Observing(pc) then SetPc(s, tid, Observe(s, pc))
    else s
  }

  /** One step of thread `tid`, with what it shows to the outside.  An action that the
      thread cannot take leaves the state alone. */
  function Step(s: State, tid: nat, act: Action): (State, Label)
    requires s.n > 0 && |s.slots| == s.n
  {
    if tid >= |s.threads| then (s, Tau)
    else match act
      case Start(op) =>
        if s.threads[tid].Rest? then (SetPc(s, tid, Entry(op)), Invoked(tid, op)) else (s, Tau)
      case Run(spurious) =>
        match s.threads[tid]
        case Reply(op, res) => (SetPc(s, tid, Rest), Replied(tid, op, res))
        case _ => (Advance(s, tid, spurious), Tau)
  }
}

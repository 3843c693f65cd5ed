/** What every step of the ticket machine keeps: the global step invariant, slot
    ownership, and the fact that no thread ever reads an uninitialised cell, writes
    over a live one or leaks a value. */
module TicketInvariant {
  import opened Options
  import opened Arithmetic
  import opened Fifo
  import opened Tickets

  // ---- ownership ----------------------------------------------------------------

  /** The ticket whose slot a producer holds between claiming it and publishing it. */
  function Producing(pc: Pc): Option<nat> {
    match pc
    case PushWrite(_, t) => Some(t)
    case PushPublish(_, t) => Some(t)
    case _ => None
  }

  /** The ticket whose value a thread is taking out, between moving `head` past it and
      storing the slot's next stamp.  An overwriting force_push is one of these. */
  function Consuming(n: nat, pc: Pc): Option<nat> {
    match pc
    case PopRead(h) => Some(h)
    case PopFree(h, _) => Some(h)
    case ForceTail(_, t) => if t >= n then Some(t - n) else None
    case ForceSwap(_, t) => if t >= n then Some(t - n) else None
    case ForcePublish(_, t, _) => if t >= n then Some(t - n) else None
    case _ => None
  }

  predicate Owns(n: nat, pc: Pc) { Producing(pc).Some? || Consuming(n, pc).Some? }

  function OwnedTicket(n: nat, pc: Pc): nat
    requires Owns(n, pc)
  {
    if Producing(pc).Some? then Producing(pc).value else Consuming(n, pc).value
  }

  // ---- the invariant -----------------------------------------------------------

  /** The stamp of p's slot has reached (p, full), where free comes before full. */
  predicate Reached(s: State, p: nat, full: bool)
    requires s.n > 0 && |s.slots| == s.n
  {
    var st := StampOf(s, p);
    st.ticket > p || (st.ticket == p && (st.full || !full))
  }

  predicate CountersOk(s: State) {
    && s.n > 0
    && |s.slots| == s.n
    && s.head <= s.tail
    && s.tail <= |s.log| <= s.tail + 1
    && |s.log| <= s.head + s.n
    && (|s.log| > s.tail ==> s.tail >= s.n && StampOf(s, s.tail) == Stamp(s.tail - s.n, true))
  }

  predicate SlotOk(s: State, i: nat)
    requires i < |s.slots|
  {
    var Slot(st, cell) := s.slots[i];
    && s.n > 0 && st.ticket % s.n == i
    && (!st.full ==> st.ticket < s.head + s.n && (st.ticket >= |s.log| ==> cell == None))
    && (st.full ==> st.ticket < s.tail && st.ticket < |s.log|
                    && (st.ticket >= s.head ==> cell == Some(s.log[st.ticket])))
  }

  /** A producer's own slot: its stamp, its cell and its place in the order. */
  predicate ProducerOk(s: State, op: Op, t: nat, cell: Option<Value>)
    requires s.n > 0 && |s.slots| == s.n
  {
    && op.Inserts()
    && s.head <= t < s.tail
    && t < |s.log| && s.log[t] == op.item
    && s.slots[t % s.n] == Slot(Stamp(t, false), cell)
  }

  /** An overwriting force_push holds the slot of the ticket it displaced. */
  predicate OverwriterOk(s: State, op: Op, t: nat, cell: nat)
    requires s.n > 0 && |s.slots| == s.n
  {
    && op.ForcePush?
    && t >= s.n
    && t - s.n < s.head <= t < |s.log|
    && s.log[t] == op.item
    && cell < |s.log|
    && s.slots[t % s.n] == Slot(Stamp(t - s.n, true), Some(s.log[cell]))
  }

  predicate PcOk(s: State, pc: Pc)
    requires s.n > 0 && |s.slots| == s.n
  {
    match pc
    case PushTail(op) => op.Inserts()
    case PushStamp(op, t) => op.Inserts() && t <= s.tail
    case PushCas(op, t) => op.Inserts() && t <= s.tail && Reached(s, t, false)
    case PushWrite(op, t) => ProducerOk(s, op, t, None)
    case PushPublish(op, t) => op.Inserts() && ProducerOk(s, op, t, Some(op.item))
    case PushFull(op, t) => op.Inserts() && s.n <= t <= s.tail && Reached(s, t - s.n, true)
    case ForceTail(op, t) => t == s.tail && |s.log| == t + 1 && t >= s.n && OverwriterOk(s, op, t, t - s.n)
    case ForceSwap(op, t) => t < s.tail && t >= s.n && OverwriterOk(s, op, t, t - s.n)
    case ForcePublish(op, t, prev) =>
      t < s.tail && t >= s.n && OverwriterOk(s, op, t, t) && prev == s.log[t - s.n]
    case PopStamp(h) => h <= s.head
    case PopCas(h) => h <= s.head && Reached(s, h, true)
    case PopTail(h) => h <= s.head && Reached(s, h, false)
    case PopRead(h) =>
      && h < s.head && h < |s.log| <= h + s.n
      && s.slots[h % s.n] == Slot(Stamp(h, true), Some(s.log[h]))
    case PopFree(h, v) =>
      && h < s.head && h < |s.log| <= h + s.n && v == s.log[h]
      && s.slots[h % s.n] == Slot(Stamp(h, true), None)
    case LenHead(t) => t <= s.tail
    case LenAgain(t, h) => t <= s.tail && h <= s.head && (s.tail == t ==> h <= t <= h + s.n)
    case EmptyTail(h) => h <= s.head
    case FullHead(t) => t <= s.tail
    case Broken => false
    case _ => true
  }

  predicate Exclusive(s: State) {
    forall a, b :: 0 <= a < b < |s.threads| ==> Apart(s.n, s.threads[a], s.threads[b])
  }

  predicate Apart(n: nat, p: Pc, q: Pc) {
    && (Producing(p).Some? ==> Producing(p) != Producing(q))
    && (Consuming(n, p).Some? ==> Consuming(n, p) != Consuming(n, q))
  }

  /** No slot is left half way without a thread that will finish the job. */
  ghost predicate SlotHeld(s: State, i: nat)
    requires i < |s.slots|
  {
    var st := s.slots[i].stamp;
    && (!st.full && st.ticket < |s.log| ==>
          exists a :: 0 <= a < |s.threads| && Producing(s.threads[a]) == Some(st.ticket))
    && (st.full && st.ticket < s.head ==>
          exists a :: 0 <= a < |s.threads| && Consuming(s.n, s.threads[a]) == Some(st.ticket))
  }

  ghost predicate TailHeld(s: State) {
    |s.log| > s.tail ==> exists a :: 0 <= a < |s.threads| && s.threads[a].ForceTail?
  }

  predicate PcsOk(s: State)
    requires s.n > 0 && |s.slots| == s.n
  {
    forall a :: 0 <= a < |s.threads| ==> PcOk(s, s.threads[a])
  }

  predicate SlotsOk(s: State) {
    forall i :: 0 <= i < |s.slots| ==> SlotOk(s, i)
  }

  ghost predicate Held(s: State) {
    TailHeld(s) && forall i :: 0 <= i < |s.slots| ==> SlotHeld(s, i)
  }

  ghost predicate Inv(s: State) {
    CountersOk(s) && SlotsOk(s) && PcsOk(s) && Exclusive(s) && Held(s)
  }

  lemma InitInv(n: nat, threads: nat)
    requires n > 0
    ensures Inv(Init(n, threads))
  {
    var s := Init(n, threads);
    forall i | 0 <= i < |s.slots| ensures SlotOk(s, i) && SlotHeld(s, i) {
      SlotOfSmall(n, i);
    }
  }
}

/** What every step of the SCQ ring keeps. */
module ScqInvariant {
  import opened Options
  import opened Arithmetic
  import opened ScqRing

  function EnqTicket(pc: Pc): Option<nat> {
    match pc
    case EnqLoad(_, t) => Some(t)
    case EnqHead(_, t, _) => Some(t)
    case EnqSeal(_, t, _) => Some(t)
    case EnqCas(_, t, _) => Some(t)
    case _ => None
  }

  /** The index a call holds that is in no slot: not yet placed, refused, or just taken. */
  function Carried(pc: Pc): Option<nat> {
    match pc
    case EnqTail(i) => Some(i)
    case EnqLoad(i, _) => Some(i)
    case EnqHead(i, _, _) => Some(i)
    case EnqSeal(i, _, _) => Some(i)
    case EnqCas(i, _, _) => Some(i)
    case Reply(op, res) =>
      if op.Enqueue? && !res.Enqueued? then Some(op.index) else if res.Got? then Some(res.index) else None
    case _ => None
  }

  /** The ticket at which an enqueue has placed its index. */
  function PlacedAt(pc: Pc): Option<nat> {
    match pc
    case EnqThreshold(_, t) => Some(t)
    case EnqReset(_, t) => Some(t)
    case Reply(_, res) => if res.Enqueued? then Some(res.ticket) else None
    case _ => None
  }

  /** The call a thread is in. */
  function CallOf(pc: Pc): Option<Op> {
    match pc
    case Rest => None
    case EnqTail(i) => Some(Enqueue(i))
    case EnqLoad(i, _) => Some(Enqueue(i))
    case EnqHead(i, _, _) => Some(Enqueue(i))
    case EnqSeal(i, _, _) => Some(Enqueue(i))
    case EnqCas(i, _, _) => Some(Enqueue(i))
    case EnqThreshold(i, _) => Some(Enqueue(i))
    case EnqReset(i, _) => Some(Enqueue(i))
    case Reply(op, _) => Some(op)
    case _ => Some(Dequeue)
  }

  function DeqTicket(pc: Pc): Option<nat> {
    match pc
    case DeqLoad(h, _) => Some(h)
    case DeqCas(h, _, _) => Some(h)
    case DeqTake(h, _) => Some(h)
    case _ => None
  }

  /** An entry that was once `e` may be `c` now: turns only grow, and within one turn an entry can
      only become unsafe and lose its index. */
  predicate Past(half: nat, e: Entry, c: Entry) {
    c.turn > e.turn || (c.turn == e.turn && (c.safe ==> e.safe) && (c.index == e.index || IsEmpty(half, c)))
  }

  /** A placed index that has not been handed out. */
  predicate Live(r: Ring, t: nat) { t in r.placed && t !in r.taken }

  /** An entry of this slot: its turn belongs to the slot, starting one lap before ticket 0. */
  predicate InSlot(half: nat, e: Entry, slot: nat)
    requires half > 0
  {
    e.turn % (2 * half) == slot && e.turn >= 0 - 2 * half && e.index < 2 * half
  }

  predicate EntryOk(r: Ring, i: nat)
    requires r.half > 0 && i < |r.entries|
  {
    var e := r.entries[i];
    && InSlot(r.half, e, i)
    && (!IsEmpty(r.half, e) ==> e.turn >= 0 && Live(r, e.turn) && r.placed[e.turn] == e.index)
    && (IsEmpty(r.half, e) && e.turn >= 0 ==> e.turn in r.taken || e.turn in r.gone)
  }

  predicate EntriesOk(r: Ring) {
    r.half > 0 && forall i :: 0 <= i < |r.entries| ==> EntryOk(r, i)
  }

  /** Every live index sits in its slot. */
  predicate LiveOk(r: Ring, t: nat)
    requires r.half > 0 && |r.entries| == Size(r)
  {
    Live(r, t) ==> EntryOf(r, t).turn == t && EntryOf(r, t).index == r.placed[t]
  }

  predicate PlacedOk(r: Ring)
    requires r.half > 0 && |r.entries| == Size(r)
  {
    forall t :: t in r.placed ==> t < r.tail && r.placed[t] < r.half && t !in r.gone && LiveOk(r, t)
  }

  predicate TakenOk(r: Ring) { forall t :: t in r.taken ==> t in r.placed && t < r.head }

  /** The slot of a ticket that was given up can never be filled for that ticket. */
  predicate GoneOk(r: Ring)
    requires r.half > 0 && |r.entries| == Size(r)
  {
    forall h :: h in r.gone ==> h < r.head && (EntryOf(r, h).turn >= h || !EntryOf(r, h).safe)
  }

  /** If the entry is still `e`, every ticket given up on this slot lies before t. */
  predicate MayPlace(r: Ring, t: nat, e: Entry)
    requires r.half > 0 && |r.entries| == Size(r)
  {
    EntryOf(r, t) == e ==> forall h :: h in r.gone && SlotOf(r, h) == SlotOf(r, t) ==> h < t
  }

  predicate Sighted(r: Ring, t: nat, e: Entry)
    requires r.half > 0 && |r.entries| == Size(r)
  {
    e.turn < t && InSlot(r.half, e, SlotOf(r, t)) && Past(r.half, e, EntryOf(r, t))
  }

  /** What a result says: a finished enqueue placed its index at its ticket, a dequeued index is the
      one placed at the same ticket, and the two refusals have their reasons. */
  predicate ResOk(r: Ring, op: Op, res: Res) {
    match op
    case Enqueue(i) =>
      || (res.Enqueued? && i < r.half && res.ticket in r.placed && r.placed[res.ticket] == i)
      || (res.TooLarge? && i >= r.half)
      || (res.Finalized? && r.finalized && i < r.half)
    case Dequeue =>
      || (res.Got? && res.ticket in r.taken && res.ticket in r.placed && r.placed[res.ticket] == res.index < r.half)
      || res.Nothing?
  }

  predicate PcOk(r: Ring, pc: Pc)
    requires r.half > 0 && |r.entries| == Size(r)
  {
    match pc
    case EnqTail(i) => i < r.half
    case EnqLoad(i, t) => i < r.half && t < r.tail && t !in r.placed
    case EnqHead(i, t, e) => i < r.half && t < r.tail && t !in r.placed && IsEmpty(r.half, e) && Sighted(r, t, e)
    case EnqSeal(i, t, e) =>
      i < r.half && t < r.tail && t !in r.placed && IsEmpty(r.half, e) && Sighted(r, t, e) && MayPlace(r, t, e)
    case EnqCas(i, t, e) =>
      i < r.half && t < r.tail && t !in r.placed && IsEmpty(r.half, e) && Sighted(r, t, e) && MayPlace(r, t, e)
    case DeqLoad(h, _) => h < r.head && h !in r.gone && h !in r.taken
    case DeqCas(h, _, e) =>
      h < r.head && h !in r.gone && h !in r.taken && Sighted(r, h, e) && (e.safe || IsEmpty(r.half, e))
    case DeqTake(h, e) =>
      h < r.head && h !in r.gone && Live(r, h) && e.turn == h && e.index == r.placed[h] && InSlot(r.half, e, SlotOf(r, h))
    case DeqTail(h) => h < r.head && h in r.gone
    case CatchCas(t, h) => t <= h <= r.head
    case CatchTail(h) => h <= r.head
    case EnqThreshold(i, t) => t in r.placed && r.placed[t] == i
    case EnqReset(i, t) => t in r.placed && r.placed[t] == i
    case Reply(op, res) => ResOk(r, op, res)
    case _ => true
  }

  predicate PcsOk(r: Ring)
    requires r.half > 0 && |r.entries| == Size(r)
  {
    forall a :: 0 <= a < |r.threads| ==> PcOk(r, r.threads[a])
  }

  /** No ticket is held twice. */
  predicate Apart(p: Pc, q: Pc) {
    && (EnqTicket(p).Some? ==> EnqTicket(p) != EnqTicket(q))
    && (DeqTicket(p).Some? ==> DeqTicket(p) != DeqTicket(q))
  }

  predicate Distinct(r: Ring) {
    forall a, b :: 0 <= a < b < |r.threads| ==> Apart(r.threads[a], r.threads[b])
  }

  /** Every dequeue ticket was honoured, was given up, or is still being worked on. */
  ghost predicate Accounted(r: Ring) {
    forall h: nat :: h < r.head ==> Settled(r, h) || exists a :: 0 <= a < |r.threads| && DeqTicket(r.threads[a]) == Some(h)
  }

  predicate Settled(r: Ring, h: nat) { h in r.taken || h in r.gone }

  ghost predicate Inv(r: Ring) {
    && r.half > 0 && |r.entries| == Size(r)
    && EntriesOk(r) && PlacedOk(r) && TakenOk(r) && GoneOk(r)
    && PcsOk(r) && Distinct(r) && Accounted(r)
  }

  lemma EmptyRingInv(half: nat, finalizable: bool, threads: nat)
    requires half > 0
    ensures Inv(EmptyRing(half, finalizable, threads))
  {
    var r := EmptyRing(half, finalizable, threads);
    forall i | 0 <= i < |r.entries| ensures EntryOk(r, i) {
      SlotOfSmall(2 * half, i);
      SlotOfNextLap(2 * half, i - 2 * half);
    }
  }

  lemma FullRingInv(half: nat, finalizable: bool, threads: nat)
    requires half > 0
    ensures Inv(FullRing(half, finalizable, threads))
  {
    var r := FullRing(half, finalizable, threads);
    forall i | 0 <= i < |r.entries| ensures EntryOk(r, i) {
      SlotOfSmall(2 * half, i);
      SlotOfNextLap(2 * half, i - 2 * half);
      assert r.entries[i] == if i < half then Entry(i, true, i) else Entry(i - 2 * half, true, Nil(half));
    }
    forall t | t in r.placed ensures LiveOk(r, t) {
      SlotOfSmall(2 * half, t);
    }
  }
}

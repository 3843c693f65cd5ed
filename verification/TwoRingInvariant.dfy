/** Who owns which index of the bounded queue, what its payload is, and what `used` counts. */
module TwoRingInvariant {
  import opened Options
  import R = ScqRing
  import opened ScqInvariant
  import opened TwoRings

  /** The place of an index: a ticket of one of the rings, or the hands of a thread. */
  datatype Place = Free(t: nat) | Allocated(t: nat) | Hand(a: nat)

  type Layout = seq<Place>

  // ---- what a thread is doing -------------------------------------------------------------------

  function FreeCall(pc: Pc): Option<R.Op> {
    match pc
    case EnqPick(_, _) => Some(R.Dequeue)
    case EnqReturn(_, _, pos) => Some(R.Enqueue(pos))
    case DeqReturn(_, pos, _) => Some(R.Enqueue(pos))
    case _ => None
  }

  function AllocCall(pc: Pc): Option<R.Op> {
    match pc
    case EnqShare(_, _, pos) => Some(R.Enqueue(pos))
    case DeqFetch => Some(R.Dequeue)
    case _ => None
  }

  /** The index in the hands of a thread. */
  function Held(pc: Pc, free: R.Pc, alloc: R.Pc): Option<nat> {
    match pc
    case EnqPick(_, _) => Carried(free)
    case EnqReturn(_, _, _) => Carried(free)
    case DeqReturn(_, _, _) => Carried(free)
    case EnqShare(_, _, _) => Carried(alloc)
    case DeqFetch => Carried(alloc)
    case EnqWrite(_, _, pos) => Some(pos)
    case EnqUncount(_, pos) => Some(pos)
    case EnqReread(_, pos) => Some(pos)
    case DeqCount(pos, _) => Some(pos)
    case DeqRead(pos, _) => Some(pos)
    case _ => None
  }

  /** The ticket at which a thread was handed an index whose value it has not read yet. */
  function Serving(pc: Pc, alloc: R.Pc): Option<nat> {
    match pc
    case DeqFetch => if alloc.Reply? && alloc.res.Got? then Some(alloc.res.ticket) else None
    case DeqCount(_, t) => Some(t)
    case DeqRead(_, t) => Some(t)
    case _ => None
  }

  /** The payload that must be in the slot of the index a thread holds. */
  function Payload(q: Queue, pc: Pc, alloc: R.Pc): Option<Value> {
    match pc
    case EnqShare(c, _, _) => if c.Enqueue? then Some(c.v) else None
    case EnqUncount(c, _) => if c.Enqueue? then Some(c.v) else None
    case EnqReread(c, _) => if c.Enqueue? then Some(c.v) else None
    case _ =>
      if Serving(pc, alloc).Some? && Serving(pc, alloc).value in q.sent then Some(q.sent[Serving(pc, alloc).value])
      else None
  }

  function HeldBy(q: Queue, a: nat): Option<nat>
    requires Shaped(q) && a < |q.threads|
  {
    Held(q.threads[a], q.free.threads[a], q.alloc.threads[a])
  }

  function ServedTo(q: Queue, a: nat): Option<nat>
    requires Shaped(q) && a < |q.threads|
  {
    Serving(q.threads[a], q.alloc.threads[a])
  }

  // ---- the invariant ------------------------------------------------------------------------------

  predicate RingsOk(q: Queue) {
    && Shaped(q) && q.free.half == q.alloc.half && |q.backing| == 2 * q.free.half && !q.free.finalized
  }

  /** The place of index i is what `places` says, and its payload is initialised exactly when some
      value is on its way through it. */
  predicate IndexOk(q: Queue, places: Layout, i: nat)
    requires RingsOk(q) && i < |places| == q.free.half
  {
    match places[i]
    case Free(t) => Live(q.free, t) && q.free.placed[t] == i && q.backing[i] == None
    case Allocated(t) =>
      Live(q.alloc, t) && q.alloc.placed[t] == i && t in q.sent && q.backing[i] == Some(q.sent[t])
    case Hand(a) =>
      && a < |q.threads| && HeldBy(q, a) == Some(i)
      && q.backing[i] == Payload(q, q.threads[a], q.alloc.threads[a])
  }

  predicate IndicesOk(q: Queue, places: Layout)
    requires RingsOk(q) && |places| == q.free.half
  {
    forall i :: 0 <= i < |places| ==> IndexOk(q, places, i)
  }

  predicate FreeTicketsOk(q: Queue, places: Layout) {
    forall t :: t in q.free.placed && t !in q.free.taken ==>
      q.free.placed[t] < |places| && places[q.free.placed[t]] == Free(t)
  }

  predicate AllocTicketsOk(q: Queue, places: Layout) {
    forall t :: t in q.alloc.placed && t !in q.alloc.taken ==>
      q.alloc.placed[t] < |places| && places[q.alloc.placed[t]] == Allocated(t)
  }

  /** The results a thread has obtained are genuine. */
  predicate ResultOk(q: Queue, pc: Pc, alloc: R.Pc) {
    match pc
    case EnqCount(c) => c.Enqueue?
    case EnqFull(c) => c.Enqueue?
    case EnqPick(c, _) => c.Enqueue?
    case EnqWrite(c, _, _) => c.Enqueue?
    case EnqShare(c, _, _) =>
      c.Enqueue? && (PlacedAt(alloc).Some? ==> PlacedAt(alloc).value in q.sent && q.sent[PlacedAt(alloc).value] == c.v)
    case EnqUncount(c, _) => c.Enqueue? && q.alloc.finalized
    case EnqReread(c, _) => c.Enqueue? && q.alloc.finalized
    case EnqReturn(c, v, _) => c.Enqueue? && v == c.v && q.alloc.finalized
    case EnqSeal(c, t) => c.Enqueue? && t in q.sent && q.sent[t] == c.v
    case DeqReturn(v, _, t) => t in q.fetched && q.fetched[t] == v
    case Done(c, out) =>
      match out {
        case Stored(t) => c.Enqueue? && t in q.sent && q.sent[t] == c.v
        case Refused(v, finalized) => c.Enqueue? && v == c.v && (finalized ==> q.alloc.finalized)
        case Fetched(v, t) => c.Dequeue? && t in q.fetched && q.fetched[t] == v
        case Empty => c.Dequeue?
      }
    case Broken(_) => false
    case _ => true
  }

  predicate ThreadOk(q: Queue, places: Layout, a: nat)
    requires RingsOk(q) && a < |q.threads|
  {
    && CallOf(q.free.threads[a]) == FreeCall(q.threads[a]) && CallOf(q.alloc.threads[a]) == AllocCall(q.threads[a])
    && (HeldBy(q, a).Some? ==> HeldBy(q, a).value < |places| && places[HeldBy(q, a).value] == Hand(a))
    && (ServedTo(q, a).Some? ==>
          && ServedTo(q, a).value in q.alloc.taken && ServedTo(q, a).value !in q.fetched
          && ServedTo(q, a).value in q.alloc.placed && HeldBy(q, a) == Some(q.alloc.placed[ServedTo(q, a).value]))
    && ResultOk(q, q.threads[a], q.alloc.threads[a])
  }

  predicate ThreadsOk(q: Queue, places: Layout)
    requires RingsOk(q)
  {
    forall a :: 0 <= a < |q.threads| ==> ThreadOk(q, places, a)
  }

  /** Values: what was published is what lies at the tickets; what was read back was published. */
  predicate ValuesOk(q: Queue) {
    && q.sent.Keys == q.alloc.placed.Keys
    && forall t :: t in q.fetched ==> t in q.alloc.taken && t in q.sent && q.fetched[t] == q.sent[t]
  }

  /** A ticket of the allocated ring that was served is read or about to be read. */
  ghost predicate Served(q: Queue)
    requires RingsOk(q)
  {
    forall t :: t in q.alloc.taken ==> t in q.fetched || Reading(q, t)
  }

  ghost predicate Reading(q: Queue, t: nat)
    requires RingsOk(q)
  {
    exists a :: 0 <= a < |q.threads| && ServedTo(q, a) == Some(t)
  }

  ghost predicate Owned(q: Queue, places: Layout) {
    && RingsOk(q) && |places| == q.free.half
    && IndicesOk(q, places) && FreeTicketsOk(q, places) && AllocTicketsOk(q, places)
    && ThreadsOk(q, places) && ValuesOk(q) && Served(q)
  }

  ghost predicate RingsInv(q: Queue) { Inv(q.free) && Inv(q.alloc) }

  // ---- the used counter ---------------------------------------------------------------------------

  /** One for an enqueuer between its increment and its publication or roll-back, and for a dequeuer
      that has taken an index but not yet decremented. */
  function Weight(pc: Pc, alloc: R.Pc): nat {
    match pc
    case EnqFull(_) => 1
    case EnqPick(_, _) => 1
    case EnqWrite(_, _, _) => 1
    case EnqShare(_, _, _) => if Carried(alloc).Some? then 1 else 0
    case EnqUncount(_, _) => 1
    case DeqFetch => if Carried(alloc).Some? then 1 else 0
    case DeqCount(_, _) => 1
    case _ => 0
  }

  function Pending(pcs: seq<Pc>, allocs: seq<R.Pc>): nat
    requires |pcs| == |allocs|
  {
    if pcs == [] then 0 else Weight(pcs[0], allocs[0]) + Pending(pcs[1..], allocs[1..])
  }

  function LiveCount(r: Ring): nat { |r.placed.Keys - r.taken| }

  predicate UsedOk(q: Queue) {
    Shaped(q) && q.used == LiveCount(q.alloc) + Pending(q.threads, q.alloc.threads)
  }

  // ---- the initial state ----------------------------------------------------------------------------

  lemma NewOwned(half: nat, finalizable: bool, threads: nat)
    requires half > 0
    ensures Owned(New(half, finalizable, threads), seq(half, i requires 0 <= i => Free(i)))
    ensures RingsInv(New(half, finalizable, threads))
  {
    EmptyRingInv(half, finalizable, threads);
    FullRingInv(half, finalizable, threads);
  }

  lemma {:induction false} NonePending(pcs: seq<Pc>, allocs: seq<R.Pc>)
    requires |pcs| == |allocs| && forall a :: 0 <= a < |pcs| ==> pcs[a].Idle?
    ensures Pending(pcs, allocs) == 0
  {
    if pcs != [] {
      NonePending(pcs[1..], allocs[1..]);
    }
  }

  lemma NewUsed(half: nat, finalizable: bool, threads: nat)
    requires half > 0
    ensures UsedOk(New(half, finalizable, threads))
  {
    var q := New(half, finalizable, threads);
    NonePending(q.threads, q.alloc.threads);
  }
}

/** What no run of the queue can do: leave the buffer, touch a slot that another thread
    holds, read a cell that holds no value, lose a value by writing over it, or move a
    counter or a stamp backwards. */
module Safety {
  import opened Options
  import opened Bits
  import opened Laps
  import opened Fifo
  import opened Tickets
  import opened TicketInvariant
  import opened TicketSteps
  import opened Encoding
  import opened Runs
  import Words

  // ---- buffer accesses ------------------------------------------------------------------

  /** The position a thread is working with, if it works with a slot. */
  function PositionOf(pc: Pc): Option<nat> {
    match pc
    case PushStamp(_, t) => Some(t)
    case PushCas(_, t) => Some(t)
    case PushWrite(_, t) => Some(t)
    case PushPublish(_, t) => Some(t)
    case PushFull(_, t) => Some(t)
    case ForceTail(_, t) => Some(t)
    case ForceSwap(_, t) => Some(t)
    case ForcePublish(_, t, _) => Some(t)
    case PopStamp(h) => Some(h)
    case PopCas(h) => Some(h)
    case PopRead(h) => Some(h)
    case PopFree(h, _) => Some(h)
    case PopTail(h) => Some(h)
    case _ => None
  }

  predicate Holds(pc: Pc) {
    pc.PushWrite? || pc.PushPublish? || pc.ForceTail? || pc.ForceSwap? || pc.ForcePublish? || pc.PopRead? || pc.PopFree?
  }

  lemma PositionKnown(s: State, pc: Pc)
    requires CountersOk(s) && PcOk(s, pc) && PositionOf(pc).Some?
    ensures PositionOf(pc).value <= |s.log|
  {
  }

  lemma PositionEncoded(n: nat, lap: nat, pc: Pc)
    requires 0 < n < lap
    ensures PositionOf(EncPc(n, lap, pc))
         == (match PositionOf(pc) case None => None case Some(p) => Some(Enc(n, lap, p)))
    ensures Holds(EncPc(n, lap, pc)) == Holds(pc)
  {
  }

  lemma HolderOwns(s: State, pc: Pc)
    requires CountersOk(s) && PcOk(s, pc) && Holds(pc)
    ensures Owns(s.n, pc) && OwnedTicket(s.n, pc) % s.n == PositionOf(pc).value % s.n
  {
    OwnedSlot(s, pc);
  }

  /** Thread `tid` is healthy, and its masked index is a slot, not merely below one_lap. */
  lemma ThreadInBounds(s: State, w: nat, k: nat, tid: nat)
    requires Inv(s) && Room(s.n, w, k, |s.log|) && tid < |s.threads|
    ensures var q := EncState(s, w, k); var pc := q.threads[tid];
      && !pc.Broken?
      && PositionOf(pc).Some? == PositionOf(s.threads[tid]).Some?
      && (PositionOf(pc).Some? ==>
            Words.Index(q, PositionOf(pc).value) == PositionOf(s.threads[tid]).value % s.n < s.n)
  {
    var pc := s.threads[tid];
    assert PcOk(s, pc);
    PositionEncoded(s.n, Pow2(k), pc);
    EncPcKind(s.n, Pow2(k), pc);
    if PositionOf(pc).Some? {
      PositionKnown(s, pc);
      TicketFits(s, w, k, PositionOf(pc).value);
      Position(EncState(s, w, k), PositionOf(pc).value);
    }
  }

  /** In every run: no thread is broken, and every unchecked buffer access, made with
      however stale a word, has its index below the capacity. */
  lemma MemorySafe(n: nat, w: nat, k: nat, threads: nat, sch: seq<Turn>, tid: nat)
    requires Room(n, w, k, |sch|) && tid < threads
    ensures var q := Exec(Words.New(n, w, k, threads), sch);
      && |q.threads| == threads && |q.slots| == n
      && !q.threads[tid].Broken?
      && (PositionOf(q.threads[tid]).Some? ==> Words.Index(q, PositionOf(q.threads[tid]).value) < n)
  {
    var s := Reached(n, w, k, threads, sch);
    ThreadInBounds(s, w, k, tid);
  }

  /** The ticket state behind a run of the queue. */
  lemma Reached(n: nat, w: nat, k: nat, threads: nat, sch: seq<Turn>) returns (s: State)
    requires Room(n, w, k, |sch|)
    ensures Inv(s) && s.n == n && |s.threads| == threads && Room(n, w, k, |s.log|) && |s.log| <= |sch|
    ensures Inv(Init(n, threads)) && s == Shadow(Init(n, threads), sch)
    ensures Exec(Words.New(n, w, k, threads), sch) == EncState(s, w, k)
  {
    InitInv(n, threads);
    NewIsEncoding(n, w, k, threads);
    RunLockstep(Init(n, threads), w, k, |sch|, sch);
    s := Shadow(Init(n, threads), sch);
    RoomShrinks(n, w, k, |s.log|, |sch|);
  }

  /** In every run at most one thread is between claiming a slot and storing its stamp,
      a force_push between its compare-exchange on `head` and its stamp store included. */
  lemma SlotsExclusive(n: nat, w: nat, k: nat, threads: nat, sch: seq<Turn>, a: nat, b: nat)
    requires Room(n, w, k, |sch|) && a < threads && b < threads && a != b
    ensures var q := Exec(Words.New(n, w, k, threads), sch);
      && |q.threads| == threads
      && (Holds(q.threads[a]) && Holds(q.threads[b]) ==>
            Words.Index(q, PositionOf(q.threads[a]).value) != Words.Index(q, PositionOf(q.threads[b]).value))
  {
    var s := Reached(n, w, k, threads, sch);
    var q := EncState(s, w, k);
    PositionEncoded(n, Pow2(k), s.threads[a]);
    PositionEncoded(n, Pow2(k), s.threads[b]);
    if Holds(q.threads[a]) && Holds(q.threads[b]) {
      assert PcOk(s, s.threads[a]) && PcOk(s, s.threads[b]);
      HolderOwns(s, s.threads[a]);
      HolderOwns(s, s.threads[b]);
      SlotOwnership(s, a, b);
      ThreadInBounds(s, w, k, a);
      ThreadInBounds(s, w, k, b);
    }
  }

  // ---- monotonicity ---------------------------------------------------------------------

  lemma PushEvolves(s: State, tid: nat, spurious: bool)
    requires CountersOk(s) && tid < |s.threads| && PcOk(s, s.threads[tid]) && Pushing(s.threads[tid])
    ensures Evolves(s, StepPush(s, tid, spurious))
  {
  }

  lemma ForceEvolves(s: State, tid: nat)
    requires CountersOk(s) && tid < |s.threads| && PcOk(s, s.threads[tid]) && Forcing(s.threads[tid])
    ensures Evolves(s, StepForce(s, tid))
  {
  }

  lemma PopEvolves(s: State, tid: nat, spurious: bool)
    requires CountersOk(s) && tid < |s.threads| && PcOk(s, s.threads[tid]) && Popping(s.threads[tid])
    ensures Evolves(s, StepPop(s, tid, spurious))
  {
  }

  lemma StepEvolves(s: State, tid: nat, act: Action)
    requires Inv(s)
    ensures Evolves(s, Step(s, tid, act).0)
  {
    if tid < |s.threads| && act.Run? {
      var pc := s.threads[tid];
      assert PcOk(s, pc);
      if Pushing(pc) {
        PushEvolves(s, tid, act.spurious);
      } else if Forcing(pc) {
        ForceEvolves(s, tid);
      } else if Popping(pc) {
        PopEvolves(s, tid, act.spurious);
      }
    }
  }

  predicate Forward(q: Words.Queue, q': Words.Queue) {
    && q.head <= q'.head && q.tail <= q'.tail
    && |q'.slots| == |q.slots|
    && forall i :: 0 <= i < |q.slots| ==> q.slots[i].stamp <= q'.slots[i].stamp
  }

  lemma EncForward(s: State, s': State, w: nat, k: nat)
    requires Words.Config(s.n, w, k) && Evolves(s, s')
    ensures Forward(EncState(s, w, k), EncState(s', w, k))
  {
    var lap := Pow2(k);
    EncMonotone(s.n, lap, s.head, s'.head);
    EncMonotone(s.n, lap, s.tail, s'.tail);
    forall i | 0 <= i < |s.slots|
      ensures EncState(s, w, k).slots[i].stamp <= EncState(s', w, k).slots[i].stamp
    {
      assert Later(s.slots[i].stamp, s'.slots[i].stamp);
      EncMonotone(s.n, lap, s.slots[i].stamp.ticket, s'.slots[i].stamp.ticket);
    }
  }

  lemma StepForward(s: State, w: nat, k: nat, turn: Turn)
    requires Inv(s) && Room(s.n, w, k, |s.log|)
    ensures Forward(EncState(s, w, k), Words.Step(EncState(s, w, k), turn.tid, turn.act).0)
  {
    StepEvolves(s, turn.tid, turn.act);
    TurnLockstep(s, w, k, |s.log|, turn);
    EncForward(s, Step(s, turn.tid, turn.act).0, w, k);
  }

  lemma CountersOrdered(s: State, w: nat, k: nat)
    requires CountersOk(s) && Words.Config(s.n, w, k)
    ensures EncState(s, w, k).head <= EncState(s, w, k).tail <= EncState(s, w, k).head + Pow2(k)
  {
    EncMonotone(s.n, Pow2(k), s.head, s.tail);
    EncMonotone(s.n, Pow2(k), s.tail, s.head + s.n);
    EncLap(s.n, Pow2(k), s.head);
  }

  /** In every run each step moves `head`, `tail` and every stamp forward or not at all, and
      `head <= tail <= head + one_lap` throughout. */
  lemma CountersAdvance(n: nat, w: nat, k: nat, threads: nat, sch: seq<Turn>, turn: Turn)
    requires Room(n, w, k, |sch|)
    ensures Forward(Exec(Words.New(n, w, k, threads), sch), Exec(Words.New(n, w, k, threads), sch + [turn]))
    ensures var q := Exec(Words.New(n, w, k, threads), sch); q.head <= q.tail <= q.head + Pow2(k)
  {
    var s := Reached(n, w, k, threads, sch);
    StepForward(s, w, k, turn);
    TraceGrows(Words.New(n, w, k, threads), sch, turn);
    CountersOrdered(s, w, k);
  }

  /** A stamp of slot i: a ticket of this slot, free for it or published by it. */
  ghost predicate StampOfTicket(n: nat, lap: nat, stamp: nat, i: nat)
    requires 0 < n < lap
  {
    exists p: nat :: p % n == i && (stamp == Enc(n, lap, p) || stamp == Enc(n, lap, p) + 1)
  }

  ghost predicate HoldsTickets(q: Words.Queue, n: nat, lap: nat, h: nat, t: nat)
    requires 0 < n < lap
  {
    && q.head == Enc(n, lap, h) && q.tail == Enc(n, lap, t) && h <= t <= h + n
    && forall i :: 0 <= i < |q.slots| ==> StampOfTicket(n, lap, q.slots[i].stamp, i)
  }

  /** In every run `head`, `tail` and all stamps encode tickets, and head <= tail <= head + N in tickets. */
  lemma CountersAreTickets(n: nat, w: nat, k: nat, threads: nat, sch: seq<Turn>)
    requires Room(n, w, k, |sch|)
    ensures exists h, t :: HoldsTickets(Exec(Words.New(n, w, k, threads), sch), n, Pow2(k), h, t)
  {
    var s := Reached(n, w, k, threads, sch);
    var q, lap := EncState(s, w, k), Pow2(k);
    forall i | 0 <= i < |q.slots| ensures StampOfTicket(n, lap, q.slots[i].stamp, i) {
      assert SlotOk(s, i);
      assert s.slots[i].stamp.ticket % n == i;
    }
    assert HoldsTickets(q, n, lap, s.head, s.tail);
  }
}

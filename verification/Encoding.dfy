/** The word machine runs in lockstep with the ticket machine: as long as the counters have
    not used up the word, each state of the one is the encoding of a state of the other,
    so every masked index is a slot of the buffer and every comparison of words decides the
    question about tickets that it stands for, however stale the word. */
module Encoding {
  import opened Options
  import opened Arithmetic
  import opened Bits
  import opened Laps
  import opened Fifo
  import opened Tickets
  import opened TicketInvariant
  import opened TicketSteps
  import Words

  function EncPc(n: nat, lap: nat, pc: Pc): Pc
    requires 0 < n < lap
  {
    match pc
    case PushStamp(op, t) => PushStamp(op, Enc(n, lap, t))
    case PushCas(op, t) => PushCas(op, Enc(n, lap, t))
    case PushWrite(op, t) => PushWrite(op, Enc(n, lap, t))
    case PushPublish(op, t) => PushPublish(op, Enc(n, lap, t))
    case PushFull(op, t) => PushFull(op, Enc(n, lap, t))
    case ForceTail(op, t) => ForceTail(op, Enc(n, lap, t))
    case ForceSwap(op, t) => ForceSwap(op, Enc(n, lap, t))
    case ForcePublish(op, t, prev) => ForcePublish(op, Enc(n, lap, t), prev)
    case PopStamp(h) => PopStamp(Enc(n, lap, h))
    case PopCas(h) => PopCas(Enc(n, lap, h))
    case PopRead(h) => PopRead(Enc(n, lap, h))
    case PopFree(h, v) => PopFree(Enc(n, lap, h), v)
    case PopTail(h) => PopTail(Enc(n, lap, h))
    case LenHead(t) => LenHead(Enc(n, lap, t))
    case LenAgain(t, h) => LenAgain(Enc(n, lap, t), Enc(n, lap, h))
    case EmptyTail(h) => EmptyTail(Enc(n, lap, h))
    case FullHead(t) => FullHead(Enc(n, lap, t))
    case _ => pc
  }

  function EncSlot(n: nat, lap: nat, slot: Slot): Words.WordSlot
    requires 0 < n < lap
  {
    Words.WordSlot(StampWord(n, lap, slot.stamp.ticket, slot.stamp.full), slot.cell)
  }

  function EncState(s: State, w: nat, k: nat): Words.Queue
    requires Words.Config(s.n, w, k)
  {
    var lap := Pow2(k);
    Words.Queue(s.n, w, k, Enc(s.n, lap, s.head), Enc(s.n, lap, s.tail),
                seq(|s.slots|, i requires 0 <= i < |s.slots| => EncSlot(s.n, lap, s.slots[i])),
                seq(|s.threads|, i requires 0 <= i < |s.threads| => EncPc(s.n, lap, s.threads[i])))
  }

  /** The word has room for the tickets handed out so far and two more laps. */
  predicate Room(n: nat, w: nat, k: nat, issued: nat) {
    Words.Config(n, w, k) && Enc(n, Pow2(k), issued) + 2 * Pow2(k) < Pow2(w)
  }

  // ---- positions ---------------------------------------------------------------------

  lemma Position(q: Words.Queue, p: nat)
    requires Words.Config(q.n, q.w, q.k)
    requires Enc(q.n, Pow2(q.k), p) + Pow2(q.k) < Pow2(q.w)
    ensures Words.Index(q, Enc(q.n, Pow2(q.k), p)) == p % q.n < q.n
    ensures Words.NextPos(q, Enc(q.n, Pow2(q.k), p)) == Enc(q.n, Pow2(q.k), p + 1)
    ensures Words.Wrap(q, Enc(q.n, Pow2(q.k), p) + Pow2(q.k)) == Enc(q.n, Pow2(q.k), p + q.n)
  {
    var lap, e := Pow2(q.k), Enc(q.n, Pow2(q.k), p);
    EncParts(q.n, lap, p);
    DivisionParts(q.n, p);
    Masks(q.w, q.k, e);
    EncNext(q.n, lap, p);
    EncLap(q.n, lap, p);
    SlotOfSmall(Pow2(q.w), e + lap);
    DivisionParts(lap, e);
    SlotOfSmall(Pow2(q.w), e - e % lap + lap);
  }

  lemma PositionBack(q: Words.Queue, p: nat)
    requires Words.Config(q.n, q.w, q.k) && p >= q.n
    ensures Words.WrapSub(q, Enc(q.n, Pow2(q.k), p), Pow2(q.k)) == Enc(q.n, Pow2(q.k), p - q.n)
  {
    EncLap(q.n, Pow2(q.k), p - q.n);
  }

  /** Every ticket in play has a word, and so do the positions up to a lap beyond it. */
  lemma TicketFits(s: State, w: nat, k: nat, p: nat)
    requires Room(s.n, w, k, |s.log|) && p <= |s.log|
    ensures Enc(s.n, Pow2(k), p) + 2 * Pow2(k) < Pow2(w)
  {
    EncMonotone(s.n, Pow2(k), p, |s.log|);
  }

  lemma StampFits(s: State, w: nat, k: nat, i: nat)
    requires CountersOk(s) && SlotsOk(s) && Room(s.n, w, k, |s.log|) && i < s.n
    ensures StampWord(s.n, Pow2(k), s.slots[i].stamp.ticket, s.slots[i].stamp.full) + Pow2(k) < Pow2(w)
  {
    var lap, q := Pow2(k), s.slots[i].stamp.ticket;
    assert SlotOk(s, i);
    EncMonotone(s.n, lap, s.head, |s.log|);
    EncMonotone(s.n, lap, q, s.head + s.n);
    EncLap(s.n, lap, s.head);
  }

  // ---- encoding commutes with the updates -----------------------------------------------

  lemma EncWithPc(s: State, w: nat, k: nat, tid: nat, pc: Pc)
    requires Words.Config(s.n, w, k) && tid < |s.threads|
    ensures EncState(SetPc(s, tid, pc), w, k) == Words.WithPc(EncState(s, w, k), tid, EncPc(s.n, Pow2(k), pc))
  {
    assert EncState(SetPc(s, tid, pc), w, k).slots == EncState(s, w, k).slots;
    assert EncState(SetPc(s, tid, pc), w, k).threads
        == EncState(s, w, k).threads[tid := EncPc(s.n, Pow2(k), pc)];
  }

  lemma EncWithSlot(s: State, w: nat, k: nat, i: nat, slot: Slot)
    requires Words.Config(s.n, w, k) && i < |s.slots|
    ensures EncState(SetSlot(s, i, slot), w, k)
         == Words.WithSlot(EncState(s, w, k), i, EncSlot(s.n, Pow2(k), slot))
  {
    assert EncState(SetSlot(s, i, slot), w, k).threads == EncState(s, w, k).threads;
    assert EncState(SetSlot(s, i, slot), w, k).slots == EncState(s, w, k).slots[i := EncSlot(s.n, Pow2(k), slot)];
  }

  lemma EncWithCounters(s: State, w: nat, k: nat, head: nat, tail: nat, log: seq<Value>)
    requires Words.Config(s.n, w, k)
    ensures EncState(s.(head := head, tail := tail, log := log), w, k)
         == EncState(s, w, k).(head := Enc(s.n, Pow2(k), head), tail := Enc(s.n, Pow2(k), tail))
  {
    var s' := s.(head := head, tail := tail, log := log);
    assert EncState(s', w, k).threads == EncState(s, w, k).threads;
    assert EncState(s', w, k).slots == EncState(s, w, k).slots;
  }

  // ---- loads ---------------------------------------------------------------------------

  lemma LoadSlot(s: State, w: nat, k: nat, p: nat)
    requires CountersOk(s) && SlotsOk(s) && Room(s.n, w, k, |s.log|) && p <= |s.log|
    ensures var q := EncState(s, w, k); var e := Enc(s.n, Pow2(k), p);
      && Words.Index(q, e) == p % s.n < |q.slots|
      && q.slots[Words.Index(q, e)] == EncSlot(s.n, Pow2(k), s.slots[p % s.n])
      && Words.Wrap(q, q.slots[p % s.n].stamp + Pow2(k)) == q.slots[p % s.n].stamp + Pow2(k)
  {
    TicketFits(s, w, k, p);
    Position(EncState(s, w, k), p);
    StampFits(s, w, k, p % s.n);
    SlotOfSmall(Pow2(w), EncState(s, w, k).slots[p % s.n].stamp + Pow2(k));
  }

  lemma PushStampLockstep(s: State, w: nat, k: nat, pc: Pc)
    requires CountersOk(s) && SlotsOk(s) && PcOk(s, pc) && Room(s.n, w, k, |s.log|) && pc.PushStamp?
    ensures Words.PushLoad(EncState(s, w, k), EncPc(s.n, Pow2(k), pc)) == EncPc(s.n, Pow2(k), PushLoad(s, pc))
  {
    var st := StampOf(s, pc.t);
    LoadSlot(s, w, k, pc.t);
    assert SlotOk(s, pc.t % s.n);
    StampTests(s.n, Pow2(k), pc.t, st.ticket, st.full);
  }

  lemma PushLoadLockstep(s: State, w: nat, k: nat, pc: Pc)
    requires CountersOk(s) && SlotsOk(s) && PcOk(s, pc) && Room(s.n, w, k, |s.log|)
    requires pc.PushTail? || pc.PushStamp?
    ensures Words.PushLoad(EncState(s, w, k), EncPc(s.n, Pow2(k), pc)) == EncPc(s.n, Pow2(k), PushLoad(s, pc))
  {
    if pc.PushStamp? {
      PushStampLockstep(s, w, k, pc);
    }
  }

  lemma PopStampLockstep(s: State, w: nat, k: nat, pc: Pc)
    requires CountersOk(s) && SlotsOk(s) && PcOk(s, pc) && Room(s.n, w, k, |s.log|) && pc.PopStamp?
    ensures Words.PopLoad(EncState(s, w, k), EncPc(s.n, Pow2(k), pc)) == EncPc(s.n, Pow2(k), PopLoad(s, pc))
  {
    var st := StampOf(s, pc.h);
    LoadSlot(s, w, k, pc.h);
    assert SlotOk(s, pc.h % s.n);
    StampTests(s.n, Pow2(k), pc.h, st.ticket, st.full);
  }

  lemma PopLoadLockstep(s: State, w: nat, k: nat, pc: Pc)
    requires CountersOk(s) && SlotsOk(s) && PcOk(s, pc) && Room(s.n, w, k, |s.log|)
    requires pc.PopHead? || pc.PopStamp? || pc.PopTail?
    ensures Words.PopLoad(EncState(s, w, k), EncPc(s.n, Pow2(k), pc)) == EncPc(s.n, Pow2(k), PopLoad(s, pc))
  {
    if pc.PopStamp? {
      PopStampLockstep(s, w, k, pc);
    } else if pc.PopTail? {
      EncInjective(s.n, Pow2(k), s.tail, pc.h);
    }
  }

  lemma CountLockstep(s: State, w: nat, k: nat, t: nat, h: nat)
    requires CountersOk(s) && SlotsOk(s) && Room(s.n, w, k, |s.log|) && t <= |s.log| && h <= |s.log|
    ensures Words.CountOf(EncState(s, w, k), Enc(s.n, Pow2(k), t), Enc(s.n, Pow2(k), h)) == Count(s.n, t, h)
  {
    LoadSlot(s, w, k, t);
    LoadSlot(s, w, k, h);
    EncInjective(s.n, Pow2(k), t, h);
  }

  lemma LenLockstep(s: State, w: nat, k: nat, pc: Pc)
    requires CountersOk(s) && SlotsOk(s) && PcOk(s, pc) && Room(s.n, w, k, |s.log|) && pc.LenAgain?
    ensures Words.Observe(EncState(s, w, k), EncPc(s.n, Pow2(k), pc)) == EncPc(s.n, Pow2(k), Observe(s, pc))
  {
    EncInjective(s.n, Pow2(k), s.tail, pc.t);
    CountLockstep(s, w, k, pc.t, pc.h);
  }

  lemma FlagLockstep(s: State, w: nat, k: nat, p: nat)
    requires CountersOk(s) && Room(s.n, w, k, |s.log|)
    ensures EncState(s, w, k).tail == Enc(s.n, Pow2(k), p) <==> s.tail == p
    ensures Words.Wrap(EncState(s, w, k), EncState(s, w, k).head + Pow2(k)) == Enc(s.n, Pow2(k), p)
      <==> s.head + s.n == p
  {
    EncInjective(s.n, Pow2(k), s.tail, p);
    TicketFits(s, w, k, s.head);
    Position(EncState(s, w, k), s.head);
    EncInjective(s.n, Pow2(k), s.head + s.n, p);
  }

  lemma ObserveLockstep(s: State, w: nat, k: nat, pc: Pc)
    requires CountersOk(s) && SlotsOk(s) && PcOk(s, pc) && Room(s.n, w, k, |s.log|)
    requires Observing(pc)
    ensures Words.Observe(EncState(s, w, k), EncPc(s.n, Pow2(k), pc)) == EncPc(s.n, Pow2(k), Observe(s, pc))
  {
    if pc.LenAgain? {
      LenLockstep(s, w, k, pc);
    } else {
      OtherObserversLockstep(s, w, k, pc);
    }
  }

  lemma OtherObserversLockstep(s: State, w: nat, k: nat, pc: Pc)
    requires CountersOk(s) && Room(s.n, w, k, |s.log|) && Observing(pc) && !pc.LenAgain?
    ensures Words.Observe(EncState(s, w, k), EncPc(s.n, Pow2(k), pc)) == EncPc(s.n, Pow2(k), Observe(s, pc))
  {
    if pc.EmptyTail? || pc.FullHead? {
      FlagAnswersLockstep(s, w, k, pc);
    }
  }

  lemma FlagAnswersLockstep(s: State, w: nat, k: nat, pc: Pc)
    requires CountersOk(s) && Room(s.n, w, k, |s.log|) && (pc.EmptyTail? || pc.FullHead?)
    ensures Words.Observe(EncState(s, w, k), EncPc(s.n, Pow2(k), pc)) == EncPc(s.n, Pow2(k), Observe(s, pc))
  {
    if pc.EmptyTail? {
      FlagLockstep(s, w, k, pc.h);
    } else {
      FlagLockstep(s, w, k, pc.t);
    }
  }

  // ---- steps ---------------------------------------------------------------------------

  lemma CasTailLockstep(s: State, w: nat, k: nat, tid: nat, spurious: bool)
    requires CountersOk(s) && SlotsOk(s) && Room(s.n, w, k, |s.log|)
    requires tid < |s.threads| && s.threads[tid].PushCas? && PcOk(s, s.threads[tid])
    ensures Words.StepPush(EncState(s, w, k), tid, spurious) == EncState(StepPush(s, tid, spurious), w, k)
  {
    var q, lap := EncState(s, w, k), Pow2(k);
    var PushCas(op, t) := s.threads[tid];
    EncInjective(s.n, lap, s.tail, t);
    if !spurious && s.tail == t {
      TicketFits(s, w, k, t);
      Position(q, t);
      EncWithCounters(s, w, k, s.head, t + 1, s.log + [op.item]);
      EncWithPc(s.(head := s.head, tail := t + 1, log := s.log + [op.item]), w, k, tid, PushWrite(op, t));
    } else {
      EncWithPc(s, w, k, tid, PushStamp(op, s.tail));
    }
  }

  lemma CasOverwriteLockstep(s: State, w: nat, k: nat, tid: nat, spurious: bool)
    requires CountersOk(s) && SlotsOk(s) && Room(s.n, w, k, |s.log|)
    requires tid < |s.threads| && s.threads[tid].PushFull? && PcOk(s, s.threads[tid])
    ensures Words.StepPush(EncState(s, w, k), tid, spurious) == EncState(StepPush(s, tid, spurious), w, k)
  {
    var q, lap := EncState(s, w, k), Pow2(k);
    var PushFull(op, t) := s.threads[tid];
    FlagLockstep(s, w, k, t);
    PositionBack(q, t);
    EncInjective(s.n, lap, s.head, t - s.n);
    if op.Push? {
      EncWithPc(s, w, k, tid, if s.head + s.n == t then Reply(op, Full(op.item)) else PushTail(op));
    } else if !spurious && s.head + s.n == t {
      TicketFits(s, w, k, t);
      Position(q, t);
      PositionBack(q, t + 1);
      EncWithCounters(s, w, k, s.head + 1, s.tail, s.log + [op.item]);
      EncWithPc(s.(head := s.head + 1, tail := s.tail, log := s.log + [op.item]), w, k, tid, ForceTail(op, t));
    } else {
      EncWithPc(s, w, k, tid, PushTail(op));
    }
  }

  /** A step of a slot's owner: the cell or the stamp of ticket p's slot, and the thread. */
  lemma OwnerLockstep(s: State, w: nat, k: nat, tid: nat, p: nat, slot: Slot, pc: Pc)
    requires CountersOk(s) && SlotsOk(s) && Room(s.n, w, k, |s.log|) && tid < |s.threads| && p <= |s.log|
    ensures var q := EncState(s, w, k); var e := Enc(s.n, Pow2(k), p);
      && Words.Index(q, e) == p % s.n < |q.slots|
      && q.slots[p % s.n] == EncSlot(s.n, Pow2(k), s.slots[p % s.n])
      && EncState(SetPc(SetSlot(s, p % s.n, slot), tid, pc), w, k)
         == Words.WithPc(Words.WithSlot(q, p % s.n, EncSlot(s.n, Pow2(k), slot)), tid, EncPc(s.n, Pow2(k), pc))
  {
    LoadSlot(s, w, k, p);
    EncWithSlot(s, w, k, p % s.n, slot);
    EncWithPc(SetSlot(s, p % s.n, slot), w, k, tid, pc);
  }

  lemma PushLockstep(s: State, w: nat, k: nat, tid: nat, spurious: bool)
    requires CountersOk(s) && SlotsOk(s) && Room(s.n, w, k, |s.log|)
    requires tid < |s.threads| && Pushing(s.threads[tid]) && PcOk(s, s.threads[tid])
    ensures Words.StepPush(EncState(s, w, k), tid, spurious) == EncState(StepPush(s, tid, spurious), w, k)
  {
    var pc := s.threads[tid];
    if pc.PushTail? || pc.PushStamp? {
      PushLoadLockstep(s, w, k, pc);
      EncWithPc(s, w, k, tid, PushLoad(s, pc));
    } else if pc.PushCas? {
      CasTailLockstep(s, w, k, tid, spurious);
    } else if pc.PushFull? {
      CasOverwriteLockstep(s, w, k, tid, spurious);
    } else if pc.PushWrite? {
      OwnerLockstep(s, w, k, tid, pc.t, Slot(StampOf(s, pc.t), Some(pc.op.item)), PushPublish(pc.op, pc.t));
    } else {
      OwnerLockstep(s, w, k, tid, pc.t, Slot(Stamp(pc.t, true), CellOf(s, pc.t)), Reply(pc.op, Pushed));
    }
  }

  lemma StoreTailLockstep(s: State, w: nat, k: nat, tid: nat)
    requires CountersOk(s) && SlotsOk(s) && Room(s.n, w, k, |s.log|)
    requires tid < |s.threads| && s.threads[tid].ForceTail? && PcOk(s, s.threads[tid])
    ensures Words.StepForce(EncState(s, w, k), tid) == EncState(StepForce(s, tid), w, k)
  {
    var ForceTail(op, t) := s.threads[tid];
    TicketFits(s, w, k, t);
    Position(EncState(s, w, k), t);
    EncWithCounters(s, w, k, s.head, t + 1, s.log);
    EncWithPc(s.(head := s.head, tail := t + 1, log := s.log), w, k, tid, ForceSwap(op, t));
  }

  lemma SwapLockstep(s: State, w: nat, k: nat, tid: nat)
    requires Inv(s) && Room(s.n, w, k, |s.log|) && tid < |s.threads| && s.threads[tid].ForceSwap?
    ensures Words.StepForce(EncState(s, w, k), tid) == EncState(StepForce(s, tid), w, k)
  {
    var ForceSwap(op, t) := s.threads[tid];
    SwapValue(s, tid, op, t);
    OwnerLockstep(s, w, k, tid, t, Slot(StampOf(s, t), Some(op.item)), ForcePublish(op, t, s.log[t - s.n]));
  }

  lemma PublishSwappedLockstep(s: State, w: nat, k: nat, tid: nat)
    requires CountersOk(s) && SlotsOk(s) && Room(s.n, w, k, |s.log|)
    requires tid < |s.threads| && s.threads[tid].ForcePublish? && PcOk(s, s.threads[tid])
    ensures Words.StepForce(EncState(s, w, k), tid) == EncState(StepForce(s, tid), w, k)
  {
    var ForcePublish(op, t, prev) := s.threads[tid];
    OwnerLockstep(s, w, k, tid, t, Slot(Stamp(t, true), CellOf(s, t)), Reply(op, Displaced(prev)));
  }

  lemma CasHeadLockstep(s: State, w: nat, k: nat, tid: nat, spurious: bool)
    requires CountersOk(s) && SlotsOk(s) && Room(s.n, w, k, |s.log|)
    requires tid < |s.threads| && s.threads[tid].PopCas? && PcOk(s, s.threads[tid])
    ensures Words.StepPop(EncState(s, w, k), tid, spurious) == EncState(StepPop(s, tid, spurious), w, k)
  {
    var h := s.threads[tid].h;
    EncInjective(s.n, Pow2(k), s.head, h);
    if !spurious && s.head == h {
      assert Words.NextPos(EncState(s, w, k), Enc(s.n, Pow2(k), h)) == Enc(s.n, Pow2(k), h + 1) by {
        TicketFits(s, w, k, h);
        Position(EncState(s, w, k), h);
      }
      EncWithCounters(s, w, k, h + 1, s.tail, s.log);
      EncWithPc(s.(head := h + 1, tail := s.tail, log := s.log), w, k, tid, PopRead(h));
    } else {
      EncWithPc(s, w, k, tid, PopStamp(s.head));
    }
  }

  lemma ReadLockstep(s: State, w: nat, k: nat, tid: nat, spurious: bool)
    requires CountersOk(s) && SlotsOk(s) && Room(s.n, w, k, |s.log|)
    requires tid < |s.threads| && s.threads[tid].PopRead? && PcOk(s, s.threads[tid])
    ensures Words.StepPop(EncState(s, w, k), tid, spurious) == EncState(StepPop(s, tid, spurious), w, k)
  {
    var h := s.threads[tid].h;
    OwnerLockstep(s, w, k, tid, h, Slot(StampOf(s, h), None), PopFree(h, s.log[h]));
  }

  lemma FreedStamp(s: State, w: nat, k: nat, h: nat, cell: Option<Value>)
    requires CountersOk(s) && SlotsOk(s) && Room(s.n, w, k, |s.log|) && h < |s.log|
    ensures EncSlot(s.n, Pow2(k), Slot(Stamp(h + s.n, false), cell)).stamp
         == Words.Wrap(EncState(s, w, k), Enc(s.n, Pow2(k), h) + Pow2(k))
  {
    TicketFits(s, w, k, h);
    Position(EncState(s, w, k), h);
  }

  lemma FreeLockstep(s: State, w: nat, k: nat, tid: nat, spurious: bool)
    requires CountersOk(s) && SlotsOk(s) && Room(s.n, w, k, |s.log|)
    requires tid < |s.threads| && s.threads[tid].PopFree? && PcOk(s, s.threads[tid])
    ensures Words.StepPop(EncState(s, w, k), tid, spurious) == EncState(StepPop(s, tid, spurious), w, k)
  {
    var PopFree(h, v) := s.threads[tid];
    var next := Slot(Stamp(h + s.n, false), CellOf(s, h));
    assert StepPop(s, tid, spurious) == SetPc(SetSlot(s, h % s.n, next), tid, Reply(Pop, Popped(v)));
    FreedStamp(s, w, k, h, CellOf(s, h));
    OwnerLockstep(s, w, k, tid, h, next, Reply(Pop, Popped(v)));
  }

  lemma PopLoadsLockstep(s: State, w: nat, k: nat, tid: nat, spurious: bool)
    requires CountersOk(s) && SlotsOk(s) && Room(s.n, w, k, |s.log|) && tid < |s.threads| && PcOk(s, s.threads[tid])
    requires s.threads[tid].PopHead? || s.threads[tid].PopStamp? || s.threads[tid].PopTail?
    ensures Words.StepPop(EncState(s, w, k), tid, spurious) == EncState(StepPop(s, tid, spurious), w, k)
  {
    PopLoadLockstep(s, w, k, s.threads[tid]);
    EncWithPc(s, w, k, tid, PopLoad(s, s.threads[tid]));
  }

  lemma ForceLockstep(s: State, w: nat, k: nat, tid: nat)
    requires Inv(s) && Room(s.n, w, k, |s.log|) && tid < |s.threads| && Forcing(s.threads[tid])
    ensures Words.StepForce(EncState(s, w, k), tid) == EncState(StepForce(s, tid), w, k)
  {
    assert PcOk(s, s.threads[tid]);
    if s.threads[tid].ForceTail? {
      StoreTailLockstep(s, w, k, tid);
    } else if s.threads[tid].ForceSwap? {
      SwapLockstep(s, w, k, tid);
    } else {
      PublishSwappedLockstep(s, w, k, tid);
    }
  }

  lemma PopLockstep(s: State, w: nat, k: nat, tid: nat, spurious: bool)
    requires CountersOk(s) && SlotsOk(s) && Room(s.n, w, k, |s.log|)
    requires tid < |s.threads| && Popping(s.threads[tid]) && PcOk(s, s.threads[tid])
    ensures Words.StepPop(EncState(s, w, k), tid, spurious) == EncState(StepPop(s, tid, spurious), w, k)
  {
    if s.threads[tid].PopCas? {
      CasHeadLockstep(s, w, k, tid, spurious);
    } else if s.threads[tid].PopRead? {
      ReadLockstep(s, w, k, tid, spurious);
    } else if s.threads[tid].PopFree? {
      FreeLockstep(s, w, k, tid, spurious);
    } else {
      PopLoadsLockstep(s, w, k, tid, spurious);
    }
  }

  lemma EncPcKind(n: nat, lap: nat, pc: Pc)
    requires 0 < n < lap
    ensures Pushing(EncPc(n, lap, pc)) == Pushing(pc) && Forcing(EncPc(n, lap, pc)) == Forcing(pc)
    ensures Popping(EncPc(n, lap, pc)) == Popping(pc) && Observing(EncPc(n, lap, pc)) == Observing(pc)
    ensures pc.Reply? || pc.Rest? ==> EncPc(n, lap, pc) == pc
    ensures EncPc(n, lap, pc).Reply? == pc.Reply? && EncPc(n, lap, pc).Rest? == pc.Rest?
    ensures EncPc(n, lap, pc).Broken? == pc.Broken?
  {
  }

  /** One step of the code is one step on tickets, seen through the encoding. */
  lemma Lockstep(s: State, w: nat, k: nat, tid: nat, act: Action)
    requires Inv(s) && Room(s.n, w, k, |s.log|)
    ensures Step(s, tid, act).0.n == s.n
    ensures Words.Step(EncState(s, w, k), tid, act)
         == (EncState(Step(s, tid, act).0, w, k), Step(s, tid, act).1)
  {
    if tid < |s.threads| {
      var pc := s.threads[tid];
      EncPcKind(s.n, Pow2(k), pc);
      match act
      case Start(op) => EncWithPc(s, w, k, tid, Entry(op));
      case Run(spurious) =>
        if pc.Reply? {
          EncWithPc(s, w, k, tid, Rest);
        } else {
          AdvanceLockstep(s, w, k, tid, spurious);
        }
    }
  }

  lemma AdvanceLockstep(s: State, w: nat, k: nat, tid: nat, spurious: bool)
    requires Inv(s) && Room(s.n, w, k, |s.log|) && tid < |s.threads|
    ensures Advance(s, tid, spurious).n == s.n
    ensures Words.Advance(EncState(s, w, k), tid, spurious) == EncState(Advance(s, tid, spurious), w, k)
  {
    var pc := s.threads[tid];
    EncPcKind(s.n, Pow2(k), pc);
    assert PcOk(s, pc);
    if Pushing(pc) {
      PushLockstep(s, w, k, tid, spurious);
    } else if Forcing(pc) {
      ForceLockstep(s, w, k, tid);
    } else if Popping(pc) {
      PopLockstep(s, w, k, tid, spurious);
    } else if Observing(pc) {
      ObserveLockstep(s, w, k, pc);
      EncWithPc(s, w, k, tid, Observe(s, pc));
    }
  }
}

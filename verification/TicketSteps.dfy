/** Every step of the ticket machine preserves the invariant.  One lemma per kind of
    step; each names what the step changes and why nobody else notices. */
module TicketSteps {
  import opened Options
  import opened Arithmetic
  import opened Fifo
  import opened Tickets
  import opened TicketInvariant

  // ---- frames --------------------------------------------------------------------

  /** The shared state only moves forward. */
  predicate Evolves(s: State, s': State) {
    && s.n > 0 && s'.n == s.n
    && |s.slots| == |s'.slots| == s.n
    && s.head <= s'.head && s.tail <= s'.tail
    && s.log <= s'.log
    && (forall i :: 0 <= i < s.n ==> Later(s.slots[i].stamp, s'.slots[i].stamp))
  }

  predicate Later(a: Stamp, b: Stamp) {
    b.ticket > a.ticket || (b.ticket == a.ticket && (a.full ==> b.full))
  }

  /** What a thread that owns a slot relies on: its slot is untouched, `head` does not
      pass the ticket it has yet to publish, and nobody claims the ticket one lap on. */
  predicate Undisturbed(s: State, s': State, pc: Pc)
    requires Evolves(s, s')
  {
    && (Owns(s.n, pc) ==> s'.slots[OwnedTicket(s.n, pc) % s.n] == s.slots[OwnedTicket(s.n, pc) % s.n])
    && (Producing(pc).Some? ==> s'.head <= Producing(pc).value)
    && (Forcing(pc) ==> s'.head <= pc.t)
    && (pc.ForceTail? ==> s'.tail == s.tail && s'.log == s.log)
    && (pc.PopRead? || pc.PopFree? ==> |s'.log| <= pc.h + s.n)
  }

  lemma BystanderOk(s: State, s': State, pc: Pc)
    requires CountersOk(s) && PcOk(s, pc)
    requires Evolves(s, s') && Undisturbed(s, s', pc)
    ensures PcOk(s', pc)
  {
    match pc
    case ForceTail(_, t) => SlotOfNextLap(s.n, t - s.n);
    case ForceSwap(_, t) => SlotOfNextLap(s.n, t - s.n);
    case ForcePublish(_, t, _) => SlotOfNextLap(s.n, t - s.n);
    case _ =>
  }

  /** The other threads keep their part of the invariant when none of them is disturbed. */
  lemma BystandersOk(s: State, s': State, tid: nat)
    requires CountersOk(s) && PcsOk(s) && Evolves(s, s')
    requires tid < |s.threads| == |s'.threads|
    requires forall a :: 0 <= a < |s.threads| && a != tid ==> s'.threads[a] == s.threads[a]
    requires forall a :: 0 <= a < |s.threads| && a != tid ==> Undisturbed(s, s', s.threads[a])
    requires PcOk(s', s'.threads[tid])
    ensures PcsOk(s')
  {
    forall a | 0 <= a < |s'.threads| ensures PcOk(s', s'.threads[a]) {
      if a != tid {
        BystanderOk(s, s', s.threads[a]);
      }
    }
  }

  /** Ownership stays exclusive when the thread that moves owns what it owned, or less. */
  lemma ExclusiveKept(s: State, s': State, tid: nat)
    requires Exclusive(s) && tid < |s.threads| == |s'.threads| && s'.n == s.n
    requires forall a :: 0 <= a < |s.threads| && a != tid ==> s'.threads[a] == s.threads[a]
    requires Producing(s'.threads[tid]) in {None, Producing(s.threads[tid])}
    requires Consuming(s.n, s'.threads[tid]) in {None, Consuming(s.n, s.threads[tid])}
    ensures Exclusive(s')
  {
    forall a, b | 0 <= a < b < |s'.threads| ensures Apart(s'.n, s'.threads[a], s'.threads[b]) {
      assert Apart(s.n, s.threads[a], s.threads[b]);
    }
  }

  /** A slot that did not change is as good as before if `head` and `log` did not move
      past its ticket. */
  lemma SlotKept(s: State, s': State, i: nat)
    requires CountersOk(s) && Evolves(s, s') && i < s.n && SlotOk(s, i)
    requires s'.slots[i] == s.slots[i] || (s.slots[i].stamp.full && s.slots[i].stamp.ticket < s.head
                                           && s'.slots[i].stamp == s.slots[i].stamp)
    ensures SlotOk(s', i)
  {
  }

  /** A step that touches no shared variable and neither takes nor gives up a slot. */
  lemma LocalStep(s: State, tid: nat, pc: Pc)
    requires Inv(s) && tid < |s.threads|
    requires !Owns(s.n, s.threads[tid]) && !Owns(s.n, pc) && PcOk(s, pc)
    requires !s.threads[tid].ForceTail?
    ensures Inv(SetPc(s, tid, pc))
  {
    var s' := SetPc(s, tid, pc);
    forall a | 0 <= a < |s.threads| && a != tid ensures Undisturbed(s, s', s.threads[a]) {
      assert PcOk(s, s.threads[a]);
    }
    BystandersOk(s, s', tid);
    ExclusiveKept(s, s', tid);
    forall i | 0 <= i < |s'.slots| ensures SlotOk(s', i) && HeldAt(s, s', tid, i) {
      assert SlotOk(s, i);
      SlotKept(s, s', i);
    }
    HeldKept(s, s', tid);
  }

  /** Slot i is settled, held by the thread that moved, or held by another thread as before. */
  predicate HeldAt(s: State, s': State, tid: nat, i: nat)
    requires tid < |s.threads| == |s'.threads| && i < |s.slots| == |s'.slots|
  {
    var st, st' := s.slots[i].stamp, s'.slots[i].stamp;
    && (!st'.full && st'.ticket < |s'.log| ==>
          || Producing(s'.threads[tid]) == Some(st'.ticket)
          || (st' == st && st.ticket < |s.log| && Producing(s.threads[tid]) != Some(st.ticket)))
    && (st'.full && st'.ticket < s'.head ==>
          || Consuming(s'.n, s'.threads[tid]) == Some(st'.ticket)
          || (st' == st && st.ticket < s.head && Consuming(s.n, s.threads[tid]) != Some(st.ticket)))
  }

  lemma HeldKept(s: State, s': State, tid: nat)
    requires Held(s) && tid < |s.threads| == |s'.threads| && |s.slots| == |s'.slots| && s.n == s'.n
    requires forall a :: 0 <= a < |s.threads| && a != tid ==> s'.threads[a] == s.threads[a]
    requires forall i :: 0 <= i < |s.slots| ==> HeldAt(s, s', tid, i)
    requires |s'.log| > s'.tail ==>
      s'.threads[tid].ForceTail? || (|s.log| > s.tail && !s.threads[tid].ForceTail?)
    ensures Held(s')
  {
    if |s'.log| > s'.tail && !s'.threads[tid].ForceTail? {
      var a :| 0 <= a < |s.threads| && s.threads[a].ForceTail?;
      assert s'.threads[a].ForceTail?;
    }
    forall i | 0 <= i < |s'.slots| ensures SlotHeld(s', i) {
      assert SlotHeld(s, i) && HeldAt(s, s', tid, i);
      var st' := s'.slots[i].stamp;
      if !st'.full && st'.ticket < |s'.log| && Producing(s'.threads[tid]) != Some(st'.ticket) {
        var a :| 0 <= a < |s.threads| && Producing(s.threads[a]) == Some(st'.ticket);
        assert Producing(s'.threads[a]) == Some(st'.ticket);
      }
      if st'.full && st'.ticket < s'.head && Consuming(s.n, s'.threads[tid]) != Some(st'.ticket) {
        var a :| 0 <= a < |s.threads| && Consuming(s.n, s.threads[a]) == Some(st'.ticket);
        assert Consuming(s.n, s'.threads[a]) == Some(st'.ticket);
      }
    }
  }

  // ---- what a claim finds ----------------------------------------------------------

  /** A producer whose compare-exchange on `tail` succeeds finds its slot free and its
      cell empty, however stale the stamp it read. */
  lemma ClaimFindsFreeSlot(s: State, t: nat)
    requires CountersOk(s) && SlotsOk(s) && t == s.tail && Reached(s, t, false)
    ensures |s.log| == s.tail < s.head + s.n
    ensures s.slots[t % s.n] == Slot(Stamp(t, false), None)
  {
    var st := StampOf(s, t);
    assert SlotOk(s, t % s.n);
    if st.ticket > t {
      SameSlotGap(s.n, t, st.ticket);
    }
  }

  /** A consumer whose compare-exchange on `head` succeeds finds the value of its own
      ticket, published and not yet taken. */
  lemma ClaimFindsValue(s: State, h: nat)
    requires CountersOk(s) && SlotsOk(s) && h == s.head && Reached(s, h, true)
    ensures h < s.tail && h < |s.log|
    ensures s.slots[h % s.n] == Slot(Stamp(h, true), Some(s.log[h]))
  {
    var st := StampOf(s, h);
    assert SlotOk(s, h % s.n);
    if st.ticket > h {
      SameSlotGap(s.n, h, st.ticket);
    }
  }

  /** At most one thread is between claiming a slot and storing its stamp. */
  lemma SlotOwnership(s: State, a: nat, b: nat)
    requires Inv(s) && a < |s.threads| && b < |s.threads| && a != b
    requires Owns(s.n, s.threads[a]) && Owns(s.n, s.threads[b])
    ensures OwnedTicket(s.n, s.threads[a]) % s.n != OwnedTicket(s.n, s.threads[b]) % s.n
  {
    var p, q := s.threads[a], s.threads[b];
    assert PcOk(s, p) && PcOk(s, q);
    OwnedSlot(s, p);
    OwnedSlot(s, q);
    if a < b {
      assert Apart(s.n, p, q);
    } else {
      assert Apart(s.n, q, p);
    }
  }

  lemma OwnedSlot(s: State, pc: Pc)
    requires CountersOk(s) && PcOk(s, pc) && Owns(s.n, pc)
    ensures StampOf(s, OwnedTicket(s.n, pc)) == Stamp(OwnedTicket(s.n, pc), Producing(pc).None?)
    ensures Forcing(pc) ==> OwnedTicket(s.n, pc) % s.n == pc.t % s.n
  {
    if Forcing(pc) {
      SlotOfNextLap(s.n, pc.t - s.n);
    }
  }

  // ---- the claims ------------------------------------------------------------------

  lemma ClaimTail(s: State, tid: nat, op: Op, t: nat)
    requires Inv(s) && tid < |s.threads| && s.threads[tid] == PushCas(op, t) && s.tail == t
    ensures op.Inserts() && |s.log| == s.tail < s.head + s.n
    ensures Inv(SetPc(s.(tail := t + 1, log := s.log + [op.item]), tid, PushWrite(op, t)))
  {
    assert PcOk(s, s.threads[tid]);
    ClaimFindsFreeSlot(s, t);
    var s' := SetPc(s.(tail := t + 1, log := s.log + [op.item]), tid, PushWrite(op, t));
    forall a | 0 <= a < |s.threads| && a != tid ensures Undisturbed(s, s', s.threads[a]) {
      assert PcOk(s, s.threads[a]);
      if s.threads[a].PopRead? || s.threads[a].PopFree? {
        SlotOfNextLap(s.n, s.threads[a].h);
      }
    }
    BystandersOk(s, s', tid);
    forall a, b | 0 <= a < b < |s'.threads| ensures Apart(s'.n, s'.threads[a], s'.threads[b]) {
      assert Apart(s.n, s.threads[a], s.threads[b]) && PcOk(s, s.threads[a]) && PcOk(s, s.threads[b]);
    }
    forall i | 0 <= i < |s'.slots| ensures SlotOk(s', i) && HeldAt(s, s', tid, i) {
      assert SlotOk(s, i);
      SlotKept(s, s', i);
    }
    HeldKept(s, s', tid);
  }

  /** `head` can move past its own published ticket without passing a ticket that some
      thread has yet to publish. */
  lemma HeadPassesNobody(s: State, pc: Pc)
    requires CountersOk(s) && PcOk(s, pc) && StampOf(s, s.head) == Stamp(s.head, true)
    ensures Producing(pc).Some? ==> s.head < Producing(pc).value
    ensures Forcing(pc) ==> s.head < pc.t
  {
  }

  lemma ClaimHead(s: State, tid: nat, h: nat)
    requires Inv(s) && tid < |s.threads| && s.threads[tid] == PopCas(h) && s.head == h
    ensures h < |s.log|
    ensures Inv(SetPc(s.(head := h + 1), tid, PopRead(h)))
  {
    assert PcOk(s, s.threads[tid]);
    ClaimFindsValue(s, h);
    var s' := SetPc(s.(head := h + 1), tid, PopRead(h));
    forall a | 0 <= a < |s.threads| && a != tid ensures Undisturbed(s, s', s.threads[a]) {
      HeadPassesNobody(s, s.threads[a]);
      assert PcOk(s, s.threads[a]);
    }
    BystandersOk(s, s', tid);
    HeadClaimExclusive(s, s', tid, h);
    forall i | 0 <= i < |s'.slots| ensures SlotOk(s', i) && HeldAt(s, s', tid, i) {
      assert SlotOk(s, i);
      SlotKept(s, s', i);
    }
    HeldKept(s, s', tid);
  }

  lemma HeadClaimExclusive(s: State, s': State, tid: nat, h: nat)
    requires CountersOk(s) && Exclusive(s) && PcsOk(s) && tid < |s.threads| == |s'.threads| && s'.n == s.n
    requires forall a :: 0 <= a < |s.threads| && a != tid ==> s'.threads[a] == s.threads[a]
    requires Producing(s'.threads[tid]) == None && Consuming(s.n, s'.threads[tid]) == Some(h) && h == s.head
    ensures Exclusive(s')
  {
    forall a, b | 0 <= a < b < |s'.threads| ensures Apart(s'.n, s'.threads[a], s'.threads[b]) {
      assert Apart(s.n, s.threads[a], s.threads[b]) && PcOk(s, s.threads[a]) && PcOk(s, s.threads[b]);
    }
  }

  lemma ClaimOverwrite(s: State, tid: nat, op: Op, t: nat)
    requires Inv(s) && tid < |s.threads| && s.threads[tid] == PushFull(op, t) && s.head + s.n == t && op.ForcePush?
    ensures |s.log| == s.tail == t
    ensures Inv(SetPc(s.(head := s.head + 1, log := s.log + [op.item]), tid, ForceTail(op, t)))
  {
    assert PcOk(s, s.threads[tid]);
    var h := s.head;
    ClaimFindsValue(s, h);
    SlotOfNextLap(s.n, h);
    var s' := SetPc(s.(head := s.head + 1, log := s.log + [op.item]), tid, ForceTail(op, t));
    forall a | 0 <= a < |s.threads| && a != tid ensures Undisturbed(s, s', s.threads[a]) {
      assert PcOk(s, s.threads[a]);
    }
    BystandersOk(s, s', tid);
    HeadClaimExclusive(s, s', tid, h);
    forall i | 0 <= i < |s'.slots| ensures SlotOk(s', i) && HeldAt(s, s', tid, i) {
      assert SlotOk(s, i);
      SlotKept(s, s', i);
    }
    HeldKept(s, s', tid);
  }

  // ---- what an owner does with its slot ------------------------------------------------

  /** A change to slot `o` by its owner disturbs nobody. */
  lemma OthersUndisturbed(s: State, s': State, tid: nat, o: nat, a: nat)
    requires Inv(s) && tid < |s.threads| && a < |s.threads| && a != tid && Owns(s.n, s.threads[tid])
    requires o == OwnedTicket(s.n, s.threads[tid]) % s.n
    requires s' == s.(slots := s'.slots, threads := s'.threads) && Evolves(s, s')
    requires forall i :: 0 <= i < s.n && i != o ==> s'.slots[i] == s.slots[i]
    ensures Undisturbed(s, s', s.threads[a])
  {
    assert PcOk(s, s.threads[a]);
    if Owns(s.n, s.threads[a]) {
      SlotOwnership(s, a, tid);
    }
  }

  /** The owner of slot `o` changes that slot and nothing else. */
  lemma OwnerMoves(s: State, s': State, tid: nat, o: nat)
    requires Inv(s) && tid < |s.threads| == |s'.threads| && Owns(s.n, s.threads[tid])
    requires o == OwnedTicket(s.n, s.threads[tid]) % s.n
    requires s' == s.(slots := s'.slots, threads := s'.threads) && |s'.slots| == s.n
    requires forall i :: 0 <= i < s.n && i != o ==> s'.slots[i] == s.slots[i]
    requires forall a :: 0 <= a < |s.threads| && a != tid ==> s'.threads[a] == s.threads[a]
    requires Later(s.slots[o].stamp, s'.slots[o].stamp)
    requires !s.threads[tid].ForceTail?
    requires |s.log| > s.tail && s.tail % s.n == o ==> s'.slots[o].stamp == s.slots[o].stamp
    requires SlotOk(s', o) && HeldAt(s, s', tid, o) && PcOk(s', s'.threads[tid])
    requires Producing(s'.threads[tid]) in {None, Producing(s.threads[tid])}
    requires Consuming(s.n, s'.threads[tid]) in {None, Consuming(s.n, s.threads[tid])}
    ensures Inv(s')
  {
    var me := s.threads[tid];
    assert PcOk(s, me);
    forall a | 0 <= a < |s.threads| && a != tid ensures Undisturbed(s, s', s.threads[a]) {
      OthersUndisturbed(s, s', tid, o, a);
    }
    BystandersOk(s, s', tid);
    ExclusiveKept(s, s', tid);
    OwnedSlot(s, me);
    forall i | 0 <= i < |s'.slots| ensures SlotOk(s', i) && HeldAt(s, s', tid, i) {
      if i != o {
        assert SlotOk(s, i);
        SlotKept(s, s', i);
      }
    }
    HeldKept(s, s', tid);
  }

  lemma WriteValue(s: State, tid: nat, op: Op, t: nat)
    requires Inv(s) && tid < |s.threads| && s.threads[tid] == PushWrite(op, t)
    ensures op.Inserts() && CellOf(s, t) == None
    ensures Inv(SetPc(SetCell(s, t, Some(op.item)), tid, PushPublish(op, t)))
  {
    assert PcOk(s, s.threads[tid]);
    assert SlotOk(s, t % s.n);
    OwnerMoves(s, SetPc(SetCell(s, t, Some(op.item)), tid, PushPublish(op, t)), tid, t % s.n);
  }

  lemma PublishValue(s: State, tid: nat, op: Op, t: nat)
    requires Inv(s) && tid < |s.threads| && s.threads[tid] == PushPublish(op, t)
    ensures Inv(SetPc(SetStamp(s, t, Stamp(t, true)), tid, Reply(op, Pushed)))
  {
    assert PcOk(s, s.threads[tid]);
    assert SlotOk(s, t % s.n);
    OwnerMoves(s, SetPc(SetStamp(s, t, Stamp(t, true)), tid, Reply(op, Pushed)), tid, t % s.n);
  }

  lemma StoreTail(s: State, tid: nat, op: Op, t: nat)
    requires Inv(s) && tid < |s.threads| && s.threads[tid] == ForceTail(op, t)
    ensures Inv(SetPc(s.(tail := t + 1), tid, ForceSwap(op, t)))
  {
    assert PcOk(s, s.threads[tid]);
    var s' := SetPc(s.(tail := t + 1), tid, ForceSwap(op, t));
    forall a | 0 <= a < |s.threads| && a != tid ensures Undisturbed(s, s', s.threads[a]) {
      assert PcOk(s, s.threads[a]);
      assert if a < tid then Apart(s.n, s.threads[a], s.threads[tid]) else Apart(s.n, s.threads[tid], s.threads[a]);
    }
    BystandersOk(s, s', tid);
    ExclusiveKept(s, s', tid);
    forall i | 0 <= i < |s'.slots| ensures SlotOk(s', i) && HeldAt(s, s', tid, i) {
      assert SlotOk(s, i);
      SlotKept(s, s', i);
    }
    HeldKept(s, s', tid);
  }

  lemma SwapValue(s: State, tid: nat, op: Op, t: nat)
    requires Inv(s) && tid < |s.threads| && s.threads[tid] == ForceSwap(op, t)
    ensures op.ForcePush? && s.n <= t < |s.log| && CellOf(s, t) == Some(s.log[t - s.n])
    ensures Inv(SetPc(SetCell(s, t, Some(op.item)), tid, ForcePublish(op, t, s.log[t - s.n])))
  {
    assert PcOk(s, s.threads[tid]);
    assert SlotOk(s, t % s.n);
    OwnedSlot(s, s.threads[tid]);
    OwnerMoves(s, SetPc(SetCell(s, t, Some(op.item)), tid, ForcePublish(op, t, s.log[t - s.n])), tid, t % s.n);
  }

  lemma PublishSwapped(s: State, tid: nat, op: Op, t: nat, prev: Value)
    requires Inv(s) && tid < |s.threads| && s.threads[tid] == ForcePublish(op, t, prev)
    ensures Inv(SetPc(SetStamp(s, t, Stamp(t, true)), tid, Reply(op, Displaced(prev))))
  {
    assert PcOk(s, s.threads[tid]);
    assert SlotOk(s, t % s.n);
    OwnedSlot(s, s.threads[tid]);
    OwnerMoves(s, SetPc(SetStamp(s, t, Stamp(t, true)), tid, Reply(op, Displaced(prev))), tid, t % s.n);
  }

  lemma ReadValue(s: State, tid: nat, h: nat)
    requires Inv(s) && tid < |s.threads| && s.threads[tid] == PopRead(h)
    ensures h < |s.log| && CellOf(s, h) == Some(s.log[h])
    ensures Inv(SetPc(SetCell(s, h, None), tid, PopFree(h, s.log[h])))
  {
    assert PcOk(s, s.threads[tid]);
    assert SlotOk(s, h % s.n);
    OwnerMoves(s, SetPc(SetCell(s, h, None), tid, PopFree(h, s.log[h])), tid, h % s.n);
  }

  lemma FreeSlot(s: State, tid: nat, h: nat, v: Value)
    requires Inv(s) && tid < |s.threads| && s.threads[tid] == PopFree(h, v)
    ensures Inv(SetPc(SetStamp(s, h, Stamp(h + s.n, false)), tid, Reply(Pop, Popped(v))))
  {
    assert PcOk(s, s.threads[tid]);
    assert SlotOk(s, h % s.n);
    SlotOfNextLap(s.n, h);
    OwnerMoves(s, SetPc(SetStamp(s, h, Stamp(h + s.n, false)), tid, Reply(Pop, Popped(v))), tid, h % s.n);
  }

  // ---- every step ---------------------------------------------------------------------

  lemma PushLoadOk(s: State, pc: Pc)
    requires CountersOk(s) && PcOk(s, pc) && (pc.PushTail? || pc.PushStamp?)
    ensures PcOk(s, PushLoad(s, pc)) && !Owns(s.n, PushLoad(s, pc))
  {
    if pc.PushStamp? && pc.t >= s.n {
      SlotOfNextLap(s.n, pc.t - s.n);
    }
  }

  lemma PopLoadOk(s: State, pc: Pc)
    requires CountersOk(s) && PcOk(s, pc) && (pc.PopHead? || pc.PopStamp? || pc.PopTail?)
    ensures PcOk(s, PopLoad(s, pc)) && !Owns(s.n, PopLoad(s, pc))
  {
  }

  lemma ObserveOk(s: State, pc: Pc)
    requires CountersOk(s) && PcOk(s, pc) && Observing(pc)
    ensures PcOk(s, Observe(s, pc)) && !Owns(s.n, Observe(s, pc))
  {
  }

  lemma PushFullInv(s: State, tid: nat, op: Op, t: nat, spurious: bool)
    requires Inv(s) && tid < |s.threads| && s.threads[tid] == PushFull(op, t)
    ensures Inv(StepPush(s, tid, spurious))
  {
    assert PcOk(s, s.threads[tid]);
    if op.Push? && s.head + s.n == t {
      LocalStep(s, tid, Reply(op, Full(op.item)));
    } else if !spurious && s.head + s.n == t {
      ClaimOverwrite(s, tid, op, t);
    } else {
      LocalStep(s, tid, PushTail(op));
    }
  }

  lemma PushCasInv(s: State, tid: nat, op: Op, t: nat, spurious: bool)
    requires Inv(s) && tid < |s.threads| && s.threads[tid] == PushCas(op, t)
    ensures Inv(StepPush(s, tid, spurious))
  {
    assert PcOk(s, s.threads[tid]);
    if !spurious && s.tail == t {
      ClaimTail(s, tid, op, t);
    } else {
      LocalStep(s, tid, PushStamp(op, s.tail));
    }
  }

  lemma PushStepInv(s: State, tid: nat, spurious: bool)
    requires Inv(s) && tid < |s.threads|
    requires Pushing(s.threads[tid])
    ensures Inv(StepPush(s, tid, spurious))
  {
    assert PcOk(s, s.threads[tid]);
    match s.threads[tid]
    case PushTail(_) | PushStamp(_, _) =>
      PushLoadOk(s, s.threads[tid]);
      LocalStep(s, tid, PushLoad(s, s.threads[tid]));
    case PushCas(op, t) => PushCasInv(s, tid, op, t, spurious);
    case PushWrite(op, t) => WriteValue(s, tid, op, t);
    case PushPublish(op, t) => PublishValue(s, tid, op, t);
    case PushFull(op, t) => PushFullInv(s, tid, op, t, spurious);
  }

  lemma ForceStepInv(s: State, tid: nat)
    requires Inv(s) && tid < |s.threads|
    requires Forcing(s.threads[tid])
    ensures Inv(StepForce(s, tid))
  {
    match s.threads[tid]
    case ForceTail(op, t) => StoreTail(s, tid, op, t);
    case ForceSwap(op, t) => SwapValue(s, tid, op, t);
    case ForcePublish(op, t, prev) => PublishSwapped(s, tid, op, t, prev);
  }

  lemma PopStepInv(s: State, tid: nat, spurious: bool)
    requires Inv(s) && tid < |s.threads|
    requires s.threads[tid].PopCas? || s.threads[tid].PopRead? || s.threads[tid].PopFree?
    ensures Inv(StepPop(s, tid, spurious))
  {
    match s.threads[tid]
    case PopCas(h) => PopCasInv(s, tid, h, spurious);
    case PopRead(h) => ReadValue(s, tid, h);
    case PopFree(h, v) => FreeSlot(s, tid, h, v);
  }

  lemma PopCasInv(s: State, tid: nat, h: nat, spurious: bool)
    requires Inv(s) && tid < |s.threads| && s.threads[tid] == PopCas(h)
    ensures Inv(StepPop(s, tid, spurious))
  {
    if !spurious && s.head == h {
      ClaimHead(s, tid, h);
    } else {
      LocalStep(s, tid, PopStamp(s.head));
    }
  }

  lemma PopLoadInv(s: State, tid: nat, spurious: bool)
    requires Inv(s) && tid < |s.threads|
    requires s.threads[tid].PopHead? || s.threads[tid].PopStamp? || s.threads[tid].PopTail?
    ensures Inv(StepPop(s, tid, spurious))
  {
    assert PcOk(s, s.threads[tid]);
    PopLoadOk(s, s.threads[tid]);
    LocalStep(s, tid, PopLoad(s, s.threads[tid]));
  }

  lemma ObserveInv(s: State, tid: nat)
    requires Inv(s) && tid < |s.threads| && Observing(s.threads[tid])
    ensures Inv(SetPc(s, tid, Observe(s, s.threads[tid])))
  {
    assert PcOk(s, s.threads[tid]);
    ObserveOk(s, s.threads[tid]);
    LocalStep(s, tid, Observe(s, s.threads[tid]));
  }

  lemma StartInv(s: State, tid: nat, op: Op)
    requires Inv(s)
    ensures Inv(Step(s, tid, Start(op)).0)
  {
    if tid < |s.threads| && s.threads[tid].Rest? {
      LocalStep(s, tid, Entry(op));
    }
  }

  lemma ReplyInv(s: State, tid: nat)
    requires Inv(s) && tid < |s.threads| && s.threads[tid].Reply?
    ensures Inv(SetPc(s, tid, Rest))
  {
    LocalStep(s, tid, Rest);
  }

  lemma AdvanceInv(s: State, tid: nat, spurious: bool)
    requires Inv(s) && tid < |s.threads|
    ensures Inv(Advance(s, tid, spurious))
  {
    var pc := s.threads[tid];
    if Pushing(pc) {
      PushStepInv(s, tid, spurious);
    } else if Forcing(pc) {
      ForceStepInv(s, tid);
    } else if pc.PopCas? || pc.PopRead? || pc.PopFree? {
      PopStepInv(s, tid, spurious);
    } else if Popping(pc) {
      PopLoadInv(s, tid, spurious);
    } else if Observing(pc) {
      ObserveInv(s, tid);
    }
  }

  /** The global step invariant: whatever thread the scheduler picks and whatever it
      lets that thread do, the invariant is kept. */
  lemma StepInv(s: State, tid: nat, act: Action)
    requires Inv(s)
    ensures Inv(Step(s, tid, act).0)
  {
    if act.Start? {
      StartInv(s, tid, act.op);
    } else if tid < |s.threads| {
      if s.threads[tid].Reply? {
        ReplyInv(s, tid);
      } else {
        AdvanceInv(s, tid, act.spurious);
      }
    }
  }
}

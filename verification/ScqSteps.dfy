/** Every step of the SCQ ring preserves the invariant.  In particular a ticket that was given up
    is never filled later, and a filled ticket is never given up: no index is lost. */
module ScqSteps {
  import opened Options
  import opened Arithmetic
  import opened ScqRing
  import opened ScqInvariant

  // ---- frames -------------------------------------------------------------------------------------

  /** What may happen to the shared state in one step: counters grow, entries move forward, history
      is only added to. */
  predicate Evolves(r: Ring, r': Ring) {
    && r.half > 0 && r'.half == r.half && r'.finalizable == r.finalizable && |r.entries| == |r'.entries| == Size(r)
    && r.head <= r'.head && r.tail <= r'.tail && (r.finalized ==> r'.finalized)
    && r.taken <= r'.taken && r.gone <= r'.gone
    && (forall t :: t in r.placed ==> t in r'.placed && r'.placed[t] == r.placed[t])
    && (forall i :: 0 <= i < |r.entries| ==> Past(r.half, r.entries[i], r'.entries[i]))
  }

  /** What another thread relies on, beyond that: its tickets are not settled behind its back, and
      an entry it wants to fill has not become available again by a change. */
  predicate Undisturbed(r: Ring, r': Ring, pc: Pc)
    requires Evolves(r, r')
  {
    && (EnqTicket(pc).Some? ==> EnqTicket(pc).value in r'.placed ==> EnqTicket(pc).value in r.placed)
    && (DeqTicket(pc).Some? ==> !Settled(r', DeqTicket(pc).value))
    && (pc.EnqSeal? || pc.EnqCas? ==> MayPlace(r', pc.t, pc.e))
  }

  lemma PastTrans(half: nat, a: Entry, b: Entry, c: Entry)
    requires Past(half, a, b) && Past(half, b, c)
    ensures Past(half, a, c)
    ensures b != c ==> a != c
  {
  }

  lemma BystanderOk(r: Ring, r': Ring, pc: Pc)
    requires r.half > 0 && |r.entries| == Size(r) && PcOk(r, pc) && Evolves(r, r') && Undisturbed(r, r', pc)
    ensures PcOk(r', pc)
  {
    if pc.EnqHead? || pc.EnqSeal? || pc.EnqCas? {
      PastTrans(r.half, pc.e, EntryOf(r, pc.t), EntryOf(r', pc.t));
    } else if pc.DeqCas? {
      PastTrans(r.half, pc.e, EntryOf(r, pc.h), EntryOf(r', pc.h));
    }
  }

  lemma BystandersOk(r: Ring, r': Ring, tid: nat)
    requires r.half > 0 && |r.entries| == Size(r) && PcsOk(r) && Evolves(r, r')
    requires tid < |r.threads| == |r'.threads|
    requires forall a :: 0 <= a < |r.threads| && a != tid ==> r'.threads[a] == r.threads[a]
    requires forall a :: 0 <= a < |r.threads| && a != tid ==> Undisturbed(r, r', r.threads[a])
    requires PcOk(r', r'.threads[tid])
    ensures PcsOk(r')
  {
    forall a | 0 <= a < |r'.threads| ensures PcOk(r', r'.threads[a]) {
      if a != tid {
        BystanderOk(r, r', r.threads[a]);
      }
    }
  }

  /** Tickets stay distinct when the thread that moves keeps its ticket, drops it or draws a new one. */
  lemma DistinctKept(r: Ring, r': Ring, tid: nat)
    requires Distinct(r) && tid < |r.threads| == |r'.threads|
    requires forall a :: 0 <= a < |r.threads| && a != tid ==> r'.threads[a] == r.threads[a]
    requires EnqTicket(r'.threads[tid]) in {None, EnqTicket(r.threads[tid])}
      || forall a :: 0 <= a < |r.threads| ==> EnqTicket(r.threads[a]) != EnqTicket(r'.threads[tid])
    requires DeqTicket(r'.threads[tid]) in {None, DeqTicket(r.threads[tid])}
      || forall a :: 0 <= a < |r.threads| ==> DeqTicket(r.threads[a]) != DeqTicket(r'.threads[tid])
    ensures Distinct(r')
  {
    forall a, b | 0 <= a < b < |r'.threads| ensures Apart(r'.threads[a], r'.threads[b]) {
      assert Apart(r.threads[a], r.threads[b]);
    }
  }

  /** Tickets stay accounted for when the thread that moves keeps its ticket or settles it. */
  lemma AccountedKept(r: Ring, r': Ring, tid: nat)
    requires Accounted(r) && tid < |r.threads| == |r'.threads|
    requires forall a :: 0 <= a < |r.threads| && a != tid ==> r'.threads[a] == r.threads[a]
    requires r.taken <= r'.taken && r.gone <= r'.gone
    requires r'.head == r.head || (r'.head == r.head + 1 && DeqTicket(r'.threads[tid]) == Some(r.head))
    requires DeqTicket(r.threads[tid]).Some? ==>
      DeqTicket(r'.threads[tid]) == DeqTicket(r.threads[tid]) || Settled(r', DeqTicket(r.threads[tid]).value)
    ensures Accounted(r')
  {
    forall h: nat | h < r'.head && !Settled(r', h)
      ensures exists a :: 0 <= a < |r'.threads| && DeqTicket(r'.threads[a]) == Some(h)
    {
      if h == r.head {
        assert DeqTicket(r'.threads[tid]) == Some(h);
      } else {
        assert !Settled(r, h);
        var a :| 0 <= a < |r.threads| && DeqTicket(r.threads[a]) == Some(h);
        assert DeqTicket(r'.threads[a]) == Some(h);
      }
    }
  }

  /** The two holders of one dequeue ticket would be the same thread; likewise for enqueue tickets. */
  lemma TicketsApart(r: Ring, a: nat, b: nat)
    requires Distinct(r) && a < |r.threads| && b < |r.threads| && a != b
    ensures EnqTicket(r.threads[a]).Some? ==> EnqTicket(r.threads[a]) != EnqTicket(r.threads[b])
    ensures DeqTicket(r.threads[a]).Some? ==> DeqTicket(r.threads[a]) != DeqTicket(r.threads[b])
  {
    if a < b {
      assert Apart(r.threads[a], r.threads[b]);
    } else {
      assert Apart(r.threads[b], r.threads[a]);
    }
  }

  // ---- steps that leave entries and history alone --------------------------------------------------

  /** The thread moves, and at most `head`, `tail`, `threshold` or `finalized` with it. */
  lemma CounterStep(r: Ring, r': Ring, tid: nat)
    requires Inv(r) && tid < |r.threads| == |r'.threads|
    requires r' == r.(head := r'.head, tail := r'.tail, threshold := r'.threshold, finalized := r'.finalized,
                      threads := r'.threads)
    requires forall a :: 0 <= a < |r.threads| && a != tid ==> r'.threads[a] == r.threads[a]
    requires r.head <= r'.head && r.tail <= r'.tail && (r.finalized ==> r'.finalized)
    requires PcOk(r', r'.threads[tid])
    requires var t := EnqTicket(r'.threads[tid]); t.None? || t == EnqTicket(r.threads[tid]) || t.value >= r.tail
    requires DeqTicket(r.threads[tid]).Some? ==> DeqTicket(r'.threads[tid]) == DeqTicket(r.threads[tid])
    requires DeqTicket(r.threads[tid]).None? ==>
      if DeqTicket(r'.threads[tid]).Some? then DeqTicket(r'.threads[tid]).value == r.head && r'.head == r.head + 1
      else r'.head == r.head
    requires DeqTicket(r.threads[tid]).Some? ==> r'.head == r.head
    ensures Inv(r')
  {
    forall a | 0 <= a < |r.threads| && a != tid ensures Undisturbed(r, r', r.threads[a]) {
      assert PcOk(r, r.threads[a]);
    }
    BystandersOk(r, r', tid);
    forall a | 0 <= a < |r.threads|
      ensures EnqTicket(r.threads[a]).Some? ==> EnqTicket(r.threads[a]).value < r.tail
      ensures DeqTicket(r.threads[a]).Some? ==> DeqTicket(r.threads[a]).value < r.head
    {
      assert PcOk(r, r.threads[a]);
    }
    DistinctKept(r, r', tid);
    AccountedKept(r, r', tid);
    HistoryKept(r, r');
  }

  lemma HistoryKept(r: Ring, r': Ring)
    requires r.half > 0 && |r.entries| == Size(r) && EntriesOk(r) && PlacedOk(r) && TakenOk(r) && GoneOk(r)
    requires r'.half == r.half && r'.entries == r.entries && r'.placed == r.placed && r'.taken == r.taken && r'.gone == r.gone
    requires r.head <= r'.head && r.tail <= r'.tail
    ensures EntriesOk(r') && PlacedOk(r') && TakenOk(r') && GoneOk(r')
  {
    forall i | 0 <= i < |r'.entries| ensures EntryOk(r', i) {
      assert EntryOk(r, i);
    }
    forall t | t in r'.placed ensures LiveOk(r', t) {
      assert LiveOk(r, t);
    }
  }

  // ---- placing an index ----------------------------------------------------------------------------

  /** An enqueuer's compare-exchange succeeds: the slot was empty, its ticket had not been given up,
      and no live index is overwritten. */
  lemma PlaceStep(r: Ring, tid: nat, i: nat, t: nat, e: Entry)
    requires Inv(r) && tid < |r.threads| && r.threads[tid] == EnqCas(i, t, e) && EntryOf(r, t) == e
    ensures Inv(WithPc(WithEntry(r, t, Placed(t, i)).(placed := r.placed[t := i]), tid, EnqThreshold(i, t)))
    ensures t !in r.placed && t !in r.gone && i < r.half
  {
    assert PcOk(r, r.threads[tid]);
    assert t !in r.gone;
    var r' := WithPc(WithEntry(r, t, Placed(t, i)).(placed := r.placed[t := i]), tid, EnqThreshold(i, t));
    forall a | 0 <= a < |r.threads| && a != tid ensures Undisturbed(r, r', r.threads[a]) {
      assert PcOk(r, r.threads[a]);
      TicketsApart(r, a, tid);
      OthersCannotPlace(r, r', r.threads[a], SlotOf(r, t));
    }
    BystandersOk(r, r', tid);
    DistinctKept(r, r', tid);
    AccountedKept(r, r', tid);
    PlaceHistory(r, r', t, i);
  }

  /** A change to an entry does not bring back an entry that somebody saw before. */
  lemma OthersCannotPlace(r: Ring, r': Ring, pc: Pc, slot: nat)
    requires r.half > 0 && |r.entries| == Size(r) && PcOk(r, pc) && Evolves(r, r') && slot < |r.entries|
    requires forall j :: 0 <= j < |r.entries| && j != slot ==> r'.entries[j] == r.entries[j]
    requires r'.entries[slot] != r.entries[slot]
    requires forall h :: h in r'.gone ==> h in r.gone || SlotOf(r, h) == slot
    ensures pc.EnqSeal? || pc.EnqCas? ==> MayPlace(r', pc.t, pc.e)
  {
    if (pc.EnqSeal? || pc.EnqCas?) && SlotOf(r, pc.t) == slot {
      PastTrans(r.half, pc.e, r.entries[slot], r'.entries[slot]);
    }
  }

  lemma PlaceHistory(r: Ring, r': Ring, t: nat, i: nat)
    requires r.half > 0 && |r.entries| == Size(r) && EntriesOk(r) && PlacedOk(r) && TakenOk(r) && GoneOk(r)
    requires t < r.tail && i < r.half && t !in r.placed && IsEmpty(r.half, EntryOf(r, t)) && EntryOf(r, t).turn < t
    requires forall h :: h in r.gone && SlotOf(r, h) == SlotOf(r, t) ==> h < t
    requires r' == r.(entries := r.entries[SlotOf(r, t) := Placed(t, i)], placed := r.placed[t := i], threads := r'.threads)
    ensures EntriesOk(r') && PlacedOk(r') && TakenOk(r') && GoneOk(r')
  {
    forall j | 0 <= j < |r'.entries| ensures EntryOk(r', j) {
      assert EntryOk(r, j);
    }
    forall u | u in r'.placed ensures u < r'.tail && r'.placed[u] < r'.half && u !in r'.gone && LiveOk(r', u) {
      if u != t {
        assert LiveOk(r, u);
      }
    }
  }

  // ---- taking an index -------------------------------------------------------------------------------

  lemma TakeStep(r: Ring, tid: nat, h: nat, e: Entry)
    requires Inv(r) && tid < |r.threads| && r.threads[tid] == DeqTake(h, e)
    ensures Live(r, h) && r.placed[h] == e.index < r.half
    ensures Inv(WithPc(WithEntry(r, h, Consumed(r.half, EntryOf(r, h))).(taken := r.taken + {h}), tid,
                       Reply(Dequeue, Got(e.index, h))))
  {
    assert PcOk(r, r.threads[tid]);
    assert LiveOk(r, h);
    var r' := WithPc(WithEntry(r, h, Consumed(r.half, EntryOf(r, h))).(taken := r.taken + {h}), tid,
                     Reply(Dequeue, Got(e.index, h)));
    forall a | 0 <= a < |r.threads| && a != tid ensures Undisturbed(r, r', r.threads[a]) {
      assert PcOk(r, r.threads[a]);
      TicketsApart(r, a, tid);
      OthersCannotPlace(r, r', r.threads[a], SlotOf(r, h));
    }
    BystandersOk(r, r', tid);
    DistinctKept(r, r', tid);
    AccountedKept(r, r', tid);
    TakeHistory(r, r', h);
  }

  lemma TakeHistory(r: Ring, r': Ring, h: nat)
    requires r.half > 0 && |r.entries| == Size(r) && EntriesOk(r) && PlacedOk(r) && TakenOk(r) && GoneOk(r)
    requires Live(r, h) && h < r.head
    requires r' == r.(entries := r.entries[SlotOf(r, h) := Consumed(r.half, EntryOf(r, h))], taken := r.taken + {h},
                      threads := r'.threads)
    ensures EntriesOk(r') && PlacedOk(r') && TakenOk(r') && GoneOk(r')
  {
    assert LiveOk(r, h);
    forall j | 0 <= j < |r'.entries| ensures EntryOk(r', j) {
      assert EntryOk(r, j);
    }
    forall u | u in r'.placed ensures u < r'.tail && r'.placed[u] < r'.half && u !in r'.gone && LiveOk(r', u) {
      assert LiveOk(r, u);
    }
  }

  // ---- leaving empty-handed --------------------------------------------------------------------------

  /** What the dequeuer of ticket h may leave in its slot: a later turn, an index it has marked
      unsafe or found unsafe, or an empty entry it has advanced to its own turn. */
  predicate LeavesBehind(half: nat, e: Entry, c: Entry, h: nat) {
    && e.turn != h
    && (|| (c == e && (e.turn > h || (!e.safe && !IsEmpty(half, e))))
        || (c == Swapped(half, e, h) && e.turn < h && (e.safe || IsEmpty(half, e))))
  }

  /** The dequeuer of ticket h leaves with its slot's entry now `c`: nothing can be placed for h any
      more, and nothing had been. */
  lemma LeaveStep(r: Ring, tid: nat, h: nat, c: Entry)
    requires Inv(r) && tid < |r.threads| && DeqTicket(r.threads[tid]) == Some(h)
    requires LeavesBehind(r.half, EntryOf(r, h), c, h)
    ensures h !in r.placed
    ensures Inv(Leave(WithEntry(r, h, c), tid, h))
  {
    var slot, r' := SlotOf(r, h), Leave(WithEntry(r, h, c), tid, h);
    assert PcOk(r, r.threads[tid]);
    assert h in r.placed ==> LiveOk(r, h);
    forall a | 0 <= a < |r.threads| && a != tid ensures Undisturbed(r, r', r.threads[a]) {
      assert PcOk(r, r.threads[a]);
      TicketsApart(r, a, tid);
      if r'.entries[slot] != r.entries[slot] {
        OthersCannotPlace(r, r', r.threads[a], slot);
      }
    }
    BystandersOk(r, r', tid);
    DistinctKept(r, r', tid);
    AccountedKept(r, r', tid);
    LeaveHistory(r, r', h, c);
  }

  lemma LeaveHistory(r: Ring, r': Ring, h: nat, c: Entry)
    requires r.half > 0 && |r.entries| == Size(r)
    requires EntriesOk(r) && PlacedOk(r) && TakenOk(r) && GoneOk(r)
    requires h < r.head && h !in r.placed && h !in r.taken && LeavesBehind(r.half, EntryOf(r, h), c, h)
    requires r' == r.(entries := r.entries[SlotOf(r, h) := c], gone := r.gone + {h}, threads := r'.threads)
    ensures EntriesOk(r') && PlacedOk(r') && TakenOk(r') && GoneOk(r')
  {
    forall j | 0 <= j < |r'.entries| ensures EntryOk(r', j) {
      assert EntryOk(r, j);
    }
    forall u | u in r'.placed ensures u < r'.tail && r'.placed[u] < r'.half && u !in r'.gone && LiveOk(r', u) {
      assert LiveOk(r, u);
    }
  }

  // ---- every step ------------------------------------------------------------------------------------

  lemma EnqTestOk(r: Ring, pc: Pc)
    requires Inv(r) && PcOk(r, pc) && (pc.EnqLoad? || pc.EnqHead? || pc.EnqSeal? || pc.EnqThreshold?)
    ensures PcOk(r, EnqTest(r, pc))
    ensures EnqTicket(EnqTest(r, pc)) in {None, EnqTicket(pc)} && DeqTicket(EnqTest(r, pc)) == None
  {
    if pc.EnqLoad? {
      assert EntryOk(r, SlotOf(r, pc.t));
      if EntryOf(r, pc.t).safe && EntryOf(r, pc.t).turn < pc.t {
        SafeMayPlace(r, pc.t);
      }
    }
  }

  /** A safe entry of an earlier turn: nobody has given up this turn. */
  lemma SafeMayPlace(r: Ring, t: nat)
    requires r.half > 0 && |r.entries| == Size(r) && GoneOk(r)
    requires EntryOf(r, t).safe && EntryOf(r, t).turn < t
    ensures MayPlace(r, t, EntryOf(r, t))
  {
    forall h | h in r.gone && SlotOf(r, h) == SlotOf(r, t) ensures h < t {
      assert EntryOf(r, h) == EntryOf(r, t);
    }
  }

  /** Only the thread's own program counter changes, and it keeps or drops its tickets; a dequeue
      ticket is not dropped this way. */
  lemma MoveStep(r: Ring, tid: nat, pc: Pc)
    requires Inv(r) && tid < |r.threads| && PcOk(r, pc)
    requires EnqTicket(pc) in {None, EnqTicket(r.threads[tid])}
    requires DeqTicket(pc) == DeqTicket(r.threads[tid])
    ensures Inv(WithPc(r, tid, pc))
  {
    CounterStep(r, WithPc(r, tid, pc), tid);
  }

  lemma EnqCasInv(r: Ring, tid: nat, spurious: bool)
    requires Inv(r) && tid < |r.threads| && r.threads[tid].EnqCas?
    ensures Inv(StepEnq(r, tid, spurious))
  {
    var EnqCas(i, t, e) := r.threads[tid];
    assert PcOk(r, r.threads[tid]);
    if !spurious && EntryOf(r, t) == e {
      PlaceStep(r, tid, i, t, e);
    } else {
      MoveStep(r, tid, EnqLoad(i, t));
    }
  }

  lemma EnqTestInv(r: Ring, tid: nat)
    requires Inv(r) && tid < |r.threads|
    requires var pc := r.threads[tid]; pc.EnqLoad? || pc.EnqHead? || pc.EnqSeal? || pc.EnqThreshold?
    ensures Inv(WithPc(r, tid, EnqTest(r, r.threads[tid])))
  {
    assert PcOk(r, r.threads[tid]);
    EnqTestOk(r, r.threads[tid]);
    MoveStep(r, tid, EnqTest(r, r.threads[tid]));
  }

  lemma EnqCounterInv(r: Ring, tid: nat, spurious: bool)
    requires Inv(r) && tid < |r.threads| && (r.threads[tid].EnqTail? || r.threads[tid].EnqReset?)
    ensures Inv(StepEnq(r, tid, spurious))
  {
    assert PcOk(r, r.threads[tid]);
    CounterStep(r, StepEnq(r, tid, spurious), tid);
  }

  lemma EnqInv(r: Ring, tid: nat, spurious: bool)
    requires Inv(r) && tid < |r.threads| && Enqueuing(r.threads[tid])
    ensures Inv(StepEnq(r, tid, spurious))
  {
    var pc := r.threads[tid];
    if pc.EnqCas? {
      EnqCasInv(r, tid, spurious);
    } else if pc.EnqTail? || pc.EnqReset? {
      EnqCounterInv(r, tid, spurious);
    } else {
      EnqTestInv(r, tid);
    }
  }

  /** A dequeuer that looked at its entry either leaves a slot that is past its ticket or unsafe,
      or it moves on with what it saw. */
  lemma LookLeaves(r: Ring, tid: nat, h: nat, attempt: nat)
    requires Inv(r) && tid < |r.threads| && r.threads[tid] == DeqLoad(h, attempt)
    ensures var r' := Look(r, tid, h, attempt);
      if r'.threads[tid].DeqTail? then r' == Leave(r, tid, h) && LeavesBehind(r.half, EntryOf(r, h), EntryOf(r, h), h)
      else r' == WithPc(r, tid, r'.threads[tid])
  {
  }

  lemma LookOk(r: Ring, tid: nat, h: nat, attempt: nat)
    requires Inv(r) && tid < |r.threads| && r.threads[tid] == DeqLoad(h, attempt)
    ensures var pc := Look(r, tid, h, attempt).threads[tid]; pc.DeqTail? || (PcOk(r, pc) && DeqTicket(pc) == Some(h))
    ensures EnqTicket(Look(r, tid, h, attempt).threads[tid]) == None
  {
    assert PcOk(r, r.threads[tid]);
    assert EntryOk(r, SlotOf(r, h));
  }

  lemma LookInv(r: Ring, tid: nat, h: nat, attempt: nat)
    requires Inv(r) && tid < |r.threads| && r.threads[tid] == DeqLoad(h, attempt)
    ensures Inv(Look(r, tid, h, attempt))
  {
    var r' := Look(r, tid, h, attempt);
    LookLeaves(r, tid, h, attempt);
    LookOk(r, tid, h, attempt);
    if r'.threads[tid].DeqTail? {
      assert WithEntry(r, h, EntryOf(r, h)) == r;
      LeaveStep(r, tid, h, EntryOf(r, h));
    } else {
      MoveStep(r, tid, r'.threads[tid]);
    }
  }

  lemma DeqCasInv(r: Ring, tid: nat, spurious: bool)
    requires Inv(r) && tid < |r.threads| && r.threads[tid].DeqCas?
    ensures Inv(StepDeq(r, tid, spurious))
  {
    var DeqCas(h, attempt, e) := r.threads[tid];
    assert PcOk(r, r.threads[tid]);
    if !spurious && EntryOf(r, h) == e {
      LeaveStep(r, tid, h, Swapped(r.half, e, h));
    } else {
      MoveStep(r, tid, DeqLoad(h, attempt));
    }
  }

  lemma DeqHeadInv(r: Ring, tid: nat, spurious: bool)
    requires Inv(r) && tid < |r.threads| && r.threads[tid].DeqHead?
    ensures Inv(StepDeq(r, tid, spurious))
  {
    CounterStep(r, StepDeq(r, tid, spurious), tid);
  }

  lemma DeqInv(r: Ring, tid: nat, spurious: bool)
    requires Inv(r) && tid < |r.threads| && Dequeuing(r.threads[tid])
    ensures Inv(StepDeq(r, tid, spurious))
  {
    match r.threads[tid]
    case DeqLoad(h, attempt) => LookInv(r, tid, h, attempt);
    case DeqCas(_, _, _) => DeqCasInv(r, tid, spurious);
    case DeqTake(h, e) => TakeStep(r, tid, h, e);
    case DeqHead => DeqHeadInv(r, tid, spurious);
    case DeqThreshold => MoveStep(r, tid, if r.threshold < 0 then Reply(Dequeue, Nothing) else DeqHead);
  }

  lemma LeavingInv(r: Ring, tid: nat, spurious: bool)
    requires Inv(r) && tid < |r.threads| && Leaving(r.threads[tid])
    ensures Inv(StepLeave(r, tid, spurious))
  {
    var r' := StepLeave(r, tid, spurious);
    assert PcOk(r, r.threads[tid]);
    LeavingShape(r, tid, spurious);
    LeavingOk(r, tid, spurious);
    LeftOk(r', r'.threads[tid]);
    CounterStep(r, r', tid);
  }

  lemma LeavingShape(r: Ring, tid: nat, spurious: bool)
    requires r.half > 0 && |r.entries| == Size(r) && tid < |r.threads| && Leaving(r.threads[tid]) && PcOk(r, r.threads[tid])
    ensures var r' := StepLeave(r, tid, spurious);
      r' == WithPc(r.(tail := r'.tail, threshold := r'.threshold), tid, r'.threads[tid]) && r.tail <= r'.tail
  {
  }

  /** A dequeuer that has given up its ticket only remembers bounds on the head. */
  predicate Left(head: nat, pc: Pc) {
    match pc
    case DeqTail(h) => h < head
    case CatchCas(t, h) => t <= h <= head
    case CatchTail(h) => h <= head
    case _ => pc in {CatchHead, DeqLast, DeqNext, DeqHead, Reply(Dequeue, Nothing)}
  }

  lemma LeftOk(r: Ring, pc: Pc)
    requires r.half > 0 && |r.entries| == Size(r) && Left(r.head, pc) && !pc.DeqTail?
    ensures PcOk(r, pc) && EnqTicket(pc) == None && DeqTicket(pc) == None
  {
  }

  lemma LeavingOk(r: Ring, tid: nat, spurious: bool)
    requires r.half > 0 && |r.entries| == Size(r) && tid < |r.threads| && Leaving(r.threads[tid]) && PcOk(r, r.threads[tid])
    ensures var pc := StepLeave(r, tid, spurious).threads[tid]; Left(r.head, pc) && !pc.DeqTail?
  {
  }

  /** The ring's step invariant. */
  lemma StepInv(r: Ring, tid: nat, act: Action)
    requires Inv(r)
    ensures Inv(Step(r, tid, act))
  {
    if act.Seal? {
      SealInv(r);
    } else if tid < |r.threads| {
      var pc := r.threads[tid];
      if act.Start? || !(Enqueuing(pc) || Dequeuing(pc) || Leaving(pc)) {
        OutsideInv(r, tid, act);
      } else if Enqueuing(pc) {
        EnqInv(r, tid, act.spurious);
      } else if Dequeuing(pc) {
        DeqInv(r, tid, act.spurious);
      } else {
        LeavingInv(r, tid, act.spurious);
      }
    }
  }

  lemma OutsideInv(r: Ring, tid: nat, act: Action)
    requires Inv(r) && tid < |r.threads| && !act.Seal?
    requires act.Start? || r.threads[tid].Rest? || r.threads[tid].Reply?
    ensures Inv(Step(r, tid, act))
  {
    if act.Start? {
      if r.threads[tid].Rest? {
        MoveStep(r, tid, Entry0(r.half, act.op));
      }
    } else {
      MoveStep(r, tid, Rest);
    }
  }

  lemma SealInv(r: Ring)
    requires Inv(r)
    ensures Inv(r.(finalized := true))
  {
    var r' := r.(finalized := true);
    HistoryKept(r, r');
    forall a | 0 <= a < |r'.threads| ensures PcOk(r', r'.threads[a]) {
      assert PcOk(r, r.threads[a]);
      BystanderOk(r, r', r.threads[a]);
    }
    forall h: nat | h < r'.head && !Settled(r', h)
      ensures exists a :: 0 <= a < |r'.threads| && DeqTicket(r'.threads[a]) == Some(h)
    {
      assert !Settled(r, h);
    }
  }
}

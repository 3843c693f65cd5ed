/** The word ring runs in lockstep with the ring of records: packing the records after a step gives
    the words after the same step. */
module ScqEncoding {
  import opened Options
  import opened Arithmetic
  import opened Bits
  import opened PackedEntries
  import opened ScqRing
  import opened ScqInvariant
  import opened ScqSteps
  import opened ScqRuns
  import opened ScqWords

  function PackPc(w: nat, k: nat, pc: Pc): WordPc {
    match pc
    case Rest => Rest
    case EnqTail(i) => EnqTail(i)
    case EnqLoad(i, t) => EnqLoad(i, t)
    case EnqHead(i, t, e) => EnqHead(i, t, Pack(w, k, e))
    case EnqSeal(i, t, e) => EnqSeal(i, t, Pack(w, k, e))
    case EnqCas(i, t, e) => EnqCas(i, t, Pack(w, k, e))
    case EnqThreshold(i, t) => EnqThreshold(i, t)
    case EnqReset(i, t) => EnqReset(i, t)
    case DeqThreshold => DeqThreshold
    case DeqHead => DeqHead
    case DeqLoad(h, attempt) => DeqLoad(h, attempt)
    case DeqCas(h, attempt, e) => DeqCas(h, attempt, Pack(w, k, e))
    case DeqTake(h, e) => DeqTake(h, Pack(w, k, e))
    case DeqTail(h) => DeqTail(h)
    case CatchCas(t, h) => CatchCas(t, h)
    case CatchHead => CatchHead
    case CatchTail(h) => CatchTail(h)
    case DeqLast => DeqLast
    case DeqNext => DeqNext
    case Reply(op, res) => Reply(op, res)
  }

  function PackEntries(w: nat, k: nat, es: seq<Entry>): seq<nat> {
    seq(|es|, i requires 0 <= i < |es| => Pack(w, k, es[i]))
  }

  function PackPcs(w: nat, k: nat, pcs: seq<Pc>): seq<WordPc> {
    seq(|pcs|, a requires 0 <= a < |pcs| => PackPc(w, k, pcs[a]))
  }

  function PackRing(w: nat, k: nat, r: Ring): WordRing {
    WordRing(w, k, r.finalizable, r.finalized, r.head, r.tail, r.threshold,
             PackEntries(w, k, r.entries), PackPcs(w, k, r.threads))
  }

  /** The ring has 2^k slots and its counters leave two bits of the word free. */
  predicate Room(r: Ring, w: nat, k: nat) {
    Format(w, k) && r.half == Pow2(k - 1) && r.head < Pow2(w - 2) && r.tail < Pow2(w - 2)
  }

  // ---- frames -----------------------------------------------------------------------------------------

  lemma PackMove(w: nat, k: nat, r: Ring, tid: nat, pc: Pc)
    requires tid < |r.threads|
    ensures PackRing(w, k, WithPc(r, tid, pc)) == Moved(PackRing(w, k, r), tid, PackPc(w, k, pc))
  {
    assert PackPcs(w, k, r.threads[tid := pc]) == PackPcs(w, k, r.threads)[tid := PackPc(w, k, pc)];
  }

  lemma SlotIs(w: nat, k: nat, r: Ring, t: nat)
    requires Room(r, w, k) && t < Pow2(w - 2)
    ensures SlotAt(PackRing(w, k, r), t) == SlotOf(r, t)
    ensures t < Pow2(w)
  {
    PowAdd(2, w - 2);
    Masks(w, k, t);
  }

  /** Words and records agree on the entry a ticket leads to. */
  lemma LoadIs(w: nat, k: nat, r: Ring, t: nat)
    requires Room(r, w, k) && |r.entries| == Size(r) && EntriesOk(r) && TakenOk(r) && PlacedOk(r) && GoneOk(r)
    requires t < Pow2(w - 2)
    ensures Loads(w, k, r, t, EntryOf(r, t))
  {
    SlotIs(w, k, r, t);
    assert EntryOk(r, SlotOf(r, t));
  }

  predicate Loads(w: nat, k: nat, r: Ring, t: nat, e: Entry) {
    && r.half > 0 && |r.entries| == Size(r) && EntryOf(r, t) == e
    && WordAt(PackRing(w, k, r), t) == Pack(w, k, e) && Fits(w, k, e) && InSlot(r.half, e, SlotOf(r, t))
  }

  lemma StoreIs(w: nat, k: nat, r: Ring, t: nat, e: Entry)
    requires Room(r, w, k) && |r.entries| == Size(r) && t < Pow2(w - 2)
    ensures PackRing(w, k, WithEntry(r, t, e)) == StoreAt(PackRing(w, k, r), t, Pack(w, k, e))
  {
    SlotIs(w, k, r, t);
    var slot := SlotOf(r, t);
    assert PackEntries(w, k, r.entries[slot := e]) == PackEntries(w, k, r.entries)[slot := Pack(w, k, e)];
  }

  /** In one slot, cycles are ordered as turns are. */
  lemma CyclesAreTurns(n: int, a: int, b: int)
    requires n > 0 && a % n == b % n
    ensures a / n < b / n <==> a < b
    ensures a / n == b / n <==> a == b
  {
    DivisionParts(n, a);
    DivisionParts(n, b);
    Subtract(b / n, a / n, n);
    Subtract(a / n, b / n, n);
    if a / n < b / n {
      MulMonotone(1, b / n - a / n, n);
    } else if b / n < a / n {
      MulMonotone(1, a / n - b / n, n);
    }
  }

  /** What the tests on an entry's word say about its record. */
  lemma TestsAre(w: nat, k: nat, e: Entry, t: nat, n: nat)
    requires Fits(w, k, e) && t < Pow2(w - 2) && n == Pow2(k) && e.turn % n == t % n
    ensures var x := Pack(w, k, e); var ecycle, tcycle := ModUp(w, k, x), Cycle(w, k, t);
      && (Order(w, ecycle, tcycle) < 0 <==> e.turn < t)
      && (ecycle == tcycle <==> e.turn == t)
      && (x == ecycle <==> e.safe && e.index == n - 1)
      && (x == Xor(w, ecycle, Pow2(k)) <==> !e.safe && e.index == n - 1)
      && (Or(w, x, Pow2(k)) == ecycle <==> e.index == n - 1)
  {
    CycleOrder(w, k, e, t);
    CyclesAreTurns(n, e.turn, t);
    ModUpIs(w, k, e);
    PackInjective(w, k, e, Entry(e.turn, true, n - 1));
    UnsafeEmptyIs(w, k, e.turn);
    PackInjective(w, k, e, Entry(e.turn, false, n - 1));
    OrSafeIs(w, k, e);
    PackInjective(w, k, e.(safe := true), Entry(e.turn, true, n - 1));
  }

  lemma UnsafeTestIs(w: nat, k: nat, e: Entry)
    requires Fits(w, k, e)
    ensures Pow2(k) < Pow2(w)
    ensures Pack(w, k, e) == MarkUnsafe(w, k, Pack(w, k, e)) <==> !e.safe
  {
    MarkUnsafeIs(w, k, e);
    PackInjective(w, k, e, e.(safe := false));
  }

  /** Comparing words for equality compares records of one slot. */
  lemma SameWord(w: nat, k: nat, n: nat, e: Entry, e': Entry)
    requires Fits(w, k, e) && Fits(w, k, e') && n == Pow2(k) && e.turn % n == e'.turn % n
    ensures Pack(w, k, e) == Pack(w, k, e') <==> e == e'
  {
    PackInjective(w, k, e, e');
    CyclesAreTurns(n, e.turn, e'.turn);
  }

  // ---- enqueue ------------------------------------------------------------------------------------------

  lemma EnqLoadLockstep(w: nat, k: nat, r: Ring, i: nat, t: nat)
    requires Inv(r) && Room(r, w, k) && t < Pow2(w - 2)
    ensures TestWord(PackRing(w, k, r), i, t) == PackPc(w, k, EnqTest(r, EnqLoad(i, t)))
  {
    LoadIs(w, k, r, t);
    TestsAre(w, k, EntryOf(r, t), t, Pow2(k));
  }

  ghost predicate Lockstep(w: nat, k: nat, r: Ring, tid: nat, act: Action)
    requires r.half > 0 && |r.entries| == Size(r) && Format(w, k)
  {
    && Pow2(k) < Pow2(w)
    && StepWord(PackRing(w, k, r), tid, act) == PackRing(w, k, Step(r, tid, act))
  }

  lemma WordRoom(w: nat, k: nat)
    requires Format(w, k)
    ensures Pow2(k) < Pow2(w) && 4 * Pow2(w - 2) == Pow2(w) && Pow2(w - 1) == 2 * Pow2(w - 2)
  {
    PowAdd(2, w - 2);
    PowAdd(1, w - 2);
    PowAdd(w - k, k);
    PowAdd(2, w - k - 2);
    MulMonotone(1, Pow2(w - k - 2), Pow2(k));
  }

  /** Counters below a quarter of the word range are compared as numbers. */
  lemma CounterOrder(w: nat, a: nat, b: nat)
    requires w >= 2 && a <= Pow2(w - 2) && b <= Pow2(w - 2)
    ensures Order(w, a, b) == a - b && a % Pow2(w) == a
  {
    PowAdd(2, w - 2);
    PowAdd(1, w - 2);
    SlotOfSmall(Pow2(w), a);
    SlotOfSmall(Pow2(w), b);
    OrderIs(w, a, b);
  }

  lemma Increment(w: nat, a: nat)
    requires w >= 2 && a < Pow2(w - 2)
    ensures (a + 1) % Pow2(w) == a + 1
  {
    PowAdd(2, w - 2);
    SlotOfSmall(Pow2(w), a + 1);
  }

  lemma EnqTailLockstep(w: nat, k: nat, r: Ring, tid: nat, spurious: bool)
    requires Room(r, w, k) && |r.entries| == Size(r) && tid < |r.threads| && r.threads[tid].EnqTail?
    ensures EnqueueWord(PackRing(w, k, r), tid, spurious) == PackRing(w, k, StepEnq(r, tid, spurious))
  {
    var r' := StepEnq(r, tid, spurious);
    Increment(w, r.tail);
    PackMove(w, k, r.(tail := r'.tail), tid, r'.threads[tid]);
  }

  lemma EnqHeadLockstep(w: nat, k: nat, r: Ring, tid: nat, spurious: bool)
    requires Room(r, w, k) && |r.entries| == Size(r) && tid < |r.threads|
    requires r.threads[tid].EnqHead? && r.threads[tid].t < r.tail
    ensures EnqueueWord(PackRing(w, k, r), tid, spurious) == PackRing(w, k, StepEnq(r, tid, spurious))
  {
    CounterOrder(w, r.head, r.threads[tid].t);
    PackMove(w, k, r, tid, EnqTest(r, r.threads[tid]));
  }

  lemma EnqRestLockstep(w: nat, k: nat, r: Ring, tid: nat, spurious: bool)
    requires Room(r, w, k) && |r.entries| == Size(r) && tid < |r.threads|
    requires var pc := r.threads[tid]; pc.EnqSeal? || pc.EnqThreshold? || pc.EnqReset?
    ensures EnqueueWord(PackRing(w, k, r), tid, spurious) == PackRing(w, k, StepEnq(r, tid, spurious))
  {
    var r' := StepEnq(r, tid, spurious);
    PackMove(w, k, r.(threshold := r'.threshold), tid, r'.threads[tid]);
  }

  lemma EnqCasLockstep(w: nat, k: nat, r: Ring, tid: nat, spurious: bool, c: Entry)
    requires Room(r, w, k) && tid < |r.threads| && r.threads[tid].EnqCas? && Loads(w, k, r, r.threads[tid].t, c)
    requires var EnqCas(i, t, e) := r.threads[tid];
      Fits(w, k, e) && InSlot(r.half, e, SlotOf(r, t)) && t < Pow2(w - 2) && i < r.half
    ensures EnqueueWord(PackRing(w, k, r), tid, spurious) == PackRing(w, k, StepEnq(r, tid, spurious))
  {
    var EnqCas(i, t, e) := r.threads[tid];
    SameWord(w, k, Pow2(k), c, e);
    if !spurious && c == e {
      InsertIs(w, k, t, i);
      StoreIs(w, k, r, t, Placed(t, i));
      PackMove(w, k, WithEntry(r, t, Placed(t, i)), tid, EnqThreshold(i, t));
    } else {
      PackMove(w, k, r, tid, EnqLoad(i, t));
    }
  }

  lemma EnqLockstep(w: nat, k: nat, r: Ring, tid: nat, spurious: bool)
    requires Inv(r) && Room(r, w, k) && tid < |r.threads| && Enqueuing(r.threads[tid])
    ensures EnqueueWord(PackRing(w, k, r), tid, spurious) == PackRing(w, k, StepEnq(r, tid, spurious))
  {
    var pc := r.threads[tid];
    assert PcOk(r, pc);
    if pc.EnqCas? {
      LoadIs(w, k, r, pc.t);
      EnqCasLockstep(w, k, r, tid, spurious, EntryOf(r, pc.t));
    } else if pc.EnqLoad? {
      EnqLoadLockstep(w, k, r, pc.i, pc.t);
      PackMove(w, k, r, tid, EnqTest(r, pc));
    } else if pc.EnqTail? {
      EnqTailLockstep(w, k, r, tid, spurious);
    } else if pc.EnqHead? {
      EnqHeadLockstep(w, k, r, tid, spurious);
    } else {
      EnqRestLockstep(w, k, r, tid, spurious);
    }
  }

  // ---- dequeue ------------------------------------------------------------------------------------------

  lemma LookLockstep(w: nat, k: nat, r: Ring, tid: nat, h: nat, attempt: nat)
    requires Inv(r) && Room(r, w, k) && h < Pow2(w - 2) && tid < |r.threads| && Pow2(k) < Pow2(w)
    ensures LookAt(PackRing(w, k, r), h, attempt) == PackPc(w, k, Look(r, tid, h, attempt).threads[tid])
  {
    LoadIs(w, k, r, h);
    TestsAre(w, k, EntryOf(r, h), h, Pow2(k));
    UnsafeTestIs(w, k, EntryOf(r, h));
  }

  lemma LookPacks(w: nat, k: nat, r: Ring, tid: nat, h: nat, attempt: nat)
    requires r.half > 0 && |r.entries| == Size(r) && tid < |r.threads|
    ensures var r' := Look(r, tid, h, attempt); PackRing(w, k, r') == PackRing(w, k, WithPc(r, tid, r'.threads[tid]))
  {
  }

  lemma SwapIs(w: nat, k: nat, r: Ring, e: Entry, h: nat)
    requires Room(r, w, k) && Fits(w, k, e) && h < Pow2(w - 2) && Pow2(k) < Pow2(w) && e.turn % Pow2(k) == h % Pow2(k)
    ensures NewWord(PackRing(w, k, r), Pack(w, k, e), h) == Pack(w, k, Swapped(r.half, e, h))
  {
    TestsAre(w, k, e, h, Pow2(k));
    MarkUnsafeIs(w, k, e);
    AdvanceIs(w, k, e, h);
  }

  lemma DeqCasLockstep(w: nat, k: nat, r: Ring, tid: nat, spurious: bool, c: Entry)
    requires Room(r, w, k) && Pow2(k) < Pow2(w)
    requires tid < |r.threads| && r.threads[tid].DeqCas? && Loads(w, k, r, r.threads[tid].h, c)
    requires var DeqCas(h, _, e) := r.threads[tid]; Fits(w, k, e) && InSlot(r.half, e, SlotOf(r, h)) && h < Pow2(w - 2)
    ensures DequeueWord(PackRing(w, k, r), tid, spurious) == PackRing(w, k, StepDeq(r, tid, spurious))
  {
    var DeqCas(h, attempt, e) := r.threads[tid];
    SameWord(w, k, Pow2(k), c, e);
    if !spurious && c == e {
      SwapIs(w, k, r, e, h);
      SwapStored(w, k, r, tid, h, Swapped(r.half, e, h));
    } else {
      PackMove(w, k, r, tid, DeqLoad(h, attempt));
    }
  }

  lemma SwapStored(w: nat, k: nat, r: Ring, tid: nat, h: nat, e: Entry)
    requires Room(r, w, k) && |r.entries| == Size(r) && tid < |r.threads| && h < Pow2(w - 2)
    ensures PackRing(w, k, Leave(WithEntry(r, h, e), tid, h))
         == Moved(StoreAt(PackRing(w, k, r), h, Pack(w, k, e)), tid, DeqTail(h))
  {
    StoreIs(w, k, r, h, e);
    PackMove(w, k, WithEntry(r, h, e), tid, DeqTail(h));
  }

  lemma TakeLockstep(w: nat, k: nat, r: Ring, tid: nat, spurious: bool, c: Entry)
    requires Room(r, w, k) && Pow2(k) < Pow2(w)
    requires tid < |r.threads| && r.threads[tid].DeqTake? && Loads(w, k, r, r.threads[tid].h, c)
    requires Fits(w, k, r.threads[tid].e) && r.threads[tid].h < Pow2(w - 2)
    ensures DequeueWord(PackRing(w, k, r), tid, spurious) == PackRing(w, k, StepDeq(r, tid, spurious))
  {
    var DeqTake(h, e) := r.threads[tid];
    ConsumeIs(w, k, c);
    ConsumeIs(w, k, e);
    StoreIs(w, k, r, h, Consumed(r.half, c));
    PackMove(w, k, WithEntry(r, h, Consumed(r.half, c)), tid, Reply(Op.Dequeue, Got(e.index, h)));
  }

  lemma DeqHeadLockstep(w: nat, k: nat, r: Ring, tid: nat, spurious: bool)
    requires Room(r, w, k) && |r.entries| == Size(r) && Pow2(k) < Pow2(w) && tid < |r.threads| && r.threads[tid].DeqHead?
    ensures DequeueWord(PackRing(w, k, r), tid, spurious) == PackRing(w, k, StepDeq(r, tid, spurious))
  {
    var q := PackRing(w, k, r);
    Increment(w, r.head);
    assert Add(q, q.head, 1) == r.head + 1;
    assert q.threads[tid] == DeqHead;
    assert DequeueWord(q, tid, spurious) == Moved(q.(head := r.head + 1), tid, DeqLoad(r.head, 0));
    PackMove(w, k, r.(head := r.head + 1), tid, DeqLoad(r.head, 0));
  }

  lemma DeqThresholdLockstep(w: nat, k: nat, r: Ring, tid: nat, spurious: bool)
    requires Room(r, w, k) && |r.entries| == Size(r) && Pow2(k) < Pow2(w) && tid < |r.threads| && r.threads[tid].DeqThreshold?
    ensures DequeueWord(PackRing(w, k, r), tid, spurious) == PackRing(w, k, StepDeq(r, tid, spurious))
  {
    PackMove(w, k, r, tid, if r.threshold < 0 then Reply(Op.Dequeue, Nothing) else DeqHead);
  }

  lemma DeqLockstep(w: nat, k: nat, r: Ring, tid: nat, spurious: bool)
    requires Inv(r) && Room(r, w, k) && tid < |r.threads| && Dequeuing(r.threads[tid]) && Pow2(k) < Pow2(w)
    ensures DequeueWord(PackRing(w, k, r), tid, spurious) == PackRing(w, k, StepDeq(r, tid, spurious))
  {
    var pc := r.threads[tid];
    assert PcOk(r, pc);
    if pc.DeqLoad? {
      LookLockstep(w, k, r, tid, pc.h, pc.attempt);
      LookPacks(w, k, r, tid, pc.h, pc.attempt);
      PackMove(w, k, r, tid, Look(r, tid, pc.h, pc.attempt).threads[tid]);
    } else if pc.DeqCas? {
      LoadIs(w, k, r, pc.h);
      DeqCasLockstep(w, k, r, tid, spurious, EntryOf(r, pc.h));
    } else if pc.DeqTake? {
      LoadIs(w, k, r, pc.h);
      TakeLockstep(w, k, r, tid, spurious, EntryOf(r, pc.h));
    } else if pc.DeqHead? {
      DeqHeadLockstep(w, k, r, tid, spurious);
    } else {
      DeqThresholdLockstep(w, k, r, tid, spurious);
    }
  }

  lemma LeaveLockstep(w: nat, k: nat, r: Ring, tid: nat, spurious: bool)
    requires Room(r, w, k) && tid < |r.threads| && Leaving(r.threads[tid]) && Left(r.head, r.threads[tid])
    ensures LeaveWord(PackRing(w, k, r), tid, spurious) == PackRing(w, k, StepLeave(r, tid, spurious))
  {
    var pc := r.threads[tid];
    if pc.DeqTail? {
      DeqTailLockstep(w, k, r, tid, spurious);
    } else if pc.DeqLast? || pc.DeqNext? {
      DeqLastLockstep(w, k, r, tid, spurious);
    } else if pc.CatchTail? {
      CatchTailLockstep(w, k, r, tid, spurious);
    } else {
      CatchCasLockstep(w, k, r, tid, spurious);
    }
  }

  lemma DeqTailLockstep(w: nat, k: nat, r: Ring, tid: nat, spurious: bool)
    requires Room(r, w, k) && tid < |r.threads| && r.threads[tid].DeqTail? && r.threads[tid].h < r.head
    ensures LeaveWord(PackRing(w, k, r), tid, spurious) == PackRing(w, k, StepLeave(r, tid, spurious))
  {
    var h := r.threads[tid].h;
    Increment(w, h);
    CounterOrder(w, r.tail, h + 1);
    PackMove(w, k, r, tid, if r.tail <= h + 1 then CatchCas(r.tail, h + 1) else DeqNext);
  }

  lemma DeqLastLockstep(w: nat, k: nat, r: Ring, tid: nat, spurious: bool)
    requires tid < |r.threads| && (r.threads[tid].DeqLast? || r.threads[tid].DeqNext?)
    ensures LeaveWord(PackRing(w, k, r), tid, spurious) == PackRing(w, k, StepLeave(r, tid, spurious))
  {
    var r' := r.(threshold := r.threshold - 1);
    PackMove(w, k, r', tid, Reply(Op.Dequeue, Nothing));
    PackMove(w, k, r', tid, DeqHead);
  }

  lemma CatchTailLockstep(w: nat, k: nat, r: Ring, tid: nat, spurious: bool)
    requires Room(r, w, k) && tid < |r.threads| && r.threads[tid].CatchTail? && r.threads[tid].h <= r.head
    ensures LeaveWord(PackRing(w, k, r), tid, spurious) == PackRing(w, k, StepLeave(r, tid, spurious))
  {
    var h := r.threads[tid].h;
    CounterOrder(w, r.tail, h);
    PackMove(w, k, r, tid, if r.tail >= h then DeqLast else CatchCas(r.tail, h));
  }

  lemma CatchCasLockstep(w: nat, k: nat, r: Ring, tid: nat, spurious: bool)
    requires tid < |r.threads| && (r.threads[tid].CatchCas? || r.threads[tid].CatchHead?)
    ensures LeaveWord(PackRing(w, k, r), tid, spurious) == PackRing(w, k, StepLeave(r, tid, spurious))
  {
    var pc := r.threads[tid];
    if pc.CatchHead? {
      PackMove(w, k, r, tid, CatchTail(r.head));
    } else if !spurious && r.tail == pc.t {
      PackMove(w, k, r.(tail := pc.h), tid, DeqLast);
    } else {
      PackMove(w, k, r, tid, CatchHead);
    }
  }

  // ---- every step ------------------------------------------------------------------------------------------

  lemma StepLockstep(w: nat, k: nat, r: Ring, tid: nat, act: Action)
    requires Inv(r) && Room(r, w, k)
    ensures Lockstep(w, k, r, tid, act)
  {
    WordRoom(w, k);
    if tid < |r.threads| && act.Run? {
      RunLockstep(w, k, r, tid, act.spurious);
    } else if tid < |r.threads| && act.Start? && r.threads[tid].Rest? {
      PackMove(w, k, r, tid, Entry0(r.half, act.op));
    }
  }

  lemma RunLockstep(w: nat, k: nat, r: Ring, tid: nat, spurious: bool)
    requires Inv(r) && Room(r, w, k) && Pow2(k) < Pow2(w) && tid < |r.threads|
    ensures StepWord(PackRing(w, k, r), tid, Run(spurious)) == PackRing(w, k, Step(r, tid, Run(spurious)))
  {
    var pc := r.threads[tid];
    SameKind(w, k, pc);
    assert PcOk(r, pc);
    if Enqueuing(pc) {
      EnqLockstep(w, k, r, tid, spurious);
    } else if Dequeuing(pc) {
      DeqLockstep(w, k, r, tid, spurious);
    } else if Leaving(pc) {
      LeaveLockstep(w, k, r, tid, spurious);
    } else {
      PackMove(w, k, r, tid, Rest);
    }
  }

  lemma SameKind(w: nat, k: nat, pc: Pc)
    ensures Entering(PackPc(w, k, pc)) == Enqueuing(pc)
    ensures Fetching(PackPc(w, k, pc)) == Dequeuing(pc)
    ensures GivingUp(PackPc(w, k, pc)) == Leaving(pc)
  {
  }

  // ---- runs ---------------------------------------------------------------------------------------------------

  /** Counters move by at most one ticket a step, and `catchup` never moves past the head. */
  lemma CountersStep(r: Ring, tid: nat, act: Action, bound: nat)
    requires Inv(r) && r.head <= bound && r.tail <= bound
    ensures Step(r, tid, act).head <= bound + 1 && Step(r, tid, act).tail <= bound + 1
  {
    if tid < |r.threads| && act.Run? {
      assert PcOk(r, r.threads[tid]);
      RunCounters(r, tid, act.spurious, bound);
    }
  }

  lemma RunCounters(r: Ring, tid: nat, spurious: bool, bound: nat)
    requires r.half > 0 && |r.entries| == Size(r) && r.head <= bound && r.tail <= bound && tid < |r.threads|
    requires r.threads[tid].CatchCas? ==> r.threads[tid].h <= r.head
    ensures Step(r, tid, Run(spurious)).head <= bound + 1 && Step(r, tid, Run(spurious)).tail <= bound + 1
  {
    if Enqueuing(r.threads[tid]) {
      assert StepEnq(r, tid, spurious).head == r.head && StepEnq(r, tid, spurious).tail <= bound + 1;
    } else if Dequeuing(r.threads[tid]) {
      assert StepDeq(r, tid, spurious).head <= bound + 1 && StepDeq(r, tid, spurious).tail == r.tail;
    } else if Leaving(r.threads[tid]) {
      assert StepLeave(r, tid, spurious).head == r.head && StepLeave(r, tid, spurious).tail <= bound + 1;
    }
  }

  lemma {:induction false} CountersBounded(r: Ring, sch: seq<Turn>, bound: nat)
    requires Inv(r) && r.head <= bound && r.tail <= bound
    ensures Exec(r, sch).head <= bound + |sch| && Exec(r, sch).tail <= bound + |sch| && Exec(r, sch).half == r.half
  {
    if sch != [] {
      var prefix, turn := sch[..|sch| - 1], sch[|sch| - 1];
      CountersBounded(r, prefix, bound);
      CountersStep(Exec(r, prefix), turn.tid, turn.act, bound + |prefix|);
    }
  }

  lemma StepKeepsFormat(q: WordRing, tid: nat, act: Action)
    requires q.k > 0 && Pow2(q.k) < Pow2(q.w)
    ensures StepWord(q, tid, act).k == q.k && StepWord(q, tid, act).w == q.w
  {
    if tid < |q.threads| && act.Run? {
      assert EnqueueWord(q, tid, act.spurious).k == q.k && EnqueueWord(q, tid, act.spurious).w == q.w;
      assert DequeueWord(q, tid, act.spurious).k == q.k && DequeueWord(q, tid, act.spurious).w == q.w;
      assert LeaveWord(q, tid, act.spurious).k == q.k && LeaveWord(q, tid, act.spurious).w == q.w;
    }
  }

  function ExecWords(q: WordRing, sch: seq<Turn>): (q': WordRing)
    requires q.k > 0 && Pow2(q.k) < Pow2(q.w)
    ensures q'.k == q.k && q'.w == q.w
  {
    if sch == [] then q
    else
      var prev, turn := ExecWords(q, sch[..|sch| - 1]), sch[|sch| - 1];
      StepKeepsFormat(prev, turn.tid, turn.act);
      StepWord(prev, turn.tid, turn.act)
  }

  /** The words of a run are the packed records of the same run. */
  lemma {:induction false} WordsFollowRecords(w: nat, k: nat, r: Ring, sch: seq<Turn>)
    requires Inv(r) && Format(w, k) && r.half == Pow2(k - 1)
    requires r.head + |sch| < Pow2(w - 2) && r.tail + |sch| < Pow2(w - 2)
    ensures Pow2(k) < Pow2(w) && ExecWords(PackRing(w, k, r), sch) == PackRing(w, k, Exec(r, sch))
  {
    WordRoom(w, k);
    if sch != [] {
      var prefix, turn := sch[..|sch| - 1], sch[|sch| - 1];
      WordsFollowRecords(w, k, r, prefix);
      CountersBounded(r, prefix, if r.head > r.tail then r.head else r.tail);
      StepLockstep(w, k, Exec(r, prefix), turn.tid, turn.act);
    }
  }

  // ---- new rings ------------------------------------------------------------------------------------------------

  /** -1 is the record of cycle -1, safe and empty. */
  lemma MinusOneIs(w: nat, k: nat, slot: nat)
    requires Format(w, k) && slot < Pow2(k)
    ensures MinusOne(w) == Pack(w, k, Entry(slot - Pow2(k), true, Pow2(k) - 1))
  {
    var e := Entry(slot - Pow2(k), true, Pow2(k) - 1);
    DivisionIs(Pow2(k), slot - Pow2(k), -1, slot);
    PowAdd(w - k - 1, k + 1);
    AllOnes(CycleBits(w, k, e), Pow2(w - k - 1), Pow2(k + 1), Pow2(w));
  }

  lemma AllOnes(c: int, m: int, p: int, x: int)
    requires c == m - 1 && x == m * p && m > 0 && p > 0
    ensures c * p + p - 1 == x - 1
  {
    MulSteps(m, p);
  }

  lemma FullWordIs(w: nat, k: nat, slot: nat)
    requires Format(w, k) && slot < Pow2(k - 1)
    ensures Pow2(k) + slot == Pack(w, k, Entry(slot, true, slot))
  {
    SlotOfSmall(Pow2(k), slot);
  }

  /** The arrays of new rings, all ones or filled directly, are the packed records of the model's. */
  lemma NewRingsPacked(w: nat, k: nat, finalizable: bool, threads: nat)
    requires Format(w, k)
    ensures NewEmpty(w, k, finalizable, threads) == PackRing(w, k, EmptyRing(Pow2(k - 1), finalizable, threads))
    ensures NewFull(w, k, finalizable, threads) == PackRing(w, k, FullRing(Pow2(k - 1), finalizable, threads))
  {
    var empty, full := EmptyRing(Pow2(k - 1), finalizable, threads), FullRing(Pow2(k - 1), finalizable, threads);
    forall i | 0 <= i < Pow2(k)
      ensures NewEmpty(w, k, finalizable, threads).entries[i] == Pack(w, k, empty.entries[i])
      ensures NewFull(w, k, finalizable, threads).entries[i] == Pack(w, k, full.entries[i])
    {
      MinusOneIs(w, k, i);
      if i < Pow2(k - 1) {
        FullWordIs(w, k, i);
      }
    }
    assert NewEmpty(w, k, finalizable, threads).entries == PackEntries(w, k, empty.entries);
    assert NewFull(w, k, finalizable, threads).entries == PackEntries(w, k, full.entries);
    assert NewEmpty(w, k, finalizable, threads).threads == PackPcs(w, k, empty.threads);
    assert NewFull(w, k, finalizable, threads).threads == PackPcs(w, k, full.threads);
  }

  /** From new rings on, the words of every run are the packed records of the same run, until a
      counter reaches a quarter of the word range. */
  lemma NewRingsRun(w: nat, k: nat, finalizable: bool, threads: nat, sch: seq<Turn>)
    requires Format(w, k) && Pow2(k - 1) + |sch| < Pow2(w - 2)
    ensures Pow2(k) < Pow2(w)
    ensures var r := EmptyRing(Pow2(k - 1), finalizable, threads);
      Inv(r) && ExecWords(NewEmpty(w, k, finalizable, threads), sch) == PackRing(w, k, Exec(r, sch))
    ensures var r := FullRing(Pow2(k - 1), finalizable, threads);
      Inv(r) && ExecWords(NewFull(w, k, finalizable, threads), sch) == PackRing(w, k, Exec(r, sch))
  {
    NewRingsPacked(w, k, finalizable, threads);
    EmptyRingInv(Pow2(k - 1), finalizable, threads);
    FullRingInv(Pow2(k - 1), finalizable, threads);
    WordsFollowRecords(w, k, EmptyRing(Pow2(k - 1), finalizable, threads), sch);
    WordsFollowRecords(w, k, FullRing(Pow2(k - 1), finalizable, threads), sch);
  }
}

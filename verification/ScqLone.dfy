/** One call at a time on the machine of the SCQ ring: a thread that runs alone on a ring at rest gets
    exactly the answers of a FIFO of indices, and leaves exactly its contents behind. */
module ScqLone {
  import opened Options
  import opened Arithmetic
  import opened ScqRing
  import I = IndexRing

  // ---- a ring at rest -----------------------------------------------------------------------------------

  /** The ring holds exactly `contents`, as the class of the ring does. */
  predicate Sits(r: Ring, contents: seq<nat>) {
    && I.Laid(r.half, r.head, contents, r.entries)
    && (r.finalized ==> r.finalizable)
    && r.head + |contents| <= r.tail && (!r.finalized ==> r.tail == r.head + |contents|)
    && (contents != [] ==> r.threshold >= 0)
  }

  lemma NewRingsSit(half: nat, finalizable: bool, threads: nat)
    requires half > 0
    ensures Sits(EmptyRing(half, finalizable, threads), [])
    ensures Sits(FullRing(half, finalizable, threads), I.UpTo(half))
  {
    I.LaidNew(half);
    assert EmptyRing(half, finalizable, threads).entries == EmptyRing(half, false, 0).entries;
    assert FullRing(half, finalizable, threads).entries == FullRing(half, false, 0).entries;
  }

  // ---- runs of one thread -----------------------------------------------------------------------------------

  /** One step of a thread inside its call. */
  ghost predicate Moves(r: Ring, tid: nat, r': Ring) {
    && Shaped(r) && tid < |r.threads| && !r.threads[tid].Rest? && !r.threads[tid].Reply?
    && r' == Step(r, tid, Run(false))
  }

  ghost predicate Path(tid: nat, p: seq<Ring>) {
    p != [] && forall i, j :: 0 <= i && j == i + 1 < |p| ==> Moves(p[i], tid, p[j])
  }

  /** Steps of thread tid, all inside its call, lead from r to r'. */
  ghost predicate Works(r: Ring, tid: nat, r': Ring) {
    exists p :: Path(tid, p) && p[0] == r && p[|p| - 1] == r'
  }

  lemma StepKeepsThreads(r: Ring, tid: nat)
    requires Shaped(r) && tid < |r.threads|
    ensures var r' := Step(r, tid, Run(false)); |r'.threads| == |r.threads| && Shaped(r')
  {
    if Enqueuing(r.threads[tid]) {
      assert |StepEnq(r, tid, false).threads| == |r.threads| && Shaped(StepEnq(r, tid, false));
    } else if Dequeuing(r.threads[tid]) {
      assert |StepDeq(r, tid, false).threads| == |r.threads| && Shaped(StepDeq(r, tid, false));
    }
  }

  lemma WorksOn(r: Ring, tid: nat, r1: Ring, r2: Ring)
    requires Works(r, tid, r1) && Works(r1, tid, r2)
    ensures Works(r, tid, r2)
  {
    var p :| Path(tid, p) && p[0] == r && p[|p| - 1] == r1;
    var q :| Path(tid, q) && q[0] == r1 && q[|q| - 1] == r2;
    var pq := p + q[1..];
    forall i, j | 0 <= i && j == i + 1 < |pq| ensures Moves(pq[i], tid, pq[j]) {
      if j < |p| {
        assert Moves(p[i], tid, p[j]);
      } else {
        assert Moves(q[i - |p| + 1], tid, q[j - |p| + 1]);
      }
    }
    assert Path(tid, pq);
  }

  lemma WorksNot(r: Ring, tid: nat)
    ensures Works(r, tid, r)
  {
    assert Path(tid, [r]);
  }

  lemma OneStep(r: Ring, tid: nat, pc: Pc, r': Ring, pc': Pc)
    requires Shaped(r) && tid < |r.threads| && tid < |r'.threads| && !pc.Rest? && !pc.Reply?
    requires Step(WithPc(r, tid, pc), tid, Run(false)) == WithPc(r', tid, pc')
    ensures Works(WithPc(r, tid, pc), tid, WithPc(r', tid, pc'))
  {
    assert Moves(WithPc(r, tid, pc), tid, WithPc(r', tid, pc'));
    assert Path(tid, [WithPc(r, tid, pc), WithPc(r', tid, pc')]);
  }

  lemma Twice(r: Ring, tid: nat, pc: Pc, pc': Pc)
    requires tid < |r.threads|
    ensures WithPc(WithPc(r, tid, pc), tid, pc') == WithPc(r, tid, pc')
  {
    assert r.threads[tid := pc][tid := pc'] == r.threads[tid := pc'];
  }

  // ---- steps of an enqueuer -----------------------------------------------------------------------------------

  lemma DrawTail(r: Ring, tid: nat, i: nat)
    requires Shaped(r) && tid < |r.threads|
    ensures Works(WithPc(r, tid, EnqTail(i)), tid, WithPc(r.(tail := r.tail + 1), tid, EnqLoad(i, r.tail)))
  {
    Twice(r.(tail := r.tail + 1), tid, EnqTail(i), EnqLoad(i, r.tail));
    OneStep(r, tid, EnqTail(i), r.(tail := r.tail + 1), EnqLoad(i, r.tail));
  }

  /** The slot can be filled for ticket t: it is empty, of an earlier turn, and safe unless no dequeuer can
      have reached t. */
  predicate Fillable(r: Ring, t: nat, e: Entry) { IsEmpty(r.half, e) && e.turn < t && (e.safe || r.head <= t) }

  /** Any other slot is passed over. */
  lemma FindOccupied(r: Ring, tid: nat, i: nat, t: nat, e: Entry)
    requires Shaped(r) && tid < |r.threads| && EntryOf(r, t) == e && !Fillable(r, t, e)
    ensures Works(WithPc(r, tid, EnqLoad(i, t)), tid, WithPc(r, tid, EnqTail(i)))
  {
    var load, look := EnqLoad(i, t), EnqHead(i, t, e);
    if IsEmpty(r.half, e) && e.turn < t {
      Twice(r, tid, load, look);
      OneStep(r, tid, load, r, look);
      Twice(r, tid, look, EnqTail(i));
      OneStep(r, tid, look, r, EnqTail(i));
      WorksOn(WithPc(r, tid, load), tid, WithPc(r, tid, look), WithPc(r, tid, EnqTail(i)));
    } else {
      Twice(r, tid, load, EnqTail(i));
      OneStep(r, tid, load, r, EnqTail(i));
    }
  }

  /** A fillable slot leads to the test of `is_finalized`, where there is one, and to the compare-exchange. */
  lemma FindSlot(r: Ring, tid: nat, i: nat, t: nat, e: Entry)
    requires Shaped(r) && tid < |r.threads| && EntryOf(r, t) == e && Fillable(r, t, e)
    ensures Works(WithPc(r, tid, EnqLoad(i, t)), tid, WithPc(r, tid, if r.finalizable then EnqSeal(i, t, e) else EnqCas(i, t, e)))
  {
    var load, look := EnqLoad(i, t), EnqHead(i, t, e);
    var next := if r.finalizable then EnqSeal(i, t, e) else EnqCas(i, t, e);
    if e.safe {
      Twice(r, tid, load, next);
      OneStep(r, tid, load, r, next);
    } else {
      Twice(r, tid, load, look);
      OneStep(r, tid, load, r, look);
      Twice(r, tid, look, next);
      OneStep(r, tid, look, r, next);
      WorksOn(WithPc(r, tid, load), tid, WithPc(r, tid, look), WithPc(r, tid, next));
    }
  }

  lemma FindFree(r: Ring, tid: nat, i: nat, t: nat, e: Entry)
    requires Shaped(r) && tid < |r.threads| && (r.finalized ==> r.finalizable) && EntryOf(r, t) == e && Fillable(r, t, e)
    ensures Works(WithPc(r, tid, EnqLoad(i, t)), tid,
                  WithPc(r, tid, if r.finalized then Reply(Enqueue(i), Finalized) else EnqCas(i, t, e)))
  {
    FindSlot(r, tid, i, t, e);
    if r.finalizable {
      var seal, next := EnqSeal(i, t, e), if r.finalized then Reply(Enqueue(i), Finalized) else EnqCas(i, t, e);
      Twice(r, tid, seal, next);
      OneStep(r, tid, seal, r, next);
      WorksOn(WithPc(r, tid, EnqLoad(i, t)), tid, WithPc(r, tid, seal), WithPc(r, tid, next));
    }
  }

  function WithPlaced(r: Ring, t: nat, i: nat): Ring
    requires r.half > 0 && |r.entries| == Size(r)
  {
    WithEntry(r, t, Placed(t, i)).(placed := r.placed[t := i])
  }

  lemma Exchange(r: Ring, tid: nat, i: nat, t: nat, e: Entry)
    requires Shaped(r) && tid < |r.threads| && EntryOf(r, t) == e
    ensures Works(WithPc(r, tid, EnqCas(i, t, e)), tid, WithPc(WithPlaced(r, t, i), tid, EnqThreshold(i, t)))
  {
    Twice(WithPlaced(r, t, i), tid, EnqCas(i, t, e), EnqThreshold(i, t));
    OneStep(r, tid, EnqCas(i, t, e), WithPlaced(r, t, i), EnqThreshold(i, t));
  }

  /** In any state, an enqueuer that runs alone from its look at the slot of its ticket fills exactly a fillable
      slot of a ring that is not finalized, is refused on a finalized one, and passes over any other slot. */
  lemma LoneTry(r: Ring, tid: nat, i: nat, t: nat) returns (r': Ring, pc: Pc)
    requires Shaped(r) && tid < |r.threads| && (r.finalized ==> r.finalizable)
    ensures tid < |r'.threads| && Works(WithPc(r, tid, EnqLoad(i, t)), tid, WithPc(r', tid, pc))
    ensures if !Fillable(r, t, EntryOf(r, t)) then r' == r && pc == EnqTail(i)
            else if r.finalized then r' == r && pc == Reply(Enqueue(i), Finalized)
            else pc == EnqThreshold(i, t) && r' == WithEntry(r, t, Entry(t, true, i)).(placed := r.placed[t := i])
  {
    var e := EntryOf(r, t);
    if !Fillable(r, t, e) {
      r', pc := r, EnqTail(i);
      FindOccupied(r, tid, i, t, e);
    } else {
      FindFree(r, tid, i, t, e);
      if r.finalized {
        r', pc := r, Reply(Enqueue(i), Finalized);
      } else {
        r', pc := WithPlaced(r, t, i), EnqThreshold(i, t);
        Exchange(r, tid, i, t, e);
        WorksOn(WithPc(r, tid, EnqLoad(i, t)), tid, WithPc(r, tid, EnqCas(i, t, e)), WithPc(r', tid, pc));
      }
    }
  }

  lemma Raise(r: Ring, tid: nat, i: nat, t: nat)
    requires Shaped(r) && tid < |r.threads|
    ensures Works(WithPc(r, tid, EnqThreshold(i, t)), tid,
                  WithPc(r.(threshold := FullThreshold(r.half)), tid, Reply(Enqueue(i), Enqueued(t))))
  {
    var full, done := r.(threshold := FullThreshold(r.half)), Reply(Enqueue(i), Enqueued(t));
    if r.threshold == FullThreshold(r.half) {
      Twice(r, tid, EnqThreshold(i, t), done);
      OneStep(r, tid, EnqThreshold(i, t), full, done);
    } else {
      Twice(r, tid, EnqThreshold(i, t), EnqReset(i, t));
      OneStep(r, tid, EnqThreshold(i, t), r, EnqReset(i, t));
      Twice(full, tid, EnqReset(i, t), done);
      OneStep(r, tid, EnqReset(i, t), full, done);
      WorksOn(WithPc(r, tid, EnqThreshold(i, t)), tid, WithPc(r, tid, EnqReset(i, t)), WithPc(full, tid, done));
    }
  }

  // ---- enqueue ------------------------------------------------------------------------------------------------

  /** What an enqueue of i on a ring with these contents leaves, apart from the thread's own result. */
  predicate AfterEnqueue(r: Ring, contents: seq<nat>, i: nat, res: Res, r': Ring) {
    && r'.threads == r.threads && r'.half == r.half && r'.finalizable == r.finalizable && r'.finalized == r.finalized
    && res == (if i >= r.half then TooLarge else if r.finalized then Finalized else Enqueued(r.tail))
    && (res.TooLarge? ==> r' == r)
    && (res.Finalized? ==> r' == r.(tail := r'.tail) && r.tail < r'.tail && Sits(r', contents))
    && (res.Enqueued? ==>
          && Sits(r', contents + [i]) && r'.head == r.head && r'.tail == r.tail + 1
          && r'.threshold == FullThreshold(r.half) && r'.placed == r.placed[r.tail := i])
  }

  lemma EnqueueOpen(r: Ring, contents: seq<nat>, tid: nat, i: nat) returns (r': Ring)
    requires Sits(r, contents) && |contents| < 2 * r.half && tid < |r.threads| && i < r.half && !r.finalized
    ensures AfterEnqueue(r, contents, i, Enqueued(r.tail), r')
    ensures Works(WithPc(r, tid, EnqTail(i)), tid, WithPc(r', tid, Reply(Enqueue(i), Enqueued(r.tail))))
  {
    var t, r1 := r.tail, r.(tail := r.tail + 1);
    var e := EntryOf(r1, t);
    I.LaidFree(r.half, r.head, contents, r.entries, t);
    I.LaidPut(r.half, r.head, contents, r.entries, i);
    var r2 := WithPlaced(r1, t, i);
    r' := r2.(threshold := FullThreshold(r.half));
    DrawTail(r, tid, i);
    FindFree(r1, tid, i, t, e);
    WorksOn(WithPc(r, tid, EnqTail(i)), tid, WithPc(r1, tid, EnqLoad(i, t)), WithPc(r1, tid, EnqCas(i, t, e)));
    Exchange(r1, tid, i, t, e);
    WorksOn(WithPc(r, tid, EnqTail(i)), tid, WithPc(r1, tid, EnqCas(i, t, e)), WithPc(r2, tid, EnqThreshold(i, t)));
    Raise(r2, tid, i, t);
    WorksOn(WithPc(r, tid, EnqTail(i)), tid, WithPc(r2, tid, EnqThreshold(i, t)), WithPc(r', tid, Reply(Enqueue(i), Enqueued(t))));
  }

  lemma {:induction false} EnqueueSealed(r: Ring, contents: seq<nat>, tid: nat, i: nat, stop: nat) returns (r': Ring)
    requires Sits(r, contents) && |contents| < 2 * r.half && tid < |r.threads| && i < r.half && r.finalized
    requires r.tail <= stop && stop % (2 * r.half) == (r.head + |contents|) % (2 * r.half)
    ensures AfterEnqueue(r, contents, i, Finalized, r')
    ensures Works(WithPc(r, tid, EnqTail(i)), tid, WithPc(r', tid, Reply(Enqueue(i), Finalized)))
    decreases stop - r.tail
  {
    var t, r1 := r.tail, r.(tail := r.tail + 1);
    var e := EntryOf(r1, t);
    assert I.EntryFits(r.half, r.head, contents, e, t % (2 * r.half));
    DrawTail(r, tid, i);
    if IsEmpty(r.half, e) {
      r' := r1;
      FindFree(r1, tid, i, t, e);
      WorksOn(WithPc(r, tid, EnqTail(i)), tid, WithPc(r1, tid, EnqLoad(i, t)), WithPc(r', tid, Reply(Enqueue(i), Finalized)));
    } else {
      if t == stop {
        I.LaidFree(r.half, r.head, contents, r.entries, t);
      }
      FindOccupied(r1, tid, i, t, e);
      WorksOn(WithPc(r, tid, EnqTail(i)), tid, WithPc(r1, tid, EnqLoad(i, t)), WithPc(r1, tid, EnqTail(i)));
      r' := EnqueueSealed(r1, contents, tid, i, stop);
      WorksOn(WithPc(r, tid, EnqTail(i)), tid, WithPc(r1, tid, EnqTail(i)), WithPc(r', tid, Reply(Enqueue(i), Finalized)));
    }
  }

  /** A lone enqueue on a ring at rest: an index out of range and a finalized ring are refused, and any
      other index is appended.  The last step of the call leaves the thread at rest. */
  lemma LoneEnqueue(r: Ring, contents: seq<nat>, tid: nat, i: nat) returns (r': Ring, res: Res)
    requires Sits(r, contents) && |contents| < 2 * r.half && tid < |r.threads| && r.threads[tid].Rest?
    ensures AfterEnqueue(r, contents, i, res, r')
    ensures Works(Step(r, tid, Start(Enqueue(i))), tid, WithPc(r', tid, Reply(Enqueue(i), res)))
    ensures Step(WithPc(r', tid, Reply(Enqueue(i), res)), tid, Run(false)) == r'
  {
    if i >= r.half {
      r', res := r, TooLarge;
      WorksNot(Step(r, tid, Start(Enqueue(i))), tid);
    } else if r.finalized {
      res := Finalized;
      r' := EnqueueSealed(r, contents, tid, i, I.StopTicket(2 * r.half, r.head + |contents|, r.tail));
    } else {
      res := Enqueued(r.tail);
      r' := EnqueueOpen(r, contents, tid, i);
    }
    Returned(r', tid, Reply(Enqueue(i), res));
  }

  lemma Returned(r: Ring, tid: nat, pc: Pc)
    requires Shaped(r) && tid < |r.threads| && r.threads[tid].Rest? && pc.Reply?
    ensures Step(WithPc(r, tid, pc), tid, Run(false)) == r
  {
    Twice(r, tid, pc, Rest);
    assert r.threads[tid := Rest] == r.threads;
  }

  // ---- steps of a dequeuer ----------------------------------------------------------------------------------

  lemma DrawHead(r: Ring, tid: nat)
    requires Shaped(r) && tid < |r.threads|
    ensures Works(WithPc(r, tid, DeqHead), tid, WithPc(r.(head := r.head + 1), tid, DeqLoad(r.head, 0)))
  {
    Twice(r.(head := r.head + 1), tid, DeqHead, DeqLoad(r.head, 0));
    OneStep(r, tid, DeqHead, r.(head := r.head + 1), DeqLoad(r.head, 0));
  }

  function WithTaken(r: Ring, h: nat): Ring
    requires r.half > 0 && |r.entries| == Size(r)
  {
    WithEntry(r, h, Consumed(r.half, EntryOf(r, h))).(taken := r.taken + {h})
  }

  lemma TakeOwn(r: Ring, tid: nat, h: nat, attempt: nat, e: Entry)
    requires Shaped(r) && tid < |r.threads| && EntryOf(r, h) == e && e.turn == h
    ensures Works(WithPc(r, tid, DeqLoad(h, attempt)), tid, WithPc(WithTaken(r, h), tid, Reply(Dequeue, Got(e.index, h))))
  {
    var load, take, done := DeqLoad(h, attempt), DeqTake(h, e), Reply(Dequeue, Got(e.index, h));
    Twice(r, tid, load, take);
    OneStep(r, tid, load, r, take);
    Twice(WithTaken(r, h), tid, take, done);
    OneStep(r, tid, take, WithTaken(r, h), done);
    WorksOn(WithPc(r, tid, load), tid, WithPc(r, tid, take), WithPc(WithTaken(r, h), tid, done));
  }

  lemma LookAgain(r: Ring, tid: nat, h: nat, attempt: nat)
    requires Shaped(r) && tid < |r.threads| && IsEmpty(r.half, EntryOf(r, h)) && EntryOf(r, h).turn != h && attempt < 10
    ensures Works(WithPc(r, tid, DeqLoad(h, attempt)), tid, WithPc(r, tid, DeqLoad(h, attempt + 1)))
  {
    Twice(r, tid, DeqLoad(h, attempt), DeqLoad(h, attempt + 1));
    OneStep(r, tid, DeqLoad(h, attempt), r, DeqLoad(h, attempt + 1));
  }

  lemma SeeTail(r: Ring, tid: nat, h: nat)
    requires Shaped(r) && tid < |r.threads| && r.tail <= h + 1
    ensures Works(WithPc(r, tid, DeqTail(h)), tid, WithPc(r, tid, CatchCas(r.tail, h + 1)))
  {
    Twice(r, tid, DeqTail(h), CatchCas(r.tail, h + 1));
    OneStep(r, tid, DeqTail(h), r, CatchCas(r.tail, h + 1));
  }

  lemma MoveTail(r: Ring, tid: nat, h: nat)
    requires Shaped(r) && tid < |r.threads|
    ensures Works(WithPc(r, tid, CatchCas(r.tail, h)), tid, WithPc(r.(tail := h), tid, DeqLast))
  {
    Twice(r.(tail := h), tid, CatchCas(r.tail, h), DeqLast);
    OneStep(r, tid, CatchCas(r.tail, h), r.(tail := h), DeqLast);
  }

  lemma EndCall(r: Ring, tid: nat)
    requires Shaped(r) && tid < |r.threads|
    ensures Works(WithPc(r, tid, DeqLast), tid, WithPc(r.(threshold := r.threshold - 1), tid, Reply(Dequeue, Nothing)))
  {
    Twice(r.(threshold := r.threshold - 1), tid, DeqLast, Reply(Dequeue, Nothing));
    OneStep(r, tid, DeqLast, r.(threshold := r.threshold - 1), Reply(Dequeue, Nothing));
  }

  /** What a dequeuer of ticket h leaves in a slot that is not of its turn: an index of an earlier turn is
      marked unsafe, an empty entry of an earlier turn is advanced to h and stays as safe as it was, and
      anything of a later turn stays. */
  function LeftBehind(half: nat, e: Entry, h: nat): Entry {
    if e.turn > h then e else if IsEmpty(half, e) then Entry(h, e.safe, Nil(half)) else e.(safe := false)
  }

  function WithLeft(r: Ring, h: nat, c: Entry): Ring
    requires r.half > 0 && |r.entries| == Size(r)
  {
    WithEntry(r, h, c).(gone := r.gone + {h})
  }

  lemma LookLoads(r: Ring, tid: nat, h: nat, attempt: nat, e: Entry)
    requires Shaped(r) && tid < |r.threads| && EntryOf(r, h) == e && e.turn < h && (IsEmpty(r.half, e) || e.safe)
    requires IsEmpty(r.half, e) ==> attempt == 10
    ensures Works(WithPc(r, tid, DeqLoad(h, attempt)), tid,
                  WithPc(r, tid, DeqCas(h, if IsEmpty(r.half, e) then attempt + 1 else attempt, e)))
  {
    var load, cas := DeqLoad(h, attempt), DeqCas(h, if IsEmpty(r.half, e) then attempt + 1 else attempt, e);
    Twice(r, tid, load, cas);
    OneStep(r, tid, load, r, cas);
  }

  lemma LookSwaps(r: Ring, tid: nat, h: nat, attempt: nat, e: Entry)
    requires Shaped(r) && tid < |r.threads| && EntryOf(r, h) == e && e.turn < h
    ensures Works(WithPc(r, tid, DeqCas(h, attempt, e)), tid, WithPc(WithLeft(r, h, LeftBehind(r.half, e, h)), tid, DeqTail(h)))
  {
    var r' := WithLeft(r, h, LeftBehind(r.half, e, h));
    Twice(r', tid, DeqCas(h, attempt, e), DeqTail(h));
    OneStep(r, tid, DeqCas(h, attempt, e), r', DeqTail(h));
  }

  lemma LookOnce(r: Ring, tid: nat, h: nat, attempt: nat, e: Entry)
    requires Shaped(r) && tid < |r.threads| && EntryOf(r, h) == e && e.turn != h
    requires IsEmpty(r.half, e) ==> attempt == 10
    ensures Works(WithPc(r, tid, DeqLoad(h, attempt)), tid, WithPc(WithLeft(r, h, LeftBehind(r.half, e, h)), tid, DeqTail(h)))
  {
    var load, r' := DeqLoad(h, attempt), WithLeft(r, h, LeftBehind(r.half, e, h));
    if e.turn < h && (IsEmpty(r.half, e) || e.safe) {
      var tries := if IsEmpty(r.half, e) then attempt + 1 else attempt;
      LookLoads(r, tid, h, attempt, e);
      LookSwaps(r, tid, h, tries, e);
      WorksOn(WithPc(r, tid, load), tid, WithPc(r, tid, DeqCas(h, tries, e)), WithPc(r', tid, DeqTail(h)));
    } else {
      assert r.entries[SlotOf(r, h) := e] == r.entries;
      Twice(r', tid, load, DeqTail(h));
      OneStep(r, tid, load, r', DeqTail(h));
    }
  }

  /** In any state, a dequeuer that runs alone from its look at the slot of its ticket takes the index of its
      own turn, and otherwise gives its ticket up with the slot left as above. */
  lemma {:induction false} LoneLook(r: Ring, tid: nat, h: nat, attempt: nat) returns (r': Ring, pc: Pc)
    requires Shaped(r) && tid < |r.threads| && attempt <= 10
    ensures tid < |r'.threads| && Works(WithPc(r, tid, DeqLoad(h, attempt)), tid, WithPc(r', tid, pc))
    ensures var e := EntryOf(r, h);
      if e.turn == h then
        pc == Reply(Dequeue, Got(e.index, h)) && r' == WithEntry(r, h, e.(index := Nil(r.half))).(taken := r.taken + {h})
      else pc == DeqTail(h) && r' == WithEntry(r, h, LeftBehind(r.half, e, h)).(gone := r.gone + {h})
    decreases 10 - attempt
  {
    var e := EntryOf(r, h);
    if e.turn == h {
      r', pc := WithTaken(r, h), Reply(Dequeue, Got(e.index, h));
      TakeOwn(r, tid, h, attempt, e);
    } else if IsEmpty(r.half, e) && attempt < 10 {
      LookAgain(r, tid, h, attempt);
      r', pc := LoneLook(r, tid, h, attempt + 1);
      WorksOn(WithPc(r, tid, DeqLoad(h, attempt)), tid, WithPc(r, tid, DeqLoad(h, attempt + 1)), WithPc(r', tid, pc));
    } else {
      r', pc := WithEntry(r, h, LeftBehind(r.half, e, h)).(gone := r.gone + {h}), DeqTail(h);
      LookOnce(r, tid, h, attempt, e);
    }
  }

  /** A thread whose compare-exchange comes too late looks at the slot of the same ticket again. */
  lemma LateExchange(r: Ring, tid: nat, i: nat, t: nat, attempt: nat, e: Entry)
    requires Shaped(r) && tid < |r.threads| && EntryOf(r, t) != e
    ensures Works(WithPc(r, tid, EnqCas(i, t, e)), tid, WithPc(r, tid, EnqLoad(i, t)))
    ensures Works(WithPc(r, tid, DeqCas(t, attempt, e)), tid, WithPc(r, tid, DeqLoad(t, attempt)))
  {
    Twice(r, tid, EnqCas(i, t, e), EnqLoad(i, t));
    OneStep(r, tid, EnqCas(i, t, e), r, EnqLoad(i, t));
    Twice(r, tid, DeqCas(t, attempt, e), DeqLoad(t, attempt));
    OneStep(r, tid, DeqCas(t, attempt, e), r, DeqLoad(t, attempt));
  }

  /** With no ticket after it, the tail catches up and the call ends. */
  lemma CatchUp(r: Ring, tid: nat, h: nat)
    requires Shaped(r) && tid < |r.threads| && r.tail <= h + 1
    ensures Works(WithPc(r, tid, DeqTail(h)), tid,
                  WithPc(r.(tail := h + 1, threshold := r.threshold - 1), tid, Reply(Dequeue, Nothing)))
  {
    var r1 := r.(tail := h + 1);
    SeeTail(r, tid, h);
    MoveTail(r, tid, h + 1);
    WorksOn(WithPc(r, tid, DeqTail(h)), tid, WithPc(r, tid, CatchCas(r.tail, h + 1)), WithPc(r1, tid, DeqLast));
    EndCall(r1, tid);
    WorksOn(WithPc(r, tid, DeqTail(h)), tid, WithPc(r1, tid, DeqLast),
            WithPc(r1.(threshold := r.threshold - 1), tid, Reply(Dequeue, Nothing)));
  }

  lemma GoOn(r: Ring, tid: nat, h: nat)
    requires Shaped(r) && tid < |r.threads| && r.tail > h + 1
    ensures Works(WithPc(r, tid, DeqTail(h)), tid,
                  WithPc(r.(threshold := r.threshold - 1), tid, if r.threshold <= 0 then Reply(Dequeue, Nothing) else DeqHead))
  {
    var next := if r.threshold <= 0 then Reply(Dequeue, Nothing) else DeqHead;
    var r1 := r.(threshold := r.threshold - 1);
    Twice(r, tid, DeqTail(h), DeqNext);
    OneStep(r, tid, DeqTail(h), r, DeqNext);
    Twice(r1, tid, DeqNext, next);
    OneStep(r, tid, DeqNext, r1, next);
    WorksOn(WithPc(r, tid, DeqTail(h)), tid, WithPc(r, tid, DeqNext), WithPc(r1, tid, next));
  }

  // ---- dequeue ------------------------------------------------------------------------------------------------

  /** What a dequeue on a ring with these contents leaves, apart from the thread's own result.  On an
      empty ring every ticket that is given up lowers the threshold by one, until the threshold is used
      up or the head has caught up with the tail. */
  predicate AfterDequeue(r: Ring, contents: seq<nat>, res: Res, r': Ring) {
    && r'.threads == r.threads && r'.half == r.half && r'.finalizable == r.finalizable && r'.finalized == r.finalized
    && res == (if contents == [] then Nothing else Got(contents[0], r.head))
    && Sits(r', if contents == [] then [] else contents[1..])
    && (contents != [] ==> r'.threshold == r.threshold && r'.tail == r.tail && r'.head == r.head + 1)
    && (contents == [] ==>
          && r.head <= r'.head && r'.threshold == r.threshold - (r'.head - r.head)
          && (r'.threshold < 0 || r'.tail == r'.head) && (r.threshold < 0 ==> r' == r)
          && r'.tail == (if r.tail < r'.head then r'.head else r.tail))
  }

  lemma DequeueSome(r: Ring, contents: seq<nat>, tid: nat) returns (r': Ring)
    requires Sits(r, contents) && contents != [] && tid < |r.threads|
    ensures AfterDequeue(r, contents, Got(contents[0], r.head), r')
    ensures Works(WithPc(r, tid, DeqHead), tid, WithPc(r', tid, Reply(Dequeue, Got(contents[0], r.head))))
  {
    var r1 := r.(head := r.head + 1);
    I.LaidTake(r.half, r.head, contents, r.entries);
    r' := WithTaken(r1, r.head);
    DrawHead(r, tid);
    TakeOwn(r1, tid, r.head, 0, EntryOf(r1, r.head));
    WorksOn(WithPc(r, tid, DeqHead), tid, WithPc(r1, tid, DeqLoad(r.head, 0)),
            WithPc(r', tid, Reply(Dequeue, Got(contents[0], r.head))));
  }

  lemma {:induction false} DequeueNone(r: Ring, tid: nat) returns (r': Ring)
    requires Sits(r, []) && tid < |r.threads| && r.threshold >= 0
    ensures AfterDequeue(r, [], Nothing, r')
    ensures Works(WithPc(r, tid, DeqHead), tid, WithPc(r', tid, Reply(Dequeue, Nothing)))
    decreases r.tail - r.head
  {
    var h, r1 := r.head, r.(head := r.head + 1);
    I.LaidSkip(r.half, r.head, r.entries);
    var r2 := WithEntry(r1, h, Advanced(r.half, EntryOf(r1, h), h)).(gone := r1.gone + {h});
    DrawHead(r, tid);
    var left, pc := LoneLook(r1, tid, h, 0);
    WorksOn(WithPc(r, tid, DeqHead), tid, WithPc(r1, tid, DeqLoad(h, 0)), WithPc(r2, tid, DeqTail(h)));
    if r2.tail <= h + 1 {
      CatchUp(r2, tid, h);
      r' := r2.(tail := h + 1, threshold := r2.threshold - 1);
      WorksOn(WithPc(r, tid, DeqHead), tid, WithPc(r2, tid, DeqTail(h)), WithPc(r', tid, Reply(Dequeue, Nothing)));
    } else {
      GoOn(r2, tid, h);
      var r3 := r2.(threshold := r2.threshold - 1);
      if r2.threshold <= 0 {
        r' := r3;
        WorksOn(WithPc(r, tid, DeqHead), tid, WithPc(r2, tid, DeqTail(h)), WithPc(r', tid, Reply(Dequeue, Nothing)));
      } else {
        WorksOn(WithPc(r, tid, DeqHead), tid, WithPc(r2, tid, DeqTail(h)), WithPc(r3, tid, DeqHead));
        r' := DequeueNone(r3, tid);
        WorksOn(WithPc(r, tid, DeqHead), tid, WithPc(r3, tid, DeqHead), WithPc(r', tid, Reply(Dequeue, Nothing)));
      }
    }
  }

  /** A lone dequeue on a ring at rest: the oldest index with its ticket, or nothing exactly when the ring
      is empty.  The last step of the call leaves the thread at rest. */
  lemma LoneDequeue(r: Ring, contents: seq<nat>, tid: nat) returns (r': Ring, res: Res)
    requires Sits(r, contents) && tid < |r.threads| && r.threads[tid].Rest?
    ensures AfterDequeue(r, contents, res, r')
    ensures Works(Step(r, tid, Start(Dequeue)), tid, WithPc(r', tid, Reply(Dequeue, res)))
    ensures Step(WithPc(r', tid, Reply(Dequeue, res)), tid, Run(false)) == r'
  {
    if r.threshold < 0 {
      r', res := r, Nothing;
      Twice(r, tid, DeqThreshold, Reply(Dequeue, Nothing));
      OneStep(r, tid, DeqThreshold, r, Reply(Dequeue, Nothing));
    } else {
      Twice(r, tid, DeqThreshold, DeqHead);
      OneStep(r, tid, DeqThreshold, r, DeqHead);
      if contents == [] {
        res := Nothing;
        r' := DequeueNone(r, tid);
      } else {
        res := Got(contents[0], r.head);
        r' := DequeueSome(r, contents, tid);
      }
      WorksOn(WithPc(r, tid, DeqThreshold), tid, WithPc(r, tid, DeqHead), WithPc(r', tid, Reply(Dequeue, res)));
    }
    Returned(r', tid, Reply(Dequeue, res));
  }
}

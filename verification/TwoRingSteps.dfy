/** Every step of the bounded queue keeps the ownership of its indices. */
module TwoRingSteps {
  import opened Options
  import R = ScqRing
  import opened ScqInvariant
  import opened ScqSteps
  import opened ScqRuns
  import opened TwoRings
  import opened TwoRingInvariant

  // ---- frames -------------------------------------------------------------------------------------

  /** Tickets whose index lies outside `focus` are as live as before. */
  ghost predicate RingMoves(r: Ring, r': Ring, focus: set<nat>) {
    && r.taken <= r'.taken
    && (forall t :: t in r.placed ==> t in r'.placed && r'.placed[t] == r.placed[t])
    && (forall t :: Live(r, t) && r.placed[t] !in focus ==> Live(r', t))
    && (forall t :: Live(r', t) && r'.placed[t] !in focus ==> Live(r, t))
  }

  /** The step belongs to one thread and touches only the indices in `focus`. */
  ghost predicate Touches(q: Queue, q': Queue, tid: nat, focus: set<nat>) {
    && RingsOk(q) && RingsOk(q') && q'.free.half == q.free.half && tid < |q.threads| == |q'.threads|
    && (q.alloc.finalized ==> q'.alloc.finalized)
    && (forall a :: 0 <= a < |q.threads| && a != tid ==>
          && q'.threads[a] == q.threads[a]
          && q'.free.threads[a] == q.free.threads[a] && q'.alloc.threads[a] == q.alloc.threads[a])
    && (forall i: nat :: i < q.free.half && i !in focus ==> q'.backing[i] == q.backing[i])
    && RingMoves(q.free, q'.free, focus) && RingMoves(q.alloc, q'.alloc, focus)
    && (forall t :: t in q.sent ==> t in q'.sent && q'.sent[t] == q.sent[t])
    && (forall t :: t in q.fetched ==> t in q'.fetched && q'.fetched[t] == q.fetched[t])
    && (forall t :: t in q'.fetched ==> t in q.fetched || ServedTo(q, tid) == Some(t))
  }

  /** The thread that moves may touch the index it holds and any index that no other thread holds. */
  ghost predicate MayTouch(q: Queue, places: Layout, tid: nat, focus: set<nat>)
    requires Shaped(q) && tid < |q.threads|
  {
    && (forall i :: i in focus ==> i < |places| && (places[i].Hand? ==> places[i].a == tid))
    && (HeldBy(q, tid).Some? ==> HeldBy(q, tid).value in focus)
  }

  ghost predicate Agree(places: Layout, places': Layout, focus: set<nat>) {
    |places'| == |places| && forall i: nat :: i < |places| && i !in focus ==> places'[i] == places[i]
  }

  lemma OtherThreadsOk(q: Queue, places: Layout, q': Queue, places': Layout, tid: nat, focus: set<nat>, a: nat)
    requires Owned(q, places) && Touches(q, q', tid, focus) && MayTouch(q, places, tid, focus) && Agree(places, places', focus)
    requires a < |q.threads| && a != tid
    ensures ThreadOk(q', places', a)
  {
    assert ThreadOk(q, places, a) && ThreadOk(q, places, tid);
  }

  lemma OtherIndicesOk(q: Queue, places: Layout, q': Queue, places': Layout, tid: nat, focus: set<nat>, i: nat)
    requires Owned(q, places) && Touches(q, q', tid, focus) && MayTouch(q, places, tid, focus) && Agree(places, places', focus)
    requires i < |places| && i !in focus
    ensures IndexOk(q', places', i)
  {
    assert IndexOk(q, places, i);
    if places[i].Hand? {
      assert ThreadOk(q, places, places[i].a);
    }
  }

  lemma TicketsKept(q: Queue, places: Layout, q': Queue, places': Layout, tid: nat, focus: set<nat>)
    requires Owned(q, places) && Touches(q, q', tid, focus) && MayTouch(q, places, tid, focus) && Agree(places, places', focus)
    requires forall t :: Live(q'.free, t) && q'.free.placed[t] in focus ==> places'[q'.free.placed[t]] == Free(t)
    requires forall t :: Live(q'.alloc, t) && q'.alloc.placed[t] in focus ==> places'[q'.alloc.placed[t]] == Allocated(t)
    ensures FreeTicketsOk(q', places') && AllocTicketsOk(q', places')
  {
  }

  /** What is left to show about a step. */
  lemma Handover(q: Queue, places: Layout, q': Queue, places': Layout, tid: nat, focus: set<nat>)
    requires Owned(q, places) && Touches(q, q', tid, focus) && MayTouch(q, places, tid, focus) && Agree(places, places', focus)
    requires forall i :: i in focus ==> IndexOk(q', places', i)
    requires ThreadOk(q', places', tid)
    requires forall t :: Live(q'.free, t) && q'.free.placed[t] in focus ==> places'[q'.free.placed[t]] == Free(t)
    requires forall t :: Live(q'.alloc, t) && q'.alloc.placed[t] in focus ==> places'[q'.alloc.placed[t]] == Allocated(t)
    requires ValuesOk(q') && Served(q')
    ensures Owned(q', places')
  {
    forall a | 0 <= a < |q'.threads| ensures ThreadOk(q', places', a) {
      if a != tid {
        OtherThreadsOk(q, places, q', places', tid, focus, a);
      }
    }
    forall i | 0 <= i < |places'| ensures IndexOk(q', places', i) {
      if i !in focus {
        OtherIndicesOk(q, places, q', places', tid, focus, i);
      }
    }
    TicketsKept(q, places, q', places', tid, focus);
  }

  // ---- steps that move no index ---------------------------------------------------------------------

  predicate SameTickets(r: Ring, r': Ring) { r'.placed == r.placed && r'.taken == r.taken }

  ghost predicate OnlyThread(q: Queue, q': Queue, tid: nat) {
    && RingsOk(q) && RingsOk(q') && q'.free.half == q.free.half && tid < |q.threads| == |q'.threads|
    && (q.alloc.finalized ==> q'.alloc.finalized)
    && OthersRest(q.free, q'.free, tid) && OthersRest(q.alloc, q'.alloc, tid)
    && (forall a :: 0 <= a < |q.threads| && a != tid ==> q'.threads[a] == q.threads[a])
  }

  lemma ServedKept(q: Queue, q': Queue, tid: nat)
    requires OnlyThread(q, q', tid) && Served(q) && q'.alloc.taken == q.alloc.taken
    requires forall t :: t in q.fetched ==> t in q'.fetched
    requires ServedTo(q, tid).Some? ==> ServedTo(q', tid) == ServedTo(q, tid) || ServedTo(q, tid).value in q'.fetched
    ensures Served(q')
  {
    forall t | t in q'.alloc.taken && t !in q'.fetched ensures Reading(q', t) {
      var a :| 0 <= a < |q.threads| && ServedTo(q, a) == Some(t);
      assert ServedTo(q', a) == Some(t);
    }
  }

  /** The thread moves on with the same index in hand, or with none; it may rewrite the payload of
      the index it holds and note a value it has read. */
  lemma Stay(q: Queue, places: Layout, q': Queue, tid: nat)
    requires Owned(q, places) && OnlyThread(q, q', tid)
    requires SameTickets(q.free, q'.free) && SameTickets(q.alloc, q'.alloc)
    requires HeldBy(q', tid) == HeldBy(q, tid) && ThreadOk(q', places, tid)
    requires forall i: nat :: i < q.free.half && HeldBy(q, tid) != Some(i) ==> q'.backing[i] == q.backing[i]
    requires HeldBy(q, tid).Some? ==>
      q'.backing[HeldBy(q, tid).value] == Payload(q', q'.threads[tid], q'.alloc.threads[tid])
    requires q'.sent == q.sent && (forall t :: t in q.fetched ==> t in q'.fetched && q'.fetched[t] == q.fetched[t])
    requires forall t :: t in q'.fetched ==> t in q.fetched || (ServedTo(q, tid) == Some(t) && t in q.sent && q'.fetched[t] == q.sent[t])
    requires ServedTo(q, tid).Some? ==> ServedTo(q', tid) == ServedTo(q, tid) || ServedTo(q, tid).value in q'.fetched
    ensures Owned(q', places)
  {
    assert ThreadOk(q, places, tid);
    var focus := if HeldBy(q, tid).Some? then {HeldBy(q, tid).value} else {};
    ServedKept(q, q', tid);
    if HeldBy(q, tid).Some? {
      NoLiveInHand(q, places, tid);
    }
    assert Touches(q, q', tid, focus);
    Handover(q, places, q', places, tid, focus);
  }

  /** An index in a thread's hands lies in neither ring. */
  lemma NoLiveInHand(q: Queue, places: Layout, tid: nat)
    requires Owned(q, places) && tid < |q.threads| && HeldBy(q, tid).Some?
    ensures forall t :: Live(q.free, t) ==> q.free.placed[t] != HeldBy(q, tid).value
    ensures forall t :: Live(q.alloc, t) ==> q.alloc.placed[t] != HeldBy(q, tid).value
  {
    assert ThreadOk(q, places, tid);
  }

  // ---- entering and leaving the rings ---------------------------------------------------------------

  lemma Enter(r: Ring, tid: nat, op: R.Op)
    requires r.half > 0 && |r.entries| == R.Size(r)
    requires tid < |r.threads| && CallOf(r.threads[tid]) == None && (op.Enqueue? ==> op.index < r.half)
    ensures R.Step(r, tid, R.Start(op)) == R.WithPc(r, tid, if op.Enqueue? then R.EnqTail(op.index) else R.DeqThreshold)
  {
  }

  lemma Exit(r: Ring, tid: nat)
    requires r.half > 0 && |r.entries| == R.Size(r) && tid < |r.threads| && r.threads[tid].Reply?
    ensures R.Step(r, tid, R.Run(false)) == R.WithPc(r, tid, R.Rest)
  {
  }

  /** The thread has a result of the ring in hand, and the result is right. */
  predicate Replied(r: Ring, tid: nat) {
    tid < |r.threads| && r.threads[tid].Reply? && ResOk(r, r.threads[tid].op, r.threads[tid].res)
  }

  // ---- one lemma per step outside the rings ---------------------------------------------------------

  lemma StartOwned(q: Queue, places: Layout, tid: nat, call: Call)
    requires Owned(q, places) && tid < |q.threads|
    ensures Owned(Step(q, tid, Start(call)), places)
  {
    assert ThreadOk(q, places, tid);
    if q.threads[tid].Idle? {
      if call.Dequeue? {
        Enter(q.alloc, tid, R.Dequeue);
      }
      Stay(q, places, Step(q, tid, Start(call)), tid);
    }
  }

  lemma CountOwned(q: Queue, places: Layout, tid: nat, spurious: bool)
    requires Owned(q, places) && tid < |q.threads| && q.threads[tid].EnqCount?
    ensures Owned(StepEnqueue(q, tid, spurious), places)
  {
    assert ThreadOk(q, places, tid);
    if q.used < q.free.half {
      Enter(q.free, tid, R.Dequeue);
    }
    Stay(q, places, StepEnqueue(q, tid, spurious), tid);
  }

  lemma FullOwned(q: Queue, places: Layout, tid: nat, spurious: bool)
    requires Owned(q, places) && tid < |q.threads| && q.threads[tid].EnqFull?
    ensures Owned(StepEnqueue(q, tid, spurious), places)
  {
    assert ThreadOk(q, places, tid);
    Stay(q, places, StepEnqueue(q, tid, spurious), tid);
  }

  lemma PickedOwned(q: Queue, places: Layout, tid: nat, spurious: bool)
    requires Owned(q, places) && tid < |q.threads| && q.threads[tid].EnqPick? && Replied(q.free, tid)
    ensures Owned(StepEnqueue(q, tid, spurious), places)
  {
    assert ThreadOk(q, places, tid);
    Exit(q.free, tid);
    if HeldBy(q, tid).Some? {
      assert IndexOk(q, places, HeldBy(q, tid).value);
    }
    Stay(q, places, StepEnqueue(q, tid, spurious), tid);
  }

  lemma WriteOwned(q: Queue, places: Layout, tid: nat, spurious: bool)
    requires Owned(q, places) && tid < |q.threads| && q.threads[tid].EnqWrite?
    ensures Owned(StepEnqueue(q, tid, spurious), places)
    ensures q.threads[tid].pos < q.free.half && q.backing[q.threads[tid].pos] == None
  {
    assert ThreadOk(q, places, tid);
    assert IndexOk(q, places, q.threads[tid].pos);
    Enter(q.alloc, tid, R.Enqueue(q.threads[tid].pos));
    Stay(q, places, StepEnqueue(q, tid, spurious), tid);
  }

  lemma SharedOwned(q: Queue, places: Layout, tid: nat, spurious: bool)
    requires Owned(q, places) && tid < |q.threads| && q.threads[tid].EnqShare? && Replied(q.alloc, tid)
    ensures Owned(StepEnqueue(q, tid, spurious), places)
    ensures q.alloc.threads[tid].res.Enqueued? || q.alloc.threads[tid].res.Finalized?
  {
    assert ThreadOk(q, places, tid);
    Exit(q.alloc, tid);
    if HeldBy(q, tid).Some? {
      assert IndexOk(q, places, HeldBy(q, tid).value);
    }
    Stay(q, places, StepEnqueue(q, tid, spurious), tid);
  }

  lemma SealOwned(q: Queue, places: Layout, tid: nat, spurious: bool)
    requires Owned(q, places) && tid < |q.threads| && q.threads[tid].EnqSeal?
    ensures Owned(StepEnqueue(q, tid, spurious), places)
  {
    assert ThreadOk(q, places, tid);
    Stay(q, places, StepEnqueue(q, tid, spurious), tid);
  }

  lemma UncountOwned(q: Queue, places: Layout, tid: nat, spurious: bool)
    requires Owned(q, places) && tid < |q.threads| && q.threads[tid].EnqUncount?
    ensures Owned(StepRollBack(q, tid, spurious), places)
  {
    assert ThreadOk(q, places, tid);
    assert IndexOk(q, places, q.threads[tid].pos);
    Stay(q, places, StepRollBack(q, tid, spurious), tid);
  }

  lemma RereadOwned(q: Queue, places: Layout, tid: nat, spurious: bool)
    requires Owned(q, places) && tid < |q.threads| && q.threads[tid].EnqReread?
    ensures Owned(StepRollBack(q, tid, spurious), places)
    ensures var EnqReread(c, pos) := q.threads[tid]; pos < q.free.half && c.Enqueue? && q.backing[pos] == Some(c.v)
  {
    assert ThreadOk(q, places, tid);
    assert IndexOk(q, places, q.threads[tid].pos);
    Enter(q.free, tid, R.Enqueue(q.threads[tid].pos));
    Stay(q, places, StepRollBack(q, tid, spurious), tid);
  }

  lemma RolledBackOwned(q: Queue, places: Layout, tid: nat, spurious: bool)
    requires Owned(q, places) && tid < |q.threads| && q.threads[tid].EnqReturn? && Replied(q.free, tid)
    ensures Owned(StepRollBack(q, tid, spurious), places)
  {
    assert ThreadOk(q, places, tid);
    Exit(q.free, tid);
    NeverTooLarge(q, places, tid);
    Stay(q, places, StepRollBack(q, tid, spurious), tid);
  }

  /** The free ring accepts the index: it is never finalized, and the index is in range. */
  lemma NeverTooLarge(q: Queue, places: Layout, tid: nat)
    requires Owned(q, places) && tid < |q.threads| && Replied(q.free, tid)
    requires q.threads[tid].EnqReturn? || q.threads[tid].DeqReturn?
    ensures q.free.threads[tid].res.Enqueued?
  {
    assert ThreadOk(q, places, tid);
    Exit(q.free, tid);
  }

  lemma FetchedOwned(q: Queue, places: Layout, tid: nat, spurious: bool)
    requires Owned(q, places) && tid < |q.threads| && q.threads[tid].DeqFetch? && Replied(q.alloc, tid)
    ensures Owned(StepDequeue(q, tid, spurious), places)
  {
    Exit(q.alloc, tid);
    if q.alloc.threads[tid].res.Got? {
      FetchedSome(q, places, tid, q.alloc.threads[tid].res.index, q.alloc.threads[tid].res.ticket);
    } else {
      assert ThreadOk(q, places, tid);
      Stay(q, places, Goto(q.(alloc := R.WithPc(q.alloc, tid, R.Rest)), tid, Done(Dequeue, Empty)), tid);
    }
  }

  lemma FetchedSome(q: Queue, places: Layout, tid: nat, i: nat, t: nat)
    requires Owned(q, places) && tid < |q.threads| && q.threads[tid].DeqFetch?
    requires q.alloc.threads[tid] == R.Reply(R.Dequeue, R.Got(i, t))
    ensures Owned(Goto(q.(alloc := R.WithPc(q.alloc, tid, R.Rest)), tid, DeqCount(i, t)), places)
  {
    assert ThreadOk(q, places, tid);
    assert IndexOk(q, places, i);
    Stay(q, places, Goto(q.(alloc := R.WithPc(q.alloc, tid, R.Rest)), tid, DeqCount(i, t)), tid);
  }

  lemma DeqCountOwned(q: Queue, places: Layout, tid: nat, spurious: bool)
    requires Owned(q, places) && tid < |q.threads| && q.threads[tid].DeqCount?
    ensures Owned(StepDequeue(q, tid, spurious), places)
  {
    assert ThreadOk(q, places, tid);
    assert IndexOk(q, places, q.threads[tid].pos);
    Stay(q, places, StepDequeue(q, tid, spurious), tid);
  }

  lemma ReadOwned(q: Queue, places: Layout, tid: nat, spurious: bool)
    requires Owned(q, places) && tid < |q.threads| && q.threads[tid].DeqRead?
    ensures Owned(StepDequeue(q, tid, spurious), places)
    ensures var DeqRead(pos, t) := q.threads[tid];
      pos < q.free.half && t in q.sent && t !in q.fetched && q.backing[pos] == Some(q.sent[t])
  {
    assert ThreadOk(q, places, tid);
    assert IndexOk(q, places, q.threads[tid].pos);
    Enter(q.free, tid, R.Enqueue(q.threads[tid].pos));
    Stay(q, places, StepDequeue(q, tid, spurious), tid);
  }

  lemma ReturnedOwned(q: Queue, places: Layout, tid: nat, spurious: bool)
    requires Owned(q, places) && tid < |q.threads| && q.threads[tid].DeqReturn? && Replied(q.free, tid)
    ensures Owned(StepDequeue(q, tid, spurious), places)
  {
    assert ThreadOk(q, places, tid);
    Exit(q.free, tid);
    NeverTooLarge(q, places, tid);
    Stay(q, places, StepDequeue(q, tid, spurious), tid);
  }

  lemma DoneOwned(q: Queue, places: Layout, tid: nat)
    requires Owned(q, places) && tid < |q.threads| && q.threads[tid].Done?
    ensures Owned(Goto(q, tid, Idle), places)
  {
    assert ThreadOk(q, places, tid);
    Stay(q, places, Goto(q, tid, Idle), tid);
  }

  // ---- steps inside the free ring -------------------------------------------------------------------

  predicate InFree(pc: Pc) { pc.EnqPick? || pc.EnqReturn? || pc.DeqReturn? }

  lemma FreeIdles(q: Queue, places: Layout, free: Ring, tid: nat)
    requires Owned(q, places) && tid < |q.threads| && InFree(q.threads[tid])
    requires Inside(q.free, free, tid) && Idles(q.free, free, q.free.threads[tid], free.threads[tid])
    ensures Owned(q.(free := free), places)
  {
    assert ThreadOk(q, places, tid);
    if HeldBy(q, tid).Some? {
      assert IndexOk(q, places, HeldBy(q, tid).value);
    }
    Stay(q, places, q.(free := free), tid);
  }

  lemma FreeTakes(q: Queue, places: Layout, free: Ring, tid: nat, h: nat) returns (places': Layout)
    requires Owned(q, places) && tid < |q.threads| && InFree(q.threads[tid])
    requires Inside(q.free, free, tid) && Takes(q.free, free, q.free.threads[tid], free.threads[tid], h)
    ensures Owned(q.(free := free), places')
  {
    var i, q' := q.free.placed[h], q.(free := free);
    places' := places[i := Hand(tid)];
    assert ThreadOk(q, places, tid);
    assert IndexOk(q, places, i);
    ServedKept(q, q', tid);
    assert RingMoves(q.free, free, {i});
    assert IndexOk(q', places', i);
    Handover(q, places, q', places', tid, {i});
  }

  lemma FreePlaces(q: Queue, places: Layout, free: Ring, tid: nat, t: nat) returns (places': Layout)
    requires Owned(q, places) && tid < |q.threads| && InFree(q.threads[tid])
    requires Inside(q.free, free, tid) && Places(q.free, free, q.free.threads[tid], free.threads[tid], t)
    requires t !in q.free.taken
    ensures Owned(q.(free := free), places')
  {
    assert ThreadOk(q, places, tid);
    var i, q' := HeldBy(q, tid).value, q.(free := free);
    places' := places[i := Free(t)];
    assert IndexOk(q, places, i);
    NoLiveInHand(q, places, tid);
    ServedKept(q, q', tid);
    assert RingMoves(q.free, free, {i});
    assert IndexOk(q', places', i);
    Handover(q, places, q', places', tid, {i});
  }

  // ---- steps inside the allocated ring ----------------------------------------------------------------

  predicate InAlloc(pc: Pc) { pc.EnqShare? || pc.DeqFetch? }

  lemma AllocIdles(q: Queue, places: Layout, alloc: Ring, tid: nat)
    requires Owned(q, places) && tid < |q.threads| && InAlloc(q.threads[tid])
    requires Inside(q.alloc, alloc, tid) && Idles(q.alloc, alloc, q.alloc.threads[tid], alloc.threads[tid])
    requires !q.alloc.threads[tid].Reply?
    ensures Owned(q.(alloc := alloc), places)
  {
    assert ThreadOk(q, places, tid);
    if HeldBy(q, tid).Some? {
      assert IndexOk(q, places, HeldBy(q, tid).value);
    }
    Stay(q, places, q.(alloc := alloc), tid);
  }

  lemma AllocTakes(q: Queue, places: Layout, alloc: Ring, tid: nat, h: nat) returns (places': Layout)
    requires Owned(q, places) && tid < |q.threads| && InAlloc(q.threads[tid])
    requires Inside(q.alloc, alloc, tid) && Takes(q.alloc, alloc, q.alloc.threads[tid], alloc.threads[tid], h)
    ensures Owned(q.(alloc := alloc), places')
  {
    var i, q' := q.alloc.placed[h], q.(alloc := alloc);
    places' := places[i := Hand(tid)];
    assert ThreadOk(q, places, tid);
    assert IndexOk(q, places, i);
    TakenInHand(q, places, alloc, tid, h);
    NewlyServed(q, q', tid, h);
    assert RingMoves(q.alloc, alloc, {i});
    Handover(q, places, q', places', tid, {i});
  }

  /** A dequeuer that has just taken an index holds it, and its value lies in the slot. */
  lemma TakenInHand(q: Queue, places: Layout, alloc: Ring, tid: nat, h: nat)
    requires RingsOk(q) && ValuesOk(q) && tid < |q.threads| && InAlloc(q.threads[tid]) && ThreadOk(q, places, tid)
    requires Inside(q.alloc, alloc, tid) && Takes(q.alloc, alloc, q.alloc.threads[tid], alloc.threads[tid], h)
    requires |places| == q.free.half && q.alloc.placed[h] < |places| && q.backing[q.alloc.placed[h]] == Some(q.sent[h])
    ensures RingsOk(q.(alloc := alloc)) && q.threads[tid].DeqFetch?
    ensures ServedTo(q, tid) == None && ServedTo(q.(alloc := alloc), tid) == Some(h)
    ensures var places' := places[q.alloc.placed[h] := Hand(tid)];
      IndexOk(q.(alloc := alloc), places', q.alloc.placed[h]) && ThreadOk(q.(alloc := alloc), places', tid)
  {
  }

  lemma NewlyServed(q: Queue, q': Queue, tid: nat, h: nat)
    requires OnlyThread(q, q', tid) && Served(q) && q'.alloc.taken == q.alloc.taken + {h} && q'.fetched == q.fetched
    requires ServedTo(q, tid) == None && ServedTo(q', tid) == Some(h)
    ensures Served(q')
  {
    forall t | t in q'.alloc.taken && t !in q'.fetched ensures Reading(q', t) {
      if t == h {
        assert ServedTo(q', tid) == Some(h);
      } else {
        var a :| 0 <= a < |q.threads| && ServedTo(q, a) == Some(t);
        assert ServedTo(q', a) == Some(t);
      }
    }
  }

  lemma AllocPlaces(q: Queue, places: Layout, q': Queue, tid: nat, t: nat) returns (places': Layout)
    requires Owned(q, places) && tid < |q.threads| && q.threads[tid].EnqShare? && q.threads[tid].call.Enqueue?
    requires q' == q.(alloc := q'.alloc, sent := q.sent[t := q.threads[tid].call.v]) && Inside(q.alloc, q'.alloc, tid)
    requires Places(q.alloc, q'.alloc, q.alloc.threads[tid], q'.alloc.threads[tid], t)
    requires t !in q.alloc.taken
    ensures Owned(q', places')
  {
    assert ThreadOk(q, places, tid);
    var i := HeldBy(q, tid).value;
    places' := places[i := Allocated(t)];
    assert IndexOk(q, places, i);
    NoLiveInHand(q, places, tid);
    ServedKept(q, q', tid);
    assert RingMoves(q.alloc, q'.alloc, {i});
    assert IndexOk(q', places', i);
    Handover(q, places, q', places', tid, {i});
  }

  // ---- every step -----------------------------------------------------------------------------------

  lemma ReplyRight(r: Ring, tid: nat)
    requires Inv(r) && tid < |r.threads| && r.threads[tid].Reply?
    ensures Replied(r, tid)
  {
    assert PcOk(r, r.threads[tid]);
  }

  lemma FreeRun(q: Queue, places: Layout, tid: nat, spurious: bool) returns (places': Layout)
    requires Owned(q, places) && Inv(q.free) && tid < |q.threads| && InFree(q.threads[tid]) && !q.free.threads[tid].Reply?
    ensures Owned(FreeStep(q, tid, R.Run(spurious)), places')
  {
    assert ThreadOk(q, places, tid);
    RunInside(q.free, tid, spurious);
    var free := R.Step(q.free, tid, R.Run(spurious));
    if t :| Places(q.free, free, q.free.threads[tid], free.threads[tid], t) {
      places' := FreePlaces(q, places, free, tid, t);
    } else if h :| Takes(q.free, free, q.free.threads[tid], free.threads[tid], h) {
      places' := FreeTakes(q, places, free, tid, h);
    } else {
      places' := places;
      FreeIdles(q, places, free, tid);
    }
  }

  lemma FetchRun(q: Queue, places: Layout, tid: nat, spurious: bool) returns (places': Layout)
    requires Owned(q, places) && Inv(q.alloc) && tid < |q.threads| && q.threads[tid].DeqFetch? && !q.alloc.threads[tid].Reply?
    ensures Owned(AllocStep(q, tid, R.Run(spurious)), places')
  {
    assert ThreadOk(q, places, tid);
    RunInside(q.alloc, tid, spurious);
    var alloc := R.Step(q.alloc, tid, R.Run(spurious));
    if h :| Takes(q.alloc, alloc, q.alloc.threads[tid], alloc.threads[tid], h) {
      places' := AllocTakes(q, places, alloc, tid, h);
    } else {
      places' := places;
      AllocIdles(q, places, alloc, tid);
    }
  }

  lemma ShareRun(q: Queue, places: Layout, tid: nat, spurious: bool) returns (places': Layout)
    requires Owned(q, places) && Inv(q.alloc) && tid < |q.threads| && q.threads[tid].EnqShare? && !q.alloc.threads[tid].Reply?
    ensures Owned(StepEnqueue(q, tid, spurious), places')
  {
    assert ThreadOk(q, places, tid);
    RunInside(q.alloc, tid, spurious);
    var alloc := R.Step(q.alloc, tid, R.Run(spurious));
    if t :| Places(q.alloc, alloc, q.alloc.threads[tid], alloc.threads[tid], t) {
      assert IndexOk(q, places, q.threads[tid].pos);
      places' := AllocPlaces(q, places, StepEnqueue(q, tid, spurious), tid, t);
    } else {
      places' := places;
      assert StepEnqueue(q, tid, spurious) == q.(alloc := alloc);
      AllocIdles(q, places, alloc, tid);
    }
  }

  lemma EnqueueOwned(q: Queue, places: Layout, tid: nat, spurious: bool) returns (places': Layout)
    requires Owned(q, places) && RingsInv(q) && tid < |q.threads| && Enqueuing(q.threads[tid])
    ensures Owned(StepEnqueue(q, tid, spurious), places')
  {
    places' := places;
    match q.threads[tid]
    case EnqCount(_) => CountOwned(q, places, tid, spurious);
    case EnqFull(_) => FullOwned(q, places, tid, spurious);
    case EnqPick(_, _) =>
      if q.free.threads[tid].Reply? {
        ReplyRight(q.free, tid);
        PickedOwned(q, places, tid, spurious);
      } else {
        places' := FreeRun(q, places, tid, spurious);
      }
    case EnqWrite(_, _, _) => WriteOwned(q, places, tid, spurious);
    case EnqShare(_, _, _) =>
      if q.alloc.threads[tid].Reply? {
        ReplyRight(q.alloc, tid);
        SharedOwned(q, places, tid, spurious);
      } else {
        places' := ShareRun(q, places, tid, spurious);
      }
    case EnqSeal(_, _) => SealOwned(q, places, tid, spurious);
  }

  lemma RollBackOwned(q: Queue, places: Layout, tid: nat, spurious: bool) returns (places': Layout)
    requires Owned(q, places) && RingsInv(q) && tid < |q.threads| && RollingBack(q.threads[tid])
    ensures Owned(StepRollBack(q, tid, spurious), places')
  {
    places' := places;
    match q.threads[tid]
    case EnqUncount(_, _) => UncountOwned(q, places, tid, spurious);
    case EnqReread(_, _) => RereadOwned(q, places, tid, spurious);
    case EnqReturn(_, _, _) =>
      if q.free.threads[tid].Reply? {
        ReplyRight(q.free, tid);
        RolledBackOwned(q, places, tid, spurious);
      } else {
        places' := FreeRun(q, places, tid, spurious);
      }
  }

  lemma DequeueOwned(q: Queue, places: Layout, tid: nat, spurious: bool) returns (places': Layout)
    requires Owned(q, places) && RingsInv(q) && tid < |q.threads| && Dequeuing(q.threads[tid])
    ensures Owned(StepDequeue(q, tid, spurious), places')
  {
    places' := places;
    match q.threads[tid]
    case DeqFetch =>
      if q.alloc.threads[tid].Reply? {
        ReplyRight(q.alloc, tid);
        FetchedOwned(q, places, tid, spurious);
      } else {
        places' := FetchRun(q, places, tid, spurious);
      }
    case DeqCount(_, _) => DeqCountOwned(q, places, tid, spurious);
    case DeqRead(_, _) => ReadOwned(q, places, tid, spurious);
    case DeqReturn(_, _, _) =>
      if q.free.threads[tid].Reply? {
        ReplyRight(q.free, tid);
        ReturnedOwned(q, places, tid, spurious);
      } else {
        places' := FreeRun(q, places, tid, spurious);
      }
  }

  /** Ownership survives every step of every thread. */
  lemma StepOwned(q: Queue, places: Layout, tid: nat, act: Action) returns (places': Layout)
    requires Owned(q, places) && RingsInv(q)
    ensures Owned(Step(q, tid, act), places')
  {
    places' := places;
    if tid < |q.threads| {
      assert ThreadOk(q, places, tid);
      var pc := q.threads[tid];
      if act.Start? {
        StartOwned(q, places, tid, act.call);
      } else if Enqueuing(pc) {
        places' := EnqueueOwned(q, places, tid, act.spurious);
      } else if RollingBack(pc) {
        places' := RollBackOwned(q, places, tid, act.spurious);
      } else if Dequeuing(pc) {
        places' := DequeueOwned(q, places, tid, act.spurious);
      } else if pc.Done? {
        DoneOwned(q, places, tid);
      }
    }
  }

  /** The rings only ever move by their own steps. */
  lemma StepRings(q: Queue, tid: nat, act: Action)
    requires Shaped(q) && RingsInv(q)
    ensures RingsInv(Step(q, tid, act))
  {
    if tid < |q.threads| {
      var pc := q.threads[tid];
      if act.Start? {
        StepInv(q.alloc, tid, R.Start(R.Dequeue));
      } else if Enqueuing(pc) {
        EnqueueRings(q, tid, act.spurious);
      } else if RollingBack(pc) {
        RollBackRings(q, tid, act.spurious);
      } else if Dequeuing(pc) {
        DequeueRings(q, tid, act.spurious);
      }
    }
  }

  lemma EnqueueRings(q: Queue, tid: nat, spurious: bool)
    requires Shaped(q) && RingsInv(q) && tid < |q.threads| && Enqueuing(q.threads[tid])
    ensures RingsInv(StepEnqueue(q, tid, spurious))
  {
    match q.threads[tid]
    case EnqCount(_) => StepInv(q.free, tid, R.Start(R.Dequeue));
    case EnqFull(_) =>
    case EnqPick(_, _) => StepInv(q.free, tid, R.Run(spurious)); StepInv(q.free, tid, R.Run(false));
    case EnqWrite(_, _, pos) => StepInv(q.alloc, tid, R.Start(R.Enqueue(pos)));
    case EnqShare(_, _, _) => StepInv(q.alloc, tid, R.Run(spurious)); StepInv(q.alloc, tid, R.Run(false));
    case EnqSeal(_, _) => StepInv(q.alloc, tid, R.Seal);
  }

  lemma RollBackRings(q: Queue, tid: nat, spurious: bool)
    requires Shaped(q) && RingsInv(q) && tid < |q.threads| && RollingBack(q.threads[tid])
    ensures RingsInv(StepRollBack(q, tid, spurious))
  {
    match q.threads[tid]
    case EnqUncount(_, _) =>
    case EnqReread(_, pos) => StepInv(q.free, tid, R.Start(R.Enqueue(pos)));
    case EnqReturn(_, _, _) => StepInv(q.free, tid, R.Run(spurious)); StepInv(q.free, tid, R.Run(false));
  }

  lemma DequeueRings(q: Queue, tid: nat, spurious: bool)
    requires Shaped(q) && RingsInv(q) && tid < |q.threads| && Dequeuing(q.threads[tid])
    ensures RingsInv(StepDequeue(q, tid, spurious))
  {
    match q.threads[tid]
    case DeqFetch => StepInv(q.alloc, tid, R.Run(spurious)); StepInv(q.alloc, tid, R.Run(false));
    case DeqCount(_, _) =>
    case DeqRead(pos, _) => StepInv(q.free, tid, R.Start(R.Enqueue(pos)));
    case DeqReturn(_, _, _) => StepInv(q.free, tid, R.Run(spurious)); StepInv(q.free, tid, R.Run(false));
  }
}

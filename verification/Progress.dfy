/** Conditional progress.  When no other thread is between claiming a slot and storing its
    stamp, a thread that runs alone finishes its call within eight steps, however stale its
    locals; and a compare-exchange that fails for a reason fails because another thread has
    moved `head` or `tail` since. */
module Progress {
  import opened Arithmetic
  import opened Bits
  import opened Fifo
  import opened Tickets
  import opened TicketInvariant
  import opened TicketSteps
  import opened Calls
  import opened Encoding
  import opened Runs
  import opened Safety
  import Words

  predicate Alone(s: State, tid: nat) {
    forall a :: 0 <= a < |s.threads| && a != tid ==> !Owns(s.n, s.threads[a])
  }

  /** An upper bound on the steps left, if nobody interferes. */
  function Left(s: State, pc: Pc): nat {
    match pc
    case PushTail(_) => 6
    case PushStamp(_, t) => if t == s.tail then 5 else 8
    case PushCas(_, t) => if t == s.tail then 3 else 7
    case PushFull(_, t) => if t == s.head + s.n then 4 else 7
    case PushWrite(_, _) => 2
    case PushPublish(_, _) => 1
    case ForceTail(_, _) => 3
    case ForceSwap(_, _) => 2
    case ForcePublish(_, _, _) => 1
    case PopHead => 5
    case PopStamp(h) => if h == s.head then 4 else 7
    case PopCas(h) => if h == s.head then 3 else 6
    case PopRead(_) => 2
    case PopFree(_, _) => 1
    case PopTail(h) => if h == s.tail then 1 else 6
    case LenTail => 3
    case LenHead(t) => if t == s.tail then 2 else 5
    case LenAgain(t, _) => if t == s.tail then 1 else 4
    case EmptyHead => 2
    case EmptyTail(_) => 1
    case FullTail => 2
    case FullHead(_) => 1
    case _ => 0
  }

  /** Alone, and not holding a slot itself, a thread finds every slot settled. */
  lemma Settled(s: State, tid: nat, i: nat)
    requires Inv(s) && tid < |s.threads| && Alone(s, tid) && !Owns(s.n, s.threads[tid]) && i < s.n
    ensures var st := s.slots[i].stamp; if st.full then st.ticket >= s.head else st.ticket >= |s.log|
    ensures |s.log| == s.tail
  {
    assert SlotHeld(s, i);
    forall a | 0 <= a < |s.threads| && s.threads[a].ForceTail? ensures Owns(s.n, s.threads[a]) {
      assert PcOk(s, s.threads[a]);
    }
  }

  /** The slot of `tail` is free, or it still holds the oldest value of a full queue. */
  lemma TailSlot(s: State, tid: nat)
    requires Inv(s) && tid < |s.threads| && Alone(s, tid) && !Owns(s.n, s.threads[tid])
    ensures var st := StampOf(s, s.tail);
      st == Stamp(s.tail, false) || (st.full && st.ticket + s.n == s.tail && s.head + s.n == s.tail)
  {
    var i := s.tail % s.n;
    assert SlotOk(s, i);
    Settled(s, tid, i);
    var q := s.slots[i].stamp.ticket;
    if q > s.tail {
      SameSlotGap(s.n, s.tail, q);
    } else if q < s.tail {
      SameSlotGap(s.n, q, s.tail);
    }
  }

  /** The slot of `head` holds its value, or the queue is empty. */
  lemma HeadSlot(s: State, tid: nat)
    requires Inv(s) && tid < |s.threads| && Alone(s, tid) && !Owns(s.n, s.threads[tid])
    ensures var st := StampOf(s, s.head);
      st == Stamp(s.head, true) || (st == Stamp(s.head, false) && s.tail == s.head)
  {
    var i := s.head % s.n;
    assert SlotOk(s, i);
    Settled(s, tid, i);
    var q := s.slots[i].stamp.ticket;
    if q > s.head {
      SameSlotGap(s.n, s.head, q);
    } else if q < s.head {
      SameSlotGap(s.n, q, s.head);
    }
  }

  lemma PushShrinks(s: State, tid: nat)
    requires Inv(s) && tid < |s.threads| && Alone(s, tid) && Pushing(s.threads[tid])
    ensures var s' := StepPush(s, tid, false); Left(s', s'.threads[tid]) < Left(s, s.threads[tid])
  {
    var pc := s.threads[tid];
    assert PcOk(s, pc);
    if !Owns(s.n, pc) {
      TailSlot(s, tid);
      assert pc.PushFull? ==> pc.t <= s.head + s.n;
    }
  }

  lemma ForceShrinks(s: State, tid: nat)
    requires Inv(s) && tid < |s.threads| && Forcing(s.threads[tid])
    ensures var s' := StepForce(s, tid); Left(s', s'.threads[tid]) < Left(s, s.threads[tid])
  {
  }

  lemma PopShrinks(s: State, tid: nat)
    requires Inv(s) && tid < |s.threads| && Alone(s, tid) && Popping(s.threads[tid])
    ensures var s' := StepPop(s, tid, false); Left(s', s'.threads[tid]) < Left(s, s.threads[tid])
  {
    var pc := s.threads[tid];
    if !Owns(s.n, pc) {
      HeadSlot(s, tid);
    }
  }

  lemma ObserveShrinks(s: State, tid: nat)
    requires s.n > 0 && tid < |s.threads| && Observing(s.threads[tid])
    ensures var s' := SetPc(s, tid, Observe(s, s.threads[tid])); Left(s', s'.threads[tid]) < Left(s, s.threads[tid])
  {
  }

  /** Each step of a lone thread brings its reply closer. */
  lemma LoneStep(s: State, tid: nat)
    requires Inv(s) && tid < |s.threads| && Alone(s, tid) && Calling(s.threads[tid])
    ensures var s' := Step(s, tid, Run(false)).0;
      && |s'.threads| == |s.threads| && Alone(s', tid)
      && Left(s', s'.threads[tid]) < Left(s, s.threads[tid])
      && (Calling(s'.threads[tid]) || s'.threads[tid].Reply?)
  {
    var pc := s.threads[tid];
    var s' := Step(s, tid, Run(false)).0;
    if Pushing(pc) {
      PushShrinks(s, tid);
    } else if Forcing(pc) {
      ForceShrinks(s, tid);
    } else if Popping(pc) {
      PopShrinks(s, tid);
    } else {
      ObserveShrinks(s, tid);
    }
    LoneStepKinds(s, tid);
  }

  lemma LoneStepKinds(s: State, tid: nat)
    requires Inv(s) && tid < |s.threads| && Alone(s, tid) && Calling(s.threads[tid])
    ensures var s' := Advance(s, tid, false);
      && |s'.threads| == |s.threads| && Alone(s', tid)
      && (Calling(s'.threads[tid]) || s'.threads[tid].Reply?)
  {
    AdvanceInv(s, tid, false);
    var s' := Advance(s, tid, false);
    assert s'.n == s.n && |s'.threads| == |s.threads| && s'.threads == s.threads[tid := s'.threads[tid]];
    assert PcOk(s', s'.threads[tid]);
    assert !s'.threads[tid].Rest?;
  }

  /** `steps` turns of thread `tid` and of nobody else. */
  function Solo(tid: nat, steps: nat): seq<Turn> { seq(steps, i => Turn(tid, Run(false))) }

  lemma NextSolo(s: State, tid: nat, steps: nat)
    requires Inv(s)
    ensures Shadow(s, Solo(tid, steps + 1)) == Step(Shadow(s, Solo(tid, steps)), tid, Run(false)).0
  {
    LastShadow(s, Solo(tid, steps), Turn(tid, Run(false)));
    assert Solo(tid, steps + 1) == Solo(tid, steps) + [Turn(tid, Run(false))];
  }

  lemma {:induction false} LoneThreadReplies(s: State, tid: nat, bound: nat) returns (steps: nat)
    requires Inv(s) && tid < |s.threads| && Alone(s, tid) && Left(s, s.threads[tid]) <= bound
    requires Calling(s.threads[tid]) || s.threads[tid].Reply?
    ensures steps <= bound && Shadow(s, Solo(tid, steps)).threads[tid].Reply?
    ensures CallOf(Shadow(s, Solo(tid, steps)).threads[tid]) == CallOf(s.threads[tid])
  {
    steps := 0;
    var r := s;
    while Calling(r.threads[tid])
      invariant Inv(r) && |r.threads| == |s.threads| && Alone(r, tid)
      invariant r == Shadow(s, Solo(tid, steps))
      invariant steps + Left(r, r.threads[tid]) <= bound
      invariant CallOf(r.threads[tid]) == CallOf(s.threads[tid])
      invariant Calling(r.threads[tid]) || r.threads[tid].Reply?
      decreases Left(r, r.threads[tid])
    {
      LoneStep(r, tid);
      AdvanceCall(r, tid, false);
      NextSolo(s, tid, steps);
      r := Step(r, tid, Run(false)).0;
      steps := steps + 1;
    }
  }

  lemma AtMostEight(s: State, pc: Pc)
    ensures Left(s, pc) <= 8
  {
  }

  /** Nobody but `tid` is between a claim and its stamp store. */
  predicate OthersHoldNothing(q: Words.Queue, tid: nat) {
    forall a :: 0 <= a < |q.threads| && a != tid ==> !Holds(q.threads[a])
  }

  lemma AloneFromWords(s: State, w: nat, k: nat, tid: nat)
    requires Inv(s) && Words.Config(s.n, w, k) && OthersHoldNothing(EncState(s, w, k), tid)
    ensures Alone(s, tid)
  {
    forall a | 0 <= a < |s.threads| && a != tid ensures !Owns(s.n, s.threads[a]) {
      PositionEncoded(s.n, Pow2(k), s.threads[a]);
      assert !Holds(EncState(s, w, k).threads[a]);
    }
  }

  predicate Replies(q: Words.Queue, tid: nat) { tid < |q.threads| && q.threads[tid].Reply? }

  lemma ReplyInWords(s: State, w: nat, k: nat, issued: nat, sch: seq<Turn>, tid: nat)
    requires Inv(s) && Room(s.n, w, k, issued) && |s.log| + |sch| <= issued
    requires tid < |s.threads| && Shadow(s, sch).threads[tid].Reply?
    ensures Replies(Exec(EncState(s, w, k), sch), tid)
  {
    RunLockstep(s, w, k, issued, sch);
    EncPcKind(s.n, Pow2(k), Shadow(s, sch).threads[tid]);
  }

  lemma BusyInWords(s: State, w: nat, k: nat, tid: nat)
    requires Inv(s) && Words.Config(s.n, w, k) && tid < |s.threads| && !EncState(s, w, k).threads[tid].Rest?
    ensures Calling(s.threads[tid]) || s.threads[tid].Reply?
  {
    EncPcKind(s.n, Pow2(k), s.threads[tid]);
    assert PcOk(s, s.threads[tid]);
  }

  lemma LoneSteps(s: State, w: nat, k: nat, tid: nat) returns (steps: nat)
    requires Inv(s) && Words.Config(s.n, w, k) && tid < |s.threads|
    requires OthersHoldNothing(EncState(s, w, k), tid) && !EncState(s, w, k).threads[tid].Rest?
    ensures steps <= 8 && Shadow(s, Solo(tid, steps)).threads[tid].Reply?
    ensures CallOf(Shadow(s, Solo(tid, steps)).threads[tid]) == CallOf(s.threads[tid])
  {
    AloneFromWords(s, w, k, tid);
    BusyInWords(s, w, k, tid);
    AtMostEight(s, s.threads[tid]);
    steps := LoneThreadReplies(s, tid, 8);
  }

  /** From any reachable state in which no other thread holds a slot, a thread running alone
      replies after at most eight steps. */
  lemma SoloCompletes(n: nat, w: nat, k: nat, threads: nat, sch: seq<Turn>, tid: nat)
    requires Room(n, w, k, |sch| + 8) && tid < threads
    requires var q := Exec(Words.New(n, w, k, threads), sch);
      OthersHoldNothing(q, tid) && |q.threads| == threads && !q.threads[tid].Rest?
    ensures exists steps: nat :: steps <= 8 && Replies(Exec(Words.New(n, w, k, threads), sch + Solo(tid, steps)), tid)
  {
    RoomShrinks(n, w, k, |sch|, |sch| + 8);
    var s := Safety.Reached(n, w, k, threads, sch);
    var steps := LoneSteps(s, w, k, tid);
    ReplyInWords(s, w, k, |sch| + 8, Solo(tid, steps), tid);
    ExecAppend(Words.New(n, w, k, threads), sch, Solo(tid, steps));
  }

  lemma {:induction false} ExecAppend(q: Words.Queue, a: seq<Turn>, b: seq<Turn>)
    ensures Exec(q, a + b) == Exec(Exec(q, a), b)
  {
    if b == [] {
      assert a + b == a;
    } else {
      var last := |b| - 1;
      ExecAppend(q, a, b[..last]);
      assert (a + b)[..|a + b| - 1] == a + b[..last];
    }
  }

  /** A compare-exchange that fails without being spurious has been overtaken: the counter it
      expected has moved on since the thread loaded it. */
  lemma OvertakenCas(s: State, tid: nat)
    requires Inv(s) && tid < |s.threads|
    ensures s.threads[tid].PushCas? && !StepPush(s, tid, false).threads[tid].PushWrite? ==> s.tail > s.threads[tid].t
    ensures s.threads[tid].PopCas? && !StepPop(s, tid, false).threads[tid].PopRead? ==> s.head > s.threads[tid].h
    ensures (s.threads[tid].PushFull? && s.threads[tid].op.ForcePush?
             && !StepPush(s, tid, false).threads[tid].ForceTail?) ==> s.head + s.n > s.threads[tid].t
  {
    assert PcOk(s, s.threads[tid]);
  }
}

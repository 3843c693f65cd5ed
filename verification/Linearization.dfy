/** Every step of the ticket machine is a step of the atomic FIFO: the refinement
    mapping and its proof.  The calls take effect at fixed points: an accepted push at
    its compare-exchange on `tail`, a refused push at its load of `head`, an overwriting
    force_push at its compare-exchange on `head` (as one remove-and-append), a
    successful pop at its compare-exchange on `head`, an empty pop at its load of `tail`. */
module Linearization {
  import opened Fifo
  import opened Tickets
  import opened TicketInvariant
  import opened TicketSteps

  /** How far a thread's call has come, seen from the atomic object. */
  function StatusOf(n: nat, log: seq<Value>, pc: Pc): Status {
    match pc
    case Rest => Idle
    case Reply(op, res) => Answered(op, res)
    case PushTail(op) => Called(op)
    case PushStamp(op, _) => Called(op)
    case PushCas(op, _) => Called(op)
    case PushFull(op, _) => Called(op)
    case PushWrite(op, _) => Answered(op, Pushed)
    case PushPublish(op, _) => Answered(op, Pushed)
    case ForceTail(op, t) => if n <= t < |log| then Answered(op, Displaced(log[t - n])) else Called(op)
    case ForceSwap(op, t) => if n <= t < |log| then Answered(op, Displaced(log[t - n])) else Called(op)
    case ForcePublish(op, _, prev) => Answered(op, Displaced(prev))
    case PopHead => Called(Pop)
    case PopStamp(_) => Called(Pop)
    case PopCas(_) => Called(Pop)
    case PopTail(_) => Called(Pop)
    case PopRead(h) => if h < |log| then Answered(Pop, Popped(log[h])) else Called(Pop)
    case PopFree(_, v) => Answered(Pop, Popped(v))
    case LenTail => Called(Len)
    case LenHead(_) => Called(Len)
    case LenAgain(_, _) => Called(Len)
    case EmptyHead => Called(IsEmpty)
    case EmptyTail(_) => Called(IsEmpty)
    case FullTail => Called(IsFull)
    case FullHead(_) => Called(IsFull)
    case Broken => Idle
  }

  /** The queue a state stands for: the accepted tickets that nobody has claimed yet. */
  function Contents(s: State): seq<Value>
    requires s.head <= |s.log|
  {
    s.log[s.head..]
  }

  function Abs(s: State): Object
    requires s.head <= |s.log|
  {
    Object(Contents(s), seq(|s.threads|, i requires 0 <= i < |s.threads| => StatusOf(s.n, s.log, s.threads[i])))
  }

  /** The step from `s` to `s'` labelled `lbl` is one the atomic FIFO can take. */
  ghost predicate Simulated(s: State, lbl: Label, s': State) {
    && s.n > 0 && s.head <= |s.log| && s'.head <= |s'.log|
    && Next(s.n, Abs(s), lbl, Abs(s'))
  }

  lemma StatusKept(s: State, s': State, pc: Pc)
    requires CountersOk(s) && PcOk(s, pc) && s'.n == s.n && s.log <= s'.log
    ensures StatusOf(s'.n, s'.log, pc) == StatusOf(s.n, s.log, pc)
  {
  }

  /** Only thread `tid` moved; the others look the same from outside. */
  lemma OthersKept(s: State, s': State, tid: nat)
    requires Inv(s) && tid < |s.threads| == |s'.threads| && s'.n == s.n && s.log <= s'.log && s'.head <= |s'.log|
    requires forall a :: 0 <= a < |s.threads| && a != tid ==> s'.threads[a] == s.threads[a]
    ensures Abs(s').clients == Abs(s).clients[tid := StatusOf(s'.n, s'.log, s'.threads[tid])]
  {
    forall a | 0 <= a < |s.threads| && a != tid ensures Abs(s').clients[a] == Abs(s).clients[a] {
      assert PcOk(s, s.threads[a]);
      StatusKept(s, s', s.threads[a]);
    }
  }

  /** A step that changes nothing an outsider could tell. */
  lemma Stutters(s: State, s': State, tid: nat)
    requires Inv(s) && tid < |s.threads| == |s'.threads| && s'.n == s.n && s'.log == s.log && s'.head == s.head
    requires forall a :: 0 <= a < |s.threads| && a != tid ==> s'.threads[a] == s.threads[a]
    requires StatusOf(s'.n, s'.log, s'.threads[tid]) == StatusOf(s.n, s.log, s.threads[tid])
    ensures Simulated(s, Tau, s')
  {
    OthersKept(s, s', tid);
    assert Abs(s').clients == Abs(s).clients;
  }

  /** A step at which the call of `tid` takes effect. */
  lemma TakesEffect(s: State, s': State, tid: nat, op: Op, res: Res)
    requires Inv(s) && tid < |s.threads| == |s'.threads| && s'.n == s.n && s.log <= s'.log && s'.head <= |s'.log|
    requires forall a :: 0 <= a < |s.threads| && a != tid ==> s'.threads[a] == s.threads[a]
    requires StatusOf(s.n, s.log, s.threads[tid]) == Called(op)
    requires StatusOf(s'.n, s'.log, s'.threads[tid]) == Answered(op, res)
    requires Answer(s.n, Contents(s), op, res) && Contents(s') == Effect(s.n, Contents(s), op)
    ensures Simulated(s, Tau, s')
  {
    OthersKept(s, s', tid);
    assert Commits(s.n, Abs(s), tid, Abs(s'));
  }

  lemma PushCasRefines(s: State, tid: nat, op: Op, t: nat, spurious: bool)
    requires Inv(s) && tid < |s.threads| && s.threads[tid] == PushCas(op, t)
    ensures Simulated(s, Tau, StepPush(s, tid, spurious))
  {
    assert PcOk(s, s.threads[tid]);
    var s' := StepPush(s, tid, spurious);
    if !spurious && s.tail == t {
      ClaimTail(s, tid, op, t);
      assert Contents(s') == Contents(s) + [op.item];
      TakesEffect(s, s', tid, op, Pushed);
    } else {
      Stutters(s, s', tid);
    }
  }

  lemma PushFullRefines(s: State, tid: nat, op: Op, t: nat, spurious: bool)
    requires Inv(s) && tid < |s.threads| && s.threads[tid] == PushFull(op, t)
    ensures Simulated(s, Tau, StepPush(s, tid, spurious))
  {
    assert PcOk(s, s.threads[tid]);
    var s' := StepPush(s, tid, spurious);
    if op.Push? && s.head + s.n == t {
      // `tail` has reached t and cannot be beyond head + n: the queue is full at this load.
      TakesEffect(s, s', tid, op, Full(op.item));
    } else if !spurious && s.head + s.n == t {
      ClaimOverwrite(s, tid, op, t);
      assert Contents(s') == Contents(s)[1..] + [op.item];
      TakesEffect(s, s', tid, op, Displaced(s.log[s.head]));
    } else {
      Stutters(s, s', tid);
    }
  }

  lemma PushRefines(s: State, tid: nat, spurious: bool)
    requires Inv(s) && tid < |s.threads|
    requires Pushing(s.threads[tid])
    ensures Simulated(s, Tau, StepPush(s, tid, spurious))
  {
    assert PcOk(s, s.threads[tid]);
    match s.threads[tid]
    case PushCas(op, t) => PushCasRefines(s, tid, op, t, spurious);
    case PushFull(op, t) => PushFullRefines(s, tid, op, t, spurious);
    case PushWrite(op, t) =>
      WriteValue(s, tid, op, t);
      Stutters(s, StepPush(s, tid, spurious), tid);
    case PushTail(_) | PushStamp(_, _) | PushPublish(_, _) => Stutters(s, StepPush(s, tid, spurious), tid);
  }

  lemma ForceRefines(s: State, tid: nat)
    requires Inv(s) && tid < |s.threads|
    requires Forcing(s.threads[tid])
    ensures Simulated(s, Tau, StepForce(s, tid))
  {
    var pc := s.threads[tid];
    assert PcOk(s, pc);
    if pc.ForceSwap? {
      SwapValue(s, tid, pc.op, pc.t);
    }
    ForceStutters(s, tid, StepForce(s, tid));
  }

  lemma ForceStutters(s: State, tid: nat, s': State)
    requires Inv(s) && tid < |s.threads| && Forcing(s.threads[tid]) && s' == StepForce(s, tid)
    requires !s'.threads[tid].Broken?
    ensures Simulated(s, Tau, s')
  {
    assert PcOk(s, s.threads[tid]);
    assert s'.threads[tid].ForcePublish? ==> s'.threads[tid].prev == s.log[s'.threads[tid].t - s.n];
    Stutters(s, s', tid);
  }

  lemma PopLoadRefines(s: State, tid: nat, spurious: bool)
    requires Inv(s) && tid < |s.threads|
    requires s.threads[tid].PopHead? || s.threads[tid].PopStamp? || s.threads[tid].PopTail?
    ensures Simulated(s, Tau, StepPop(s, tid, spurious))
  {
    assert PcOk(s, s.threads[tid]);
    var s' := StepPop(s, tid, spurious);
    if s.threads[tid].PopTail? && s.tail == s.threads[tid].h {
      // h <= head <= tail, and no overwrite is pending on a slot whose stamp has reached h.
      assert Contents(s) == [];
      TakesEffect(s, s', tid, Pop, Empty);
    } else {
      Stutters(s, s', tid);
    }
  }

  lemma PopCasRefines(s: State, tid: nat, spurious: bool)
    requires Inv(s) && tid < |s.threads| && s.threads[tid].PopCas?
    ensures Simulated(s, Tau, StepPop(s, tid, spurious))
  {
    var s', h := StepPop(s, tid, spurious), s.threads[tid].h;
    assert PcOk(s, s.threads[tid]);
    if !spurious && s.head == h {
      ClaimHead(s, tid, h);
      TakesEffect(s, s', tid, Pop, Popped(s.log[h]));
    } else {
      Stutters(s, s', tid);
    }
  }

  lemma PopRefines(s: State, tid: nat, spurious: bool)
    requires Inv(s) && tid < |s.threads|
    requires s.threads[tid].PopCas? || s.threads[tid].PopRead? || s.threads[tid].PopFree?
    ensures Simulated(s, Tau, StepPop(s, tid, spurious))
  {
    assert PcOk(s, s.threads[tid]);
    var s' := StepPop(s, tid, spurious);
    match s.threads[tid]
    case PopCas(_) => PopCasRefines(s, tid, spurious);
    case PopRead(h) =>
      ReadValue(s, tid, h);
      Stutters(s, s', tid);
    case PopFree(_, _) => Stutters(s, s', tid);
  }

  lemma ObserveRefines(s: State, tid: nat)
    requires Inv(s) && tid < |s.threads| && Observing(s.threads[tid])
    ensures Simulated(s, Tau, SetPc(s, tid, Observe(s, s.threads[tid])))
  {
    var pc := Observe(s, s.threads[tid]);
    ObserverStatus(s, s.threads[tid]);
    if pc.Reply? {
      TakesEffect(s, SetPc(s, tid, pc), tid, pc.op, pc.res);
    } else {
      Stutters(s, SetPc(s, tid, pc), tid);
    }
  }

  lemma ObserverStatus(s: State, pc: Pc)
    requires s.n > 0 && Observing(pc)
    ensures StatusOf(s.n, s.log, pc).Called? && StatusOf(s.n, s.log, pc).op.Observes()
    ensures Observe(s, pc).Reply? ==> Observe(s, pc).op == StatusOf(s.n, s.log, pc).op
    ensures !Observe(s, pc).Reply? ==> StatusOf(s.n, s.log, Observe(s, pc)) == StatusOf(s.n, s.log, pc)
  {
  }

  lemma OutsideRefines(s: State, tid: nat, act: Action)
    requires Inv(s) && Step(s, tid, act).1 != Tau
    ensures Simulated(s, Step(s, tid, act).1, Step(s, tid, act).0)
  {
    OthersKept(s, Step(s, tid, act).0, tid);
  }

  lemma AdvanceRefines(s: State, tid: nat, spurious: bool)
    requires Inv(s) && tid < |s.threads|
    ensures Simulated(s, Tau, Advance(s, tid, spurious))
  {
    var pc := s.threads[tid];
    if Pushing(pc) {
      PushRefines(s, tid, spurious);
    } else if Forcing(pc) {
      ForceRefines(s, tid);
    } else if pc.PopCas? || pc.PopRead? || pc.PopFree? {
      PopRefines(s, tid, spurious);
    } else if Popping(pc) {
      PopLoadRefines(s, tid, spurious);
    } else if Observing(pc) {
      ObserveRefines(s, tid);
    }
  }

  /** Each step of the protocol is one step of the atomic FIFO with the same label. */
  lemma StepRefines(s: State, tid: nat, act: Action)
    requires Inv(s)
    ensures Simulated(s, Step(s, tid, act).1, Step(s, tid, act).0)
  {
    if Step(s, tid, act).1 != Tau {
      OutsideRefines(s, tid, act);
    } else if tid < |s.threads| && act.Run? {
      AdvanceRefines(s, tid, act.spurious);
    }
  }
}

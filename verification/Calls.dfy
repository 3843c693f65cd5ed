/** The call that a thread of the ticket machine is in, told from its program counter. */
module Calls {
  import opened Options
  import opened Fifo
  import opened Tickets
  import opened TicketInvariant

  predicate Calling(pc: Pc) { Pushing(pc) || Forcing(pc) || Popping(pc) || Observing(pc) }

  /** The call a thread is in. */
  function CallOf(pc: Pc): Option<Op> {
    if Pushing(pc) || Forcing(pc) || pc.Reply? then Some(pc.op)
    else if Popping(pc) then Some(Pop)
    else if pc.LenTail? || pc.LenHead? || pc.LenAgain? then Some(Len)
    else if pc.EmptyHead? || pc.EmptyTail? then Some(IsEmpty)
    else if pc.FullTail? || pc.FullHead? then Some(IsFull)
    else None
  }

  lemma AdvanceCall(s: State, tid: nat, spurious: bool)
    requires Inv(s) && tid < |s.threads| && Calling(s.threads[tid])
    ensures var s' := Advance(s, tid, spurious);
      && |s'.threads| == |s.threads| && s'.threads == s.threads[tid := s'.threads[tid]]
      && CallOf(s'.threads[tid]) == CallOf(s.threads[tid])
  {
    assert PcOk(s, s.threads[tid]);
    if Pushing(s.threads[tid]) {
      PushCall(s, tid, spurious);
    } else if Forcing(s.threads[tid]) {
      ForceCall(s, tid);
    } else if Popping(s.threads[tid]) {
      PopCall(s, tid, spurious);
    }
  }

  lemma PushCall(s: State, tid: nat, spurious: bool)
    requires s.n > 0 && |s.slots| == s.n && tid < |s.threads| && Pushing(s.threads[tid]) && PcOk(s, s.threads[tid])
    ensures var s' := StepPush(s, tid, spurious);
      s'.threads == s.threads[tid := s'.threads[tid]] && CallOf(s'.threads[tid]) == CallOf(s.threads[tid])
  {
  }

  lemma ForceCall(s: State, tid: nat)
    requires s.n > 0 && |s.slots| == s.n && tid < |s.threads| && Forcing(s.threads[tid]) && PcOk(s, s.threads[tid])
    ensures var s' := StepForce(s, tid);
      s'.threads == s.threads[tid := s'.threads[tid]] && CallOf(s'.threads[tid]) == CallOf(s.threads[tid])
  {
  }

  lemma PopCall(s: State, tid: nat, spurious: bool)
    requires s.n > 0 && |s.slots| == s.n && tid < |s.threads| && Popping(s.threads[tid]) && PcOk(s, s.threads[tid])
    ensures var s' := StepPop(s, tid, spurious);
      s'.threads == s.threads[tid := s'.threads[tid]] && CallOf(s'.threads[tid]) == CallOf(s.threads[tid])
  {
  }
}

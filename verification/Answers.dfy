/** Calls are answered.  What a thread starts is shown as an invocation, and a thread that runs alone
    shows the reply to the call it is in and is at rest again. */
module Answers {
  import opened Options
  import opened Fifo
  import opened Tickets
  import opened TicketInvariant
  import opened TicketSteps
  import opened Calls
  import opened Encoding
  import opened Runs
  import opened Safety
  import opened Progress
  import Words

  /** The call that a thread invoked last. */
  function LastCall(labels: seq<Label>, tid: nat): Option<Op> {
    if labels == [] then None
    else
      var last := labels[|labels| - 1];
      if last.Invoked? && last.tid == tid then Some(last.op) else LastCall(labels[..|labels| - 1], tid)
  }

  // ---- invocations ----------------------------------------------------------------------------------

  /** Starting a call at rest shows its invocation, and that call is under way. */
  lemma StartInvokes(q: Words.Queue, sch: seq<Turn>, tid: nat, op: Op)
    requires tid < |Exec(q, sch).threads| && Exec(q, sch).threads[tid].Rest?
    ensures var run := sch + [Turn(tid, Start(op))];
      && Trace(q, run) == Trace(q, sch) + [Invoked(tid, op)] && LastCall(Trace(q, run), tid) == Some(op)
      && tid < |Exec(q, run).threads| && CallOf(Exec(q, run).threads[tid]) == Some(op)
  {
    TraceGrows(q, sch, Turn(tid, Start(op)));
  }

  // ---- replies ----------------------------------------------------------------------------------------

  /** A step leaves a thread in its call, begins the call it shows, or ends one. */
  lemma TurnCall(s: State, turn: Turn, tid: nat)
    requires Inv(s) && tid < |s.threads|
    ensures var s', shown := Step(s, turn.tid, turn.act).0, Step(s, turn.tid, turn.act).1;
      && |s'.threads| == |s.threads|
      && (s'.threads[tid].Rest?
          || (shown.Invoked? && shown.tid == tid && CallOf(s'.threads[tid]) == Some(shown.op))
          || (!(shown.Invoked? && shown.tid == tid) && !s.threads[tid].Rest?
              && CallOf(s'.threads[tid]) == CallOf(s.threads[tid])))
  {
    if turn.tid < |s.threads| {
      assert PcOk(s, s.threads[turn.tid]);
      if turn.act.Run? && Calling(s.threads[turn.tid]) {
        AdvanceCall(s, turn.tid, turn.act.spurious);
      }
    }
  }

  /** A thread that is not at rest is in the call that it invoked last. */
  lemma {:induction false} InLastCall(s: State, sch: seq<Turn>, tid: nat)
    requires Inv(s) && tid < |s.threads| && s.threads[tid].Rest?
    ensures var pc := Shadow(s, sch).threads[tid]; pc.Rest? || CallOf(pc) == LastCall(Labels(s, sch), tid)
  {
    if sch != [] {
      var prefix, turn := sch[..|sch| - 1], sch[|sch| - 1];
      InLastCall(s, prefix, tid);
      TurnCall(Shadow(s, prefix), turn, tid);
      assert Labels(s, sch)[..|prefix|] == Labels(s, prefix);
    }
  }

  /** The run ends with the thread's reply to `op`. */
  predicate Shows(labels: seq<Label>, tid: nat, op: Op) {
    labels != [] && var last := labels[|labels| - 1]; last.Replied? && last.tid == tid && last.op == op
  }

  lemma ReplyShown(s: State, sch: seq<Turn>, tid: nat)
    requires Inv(s) && tid < |s.threads| && Shadow(s, sch).threads[tid].Reply?
    ensures var run := sch + [Turn(tid, Run(false))];
      Shows(Labels(s, run), tid, Shadow(s, sch).threads[tid].op) && Shadow(s, run).threads[tid].Rest?
  {
    assert (sch + [Turn(tid, Run(false))])[..|sch|] == sch;
  }

  lemma {:induction false} ShadowAppend(s: State, a: seq<Turn>, b: seq<Turn>)
    requires Inv(s)
    ensures Shadow(s, a + b) == Shadow(Shadow(s, a), b)
  {
    if b == [] {
      assert a + b == a;
    } else {
      ShadowAppend(s, a, b[..|b| - 1]);
      assert (a + b)[..|a + b| - 1] == a + b[..|b| - 1];
    }
  }

  lemma ShowsAfter(s: State, w: nat, k: nat, sch: seq<Turn>, tid: nat) returns (steps: nat)
    requires Inv(s) && Words.Config(s.n, w, k) && tid < |s.threads|
    requires var q := EncState(Shadow(s, sch), w, k); OthersHoldNothing(q, tid) && !q.threads[tid].Rest?
    ensures steps <= 9 && CallOf(Shadow(s, sch).threads[tid]).Some?
    ensures Shows(Labels(s, sch + Solo(tid, steps)), tid, CallOf(Shadow(s, sch).threads[tid]).value)
    ensures Shadow(s, sch + Solo(tid, steps)).threads[tid].Rest?
  {
    BusyInWords(Shadow(s, sch), w, k, tid);
    var m := LoneSteps(Shadow(s, sch), w, k, tid);
    ShadowAppend(s, sch, Solo(tid, m));
    ReplyShown(s, sch + Solo(tid, m), tid);
    steps := m + 1;
    assert sch + Solo(tid, m) + [Turn(tid, Run(false))] == sch + Solo(tid, steps);
  }

  /** Within `steps` steps of its own, the thread shows the reply to the call it invoked last, and is at
      rest. */
  predicate Answered(q: Words.Queue, sch: seq<Turn>, tid: nat, steps: nat) {
    var op, q' := LastCall(Trace(q, sch), tid), Exec(q, sch + Solo(tid, steps));
    && op.Some? && Shows(Trace(q, sch + Solo(tid, steps)), tid, op.value)
    && tid < |q'.threads| && q'.threads[tid].Rest?
  }

  lemma AnsweredFrom(s0: State, w: nat, k: nat, issued: nat, sch: seq<Turn>, tid: nat) returns (steps: nat)
    requires Inv(s0) && Room(s0.n, w, k, issued) && |s0.log| + |sch| + 9 <= issued
    requires tid < |s0.threads| && s0.threads[tid].Rest?
    requires var q := EncState(Shadow(s0, sch), w, k); OthersHoldNothing(q, tid) && !q.threads[tid].Rest?
    ensures steps <= 9 && Answered(EncState(s0, w, k), sch, tid, steps)
  {
    InLastCall(s0, sch, tid);
    steps := ShowsAfter(s0, w, k, sch, tid);
    TraceIsLabels(s0, w, k, issued, sch);
    TraceIsLabels(s0, w, k, issued, sch + Solo(tid, steps));
    RunLockstep(s0, w, k, issued, sch + Solo(tid, steps));
  }

  /** From any reachable state in which no other thread holds a slot, the call that a thread invoked
      last is answered within nine steps of that thread alone: the last of them shows the reply, and
      the thread is at rest again. */
  lemma SoloReturns(n: nat, w: nat, k: nat, threads: nat, sch: seq<Turn>, tid: nat)
    requires Room(n, w, k, |sch| + 9) && tid < threads
    requires var q := Exec(Words.New(n, w, k, threads), sch);
      OthersHoldNothing(q, tid) && |q.threads| == threads && !q.threads[tid].Rest?
    ensures exists steps: nat :: steps <= 9 && Answered(Words.New(n, w, k, threads), sch, tid, steps)
  {
    RoomShrinks(n, w, k, |sch|, |sch| + 9);
    var s := Safety.Reached(n, w, k, threads, sch);
    NewIsEncoding(n, w, k, threads);
    var steps := AnsweredFrom(Init(n, threads), w, k, |sch| + 9, sch, tid);
  }
}

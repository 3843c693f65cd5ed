/** Whole runs of the queue.  A run is a schedule: which thread moves next, and what it is
    allowed to do.  Every schedule is a run, so a statement about all schedules is a
    statement about all interleavings of any number of threads and calls. */
module Runs {
  import opened Options
  import Arithmetic
  import opened Bits
  import opened Laps
  import opened Fifo
  import opened Tickets
  import opened TicketInvariant
  import opened TicketSteps
  import opened Linearization
  import opened Encoding
  import Words

  datatype Turn = Turn(tid: nat, act: Action)

  /** The state after a schedule. */
  function Exec(q: Words.Queue, sch: seq<Turn>): Words.Queue {
    if sch == [] then q
    else
      var prefix, turn := sch[..|sch| - 1], sch[|sch| - 1];
      Words.Step(Exec(q, prefix), turn.tid, turn.act).0
  }

  /** What the schedule shows to the outside, step by step. */
  function Trace(q: Words.Queue, sch: seq<Turn>): (labels: seq<Label>)
    ensures |labels| == |sch|
  {
    if sch == [] then []
    else
      var prefix, turn := sch[..|sch| - 1], sch[|sch| - 1];
      Trace(q, prefix) + [Words.Step(Exec(q, prefix), turn.tid, turn.act).1]
  }

  /** The same schedule on tickets. */
  ghost function Shadow(s: State, sch: seq<Turn>): (r: State)
    requires Inv(s)
    ensures Inv(r) && r.n == s.n && |r.threads| == |s.threads| && s.log <= r.log && |r.log| <= |s.log| + |sch|
  {
    if sch == [] then s
    else
      var prev := Shadow(s, sch[..|sch| - 1]);
      var turn := sch[|sch| - 1];
      StepInv(prev, turn.tid, turn.act);
      StepGrows(prev, turn.tid, turn.act);
      Step(prev, turn.tid, turn.act).0
  }

  predicate Grows(s: State, s': State) {
    s'.n == s.n && |s'.threads| == |s.threads| && s.log <= s'.log && |s'.log| <= |s.log| + 1
  }

  lemma StepGrows(s: State, tid: nat, act: Action)
    requires Shaped(s)
    ensures Grows(s, Step(s, tid, act).0)
  {
    if tid < |s.threads| && act.Run? && !s.threads[tid].Reply? {
      AdvanceGrows(s, tid, act.spurious);
    }
  }

  lemma AdvanceGrows(s: State, tid: nat, spurious: bool)
    requires Shaped(s) && tid < |s.threads|
    ensures Grows(s, Advance(s, tid, spurious))
  {
    assert Grows(s, StepPush(s, tid, spurious));
    assert Grows(s, StepForce(s, tid));
    assert Grows(s, StepPop(s, tid, spurious));
  }

  /** The atomic objects the run passes through. */
  ghost function AbsRun(s: State, sch: seq<Turn>): (run: seq<Object>)
    requires Inv(s)
    ensures |run| == |sch| + 1 && run[0] == Abs(s) && run[|sch|] == Abs(Shadow(s, sch))
  {
    if sch == [] then [Abs(s)] else AbsRun(s, sch[..|sch| - 1]) + [Abs(Shadow(s, sch))]
  }

  lemma RoomShrinks(n: nat, w: nat, k: nat, a: nat, b: nat)
    requires Room(n, w, k, b) && a <= b
    ensures Room(n, w, k, a)
  {
    EncMonotone(n, Pow2(k), a, b);
  }

  /** The word machine is the encoding of the ticket machine all along the run. */
  lemma {:induction false} RunLockstep(s: State, w: nat, k: nat, limit: nat, sch: seq<Turn>)
    requires Inv(s) && Room(s.n, w, k, limit) && |s.log| + |sch| <= limit
    ensures Exec(EncState(s, w, k), sch) == EncState(Shadow(s, sch), w, k)
  {
    if sch != [] {
      var prefix, turn := sch[..|sch| - 1], sch[|sch| - 1];
      RunLockstep(s, w, k, limit, prefix);
      TurnLockstep(Shadow(s, prefix), w, k, limit, turn);
    }
  }

  /** What the ticket machine shows. */
  ghost function Labels(s: State, sch: seq<Turn>): (labels: seq<Label>)
    requires Inv(s)
    ensures |labels| == |sch|
  {
    if sch == [] then []
    else
      var prefix, turn := sch[..|sch| - 1], sch[|sch| - 1];
      Labels(s, prefix) + [Step(Shadow(s, prefix), turn.tid, turn.act).1]
  }

  /** The word machine shows the same. */
  lemma {:induction false} TraceIsLabels(s: State, w: nat, k: nat, limit: nat, sch: seq<Turn>)
    requires Inv(s) && Room(s.n, w, k, limit) && |s.log| + |sch| <= limit
    ensures Trace(EncState(s, w, k), sch) == Labels(s, sch)
  {
    if sch != [] {
      var prefix, turn := sch[..|sch| - 1], sch[|sch| - 1];
      TraceIsLabels(s, w, k, limit, prefix);
      RunLockstep(s, w, k, limit, prefix);
      TurnLockstep(Shadow(s, prefix), w, k, limit, turn);
    }
  }

  lemma {:induction false} RunRefines(s: State, sch: seq<Turn>)
    requires Inv(s)
    ensures Behaviour(s.n, AbsRun(s, sch), Labels(s, sch))
  {
    if sch != [] {
      var prefix, turn := sch[..|sch| - 1], sch[|sch| - 1];
      RunRefines(s, prefix);
      StepRefines(Shadow(s, prefix), turn.tid, turn.act);
      BehaviourGrows(s.n, AbsRun(s, prefix), Labels(s, prefix), Step(Shadow(s, prefix), turn.tid, turn.act).1, Abs(Shadow(s, sch)));
    }
  }

  lemma TraceGrows(q: Words.Queue, prefix: seq<Turn>, turn: Turn)
    ensures Trace(q, prefix + [turn]) == Trace(q, prefix) + [Words.Step(Exec(q, prefix), turn.tid, turn.act).1]
    ensures Exec(q, prefix + [turn]) == Words.Step(Exec(q, prefix), turn.tid, turn.act).0
  {
    assert (prefix + [turn])[..|prefix|] == prefix;
  }

  lemma TurnLockstep(s: State, w: nat, k: nat, issued: nat, turn: Turn)
    requires Inv(s) && Room(s.n, w, k, issued) && |s.log| <= issued
    ensures Step(s, turn.tid, turn.act).0.n == s.n
    ensures Words.Step(EncState(s, w, k), turn.tid, turn.act).1 == Step(s, turn.tid, turn.act).1
    ensures Words.Step(EncState(s, w, k), turn.tid, turn.act).0 == EncState(Step(s, turn.tid, turn.act).0, w, k)
  {
    RoomShrinks(s.n, w, k, |s.log|, issued);
    Lockstep(s, w, k, turn.tid, turn.act);
  }

  lemma LastShadow(s: State, prefix: seq<Turn>, turn: Turn)
    requires Inv(s)
    ensures Shadow(s, prefix + [turn]) == Step(Shadow(s, prefix), turn.tid, turn.act).0
    ensures AbsRun(s, prefix + [turn]) == AbsRun(s, prefix) + [Abs(Shadow(s, prefix + [turn]))]
  {
    assert (prefix + [turn])[..|prefix|] == prefix;
  }

  lemma NewIsEncoding(n: nat, w: nat, k: nat, threads: nat)
    requires Words.Config(n, w, k)
    ensures EncState(Init(n, threads), w, k) == Words.New(n, w, k, threads)
    ensures Abs(Init(n, threads)) == NewObject(threads)
  {
    var q := EncState(Init(n, threads), w, k);
    forall i | 0 <= i < n ensures q.slots[i] == Words.WordSlot(i, None) {
      EncSmall(n, Pow2(k), i);
    }
    EncSmall(n, Pow2(k), 0);
  }

  lemma EncSmall(n: nat, lap: nat, i: nat)
    requires 0 < n < lap && i < n
    ensures Enc(n, lap, i) == i
  {
    Arithmetic.SlotOfSmall(n, i);
  }

  lemma RunIsBehaviour(n: nat, w: nat, k: nat, threads: nat, sch: seq<Turn>)
    requires Room(n, w, k, |sch|)
    ensures Inv(Init(n, threads))
    ensures Behaviour(n, AbsRun(Init(n, threads), sch), Trace(Words.New(n, w, k, threads), sch))
    ensures AbsRun(Init(n, threads), sch)[0] == NewObject(threads)
  {
    InitInv(n, threads);
    NewIsEncoding(n, w, k, threads);
    RunRefines(Init(n, threads), sch);
    TraceIsLabels(Init(n, threads), w, k, |sch|, sch);
  }

  /** Linearizability.  Whatever any number of threads do with push, force_push and pop, in
      any interleaving, with any spurious compare-exchange failures: what they see is what
      an atomic FIFO of capacity n could have shown them, call by call and reply by reply.
      The word must not have been used up by the calls, each of which costs at least one
      step of the schedule. */
  lemma Linearizable(n: nat, w: nat, k: nat, threads: nat, sch: seq<Turn>)
    requires Room(n, w, k, |sch|)
    ensures exists run: seq<Object> ::
      && Behaviour(n, run, Trace(Words.New(n, w, k, threads), sch))
      && run[0] == NewObject(threads)
  {
    RunIsBehaviour(n, w, k, threads, sch);
  }
}

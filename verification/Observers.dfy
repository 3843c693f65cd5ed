/** What len, is_empty and is_full may answer.  Each answer is right about the distance
    `tail - head` at some instant inside the call.  For is_empty and is_full this rests on the
    order of their two loads; for len on reading `tail` twice.

    That distance is the length of the queue except while an overwriting force_push has moved
    `head` and not yet `tail`; then it is one less. */
module Observers {
  import opened Options
  import opened Arithmetic
  import Bits
  import opened Fifo
  import opened Tickets
  import opened TicketInvariant
  import opened TicketSteps
  import opened Linearization
  import opened Encoding
  import opened Runs
  import opened Safety
  import opened Conservation
  import Words

  /** The distance that the two counters show. */
  function Shown(s: State): nat
    requires s.head <= s.tail
  {
    s.tail - s.head
  }

  /** The distances shown at the instants since thread `tid` last started a call. */
  ghost function Seen(s: State, sch: seq<Turn>, tid: nat): set<nat>
    requires Inv(s)
  {
    if sch == [] then {Shown(s)}
    else
      var prefix, turn := sch[..|sch| - 1], sch[|sch| - 1];
      if turn.tid == tid && Step(Shadow(s, prefix), turn.tid, turn.act).1.Invoked? then {Shown(Shadow(s, sch))}
      else Seen(s, prefix, tid) + {Shown(Shadow(s, sch))}
  }

  predicate SomePositive(seen: set<nat>) { exists v :: v in seen && v > 0 }
  predicate SomeBelow(seen: set<nat>, n: nat) { exists v :: v in seen && v < n }

  /** An answer that was true at one of the instants seen. */
  predicate Justified(n: nat, op: Op, res: Res, seen: set<nat>) {
    match op
    case Len => res.Size? && res.count <= n && res.count in seen
    case IsEmpty => res.Flag? && if res.answer then 0 in seen else SomePositive(seen)
    case IsFull => res.Flag? && if res.answer then n in seen else SomeBelow(seen, n)
    case _ => true
  }

  /** What an observer half way through its loads can rely on. */
  predicate Evidence(s: State, pc: Pc, seen: set<nat>) {
    match pc
    case LenAgain(t, h) => s.tail == t ==> h <= t && t - h in seen
    case EmptyTail(h) => s.tail > h ==> SomePositive(seen)
    case FullHead(t) => s.head + s.n > t ==> SomeBelow(seen, s.n)
    case Reply(op, res) => Justified(s.n, op, res, seen)
    case _ => true
  }

  /** The observer takes a step of its own. */
  lemma OwnStep(s: State, pc: Pc, seen: set<nat>)
    requires CountersOk(s) && PcOk(s, pc) && Observing(pc) && Evidence(s, pc, seen) && Shown(s) in seen
    ensures Evidence(s, Observe(s, pc), seen)
  {
    if pc.LenAgain? && s.tail == pc.t {
      CountIsDistance(s.n, pc.t, pc.h);
    }
  }

  /** A step moves at most one of the two counters, and by one. */
  predicate OneCounter(s: State, s': State) {
    && s'.n == s.n
    && ((s'.head == s.head && s.tail <= s'.tail <= s.tail + 1) || (s'.tail == s.tail && s'.head == s.head + 1))
  }

  lemma AdvanceOneCounter(s: State, tid: nat, spurious: bool)
    requires Inv(s) && tid < |s.threads|
    ensures OneCounter(s, Advance(s, tid, spurious))
  {
    assert PcOk(s, s.threads[tid]);
    assert Pushing(s.threads[tid]) ==> OneCounter(s, StepPush(s, tid, spurious));
    assert Forcing(s.threads[tid]) ==> OneCounter(s, StepForce(s, tid));
    assert Popping(s.threads[tid]) ==> OneCounter(s, StepPop(s, tid, spurious));
  }

  lemma StepOneCounter(s: State, tid: nat, act: Action)
    requires Inv(s)
    ensures OneCounter(s, Step(s, tid, act).0)
  {
    if tid < |s.threads| && act.Run? && !s.threads[tid].Reply? {
      AdvanceOneCounter(s, tid, act.spurious);
    }
  }

  /** Somebody else takes a step: what it may invalidate it also shows. */
  lemma OtherStep(s: State, s': State, pc: Pc, seen: set<nat>)
    requires CountersOk(s) && CountersOk(s') && PcOk(s, pc) && OneCounter(s, s') && Evidence(s, pc, seen)
    ensures Evidence(s', pc, seen + {Shown(s')})
  {
    var seen' := seen + {Shown(s')};
    if pc.EmptyTail? && s'.tail > pc.h && s.tail <= pc.h {
      assert Shown(s') in seen' && Shown(s') > 0;
    }
    if pc.FullHead? && s'.head + s'.n > pc.t && s.head + s.n <= pc.t {
      assert Shown(s') in seen' && Shown(s') < s'.n;
    }
    EvidenceGrows(s, pc, seen, seen');
  }

  lemma EvidenceGrows(s: State, pc: Pc, seen: set<nat>, seen': set<nat>)
    requires Evidence(s, pc, seen) && seen <= seen'
    ensures Evidence(s, pc, seen')
  {
    if SomePositive(seen) {
      var v :| v in seen && v > 0;
      assert v in seen';
    }
    if SomeBelow(seen, s.n) {
      var v :| v in seen && v < s.n;
      assert v in seen';
    }
  }

  lemma {:induction false} EvidenceKept(s: State, sch: seq<Turn>, tid: nat)
    requires Inv(s) && tid < |s.threads| && s.threads[tid].Rest?
    ensures Shown(Shadow(s, sch)) in Seen(s, sch, tid)
    ensures Evidence(Shadow(s, sch), Shadow(s, sch).threads[tid], Seen(s, sch, tid))
  {
    if sch != [] {
      var prefix, turn := sch[..|sch| - 1], sch[|sch| - 1];
      EvidenceKept(s, prefix, tid);
      TurnKeepsEvidence(Shadow(s, prefix), turn, tid, Seen(s, prefix, tid));
    }
  }

  lemma TurnKeepsEvidence(s: State, turn: Turn, tid: nat, seen: set<nat>)
    requires Inv(s) && tid < |s.threads| && Shown(s) in seen && Evidence(s, s.threads[tid], seen)
    ensures var s' := Step(s, turn.tid, turn.act).0;
      && Inv(s') && |s'.threads| == |s.threads|
      && Evidence(s', s'.threads[tid], seen + {Shown(s')})
      && (turn.tid == tid && Step(s, turn.tid, turn.act).1.Invoked? ==> Evidence(s', s'.threads[tid], {Shown(s')}))
  {
    StepInv(s, turn.tid, turn.act);
    StepGrows(s, turn.tid, turn.act);
    if turn.tid == tid {
      OwnTurn(s, turn, seen);
    } else {
      OtherTurn(s, turn, tid, seen);
    }
  }

  lemma OtherTurn(s: State, turn: Turn, tid: nat, seen: set<nat>)
    requires Inv(s) && tid < |s.threads| && turn.tid != tid && Evidence(s, s.threads[tid], seen)
    requires Inv(Step(s, turn.tid, turn.act).0) && |Step(s, turn.tid, turn.act).0.threads| == |s.threads|
    ensures var s' := Step(s, turn.tid, turn.act).0; Evidence(s', s'.threads[tid], seen + {Shown(s')})
  {
    assert PcOk(s, s.threads[tid]);
    StepOneCounter(s, turn.tid, turn.act);
    OthersStay(s, turn, tid);
    OtherStep(s, Step(s, turn.tid, turn.act).0, s.threads[tid], seen);
  }

  lemma OwnTurn(s: State, turn: Turn, seen: set<nat>)
    requires Inv(s) && turn.tid < |s.threads| && Shown(s) in seen && Evidence(s, s.threads[turn.tid], seen)
    requires Inv(Step(s, turn.tid, turn.act).0) && |Step(s, turn.tid, turn.act).0.threads| == |s.threads|
    ensures var s' := Step(s, turn.tid, turn.act).0;
      && Evidence(s', s'.threads[turn.tid], seen + {Shown(s')})
      && (Step(s, turn.tid, turn.act).1.Invoked? ==> Evidence(s', s'.threads[turn.tid], {Shown(s')}))
  {
    var pc := s.threads[turn.tid];
    if turn.act.Run? && !pc.Reply? {
      assert PcOk(s, pc);
      AdvanceEvidence(s, turn.tid, turn.act.spurious, seen);
      var s' := Advance(s, turn.tid, turn.act.spurious);
      EvidenceGrows(s', s'.threads[turn.tid], seen, seen + {Shown(s')});
    } else {
      OutsideEvidence(s, turn, seen);
    }
  }

  lemma OutsideEvidence(s: State, turn: Turn, seen: set<nat>)
    requires Shaped(s) && s.head <= s.tail && turn.tid < |s.threads| && Evidence(s, s.threads[turn.tid], seen)
    requires turn.act.Start? || s.threads[turn.tid].Reply?
    ensures var s' := Step(s, turn.tid, turn.act).0;
      && |s'.threads| == |s.threads| && s'.head == s.head && s'.tail == s.tail
      && Evidence(s', s'.threads[turn.tid], seen + {Shown(s')})
      && (Step(s, turn.tid, turn.act).1.Invoked? ==> Evidence(s', s'.threads[turn.tid], {Shown(s')}))
  {
    EvidenceGrows(s, s.threads[turn.tid], seen, seen + {Shown(s)});
  }

  lemma AdvanceEvidence(s: State, tid: nat, spurious: bool, seen: set<nat>)
    requires CountersOk(s) && tid < |s.threads| && PcOk(s, s.threads[tid]) && !s.threads[tid].Reply?
    requires Shown(s) in seen && Evidence(s, s.threads[tid], seen)
    ensures var s' := Advance(s, tid, spurious);
      |s'.threads| == |s.threads| && Evidence(s', s'.threads[tid], seen)
  {
    if Observing(s.threads[tid]) {
      OwnStep(s, s.threads[tid], seen);
    } else {
      MutatorEvidence(s, tid, spurious, seen);
    }
  }

  lemma OthersStay(s: State, turn: Turn, tid: nat)
    requires Inv(s) && tid < |s.threads| && turn.tid != tid
    ensures var s' := Step(s, turn.tid, turn.act).0; tid < |s'.threads| && s'.threads[tid] == s.threads[tid]
  {
    if turn.tid < |s.threads| && turn.act.Run? {
      var s' := Advance(s, turn.tid, turn.act.spurious);
      assert |s'.threads| == |s.threads| && s'.threads == s.threads[turn.tid := s'.threads[turn.tid]];
    }
  }

  /** Moving through push, pop or force_push needs no evidence. */
  predicate NoClaim(pc: Pc) { !Observing(pc) && (pc.Reply? ==> !pc.op.Observes()) }

  lemma PushNoClaim(s: State, tid: nat, spurious: bool)
    requires CountersOk(s) && tid < |s.threads| && Pushing(s.threads[tid]) && PcOk(s, s.threads[tid])
    ensures |StepPush(s, tid, spurious).threads| == |s.threads| && NoClaim(StepPush(s, tid, spurious).threads[tid])
  {
  }

  lemma ForceNoClaim(s: State, tid: nat)
    requires CountersOk(s) && tid < |s.threads| && Forcing(s.threads[tid]) && PcOk(s, s.threads[tid])
    ensures |StepForce(s, tid).threads| == |s.threads| && NoClaim(StepForce(s, tid).threads[tid])
  {
  }

  lemma PopNoClaim(s: State, tid: nat, spurious: bool)
    requires CountersOk(s) && tid < |s.threads| && Popping(s.threads[tid])
    ensures |StepPop(s, tid, spurious).threads| == |s.threads| && NoClaim(StepPop(s, tid, spurious).threads[tid])
  {
  }

  lemma MutatorEvidence(s: State, tid: nat, spurious: bool, seen: set<nat>)
    requires CountersOk(s) && tid < |s.threads| && PcOk(s, s.threads[tid])
    requires !Observing(s.threads[tid]) && !s.threads[tid].Reply?
    ensures var s' := Advance(s, tid, spurious);
      |s'.threads| == |s.threads| && Evidence(s', s'.threads[tid], seen)
  {
    var pc := s.threads[tid];
    if Pushing(pc) {
      PushNoClaim(s, tid, spurious);
    } else if Forcing(pc) {
      ForceNoClaim(s, tid);
    } else if Popping(pc) {
      PopNoClaim(s, tid, spurious);
    }
  }

  /** Every answer of len, is_empty and is_full, in every run, was true of `tail - head` at an
      instant between the call's start and its reply; len never exceeds the capacity. */
  lemma AnswersJustified(n: nat, w: nat, k: nat, threads: nat, sch: seq<Turn>, tid: nat)
    requires Room(n, w, k, |sch|) && tid < threads
    ensures Inv(Init(n, threads))
    ensures var q := Exec(Words.New(n, w, k, threads), sch);
      && |q.threads| == threads
      && (q.threads[tid].Reply? ==>
            Justified(n, q.threads[tid].op, q.threads[tid].res, Seen(Init(n, threads), sch, tid)))
  {
    var s := Safety.Reached(n, w, k, threads, sch);
    EvidenceKept(Init(n, threads), sch, tid);
    EncPcKind(n, Bits.Pow2(k), s.threads[tid]);
  }

  // ---- the distance shown and the length of the queue ------------------------------------------

  /** The counters show the length of the queue exactly when no overwrite is half way, and one
      less otherwise. */
  lemma ShownLength(s: State)
    requires Inv(s)
    ensures Shown(s) == |Contents(s)| <==> forall a :: 0 <= a < |s.threads| ==> !s.threads[a].ForceTail?
    ensures Shown(s) == |Contents(s)| || Shown(s) + 1 == |Contents(s)|
  {
    forall a | 0 <= a < |s.threads| && s.threads[a].ForceTail? ensures |s.log| == s.tail + 1 {
      assert PcOk(s, s.threads[a]);
    }
  }

  predicate WithoutForce(sch: seq<Turn>) {
    forall i :: 0 <= i < |sch| && sch[i].act.Start? ==> !sch[i].act.op.ForcePush?
  }

  predicate Unforced(pc: Pc) { !Forcing(pc) && (Pushing(pc) ==> !pc.op.ForcePush?) }

  lemma PushUnforced(s: State, tid: nat, spurious: bool)
    requires CountersOk(s) && tid < |s.threads| && Unforced(s.threads[tid]) && PcOk(s, s.threads[tid])
    ensures |Advance(s, tid, spurious).threads| == |s.threads| && Unforced(Advance(s, tid, spurious).threads[tid])
  {
    assert Pushing(s.threads[tid]) ==> Unforced(StepPush(s, tid, spurious).threads[tid]);
    assert Popping(s.threads[tid]) ==> Unforced(StepPop(s, tid, spurious).threads[tid]);
  }

  /** A run without force_push never has an overwrite half way. */
  lemma {:induction false} RunUnforced(s: State, sch: seq<Turn>, tid: nat)
    requires Inv(s) && WithoutForce(sch) && tid < |s.threads| && s.threads[tid].Rest?
    ensures Unforced(Shadow(s, sch).threads[tid])
  {
    if sch != [] {
      var prefix, turn := sch[..|sch| - 1], sch[|sch| - 1];
      RunUnforced(s, prefix, tid);
      TurnUnforced(Shadow(s, prefix), turn, tid);
    }
  }

  lemma TurnUnforced(s: State, turn: Turn, tid: nat)
    requires Inv(s) && tid < |s.threads| && Unforced(s.threads[tid])
    requires turn.act.Start? ==> !turn.act.op.ForcePush?
    ensures var s' := Step(s, turn.tid, turn.act).0; tid < |s'.threads| && Unforced(s'.threads[tid])
  {
    assert PcOk(s, s.threads[tid]);
    if turn.tid != tid {
      OthersStay(s, turn, tid);
    } else if turn.act.Run? && !s.threads[tid].Reply? {
      PushUnforced(s, tid, turn.act.spurious);
    }
  }

  /** In runs without force_push, the distance shown at every instant is the length of the
      queue, so the observers answer about the queue itself. */
  lemma ShownIsLength(n: nat, threads: nat, sch: seq<Turn>)
    requires n > 0 && WithoutForce(sch)
    ensures Inv(Init(n, threads))
    ensures var s := Shadow(Init(n, threads), sch); Shown(s) == |Contents(s)| <= n
  {
    InitInv(n, threads);
    var s := Shadow(Init(n, threads), sch);
    forall a | 0 <= a < |s.threads| ensures !s.threads[a].ForceTail? {
      RunUnforced(Init(n, threads), sch, a);
    }
    ShownLength(s);
  }

  // ---- why force_push has to be left out -----------------------------------------------------------

  lemma After(s0: State, sch: seq<Turn>, s: State, turn: Turn, s': State)
    requires Inv(s0) && Shadow(s0, sch) == s && Step(s, turn.tid, turn.act).0 == s'
    ensures Shadow(s0, sch + [turn]) == s'
  {
    LastShadow(s0, sch, turn);
  }

  /** One slot, two threads: the first pushes a, then begins to overwrite it with b. */
  function Stage(head: nat, tail: nat, full: bool, cell: Option<Value>, log: seq<Value>, p: Pc, q: Pc): State {
    State.State(1, head, tail, [Slot(Stamp(0, full), cell)], log, [p, q])
  }

  lemma BeginPart(s0: State, sch: seq<Turn>, a: Value, b: Value) returns (sch': seq<Turn>)
    requires Inv(s0) && Shadow(s0, sch) == Stage(0, 0, false, None, [], Rest, Rest)
    ensures Shadow(s0, sch') == Stage(0, 0, false, None, [], PushStamp(Push(a), 0), Rest)
  {
    After(s0, sch, Stage(0, 0, false, None, [], Rest, Rest), Turn(0, Start(Push(a))), Stage(0, 0, false, None, [], PushTail(Push(a)), Rest));
    sch' := sch + [Turn(0, Start(Push(a)))];
    After(s0, sch', Stage(0, 0, false, None, [], PushTail(Push(a)), Rest), Turn(0, Run(false)), Stage(0, 0, false, None, [], PushStamp(Push(a), 0), Rest));
    sch' := sch' + [Turn(0, Run(false))];
  }

  lemma ClaimPart(s0: State, sch: seq<Turn>, a: Value, b: Value) returns (sch': seq<Turn>)
    requires Inv(s0) && Shadow(s0, sch) == Stage(0, 0, false, None, [], PushStamp(Push(a), 0), Rest)
    ensures Shadow(s0, sch') == Stage(0, 1, false, None, [a], PushWrite(Push(a), 0), Rest)
  {
    After(s0, sch, Stage(0, 0, false, None, [], PushStamp(Push(a), 0), Rest), Turn(0, Run(false)), Stage(0, 0, false, None, [], PushCas(Push(a), 0), Rest));
    sch' := sch + [Turn(0, Run(false))];
    After(s0, sch', Stage(0, 0, false, None, [], PushCas(Push(a), 0), Rest), Turn(0, Run(false)), Stage(0, 1, false, None, [a], PushWrite(Push(a), 0), Rest));
    sch' := sch' + [Turn(0, Run(false))];
  }

  lemma PublishPart(s0: State, sch: seq<Turn>, a: Value, b: Value) returns (sch': seq<Turn>)
    requires Inv(s0) && Shadow(s0, sch) == Stage(0, 1, false, None, [a], PushWrite(Push(a), 0), Rest)
    ensures Shadow(s0, sch') == Stage(0, 1, true, Some(a), [a], Reply(Push(a), Pushed), Rest)
  {
    After(s0, sch, Stage(0, 1, false, None, [a], PushWrite(Push(a), 0), Rest), Turn(0, Run(false)), Stage(0, 1, false, Some(a), [a], PushPublish(Push(a), 0), Rest));
    sch' := sch + [Turn(0, Run(false))];
    After(s0, sch', Stage(0, 1, false, Some(a), [a], PushPublish(Push(a), 0), Rest), Turn(0, Run(false)), Stage(0, 1, true, Some(a), [a], Reply(Push(a), Pushed), Rest));
    sch' := sch' + [Turn(0, Run(false))];
  }

  lemma AgainPart(s0: State, sch: seq<Turn>, a: Value, b: Value) returns (sch': seq<Turn>)
    requires Inv(s0) && Shadow(s0, sch) == Stage(0, 1, true, Some(a), [a], Reply(Push(a), Pushed), Rest)
    ensures Shadow(s0, sch') == Stage(0, 1, true, Some(a), [a], PushTail(ForcePush(b)), Rest)
  {
    After(s0, sch, Stage(0, 1, true, Some(a), [a], Reply(Push(a), Pushed), Rest), Turn(0, Run(false)), Stage(0, 1, true, Some(a), [a], Rest, Rest));
    sch' := sch + [Turn(0, Run(false))];
    After(s0, sch', Stage(0, 1, true, Some(a), [a], Rest, Rest), Turn(0, Start(ForcePush(b))), Stage(0, 1, true, Some(a), [a], PushTail(ForcePush(b)), Rest));
    sch' := sch' + [Turn(0, Start(ForcePush(b)))];
  }

  lemma MeetPart(s0: State, sch: seq<Turn>, a: Value, b: Value) returns (sch': seq<Turn>)
    requires Inv(s0) && Shadow(s0, sch) == Stage(0, 1, true, Some(a), [a], PushTail(ForcePush(b)), Rest)
    ensures Shadow(s0, sch') == Stage(0, 1, true, Some(a), [a], PushFull(ForcePush(b), 1), Rest)
  {
    After(s0, sch, Stage(0, 1, true, Some(a), [a], PushTail(ForcePush(b)), Rest), Turn(0, Run(false)), Stage(0, 1, true, Some(a), [a], PushStamp(ForcePush(b), 1), Rest));
    sch' := sch + [Turn(0, Run(false))];
    After(s0, sch', Stage(0, 1, true, Some(a), [a], PushStamp(ForcePush(b), 1), Rest), Turn(0, Run(false)), Stage(0, 1, true, Some(a), [a], PushFull(ForcePush(b), 1), Rest));
    sch' := sch' + [Turn(0, Run(false))];
  }

  lemma OverwritePart(s0: State, sch: seq<Turn>, a: Value, b: Value) returns (sch': seq<Turn>)
    requires Inv(s0) && Shadow(s0, sch) == Stage(0, 1, true, Some(a), [a], PushFull(ForcePush(b), 1), Rest)
    ensures Shadow(s0, sch') == Stage(1, 1, true, Some(a), [a, b], ForceTail(ForcePush(b), 1), Rest)
  {
    After(s0, sch, Stage(0, 1, true, Some(a), [a], PushFull(ForcePush(b), 1), Rest), Turn(0, Run(false)), Stage(1, 1, true, Some(a), [a, b], ForceTail(ForcePush(b), 1), Rest));
    sch' := sch + [Turn(0, Run(false))];
  }

  /** The schedule of an uninterrupted is_empty. */
  function Ask(tid: nat): seq<Turn> { [Turn(tid, Start(IsEmpty)), Turn(tid, Run(false)), Turn(tid, Run(false))] }

  /** A thread that asks is_empty without interruption is told whether the counters agree; meanwhile
      the queue stays as it is. */
  lemma {:induction false} AskAtOnce(s0: State, sch: seq<Turn>, tid: nat, i: nat)
    requires Inv(s0) && tid < |s0.threads| && Shadow(s0, sch).threads[tid].Rest? && i <= 3
    ensures var s := Shadow(s0, sch);
      Shadow(s0, sch + Ask(tid)[..i]) == SetPc(s, tid, Asking(s, tid, i))
  {
    var s, ask := Shadow(s0, sch), Ask(tid);
    if i == 0 {
      assert sch + ask[..0] == sch;
      assert s.threads[tid := s.threads[tid]] == s.threads;
    } else {
      AskAtOnce(s0, sch, tid, i - 1);
      AskNext(s0, sch + ask[..i - 1], s, tid, i - 1);
      assert sch + ask[..i] == sch + ask[..i - 1] + [ask[i - 1]];
    }
  }

  lemma AskNext(s0: State, sch: seq<Turn>, s: State, tid: nat, i: nat)
    requires Inv(s0) && Shaped(s) && tid < |s.threads| && s.threads[tid].Rest? && i < 3
    requires Shadow(s0, sch) == SetPc(s, tid, Asking(s, tid, i))
    ensures Shadow(s0, sch + [Ask(tid)[i]]) == SetPc(s, tid, Asking(s, tid, i + 1))
  {
    AskSteps(s, tid, i);
    After(s0, sch, SetPc(s, tid, Asking(s, tid, i)), Ask(tid)[i], SetPc(s, tid, Asking(s, tid, i + 1)));
  }

  function Asking(s: State, tid: nat, i: nat): Pc
    requires tid < |s.threads|
  {
    if i == 0 then s.threads[tid]
    else if i == 1 then EmptyHead
    else if i == 2 then EmptyTail(s.head)
    else Reply(IsEmpty, Flag(s.tail == s.head))
  }

  lemma AskSteps(s: State, tid: nat, i: nat)
    requires Shaped(s) && tid < |s.threads| && s.threads[tid].Rest? && i < 3
    ensures Step(SetPc(s, tid, Asking(s, tid, i)), tid, Ask(tid)[i].act).0 == SetPc(s, tid, Asking(s, tid, i + 1))
  {
    assert s.threads[tid := Asking(s, tid, i)][tid := Asking(s, tid, i + 1)] == s.threads[tid := Asking(s, tid, i + 1)];
  }

  /** With a force_push in the run, is_empty can answer true although the queue holds an element
      at every instant of the call. */
  lemma OverwriteLooksEmpty(a: Value, b: Value) returns (sch: seq<Turn>)
    ensures Inv(Init(1, 2)) && Shadow(Init(1, 2), sch).threads[1].Rest?
    ensures Shadow(Init(1, 2), sch + Ask(1)).threads[1] == Reply(IsEmpty, Flag(true))
    ensures forall i :: 0 <= i <= 3 ==> Contents(Shadow(Init(1, 2), sch + Ask(1)[..i])) == [b]
  {
    InitInv(1, 2);
    assert Init(1, 2) == Stage(0, 0, false, None, [], Rest, Rest);
    sch := BeginPart(Init(1, 2), [], a, b);
    sch := ClaimPart(Init(1, 2), sch, a, b);
    sch := PublishPart(Init(1, 2), sch, a, b);
    sch := AgainPart(Init(1, 2), sch, a, b);
    sch := MeetPart(Init(1, 2), sch, a, b);
    sch := OverwritePart(Init(1, 2), sch, a, b);
    forall i | 0 <= i <= 3 ensures Contents(Shadow(Init(1, 2), sch + Ask(1)[..i])) == [b] {
      AskAtOnce(Init(1, 2), sch, 1, i);
    }
    AskAtOnce(Init(1, 2), sch, 1, 3);
    assert Ask(1)[..3] == Ask(1);
  }
}

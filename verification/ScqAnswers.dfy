/** Why the SCQ ring answers what it answers: a finalized ring refuses, an empty-handed dequeue has a
    reason inside its own call, and an enqueue replies only after the threshold was seen or set full. */
module ScqAnswers {
  import opened Options
  import opened ScqRing
  import opened ScqInvariant
  import opened ScqSteps
  import opened ScqRuns

  // ---- finalization -----------------------------------------------------------------------------------

  lemma StepSeals(r: Ring, tid: nat, act: Action)
    requires Inv(r) && (r.finalized ==> r.finalizable)
    ensures var r' := Step(r, tid, act); r'.finalizable == r.finalizable && (r'.finalized ==> r'.finalizable)
    ensures act.Seal? && r.finalizable ==> Step(r, tid, act).finalized
  {
    StepEvolves(r, tid, act);
    if tid < |r.threads| && act.Run? && !r.threads[tid].Rest? && !r.threads[tid].Reply? {
      RunInside(r, tid, act.spurious);
    }
  }

  lemma {:induction false} RunSeals(r: Ring, sch: seq<Turn>)
    requires Inv(r) && (r.finalized ==> r.finalizable)
    ensures var s := Exec(r, sch); s.finalizable == r.finalizable && (s.finalized ==> s.finalizable)
  {
    if sch != [] {
      RunSeals(r, sch[..|sch| - 1]);
      StepSeals(Exec(r, sch[..|sch| - 1]), sch[|sch| - 1].tid, sch[|sch| - 1].act);
    }
  }

  /** Sealing a finalizable ring finalizes it for the rest of the run. */
  lemma SealFinalizes(r: Ring, sch: seq<Turn>, tid: nat, more: seq<Turn>)
    requires Initial(r) && r.finalizable
    ensures Inv(r) && Exec(r, sch + [Turn(tid, Seal)] + more).finalized
  {
    InitialInv(r);
    RunSeals(r, sch);
    StepSeals(Exec(r, sch), tid, Seal);
    assert (sch + [Turn(tid, Seal)])[..|sch|] == sch;
    Later(r, sch + [Turn(tid, Seal)], more);
  }

  /** The thread has not got past the test of `is_finalized`. */
  predicate Barred(pc: Pc) { !pc.EnqCas? && PlacedAt(pc).None? }

  lemma BarredStep(r: Ring, b: nat, spurious: bool)
    requires r.half > 0 && |r.entries| == Size(r) && r.finalizable && r.finalized
    requires b < |r.threads| && Barred(r.threads[b])
    ensures var r' := Step(r, b, Run(spurious));
      |r'.threads| == |r.threads| && Barred(r'.threads[b]) && r'.placed == r.placed
  {
    if Enqueuing(r.threads[b]) {
      BarredEnq(r, b, spurious);
    } else if Dequeuing(r.threads[b]) {
      BarredDeq(r, b, spurious);
    }
  }

  lemma BarredEnq(r: Ring, b: nat, spurious: bool)
    requires r.half > 0 && |r.entries| == Size(r) && r.finalizable && r.finalized
    requires b < |r.threads| && Barred(r.threads[b]) && Enqueuing(r.threads[b])
    ensures var r' := StepEnq(r, b, spurious);
      |r'.threads| == |r.threads| && Barred(r'.threads[b]) && r'.placed == r.placed
  {
  }

  lemma BarredDeq(r: Ring, b: nat, spurious: bool)
    requires r.half > 0 && |r.entries| == Size(r) && b < |r.threads| && Dequeuing(r.threads[b])
    ensures var r' := StepDeq(r, b, spurious);
      |r'.threads| == |r.threads| && Barred(r'.threads[b]) && r'.placed == r.placed
  {
    DeqStays(r, b, spurious);
  }

  /** Where a dequeuer gets by one step. */
  predicate StillDequeuing(r: Ring, pc: Pc, pc': Pc) {
    || Dequeuing(pc') || pc'.DeqTail?
    || (pc'.Reply? && pc'.op.Dequeue? && (pc'.res.Got? || (pc'.res.Nothing? && pc.DeqThreshold? && r.threshold < 0)))
  }

  lemma LookStays(r: Ring, b: nat, h: nat, attempt: nat)
    requires r.half > 0 && |r.entries| == Size(r) && b < |r.threads| && r.threads[b] == DeqLoad(h, attempt)
    ensures var r' := Look(r, b, h, attempt);
      |r'.threads| == |r.threads| && r'.placed == r.placed && StillDequeuing(r, r.threads[b], r'.threads[b])
  {
  }

  lemma DeqStays(r: Ring, b: nat, spurious: bool)
    requires r.half > 0 && |r.entries| == Size(r) && b < |r.threads| && Dequeuing(r.threads[b])
    ensures var r' := StepDeq(r, b, spurious);
      |r'.threads| == |r.threads| && r'.placed == r.placed && StillDequeuing(r, r.threads[b], r'.threads[b])
  {
    if r.threads[b].DeqLoad? {
      LookStays(r, b, r.threads[b].h, r.threads[b].attempt);
    }
  }

  lemma OthersStay(r: Ring, turn: Turn, b: nat)
    requires Inv(r) && b < |r.threads| && turn.tid != b
    ensures var r' := Step(r, turn.tid, turn.act); |r'.threads| == |r.threads| && r'.threads[b] == r.threads[b]
  {
    if turn.act.Run? && turn.tid < |r.threads| && !r.threads[turn.tid].Rest? && !r.threads[turn.tid].Reply? {
      RunInside(r, turn.tid, turn.act.spurious);
    }
  }

  lemma BarredTurn(r: Ring, turn: Turn, b: nat)
    requires Inv(r) && r.finalizable && r.finalized && b < |r.threads| && Barred(r.threads[b])
    ensures var r' := Step(r, turn.tid, turn.act);
      |r'.threads| == |r.threads| && Barred(r'.threads[b]) && (turn.tid == b ==> r'.placed == r.placed)
  {
    StepEvolves(r, turn.tid, turn.act);
    if turn.act.Run? {
      if turn.tid == b {
        BarredStep(r, b, turn.act.spurious);
      } else {
        OthersStay(r, turn, b);
      }
    }
  }

  lemma {:induction false} BarredRun(r: Ring, more: seq<Turn>, b: nat)
    requires Inv(r) && r.finalizable && r.finalized && b < |r.threads| && Barred(r.threads[b])
    ensures Exec(r, more).finalizable && Exec(r, more).finalized && Barred(Exec(r, more).threads[b])
  {
    if more != [] {
      BarredRun(r, more[..|more| - 1], b);
      BarredTurn(Exec(r, more[..|more| - 1]), more[|more| - 1], b);
    }
  }

  /** A call that starts on a finalized ring stores nothing: an enqueue is refused, and no step of the
      thread places an index. */
  lemma FinalizedRefuses(r: Ring, sch: seq<Turn>, more: seq<Turn>, b: nat)
    requires Initial(r) && Inv(r) && b < |r.threads| && Exec(r, sch).finalized && Exec(r, sch).threads[b].Rest?
    ensures Refusing(Exec(r, sch + more), b)
  {
    RunSeals(r, sch);
    ExecAppend(r, sch, more);
    BarredRun(Exec(r, sch), more, b);
    BarredRefuses(Exec(r, sch + more), b);
  }

  /** The result of an enqueue is a refusal with its reason, and no step of the thread places anything. */
  ghost predicate Refusing(r: Ring, b: nat)
    requires r.half > 0 && |r.entries| == Size(r) && b < |r.threads|
  {
    && (r.threads[b].Reply? && r.threads[b].op.Enqueue? ==>
          r.threads[b].res == if r.threads[b].op.index >= r.half then TooLarge else Finalized)
    && (forall act :: Step(r, b, act).placed == r.placed)
  }

  lemma BarredRefuses(r: Ring, b: nat)
    requires Inv(r) && r.finalizable && r.finalized && b < |r.threads| && Barred(r.threads[b])
    ensures Refusing(r, b)
  {
    assert PcOk(r, r.threads[b]);
    forall act ensures Step(r, b, act).placed == r.placed {
      BarredTurn(r, Turn(b, act), b);
    }
  }

  // ---- empty-handed dequeues ------------------------------------------------------------------------------

  /** The instant after k turns lies inside the call that thread b is in after the whole schedule: from
      then on the thread is never at rest. */
  ghost predicate InCall(r: Ring, sch: seq<Turn>, k: nat, b: nat)
    requires Inv(r) && b < |r.threads|
  {
    && k <= |sch| && !Exec(r, sch).threads[b].Rest?
    && (k < |sch| ==> InCall(r, sch[..|sch| - 1], k, b))
  }

  /** Everything placed so far was handed out or is being fetched by the dequeuer of its ticket. */
  ghost predicate Drained(r: Ring) { forall t :: t in r.placed ==> t in r.taken || AtWork(r, t) }

  /** What entitles thread b to answer that there is nothing: the threshold is used up when it looks, or
      no ticket after the one it has just given up was drawn, and then the ring is drained. */
  predicate Excused(r: Ring, b: nat)
    requires b < |r.threads|
  {
    match r.threads[b]
    case DeqThreshold => r.threshold < 0
    case DeqNext => r.threshold <= 0
    case DeqTail(h) => r.tail <= h + 1 && h in r.gone
    case _ => false
  }

  lemma ExcusedIsDrained(r: Ring, b: nat)
    requires Inv(r) && b < |r.threads| && r.threads[b].DeqTail? && Excused(r, b)
    ensures Drained(r)
  {
    assert PcOk(r, r.threads[b]);
    forall t | t in r.placed && t !in r.taken ensures AtWork(r, t) {
      assert LiveOk(r, t);
      assert !Settled(r, t);
    }
  }

  /** On the way to the answer that there is nothing. */
  predicate GivesUp(pc: Pc) {
    pc.CatchCas? || pc.CatchHead? || pc.CatchTail? || pc.DeqLast? || pc == Reply(Dequeue, Nothing)
  }

  lemma GivesUpStep(r: Ring, b: nat, spurious: bool)
    requires Inv(r) && b < |r.threads| && !r.threads[b].Reply? && !r.threads[b].Rest?
    requires var r' := Step(r, b, Run(spurious)); b < |r'.threads| && GivesUp(r'.threads[b])
    ensures GivesUp(r.threads[b]) || Excused(r, b)
  {
    assert PcOk(r, r.threads[b]);
    if Enqueuing(r.threads[b]) {
      EnqGoesOn(r, b, spurious);
    } else if Dequeuing(r.threads[b]) {
      DeqGoesOn(r, b, spurious);
    } else {
      LeaveGoesOn(r, b, spurious);
    }
  }

  lemma EnqGoesOn(r: Ring, b: nat, spurious: bool)
    requires r.half > 0 && |r.entries| == Size(r) && b < |r.threads| && Enqueuing(r.threads[b])
    ensures |StepEnq(r, b, spurious).threads| == |r.threads| && !GivesUp(StepEnq(r, b, spurious).threads[b])
  {
  }

  lemma DeqGoesOn(r: Ring, b: nat, spurious: bool)
    requires r.half > 0 && |r.entries| == Size(r) && b < |r.threads| && Dequeuing(r.threads[b])
    ensures |StepDeq(r, b, spurious).threads| == |r.threads|
    ensures GivesUp(StepDeq(r, b, spurious).threads[b]) ==> Excused(r, b)
  {
    DeqStays(r, b, spurious);
  }

  lemma LeaveGoesOn(r: Ring, b: nat, spurious: bool)
    requires b < |r.threads| && Leaving(r.threads[b]) && (r.threads[b].DeqTail? ==> r.threads[b].h in r.gone)
    ensures |StepLeave(r, b, spurious).threads| == |r.threads|
    ensures GivesUp(StepLeave(r, b, spurious).threads[b]) ==> GivesUp(r.threads[b]) || Excused(r, b)
  {
  }

  /** Another thread's step, or one that ends or begins a call, does not make this thread give up. */
  lemma GivesUpTurn(r: Ring, turn: Turn, b: nat)
    requires Inv(r) && b < |r.threads|
    requires var r' := Step(r, turn.tid, turn.act); b < |r'.threads| && GivesUp(r'.threads[b])
    ensures !r.threads[b].Rest? && (GivesUp(r.threads[b]) || Excused(r, b))
  {
    if turn.act.Run? {
      if turn.tid == b {
        if !r.threads[b].Reply? && !r.threads[b].Rest? {
          GivesUpStep(r, b, turn.act.spurious);
        }
      } else {
        OthersStay(r, turn, b);
      }
    }
  }

  lemma LongerCall(r: Ring, sch: seq<Turn>, k: nat, b: nat)
    requires Inv(r) && b < |r.threads| && sch != [] && InCall(r, sch[..|sch| - 1], k, b) && !Exec(r, sch).threads[b].Rest?
    ensures InCall(r, sch, k, b) && k < |sch| && sch[..|sch| - 1][..k] == sch[..k]
  {
  }

  lemma NowInCall(r: Ring, sch: seq<Turn>, b: nat)
    requires Inv(r) && b < |r.threads| && !Exec(r, sch).threads[b].Rest?
    ensures InCall(r, sch, |sch|, b) && sch[..|sch|] == sch
  {
  }

  /** A dequeuer that gave up ticket h with none drawn after it is moving the tail past h, or has done so. */
  predicate CatchesUp(r: Ring, b: nat, h: nat)
    requires b < |r.threads|
  {
    h < r.head &&
    match r.threads[b]
    case CatchCas(_, goal) => h < goal
    case CatchHead => true
    case CatchTail(goal) => h < goal
    case _ => h < r.tail
  }

  lemma CatchStep(r: Ring, b: nat, spurious: bool, h: nat)
    requires b < |r.threads| && Leaving(r.threads[b])
    requires if r.threads[b].DeqTail? then r.threads[b].h == h && h < r.head && r.tail <= h + 1 else CatchesUp(r, b, h)
    requires GivesUp(StepLeave(r, b, spurious).threads[b])
    ensures |StepLeave(r, b, spurious).threads| == |r.threads| && CatchesUp(StepLeave(r, b, spurious), b, h)
  {
  }

  /** The reason of a thread that is on its way to give up, and how far it has got. */
  predicate Tracks(s: Ring, r: Ring, b: nat) {
    && b < |s.threads| && b < |r.threads| && Excused(s, b)
    && (s.threads[b].DeqTail? ==> CatchesUp(r, b, s.threads[b].h))
  }

  lemma TracksTurn(s: Ring, r: Ring, turn: Turn, b: nat)
    requires Inv(r) && Tracks(s, r, b) && GivesUp(r.threads[b])
    requires var r' := Step(r, turn.tid, turn.act); b < |r'.threads| && GivesUp(r'.threads[b])
    ensures Tracks(s, Step(r, turn.tid, turn.act), b)
  {
    var r' := Step(r, turn.tid, turn.act);
    StepEvolves(r, turn.tid, turn.act);
    if turn.tid != b {
      OthersStay(r, turn, b);
    } else if turn.act.Run? && Leaving(r.threads[b]) && s.threads[b].DeqTail? {
      CatchStep(r, b, turn.act.spurious, s.threads[b].h);
    }
  }

  lemma TracksFirst(r: Ring, turn: Turn, b: nat)
    requires Inv(r) && b < |r.threads| && !GivesUp(r.threads[b]) && Excused(r, b)
    requires var r' := Step(r, turn.tid, turn.act); b < |r'.threads| && GivesUp(r'.threads[b])
    ensures Tracks(r, Step(r, turn.tid, turn.act), b)
  {
    assert PcOk(r, r.threads[b]);
    if turn.tid != b {
      OthersStay(r, turn, b);
    } else if turn.act.Run? && r.threads[b].DeqTail? {
      CatchStep(r, b, turn.act.spurious, r.threads[b].h);
    }
  }

  lemma {:induction false} GivesUpRun(r: Ring, sch: seq<Turn>, b: nat) returns (k: nat)
    requires Inv(r) && b < |r.threads| && r.threads[b].Rest? && GivesUp(Exec(r, sch).threads[b])
    ensures InCall(r, sch, k, b) && Tracks(Exec(r, sch[..k]), Exec(r, sch), b)
  {
    var prefix := sch[..|sch| - 1];
    GivesUpTurn(Exec(r, prefix), sch[|sch| - 1], b);
    if GivesUp(Exec(r, prefix).threads[b]) {
      k := GivesUpRun(r, prefix, b);
      TracksTurn(Exec(r, prefix[..k]), Exec(r, prefix), sch[|sch| - 1], b);
    } else {
      k := |prefix|;
      NowInCall(r, prefix, b);
      TracksFirst(Exec(r, prefix), sch[|sch| - 1], b);
    }
    LongerCall(r, sch, k, b);
  }

  /** In every run, a dequeue that comes back with nothing has an instant inside its own call at which
      the threshold was used up, or at which it had given up a ticket with none drawn after it; then
      everything placed so far was handed out or was being fetched, and by now the tail has passed that
      ticket. */
  lemma NothingHasReason(r: Ring, sch: seq<Turn>, b: nat)
    requires Initial(r) && Inv(r) && b < |r.threads| && r.threads[b].Rest?
    requires Exec(r, sch).threads[b] == Reply(Dequeue, Nothing)
    ensures exists k: nat :: InCall(r, sch, k, b) && NothingLeft(Exec(r, sch[..k]), b) && CaughtUp(Exec(r, sch[..k]), Exec(r, sch), b)
  {
    var k := GivesUpRun(r, sch, b);
    if Exec(r, sch[..k]).threads[b].DeqTail? {
      ExcusedIsDrained(Exec(r, sch[..k]), b);
    }
  }

  /** The reason, and what it means. */
  ghost predicate NothingLeft(r: Ring, b: nat) {
    b < |r.threads| && Excused(r, b) && (r.threshold <= 0 || Drained(r))
  }

  /** A ticket given up for lack of later ones is behind the tail now. */
  predicate CaughtUp(s: Ring, r: Ring, b: nat) { b < |s.threads| && (s.threads[b].DeqTail? ==> s.threads[b].h < r.tail) }

  // ---- enqueues and the threshold ---------------------------------------------------------------------------

  /** The thread has placed its index and the threshold is full. */
  predicate Raised(r: Ring, b: nat) {
    b < |r.threads| && PlacedAt(r.threads[b]).Some? && r.threshold == FullThreshold(r.half)
  }

  predicate RepliesStored(pc: Pc) { pc.Reply? && pc.res.Enqueued? }

  lemma StoredStep(r: Ring, b: nat, spurious: bool)
    requires Inv(r) && b < |r.threads| && !r.threads[b].Reply? && !r.threads[b].Rest?
    requires var r' := Step(r, b, Run(spurious)); b < |r'.threads| && RepliesStored(r'.threads[b])
    ensures Raised(r, b) || Raised(Step(r, b, Run(spurious)), b)
  {
    if Enqueuing(r.threads[b]) {
      StoredEnq(r, b, spurious);
    } else if Dequeuing(r.threads[b]) {
      DeqStays(r, b, spurious);
    } else {
      LeaveStoresNot(r, b, spurious);
    }
  }

  lemma StoredEnq(r: Ring, b: nat, spurious: bool)
    requires r.half > 0 && |r.entries| == Size(r) && b < |r.threads| && Enqueuing(r.threads[b])
    requires RepliesStored(StepEnq(r, b, spurious).threads[b])
    ensures Raised(r, b) || Raised(StepEnq(r, b, spurious), b)
  {
  }

  lemma LeaveStoresNot(r: Ring, b: nat, spurious: bool)
    requires b < |r.threads| && Leaving(r.threads[b])
    ensures |StepLeave(r, b, spurious).threads| == |r.threads| && !RepliesStored(StepLeave(r, b, spurious).threads[b])
  {
  }

  lemma StoredTurn(r: Ring, turn: Turn, b: nat)
    requires Inv(r) && b < |r.threads|
    requires var r' := Step(r, turn.tid, turn.act); b < |r'.threads| && RepliesStored(r'.threads[b])
    ensures !r.threads[b].Rest?
    ensures RepliesStored(r.threads[b]) || Raised(r, b) || Raised(Step(r, turn.tid, turn.act), b)
  {
    if turn.act.Run? {
      if turn.tid == b {
        if !r.threads[b].Reply? && !r.threads[b].Rest? {
          StoredStep(r, b, turn.act.spurious);
        }
      } else {
        OthersStay(r, turn, b);
      }
    }
  }

  lemma {:induction false} StoredRun(r: Ring, sch: seq<Turn>, b: nat) returns (k: nat)
    requires Inv(r) && b < |r.threads| && r.threads[b].Rest? && RepliesStored(Exec(r, sch).threads[b])
    ensures InCall(r, sch, k, b) && Raised(Exec(r, sch[..k]), b)
  {
    var prefix := sch[..|sch| - 1];
    StoredTurn(Exec(r, prefix), sch[|sch| - 1], b);
    if RepliesStored(Exec(r, prefix).threads[b]) {
      k := StoredRun(r, prefix, b);
      LongerCall(r, sch, k, b);
    } else if Raised(Exec(r, prefix), b) {
      k := |prefix|;
      assert prefix[..k] == prefix;
      LongerCall(r, sch, k, b);
    } else {
      k := |sch|;
      NowInCall(r, sch, b);
    }
  }

  /** In every run, an enqueue that reports success has an instant, after it placed its index and inside
      its own call, at which the threshold was full: 3 * 2^order - 1. */
  lemma StoredRaisedThreshold(r: Ring, sch: seq<Turn>, b: nat)
    requires Initial(r) && Inv(r) && b < |r.threads| && r.threads[b].Rest?
    requires Exec(r, sch).threads[b].Reply? && Exec(r, sch).threads[b].res.Enqueued?
    ensures exists k: nat :: InCall(r, sch, k, b) && Raised(Exec(r, sch[..k]), b)
  {
    var k := StoredRun(r, sch, b);
  }
}

/** Why the bounded queue refuses or comes back empty, in every run: the reason lies inside the call. */
module TwoRingAnswers {
  import opened Options
  import R = ScqRing
  import A = ScqAnswers
  import ScqRuns
  import opened ScqInvariant
  import opened TwoRings
  import opened TwoRingInvariant
  import opened TwoRingSteps
  import opened TwoRingRuns

  /** The three answers that need a reason, each with the part of the machine the reason is about. */
  datatype Claim =
    | Full          // an enqueue is refused as full
    | NoneFree      // a dequeue from the free ring, inside an enqueue, finds nothing
    | NoneStored    // a dequeue finds nothing

  /** The thread is on its way to the answer. */
  predicate Owes(claim: Claim, pc: Pc, free: R.Pc, alloc: R.Pc) {
    match claim
    case Full => pc.EnqFull? || (pc.Done? && pc.out.Refused? && !pc.out.finalized)
    case NoneFree => pc.EnqPick? && A.GivesUp(free)
    case NoneStored => (pc.DeqFetch? && A.GivesUp(alloc)) || (pc.Done? && pc.out.Empty?)
  }

  predicate OwesNow(claim: Claim, q: Queue, b: nat) {
    Shaped(q) && b < |q.threads| && Owes(claim, q.threads[b], q.free.threads[b], q.alloc.threads[b])
  }

  /** The reason for it. */
  predicate Reason(claim: Claim, q: Queue, b: nat) {
    Shaped(q) && b < |q.threads| &&
    match claim
    case Full =>
      || (q.threads[b].EnqCount? && q.used >= q.free.half)
      || (q.threads[b].EnqPick? && q.free.threads[b] == R.Reply(R.Dequeue, R.Nothing))
    case NoneFree => q.threads[b].EnqPick? && A.Excused(q.free, b)
    case NoneStored => q.threads[b].DeqFetch? && A.Excused(q.alloc, b)
  }

  // ---- steps of other threads ---------------------------------------------------------------------------

  lemma RingOthers(r: Ring, tid: nat, act: R.Action, b: nat)
    requires Inv(r) && b < |r.threads| && tid != b
    ensures var r' := R.Step(r, tid, act); |r'.threads| == |r.threads| && r'.threads[b] == r.threads[b]
  {
    A.OthersStay(r, ScqRuns.Turn(tid, act), b);
  }

  predicate Unmoved(q: Queue, q': Queue, b: nat) {
    && b < |q.threads| == |q'.threads| && q'.threads[b] == q.threads[b]
    && b < |q.free.threads| == |q'.free.threads| && q'.free.threads[b] == q.free.threads[b]
    && b < |q.alloc.threads| == |q'.alloc.threads| && q'.alloc.threads[b] == q.alloc.threads[b]
  }

  lemma EnqueueOthers(q: Queue, tid: nat, spurious: bool, b: nat)
    requires Shaped(q) && RingsInv(q) && tid < |q.threads| && b < |q.threads| && b != tid && Enqueuing(q.threads[tid])
    ensures Unmoved(q, StepEnqueue(q, tid, spurious), b)
  {
    match q.threads[tid]
    case EnqCount(_) => RingOthers(q.free, tid, R.Start(R.Dequeue), b);
    case EnqFull(_) =>
    case EnqPick(_, _) => RingOthers(q.free, tid, R.Run(spurious), b); RingOthers(q.free, tid, R.Run(false), b);
    case EnqWrite(_, _, pos) => RingOthers(q.alloc, tid, R.Start(R.Enqueue(pos)), b);
    case EnqShare(_, _, _) => RingOthers(q.alloc, tid, R.Run(spurious), b); RingOthers(q.alloc, tid, R.Run(false), b);
    case EnqSeal(_, _) => RingOthers(q.alloc, tid, R.Seal, b);
  }

  lemma RollBackOthers(q: Queue, tid: nat, spurious: bool, b: nat)
    requires Shaped(q) && RingsInv(q) && tid < |q.threads| && b < |q.threads| && b != tid && RollingBack(q.threads[tid])
    ensures Unmoved(q, StepRollBack(q, tid, spurious), b)
  {
    match q.threads[tid]
    case EnqUncount(_, _) =>
    case EnqReread(_, pos) => RingOthers(q.free, tid, R.Start(R.Enqueue(pos)), b);
    case EnqReturn(_, _, _) => RingOthers(q.free, tid, R.Run(spurious), b); RingOthers(q.free, tid, R.Run(false), b);
  }

  lemma DequeueOthers(q: Queue, tid: nat, spurious: bool, b: nat)
    requires Shaped(q) && RingsInv(q) && tid < |q.threads| && b < |q.threads| && b != tid && Dequeuing(q.threads[tid])
    ensures Unmoved(q, StepDequeue(q, tid, spurious), b)
  {
    match q.threads[tid]
    case DeqFetch => RingOthers(q.alloc, tid, R.Run(spurious), b); RingOthers(q.alloc, tid, R.Run(false), b);
    case DeqCount(_, _) =>
    case DeqRead(pos, _) => RingOthers(q.free, tid, R.Start(R.Enqueue(pos)), b);
    case DeqReturn(_, _, _) => RingOthers(q.free, tid, R.Run(spurious), b); RingOthers(q.free, tid, R.Run(false), b);
  }

  lemma OthersStay(q: Queue, tid: nat, act: Action, b: nat)
    requires Shaped(q) && RingsInv(q) && b < |q.threads| && b != tid
    ensures Unmoved(q, Step(q, tid, act), b)
  {
    if tid < |q.threads| {
      if act.Start? {
        RingOthers(q.alloc, tid, R.Start(R.Dequeue), b);
      } else if Enqueuing(q.threads[tid]) {
        EnqueueOthers(q, tid, act.spurious, b);
      } else if RollingBack(q.threads[tid]) {
        RollBackOthers(q, tid, act.spurious, b);
      } else if Dequeuing(q.threads[tid]) {
        DequeueOthers(q, tid, act.spurious, b);
      }
    }
  }

  // ---- own steps ------------------------------------------------------------------------------------------

  lemma PickReason(q: Queue, places: Layout, claim: Claim, b: nat, spurious: bool)
    requires Owned(q, places) && RingsInv(q) && b < |q.threads| && q.threads[b].EnqPick?
    requires OwesNow(claim, StepEnqueue(q, b, spurious), b)
    ensures OwesNow(claim, q, b) || Reason(claim, q, b)
  {
    assert ThreadOk(q, places, b);
    if q.free.threads[b].Reply? {
      ReplyRight(q.free, b);
      Exit(q.free, b);
    } else if A.GivesUp(R.Step(q.free, b, R.Run(spurious)).threads[b]) {
      A.GivesUpStep(q.free, b, spurious);
    }
  }

  lemma FetchReason(q: Queue, places: Layout, claim: Claim, b: nat, spurious: bool)
    requires Owned(q, places) && RingsInv(q) && b < |q.threads| && q.threads[b].DeqFetch?
    requires OwesNow(claim, StepDequeue(q, b, spurious), b)
    ensures OwesNow(claim, q, b) || Reason(claim, q, b)
  {
    assert ThreadOk(q, places, b);
    if q.alloc.threads[b].Reply? {
      ReplyRight(q.alloc, b);
      Exit(q.alloc, b);
    } else if A.GivesUp(R.Step(q.alloc, b, R.Run(spurious)).threads[b]) {
      A.GivesUpStep(q.alloc, b, spurious);
    }
  }

  lemma CountReason(q: Queue, places: Layout, claim: Claim, b: nat, spurious: bool)
    requires Owned(q, places) && b < |q.threads| && (q.threads[b].EnqCount? || q.threads[b].EnqFull?)
    requires OwesNow(claim, StepEnqueue(q, b, spurious), b)
    ensures OwesNow(claim, q, b) || Reason(claim, q, b)
  {
    assert ThreadOk(q, places, b);
    if q.threads[b].EnqCount? {
      Enter(q.free, b, R.Dequeue);
    }
  }

  /** Where an answer that needs a reason can be owed. */
  predicate Owing(pc: Pc) {
    || pc.EnqFull? || pc.EnqPick? || pc.DeqFetch?
    || (pc.Done? && (pc.out.Empty? || (pc.out.Refused? && !pc.out.finalized)))
  }

  lemma StoreOwesNot(q: Queue, b: nat, spurious: bool)
    requires Shaped(q) && b < |q.threads| && (q.threads[b].EnqWrite? || q.threads[b].EnqShare? || q.threads[b].EnqSeal?)
    ensures var q' := StepEnqueue(q, b, spurious); b < |q'.threads| && !Owing(q'.threads[b])
  {
  }

  lemma RollBackOwesNot(q: Queue, b: nat, spurious: bool)
    requires Shaped(q) && b < |q.threads| && RollingBack(q.threads[b])
    ensures var q' := StepRollBack(q, b, spurious); b < |q'.threads| && !Owing(q'.threads[b])
  {
  }

  lemma ReadOwesNot(q: Queue, b: nat, spurious: bool)
    requires Shaped(q) && b < |q.threads| && Dequeuing(q.threads[b]) && !q.threads[b].DeqFetch?
    ensures var q' := StepDequeue(q, b, spurious); b < |q'.threads| && !Owing(q'.threads[b])
  {
  }

  lemma StartReason(q: Queue, places: Layout, claim: Claim, b: nat, call: Call)
    requires Owned(q, places) && b < |q.threads| && OwesNow(claim, Step(q, b, Start(call)), b)
    ensures OwesNow(claim, q, b) && !q.threads[b].Idle?
  {
    assert ThreadOk(q, places, b);
    if q.threads[b].Idle? {
      Enter(q.alloc, b, R.Dequeue);
    }
  }

  lemma RunReason(q: Queue, places: Layout, claim: Claim, b: nat, spurious: bool)
    requires Owned(q, places) && RingsInv(q) && b < |q.threads| && OwesNow(claim, Step(q, b, Run(spurious)), b)
    ensures !q.threads[b].Idle? && (OwesNow(claim, q, b) || Reason(claim, q, b))
  {
    var pc := q.threads[b];
    if pc.EnqPick? {
      PickReason(q, places, claim, b, spurious);
    } else if pc.EnqCount? || pc.EnqFull? {
      CountReason(q, places, claim, b, spurious);
    } else if Enqueuing(pc) {
      StoreOwesNot(q, b, spurious);
    } else if RollingBack(pc) {
      RollBackOwesNot(q, b, spurious);
    } else if pc.DeqFetch? {
      FetchReason(q, places, claim, b, spurious);
    } else if Dequeuing(pc) {
      ReadOwesNot(q, b, spurious);
    }
  }

  /** A thread comes to owe an answer only where there is a reason for it. */
  lemma TurnReason(q: Queue, claim: Claim, b: nat, move: Move)
    requires Good(q) && b < |q.threads| && OwesNow(claim, Step(q, move.tid, move.act), b)
    ensures !q.threads[b].Idle? && (OwesNow(claim, q, b) || Reason(claim, q, b))
  {
    var places :| Owned(q, places);
    if move.tid != b {
      OthersStay(q, move.tid, move.act, b);
    } else if move.act.Start? {
      StartReason(q, places, claim, b, move.act.call);
    } else {
      RunReason(q, places, claim, b, move.act.spurious);
    }
  }

  // ---- runs -------------------------------------------------------------------------------------------------

  /** The states that a run passes through. */
  ghost function History(q: Queue, sch: seq<Move>): (h: seq<Queue>)
    requires Good(q)
    ensures |h| == |sch| + 1 && h[|sch|] == Reach(q, sch)
  {
    if sch == [] then [q] else History(q, sch[..|sch| - 1]) + [Reach(q, sch)]
  }

  lemma {:induction false} HistoryStep(q: Queue, sch: seq<Move>, i: nat)
    requires Good(q) && i < |sch|
    ensures var h := History(q, sch); Good(h[i]) && h[i + 1] == Step(h[i], sch[i].tid, sch[i].act)
  {
    if i < |sch| - 1 {
      HistoryStep(q, sch[..|sch| - 1], i);
    }
  }

  lemma {:induction false} HistoryStart(q: Queue, sch: seq<Move>)
    requires Good(q)
    ensures History(q, sch)[0] == q
  {
    if sch != [] {
      HistoryStart(q, sch[..|sch| - 1]);
    }
  }

  predicate Busy(q: Queue, b: nat) { b < |q.threads| && !q.threads[b].Idle? }

  /** From instant k on, thread b is never idle: the instant lies inside the call it is in at the end. */
  predicate InCall(h: seq<Queue>, k: nat, b: nat) {
    k < |h| && forall j :: k <= j < |h| ==> Busy(h[j], b)
  }

  /** One move after another, an answer is owed only after a reason for it. */
  predicate Reasoned(claim: Claim, h: seq<Queue>, b: nat) {
    forall i, j :: 0 <= i && j == i + 1 < |h| && OwesNow(claim, h[j], b) ==>
      Busy(h[i], b) && (OwesNow(claim, h[i], b) || Reason(claim, h[i], b))
  }

  lemma {:induction false} ReasonInCall(claim: Claim, h: seq<Queue>, b: nat) returns (k: nat)
    requires h != [] && Reasoned(claim, h, b) && !Busy(h[0], b) && OwesNow(claim, h[|h| - 1], b)
    ensures InCall(h, k, b) && Reason(claim, h[k], b)
  {
    var last := |h| - 1;
    assert Busy(h[last], b);
    var prev := h[last - 1];
    assert Busy(prev, b) && (OwesNow(claim, prev, b) || Reason(claim, prev, b));
    if OwesNow(claim, prev, b) {
      k := ReasonInCall(claim, h[..last], b);
      assert h[..last][k] == h[k];
      forall j | k <= j < |h| ensures Busy(h[j], b) {
        if j < last {
          assert Busy(h[..last][j], b);
        }
      }
    } else {
      k := last - 1;
    }
  }

  lemma RunReasoned(q: Queue, claim: Claim, sch: seq<Move>, b: nat)
    requires Good(q) && b < |q.threads|
    ensures Reasoned(claim, History(q, sch), b)
  {
    var h := History(q, sch);
    forall i, j | 0 <= i && j == i + 1 < |h| && OwesNow(claim, h[j], b)
      ensures Busy(h[i], b) && (OwesNow(claim, h[i], b) || Reason(claim, h[i], b))
    {
      HistoryReason(q, claim, sch, h, i, j, b);
    }
  }

  lemma HistoryReason(q: Queue, claim: Claim, sch: seq<Move>, h: seq<Queue>, i: nat, j: nat, b: nat)
    requires Good(q) && h == History(q, sch) && j == i + 1 < |h| && OwesNow(claim, h[j], b)
    ensures Busy(h[i], b) && (OwesNow(claim, h[i], b) || Reason(claim, h[i], b))
  {
    HistoryStep(q, sch, i);
    MoveReason(h[i], h[j], claim, b, sch[i]);
  }

  lemma MoveReason(q: Queue, q': Queue, claim: Claim, b: nat, move: Move)
    requires Good(q) && q' == Step(q, move.tid, move.act) && OwesNow(claim, q', b)
    ensures Busy(q, b) && (OwesNow(claim, q, b) || Reason(claim, q, b))
  {
    StepShape(q, move.tid, move.act);
    TurnReason(q, claim, b, move);
  }

  lemma ReasonInRun(half: nat, finalizable: bool, threads: nat, claim: Claim, sch: seq<Move>, b: nat) returns (k: nat)
    requires half > 0 && b < threads && Good(New(half, finalizable, threads))
    requires OwesNow(claim, Reach(New(half, finalizable, threads), sch), b)
    ensures var h := History(New(half, finalizable, threads), sch);
      InCall(h, k, b) && Reason(claim, h[k], b) && (k < |sch| ==> Good(h[k]))
  {
    var q := New(half, finalizable, threads);
    RunReasoned(q, claim, sch, b);
    HistoryStart(q, sch);
    k := ReasonInCall(claim, History(q, sch), b);
    if k < |sch| {
      HistoryStep(q, sch, k);
    }
  }

  /** In every run, an enqueue refused as full has an instant inside its call at which `used` was 2^order
      or more when it counted itself in, or at which the free ring had answered it that there is nothing. */
  lemma FullHasReason(half: nat, finalizable: bool, threads: nat, sch: seq<Move>, b: nat)
    requires half > 0 && b < threads && Good(New(half, finalizable, threads))
    requires var q := Reach(New(half, finalizable, threads), sch);
      b < |q.threads| && q.threads[b].Done? && q.threads[b].out.Refused? && !q.threads[b].out.finalized
    ensures var h := History(New(half, finalizable, threads), sch); exists k: nat :: InCall(h, k, b) && Reason(Full, h[k], b)
  {
    GoodShaped(Reach(New(half, finalizable, threads), sch));
    var k := ReasonInRun(half, finalizable, threads, Full, sch, b);
  }

  lemma GoodShaped(q: Queue)
    requires Good(q)
    ensures Shaped(q)
  {
  }

  ghost predicate NothingFree(q: Queue, b: nat) { b < |q.threads| && q.threads[b].EnqPick? && A.NothingLeft(q.free, b) }
  ghost predicate NothingStored(q: Queue, b: nat) { b < |q.threads| && q.threads[b].DeqFetch? && A.NothingLeft(q.alloc, b) }

  lemma ReasonMeans(q: Queue, b: nat)
    requires Good(q) && b < |q.threads|
    ensures Reason(NoneFree, q, b) ==> NothingFree(q, b)
    ensures Reason(NoneStored, q, b) ==> NothingStored(q, b)
  {
    if Reason(NoneFree, q, b) && q.free.threads[b].DeqTail? {
      A.ExcusedIsDrained(q.free, b);
    }
    if Reason(NoneStored, q, b) && q.alloc.threads[b].DeqTail? {
      A.ExcusedIsDrained(q.alloc, b);
    }
  }

  lemma OwesNoReason(claim: Claim, q: Queue, b: nat)
    requires OwesNow(claim, q, b) && !claim.Full?
    ensures !Reason(claim, q, b)
  {
  }

  /** That answer of the free ring has its own reason inside the call: the threshold was used up, or the
      ring was drained. */
  lemma NoneFreeHasReason(half: nat, finalizable: bool, threads: nat, sch: seq<Move>, b: nat)
    requires half > 0 && b < threads && Good(New(half, finalizable, threads))
    requires var q := Reach(New(half, finalizable, threads), sch);
      && b < |q.threads| && b < |q.free.threads|
      && q.threads[b].EnqPick? && q.free.threads[b] == R.Reply(R.Dequeue, R.Nothing)
    ensures var h := History(New(half, finalizable, threads), sch); exists k: nat :: InCall(h, k, b) && NothingFree(h[k], b)
  {
    GoodShaped(Reach(New(half, finalizable, threads), sch));
    var k := ReasonInRun(half, finalizable, threads, NoneFree, sch, b);
    OwesNoReason(NoneFree, Reach(New(half, finalizable, threads), sch), b);
    ReasonMeans(History(New(half, finalizable, threads), sch)[k], b);
  }

  /** In every run, a dequeue that comes back empty has an instant inside its call at which the threshold of
      the allocated ring was used up, or at which it had given up a ticket with none drawn after it and
      everything published so far was handed out or being fetched. */
  lemma EmptyHasReason(half: nat, finalizable: bool, threads: nat, sch: seq<Move>, b: nat)
    requires half > 0 && b < threads && Good(New(half, finalizable, threads))
    requires var q := Reach(New(half, finalizable, threads), sch);
      b < |q.threads| && q.threads[b].Done? && q.threads[b].out.Empty?
    ensures var h := History(New(half, finalizable, threads), sch); exists k: nat :: InCall(h, k, b) && NothingStored(h[k], b)
  {
    GoodShaped(Reach(New(half, finalizable, threads), sch));
    var k := ReasonInRun(half, finalizable, threads, NoneStored, sch, b);
    OwesNoReason(NoneStored, Reach(New(half, finalizable, threads), sch), b);
    ReasonMeans(History(New(half, finalizable, threads), sch)[k], b);
  }
}

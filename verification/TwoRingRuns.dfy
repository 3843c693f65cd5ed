/** Whole runs of the bounded queue: who owns each index, what happens to each value, and what
    the `used` counter means. */
module TwoRingRuns {
  import opened Options
  import R = ScqRing
  import opened ScqInvariant
  import opened ScqRuns
  import opened TwoRings
  import opened TwoRingInvariant
  import opened TwoRingSteps

  // ---- the used counter -----------------------------------------------------------------------------

  lemma {:induction false} PendingUpdate(pcs: seq<Pc>, allocs: seq<R.Pc>, a: nat, pc: Pc, alloc: R.Pc)
    requires |pcs| == |allocs| && a < |pcs|
    ensures Pending(pcs[a := pc], allocs[a := alloc]) + Weight(pcs[a], allocs[a]) == Pending(pcs, allocs) + Weight(pc, alloc)
  {
    if a == 0 {
      assert pcs[0 := pc][1..] == pcs[1..] && allocs[0 := alloc][1..] == allocs[1..];
    } else {
      assert pcs[a := pc][1..] == pcs[1..][a - 1 := pc] && allocs[a := alloc][1..] == allocs[1..][a - 1 := alloc];
      PendingUpdate(pcs[1..], allocs[1..], a - 1, pc, alloc);
    }
  }

  function WeightOf(q: Queue, a: nat): nat
    requires Shaped(q) && a < |q.threads|
  {
    Weight(q.threads[a], q.alloc.threads[a])
  }

  /** The counter moves by as much as the thread's share and the ring's contents do. */
  predicate Balanced(q: Queue, q': Queue, tid: nat)
    requires Shaped(q) && Shaped(q') && tid < |q.threads| == |q'.threads|
  {
    q'.used - q.used == LiveCount(q'.alloc) - LiveCount(q.alloc) + WeightOf(q', tid) - WeightOf(q, tid)
  }

  lemma UsedKept(q: Queue, q': Queue, tid: nat)
    requires UsedOk(q) && Shaped(q') && tid < |q.threads| == |q'.threads| && Balanced(q, q', tid)
    requires q'.threads == q.threads[tid := q'.threads[tid]]
    requires q'.alloc.threads == q.alloc.threads[tid := q'.alloc.threads[tid]]
    ensures UsedOk(q')
  {
    PendingUpdate(q.threads, q.alloc.threads, tid, q'.threads[tid], q'.alloc.threads[tid]);
  }

  lemma LiveGrows(r: Ring, r': Ring, t: nat)
    requires r'.placed.Keys == r.placed.Keys + {t} && t !in r.placed && t !in r.taken && r'.taken == r.taken
    ensures LiveCount(r') == LiveCount(r) + 1
  {
    assert r'.placed.Keys - r'.taken == (r.placed.Keys - r.taken) + {t};
  }

  lemma LiveShrinks(r: Ring, r': Ring, h: nat)
    requires r'.placed == r.placed && Live(r, h) && r'.taken == r.taken + {h}
    ensures LiveCount(r') == LiveCount(r) - 1
  {
    assert r.placed.Keys - r.taken == (r'.placed.Keys - r'.taken) + {h};
  }

  function Share(pc: R.Pc): nat { if Carried(pc).Some? then 1 else 0 }

  /** Inside the allocated ring the thread's share and the ring's contents balance each other. */
  lemma RingBalance(r: Ring, r': Ring, pc: R.Pc, pc': R.Pc)
    requires TakenOk(r) && Effect(r, r', pc, pc')
    ensures LiveCount(r') + Share(pc') == LiveCount(r) + Share(pc)
  {
    if t :| Places(r, r', pc, pc', t) {
      PlaceBalance(r, r', pc, pc', t);
    } else if h :| Takes(r, r', pc, pc', h) {
      TakeBalance(r, r', pc, pc', h);
    } else {
      assert Idles(r, r', pc, pc');
      assert LiveCount(r') == LiveCount(r) && Share(pc') == Share(pc);
    }
  }

  lemma PlaceBalance(r: Ring, r': Ring, pc: R.Pc, pc': R.Pc, t: nat)
    requires TakenOk(r) && Places(r, r', pc, pc', t)
    ensures LiveCount(r') == LiveCount(r) + 1 && Share(pc) == 1 && Share(pc') == 0
  {
    assert r'.placed.Keys == r.placed.Keys + {t};
    LiveGrows(r, r', t);
  }

  lemma TakeBalance(r: Ring, r': Ring, pc: R.Pc, pc': R.Pc, h: nat)
    requires Takes(r, r', pc, pc', h)
    ensures LiveCount(r') == LiveCount(r) - 1 && Share(pc) == 0 && Share(pc') == 1
  {
    LiveShrinks(r, r', h);
  }

  lemma AllocRunUsed(q: Queue, alloc: Ring, tid: nat)
    requires UsedOk(q) && TakenOk(q.alloc) && tid < |q.threads| && InAlloc(q.threads[tid])
    requires |alloc.threads| == |q.threads| && alloc.threads == q.alloc.threads[tid := alloc.threads[tid]]
    requires Effect(q.alloc, alloc, q.alloc.threads[tid], alloc.threads[tid])
    ensures LiveCount(alloc) + Pending(q.threads, alloc.threads) == q.used
  {
    RingBalance(q.alloc, alloc, q.alloc.threads[tid], alloc.threads[tid]);
    PendingUpdate(q.threads, q.alloc.threads, tid, q.threads[tid], alloc.threads[tid]);
    assert q.threads[tid := q.threads[tid]] == q.threads;
    assert Weight(q.threads[tid], alloc.threads[tid]) == Share(alloc.threads[tid]);
    assert WeightOf(q, tid) == Share(q.alloc.threads[tid]);
  }

  /** A step that leaves the allocated ring alone, or only enters or leaves it. */
  lemma OuterUsed(q: Queue, q': Queue, tid: nat, pc: Pc, alloc: R.Pc)
    requires UsedOk(q) && Shaped(q') && tid < |q.threads|
    requires q'.threads == q.threads[tid := pc] && q'.alloc.threads == q.alloc.threads[tid := alloc]
    requires q'.alloc.placed == q.alloc.placed && q'.alloc.taken == q.alloc.taken
    requires q'.used - q.used == Weight(pc, alloc) - Weight(q.threads[tid], q.alloc.threads[tid])
    ensures UsedOk(q')
  {
    UsedKept(q, q', tid);
  }

  /** A step that leaves the allocated ring alone. */
  lemma SideUsed(q: Queue, q': Queue, tid: nat, pc: Pc)
    requires UsedOk(q) && Shaped(q') && tid < |q.threads| && q'.threads == q.threads[tid := pc]
    requires q'.alloc.threads == q.alloc.threads && q'.alloc.placed == q.alloc.placed && q'.alloc.taken == q.alloc.taken
    requires q'.used - q.used == Weight(pc, q.alloc.threads[tid]) - Weight(q.threads[tid], q.alloc.threads[tid])
    ensures UsedOk(q')
  {
    assert q.alloc.threads == q.alloc.threads[tid := q.alloc.threads[tid]];
    OuterUsed(q, q', tid, pc, q.alloc.threads[tid]);
  }

  ghost predicate Ready(q: Queue, places: Layout, tid: nat) {
    && RingsOk(q) && UsedOk(q) && tid < |q.threads| && ThreadOk(q, places, tid)
    && (HeldBy(q, tid).Some? ==> HeldBy(q, tid).value < q.free.half)
  }

  lemma CountUsed(q: Queue, tid: nat, spurious: bool)
    requires UsedOk(q) && tid < |q.threads| && q.threads[tid].EnqCount? && Shaped(StepEnqueue(q, tid, spurious))
    ensures UsedOk(StepEnqueue(q, tid, spurious))
  {
    var q', c := StepEnqueue(q, tid, spurious), q.threads[tid].call;
    if q.used >= q.free.half {
      SideUsed(q, q', tid, EnqFull(c));
    } else {
      SideUsed(q, q', tid, EnqPick(c, q.used));
    }
  }

  lemma EndUsed(q: Queue, places: Layout, tid: nat, spurious: bool)
    requires Ready(q, places, tid) && (q.threads[tid].EnqFull? || q.threads[tid].EnqSeal?)
    requires Shaped(StepEnqueue(q, tid, spurious))
    ensures UsedOk(StepEnqueue(q, tid, spurious))
  {
    var q' := StepEnqueue(q, tid, spurious);
    SideUsed(q, q', tid, q'.threads[tid]);
  }

  /** Running inside the free ring changes nothing that is counted. */
  lemma FreeRunUsed(q: Queue, tid: nat, spurious: bool)
    requires UsedOk(q) && tid < |q.threads| && InFree(q.threads[tid]) && !q.free.threads[tid].Reply?
    requires Shaped(Step(q, tid, Run(spurious)))
    ensures UsedOk(Step(q, tid, Run(spurious)))
  {
    assert Step(q, tid, Run(spurious)) == FreeStep(q, tid, R.Run(spurious));
  }

  lemma FreeDoneUsed(q: Queue, tid: nat, free: Ring, pc: Pc)
    requires UsedOk(q) && tid < |q.threads| && Shaped(Goto(q.(free := free), tid, pc))
    requires Weight(pc, q.alloc.threads[tid]) == WeightOf(q, tid)
    ensures UsedOk(Goto(q.(free := free), tid, pc))
  {
    SideUsed(q, Goto(q.(free := free), tid, pc), tid, pc);
  }

  lemma FreeExitUsed(q: Queue, tid: nat, spurious: bool)
    requires UsedOk(q) && tid < |q.threads| && InFree(q.threads[tid]) && q.free.threads[tid].Reply?
    requires Shaped(Step(q, tid, Run(spurious)))
    ensures UsedOk(Step(q, tid, Run(spurious)))
  {
    var q' := Step(q, tid, Run(spurious));
    Exit(q.free, tid);
    assert q' == Goto(q.(free := q'.free), tid, q'.threads[tid]);
    FreeDoneUsed(q, tid, q'.free, q'.threads[tid]);
  }

  lemma WriteUsed(q: Queue, places: Layout, tid: nat, spurious: bool)
    requires Ready(q, places, tid) && q.threads[tid].EnqWrite? && Shaped(StepEnqueue(q, tid, spurious))
    ensures UsedOk(StepEnqueue(q, tid, spurious))
  {
    var q' := StepEnqueue(q, tid, spurious);
    Enter(q.alloc, tid, R.Enqueue(q.threads[tid].pos));
    OuterUsed(q, q', tid, q'.threads[tid], R.EnqTail(q.threads[tid].pos));
  }

  lemma SharedUsed(q: Queue, places: Layout, tid: nat, spurious: bool)
    requires Ready(q, places, tid) && q.threads[tid].EnqShare? && q.alloc.threads[tid].Reply?
    requires Shaped(StepEnqueue(q, tid, spurious))
    ensures UsedOk(StepEnqueue(q, tid, spurious))
  {
    var q' := StepEnqueue(q, tid, spurious);
    Exit(q.alloc, tid);
    OuterUsed(q, q', tid, q'.threads[tid], R.Rest);
  }

  lemma ShareRunUsed(q: Queue, tid: nat, spurious: bool)
    requires UsedOk(q) && Inv(q.alloc) && tid < |q.threads| && q.threads[tid].EnqShare?
    requires !q.alloc.threads[tid].Rest? && !q.alloc.threads[tid].Reply? && Shaped(StepEnqueue(q, tid, spurious))
    ensures UsedOk(StepEnqueue(q, tid, spurious))
  {
    RunInside(q.alloc, tid, spurious);
    AllocRunUsed(q, R.Step(q.alloc, tid, R.Run(spurious)), tid);
  }

  lemma EnqueueUsed(q: Queue, places: Layout, tid: nat, spurious: bool)
    requires Ready(q, places, tid) && RingsInv(q) && Enqueuing(q.threads[tid]) && !q.threads[tid].EnqPick?
    requires Shaped(StepEnqueue(q, tid, spurious))
    ensures UsedOk(StepEnqueue(q, tid, spurious))
  {
    if q.threads[tid].EnqWrite? {
      WriteUsed(q, places, tid, spurious);
    } else if q.threads[tid].EnqShare? {
      if q.alloc.threads[tid].Reply? {
        SharedUsed(q, places, tid, spurious);
      } else {
        ShareRunUsed(q, tid, spurious);
      }
    } else if q.threads[tid].EnqCount? {
      CountUsed(q, tid, spurious);
    } else {
      EndUsed(q, places, tid, spurious);
    }
  }

  lemma UncountUsed(q: Queue, tid: nat, spurious: bool)
    requires UsedOk(q) && tid < |q.threads| && q.threads[tid].EnqUncount?
    ensures UsedOk(StepRollBack(q, tid, spurious))
  {
    var EnqUncount(c, pos) := q.threads[tid];
    SideUsed(q, StepRollBack(q, tid, spurious), tid, EnqReread(c, pos));
  }

  lemma RereadUsed(q: Queue, tid: nat, c: Call, pos: nat)
    requires UsedOk(q) && tid < |q.threads| && q.threads[tid].EnqReread? && Shaped(StepReread(q, tid, c, pos))
    ensures UsedOk(StepReread(q, tid, c, pos))
  {
    if pos >= |q.backing| {
      SideUsed(q, Goto(q, tid, Broken(OutOfBounds)), tid, Broken(OutOfBounds));
    } else if q.backing[pos].None? {
      SideUsed(q, Goto(q, tid, Broken(Uninitialised)), tid, Broken(Uninitialised));
    } else {
      SideUsed(q, StepReread(q, tid, c, pos), tid, EnqReturn(c, q.backing[pos].value, pos));
    }
  }

  lemma FetchedUsed(q: Queue, tid: nat, spurious: bool, res: R.Res)
    requires UsedOk(q) && tid < |q.threads| && q.threads[tid].DeqFetch?
    requires q.alloc.threads[tid] == R.Reply(R.Dequeue, res) && (res.Got? || res.Nothing?)
    ensures UsedOk(StepDequeue(q, tid, spurious))
  {
    FetchedStep(q, tid, spurious);
    if res.Got? {
      LeavesAlloc(q, tid, DeqCount(res.index, res.ticket));
    } else {
      LeavesAlloc(q, tid, Done(Dequeue, Empty));
    }
  }

  lemma FetchedStep(q: Queue, tid: nat, spurious: bool)
    requires Shaped(q) && tid < |q.threads| && q.threads[tid].DeqFetch? && q.alloc.threads[tid].Reply?
    ensures var res := q.alloc.threads[tid].res;
      StepDequeue(q, tid, spurious) == Goto(q.(alloc := R.WithPc(q.alloc, tid, R.Rest)), tid,
        if res.Got? then DeqCount(res.index, res.ticket) else Done(Dequeue, Empty))
  {
    Exit(q.alloc, tid);
  }

  lemma LeavesAlloc(q: Queue, tid: nat, pc: Pc)
    requires UsedOk(q) && tid < |q.threads| && Weight(pc, R.Rest) == WeightOf(q, tid)
    ensures UsedOk(Goto(q.(alloc := R.WithPc(q.alloc, tid, R.Rest)), tid, pc))
  {
    OuterUsed(q, Goto(q.(alloc := R.WithPc(q.alloc, tid, R.Rest)), tid, pc), tid, pc, R.Rest);
  }

  lemma FetchRunUsed(q: Queue, tid: nat, spurious: bool)
    requires UsedOk(q) && Inv(q.alloc) && tid < |q.threads| && q.threads[tid].DeqFetch?
    requires !q.alloc.threads[tid].Rest? && !q.alloc.threads[tid].Reply? && Shaped(StepDequeue(q, tid, spurious))
    ensures UsedOk(StepDequeue(q, tid, spurious))
  {
    RunInside(q.alloc, tid, spurious);
    AllocRunUsed(q, R.Step(q.alloc, tid, R.Run(spurious)), tid);
  }

  lemma DeqCountUsed(q: Queue, tid: nat, spurious: bool)
    requires UsedOk(q) && tid < |q.threads| && q.threads[tid].DeqCount?
    ensures UsedOk(StepDequeue(q, tid, spurious))
  {
    var DeqCount(pos, t) := q.threads[tid];
    SideUsed(q, StepDequeue(q, tid, spurious), tid, DeqRead(pos, t));
  }

  lemma ReadUsed(q: Queue, tid: nat, pos: nat, t: nat)
    requires UsedOk(q) && tid < |q.threads| && q.threads[tid].DeqRead? && Shaped(StepRead(q, tid, pos, t))
    ensures UsedOk(StepRead(q, tid, pos, t))
  {
    if pos >= |q.backing| {
      SideUsed(q, Goto(q, tid, Broken(OutOfBounds)), tid, Broken(OutOfBounds));
    } else if q.backing[pos].None? {
      SideUsed(q, Goto(q, tid, Broken(Uninitialised)), tid, Broken(Uninitialised));
    } else {
      SideUsed(q, StepRead(q, tid, pos, t), tid, DeqReturn(q.backing[pos].value, pos, t));
    }
  }

  lemma DequeueUsed(q: Queue, places: Layout, tid: nat, spurious: bool)
    requires Ready(q, places, tid) && RingsInv(q) && Dequeuing(q.threads[tid]) && !q.threads[tid].DeqReturn?
    requires Shaped(StepDequeue(q, tid, spurious))
    ensures UsedOk(StepDequeue(q, tid, spurious))
  {
    if q.threads[tid].DeqCount? {
      DeqCountUsed(q, tid, spurious);
    } else if q.threads[tid].DeqRead? {
      ReadUsed(q, tid, q.threads[tid].pos, q.threads[tid].t);
    } else if q.alloc.threads[tid].Reply? {
      ReplyRight(q.alloc, tid);
      FetchedUsed(q, tid, spurious, q.alloc.threads[tid].res);
    } else {
      FetchRunUsed(q, tid, spurious);
    }
  }

  lemma StartUsed(q: Queue, places: Layout, tid: nat, call: Call)
    requires Ready(q, places, tid) && Shaped(Step(q, tid, Start(call)))
    ensures UsedOk(Step(q, tid, Start(call)))
  {
    if q.threads[tid].Idle? {
      Enter(q.alloc, tid, R.Dequeue);
      var q' := Step(q, tid, Start(call));
      OuterUsed(q, q', tid, q'.threads[tid], if call.Dequeue? then R.DeqThreshold else R.Rest);
    }
  }

  lemma StepUsed(q: Queue, places: Layout, tid: nat, act: Action)
    requires Owned(q, places) && RingsInv(q) && UsedOk(q) && Shaped(Step(q, tid, act))
    ensures UsedOk(Step(q, tid, act))
  {
    if tid < |q.threads| {
      var pc := q.threads[tid];
      assert ThreadOk(q, places, tid);
      if act.Start? {
        StartUsed(q, places, tid, act.call);
      } else if InFree(pc) {
        if q.free.threads[tid].Reply? {
          FreeExitUsed(q, tid, act.spurious);
        } else {
          FreeRunUsed(q, tid, act.spurious);
        }
      } else if Enqueuing(pc) {
        EnqueueUsed(q, places, tid, act.spurious);
      } else if RollingBack(pc) {
        if pc.EnqUncount? {
          UncountUsed(q, tid, act.spurious);
        } else {
          RereadUsed(q, tid, pc.call, pc.pos);
        }
      } else if Dequeuing(pc) {
        DequeueUsed(q, places, tid, act.spurious);
      } else if pc.Done? {
        SideUsed(q, Goto(q, tid, Idle), tid, Idle);
      }
    }
  }

  // ---- runs -------------------------------------------------------------------------------------------

  datatype Move = Move(tid: nat, act: Action)

  ghost predicate Good(q: Queue) {
    RingsInv(q) && UsedOk(q) && exists places :: Owned(q, places)
  }

  lemma StepGood(q: Queue, tid: nat, act: Action)
    requires Good(q)
    ensures Good(Step(q, tid, act))
  {
    var places :| Owned(q, places);
    StepRings(q, tid, act);
    var places' := StepOwned(q, places, tid, act);
    StepUsed(q, places, tid, act);
  }

  ghost function Reach(q: Queue, sch: seq<Move>): (q': Queue)
    requires Good(q)
    ensures Good(q')
  {
    if sch == [] then q
    else
      var prev, move := Reach(q, sch[..|sch| - 1]), sch[|sch| - 1];
      StepGood(prev, move.tid, move.act);
      Step(prev, move.tid, move.act)
  }

  lemma NewGood(half: nat, finalizable: bool, threads: nat)
    requires half > 0
    ensures Good(New(half, finalizable, threads))
  {
    NewOwned(half, finalizable, threads);
    NewUsed(half, finalizable, threads);
  }

  // ---- theorems -----------------------------------------------------------------------------------------

  /** `places` says for every index where it is, and it is there and nowhere else. */
  ghost predicate OnePlaceEach(q: Queue, places: Layout)
    requires RingsOk(q)
  {
    && |places| == q.free.half
    && (forall i, t :: 0 <= i < |places| ==> (places[i] == Free(t) <==> Live(q.free, t) && q.free.placed[t] == i))
    && (forall i, t :: 0 <= i < |places| ==> (places[i] == Allocated(t) <==> Live(q.alloc, t) && q.alloc.placed[t] == i))
    && (forall i, a :: 0 <= i < |places| && 0 <= a < |q.threads| ==> (places[i] == Hand(a) <==> HeldBy(q, a) == Some(i)))
    && (forall i :: 0 <= i < |places| && places[i].Hand? ==> places[i].a < |q.threads|)
  }

  /** The thread is between writing a value into the slot it holds and handing the slot on, or
      between being handed a slot and reading its value. */
  predicate ValueInSlot(pc: Pc) {
    pc.EnqShare? || pc.EnqUncount? || pc.EnqReread? || pc.DeqFetch? || pc.DeqCount? || pc.DeqRead?
  }

  /** Payloads are initialised exactly where they should be. */
  ghost predicate PayloadsRight(q: Queue, places: Layout)
    requires RingsOk(q) && |places| == q.free.half
  {
    forall i :: 0 <= i < |places| ==>
      match places[i]
      case Free(_) => q.backing[i] == None
      case Allocated(t) => t in q.sent && q.backing[i] == Some(q.sent[t])
      case Hand(a) => a < |q.threads| && (q.backing[i].Some? <==> ValueInSlot(q.threads[a]))
  }

  lemma OwnedMeans(q: Queue, places: Layout)
    requires Owned(q, places)
    ensures OnePlaceEach(q, places)
  {
    forall i, t | 0 <= i < |places|
      ensures places[i] == Free(t) <==> Live(q.free, t) && q.free.placed[t] == i
      ensures places[i] == Allocated(t) <==> Live(q.alloc, t) && q.alloc.placed[t] == i
    {
      assert IndexOk(q, places, i);
    }
    forall i, a | 0 <= i < |places| && 0 <= a < |q.threads|
      ensures places[i] == Hand(a) <==> HeldBy(q, a) == Some(i)
    {
      assert IndexOk(q, places, i) && ThreadOk(q, places, a);
    }
    forall i | 0 <= i < |places| && places[i].Hand? ensures places[i].a < |q.threads| {
      assert IndexOk(q, places, i);
    }
  }

  lemma PayloadsMeans(q: Queue, places: Layout)
    requires Owned(q, places)
    ensures PayloadsRight(q, places)
  {
    forall i | 0 <= i < |places| && places[i].Hand?
      ensures places[i].a < |q.threads| && (q.backing[i].Some? <==> ValueInSlot(q.threads[places[i].a]))
    {
      assert IndexOk(q, places, i) && ThreadOk(q, places, places[i].a);
      HandPayload(q, places, places[i].a);
    }
    forall i | 0 <= i < |places| && !places[i].Hand? ensures IndexOk(q, places, i) {
    }
  }

  lemma HandPayload(q: Queue, places: Layout, a: nat)
    requires RingsOk(q) && ValuesOk(q) && a < |q.threads| && ThreadOk(q, places, a) && HeldBy(q, a).Some?
    ensures Payload(q, q.threads[a], q.alloc.threads[a]).Some? <==> ValueInSlot(q.threads[a])
  {
  }

  /** In every run, each index is in exactly one of the free ring, the allocated ring and one
      thread's hands, and its payload is initialised exactly when it should be. */
  lemma EveryIndexHasOnePlace(half: nat, finalizable: bool, threads: nat, sch: seq<Move>)
    requires half > 0
    ensures Good(New(half, finalizable, threads))
    ensures var q := Reach(New(half, finalizable, threads), sch);
      RingsOk(q) && exists places :: OnePlaceEach(q, places) && PayloadsRight(q, places)
  {
    NewGood(half, finalizable, threads);
    var q := Reach(New(half, finalizable, threads), sch);
    var places :| Owned(q, places);
    OwnedMeans(q, places);
    PayloadsMeans(q, places);
  }

  predicate Sound(q: Queue, a: nat)
    requires Shaped(q) && a < |q.threads|
  {
    && !q.threads[a].Broken?
    && (q.threads[a].EnqWrite? ==> q.threads[a].pos < |q.backing| && q.backing[q.threads[a].pos] == None)
    && (q.threads[a].EnqShare? && q.alloc.threads[a].Reply? && !q.alloc.threads[a].res.Enqueued? ==> q.alloc.finalized)
  }

  lemma OwnedSound(q: Queue, places: Layout, a: nat)
    requires Owned(q, places) && Inv(q.alloc) && a < |q.threads|
    ensures Sound(q, a)
  {
    assert ThreadOk(q, places, a);
    if q.threads[a].EnqWrite? {
      WriteOwned(q, places, a, false);
    }
    if q.threads[a].EnqShare? && q.alloc.threads[a].Reply? {
      ReplyRight(q.alloc, a);
    }
  }

  /** In every run, no thread reads an uninitialised payload, reaches outside the backing array or is
      refused by the free ring; a payload is written only where there is none; and the allocated
      ring refuses an index only because it is finalized. */
  lemma NothingBreaks(half: nat, finalizable: bool, threads: nat, sch: seq<Move>, a: nat)
    requires half > 0 && a < threads
    ensures Good(New(half, finalizable, threads))
    ensures var q := Reach(New(half, finalizable, threads), sch); Shaped(q) && |q.threads| == threads && Sound(q, a)
  {
    NewGood(half, finalizable, threads);
    ReachShape(New(half, finalizable, threads), sch);
    GoodSound(Reach(New(half, finalizable, threads), sch), a);
  }

  lemma GoodSound(q: Queue, a: nat)
    requires Good(q) && a < |q.threads|
    ensures Shaped(q) && Sound(q, a)
  {
    var places :| Owned(q, places);
    OwnedSound(q, places, a);
  }

  predicate SameShape(q: Queue, q': Queue) { |q'.threads| == |q.threads| && |q'.backing| == |q.backing| }

  lemma StepShape(q: Queue, tid: nat, act: Action)
    requires Shaped(q)
    ensures SameShape(q, Step(q, tid, act))
  {
    if tid < |q.threads| && act.Run? {
      assert SameShape(q, StepEnqueue(q, tid, act.spurious));
      assert SameShape(q, StepRollBack(q, tid, act.spurious));
      assert SameShape(q, StepDequeue(q, tid, act.spurious));
    }
  }

  lemma {:induction false} ReachShape(q: Queue, sch: seq<Move>)
    requires Good(q)
    ensures SameShape(q, Reach(q, sch))
  {
    if sch != [] {
      ReachShape(q, sch[..|sch| - 1]);
      StepShape(Reach(q, sch[..|sch| - 1]), sch[|sch| - 1].tid, sch[|sch| - 1].act);
    }
  }

  /** In every run `used` is the number of items in the allocated ring plus the enqueuers between
      increment and publication or roll-back plus the dequeuers that have an index but have not
      decremented; so it never underflows. */
  lemma UsedCounts(half: nat, finalizable: bool, threads: nat, sch: seq<Move>)
    requires half > 0
    ensures Good(New(half, finalizable, threads))
    ensures var q := Reach(New(half, finalizable, threads), sch);
      |q.threads| == |q.alloc.threads| && q.used == LiveCount(q.alloc) + Pending(q.threads, q.alloc.threads) >= 0
  {
    NewGood(half, finalizable, threads);
  }

  /** In every run, the value published at a ticket is still in the allocated ring, or is about to be
      read by a thread that was served this ticket, or was read back unchanged. */
  lemma ValuesDelivered(half: nat, finalizable: bool, threads: nat, sch: seq<Move>, t: nat)
    requires half > 0
    ensures Good(New(half, finalizable, threads))
    ensures var q := Reach(New(half, finalizable, threads), sch);
      && RingsOk(q) && (t in q.sent <==> t in q.alloc.placed)
      && (t in q.sent ==>
            if t in q.fetched then q.fetched[t] == q.sent[t] && t in q.alloc.taken
            else if t in q.alloc.taken then Reading(q, t)
            else q.alloc.placed[t] < half && q.backing[q.alloc.placed[t]] == Some(q.sent[t]))
  {
    NewGood(half, finalizable, threads);
    var q := Reach(New(half, finalizable, threads), sch);
    ReachHalf(New(half, finalizable, threads), sch);
    var places :| Owned(q, places);
    if Live(q.alloc, t) {
      assert IndexOk(q, places, q.alloc.placed[t]);
    }
  }

  lemma {:induction false} ReachHalf(q: Queue, sch: seq<Move>)
    requires Good(q)
    ensures Reach(q, sch).free.half == q.free.half
  {
    if sch != [] {
      var prev, move := Reach(q, sch[..|sch| - 1]), sch[|sch| - 1];
      ReachHalf(q, sch[..|sch| - 1]);
      StepBacking(prev, move.tid, move.act);
      StepGood(prev, move.tid, move.act);
    }
  }

  lemma StepBacking(q: Queue, tid: nat, act: Action)
    requires Good(q)
    ensures RingsOk(q) && Good(Step(q, tid, act)) && RingsOk(Step(q, tid, act))
    ensures |Step(q, tid, act).backing| == |q.backing|
  {
    StepGood(q, tid, act);
    StepShape(q, tid, act);
  }

  /** Values are delivered in ticket order: once a later value was read, an earlier one was read too,
      or is about to be read, or its dequeuer is at work on it. */
  lemma DeliveredInOrder(half: nat, finalizable: bool, threads: nat, sch: seq<Move>, t: nat, u: nat)
    requires half > 0 && t < u
    ensures Good(New(half, finalizable, threads))
    ensures var q := Reach(New(half, finalizable, threads), sch);
      RingsOk(q) && (t in q.sent && u in q.fetched ==> t in q.fetched || Reading(q, t) || AtWork(q.alloc, t))
  {
    NewGood(half, finalizable, threads);
    GoodOrder(Reach(New(half, finalizable, threads), sch), t, u);
  }

  lemma GoodOrder(q: Queue, t: nat, u: nat)
    requires Good(q) && t < u
    ensures RingsOk(q) && (t in q.sent && u in q.fetched ==> t in q.fetched || Reading(q, t) || AtWork(q.alloc, t))
  {
    var places :| Owned(q, places);
    if t in q.sent && u in q.fetched && t !in q.alloc.taken {
      assert LiveOk(q.alloc, t);
      assert !Settled(q.alloc, t);
    }
  }

  /** What a finished call reports is true: a stored value is published at its ticket, a refused value
      is the argument itself, and a fetched value is the one published at the ticket it was fetched
      from. */
  lemma ReportsTrue(half: nat, finalizable: bool, threads: nat, sch: seq<Move>, a: nat)
    requires half > 0 && a < threads
    ensures Good(New(half, finalizable, threads))
    ensures var q := Reach(New(half, finalizable, threads), sch);
      |q.threads| == threads && (q.threads[a].Done? ==> Truthful(q, q.threads[a].call, q.threads[a].out))
  {
    NewGood(half, finalizable, threads);
    ReachShape(New(half, finalizable, threads), sch);
    var q := Reach(New(half, finalizable, threads), sch);
    if q.threads[a].Done? {
      GoodTruthful(q, a);
    }
  }

  predicate Truthful(q: Queue, call: Call, out: Outcome) {
    match out
    case Stored(t) => call.Enqueue? && t in q.sent && q.sent[t] == call.v
    case Refused(v, finalized) => call.Enqueue? && v == call.v && (finalized ==> q.alloc.finalized)
    case Fetched(v, t) => call.Dequeue? && t in q.sent && q.sent[t] == v
    case Empty => call.Dequeue?
  }

  lemma GoodTruthful(q: Queue, a: nat)
    requires Good(q) && a < |q.threads| && q.threads[a].Done?
    ensures Truthful(q, q.threads[a].call, q.threads[a].out)
  {
    var places :| Owned(q, places);
    assert ThreadOk(q, places, a);
  }

  // ---- no value is delivered twice ----------------------------------------------------------------------

  lemma StepFetched(q: Queue, tid: nat, act: Action)
    requires Shaped(q)
    ensures q.fetched.Keys <= Step(q, tid, act).fetched.Keys
  {
  }

  lemma {:induction false} FetchedGrows(q: Queue, sch: seq<Move>, k: nat)
    requires Good(q) && k <= |sch|
    ensures Reach(q, sch[..k]).fetched.Keys <= Reach(q, sch).fetched.Keys
    decreases |sch|
  {
    if k < |sch| {
      var prefix, move := sch[..|sch| - 1], sch[|sch| - 1];
      assert prefix[..k] == sch[..k];
      FetchedGrows(q, prefix, k);
      StepFetched(Reach(q, prefix), move.tid, move.act);
    } else {
      assert sch[..k] == sch;
    }
  }

  /** The k-th step of the run reads the value of ticket t. */
  ghost predicate Reads(q: Queue, sch: seq<Move>, k: nat, t: nat)
    requires Good(q) && k < |sch|
  {
    var s := Reach(q, sch[..k]);
    sch[k].tid < |s.threads| && s.threads[sch[k].tid].DeqRead? && s.threads[sch[k].tid].t == t && sch[k].act.Run?
  }

  lemma ReachStep(q: Queue, sch: seq<Move>, k: nat)
    requires Good(q) && k < |sch|
    ensures Shaped(Reach(q, sch[..k]))
    ensures Reach(q, sch[..k + 1]) == Step(Reach(q, sch[..k]), sch[k].tid, sch[k].act)
  {
    assert sch[..k + 1][..k] == sch[..k];
  }

  lemma ReadIsNew(q: Queue, sch: seq<Move>, k: nat, t: nat)
    requires Good(q) && k < |sch| && Reads(q, sch, k, t)
    ensures t !in Reach(q, sch[..k]).fetched && t in Reach(q, sch[..k + 1]).fetched
  {
    ReachStep(q, sch, k);
    ReadStep(Reach(q, sch[..k]), sch[k].tid, sch[k].act);
  }

  lemma ReadStep(q: Queue, tid: nat, act: Action)
    requires Good(q) && tid < |q.threads| && q.threads[tid].DeqRead? && act.Run?
    ensures q.threads[tid].t !in q.fetched && q.threads[tid].t in Step(q, tid, act).fetched
  {
    var places :| Owned(q, places);
    Readable(q, places, tid);
    ReadNotes(q, tid, act);
  }

  lemma Readable(q: Queue, places: Layout, tid: nat)
    requires Owned(q, places) && tid < |q.threads| && q.threads[tid].DeqRead?
    ensures var DeqRead(pos, t) := q.threads[tid]; pos < |q.backing| && q.backing[pos].Some? && t !in q.fetched
  {
    assert ThreadOk(q, places, tid);
    assert IndexOk(q, places, q.threads[tid].pos);
  }

  lemma ReadNotes(q: Queue, tid: nat, act: Action)
    requires Shaped(q) && tid < |q.threads| && q.threads[tid].DeqRead? && act.Run?
    requires q.threads[tid].pos < |q.backing| && q.backing[q.threads[tid].pos].Some?
    ensures q.threads[tid].t in Step(q, tid, act).fetched
  {
  }

  /** No two reads in a run get the value of the same ticket. */
  lemma FetchedOnce(q: Queue, sch: seq<Move>, j: nat, k: nat, t: nat, u: nat)
    requires Good(q) && j < k < |sch| && Reads(q, sch, j, t) && Reads(q, sch, k, u)
    ensures t != u
  {
    ReadIsNew(q, sch, k, u);
    ReadStays(q, sch, j, k, t);
  }

  lemma ReadStays(q: Queue, sch: seq<Move>, j: nat, k: nat, t: nat)
    requires Good(q) && j < k <= |sch| && Reads(q, sch, j, t)
    ensures t in Reach(q, sch[..k]).fetched
  {
    ReadIsNew(q, sch, j, t);
    FetchedBetween(q, sch, j + 1, k);
  }

  lemma FetchedBetween(q: Queue, sch: seq<Move>, j: nat, k: nat)
    requires Good(q) && j <= k <= |sch|
    ensures Reach(q, sch[..j]).fetched.Keys <= Reach(q, sch[..k]).fetched.Keys
  {
    assert sch[..k][..j] == sch[..j];
    FetchedGrows(q, sch[..k], j);
  }
}

/** One call at a time on the machine of the bounded queue: a thread that runs alone on a queue at rest
    gets exactly the answers of a FIFO of capacity 2^order. */
module TwoRingLone {
  import opened Options
  import R = ScqRing
  import L = ScqLone
  import B = BoundedQueue
  import I = IndexRing
  import opened TwoRings

  // ---- a queue at rest ----------------------------------------------------------------------------------

  /** The free and the allocated indices, in order, and what lies in their slots. */
  predicate AtRest(q: Queue, free: seq<nat>, alloc: seq<nat>) {
    && Shaped(q) && q.alloc.half == q.free.half && !q.free.finalized && q.used == |alloc|
    && L.Sits(q.free, free) && L.Sits(q.alloc, alloc) && B.Kept(q.free.half, free, alloc, q.backing)
  }

  /** The values in the queue, oldest first. */
  function Contents(q: Queue, free: seq<nat>, alloc: seq<nat>): (s: seq<Value>)
    requires AtRest(q, free, alloc)
    ensures |s| == |alloc|
  {
    B.Values(q.backing, alloc)
  }

  /** The thread is in no call, of the queue or of one of its rings. */
  predicate Idles(q: Queue, tid: nat) {
    && tid < |q.threads| == |q.free.threads| && |q.alloc.threads| == |q.threads|
    && q.threads[tid].Idle? && q.free.threads[tid].Rest? && q.alloc.threads[tid].Rest?
  }

  lemma NewAtRest(half: nat, finalizable: bool, threads: nat)
    requires half > 0
    ensures AtRest(New(half, finalizable, threads), I.UpTo(half), [])
  {
    L.NewRingsSit(half, finalizable, threads);
    B.KeptNew(half, New(half, finalizable, threads).backing);
  }

  // ---- runs of one thread -----------------------------------------------------------------------------------

  ghost predicate Moves(q: Queue, tid: nat, q': Queue) {
    && Shaped(q) && tid < |q.threads| && !q.threads[tid].Idle? && !q.threads[tid].Done?
    && q' == Step(q, tid, Run(false))
  }

  ghost predicate Path(tid: nat, p: seq<Queue>) {
    p != [] && forall i, j :: 0 <= i && j == i + 1 < |p| ==> Moves(p[i], tid, p[j])
  }

  /** Steps of thread tid, all inside its call, lead from q to q'. */
  ghost predicate Works(q: Queue, tid: nat, q': Queue) {
    exists p :: Path(tid, p) && p[0] == q && p[|p| - 1] == q'
  }

  lemma WorksOn(q: Queue, tid: nat, q1: Queue, q2: Queue)
    requires Works(q, tid, q1) && Works(q1, tid, q2)
    ensures Works(q, tid, q2)
  {
    var a :| Path(tid, a) && a[0] == q && a[|a| - 1] == q1;
    var b :| Path(tid, b) && b[0] == q1 && b[|b| - 1] == q2;
    var ab := a + b[1..];
    forall i, j | 0 <= i && j == i + 1 < |ab| ensures Moves(ab[i], tid, ab[j]) {
      if j < |a| {
        assert Moves(a[i], tid, a[j]);
      } else {
        assert Moves(b[i - |a| + 1], tid, b[j - |a| + 1]);
      }
    }
    assert Path(tid, ab);
  }

  lemma WorksNot(q: Queue, tid: nat)
    ensures Works(q, tid, q)
  {
    assert Path(tid, [q]);
  }

  lemma OneStep(q: Queue, tid: nat, q': Queue)
    requires Moves(q, tid, q')
    ensures Works(q, tid, q')
  {
    assert Path(tid, [q, q']);
  }

  // ---- calls inside the rings ---------------------------------------------------------------------------------

  predicate InFree(pc: Pc) { pc.EnqPick? || pc.EnqReturn? || pc.DeqReturn? }

  lemma FreeMoves(q: Queue, tid: nat, next: Ring)
    requires Shaped(q) && tid < |q.threads| && InFree(q.threads[tid]) && L.Moves(q.free, tid, next)
    ensures Moves(q, tid, q.(free := next))
  {
  }

  lemma FetchMoves(q: Queue, tid: nat, next: Ring)
    requires Shaped(q) && tid < |q.threads| && q.threads[tid].DeqFetch? && L.Moves(q.alloc, tid, next)
    ensures Moves(q, tid, q.(alloc := next))
  {
  }

  lemma ShareMoves(q: Queue, tid: nat, next: Ring) returns (q': Queue)
    requires Shaped(q) && tid < |q.threads| && q.threads[tid].EnqShare? && L.Moves(q.alloc, tid, next)
    ensures Moves(q, tid, q') && q' == q.(alloc := next, sent := q'.sent)
  {
    q' := Step(q, tid, Run(false));
  }

  lemma {:induction false} FreePath(q: Queue, tid: nat, p: seq<Ring>)
    requires Shaped(q) && tid < |q.threads| && InFree(q.threads[tid]) && L.Path(tid, p) && p[0] == q.free
    ensures Works(q, tid, q.(free := p[|p| - 1]))
    decreases |p|
  {
    if |p| == 1 {
      WorksNot(q, tid);
    } else {
      assert L.Moves(p[0], tid, p[1]);
      FreeMoves(q, tid, p[1]);
      OneStep(q, tid, q.(free := p[1]));
      L.StepKeepsThreads(p[0], tid);
      TailPath(tid, p);
      FreePath(q.(free := p[1]), tid, p[1..]);
      WorksOn(q, tid, q.(free := p[1]), q.(free := p[|p| - 1]));
    }
  }

  lemma TailPath(tid: nat, p: seq<Ring>)
    requires L.Path(tid, p) && |p| > 1
    ensures L.Path(tid, p[1..])
  {
    var rest := p[1..];
    forall i, j | 0 <= i && j == i + 1 < |rest| ensures L.Moves(rest[i], tid, rest[j]) {
      assert L.Moves(p[i + 1], tid, p[j + 1]);
    }
  }

  lemma {:induction false} FetchPath(q: Queue, tid: nat, p: seq<Ring>)
    requires Shaped(q) && tid < |q.threads| && q.threads[tid].DeqFetch? && L.Path(tid, p) && p[0] == q.alloc
    ensures Works(q, tid, q.(alloc := p[|p| - 1]))
    decreases |p|
  {
    if |p| == 1 {
      WorksNot(q, tid);
    } else {
      assert L.Moves(p[0], tid, p[1]);
      FetchMoves(q, tid, p[1]);
      OneStep(q, tid, q.(alloc := p[1]));
      L.StepKeepsThreads(p[0], tid);
      TailPath(tid, p);
      FetchPath(q.(alloc := p[1]), tid, p[1..]);
      WorksOn(q, tid, q.(alloc := p[1]), q.(alloc := p[|p| - 1]));
    }
  }

  lemma {:induction false} SharePath(q: Queue, tid: nat, p: seq<Ring>) returns (q': Queue)
    requires Shaped(q) && tid < |q.threads| && q.threads[tid].EnqShare? && L.Path(tid, p) && p[0] == q.alloc
    ensures Works(q, tid, q') && q' == q.(alloc := p[|p| - 1], sent := q'.sent)
    decreases |p|
  {
    if |p| == 1 {
      WorksNot(q, tid);
      q' := q;
    } else {
      assert L.Moves(p[0], tid, p[1]);
      var q1 := ShareMoves(q, tid, p[1]);
      OneStep(q, tid, q1);
      L.StepKeepsThreads(p[0], tid);
      TailPath(tid, p);
      q' := SharePath(q1, tid, p[1..]);
      WorksOn(q, tid, q1, q');
    }
  }

  // ---- the calls that the queue makes -----------------------------------------------------------------------

  lemma Twice(q: Queue, tid: nat, pc: Pc, pc': Pc)
    requires tid < |q.threads|
    ensures Goto(Goto(q, tid, pc), tid, pc') == Goto(q, tid, pc')
  {
    assert q.threads[tid := pc][tid := pc'] == q.threads[tid := pc'];
  }

  /** Leaving the free ring with a reply. */
  lemma FreeExit(q: Queue, tid: nat, pc: Pc, free: Ring, reply: R.Pc, pc': Pc)
    requires Shaped(q.(free := free)) && tid < |q.threads| && reply.Reply? && R.Step(R.WithPc(free, tid, reply), tid, R.Run(false)) == free
    requires match pc
      case EnqPick(c, size) => pc' == if reply.res.Got? then EnqWrite(c, size, reply.res.index) else EnqFull(c)
      case EnqReturn(c, v, pos) => reply.res.Enqueued? && pc' == Done(c, Refused(v, true))
      case DeqReturn(v, pos, t) => reply.res.Enqueued? && pc' == Done(Dequeue, Fetched(v, t))
      case _ => false
    ensures Works(Goto(q.(free := R.WithPc(free, tid, reply)), tid, pc), tid, Goto(q.(free := free), tid, pc'))
  {
    Twice(q.(free := free), tid, pc, pc');
    OneStep(Goto(q.(free := R.WithPc(free, tid, reply)), tid, pc), tid, Goto(q.(free := free), tid, pc'));
  }

  lemma FreeCall(q: Queue, tid: nat, pc: Pc, start: Ring, end: Ring)
    requires Shaped(q.(free := start)) && tid < |q.threads| && InFree(pc) && L.Works(start, tid, end)
    ensures Works(Goto(q.(free := start), tid, pc), tid, Goto(q.(free := end), tid, pc))
  {
    var p :| L.Path(tid, p) && p[0] == start && p[|p| - 1] == end;
    FreePath(Goto(q.(free := start), tid, pc), tid, p);
  }

  /** A lone dequeue from the free ring. */
  lemma Pick(q: Queue, f: seq<nat>, tid: nat, c: Call, size: int) returns (free: Ring)
    requires Shaped(q) && tid < |q.threads| && L.Sits(q.free, f) && f != [] && q.free.threads[tid].Rest?
    ensures L.AfterDequeue(q.free, f, R.Got(f[0], q.free.head), free)
    ensures Works(Goto(FreeStep(q, tid, R.Start(R.Dequeue)), tid, EnqPick(c, size)), tid,
                  Goto(q.(free := free), tid, EnqWrite(c, size, f[0])))
  {
    var res;
    free, res := L.LoneDequeue(q.free, f, tid);
    var start, reply := R.Step(q.free, tid, R.Start(R.Dequeue)), R.Reply(R.Dequeue, res);
    FreeCall(q, tid, EnqPick(c, size), start, R.WithPc(free, tid, reply));
    FreeExit(q, tid, EnqPick(c, size), free, reply, EnqWrite(c, size, f[0]));
    WorksOn(Goto(q.(free := start), tid, EnqPick(c, size)), tid, Goto(q.(free := R.WithPc(free, tid, reply)), tid, EnqPick(c, size)),
            Goto(q.(free := free), tid, EnqWrite(c, size, f[0])));
  }

  /** A lone enqueue into the free ring ends the call. */
  lemma PutBack(q: Queue, f: seq<nat>, tid: nat, pos: nat, pc: Pc, pc': Pc) returns (free: Ring)
    requires Shaped(q) && tid < |q.threads| && L.Sits(q.free, f) && |f| < 2 * q.free.half && q.free.threads[tid].Rest?
    requires pos < q.free.half && !q.free.finalized
    requires (pc.EnqReturn? && pc' == Done(pc.call, Refused(pc.v, true))) || (pc.DeqReturn? && pc' == Done(Dequeue, Fetched(pc.v, pc.t)))
    ensures L.AfterEnqueue(q.free, f, pos, R.Enqueued(q.free.tail), free)
    ensures Works(Goto(FreeStep(q, tid, R.Start(R.Enqueue(pos))), tid, pc), tid, Goto(q.(free := free), tid, pc'))
  {
    var res;
    free, res := L.LoneEnqueue(q.free, f, tid, pos);
    var start, reply := R.Step(q.free, tid, R.Start(R.Enqueue(pos))), R.Reply(R.Enqueue(pos), res);
    FreeCall(q, tid, pc, start, R.WithPc(free, tid, reply));
    FreeExit(q, tid, pc, free, reply, pc');
    WorksOn(Goto(q.(free := start), tid, pc), tid, Goto(q.(free := R.WithPc(free, tid, reply)), tid, pc), Goto(q.(free := free), tid, pc'));
  }

  /** Where an enqueuer goes with the allocated ring's answer. */
  function AfterShare(half: nat, c: Call, size: int, pos: nat, res: R.Res): Pc {
    if !res.Enqueued? then EnqUncount(c, pos)
    else if c.Enqueue? && c.finalize && size + 1 >= half then EnqSeal(c, res.ticket)
    else Done(c, Stored(res.ticket))
  }

  lemma ShareExit(q: Queue, tid: nat, c: Call, size: int, pos: nat, alloc: Ring, reply: R.Pc)
    requires Shaped(q.(alloc := alloc)) && tid < |q.threads| && reply.Reply?
    requires R.Step(R.WithPc(alloc, tid, reply), tid, R.Run(false)) == alloc
    ensures Works(Goto(q.(alloc := R.WithPc(alloc, tid, reply)), tid, EnqShare(c, size, pos)), tid,
                  Goto(q.(alloc := alloc), tid, AfterShare(q.free.half, c, size, pos, reply.res)))
  {
    var pc' := AfterShare(q.free.half, c, size, pos, reply.res);
    Twice(q.(alloc := alloc), tid, EnqShare(c, size, pos), pc');
    OneStep(Goto(q.(alloc := R.WithPc(alloc, tid, reply)), tid, EnqShare(c, size, pos)), tid, Goto(q.(alloc := alloc), tid, pc'));
  }

  /** A lone enqueue into the allocated ring. */
  lemma Share(q: Queue, a: seq<nat>, tid: nat, c: Call, size: int, pos: nat) returns (q': Queue, res: R.Res)
    requires Shaped(q) && tid < |q.threads| && L.Sits(q.alloc, a) && |a| < 2 * q.alloc.half && q.alloc.threads[tid].Rest?
    ensures q' == q.(alloc := q'.alloc, sent := q'.sent) && L.AfterEnqueue(q.alloc, a, pos, res, q'.alloc)
    ensures Works(Goto(AllocStep(q, tid, R.Start(R.Enqueue(pos))), tid, EnqShare(c, size, pos)), tid,
                  Goto(q', tid, AfterShare(q.free.half, c, size, pos, res)))
  {
    var alloc;
    alloc, res := L.LoneEnqueue(q.alloc, a, tid, pos);
    var start, reply := R.Step(q.alloc, tid, R.Start(R.Enqueue(pos))), R.Reply(R.Enqueue(pos), res);
    var p :| L.Path(tid, p) && p[0] == start && p[|p| - 1] == R.WithPc(alloc, tid, reply);
    var q1 := SharePath(Goto(q.(alloc := start), tid, EnqShare(c, size, pos)), tid, p);
    q' := q.(alloc := alloc, sent := q1.sent);
    assert q1 == Goto(q'.(alloc := R.WithPc(alloc, tid, reply)), tid, EnqShare(c, size, pos));
    ShareExit(q', tid, c, size, pos, alloc, reply);
    WorksOn(Goto(q.(alloc := start), tid, EnqShare(c, size, pos)), tid, q1, Goto(q', tid, AfterShare(q.free.half, c, size, pos, res)));
  }

  function AfterFetch(res: R.Res): Pc { if res.Got? then DeqCount(res.index, res.ticket) else Done(Dequeue, Empty) }

  lemma FetchExit(q: Queue, tid: nat, alloc: Ring, reply: R.Pc)
    requires Shaped(q.(alloc := alloc)) && tid < |q.threads| && reply.Reply?
    requires R.Step(R.WithPc(alloc, tid, reply), tid, R.Run(false)) == alloc
    ensures Works(Goto(q.(alloc := R.WithPc(alloc, tid, reply)), tid, DeqFetch), tid, Goto(q.(alloc := alloc), tid, AfterFetch(reply.res)))
  {
    Twice(q.(alloc := alloc), tid, DeqFetch, AfterFetch(reply.res));
    OneStep(Goto(q.(alloc := R.WithPc(alloc, tid, reply)), tid, DeqFetch), tid, Goto(q.(alloc := alloc), tid, AfterFetch(reply.res)));
  }

  /** A lone dequeue from the allocated ring. */
  lemma Fetch(q: Queue, a: seq<nat>, tid: nat) returns (alloc: Ring, res: R.Res)
    requires Shaped(q) && tid < |q.threads| && L.Sits(q.alloc, a) && q.alloc.threads[tid].Rest?
    ensures L.AfterDequeue(q.alloc, a, res, alloc)
    ensures Works(Goto(AllocStep(q, tid, R.Start(R.Dequeue)), tid, DeqFetch), tid, Goto(q.(alloc := alloc), tid, AfterFetch(res)))
  {
    alloc, res := L.LoneDequeue(q.alloc, a, tid);
    var start, reply := R.Step(q.alloc, tid, R.Start(R.Dequeue)), R.Reply(R.Dequeue, res);
    var p :| L.Path(tid, p) && p[0] == start && p[|p| - 1] == R.WithPc(alloc, tid, reply);
    FetchPath(Goto(q.(alloc := start), tid, DeqFetch), tid, p);
    FetchExit(q, tid, alloc, reply);
    WorksOn(Goto(q.(alloc := start), tid, DeqFetch), tid, Goto(q.(alloc := R.WithPc(alloc, tid, reply)), tid, DeqFetch),
            Goto(q.(alloc := alloc), tid, AfterFetch(res)));
  }

  // ---- enqueue ------------------------------------------------------------------------------------------------

  /** What a lone enqueue leaves, apart from the thread's own result. */
  predicate AfterEnqueue(q: Queue, f: seq<nat>, a: seq<nat>, c: Call, out: Outcome, q': Queue, f': seq<nat>, a': seq<nat>)
    requires AtRest(q, f, a) && c.Enqueue?
  {
    && AtRest(q', f', a') && q'.threads == q.threads && q'.free.threads == q.free.threads && q'.alloc.threads == q.alloc.threads
    && q'.free.half == q.free.half && q'.alloc.finalizable == q.alloc.finalizable
    && out == (if |a| == q.free.half then Refused(c.v, false)
               else if q.alloc.finalized then Refused(c.v, true) else Stored(q.alloc.tail))
    && Contents(q', f', a') == Contents(q, f, a) + (if out.Stored? then [c.v] else [])
    && q'.alloc.finalized == (q.alloc.finalized || (out.Stored? && c.finalize && q.alloc.finalizable && |a'| == q.free.half))
  }

  lemma EnqueueFull(q: Queue, f: seq<nat>, a: seq<nat>, tid: nat, c: Call)
    requires AtRest(q, f, a) && Idles(q, tid) && c.Enqueue? && |a| == q.free.half
    ensures AfterEnqueue(q, f, a, c, Refused(c.v, false), q, f, a)
    ensures Works(Goto(q, tid, EnqCount(c)), tid, Goto(q, tid, Done(c, Refused(c.v, false))))
  {
    var q1 := q.(used := q.used + 1);
    Twice(q1, tid, EnqCount(c), EnqFull(c));
    OneStep(Goto(q, tid, EnqCount(c)), tid, Goto(q1, tid, EnqFull(c)));
    Twice(q, tid, EnqFull(c), Done(c, Refused(c.v, false)));
    OneStep(Goto(q1, tid, EnqFull(c)), tid, Goto(q, tid, Done(c, Refused(c.v, false))));
    WorksOn(Goto(q, tid, EnqCount(c)), tid, Goto(q1, tid, EnqFull(c)), Goto(q, tid, Done(c, Refused(c.v, false))));
  }

  /** Counting, picking a free index and writing the item. */
  lemma EnqueueWrites(q: Queue, f: seq<nat>, a: seq<nat>, tid: nat, c: Call) returns (q': Queue)
    requires AtRest(q, f, a) && Idles(q, tid) && c.Enqueue? && |a| < q.free.half
    ensures f != [] && f[0] < q.free.half
    ensures q' == q.(used := q.used + 1, free := q'.free, backing := q.backing[f[0] := Some(c.v)])
    ensures L.AfterDequeue(q.free, f, R.Got(f[0], q.free.head), q'.free) && Shaped(q')
    ensures Works(Goto(q, tid, EnqCount(c)), tid,
                  Goto(AllocStep(q', tid, R.Start(R.Enqueue(f[0]))), tid, EnqShare(c, q.used, f[0])))
  {
    var q1, size := q.(used := q.used + 1), q.used;
    B.KeptPut(q.free.half, f, a, q.backing, c.v);
    Twice(FreeStep(q1, tid, R.Start(R.Dequeue)), tid, EnqCount(c), EnqPick(c, size));
    OneStep(Goto(q, tid, EnqCount(c)), tid, Goto(FreeStep(q1, tid, R.Start(R.Dequeue)), tid, EnqPick(c, size)));
    var free := Pick(q1, f, tid, c, size);
    var q2 := q1.(free := free);
    WorksOn(Goto(q, tid, EnqCount(c)), tid, Goto(FreeStep(q1, tid, R.Start(R.Dequeue)), tid, EnqPick(c, size)),
            Goto(q2, tid, EnqWrite(c, size, f[0])));
    q' := q2.(backing := q.backing[f[0] := Some(c.v)]);
    WriteStep(q2, tid, c, size, f[0]);
    WorksOn(Goto(q, tid, EnqCount(c)), tid, Goto(q2, tid, EnqWrite(c, size, f[0])),
            Goto(AllocStep(q', tid, R.Start(R.Enqueue(f[0]))), tid, EnqShare(c, size, f[0])));
  }

  lemma WriteStep(q: Queue, tid: nat, c: Call, size: int, pos: nat)
    requires Shaped(q) && tid < |q.threads| && c.Enqueue? && pos < |q.backing|
    ensures Works(Goto(q, tid, EnqWrite(c, size, pos)), tid,
                  Goto(AllocStep(q.(backing := q.backing[pos := Some(c.v)]), tid, R.Start(R.Enqueue(pos))), tid, EnqShare(c, size, pos)))
  {
    var q1 := AllocStep(q.(backing := q.backing[pos := Some(c.v)]), tid, R.Start(R.Enqueue(pos)));
    Twice(q1, tid, EnqWrite(c, size, pos), EnqShare(c, size, pos));
    OneStep(Goto(q, tid, EnqWrite(c, size, pos)), tid, Goto(q1, tid, EnqShare(c, size, pos)));
  }

  lemma SealStep(q: Queue, tid: nat, c: Call, t: nat)
    requires Shaped(q) && tid < |q.threads|
    ensures Works(Goto(q, tid, EnqSeal(c, t)), tid, Goto(AllocStep(q, tid, R.Seal), tid, Done(c, Stored(t))))
  {
    Twice(AllocStep(q, tid, R.Seal), tid, EnqSeal(c, t), Done(c, Stored(t)));
    OneStep(Goto(q, tid, EnqSeal(c, t)), tid, Goto(AllocStep(q, tid, R.Seal), tid, Done(c, Stored(t))));
  }

  /** A finalized refusal takes the item out again and gives the index back. */
  lemma RollBack(q: Queue, f: seq<nat>, tid: nat, c: Call, pos: nat) returns (q': Queue)
    requires Shaped(q) && tid < |q.threads| && c.Enqueue? && L.Sits(q.free, f) && |f| < 2 * q.free.half && !q.free.finalized
    requires q.free.threads[tid].Rest? && pos < q.free.half && pos < |q.backing| && q.backing[pos] == Some(c.v)
    ensures q' == q.(used := q.used - 1, backing := q.backing[pos := None], free := q'.free)
    ensures L.AfterEnqueue(q.free, f, pos, R.Enqueued(q.free.tail), q'.free)
    ensures Works(Goto(q, tid, EnqUncount(c, pos)), tid, Goto(q', tid, Done(c, Refused(c.v, true))))
  {
    var q1 := q.(used := q.used - 1);
    Twice(q1, tid, EnqUncount(c, pos), EnqReread(c, pos));
    OneStep(Goto(q, tid, EnqUncount(c, pos)), tid, Goto(q1, tid, EnqReread(c, pos)));
    var q2 := q1.(backing := q.backing[pos := None]);
    var back := EnqReturn(c, c.v, pos);
    RereadStep(q1, tid, c, pos);
    WorksOn(Goto(q, tid, EnqUncount(c, pos)), tid, Goto(q1, tid, EnqReread(c, pos)),
            Goto(FreeStep(q2, tid, R.Start(R.Enqueue(pos))), tid, back));
    var free := PutBack(q2, f, tid, pos, back, Done(c, Refused(c.v, true)));
    q' := q2.(free := free);
    WorksOn(Goto(q, tid, EnqUncount(c, pos)), tid, Goto(FreeStep(q2, tid, R.Start(R.Enqueue(pos))), tid, back),
            Goto(q', tid, Done(c, Refused(c.v, true))));
  }

  lemma RereadStep(q: Queue, tid: nat, c: Call, pos: nat)
    requires Shaped(q) && tid < |q.threads| && c.Enqueue? && pos < |q.backing| && q.backing[pos] == Some(c.v)
    ensures Works(Goto(q, tid, EnqReread(c, pos)), tid,
                  Goto(FreeStep(q.(backing := q.backing[pos := None]), tid, R.Start(R.Enqueue(pos))), tid, EnqReturn(c, c.v, pos)))
  {
    var q1 := FreeStep(q.(backing := q.backing[pos := None]), tid, R.Start(R.Enqueue(pos)));
    Twice(q1, tid, EnqReread(c, pos), EnqReturn(c, c.v, pos));
    OneStep(Goto(q, tid, EnqReread(c, pos)), tid, Goto(q1, tid, EnqReturn(c, c.v, pos)));
  }

  /** The item is published, and the queue finalized if it is asked to and now full. */
  lemma EnqueueStores(q: Queue, f: seq<nat>, a: seq<nat>, tid: nat, c: Call, q1: Queue, q2: Queue) returns (q': Queue)
    requires AtRest(q, f, a) && Idles(q, tid) && c.Enqueue? && |a| < q.free.half && !q.alloc.finalized && f != [] && f[0] < q.free.half
    requires q1 == q.(used := q.used + 1, free := q1.free, backing := q.backing[f[0] := Some(c.v)]) && Shaped(q1)
    requires L.AfterDequeue(q.free, f, R.Got(f[0], q.free.head), q1.free)
    requires q2 == q1.(alloc := q2.alloc, sent := q2.sent) && L.AfterEnqueue(q.alloc, a, f[0], R.Enqueued(q.alloc.tail), q2.alloc)
    ensures AfterEnqueue(q, f, a, c, Stored(q.alloc.tail), q', f[1..], a + [f[0]])
    ensures Works(Goto(q2, tid, AfterShare(q.free.half, c, q.used, f[0], R.Enqueued(q.alloc.tail))), tid,
                  Goto(q', tid, Done(c, Stored(q.alloc.tail))))
  {
    B.KeptPut(q.free.half, f, a, q.backing, c.v);
    if c.finalize && q.used + 1 >= q.free.half {
      q' := AllocStep(q2, tid, R.Seal);
      SealStep(q2, tid, c, q.alloc.tail);
    } else {
      q' := q2;
      WorksNot(Goto(q2, tid, Done(c, Stored(q.alloc.tail))), tid);
    }
  }

  lemma EnqueueRollsBack(q: Queue, f: seq<nat>, a: seq<nat>, tid: nat, c: Call, q1: Queue, q2: Queue) returns (q': Queue)
    requires AtRest(q, f, a) && Idles(q, tid) && c.Enqueue? && |a| < q.free.half && q.alloc.finalized && f != [] && f[0] < q.free.half
    requires q1 == q.(used := q.used + 1, free := q1.free, backing := q.backing[f[0] := Some(c.v)]) && Shaped(q1)
    requires L.AfterDequeue(q.free, f, R.Got(f[0], q.free.head), q1.free)
    requires q2 == q1.(alloc := q2.alloc, sent := q2.sent) && L.AfterEnqueue(q.alloc, a, f[0], R.Finalized, q2.alloc)
    ensures AfterEnqueue(q, f, a, c, Refused(c.v, true), q', f[1..] + [f[0]], a)
    ensures Works(Goto(q2, tid, EnqUncount(c, f[0])), tid, Goto(q', tid, Done(c, Refused(c.v, true))))
  {
    B.KeptRotate(q.free.half, f, a, q.backing);
    q' := RollBack(q2, f[1..], tid, c, f[0]);
    assert q'.backing == q.backing;
  }

  /** A lone enqueue on a queue at rest: refused as full exactly when 2^order values are stored, refused as
      finalized exactly when it is finalized and not full, and appended otherwise.  The last step of the
      call leaves the thread idle. */
  lemma LoneEnqueue(q: Queue, f: seq<nat>, a: seq<nat>, tid: nat, c: Call) returns (q': Queue, out: Outcome, f': seq<nat>, a': seq<nat>)
    requires AtRest(q, f, a) && Idles(q, tid) && c.Enqueue?
    ensures AfterEnqueue(q, f, a, c, out, q', f', a')
    ensures Works(Step(q, tid, Start(c)), tid, Goto(q', tid, Done(c, out)))
    ensures Step(Goto(q', tid, Done(c, out)), tid, Run(false)) == q'
  {
    if |a| == q.free.half {
      q', out, f', a' := q, Refused(c.v, false), f, a;
      EnqueueFull(q, f, a, tid, c);
    } else {
      var q1 := EnqueueWrites(q, f, a, tid, c);
      var q2, res := Share(q1, a, tid, c, q.used, f[0]);
      var shared := AfterShare(q.free.half, c, q.used, f[0], res);
      WorksOn(Goto(q, tid, EnqCount(c)), tid, Goto(AllocStep(q1, tid, R.Start(R.Enqueue(f[0]))), tid, EnqShare(c, q.used, f[0])),
              Goto(q2, tid, shared));
      if q.alloc.finalized {
        out, f', a' := Refused(c.v, true), f[1..] + [f[0]], a;
        q' := EnqueueRollsBack(q, f, a, tid, c, q1, q2);
      } else {
        out, f', a' := Stored(q.alloc.tail), f[1..], a + [f[0]];
        q' := EnqueueStores(q, f, a, tid, c, q1, q2);
      }
      WorksOn(Goto(q, tid, EnqCount(c)), tid, Goto(q2, tid, shared), Goto(q', tid, Done(c, out)));
    }
    Returned(q', tid, c, out);
  }

  lemma Returned(q: Queue, tid: nat, c: Call, out: Outcome)
    requires Shaped(q) && tid < |q.threads| && q.threads[tid].Idle?
    ensures Step(Goto(q, tid, Done(c, out)), tid, Run(false)) == q
  {
    Twice(q, tid, Done(c, out), Idle);
    assert q.threads[tid := Idle] == q.threads;
  }

  // ---- dequeue ------------------------------------------------------------------------------------------------

  /** What a lone dequeue leaves, apart from the thread's own result. */
  predicate AfterDequeue(q: Queue, f: seq<nat>, a: seq<nat>, out: Outcome, q': Queue, f': seq<nat>, a': seq<nat>)
    requires AtRest(q, f, a)
  {
    && AtRest(q', f', a') && q'.threads == q.threads && q'.free.threads == q.free.threads && q'.alloc.threads == q.alloc.threads
    && q'.free.half == q.free.half && q'.alloc.finalizable == q.alloc.finalizable && q'.alloc.finalized == q.alloc.finalized
    && out == (if a == [] then Empty else Fetched(Contents(q, f, a)[0], q.alloc.head))
    && Contents(q', f', a') == if a == [] then [] else Contents(q, f, a)[1..]
  }

  lemma CountStep(q: Queue, tid: nat, pos: nat, t: nat)
    requires Shaped(q) && tid < |q.threads|
    ensures Works(Goto(q, tid, DeqCount(pos, t)), tid, Goto(q.(used := q.used - 1), tid, DeqRead(pos, t)))
  {
    Twice(q.(used := q.used - 1), tid, DeqCount(pos, t), DeqRead(pos, t));
    OneStep(Goto(q, tid, DeqCount(pos, t)), tid, Goto(q.(used := q.used - 1), tid, DeqRead(pos, t)));
  }

  lemma ReadStep(q: Queue, tid: nat, pos: nat, t: nat, v: Value)
    requires Shaped(q) && tid < |q.threads| && pos < |q.backing| && q.backing[pos] == Some(v)
    ensures Works(Goto(q, tid, DeqRead(pos, t)), tid,
                  Goto(FreeStep(q.(backing := q.backing[pos := None], fetched := q.fetched[t := v]), tid, R.Start(R.Enqueue(pos))),
                       tid, DeqReturn(v, pos, t)))
  {
    var q1 := FreeStep(q.(backing := q.backing[pos := None], fetched := q.fetched[t := v]), tid, R.Start(R.Enqueue(pos)));
    Twice(q1, tid, DeqRead(pos, t), DeqReturn(v, pos, t));
    OneStep(Goto(q, tid, DeqRead(pos, t)), tid, Goto(q1, tid, DeqReturn(v, pos, t)));
  }

  /** From the index on: the counter, the value, and the index back to the free ring. */
  lemma DequeueReads(q: Queue, f: seq<nat>, tid: nat, pos: nat, t: nat, v: Value) returns (q': Queue)
    requires Shaped(q) && tid < |q.threads| && L.Sits(q.free, f) && |f| < 2 * q.free.half && !q.free.finalized
    requires q.free.threads[tid].Rest? && pos < q.free.half && pos < |q.backing| && q.backing[pos] == Some(v)
    ensures q' == q.(used := q.used - 1, backing := q.backing[pos := None], fetched := q.fetched[t := v], free := q'.free)
    ensures L.AfterEnqueue(q.free, f, pos, R.Enqueued(q.free.tail), q'.free)
    ensures Works(Goto(q, tid, DeqCount(pos, t)), tid, Goto(q', tid, Done(Dequeue, Fetched(v, t))))
  {
    var q1 := q.(used := q.used - 1);
    CountStep(q, tid, pos, t);
    ReadStep(q1, tid, pos, t, v);
    var q2 := q1.(backing := q.backing[pos := None], fetched := q.fetched[t := v]);
    var back := DeqReturn(v, pos, t);
    WorksOn(Goto(q, tid, DeqCount(pos, t)), tid, Goto(q1, tid, DeqRead(pos, t)),
            Goto(FreeStep(q2, tid, R.Start(R.Enqueue(pos))), tid, back));
    var free := PutBack(q2, f, tid, pos, back, Done(Dequeue, Fetched(v, t)));
    q' := q2.(free := free);
    WorksOn(Goto(q, tid, DeqCount(pos, t)), tid, Goto(FreeStep(q2, tid, R.Start(R.Enqueue(pos))), tid, back),
            Goto(q', tid, Done(Dequeue, Fetched(v, t))));
  }

  /** A lone dequeue on a queue at rest: the oldest value, or Empty exactly when there is none.  The last step
      of the call leaves the thread idle. */
  lemma LoneDequeue(q: Queue, f: seq<nat>, a: seq<nat>, tid: nat) returns (q': Queue, out: Outcome, f': seq<nat>, a': seq<nat>)
    requires AtRest(q, f, a) && Idles(q, tid)
    ensures AfterDequeue(q, f, a, out, q', f', a')
    ensures Works(Step(q, tid, Start(Dequeue)), tid, Goto(q', tid, Done(Dequeue, out)))
    ensures Step(Goto(q', tid, Done(Dequeue, out)), tid, Run(false)) == q'
  {
    var alloc, res := Fetch(q, a, tid);
    var q1 := q.(alloc := alloc);
    if a == [] {
      q', out, f', a' := q1, Empty, f, a;
    } else {
      B.KeptTake(q.free.half, f, a, q.backing);
      var v := Contents(q, f, a)[0];
      out, f', a' := Fetched(v, q.alloc.head), f + [a[0]], a[1..];
      q' := DequeueReads(q1, f, tid, a[0], q.alloc.head, v);
      WorksOn(Step(q, tid, Start(Dequeue)), tid, Goto(q1, tid, AfterFetch(res)), Goto(q', tid, Done(Dequeue, out)));
    }
    Returned(q', tid, Dequeue, out);
  }
}

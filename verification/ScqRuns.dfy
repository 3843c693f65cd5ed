/** Whole runs of the SCQ ring: any number of threads, any interleaving, any spurious
    compare-exchange failures, and finalization at any moment. */
module ScqRuns {
  import opened Options
  import opened ScqRing
  import opened ScqInvariant
  import opened ScqSteps

  datatype Turn = Turn(tid: nat, act: Action)

  // ---- what one step does -----------------------------------------------------------------------

  predicate OthersRest(r: Ring, r': Ring, tid: nat) {
    |r'.threads| == |r.threads| && forall a :: 0 <= a < |r.threads| && a != tid ==> r'.threads[a] == r.threads[a]
  }

  /** Nothing is placed and nothing is taken; the thread holds on to what it carries. */
  predicate Idles(r: Ring, r': Ring, pc: Pc, pc': Pc) {
    && r'.placed == r.placed && r'.taken == r.taken
    && Carried(pc') == Carried(pc) && PlacedAt(pc') == PlacedAt(pc) && !(pc'.Reply? && pc'.res.Got?)
  }

  /** The thread puts the index it carries into the slot of ticket t, which is neither placed nor
      given up. */
  predicate Places(r: Ring, r': Ring, pc: Pc, pc': Pc, t: nat) {
    && pc.EnqCas? && pc.t == t && t !in r.placed && t !in r.gone && r'.gone == r.gone
    && Carried(pc).Some? && pc' == EnqThreshold(Carried(pc).value, t)
    && r'.placed == r.placed[t := Carried(pc).value] && r'.taken == r.taken
  }

  /** The thread takes the index that lies at its own ticket. */
  predicate Takes(r: Ring, r': Ring, pc: Pc, pc': Pc, h: nat) {
    && DeqTicket(pc) == Some(h) && Live(r, h) && r.placed[h] < r.half
    && Carried(pc) == None && pc' == Reply(Dequeue, Got(r.placed[h], h))
    && r'.taken == r.taken + {h} && r'.placed == r.placed
  }

  ghost predicate Effect(r: Ring, r': Ring, pc: Pc, pc': Pc) {
    || Idles(r, r', pc, pc')
    || (exists t :: Places(r, r', pc, pc', t))
    || (exists h :: Takes(r, r', pc, pc', h))
  }

  /** Every ticket the thread holds or was served at is at least as late as the counters were. */
  predicate DrawnSince(pc: Pc, tail: nat, head: nat) {
    && (EnqTicket(pc).Some? ==> EnqTicket(pc).value >= tail)
    && (DeqTicket(pc).Some? ==> DeqTicket(pc).value >= head)
    && (PlacedAt(pc).Some? ==> PlacedAt(pc).value >= tail)
    && (pc.Reply? && pc.res.Got? ==> pc.res.ticket >= head)
  }

  /** A step inside a call. */
  ghost predicate Inside(r: Ring, r': Ring, tid: nat) {
    && Evolves(r, r') && r'.finalized == r.finalized && tid < |r.threads| && OthersRest(r, r', tid)
    && CallOf(r'.threads[tid]) == CallOf(r.threads[tid])
    && Effect(r, r', r.threads[tid], r'.threads[tid])
    && (forall tail: nat, head: nat :: tail <= r.tail && head <= r.head && DrawnSince(r.threads[tid], tail, head) ==>
          DrawnSince(r'.threads[tid], tail, head))
  }

  lemma RunInside(r: Ring, tid: nat, spurious: bool)
    requires Inv(r) && tid < |r.threads| && !r.threads[tid].Rest? && !r.threads[tid].Reply?
    ensures Inside(r, Step(r, tid, Run(spurious)), tid)
  {
    assert PcOk(r, r.threads[tid]);
    if Enqueuing(r.threads[tid]) {
      EnqInside(r, tid, spurious);
    } else if Dequeuing(r.threads[tid]) {
      DeqInside(r, tid, spurious);
    } else {
      LeaveInside(r, tid, spurious);
    }
  }

  lemma EnqInside(r: Ring, tid: nat, spurious: bool)
    requires Inv(r) && tid < |r.threads| && Enqueuing(r.threads[tid])
    ensures Inside(r, StepEnq(r, tid, spurious), tid)
  {
    var pc := r.threads[tid];
    if pc.EnqCas? {
      EnqCasInside(r, tid, spurious);
    } else if pc.EnqTail? || pc.EnqReset? {
      EnqCounterInside(r, tid, spurious);
    } else {
      EnqTestInside(r, tid, spurious);
    }
  }

  lemma EnqCasInside(r: Ring, tid: nat, spurious: bool)
    requires Inv(r) && tid < |r.threads| && r.threads[tid].EnqCas?
    ensures Inside(r, StepEnq(r, tid, spurious), tid)
  {
    var EnqCas(i, t, e) := r.threads[tid];
    if !spurious && EntryOf(r, t) == e {
      PlaceInside(r, tid, i, t, e);
    } else {
      var r' := StepEnq(r, tid, spurious);
      assert Idles(r, r', r.threads[tid], r'.threads[tid]);
    }
  }

  lemma PlaceInside(r: Ring, tid: nat, i: nat, t: nat, e: Entry)
    requires Inv(r) && tid < |r.threads| && r.threads[tid] == EnqCas(i, t, e) && EntryOf(r, t) == e
    ensures Inside(r, WithPc(WithEntry(r, t, Placed(t, i)).(placed := r.placed[t := i]), tid, EnqThreshold(i, t)), tid)
  {
    var r' := WithPc(WithEntry(r, t, Placed(t, i)).(placed := r.placed[t := i]), tid, EnqThreshold(i, t));
    assert PcOk(r, r.threads[tid]);
    assert Places(r, r', r.threads[tid], r'.threads[tid], t);
  }

  lemma EnqCounterInside(r: Ring, tid: nat, spurious: bool)
    requires Inv(r) && tid < |r.threads| && (r.threads[tid].EnqTail? || r.threads[tid].EnqReset?)
    ensures Inside(r, StepEnq(r, tid, spurious), tid)
  {
    var r' := StepEnq(r, tid, spurious);
    assert Idles(r, r', r.threads[tid], r'.threads[tid]);
  }

  lemma EnqTestInside(r: Ring, tid: nat, spurious: bool)
    requires Inv(r) && tid < |r.threads|
    requires var pc := r.threads[tid]; pc.EnqLoad? || pc.EnqHead? || pc.EnqSeal? || pc.EnqThreshold?
    ensures Inside(r, StepEnq(r, tid, spurious), tid)
  {
    var r' := StepEnq(r, tid, spurious);
    assert Idles(r, r', r.threads[tid], r'.threads[tid]);
  }

  lemma DeqInside(r: Ring, tid: nat, spurious: bool)
    requires Inv(r) && tid < |r.threads| && Dequeuing(r.threads[tid])
    ensures Inside(r, StepDeq(r, tid, spurious), tid)
  {
    var pc := r.threads[tid];
    if pc.DeqLoad? {
      LookInside(r, tid, pc.h, pc.attempt);
    } else if pc.DeqCas? {
      DeqCasInside(r, tid, spurious);
    } else if pc.DeqTake? {
      TakeInside(r, tid, spurious);
    } else {
      var r' := StepDeq(r, tid, spurious);
      assert Idles(r, r', pc, r'.threads[tid]);
    }
  }

  lemma LookInside(r: Ring, tid: nat, h: nat, attempt: nat)
    requires Inv(r) && tid < |r.threads| && r.threads[tid] == DeqLoad(h, attempt)
    ensures Inside(r, Look(r, tid, h, attempt), tid)
  {
    var r' := Look(r, tid, h, attempt);
    LookLeaves(r, tid, h, attempt);
    LookOk(r, tid, h, attempt);
    assert Idles(r, r', r.threads[tid], r'.threads[tid]);
  }

  lemma DeqCasInside(r: Ring, tid: nat, spurious: bool)
    requires Inv(r) && tid < |r.threads| && r.threads[tid].DeqCas?
    ensures Inside(r, StepDeq(r, tid, spurious), tid)
  {
    var r' := StepDeq(r, tid, spurious);
    assert PcOk(r, r.threads[tid]);
    assert Idles(r, r', r.threads[tid], r'.threads[tid]);
  }

  lemma TakeInside(r: Ring, tid: nat, spurious: bool)
    requires Inv(r) && tid < |r.threads| && r.threads[tid].DeqTake?
    ensures Inside(r, StepDeq(r, tid, spurious), tid)
  {
    var DeqTake(h, e) := r.threads[tid];
    var r' := StepDeq(r, tid, spurious);
    assert PcOk(r, r.threads[tid]);
    assert LiveOk(r, h);
    assert Takes(r, r', r.threads[tid], r'.threads[tid], h);
  }

  lemma LeaveInside(r: Ring, tid: nat, spurious: bool)
    requires Inv(r) && tid < |r.threads| && Leaving(r.threads[tid])
    ensures Inside(r, StepLeave(r, tid, spurious), tid)
  {
    var r' := StepLeave(r, tid, spurious);
    assert PcOk(r, r.threads[tid]);
    LeavingShape(r, tid, spurious);
    LeavingOk(r, tid, spurious);
    assert Idles(r, r', r.threads[tid], r'.threads[tid]);
  }

  lemma StepEvolves(r: Ring, tid: nat, act: Action)
    requires Inv(r)
    ensures Evolves(r, Step(r, tid, act)) && |Step(r, tid, act).threads| == |r.threads|
  {
    if tid < |r.threads| && act.Run? && !r.threads[tid].Rest? && !r.threads[tid].Reply? {
      RunInside(r, tid, act.spurious);
    }
  }

  lemma EvolvesTrans(a: Ring, b: Ring, c: Ring)
    requires Evolves(a, b) && Evolves(b, c)
    ensures Evolves(a, c)
  {
    forall i | 0 <= i < |a.entries| ensures Past(a.half, a.entries[i], c.entries[i]) {
      PastTrans(a.half, a.entries[i], b.entries[i], c.entries[i]);
    }
  }

  // ---- runs -------------------------------------------------------------------------------------

  ghost predicate Initial(r: Ring) {
    r.half > 0 && r in {EmptyRing(r.half, r.finalizable, |r.threads|), FullRing(r.half, r.finalizable, |r.threads|)}
  }

  lemma InitialInv(r: Ring)
    requires Initial(r)
    ensures Inv(r)
  {
    EmptyRingInv(r.half, r.finalizable, |r.threads|);
    FullRingInv(r.half, r.finalizable, |r.threads|);
  }

  ghost function Exec(r: Ring, sch: seq<Turn>): (r': Ring)
    requires Inv(r)
    ensures Inv(r') && Evolves(r, r') && |r'.threads| == |r.threads|
  {
    if sch == [] then r
    else
      var prev, turn := Exec(r, sch[..|sch| - 1]), sch[|sch| - 1];
      StepInv(prev, turn.tid, turn.act);
      StepEvolves(prev, turn.tid, turn.act);
      EvolvesTrans(r, prev, Step(prev, turn.tid, turn.act));
      Step(prev, turn.tid, turn.act)
  }

  lemma {:induction false} ExecAppend(r: Ring, sch: seq<Turn>, more: seq<Turn>)
    requires Inv(r)
    ensures Exec(r, sch + more) == Exec(Exec(r, sch), more)
  {
    if more == [] {
      assert sch + more == sch;
    } else {
      assert (sch + more)[..|sch + more| - 1] == sch + more[..|more| - 1];
      ExecAppend(r, sch, more[..|more| - 1]);
    }
  }

  /** Runs only add to the history. */
  lemma Later(r: Ring, sch: seq<Turn>, more: seq<Turn>)
    requires Inv(r)
    ensures Evolves(Exec(r, sch), Exec(r, sch + more))
  {
    ExecAppend(r, sch, more);
  }

  // ---- no index is lost ---------------------------------------------------------------------------

  /** Once the dequeuer of ticket t has left empty-handed, nothing is ever placed for t; and once
      something is placed for t, no dequeuer ever leaves t empty-handed. */
  lemma GivenUpOrPlaced(r: Ring, sch: seq<Turn>, more: seq<Turn>, t: nat)
    requires Initial(r)
    ensures Inv(r)
    ensures t in Exec(r, sch).gone ==> t !in Exec(r, sch + more).placed
    ensures t in Exec(r, sch).placed ==> t !in Exec(r, sch + more).gone
  {
    InitialInv(r);
    Later(r, sch, more);
  }

  ghost predicate AtWork(r: Ring, t: nat) {
    exists a :: 0 <= a < |r.threads| && DeqTicket(r.threads[a]) == Some(t)
  }

  /** Where a placed index is: it was handed out, or it lies in its slot; and if its turn to be
      dequeued has come, some thread is at work on exactly this ticket. */
  lemma NoIndexLost(r: Ring, sch: seq<Turn>, t: nat)
    requires Initial(r)
    ensures Inv(r)
    ensures var s := Exec(r, sch);
      t in s.placed && t !in s.taken ==>
        && EntryOf(s, t).turn == t && EntryOf(s, t).index == s.placed[t]
        && (t < s.head ==> AtWork(s, t))
  {
    InitialInv(r);
    var s := Exec(r, sch);
    if t in s.placed && t !in s.taken {
      assert LiveOk(s, t);
      if t < s.head {
        assert !Settled(s, t);
      }
    }
  }

  /** Indices leave in ticket order: if a later ticket has been served, an earlier placed index has
      been handed out too or is just being fetched. */
  lemma TicketOrder(r: Ring, sch: seq<Turn>, t: nat, u: nat)
    requires Initial(r) && t < u
    ensures Inv(r)
    ensures var s := Exec(r, sch); t in s.placed && u in s.taken ==> t in s.taken || AtWork(s, t)
  {
    NoIndexLost(r, sch, t);
  }

  /** The turn-th step of the schedule hands out an index. */
  ghost predicate HandsOut(r: Ring, sch: seq<Turn>, k: nat, i: nat, t: nat)
    requires Inv(r) && k < |sch|
  {
    && sch[k].tid < |r.threads| && !Exec(r, sch[..k]).threads[sch[k].tid].Reply?
    && Exec(r, sch[..k + 1]).threads[sch[k].tid] == Reply(Dequeue, Got(i, t))
  }

  lemma HandOut(r: Ring, sch: seq<Turn>, k: nat, i: nat, t: nat)
    requires Inv(r) && k < |sch| && HandsOut(r, sch, k, i, t)
    ensures t !in Exec(r, sch[..k]).taken && t in Exec(r, sch[..k + 1]).taken
    ensures t in Exec(r, sch[..k]).placed && Exec(r, sch[..k]).placed[t] == i < r.half
  {
    assert sch[..k + 1][..k] == sch[..k];
    OnlyTakesHandOut(Exec(r, sch[..k]), sch[k].tid, sch[k].act, i, t);
  }

  lemma OnlyTakesHandOut(r: Ring, tid: nat, act: Action, i: nat, t: nat)
    requires Inv(r) && tid < |r.threads| && !r.threads[tid].Reply?
    requires tid < |Step(r, tid, act).threads| && Step(r, tid, act).threads[tid] == Reply(Dequeue, Got(i, t))
    ensures Live(r, t) && r.placed[t] == i < r.half && t in Step(r, tid, act).taken
  {
    if act.Run? && !r.threads[tid].Rest? {
      RunInside(r, tid, act.spurious);
    }
  }

  /** Every dequeued index is a real one, is the one placed at the same ticket, and no ticket is
      served twice in a run. */
  lemma ExactlyOnce(r: Ring, sch: seq<Turn>, j: nat, k: nat, i: nat, t: nat, i': nat, t': nat)
    requires Initial(r) && Inv(r) && j < k < |sch|
    requires HandsOut(r, sch, j, i, t) && HandsOut(r, sch, k, i', t')
    ensures t != t'
    ensures var s := Exec(r, sch); t in s.placed && s.placed[t] == i < r.half && t in s.taken
  {
    HandOut(r, sch, k, i', t');
    StaysServed(r, sch, j, k, i, t);
    StaysServed(r, sch, j, |sch|, i, t);
    assert sch[..|sch|] == sch;
  }

  lemma StaysServed(r: Ring, sch: seq<Turn>, j: nat, k: nat, i: nat, t: nat)
    requires Inv(r) && j < k <= |sch| && HandsOut(r, sch, j, i, t)
    ensures var s := Exec(r, sch[..k]); t in s.placed && s.placed[t] == i < r.half && t in s.taken
  {
    HandOut(r, sch, j, i, t);
    Prefix(r, sch, j, k);
    Prefix(r, sch, j + 1, k);
  }

  lemma Prefix(r: Ring, sch: seq<Turn>, j: nat, k: nat)
    requires Inv(r) && j <= k <= |sch|
    ensures Evolves(Exec(r, sch[..j]), Exec(r, sch[..k]))
  {
    assert sch[..k] == sch[..j] + sch[j..k];
    Later(r, sch[..j], sch[j..k]);
  }

  // ---- order of calls -----------------------------------------------------------------------------

  lemma StepDraws(r: Ring, tid: nat, act: Action, me: nat, tail: nat, head: nat)
    requires Inv(r) && me < |r.threads| && r.tail >= tail && r.head >= head && DrawnSince(r.threads[me], tail, head)
    ensures |Step(r, tid, act).threads| == |r.threads|
    ensures DrawnSince(Step(r, tid, act).threads[me], tail, head)
  {
    StepEvolves(r, tid, act);
    if tid < |r.threads| && act.Run? && !r.threads[tid].Rest? && !r.threads[tid].Reply? {
      RunInside(r, tid, act.spurious);
    }
  }

  lemma {:induction false} RunDraws(r: Ring, sch: seq<Turn>, me: nat)
    requires Inv(r) && me < |r.threads| && DrawnSince(r.threads[me], r.tail, r.head)
    ensures DrawnSince(Exec(r, sch).threads[me], r.tail, r.head)
  {
    if sch != [] {
      RunDraws(r, sch[..|sch| - 1], me);
      var turn := sch[|sch| - 1];
      StepDraws(Exec(r, sch[..|sch| - 1]), turn.tid, turn.act, me, r.tail, r.head);
    }
  }

  lemma ServedBefore(r: Ring, a: nat)
    requires Inv(r) && a < |r.threads| && r.threads[a].Reply?
    ensures r.threads[a].res.Enqueued? ==> r.threads[a].res.ticket < r.tail
    ensures r.threads[a].res.Got? ==> r.threads[a].res.ticket < r.head
  {
    assert PcOk(r, r.threads[a]);
  }

  /** If one call has its result before another call starts, the second one is served at a later
      ticket: enqueues among themselves and dequeues among themselves are ordered in time. */
  lemma LaterCallsLaterTickets(r: Ring, sch: seq<Turn>, more: seq<Turn>, a: nat, b: nat)
    requires Initial(r) && Inv(r) && a < |r.threads| && b < |r.threads|
    requires Exec(r, sch).threads[a].Reply? && Exec(r, sch).threads[b].Rest? && Exec(r, sch + more).threads[b].Reply?
    ensures var first, second := Exec(r, sch).threads[a].res, Exec(r, sch + more).threads[b].res;
      && (first.Enqueued? && second.Enqueued? ==> first.ticket < second.ticket)
      && (first.Got? && second.Got? ==> first.ticket < second.ticket)
  {
    ExecAppend(r, sch, more);
    RunDraws(Exec(r, sch), more, b);
    ServedBefore(Exec(r, sch), a);
  }
}

/** Nothing is lost and nothing is invented.  Over every run that ends with all threads at
    rest, the values accepted from callers are exactly the values handed back by pop, the
    values displaced by force_push and the values that Drop finds, each once. */
module Conservation {
  import opened Options
  import opened Arithmetic
  import opened Bits
  import opened Laps
  import opened Fifo
  import opened Tickets
  import opened TicketInvariant
  import opened Linearization
  import opened Encoding
  import opened Runs
  import opened Safety
  import Words

  // ---- the balance of the atomic object, one value at a time ------------------------------

  function One(a: Value, x: Value): nat { if a == x then 1 else 0 }

  /** How often a reply says the queue has accepted x. */
  function TakenIn(op: Op, res: Res, x: Value): nat {
    if op.ForcePush? || (op.Push? && res.Pushed?) then One(op.item, x) else 0
  }

  /** How often a reply hands out x. */
  function HandedOut(op: Op, res: Res, x: Value): nat {
    if op.Pop? && res.Popped? then One(res.item, x)
    else if op.ForcePush? && res.Displaced? then One(res.oldest, x)
    else 0
  }

  /** How often the replies of a run say that x was accepted. */
  function Accepted(labels: seq<Label>, x: Value): nat {
    if labels == [] then 0
    else
      var lbl := labels[|labels| - 1];
      Accepted(labels[..|labels| - 1], x) + if lbl.Replied? then TakenIn(lbl.op, lbl.res, x) else 0
  }

  /** How often the replies of a run hand out x. */
  function Returned(labels: seq<Label>, x: Value): nat {
    if labels == [] then 0
    else
      var lbl := labels[|labels| - 1];
      Returned(labels[..|labels| - 1], x) + if lbl.Replied? then HandedOut(lbl.op, lbl.res, x) else 0
  }

  /** What a call that has taken effect will add to the balance when it replies. */
  function Owed(st: Status, x: Value): int {
    if st.Answered? then TakenIn(st.op, st.res, x) - HandedOut(st.op, st.res, x) else 0
  }

  function Pending(clients: seq<Status>, x: Value): int {
    if clients == [] then 0
    else Pending(clients[..|clients| - 1], x) + Owed(clients[|clients| - 1], x)
  }

  lemma {:induction false} PendingUpdate(clients: seq<Status>, tid: nat, st: Status, x: Value)
    requires tid < |clients|
    ensures Pending(clients[tid := st], x) == Pending(clients, x) - Owed(clients[tid], x) + Owed(st, x)
  {
    var last := |clients| - 1;
    var clients' := clients[tid := st];
    if tid == last {
      assert clients'[..last] == clients[..last];
    } else {
      PendingUpdate(clients[..last], tid, st, x);
      assert clients'[..last] == clients[..last][tid := st];
    }
  }

  predicate Balanced(a: Object, labels: seq<Label>, x: Value) {
    Accepted(labels, x) + Pending(a.clients, x) == Returned(labels, x) + multiset(a.queue)[x]
  }

  lemma EffectBalanced(cap: nat, queue: seq<Value>, op: Op, res: Res, x: Value)
    requires cap > 0 && Answer(cap, queue, op, res)
    ensures multiset(Effect(cap, queue, op))[x] + HandedOut(op, res, x) == multiset(queue)[x] + TakenIn(op, res, x)
  {
    if queue != [] {
      assert queue == [queue[0]] + queue[1..];
    }
  }

  lemma StepBalanced(cap: nat, a: Object, lbl: Label, b: Object, labels: seq<Label>, x: Value)
    requires cap > 0 && Next(cap, a, lbl, b) && Balanced(a, labels, x)
    ensures Balanced(b, labels + [lbl], x)
  {
    assert (labels + [lbl])[..|labels|] == labels;
    match lbl
    case Invoked(tid, op) => PendingUpdate(a.clients, tid, Called(op), x);
    case Replied(tid, op, res) => PendingUpdate(a.clients, tid, Idle, x);
    case Tau =>
      if b != a {
        var tid: nat :| Commits(cap, a, tid, b);
        PendingUpdate(a.clients, tid, b.clients[tid], x);
        EffectBalanced(cap, a.queue, a.clients[tid].op, b.clients[tid].res, x);
      }
  }

  lemma {:induction false} RunBalanced(cap: nat, run: seq<Object>, labels: seq<Label>, x: Value)
    requires cap > 0 && Behaviour(cap, run, labels)
    requires run[0].queue == [] && forall i :: 0 <= i < |run[0].clients| ==> run[0].clients[i] == Idle
    ensures Balanced(run[|labels|], labels, x)
  {
    if labels == [] {
      NothingPending(run[0].clients, x);
    } else {
      var last := |labels| - 1;
      BehaviourPrefix(cap, run, labels);
      RunBalanced(cap, run[..last + 1], labels[..last], x);
      assert labels[..last] + [labels[last]] == labels;
      StepBalanced(cap, run[last], labels[last], run[last + 1], labels[..last], x);
    }
  }

  lemma {:induction false} NothingPending(clients: seq<Status>, x: Value)
    requires forall i :: 0 <= i < |clients| ==> clients[i] == Idle
    ensures Pending(clients, x) == 0
  {
    if clients != [] {
      NothingPending(clients[..|clients| - 1], x);
    }
  }

  // ---- Drop ------------------------------------------------------------------------------

  /** The slot that Drop visits in its i-th turn. */
  function DropIndex(q: Words.Queue, i: nat): int {
    var hix := Words.Index(q, q.head);
    if hix + i < q.n then hix + i else hix + i - q.n
  }

  predicate AtRest(q: Words.Queue) { forall a :: 0 <= a < |q.threads| ==> q.threads[a].Rest? }

  lemma CountIsDistance(n: nat, t: nat, h: nat)
    requires n > 0 && h <= t <= h + n
    ensures Count(n, t, h) == t - h
  {
    WindowLength(n, h, t);
  }

  /** With every thread at rest, the walk of Drop meets exactly the live values, oldest first. */
  lemma DropFindsContents(s: State, w: nat, k: nat)
    requires Inv(s) && Room(s.n, w, k, |s.log|) && AtRest(EncState(s, w, k))
    ensures var q := EncState(s, w, k); var len := Words.CountOf(q, q.tail, q.head);
      && len == |Contents(s)|
      && forall i :: 0 <= i < len ==> 0 <= DropIndex(q, i) < |q.slots|
                                       && q.slots[DropIndex(q, i)].cell == Some(Contents(s)[i])
  {
    var q := EncState(s, w, k);
    NobodyHolds(s, w, k);
    CountLockstep(s, w, k, s.tail, s.head);
    CountIsDistance(s.n, s.tail, s.head);
    TicketFits(s, w, k, s.head);
    Position(q, s.head);
    forall i | 0 <= i < s.tail - s.head
      ensures 0 <= DropIndex(q, i) < |q.slots| && q.slots[DropIndex(q, i)].cell == Some(s.log[s.head + i])
    {
      WalkIndex(s.n, s.head, i);
      LiveSlot(s, s.head + i);
    }
  }

  /** At rest, no overwrite is pending. */
  lemma NobodyHolds(s: State, w: nat, k: nat)
    requires Inv(s) && Words.Config(s.n, w, k) && AtRest(EncState(s, w, k))
    ensures forall a :: 0 <= a < |s.threads| ==> s.threads[a].Rest?
    ensures |s.log| == s.tail
  {
    forall a | 0 <= a < |s.threads| ensures s.threads[a].Rest? {
      EncPcKind(s.n, Pow2(k), s.threads[a]);
      assert EncState(s, w, k).threads[a].Rest?;
    }
  }

  /** At rest, an accepted and unclaimed ticket is in its slot. */
  lemma LiveSlot(s: State, p: nat)
    requires Inv(s) && s.head <= p < s.tail && forall a :: 0 <= a < |s.threads| ==> s.threads[a].Rest?
    ensures s.slots[p % s.n].cell == Some(s.log[p])
  {
    var i := p % s.n;
    assert SlotOk(s, i) && SlotHeld(s, i);
    var st := s.slots[i].stamp;
    if st.ticket < p {
      SameSlotGap(s.n, st.ticket, p);
    } else if st.ticket > p {
      SameSlotGap(s.n, p, st.ticket);
    }
  }

  /** The values that Drop finds, in the order in which it finds them. */
  predicate Drops(q: Words.Queue, dropped: seq<Value>) {
    && |dropped| == Words.CountOf(q, q.tail, q.head)
    && forall i :: 0 <= i < |dropped| ==>
         0 <= DropIndex(q, i) < |q.slots| && q.slots[DropIndex(q, i)].cell == Some(dropped[i])
  }

  /** Conservation, from an empty queue to Drop: every value was accepted exactly as often as
      it was popped, displaced or dropped. */
  lemma Conserved(n: nat, w: nat, k: nat, threads: nat, sch: seq<Turn>)
    requires Room(n, w, k, |sch|)
    requires AtRest(Exec(Words.New(n, w, k, threads), sch))
    ensures exists dropped: seq<Value> ::
      && Drops(Exec(Words.New(n, w, k, threads), sch), dropped)
      && forall x: Value :: Accepted(Trace(Words.New(n, w, k, threads), sch), x)
                         == Returned(Trace(Words.New(n, w, k, threads), sch), x) + multiset(dropped)[x]
  {
    var s := Safety.Reached(n, w, k, threads, sch);
    DropFindsContents(s, w, k);
    var dropped := Contents(s);
    assert Drops(Exec(Words.New(n, w, k, threads), sch), dropped);
    forall x: Value
      ensures Accepted(Trace(Words.New(n, w, k, threads), sch), x)
           == Returned(Trace(Words.New(n, w, k, threads), sch), x) + multiset(dropped)[x]
    {
      BalancedAtRest(n, w, k, threads, sch, s, x);
    }
  }

  lemma BalancedAtRest(n: nat, w: nat, k: nat, threads: nat, sch: seq<Turn>, s: State, x: Value)
    requires Room(n, w, k, |sch|) && Inv(Init(n, threads)) && s == Shadow(Init(n, threads), sch)
    requires AtRest(EncState(s, w, k))
    ensures Accepted(Trace(Words.New(n, w, k, threads), sch), x)
         == Returned(Trace(Words.New(n, w, k, threads), sch), x) + multiset(Contents(s))[x]
  {
    RunIsBehaviour(n, w, k, threads, sch);
    IdleAtRest(s, w, k);
    QuiescentBalance(n, AbsRun(Init(n, threads), sch), Trace(Words.New(n, w, k, threads), sch), x);
  }

  lemma IdleAtRest(s: State, w: nat, k: nat)
    requires Inv(s) && Words.Config(s.n, w, k) && AtRest(EncState(s, w, k))
    ensures forall i :: 0 <= i < |Abs(s).clients| ==> Abs(s).clients[i] == Idle
  {
    NobodyHolds(s, w, k);
  }

  lemma QuiescentBalance(cap: nat, run: seq<Object>, labels: seq<Label>, x: Value)
    requires cap > 0 && Behaviour(cap, run, labels)
    requires run[0].queue == [] && forall i :: 0 <= i < |run[0].clients| ==> run[0].clients[i] == Idle
    requires forall i :: 0 <= i < |run[|labels|].clients| ==> run[|labels|].clients[i] == Idle
    ensures Accepted(labels, x) == Returned(labels, x) + multiset(run[|labels|].queue)[x]
  {
    RunBalanced(cap, run, labels, x);
    NothingPending(run[|labels|].clients, x);
  }
}

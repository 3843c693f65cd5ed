/** The two scenarios of heapless#583, for any number of threads and operations.

    Refill: the queue holds n items and every thread loops "pop; if it got something, push it
    back".  Then no push is ever refused.

    Hand-off: the queue starts empty and at most n threads loop "push; pop".  Then no push is
    ever refused and no pop ever comes back empty-handed.

    Both are counting arguments on the atomic object, carried over to every interleaving of
    the code by linearizability. */
module Issue583 {
  import opened Bits
  import opened Fifo
  import opened Tickets
  import opened TicketInvariant
  import opened Linearization
  import opened Encoding
  import opened Runs
  import opened Safety
  import opened Conservation
  import Words

  predicate Refused(lbl: Label) { lbl.Replied? && lbl.res.Full? }
  predicate EmptyHanded(lbl: Label) { lbl.Replied? && lbl.res.Empty? }

  // ---- clients that carry an item -----------------------------------------------------------

  /** Which clients hold an item of their own after what they have seen: popped and not pushed
      back (refill), or pushed and not yet popped for (hand-off). */
  function AfterRefill(hold: seq<bool>, lbl: Label): seq<bool> {
    if lbl.Replied? && lbl.tid < |hold| && lbl.res.Popped? then hold[lbl.tid := true]
    else if lbl.Replied? && lbl.tid < |hold| && lbl.res.Pushed? then hold[lbl.tid := false]
    else hold
  }

  function AfterHandOff(hold: seq<bool>, lbl: Label): seq<bool> {
    if lbl.Replied? && lbl.tid < |hold| && lbl.res.Popped? then hold[lbl.tid := false]
    else if lbl.Replied? && lbl.tid < |hold| && lbl.res.Pushed? then hold[lbl.tid := true]
    else hold
  }

  /** Pop when you hold nothing, push when you hold something. */
  predicate RefillClient(hold: seq<bool>, lbl: Label) {
    lbl.Invoked? ==> lbl.tid < |hold| && if hold[lbl.tid] then lbl.op.Push? else lbl.op.Pop?
  }

  /** Push when you hold nothing, pop when you hold something. */
  predicate HandOffClient(hold: seq<bool>, lbl: Label) {
    lbl.Invoked? ==> lbl.tid < |hold| && if hold[lbl.tid] then lbl.op.Pop? else lbl.op.Push?
  }

  function HoldRefill(threads: nat, labels: seq<Label>): (hold: seq<bool>)
    ensures |hold| == threads
  {
    if labels == [] then seq(threads, i => false)
    else AfterRefill(HoldRefill(threads, labels[..|labels| - 1]), labels[|labels| - 1])
  }

  function HoldHandOff(threads: nat, labels: seq<Label>): (hold: seq<bool>)
    ensures |hold| == threads
  {
    if labels == [] then seq(threads, i => false)
    else AfterHandOff(HoldHandOff(threads, labels[..|labels| - 1]), labels[|labels| - 1])
  }

  predicate RefillTrace(threads: nat, labels: seq<Label>) {
    forall i :: 0 <= i < |labels| ==> RefillClient(HoldRefill(threads, labels[..i]), labels[i])
  }

  predicate HandOffTrace(threads: nat, labels: seq<Label>) {
    forall i :: 0 <= i < |labels| ==> HandOffClient(HoldHandOff(threads, labels[..i]), labels[i])
  }

  // ---- counting ---------------------------------------------------------------------------------

  function Bump(b: bool): nat { if b then 1 else 0 }

  function Tally(flags: seq<bool>): (r: nat)
    ensures r <= |flags|
  {
    if flags == [] then 0 else Tally(flags[..|flags| - 1]) + Bump(flags[|flags| - 1])
  }

  lemma {:induction false} TallyUpdate(flags: seq<bool>, i: nat, b: bool)
    requires i < |flags|
    ensures Tally(flags[i := b]) + Bump(flags[i]) == Tally(flags) + Bump(b)
  {
    var last := |flags| - 1;
    if i == last {
      assert flags[i := b][..last] == flags[..last];
    } else {
      TallyUpdate(flags[..last], i, b);
      assert flags[i := b][..last] == flags[..last][i := b];
    }
  }

  lemma {:induction false} TallyNone(flags: seq<bool>)
    requires forall i :: 0 <= i < |flags| ==> !flags[i]
    ensures Tally(flags) == 0
  {
    if flags != [] {
      TallyNone(flags[..|flags| - 1]);
    }
  }

  // ---- refill ---------------------------------------------------------------------------------

  /** Whether a client has an item out of the queue, counting calls that have taken effect. */
  function Out(st: Status, held: bool): bool {
    if st.Answered? then st.res.Popped? else held
  }

  predicate RefillStatus(st: Status, held: bool) {
    match st
    case Idle => true
    case Called(op) => if held then op.Push? else op.Pop?
    case Answered(op, res) => if held then op.Push? && res.Pushed? else op.Pop? && (res.Popped? || res.Empty?)
  }

  function Outs(clients: seq<Status>, hold: seq<bool>): seq<bool>
    requires |clients| == |hold|
  {
    seq(|hold|, i requires 0 <= i < |hold| => Out(clients[i], hold[i]))
  }

  /** Items in the queue plus items in clients' hands make n, and nobody was refused. */
  predicate RefillInv(cap: nat, a: Object, hold: seq<bool>) {
    && |hold| == |a.clients|
    && (forall i :: 0 <= i < |hold| ==> RefillStatus(a.clients[i], hold[i]))
    && |a.queue| + Tally(Outs(a.clients, hold)) == cap
  }

  lemma RefillCommit(cap: nat, a: Object, tid: nat, b: Object, hold: seq<bool>)
    requires cap > 0 && RefillInv(cap, a, hold) && Commits(cap, a, tid, b)
    ensures RefillInv(cap, b, hold)
  {
    var outs := Outs(a.clients, hold);
    assert RefillStatus(a.clients[tid], hold[tid]);
    TallyUpdate(outs, tid, Out(b.clients[tid], hold[tid]));
    TallyUpdate(outs, tid, false);
    assert Outs(b.clients, hold) == outs[tid := Out(b.clients[tid], hold[tid])];
  }

  lemma RefillStep(cap: nat, a: Object, lbl: Label, b: Object, hold: seq<bool>)
    requires cap > 0 && RefillInv(cap, a, hold) && Next(cap, a, lbl, b) && RefillClient(hold, lbl)
    ensures RefillInv(cap, b, AfterRefill(hold, lbl))
    ensures !Refused(lbl)
  {
    match lbl
    case Invoked(tid, op) =>
      assert Outs(b.clients, hold) == Outs(a.clients, hold);
    case Replied(tid, op, res) =>
      assert RefillStatus(a.clients[tid], hold[tid]);
      assert Outs(b.clients, AfterRefill(hold, lbl)) == Outs(a.clients, hold);
    case Tau =>
      if b != a {
        var tid: nat :| Commits(cap, a, tid, b);
        RefillCommit(cap, a, tid, b, hold);
      }
  }

  lemma RefillPrefix(threads: nat, labels: seq<Label>)
    requires labels != [] && RefillTrace(threads, labels)
    ensures RefillTrace(threads, labels[..|labels| - 1])
    ensures RefillClient(HoldRefill(threads, labels[..|labels| - 1]), labels[|labels| - 1])
  {
    var prefix := labels[..|labels| - 1];
    forall i | 0 <= i < |prefix| ensures RefillClient(HoldRefill(threads, prefix[..i]), prefix[i]) {
      assert prefix[..i] == labels[..i];
    }
  }

  lemma RefillLast(cap: nat, a: Object, b: Object, threads: nat, labels: seq<Label>)
    requires cap > 0 && labels != []
    requires RefillInv(cap, a, HoldRefill(threads, labels[..|labels| - 1]))
    requires Next(cap, a, labels[|labels| - 1], b)
    requires RefillClient(HoldRefill(threads, labels[..|labels| - 1]), labels[|labels| - 1])
    ensures RefillInv(cap, b, HoldRefill(threads, labels))
    ensures !Refused(labels[|labels| - 1])
  {
    RefillStep(cap, a, labels[|labels| - 1], b, HoldRefill(threads, labels[..|labels| - 1]));
  }

  lemma {:induction false} RefillRun(cap: nat, run: seq<Object>, labels: seq<Label>, threads: nat)
    requires cap > 0 && Behaviour(cap, run, labels) && RefillTrace(threads, labels)
    requires |run[0].queue| == cap && run[0].clients == seq(threads, i => Idle)
    ensures RefillInv(cap, run[|labels|], HoldRefill(threads, labels))
    ensures forall i :: 0 <= i < |labels| ==> !Refused(labels[i])
  {
    if labels == [] {
      TallyNone(Outs(run[0].clients, HoldRefill(threads, labels)));
    } else {
      var last := |labels| - 1;
      var prefix := labels[..last];
      BehaviourPrefix(cap, run, labels);
      RefillPrefix(threads, labels);
      RefillRun(cap, run[..last + 1], prefix, threads);
      RefillLast(cap, run[last], run[last + 1], threads, labels);
    }
  }

  lemma RefillFrom(s: State, w: nat, k: nat, limit: nat, q: Words.Queue, sch: seq<Turn>)
    requires Inv(s) && Room(s.n, w, k, limit) && |s.log| + |sch| <= limit && Room(s.n, w, k, |s.log|) && q == EncState(s, w, k)
    requires AtRest(q) && Words.CountOf(q, q.tail, q.head) == s.n && RefillTrace(|s.threads|, Trace(q, sch))
    ensures forall i :: 0 <= i < |Trace(q, sch)| ==> !Refused(Trace(q, sch)[i])
  {
    DropFindsContents(s, w, k);
    IdleAtRest(s, w, k);
    assert Abs(s).clients == seq(|s.threads|, i => Idle);
    RunRefines(s, sch);
    TraceIsLabels(s, w, k, limit, sch);
    RefillRun(s.n, AbsRun(s, sch), Labels(s, sch), |s.threads|);
  }

  /** Refill.  From any state in which the queue is full and every thread is at rest, reached in
      any way whatever: as long as the threads pop before they push back, no push is refused. */
  lemma RefillNeverRefused(n: nat, w: nat, k: nat, threads: nat, fill: seq<Turn>, sch: seq<Turn>)
    requires Room(n, w, k, |fill| + |sch|)
    requires var q := Exec(Words.New(n, w, k, threads), fill);
      AtRest(q) && Words.CountOf(q, q.tail, q.head) == n
    requires RefillTrace(threads, Trace(Exec(Words.New(n, w, k, threads), fill), sch))
    ensures var labels := Trace(Exec(Words.New(n, w, k, threads), fill), sch);
      forall i :: 0 <= i < |labels| ==> !Refused(labels[i])
  {
    RoomShrinks(n, w, k, |fill|, |fill| + |sch|);
    var s := Safety.Reached(n, w, k, threads, fill);
    RefillFrom(s, w, k, |fill| + |sch|, Exec(Words.New(n, w, k, threads), fill), sch);
  }

  // ---- hand-off -----------------------------------------------------------------------------------

  /** Whether a client has an item inside the queue, counting calls that have taken effect. */
  function Inside(st: Status, held: bool): bool {
    if st.Answered? then st.res.Pushed? else held
  }

  predicate HandOffStatus(st: Status, held: bool) {
    match st
    case Idle => true
    case Called(op) => if held then op.Pop? else op.Push?
    case Answered(op, res) => if held then op.Pop? && res.Popped? else op.Push? && res.Pushed?
  }

  function Insides(clients: seq<Status>, hold: seq<bool>): seq<bool>
    requires |clients| == |hold|
  {
    seq(|hold|, i requires 0 <= i < |hold| => Inside(clients[i], hold[i]))
  }

  /** The queue holds exactly one item for every client that is between its push and its pop. */
  predicate HandOffInv(a: Object, hold: seq<bool>) {
    && |hold| == |a.clients|
    && (forall i :: 0 <= i < |hold| ==> HandOffStatus(a.clients[i], hold[i]))
    && |a.queue| == Tally(Insides(a.clients, hold))
  }

  lemma HandOffCommit(cap: nat, a: Object, tid: nat, b: Object, hold: seq<bool>)
    requires cap > 0 && HandOffInv(a, hold) && Commits(cap, a, tid, b) && |hold| <= cap
    ensures HandOffInv(b, hold)
  {
    var ins := Insides(a.clients, hold);
    assert HandOffStatus(a.clients[tid], hold[tid]);
    TallyUpdate(ins, tid, Inside(b.clients[tid], hold[tid]));
    TallyUpdate(ins, tid, false);
    TallyUpdate(ins, tid, true);
    assert Insides(b.clients, hold) == ins[tid := Inside(b.clients[tid], hold[tid])];
  }

  lemma HandOffStep(cap: nat, a: Object, lbl: Label, b: Object, hold: seq<bool>)
    requires cap > 0 && HandOffInv(a, hold) && Next(cap, a, lbl, b) && HandOffClient(hold, lbl) && |hold| <= cap
    ensures HandOffInv(b, AfterHandOff(hold, lbl))
    ensures !Refused(lbl) && !EmptyHanded(lbl)
  {
    match lbl
    case Invoked(tid, op) =>
      assert Insides(b.clients, hold) == Insides(a.clients, hold);
    case Replied(tid, op, res) =>
      assert HandOffStatus(a.clients[tid], hold[tid]);
      assert Insides(b.clients, AfterHandOff(hold, lbl)) == Insides(a.clients, hold);
    case Tau =>
      if b != a {
        var tid: nat :| Commits(cap, a, tid, b);
        HandOffCommit(cap, a, tid, b, hold);
      }
  }

  lemma HandOffPrefix(threads: nat, labels: seq<Label>)
    requires labels != [] && HandOffTrace(threads, labels)
    ensures HandOffTrace(threads, labels[..|labels| - 1])
    ensures HandOffClient(HoldHandOff(threads, labels[..|labels| - 1]), labels[|labels| - 1])
  {
    var prefix := labels[..|labels| - 1];
    forall i | 0 <= i < |prefix| ensures HandOffClient(HoldHandOff(threads, prefix[..i]), prefix[i]) {
      assert prefix[..i] == labels[..i];
    }
  }

  lemma HandOffStart(threads: nat)
    ensures HandOffInv(NewObject(threads), HoldHandOff(threads, []))
  {
    TallyNone(Insides(NewObject(threads).clients, HoldHandOff(threads, [])));
  }

  lemma HandOffLast(cap: nat, a: Object, b: Object, threads: nat, labels: seq<Label>)
    requires cap > 0 && labels != [] && threads <= cap
    requires HandOffInv(a, HoldHandOff(threads, labels[..|labels| - 1]))
    requires Next(cap, a, labels[|labels| - 1], b)
    requires HandOffClient(HoldHandOff(threads, labels[..|labels| - 1]), labels[|labels| - 1])
    ensures HandOffInv(b, HoldHandOff(threads, labels))
    ensures !Refused(labels[|labels| - 1]) && !EmptyHanded(labels[|labels| - 1])
  {
    HandOffStep(cap, a, labels[|labels| - 1], b, HoldHandOff(threads, labels[..|labels| - 1]));
  }

  lemma {:induction false} HandOffRun(cap: nat, run: seq<Object>, labels: seq<Label>, threads: nat)
    requires cap > 0 && Behaviour(cap, run, labels) && HandOffTrace(threads, labels) && threads <= cap
    requires run[0] == NewObject(threads)
    ensures HandOffInv(run[|labels|], HoldHandOff(threads, labels))
    ensures forall i :: 0 <= i < |labels| ==> !Refused(labels[i]) && !EmptyHanded(labels[i])
  {
    if labels == [] {
      HandOffStart(threads);
    } else {
      var last := |labels| - 1;
      var prefix, shorter := labels[..last], run[..last + 1];
      BehaviourPrefix(cap, run, labels);
      HandOffPrefix(threads, labels);
      assert shorter[0] == run[0] && shorter[last] == run[last];
      HandOffRun(cap, shorter, prefix, threads);
      HandOffLast(cap, run[last], run[last + 1], threads, labels);
      forall i | 0 <= i < |labels| ensures !Refused(labels[i]) && !EmptyHanded(labels[i]) {
        assert i < last ==> labels[i] == prefix[i];
      }
    }
  }

  /** Hand-off.  With at most n threads that push before they pop, on a queue that starts empty,
      no push is refused and no pop comes back empty-handed. */
  lemma HandOffNeverFails(n: nat, w: nat, k: nat, threads: nat, sch: seq<Turn>)
    requires Room(n, w, k, |sch|) && threads <= n
    requires HandOffTrace(threads, Trace(Words.New(n, w, k, threads), sch))
    ensures var labels := Trace(Words.New(n, w, k, threads), sch);
      forall i :: 0 <= i < |labels| ==> !Refused(labels[i]) && !EmptyHanded(labels[i])
  {
    RunIsBehaviour(n, w, k, threads, sch);
    HandOffRun(n, AbsRun(Init(n, threads), sch), Trace(Words.New(n, w, k, threads), sch), threads);
  }
}

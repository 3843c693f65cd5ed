/** The bounded FIFO as an atomic object: the independent specification that the
    lock-free queue is measured against.  A call goes through three moments:
    it is invoked, it takes effect in one indivisible commit on the sequence, and
    it replies.  Whatever another automaton can show at its invocations and replies
    is linearizable when this automaton can show the same. */
module Fifo {

  /** The payload type.  Nothing is assumed about it except equality. */
  type Value(==, !new)

  datatype Op =
    | Push(item: Value)
    | ForcePush(item: Value)
    | Pop
    | Len
    | IsEmpty
    | IsFull
  {
    predicate Inserts() { Push? || ForcePush? }
    predicate Observes() { Len? || IsEmpty? || IsFull? }
  }

  datatype Res =
    | Pushed
    | Full(rejected: Value)
    | Displaced(oldest: Value)
    | Popped(item: Value)
    | Empty
    | Size(count: nat)
    | Flag(answer: bool)

  /** What is visible from outside: invocations and replies; everything else is `Tau`. */
  datatype Label =
    | Invoked(tid: nat, op: Op)
    | Replied(tid: nat, op: Op, res: Res)
    | Tau

  datatype Status =
    | Idle
    | Called(op: Op)
    | Answered(op: Op, res: Res)

  datatype Object = Object(queue: seq<Value>, clients: seq<Status>)

  /** The effect of a call on a queue of capacity `cap`. */
  function Effect(cap: nat, queue: seq<Value>, op: Op): seq<Value>
    requires cap > 0
  {
    match op
    case Push(v) => if |queue| < cap then queue + [v] else queue
    case ForcePush(v) => if |queue| < cap then queue + [v] else queue[1..] + [v]
    case Pop => if queue == [] then [] else queue[1..]
    case Len => queue
    case IsEmpty => queue
    case IsFull => queue
  }

  /** The answer of a call that takes effect on `queue`.  The observers are left
      unconstrained here; module Observers says what they may answer. */
  predicate Answer(cap: nat, queue: seq<Value>, op: Op, res: Res)
    requires cap > 0
  {
    match op
    case Push(v) => res == if |queue| < cap then Pushed else Full(v)
    case ForcePush(v) => res == if |queue| < cap then Pushed else Displaced(queue[0])
    case Pop => res == if queue == [] then Empty else Popped(queue[0])
    case _ => true
  }

  /** A client's call takes effect. */
  ghost predicate Commits(cap: nat, a: Object, tid: nat, b: Object)
    requires cap > 0
  {
    && tid < |a.clients|
    && a.clients[tid].Called?
    && |b.clients| == |a.clients|
    && b.clients[tid].Answered?
    && var op := a.clients[tid].op;
    && Answer(cap, a.queue, op, b.clients[tid].res)
    && b == Object(Effect(cap, a.queue, op), a.clients[tid := Answered(op, b.clients[tid].res)])
  }

  ghost predicate Next(cap: nat, a: Object, lbl: Label, b: Object)
    requires cap > 0
  {
    match lbl
    case Invoked(tid, op) =>
      tid < |a.clients| && a.clients[tid] == Idle && b == a.(clients := a.clients[tid := Called(op)])
    case Replied(tid, op, res) =>
      tid < |a.clients| && a.clients[tid] == Answered(op, res) && b == a.(clients := a.clients[tid := Idle])
    case Tau =>
      b == a || exists tid: nat :: Commits(cap, a, tid, b)
  }

  function NewObject(clients: nat): Object { Object([], seq(clients, i => Idle)) }

  /** `run` is an execution whose visible moments are `labels`. */
  ghost predicate Behaviour(cap: nat, run: seq<Object>, labels: seq<Label>)
    requires cap > 0
  {
    && |run| == |labels| + 1
    && forall i :: 0 <= i < |labels| ==> Next(cap, run[i], labels[i], run[i + 1])
  }

  /** One more step. */
  lemma BehaviourGrows(cap: nat, run: seq<Object>, labels: seq<Label>, lbl: Label, next: Object)
    requires cap > 0 && Behaviour(cap, run, labels) && Next(cap, run[|labels|], lbl, next)
    ensures Behaviour(cap, run + [next], labels + [lbl])
  {
    var run', labels' := run + [next], labels + [lbl];
    forall i | 0 <= i < |labels'| ensures Next(cap, run'[i], labels'[i], run'[i + 1]) {
      if i < |labels| {
        assert run'[i] == run[i] && run'[i + 1] == run[i + 1] && labels'[i] == labels[i];
      }
    }
  }

  /** One step less. */
  lemma BehaviourPrefix(cap: nat, run: seq<Object>, labels: seq<Label>)
    requires cap > 0 && labels != [] && Behaviour(cap, run, labels)
    ensures Behaviour(cap, run[..|labels|], labels[..|labels| - 1])
    ensures Next(cap, run[|labels| - 1], labels[|labels| - 1], run[|labels|])
  {
    var run', labels' := run[..|labels|], labels[..|labels| - 1];
    forall i | 0 <= i < |labels'| ensures Next(cap, run'[i], labels'[i], run'[i + 1]) {
      assert Next(cap, run[i], labels[i], run[i + 1]);
    }
  }
}

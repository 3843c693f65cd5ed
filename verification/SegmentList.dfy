/** The segment list of third-party/lfqueue/src/lfstd.rs used by one caller at a time: a linked list of
    finalizable bounded queues is an unbounded FIFO.  With one caller a compare-exchange on a pointer
    succeeds and the tail pointer is never behind. */
module SegmentList {
  import opened Options
  import opened BoundedQueue

  // ---- the values of a list of segments ---------------------------------------------------------------

  function Flat(parts: seq<seq<Value>>): seq<Value> {
    if parts == [] then [] else parts[0] + Flat(parts[1..])
  }

  lemma {:induction false} FlatAppend(parts: seq<seq<Value>>, last: seq<Value>)
    ensures Flat(parts + [last]) == Flat(parts) + last
  {
    if parts == [] {
      assert parts + [last] == [last];
      assert Flat([last]) == last + Flat([]);
    } else {
      assert (parts + [last])[1..] == parts[1..] + [last];
      FlatAppend(parts[1..], last);
    }
  }

  /** A value added to the last segment is added at the end. */
  lemma FlatGrows(parts: seq<seq<Value>>, v: Value)
    requires parts != []
    ensures Flat(parts[|parts| - 1 := parts[|parts| - 1] + [v]]) == Flat(parts) + [v]
  {
    var front, last := parts[..|parts| - 1], parts[|parts| - 1];
    assert parts == front + [last];
    assert parts[|parts| - 1 := last + [v]] == front + [last + [v]];
    FlatAppend(front, last);
    FlatAppend(front, last + [v]);
  }

  lemma FlatHead(parts: seq<seq<Value>>)
    requires parts != []
    ensures Flat(parts) == parts[0] + Flat(parts[1..])
    ensures |parts| == 1 ==> Flat(parts) == parts[0]
  {
  }

  // ---- segments ---------------------------------------------------------------------------------------

  /** Mentioned where a proof has to look inside a segment, and nowhere else. */
  predicate Look(u: nat) { true }

  class Segment {
    const value: Bounded
    var next: Segment?

    ghost function Footprint(): set<object> { {this} + value.repr }

    /** The segment holds these values and is followed by that segment. */
    ghost predicate Holds(part: seq<Value>, size: nat, successor: Segment?)
      reads Footprint()
    {
      && this !in value.repr && next == successor
      && (forall u: nat {:trigger Look(u)} :: Look(u) ==>
            value.Valid() && value.Contents() == part && value.Capacity() == size)
    }

    constructor (size: nat)
      requires size > 0
      ensures fresh(Footprint()) && Holds([], size, null) && !value.alloc.finalized
    {
      value := new Bounded(size, true);
      next := null;
    }

    /** A segment takes the element or gives it back. */
    method Push(element: Value, finalize: bool, ghost part: seq<Value>, ghost size: nat) returns (r: Enqueued)
      requires Holds(part, size, next)
      modifies value.repr
      ensures Holds(if r.Accepted? then part + [element] else part, size, next) && next == old(next)
      ensures r.Rejected? ==> r.item == element
      ensures part == [] && size > 0 && !old(value.alloc.finalized) ==> r.Accepted?
    {
      assert Look(0);
      r := value.EnqueueCycle(element, finalize);
    }

    method Pop(ghost part: seq<Value>, ghost size: nat) returns (r: Option<Value>)
      requires Holds(part, size, next)
      modifies value.repr
      ensures Holds(if part == [] then [] else part[1..], size, next) && next == old(next)
      ensures r == if part == [] then None else Some(part[0])
    {
      assert Look(0);
      r := value.Dequeue();
    }

    /** The threshold of an empty segment is reset, and the segment is asked once more, in vain. */
    method Retry(ghost size: nat)
      requires Holds([], size, next)
      modifies value.repr
      ensures Holds([], size, next) && next == old(next)
    {
      assert Look(0);
      value.ResetThreshold();
      var again := value.Dequeue();
      assert again == None;
    }

    /** Drop: the values of the segment are dropped, oldest first. */
    method Discard(ghost part: seq<Value>, ghost size: nat) returns (dropped: seq<Value>)
      requires Holds(part, size, next)
      modifies value.repr
      ensures dropped == part
    {
      assert Look(0);
      dropped := value.Drop();
    }

    method Link(successor: Segment, ghost part: seq<Value>, ghost size: nat)
      requires Holds(part, size, null)
      modifies this`next
      ensures Holds(part, size, successor)
    {
      next := successor;
    }
  }

  // ---- chains of segments -------------------------------------------------------------------------------

  ghost function Foot(spine: seq<Segment>): set<object> {
    if spine == [] then {} else spine[0].Footprint() + Foot(spine[1..])
  }

  /** Segments linked one to the next and the last one to `after`, sharing nothing, with these values. */
  ghost predicate Chain(spine: seq<Segment>, parts: seq<seq<Value>>, size: nat, after: Segment?)
    reads Foot(spine)
    decreases |spine|
  {
    && |parts| == |spine|
    && (spine != [] ==>
          && spine[0].Holds(parts[0], size, if |spine| > 1 then spine[1] else after)
          && spine[0].Footprint() !! Foot(spine[1..]) && Chain(spine[1..], parts[1..], size, after))
  }

  lemma {:induction false} FootSplit(a: seq<Segment>, b: seq<Segment>)
    ensures Foot(a + b) == Foot(a) + Foot(b)
  {
    if a == [] {
      assert a + b == b;
    } else {
      assert (a + b)[1..] == a[1..] + b;
      FootSplit(a[1..], b);
    }
  }

  /** A chain is cut anywhere. */
  lemma {:induction false} ChainCut(a: seq<Segment>, pa: seq<seq<Value>>, b: seq<Segment>, pb: seq<seq<Value>>, size: nat, after: Segment?)
    requires |a| == |pa| && |b| == |pb| && b != [] && Chain(a + b, pa + pb, size, after)
    ensures Chain(a, pa, size, b[0]) && Chain(b, pb, size, after) && Foot(a) !! Foot(b)
  {
    if a == [] {
      assert a + b == b && pa + pb == pb;
    } else {
      var ab, pab := a + b, pa + pb;
      assert ab[1..] == a[1..] + b && pab[1..] == pa[1..] + pb && ab[0] == a[0] && pab[0] == pa[0];
      assert ab[1] == if |a| > 1 then a[1] else b[0];
      FootSplit(a[1..], b);
      ChainCut(a[1..], pa[1..], b, pb, size, after);
    }
  }

  /** A segment in front of a chain. */
  lemma ChainCons(spine: seq<Segment>, parts: seq<seq<Value>>, size: nat, after: Segment?)
    requires spine != [] && |parts| == |spine| && spine[0].Holds(parts[0], size, if |spine| > 1 then spine[1] else after)
    requires Chain(spine[1..], parts[1..], size, after) && spine[0].Footprint() !! Foot(spine[1..])
    ensures Chain(spine, parts, size, after)
  {
  }

  /** Two chains are joined. */
  lemma {:induction false} ChainJoin(a: seq<Segment>, pa: seq<seq<Value>>, b: seq<Segment>, pb: seq<seq<Value>>, size: nat, after: Segment?)
    requires |a| == |pa| && |b| == |pb| && b != []
    requires Chain(a, pa, size, b[0]) && Chain(b, pb, size, after) && Foot(a) !! Foot(b)
    ensures Chain(a + b, pa + pb, size, after)
  {
    if a == [] {
      assert a + b == b && pa + pb == pb;
    } else {
      var ab, pab := a + b, pa + pb;
      assert ab[1..] == a[1..] + b && pab[1..] == pa[1..] + pb && ab[0] == a[0] && pab[0] == pa[0];
      assert ab[1] == if |a| > 1 then a[1] else b[0];
      FootSplit(a[1..], b);
      ChainJoin(a[1..], pa[1..], b, pb, size, after);
      ChainCons(ab, pab, size, after);
    }
  }

  /** A chain and one more segment. */
  lemma ChainSnoc(front: seq<Segment>, pf: seq<seq<Value>>, s: Segment, part: seq<Value>, size: nat, after: Segment?)
    requires Chain(front, pf, size, s) && s.Holds(part, size, after) && Foot(front) !! s.Footprint()
    ensures Chain(front + [s], pf + [part], size, after) && Foot(front + [s]) == Foot(front) + s.Footprint()
  {
    assert Foot([s]) == s.Footprint();
    FootSplit(front, [s]);
    ChainJoin(front, pf, [s], [part], size, after);
  }

  lemma Joined(front: seq<Segment>, pf: seq<seq<Value>>, s: Segment, part: seq<Value>, t: Segment, added: seq<Value>, size: nat)
    requires Chain(front, pf, size, s) && s.Holds(part, size, t) && t.Holds(added, size, null)
    requires Foot(front) !! s.Footprint() && (Foot(front) + s.Footprint()) !! t.Footprint()
    ensures Chain(front + [s] + [t], pf + [part] + [added], size, null)
    ensures Foot(front + [s] + [t]) == Foot(front) + s.Footprint() + t.Footprint()
  {
    ChainSnoc(front, pf, s, part, size, t);
    ChainSnoc(front + [s], pf + [part], t, added, size, null);
  }

  method FirstSegment(size: nat, element: Value) returns (s: Segment)
    requires size > 0
    ensures fresh(s.Footprint()) && s.Holds([element], size, null)
  {
    s := new Segment(size);
    var accepted := s.Push(element, false, [], size);
    assert accepted.Accepted?;
  }

  // ---- the queue ------------------------------------------------------------------------------------------

  /** The segments from head to tail, the values in each, and the objects they consist of. */
  datatype List = List(spine: seq<Segment>, parts: seq<seq<Value>>, repr: set<object>)

  class Unbounded {
    const size: nat
    var head: Segment
    var tail: Segment
    ghost var list: List

    ghost predicate Valid()
      reads this, list.repr
    {
      && size > 0 && this !in list.repr && Foot(list.spine) <= list.repr
      && list.spine != [] && head == list.spine[0] && tail == list.spine[|list.spine| - 1]
      && Chain(list.spine, list.parts, size, null)
    }

    ghost function Contents(): seq<Value>
      reads this
    {
      Flat(list.parts)
    }

    constructor (size: nat)
      requires size > 0
      ensures Valid() && fresh(list.repr) && Contents() == []
    {
      this.size := size;
      var s := new Segment(size);
      head, tail := s, s;
      list := List([s], [[]], s.Footprint());
      new;
      assert Foot([s]) == s.Footprint();
    }

    /** The chain up to its last segment, and the last segment. */
    lemma LastSegment(l: List)
      requires Valid() && l == list
      ensures var n := |l.spine| - 1;
        && |l.parts| == |l.spine| && l.spine == l.spine[..n] + [tail] && l.parts == l.parts[..n] + [l.parts[n]]
        && Chain(l.spine[..n], l.parts[..n], size, tail) && tail.Holds(l.parts[n], size, null)
        && Foot(l.spine[..n]) !! tail.Footprint() && Foot(l.spine) == Foot(l.spine[..n]) + tail.Footprint()
    {
      var n := |l.spine| - 1;
      assert l.spine == l.spine[..n] + [tail] && l.parts == l.parts[..n] + [l.parts[n]];
      ChainCut(l.spine[..n], l.parts[..n], [tail], [l.parts[n]], size, null);
      FootSplit(l.spine[..n], [tail]);
      assert Foot([tail]) == tail.Footprint();
    }

    /** enqueue: every value is taken, at the end. */
    method Enqueue(element: Value)
      requires Valid()
      modifies this, list.repr
      ensures Valid() && fresh(list.repr - old(list.repr)) && Contents() == old(Contents()) + [element]
    {
      EndsInside();
      FlatGrows(list.parts, element);
      FlatAppend(list.parts, [element]);
      var r := PushTail(element);
      if r.Rejected? {
        Append(r.item);
      }
    }

    lemma EndsInside()
      requires Valid()
      ensures head.Footprint() <= list.repr && tail.Footprint() <= list.repr && 0 < |list.parts| == |list.spine|
      ensures head.next == null ==> |list.spine| == 1
    {
      LastSegment(list);
      FirstOfAll(list);
    }

    /** The tail segment takes the element, or everything stays as it is. */
    method PushTail(element: Value) returns (r: Enqueued)
      requires Valid()
      modifies tail.value.repr, this`list
      ensures Valid() && list.spine == old(list.spine) && list.repr == old(list.repr)
      ensures var parts := old(list.parts); var n := |parts| - 1;
        list.parts == if r.Accepted? then parts[n := parts[n] + [element]] else parts
      ensures r.Rejected? ==> r.item == element
    {
      ghost var spine, parts := list.spine, list.parts;
      ghost var n := |spine| - 1;
      LastSegment(list);
      r := PushLast(tail, element, spine[..n], parts[..n], parts[n]);
      ghost var now := if r.Accepted? then parts[n] + [element] else parts[n];
      assert parts[n := now] == parts[..n] + [now];
      Record(List(spine, parts[n := now], list.repr));
    }

    method PushLast(cq: Segment, element: Value, ghost front: seq<Segment>, ghost pf: seq<seq<Value>>, ghost last: seq<Value>)
      returns (r: Enqueued)
      requires Chain(front, pf, size, cq) && cq.Holds(last, size, null) && Foot(front) !! cq.Footprint()
      requires Foot(front) + cq.Footprint() <= list.repr && this !in list.repr
      modifies cq.value.repr
      ensures Chain(front + [cq], pf + [if r.Accepted? then last + [element] else last], size, null)
      ensures r.Rejected? ==> r.item == element
    {
      r := cq.Push(element, true, last, size);
      assert Chain(front, pf, size, cq);
      ChainSnoc(front, pf, cq, if r.Accepted? then last + [element] else last, size, null);
    }

    /** The ghost list is brought up to date. */
    ghost method Record(l: List)
      requires size > 0 && l.spine != [] && head == l.spine[0] && tail == l.spine[|l.spine| - 1]
      requires this !in l.repr && Foot(l.spine) <= l.repr && Chain(l.spine, l.parts, size, null)
      modifies this`list
      ensures Valid() && list == l
    {
      list := l;
    }

    /** A new segment with one value is linked behind the last one. */
    method Append(element: Value)
      requires Valid()
      modifies this, tail
      ensures Valid() && fresh(list.repr - old(list.repr)) && list.parts == old(list.parts) + [[element]]
    {
      var ncq := FirstSegment(size, element);
      LinkTail(ncq, [element]);
      Install(ncq, [element]);
    }

    method LinkTail(ncq: Segment, ghost added: seq<Value>)
      requires Valid() && ncq.Holds(added, size, null) && ncq.Footprint() !! list.repr
      modifies tail`next
      ensures ncq.Holds(added, size, null)
      ensures Chain(list.spine + [ncq], list.parts + [added], size, null)
      ensures Foot(list.spine + [ncq]) == Foot(list.spine) + ncq.Footprint()
    {
      ghost var spine, parts := list.spine, list.parts;
      ghost var n := |spine| - 1;
      LastSegment(list);
      tail.Link(ncq, parts[n], size);
      Joined(spine[..n], parts[..n], tail, parts[n], ncq, added, size);
    }

    /** The tail pointer moves to a segment that is linked already. */
    method Install(ncq: Segment, ghost added: seq<Value>)
      requires size > 0 && list.spine != [] && head == list.spine[0]
      requires this !in list.repr + ncq.Footprint() && Foot(list.spine + [ncq]) <= list.repr + ncq.Footprint()
      requires Chain(list.spine + [ncq], list.parts + [added], size, null)
      modifies this
      ensures Valid() && list == old(List(list.spine + [ncq], list.parts + [added], list.repr + ncq.Footprint()))
    {
      tail := ncq;
      list := List(list.spine + [ncq], list.parts + [added], list.repr + ncq.Footprint());
    }

    /** dequeue: the oldest value, or nothing exactly when no segment holds any. */
    method Dequeue() returns (r: Option<Value>)
      requires Valid()
      modifies this, list.repr
      ensures Valid() && list.repr == old(list.repr)
      ensures r == if old(Contents()) == [] then None else Some(old(Contents())[0])
      ensures Contents() == if old(Contents()) == [] then [] else old(Contents())[1..]
    {
      r := None;
      var done := false;
      while !done
        invariant Valid() && list.repr == old(list.repr)
        invariant !done ==> Contents() == old(Contents())
        invariant done ==> r == if old(Contents()) == [] then None else Some(old(Contents())[0])
        invariant done ==> Contents() == if old(Contents()) == [] then [] else old(Contents())[1..]
        decreases !done, |list.spine|
      {
        r, done := Attempt();
      }
    }

    /** One round: the head segment gives a value, or is the last one, or is left behind. */
    method Attempt() returns (r: Option<Value>, done: bool)
      requires Valid()
      modifies this, list.repr
      ensures Valid() && list.repr == old(list.repr)
      ensures done ==> r == if old(Contents()) == [] then None else Some(old(Contents())[0])
      ensures done ==> Contents() == if old(Contents()) == [] then [] else old(Contents())[1..]
      ensures !done ==> Contents() == old(Contents()) && |list.spine| < old(|list.spine|)
    {
      EndsInside();
      FlatHead(list.parts);
      r := PopHead();
      EndsInside();
      FlatHead(list.parts);
      done := r.Some? || head.next == null;
      if !done {
        Retire();
      }
    }

    /** The head segment, and the chain behind it. */
    lemma FirstOfAll(l: List)
      requires Valid() && l == list
      ensures |l.parts| == |l.spine| && head.Holds(l.parts[0], size, if |l.spine| > 1 then l.spine[1] else null)
      ensures Chain(l.spine[1..], l.parts[1..], size, null) && head.Footprint() !! Foot(l.spine[1..])
      ensures Foot(l.spine) == head.Footprint() + Foot(l.spine[1..])
    {
    }

    /** The head segment is asked. */
    method PopHead() returns (r: Option<Value>)
      requires Valid()
      modifies head.value.repr, this`list
      ensures Valid() && list.spine == old(list.spine) && list.repr == old(list.repr)
      ensures var first := old(list.parts)[0];
        && r == (if first == [] then None else Some(first[0]))
        && list.parts == [if first == [] then [] else first[1..]] + old(list.parts)[1..]
    {
      ghost var spine, parts := list.spine, list.parts;
      FirstOfAll(list);
      r := head.Pop(parts[0], size);
      ghost var first := if parts[0] == [] then [] else parts[0][1..];
      ChainCons(spine, [first] + parts[1..], size, null);
      Record(List(spine, [first] + parts[1..], list.repr));
    }

    /** An empty head segment with a successor is asked once more and left behind. */
    method Retire()
      requires Valid() && list.parts[0] == [] && head.next != null
      modifies head.value.repr, this
      ensures Valid() && list == List(old(list.spine)[1..], old(list.parts)[1..], old(list.repr))
    {
      ghost var spine, parts := list.spine, list.parts;
      FirstOfAll(list);
      head.Retry(size);
      head := head.next;
      Record(List(spine[1..], parts[1..], list.repr));
    }

    /** Drop: all segments are walked and every value in them is dropped, oldest first. */
    method Drop() returns (dropped: seq<Value>)
      requires Valid()
      modifies list.repr
      ensures dropped == old(Contents())
    {
      dropped := [];
      var next: Segment? := head;
      ghost var spine, parts := list.spine, list.parts;
      while next != null
        invariant list == old(list) && Chain(spine, parts, size, null) && Foot(spine) <= list.repr
        invariant next == if spine == [] then null else spine[0]
        invariant dropped + Flat(parts) == old(Contents())
        decreases |spine|
      {
        FlatHead(parts);
        var temp := next;
        next := temp.next;
        var d := temp.Discard(parts[0], size);
        dropped := dropped + d;
        spine, parts := spine[1..], parts[1..];
      }
    }
  }
}

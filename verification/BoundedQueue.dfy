/** The two-ring bounded queue of third-party/lfqueue/src/scq.rs used by one caller at a time: a FIFO
    of capacity 2^order that refuses exactly when it is full or finalized. */
module BoundedQueue {
  import opened Options
  import opened ScqRing
  import opened IndexRing
  import Fifo

  type Value = Fifo.Value
  type Slots = seq<Option<Value>>

  datatype QueueError = QueueFull | QueueFinalized

  datatype Enqueued = Accepted | Rejected(item: Value, error: QueueError)

  // ---- how values lie in the backing array -----------------------------------------------------------

  predicate Distinct(s: seq<nat>) { forall i, j :: 0 <= i < j < |s| ==> s[i] != s[j] }

  /** Every index below `half` is in exactly one of the two, and its slot is filled exactly when it is
      allocated. */
  predicate Kept(half: nat, free: seq<nat>, alloc: seq<nat>, slots: Slots) {
    && |free| + |alloc| == half && |slots| == 2 * half && Distinct(free) && Distinct(alloc)
    && (forall i :: 0 <= i < |free| ==> free[i] < half && free[i] !in alloc && slots[free[i]] == None)
    && (forall i :: 0 <= i < |alloc| ==> alloc[i] < half && alloc[i] !in free && slots[alloc[i]].Some?)
    && (forall i :: 0 <= i < |slots| ==> (slots[i].Some? <==> i in alloc))
  }

  function Values(slots: Slots, alloc: seq<nat>): (s: seq<Value>)
    requires forall i :: 0 <= i < |alloc| ==> alloc[i] < |slots| && slots[alloc[i]].Some?
    ensures |s| == |alloc|
  {
    seq(|alloc|, i requires 0 <= i < |alloc| => slots[alloc[i]].value)
  }

  /** The first free index is filled and appended to the allocated ones. */
  lemma KeptPut(half: nat, free: seq<nat>, alloc: seq<nat>, slots: Slots, item: Value)
    requires Kept(half, free, alloc, slots) && free != []
    ensures free[0] < half && slots[free[0]] == None
    ensures var slots' := slots[free[0] := Some(item)];
      && Kept(half, free[1..], alloc + [free[0]], slots')
      && Values(slots', alloc + [free[0]]) == Values(slots, alloc) + [item]
  {
  }

  /** The first allocated index is emptied and appended to the free ones. */
  lemma KeptTake(half: nat, free: seq<nat>, alloc: seq<nat>, slots: Slots)
    requires Kept(half, free, alloc, slots) && alloc != []
    ensures alloc[0] < half && slots[alloc[0]] == Some(Values(slots, alloc)[0])
    ensures var slots' := slots[alloc[0] := None];
      && Kept(half, free + [alloc[0]], alloc[1..], slots')
      && Values(slots', alloc[1..]) == Values(slots, alloc)[1..]
  {
  }

  /** A free index goes back to the end of the free ones. */
  lemma KeptRotate(half: nat, free: seq<nat>, alloc: seq<nat>, slots: Slots)
    requires Kept(half, free, alloc, slots) && free != []
    ensures Kept(half, free[1..] + [free[0]], alloc, slots)
  {
  }

  lemma KeptNew(half: nat, slots: Slots)
    requires |slots| == 2 * half && forall i :: 0 <= i < |slots| ==> slots[i] == None
    ensures Kept(half, UpTo(half), [], slots)
  {
  }

  class Bounded {
    const free: Indices
    const alloc: Indices
    const backing: array<Option<Value>>
    var used: int

    /** The objects the queue consists of. */
    ghost const repr: set<object>

    function Capacity(): nat { free.half }

    ghost predicate Shape()
      reads repr
    {
      && this in repr && free in repr && alloc in repr && free.entries in repr && alloc.entries in repr && backing in repr
      && free != alloc && free.entries != alloc.entries && free.Valid() && alloc.Valid()
      && free.half == alloc.half && !free.finalized
    }

    ghost predicate Valid()
      reads repr
    {
      Shape() && used == |alloc.contents| && Kept(free.half, free.contents, alloc.contents, backing[..])
    }

    /** The values in the queue, oldest first. */
    ghost function Contents(): (s: seq<Value>)
      reads repr
      requires Valid()
      ensures |s| == |alloc.contents| <= Capacity()
    {
      Values(backing[..], alloc.contents)
    }

    constructor (half: nat, finalizable: bool)
      requires half > 0
      ensures Valid() && fresh(repr) && Contents() == []
      ensures Capacity() == half && alloc.finalizable == finalizable && !alloc.finalized
      ensures alloc.tail == alloc.head
    {
      var a := new Indices.Empty(half, finalizable);
      var f := new Indices.Full(half, finalizable);
      var b := new Option<Value>[2 * half](i => None);
      alloc, free, backing, used := a, f, b, 0;
      repr := {this, f, a, f.entries, a.entries, b};
      new;
      KeptNew(half, backing[..]);
    }

    /** enqueue_cycle: a full queue refuses, a finalized one refuses, any other takes the item.  With
        `finalize` the queue is finalized by the item that fills it.  A refusal by finalization leaves
        one ticket of the allocated ring unfilled. */
    method EnqueueCycle(item: Value, finalize: bool) returns (r: Enqueued)
      requires Valid()
      modifies repr
      ensures Valid()
      ensures r == if old(|Contents()| == Capacity()) then Rejected(item, QueueFull)
                   else if old(alloc.finalized) then Rejected(item, QueueError.QueueFinalized)
                   else Accepted
      ensures Contents() == if r.Accepted? then old(Contents()) + [item] else old(Contents())
      ensures alloc.finalized ==
        (old(alloc.finalized) || (r.Accepted? && finalize && alloc.finalizable && |Contents()| == Capacity()))
      ensures r == Rejected(item, QueueError.QueueFinalized) && old(alloc.tail == alloc.head + |alloc.contents|) ==>
        alloc.tail == old(alloc.tail) + 1 && alloc.head == old(alloc.head)
    {
      var size := used;
      used := used + 1;
      if size >= Capacity() {
        used := used - 1;
        return Rejected(item, QueueFull);
      }
      ghost var spare := free.contents;
      var pos := free.Dequeue();
      // With one caller the free ring is never empty here, so that the second refusal never happens.
      assert pos == Some(spare[0]) && spare == [pos.value] + free.contents;
      r := Publish(item, pos.value, spare);
      if r.Accepted? && finalize && size + 1 >= Capacity() {
        alloc.Finalize();
      }
    }

    /** The item is written into the slot of the free index `pos`, which goes to the allocated ring, or
        back to the free ring when that one is finalized. */
    method Publish(item: Value, pos: nat, ghost spare: seq<nat>) returns (r: Enqueued)
      requires Shape() && used == |alloc.contents| + 1 && spare == [pos] + free.contents
      requires Kept(Capacity(), spare, alloc.contents, backing[..])
      modifies repr
      ensures Valid() && alloc.finalized == old(alloc.finalized)
      ensures r == if alloc.finalized then Rejected(item, QueueError.QueueFinalized) else Accepted
      ensures Contents() == old(Values(backing[..], alloc.contents)) + (if r.Accepted? then [item] else [])
      ensures r.Rejected? && old(alloc.tail == alloc.head + |alloc.contents|) ==>
        alloc.tail == old(alloc.tail) + 1 && alloc.head == old(alloc.head)
    {
      KeptPut(Capacity(), spare, alloc.contents, backing[..], item);
      backing[pos] := Some(item);
      var out := alloc.Enqueue(pos);
      if out.Stored? {
        return Accepted;
      }
      used := used - 1;
      var back := backing[pos].value;
      backing[pos] := None;
      KeptRotate(Capacity(), spare, alloc.contents, old(backing[..]));
      var returned := free.Enqueue(pos);
      assert returned.Stored?;
      assert backing[..] == old(backing[..]);
      return Rejected(back, QueueError.QueueFinalized);
    }

    /** enqueue: never finalizes. */
    method Enqueue(item: Value) returns (r: Enqueued)
      requires Valid()
      modifies repr
      ensures Valid() && alloc.finalized == old(alloc.finalized)
      ensures r == if old(|Contents()| == Capacity()) then Rejected(item, QueueFull)
                   else if old(alloc.finalized) then Rejected(item, QueueError.QueueFinalized)
                   else Accepted
      ensures Contents() == if r.Accepted? then old(Contents()) + [item] else old(Contents())
    {
      r := EnqueueCycle(item, false);
    }

    /** dequeue: the oldest value, or nothing exactly when the queue is empty. */
    method Dequeue() returns (r: Option<Value>)
      requires Valid()
      modifies repr
      ensures Valid() && alloc.finalized == old(alloc.finalized)
      ensures r == if old(Contents()) == [] then None else Some(old(Contents())[0])
      ensures Contents() == if old(Contents()) == [] then [] else old(Contents())[1..]
    {
      if alloc.contents != [] {
        KeptTake(Capacity(), free.contents, alloc.contents, backing[..]);
      }
      var pos := alloc.Dequeue();
      if pos.None? {
        return None;
      }
      used := used - 1;
      var value := backing[pos.value].value;
      backing[pos.value] := None;
      var returned := free.Enqueue(pos.value);
      assert returned.Stored?;
      return Some(value);
    }

    /** The segment list's store into the threshold of the allocated ring. */
    method ResetThreshold()
      requires Valid()
      modifies alloc`threshold
      ensures Valid() && Contents() == old(Contents()) && alloc.threshold == 3 * (2 * Capacity()) - 1
    {
      alloc.threshold := 3 * (2 * Capacity()) - 1;
    }

    /** Drop: every value still in the queue is dropped, oldest first, and nothing else. */
    method Drop() returns (dropped: seq<Value>)
      requires Valid()
      modifies repr
      ensures dropped == old(Contents()) && alloc.contents == []
      ensures forall i :: 0 <= i < backing.Length ==> backing[i] == None
    {
      dropped := [];
      ghost var spare := free.contents;
      var more := true;
      while more
        invariant alloc.Valid() && Kept(Capacity(), spare, alloc.contents, backing[..])
        invariant dropped + Values(backing[..], alloc.contents) == old(Contents())
        invariant !more ==> alloc.contents == []
        modifies alloc, alloc.entries, backing
        decreases |alloc.contents|, more
      {
        var v;
        v, spare := DropNext(spare);
        more := v.Some?;
        if more {
          dropped := dropped + [v.value];
        }
      }
      AllEmpty(Capacity(), spare, backing[..]);
    }

    /** The next index is taken from the allocated ring and its value is dropped. */
    method DropNext(ghost spare: seq<nat>) returns (v: Option<Value>, ghost spare': seq<nat>)
      requires alloc.Valid() && Kept(Capacity(), spare, alloc.contents, backing[..])
      modifies alloc, alloc.entries, backing
      ensures alloc.Valid() && Kept(Capacity(), spare', alloc.contents, backing[..])
      ensures old(alloc.contents) == [] ==> v == None && alloc.contents == [] && backing[..] == old(backing[..])
      ensures old(alloc.contents) != [] ==>
        && alloc.contents == old(alloc.contents)[1..] && v == Some(old(Values(backing[..], alloc.contents))[0])
        && Values(backing[..], alloc.contents) == old(Values(backing[..], alloc.contents))[1..]
    {
      if alloc.contents != [] {
        KeptTake(Capacity(), spare, alloc.contents, backing[..]);
      }
      var inner := alloc.Dequeue();
      if inner.None? {
        return None, spare;
      }
      v, spare' := backing[inner.value], spare + [inner.value];
      backing[inner.value] := None;
    }
  }

  lemma AllEmpty(half: nat, free: seq<nat>, slots: Slots)
    requires Kept(half, free, [], slots)
    ensures forall i :: 0 <= i < |slots| ==> slots[i] == None
    ensures Values(slots, []) == []
  {
  }
}

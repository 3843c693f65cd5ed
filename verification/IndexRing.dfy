/** The SCQ index ring of third-party/lfqueue/src/scq.rs used by one caller at a time: it is a FIFO of
    indices.  Entries are the records that PackedEntries packs into words.  With one caller a
    compare-exchange finds what was just loaded, so that it succeeds. */
module IndexRing {
  import opened Options
  import opened Arithmetic
  import opened ScqRing

  // ---- how a FIFO of indices lies in the array ------------------------------------------------------

  /** An empty entry belongs to a ticket that is over; any other holds the index of its ticket. */
  predicate EntryFits(half: nat, head: nat, contents: seq<nat>, e: Entry, slot: nat)
    requires half > 0
  {
    && e.safe && e.turn % (2 * half) == slot
    && (if e.index == Nil(half) then e.turn < head
        else head <= e.turn < head + |contents| && e.index == contents[e.turn - head])
  }

  predicate TicketFits(half: nat, head: nat, contents: seq<nat>, es: seq<Entry>, i: nat)
    requires half > 0 && |es| == 2 * half && i < |contents|
  {
    contents[i] < half && es[(head + i) % (2 * half)].turn == head + i
  }

  /** The ring holds exactly `contents`, at the tickets from `head` on. */
  predicate Laid(half: nat, head: nat, contents: seq<nat>, es: seq<Entry>) {
    && half > 0 && |es| == 2 * half && |contents| <= 2 * half
    && (forall s :: 0 <= s < |es| ==> EntryFits(half, head, contents, es[s], s))
    && (forall i :: 0 <= i < |contents| ==> TicketFits(half, head, contents, es, i))
  }

  /** The slot after the contents is empty, and so is every slot when there is nothing. */
  lemma LaidFree(half: nat, head: nat, contents: seq<nat>, es: seq<Entry>, t: nat)
    requires Laid(half, head, contents, es) && |contents| < 2 * half && t >= head + |contents|
    requires t % (2 * half) == (head + |contents|) % (2 * half)
    ensures es[t % (2 * half)].index == Nil(half) && es[t % (2 * half)].turn < head && es[t % (2 * half)].safe
  {
    var e := es[t % (2 * half)];
    assert EntryFits(half, head, contents, e, t % (2 * half));
    if e.index != Nil(half) {
      SameSlotGap(2 * half, e.turn, head + |contents|);
    }
  }

  lemma LaidPut(half: nat, head: nat, contents: seq<nat>, es: seq<Entry>, i: nat)
    requires Laid(half, head, contents, es) && |contents| < 2 * half && i < half
    ensures var t := head + |contents|;
      Laid(half, head, contents + [i], es[t % (2 * half) := Placed(t, i)])
  {
    var t, n := head + |contents|, 2 * half;
    var contents', es' := contents + [i], es[t % n := Placed(t, i)];
    forall s | 0 <= s < |es| ensures EntryFits(half, head, contents', es'[s], s) {
      assert EntryFits(half, head, contents, es[s], s);
    }
    forall j | 0 <= j < |contents'| ensures TicketFits(half, head, contents', es', j) {
      if j < |contents| {
        assert TicketFits(half, head, contents, es, j);
        if (head + j) % n == t % n {
          SameSlotGap(n, head + j, t);
        }
      }
    }
  }

  lemma LaidTake(half: nat, head: nat, contents: seq<nat>, es: seq<Entry>)
    requires Laid(half, head, contents, es) && contents != []
    ensures var e := es[head % (2 * half)];
      && e.turn == head && e.index == contents[0] < half
      && Laid(half, head + 1, contents[1..], es[head % (2 * half) := Consumed(half, e)])
  {
    var n := 2 * half;
    var e := es[head % n];
    assert TicketFits(half, head, contents, es, 0);
    assert EntryFits(half, head, contents, e, head % n);
    var es' := es[head % n := Consumed(half, e)];
    forall s | 0 <= s < |es| ensures EntryFits(half, head + 1, contents[1..], es'[s], s) {
      assert EntryFits(half, head, contents, es[s], s);
    }
    var rest, next := contents[1..], head + 1;
    forall j: nat | j < |rest| ensures TicketFits(half, next, rest, es', j) {
      assert TicketFits(half, head, contents, es, j + 1);
    }
  }

  lemma LaidSkip(half: nat, head: nat, es: seq<Entry>)
    requires Laid(half, head, [], es)
    ensures var e := es[head % (2 * half)];
      && e.index == Nil(half) && e.turn < head && e.safe
      && Laid(half, head + 1, [], es[head % (2 * half) := Advanced(half, e, head)])
  {
    LaidFree(half, head, [], es, head);
    var es' := es[head % (2 * half) := Advanced(half, es[head % (2 * half)], head)];
    forall s | 0 <= s < |es| ensures EntryFits(half, head + 1, [], es'[s], s) {
      assert EntryFits(half, head, [], es[s], s);
    }
  }

  /** 0, 1, ..., k - 1 */
  function UpTo(k: nat): (s: seq<nat>)
    ensures |s| == k && forall i :: 0 <= i < k ==> s[i] == i
  {
    seq(k, i requires i >= 0 => i)
  }

  lemma LaidNew(half: nat)
    requires half > 0
    ensures Laid(half, 0, [], EmptyRing(half, false, 0).entries)
    ensures Laid(half, 0, UpTo(half), FullRing(half, false, 0).entries)
  {
    forall s | 0 <= s < 2 * half
      ensures EntryFits(half, 0, [], EmptyRing(half, false, 0).entries[s], s)
      ensures EntryFits(half, 0, UpTo(half), FullRing(half, false, 0).entries[s], s)
    {
      SlotOfSmall(2 * half, s);
      SlotOfNextLap(2 * half, s - 2 * half);
    }
    forall i | 0 <= i < half ensures TicketFits(half, 0, UpTo(half), FullRing(half, false, 0).entries, i) {
      SlotOfSmall(2 * half, i);
    }
  }

  lemma {:induction false} LaterLap(n: int, p: int, m: nat)
    requires n > 0
    ensures (p + m * n) % n == p % n && m * n >= m
  {
    if m > 0 {
      Distribute(m - 1, n);
      LaterLap(n, p, m - 1);
      SlotOfNextLap(n, p + (m - 1) * n);
    }
  }

  /** A ticket not before `t` on the slot of ticket `end`. */
  ghost function StopTicket(n: nat, end: nat, t: nat): (u: nat)
    requires n > 0 && end <= t
    ensures t <= u && u % n == end % n
  {
    LaterLap(n, end, t - end);
    end + (t - end) * n
  }

  // ---- the ring ---------------------------------------------------------------------------------------

  /** initialize_atomic_array_full */
  method InitializeFull(buffer: array<Entry>, half: nat)
    requires half > 0 && buffer.Length == 2 * half
    modifies buffer
    ensures buffer[..] == FullRing(half, false, 0).entries
  {
    ghost var goal := FullRing(half, false, 0).entries;
    var i := 0;
    while i != half
      invariant 0 <= i <= half
      invariant forall s :: 0 <= s < i ==> buffer[s] == goal[s]
    {
      buffer[i] := Entry(i, true, i);
      i := i + 1;
    }
    while i != 2 * half
      invariant half <= i <= 2 * half
      invariant forall s :: 0 <= s < i ==> buffer[s] == goal[s]
    {
      buffer[i] := Entry(i - 2 * half, true, Nil(half));
      i := i + 1;
    }
  }

  datatype Outcome = Stored | IndexLargerThanOrder | QueueFinalized

  class Indices {
    const half: nat
    const finalizable: bool
    const entries: array<Entry>
    var finalized: bool
    var head: nat
    var tail: nat
    var threshold: int
    /** The indices in the ring, oldest first. */
    ghost var contents: seq<nat>

    /** A ring with something in it has a threshold that lets dequeuers in. */
    ghost predicate Valid()
      reads this, entries
    {
      && Laid(half, head, contents, entries[..])
      && (finalized ==> finalizable)
      && head + |contents| <= tail && (!finalized ==> tail == head + |contents|)
      && (contents != [] ==> threshold >= 0)
    }

    constructor Empty(half: nat, finalizable: bool)
      requires half > 0
      ensures Valid() && fresh(entries) && contents == [] && !finalized
      ensures this.half == half && this.finalizable == finalizable
      ensures head == 0 && tail == 0 && threshold == -1
      ensures entries[..] == EmptyRing(half, finalizable, 0).entries
    {
      this.half, this.finalizable := half, finalizable;
      finalized, head, tail, threshold := false, 0, 0, -1;
      contents := [];
      entries := new Entry[2 * half](i requires i >= 0 => Entry(i - 2 * half, true, Nil(half)));
      new;
      LaidNew(half);
      assert entries[..] == EmptyRing(half, false, 0).entries;
    }

    constructor Full(half: nat, finalizable: bool)
      requires half > 0
      ensures Valid() && fresh(entries) && contents == UpTo(half) && !finalized
      ensures this.half == half && this.finalizable == finalizable
      ensures head == 0 && tail == half && threshold == FullThreshold(half)
      ensures entries[..] == FullRing(half, finalizable, 0).entries
    {
      this.half, this.finalizable := half, finalizable;
      finalized, head, tail, threshold := false, 0, half, FullThreshold(half);
      contents := UpTo(half);
      var buffer := new Entry[2 * half](i requires i >= 0 => Entry(i - 2 * half, true, Nil(half)));
      InitializeFull(buffer, half);
      entries := buffer;
      new;
      LaidNew(half);
    }

    /** finalize: nothing can be stored any more. */
    method Finalize()
      requires Valid()
      modifies this`finalized
      ensures Valid() && finalized == (old(finalized) || finalizable)
    {
      if finalizable {
        finalized := true;
      }
    }

    /** The ring takes an index unless it is too large or the ring is finalized; a finalized ring only
        uses up tickets.  The array must not be full, or the code would search for ever. */
    method Enqueue(eidx: nat) returns (out: Outcome)
      requires Valid() && |contents| < 2 * half
      modifies this, entries
      ensures Valid() && finalized == old(finalized) && head == old(head)
      ensures out == if eidx >= half then IndexLargerThanOrder else if old(finalized) then QueueFinalized else Stored
      ensures out.Stored? ==>
        && contents == old(contents) + [eidx] && tail == old(tail) + 1 && threshold == FullThreshold(half)
        && entries[..] == old(entries[..])[old(tail) % (2 * half) := Placed(old(tail), eidx)]
      ensures !out.Stored? ==>
        contents == old(contents) && threshold == old(threshold) && entries[..] == old(entries[..])
      ensures out.QueueFinalized? && old(tail == head + |contents|) ==> tail == old(tail) + 1
    {
      if eidx >= half {
        return IndexLargerThanOrder;
      }
      ghost var end: nat := head + |contents|;
      ghost var stop := StopTicket(2 * half, end, tail);
      while true
        invariant Valid() && |contents| < 2 * half && head + |contents| == end
        invariant tail <= stop && end <= stop && stop % (2 * half) == end % (2 * half)
        invariant finalized == old(finalized) && head == old(head) && contents == old(contents) && threshold == old(threshold)
        invariant entries[..] == old(entries[..]) && (old(tail) == end ==> tail == end)
        decreases stop - tail
      {
        var t := tail;
        if t == stop || t == end {
          LaidFree(half, head, contents, entries[..], t);
        }
        tail := tail + 1;
        var e := entries[t % (2 * half)];
        if e.turn < t && e.index == Nil(half) && (e.safe || head <= t) {
          if finalizable && finalized {
            return QueueFinalized;
          }
          LaidPut(half, head, contents, entries[..], eidx);
          entries[t % (2 * half)] := Placed(t, eidx);
          contents := contents + [eidx];
          if threshold != FullThreshold(half) {
            threshold := FullThreshold(half);
          }
          return Stored;
        }
      }
    }

    /** The oldest index, or nothing exactly when the ring is empty. */
    method Dequeue() returns (index: Option<nat>)
      requires Valid()
      modifies this, entries
      ensures Valid() && finalized == old(finalized)
      ensures old(contents) == [] ==> index == None && contents == []
      ensures old(contents) != [] ==>
        && index == Some(old(contents)[0]) && contents == old(contents)[1..]
        && threshold == old(threshold) && tail == old(tail)
    {
      if threshold < 0 {
        return None;
      }
      while true
        invariant Valid() && finalized == old(finalized) && contents == old(contents)
        invariant contents != [] ==> threshold == old(threshold) && tail == old(tail)
        decreases tail - head
      {
        var h := head;
        if contents == [] {
          LaidSkip(half, head, entries[..]);
        } else {
          LaidTake(half, head, contents, entries[..]);
        }
        head := head + 1;
        ghost var before := entries[..];
        var attempt := 0;
        while true
          invariant 0 <= attempt <= 10 && head == h + 1 && entries[..] == before
          decreases 10 - attempt
        {
          var e := entries[h % (2 * half)];
          if e.turn == h {
            entries[h % (2 * half)] := Consumed(half, e);
            contents := contents[1..];
            return Some(e.index);
          }
          var swapped;
          if e.index != Nil(half) {
            swapped := Unsafe(e);
            if e == swapped {
              break;
            }
          } else {
            attempt := attempt + 1;
            if attempt <= 10 {
              continue;
            }
            swapped := Advanced(half, e, h);
          }
          if e.turn < h {
            entries[h % (2 * half)] := swapped;
          }
          break;
        }
        if tail <= h + 1 {
          tail := h + 1;
          threshold := threshold - 1;
          return None;
        }
        threshold := threshold - 1;
        if threshold + 1 <= 0 {
          return None;
        }
      }
    }
  }

  /** The entries after k indices were enqueued into an empty ring. */
  function Filled(half: nat, k: nat): (es: seq<Entry>)
    requires 0 < half && k <= half
  {
    seq(2 * half, s requires s >= 0 => if s < k then Entry(s, true, s) else Entry(s - 2 * half, true, Nil(half)))
  }

  /** A ring initialised full equals, field by field, an empty ring after enqueueing 0, 1, ... */
  method FullEqualsFilled(half: nat, finalizable: bool) returns (full: Indices, filled: Indices)
    requires half > 0
    ensures fresh(full) && fresh(filled) && full.Valid() && filled.Valid()
    ensures full.half == filled.half == half && full.finalized == filled.finalized
    ensures full.head == filled.head && full.tail == filled.tail && full.threshold == filled.threshold
    ensures full.entries[..] == filled.entries[..] && full.contents == filled.contents
  {
    full := new Indices.Full(half, finalizable);
    filled := new Indices.Empty(half, finalizable);
    assert filled.entries[..] == Filled(half, 0);
    for i := 0 to half
      invariant fresh(filled) && fresh(filled.entries) && filled.Valid() && filled.half == half && !filled.finalized
      invariant filled.head == 0 && filled.tail == i && filled.contents == UpTo(i)
      invariant filled.threshold == if i == 0 then -1 else FullThreshold(half)
      invariant filled.entries[..] == Filled(half, i)
      invariant full.entries != filled.entries && full.entries[..] == FullRing(half, finalizable, 0).entries
      invariant full != filled && full.Valid() && full.contents == UpTo(half) && !full.finalized
      invariant full.head == 0 && full.tail == half && full.threshold == FullThreshold(half)
    {
      SlotOfSmall(2 * half, i);
      var out := filled.Enqueue(i);
    }
    assert Filled(half, half) == FullRing(half, finalizable, 0).entries;
  }
}

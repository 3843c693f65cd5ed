/** The queue used by one caller at a time, with w-bit counters that wrap around: an object with
    its arrays, its retry loops and its masks.  It behaves as a FIFO of capacity n for ever, past
    any number of counter overflows.

    `first` and `next` are ghosts: the tickets, counted without wrapping, of `head` and `tail`.
    A compare-exchange may fail spuriously as often as the caller's `spurious` says. */
module SequentialQueue {
  import opened Options
  import opened Arithmetic
  import opened Bits
  import opened Laps
  import opened Fifo
  import opened WrappedWords

  // ---- how the slots are laid out ---------------------------------------------------------------

  /** What the slot of ticket p looks like, for the n tickets from `head` on. */
  predicate TicketOk(n: nat, w: nat, k: nat, next: nat, stamps: seq<nat>, cells: seq<Option<Value>>, p: nat)
    requires Config(n, w, k) && |stamps| == |cells| == n
  {
    if p < next then stamps[p % n] == Word(n, w, k, p) + 1 && cells[p % n].Some?
    else stamps[p % n] == Word(n, w, k, p) && cells[p % n] == None
  }

  predicate Layout(n: nat, w: nat, k: nat, first: nat, next: nat, stamps: seq<nat>, cells: seq<Option<Value>>) {
    && Config(n, w, k)
    && |stamps| == |cells| == n
    && first <= next <= first + n
    && forall p :: first <= p < first + n ==> TicketOk(n, w, k, next, stamps, cells, p)
  }

  function Stored(n: nat, w: nat, k: nat, first: nat, next: nat, stamps: seq<nat>, cells: seq<Option<Value>>): seq<Value>
    requires Layout(n, w, k, first, next, stamps, cells)
  {
    seq(next - first, i requires 0 <= i < next - first =>
      assert TicketOk(n, w, k, next, stamps, cells, first + i); cells[(first + i) % n].value)
  }

  /** Publishing a value at ticket `next`. */
  lemma LayoutPush(n: nat, w: nat, k: nat, first: nat, next: nat, stamps: seq<nat>, cells: seq<Option<Value>>, v: Value)
    requires Layout(n, w, k, first, next, stamps, cells) && next < first + n
    ensures var i := next % n; var stamps', cells' := stamps[i := Word(n, w, k, next) + 1], cells[i := Some(v)];
      && Layout(n, w, k, first, next + 1, stamps', cells')
      && Stored(n, w, k, first, next + 1, stamps', cells') == Stored(n, w, k, first, next, stamps, cells) + [v]
  {
    var i := next % n;
    var stamps', cells' := stamps[i := Word(n, w, k, next) + 1], cells[i := Some(v)];
    forall p | first <= p < first + n && p != next
      ensures p % n != i && TicketOk(n, w, k, next + 1, stamps', cells', p)
    {
      assert TicketOk(n, w, k, next, stamps, cells, p);
      if p < next {
        SlotsDiffer(n, p, next);
      } else {
        SlotsDiffer(n, next, p);
      }
    }
  }

  /** Taking the value of ticket `first` and freeing its slot for the next lap. */
  lemma LayoutPop(n: nat, w: nat, k: nat, first: nat, next: nat, stamps: seq<nat>, cells: seq<Option<Value>>)
    requires Layout(n, w, k, first, next, stamps, cells) && first < next
    ensures var i := first % n; var stamps', cells' := stamps[i := Word(n, w, k, first + n)], cells[i := None];
      && Layout(n, w, k, first + 1, next, stamps', cells')
      && Stored(n, w, k, first + 1, next, stamps', cells') == Stored(n, w, k, first, next, stamps, cells)[1..]
      && cells[i] == Some(Stored(n, w, k, first, next, stamps, cells)[0])
  {
    var i := first % n;
    var stamps', cells' := stamps[i := Word(n, w, k, first + n)], cells[i := None];
    SlotOfNextLap(n, first);
    forall p | first < p < first + n ensures p % n != i && TicketOk(n, w, k, next, stamps', cells', p) {
      assert TicketOk(n, w, k, next, stamps, cells, p);
      SlotsDiffer(n, first, p);
    }
    assert TicketOk(n, w, k, next, stamps, cells, first);
  }

  /** Replacing the oldest value of a full queue. */
  lemma LayoutForce(n: nat, w: nat, k: nat, first: nat, next: nat, stamps: seq<nat>, cells: seq<Option<Value>>, v: Value)
    requires Layout(n, w, k, first, next, stamps, cells) && next == first + n
    ensures next % n == first % n
    ensures var i := next % n; var stamps', cells' := stamps[i := Word(n, w, k, next) + 1], cells[i := Some(v)];
      && Layout(n, w, k, first + 1, next + 1, stamps', cells')
      && Stored(n, w, k, first + 1, next + 1, stamps', cells')
         == Stored(n, w, k, first, next, stamps, cells)[1..] + [v]
      && cells[i] == Some(Stored(n, w, k, first, next, stamps, cells)[0])
  {
    var i := next % n;
    var stamps', cells' := stamps[i := Word(n, w, k, next) + 1], cells[i := Some(v)];
    SlotOfNextLap(n, first);
    forall p | first < p < first + n ensures p % n != i && TicketOk(n, w, k, next + 1, stamps', cells', p) {
      assert TicketOk(n, w, k, next, stamps, cells, p);
      SlotsDiffer(n, first, p);
    }
    assert TicketOk(n, w, k, next, stamps, cells, first);
  }

  /** What push finds at `tail`: a free slot, or the value of one lap ago in a full queue. */
  lemma TailTests(n: nat, w: nat, k: nat, first: nat, next: nat, stamps: seq<nat>, cells: seq<Option<Value>>)
    requires Layout(n, w, k, first, next, stamps, cells)
    ensures var t, stamp := Word(n, w, k, next), stamps[next % n];
      && (t == stamp <==> next < first + n)
      && (next == first + n ==> (stamp + Pow2(k)) % Pow2(w) == t + 1)
      && (next < first + n ==> cells[next % n] == None)
  {
    if next < first + n {
      assert TicketOk(n, w, k, next, stamps, cells, next);
    } else {
      assert TicketOk(n, w, k, next, stamps, cells, first);
      SlotOfNextLap(n, first);
      WordIndex(n, w, k, first);
      WordIndex(n, w, k, next);
      WordLap(n, w, k, first);
      AddWraps(Word(n, w, k, first) + Pow2(k), 1, Pow2(w));
      SlotOfSmall(Pow2(w), Word(n, w, k, next) + 1);
    }
  }

  /** What pop finds at `head`: the oldest value, or a slot waiting for it in an empty queue. */
  lemma HeadTests(n: nat, w: nat, k: nat, first: nat, next: nat, stamps: seq<nat>, cells: seq<Option<Value>>)
    requires Layout(n, w, k, first, next, stamps, cells)
    ensures var h, stamp := Word(n, w, k, first), stamps[first % n];
      && (h + 1 == stamp <==> first < next)
      && (stamp == h <==> first == next)
  {
    assert TicketOk(n, w, k, next, stamps, cells, first);
  }

  /** The emptiness and fullness tests are unambiguous modulo 2^w. */
  lemma CounterTests(n: nat, w: nat, k: nat, first: nat, next: nat)
    requires Config(n, w, k) && first <= next <= first + n
    ensures Word(n, w, k, first) == Word(n, w, k, next) <==> first == next
    ensures (Word(n, w, k, first) + Pow2(k)) % Pow2(w) == Word(n, w, k, next) <==> next == first + n
  {
    WordLap(n, w, k, first);
    if first < next {
      WordsDiffer(n, w, k, first, next);
    }
    if next < first + n {
      WordsDiffer(n, w, k, next, first + n);
    }
  }

  lemma SmallWord(n: nat, w: nat, k: nat, p: nat)
    requires Config(n, w, k) && p < n
    ensures p % n == p && Word(n, w, k, p) == p
  {
    SlotOfSmall(n, p);
    PowMonotone(k, w);
    SlotOfSmall(Pow2(w), p);
  }

  /** force_push computes the old and the new head by subtracting a lap. */
  lemma OverwriteHead(n: nat, w: nat, k: nat, first: nat)
    requires Config(n, w, k)
    ensures Pow2(k) <= Pow2(w)
    ensures (Word(n, w, k, first + n) + Pow2(w) - Pow2(k)) % Pow2(w) == Word(n, w, k, first)
    ensures (Word(n, w, k, first + n + 1) + Pow2(w) - Pow2(k)) % Pow2(w) == Word(n, w, k, first + 1)
  {
    PowMonotone(k, w);
    LapBack(n, w, k, first);
    LapBack(n, w, k, first + 1);
  }

  lemma LapBack(n: nat, w: nat, k: nat, p: nat)
    requires Config(n, w, k) && Pow2(k) <= Pow2(w)
    ensures (Word(n, w, k, p + n) + Pow2(w) - Pow2(k)) % Pow2(w) == Word(n, w, k, p)
  {
    WordLap(n, w, k, p);
    SubtractLap(Word(n, w, k, p), Pow2(k), Pow2(w), Word(n, w, k, p + n));
  }

  lemma SubtractLap(x: int, lap: int, m: int, y: int)
    requires 0 <= x < m && 0 < lap <= m && y == (x + lap) % m
    ensures (y + m - lap) % m == x
  {
    if x + lap < m {
      SlotOfSmall(m, x + lap);
      DivisionIs(m, y + m - lap, 1, x);
    } else {
      DivisionIs(m, x + lap, 1, x + lap - m);
      SlotOfSmall(m, y + m - lap);
    }
  }

  // ---- the object ------------------------------------------------------------------------------

  class Queue {
    const n: nat
    const w: nat
    const k: nat
    var head: nat
    var tail: nat
    const stamps: array<nat>
    const cells: array<Option<Value>>
    ghost var first: nat
    ghost var next: nat

    ghost predicate Valid()
      reads this, stamps, cells
    {
      && stamps.Length == cells.Length == n
      && Layout(n, w, k, first, next, stamps[..], cells[..])
      && head == Word(n, w, k, first)
      && tail == Word(n, w, k, next)
    }

    ghost function Contents(): (q: seq<Value>)
      requires Valid()
      reads this, stamps, cells
      ensures |q| <= n
    {
      Stored(n, w, k, first, next, stamps[..], cells[..])
    }

    /** `Queue::new` for a w-bit index type; the bounds on the capacity are the two assertions it
        starts with. */
    constructor (n: nat, w: nat)
      requires w >= 2 && 0 < n <= (Pow2(w - 1) - 1) / 2
      ensures Valid() && fresh(stamps) && fresh(cells)
      ensures this.n == n && this.w == w && Contents() == []
    {
      var lap, k' := OneLapFor(n);
      this.n, this.w, this.k := n, w, k';
      head, tail, first, next := 0, 0, 0, 0;
      stamps := new nat[n](i => i);
      cells := new Option<Value>[n](i => None);
      new;
      assert Pow2(w - 1) == 2 * Pow2(w - 2);
      assert Pow2(w - 2) > n;
      forall p | 0 <= p < n ensures TicketOk(n, w, k, 0, stamps[..], cells[..], p) && Word(n, w, k, p) == p {
        SmallWord(n, w, k, p);
      }
    }

    /** `capacity` */
    function Capacity(): (r: nat)
      ensures r == n
    {
      n
    }

    /** The slot index of a position. */
    function Index(pos: nat): nat { And(w, pos, Pow2(k) - 1) }

    /** The position that follows `pos`. */
    function NextPos(pos: nat): nat
      requires k < w
    {
      if Index(pos) + 1 < n then pos + 1 else (LapPart(w, k, pos) + Pow2(k)) % Pow2(w)
    }

    /** `wrapping_sub` */
    function Minus(x: nat, y: nat): nat
      requires y <= Pow2(w)
    {
      (x + Pow2(w) - y) % Pow2(w)
    }

    /** The masks and the next position of the ticket `p` whose word is `pos`. */
    lemma PositionOf(pos: nat, p: nat)
      requires Config(n, w, k) && pos == Word(n, w, k, p)
      ensures Index(pos) == p % n < n && NextPos(pos) == Word(n, w, k, p + 1) && pos + 1 < Pow2(w)
    {
      WordIndex(n, w, k, p);
      WordNext(n, w, k, p);
      DivisionParts(n, p);
    }

    /** The slot at `tail` is ours: move `tail`, write the value, publish the stamp. */
    method Publish(v: Value, t: nat, newTail: nat)
      requires Valid() && t == tail && next < first + n && newTail == Word(n, w, k, next + 1)
      modifies this`tail, this`next, stamps, cells
      ensures Valid() && first == old(first) && Contents() == old(Contents()) + [v]
    {
      PositionOf(t, next);
      LayoutPush(n, w, k, first, next, stamps[..], cells[..], v);
      var index := Index(t);
      tail, next := newTail, next + 1;
      cells[index] := Some(v);
      stamps[index] := t + 1;
      assert cells[..] == old(cells[..])[index := Some(v)];
      assert stamps[..] == old(stamps[..])[index := t + 1];
    }

    /** The queue is full and `head` is ours: take the oldest ticket's slot over. */
    method Overwrite(v: Value, t: nat, newTail: nat, newHead: nat) returns (oldest: Option<Value>)
      requires Valid() && t == tail && next == first + n
      requires newTail == Word(n, w, k, next + 1) && newHead == Word(n, w, k, first + 1)
      modifies this`head, this`tail, this`first, this`next, stamps, cells
      ensures Valid() && oldest == Some(old(Contents())[0]) && Contents() == old(Contents())[1..] + [v]
    {
      PositionOf(t, next);
      LayoutForce(n, w, k, first, next, stamps[..], cells[..], v);
      var index := Index(t);
      head, first := newHead, first + 1;
      tail, next := newTail, next + 1;
      oldest := cells[index];
      cells[index] := Some(v);
      stamps[index] := t + 1;
      assert cells[..] == old(cells[..])[index := Some(v)];
      assert stamps[..] == old(stamps[..])[index := t + 1];
    }

    /** The closures that push and force_push hand to push_or_else, run on a full queue.  `retry`
        is the closure's `Ok`: alone, that happens only when the compare-exchange fails spuriously. */
    method OnFull(v: Value, t: nat, newTail: nat, force: bool, spurious: bool)
      returns (retry: bool, rejected: Option<Value>)
      requires Valid() && t == tail && next == first + n && newTail == Word(n, w, k, next + 1)
      modifies this`head, this`tail, this`first, this`next, stamps, cells
      ensures Valid() && retry == (force && spurious)
      ensures retry || !force ==> unchanged(this) && unchanged(stamps) && unchanged(cells)
      ensures !force ==> rejected == Some(v)
      ensures force && !spurious ==>
        rejected == Some(old(Contents())[0]) && Contents() == old(Contents())[1..] + [v]
    {
      CounterTests(n, w, k, first, next);
      OverwriteHead(n, w, k, first);
      if !force {
        retry, rejected := (head + Pow2(k)) % Pow2(w) != t, Some(v);
      } else if !spurious && head == Minus(t, Pow2(k)) {
        rejected := Overwrite(v, t, newTail, Minus(newTail, Pow2(k)));
        retry := false;
      } else {
        retry, rejected := true, None;
      }
    }

    /** push_or_else with the closure of push (`force == false`) or of force_push; `Some` is the
        `Err` that the closure returns, `None` is `Ok`. */
    method PushOrElse(v: Value, force: bool, spurious: nat) returns (rejected: Option<Value>)
      requires Valid()
      modifies this`head, this`tail, this`first, this`next, stamps, cells
      ensures Valid()
      ensures |old(Contents())| < n ==> rejected == None && Contents() == old(Contents()) + [v]
      ensures |old(Contents())| == n && !force ==> rejected == Some(v) && Contents() == old(Contents())
      ensures |old(Contents())| == n && force ==>
        rejected == Some(old(Contents())[0]) && Contents() == old(Contents())[1..] + [v]
    {
      var failures: nat := spurious;
      var t := tail;
      while true
        invariant Valid() && t == tail && unchanged(this) && unchanged(stamps) && unchanged(cells)
        decreases failures
      {
        Survey(t);
        var newTail, stamp := NextPos(t), stamps[Index(t)];
        if t == stamp {
          if failures == 0 {
            Publish(v, t, newTail);
            return None;
          }
        } else if LapBehind(stamp, t) {
          var retry;
          retry, rejected := OnFull(v, t, newTail, force, failures > 0);
          if !retry {
            return;
          }
        } else {
          // Only another thread could have left the slot between two stamps.
          assert false;
        }
        failures, t := failures - 1, tail;
      }
    }

    /** The test for a value published one lap ago. */
    predicate LapBehind(stamp: nat, t: nat) { (stamp + Pow2(k)) % Pow2(w) == t + 1 }

    /** What push_or_else finds at `tail` when nobody else is at work. */
    lemma Survey(t: nat)
      requires Valid() && t == tail
      ensures Index(t) < n && NextPos(t) == Word(n, w, k, next + 1)
      ensures t == stamps[Index(t)] <==> next < first + n
      ensures next == first + n ==> LapBehind(stamps[Index(t)], t)
    {
      PositionOf(t, next);
      TailTests(n, w, k, first, next, stamps[..], cells[..]);
    }

    /** `push`: the value comes back when the queue is full. */
    method Push(v: Value, spurious: nat) returns (rejected: Option<Value>)
      requires Valid()
      modifies this`head, this`tail, this`first, this`next, stamps, cells
      ensures Valid()
      ensures rejected == (if |old(Contents())| < n then None else Some(v))
      ensures Contents() == Effect(n, old(Contents()), Fifo.Push(v))
    {
      rejected := PushOrElse(v, false, spurious);
    }

    /** `force_push`: the oldest value comes back when the queue is full. */
    method ForcePush(v: Value, spurious: nat) returns (displaced: Option<Value>)
      requires Valid()
      modifies this`head, this`tail, this`first, this`next, stamps, cells
      ensures Valid()
      ensures displaced == (if |old(Contents())| < n then None else Some(old(Contents())[0]))
      ensures Contents() == Effect(n, old(Contents()), Fifo.ForcePush(v))
    {
      displaced := PushOrElse(v, true, spurious);
    }

    /** `pop` */
    method Pop(spurious: nat) returns (item: Option<Value>)
      requires Valid()
      modifies this`head, this`first, stamps, cells
      ensures Valid()
      ensures item == (if old(Contents()) == [] then None else Some(old(Contents())[0]))
      ensures Contents() == Effect(n, old(Contents()), Fifo.Pop)
    {
      var failures: nat := spurious;
      var h := head;
      while true
        invariant Valid() && h == head && unchanged(this) && unchanged(stamps) && unchanged(cells)
        decreases failures
      {
        PositionOf(h, first);
        HeadTests(n, w, k, first, next, stamps[..], cells[..]);
        var stamp := stamps[Index(h)];
        if h + 1 == stamp {
          if failures > 0 {
            failures, h := failures - 1, head;
          } else {
            item := Take(h, NextPos(h));
            return;
          }
        } else {
          CounterTests(n, w, k, first, next);
          if stamp == h && tail == h {
            return None;
          } else {
            // Only another thread could have claimed the slot.
            assert false;
          }
        }
      }
    }

    /** The value at `head` is ours: move `head`, read the value, free the slot for the next lap. */
    method Take(h: nat, newHead: nat) returns (item: Option<Value>)
      requires Valid() && h == head && first < next && newHead == Word(n, w, k, first + 1)
      modifies this`head, this`first, stamps, cells
      ensures Valid() && next == old(next)
      ensures item == Some(old(Contents())[0]) && Contents() == old(Contents())[1..]
    {
      PositionOf(h, first);
      WordLap(n, w, k, first);
      LayoutPop(n, w, k, first, next, stamps[..], cells[..]);
      var index := Index(h);
      head, first := newHead, first + 1;
      item := cells[index];
      cells[index] := None;
      stamps[index] := (h + Pow2(k)) % Pow2(w);
      assert cells[..] == old(cells[..])[index := None];
      assert stamps[..] == old(stamps[..])[index := (h + Pow2(k)) % Pow2(w)];
    }

    /** `is_empty` */
    method IsEmpty() returns (answer: bool)
      requires Valid()
      ensures answer <==> Contents() == []
    {
      CounterTests(n, w, k, first, next);
      answer := tail == head;
    }

    /** `is_full` */
    method IsFull() returns (answer: bool)
      requires Valid()
      ensures answer <==> |Contents()| == n
    {
      CounterTests(n, w, k, first, next);
      answer := (head + Pow2(k)) % Pow2(w) == tail;
    }

    /** `len`; alone, its second load of `tail` always agrees with the first. */
    method Len() returns (len: nat)
      requires Valid()
      ensures len == |Contents()|
    {
      PositionOf(head, first);
      PositionOf(tail, next);
      CounterTests(n, w, k, first, next);
      WindowLength(n, first, next);
      var hix, tix := Index(head), Index(tail);
      len := if hix < tix then tix - hix
             else if hix > tix then n - hix + tix
             else if tail == head then 0
             else n;
    }

    /** `Drop`: the walk over the live slots hands back every stored value once, oldest first,
        and leaves no value behind. */
    method Drop() returns (dropped: seq<Value>)
      requires Valid()
      modifies cells
      ensures dropped == old(Contents())
      ensures forall i :: 0 <= i < cells.Length ==> cells[i] == None
    {
      var len := Len();
      PositionOf(head, first);
      var hix := Index(head);
      dropped := [];
      for i := 0 to len
        invariant dropped == old(Contents())[..i]
        invariant Cleared(n, first, i, old(cells[..]), cells[..])
      {
        WalkIndex(n, first, i);
        var index := if hix + i < n then hix + i else hix + i - n;
        assert TicketOk(n, w, k, next, old(stamps[..]), old(cells[..]), first + i);
        assert CellAt(n, cells[..], first + i) == CellAt(n, old(cells[..]), first + i);
        ClearOne(n, first, i, old(cells[..]), cells[..]);
        dropped := dropped + [cells[index].value];
        ghost var before := cells[..];
        cells[index] := None;
        assert cells[..] == before[index := None];
      }
      forall i | 0 <= i < n ensures cells[i] == None {
        var p := TicketOfSlot(n, first, i);
        assert TicketOk(n, w, k, next, old(stamps[..]), old(cells[..]), p);
        assert cells[i] == CellAt(n, cells[..], p);
      }
    }
  }

  function CellAt(n: nat, cells: seq<Option<Value>>, p: nat): Option<Value>
    requires 0 < n == |cells|
  {
    cells[p % n]
  }

  /** The cells of the first `i` tickets are cleared, the others are as before. */
  predicate Cleared(n: nat, first: nat, i: nat, before: seq<Option<Value>>, now: seq<Option<Value>>) {
    && 0 < n == |before| == |now|
    && forall p :: first <= p < first + n ==> CellAt(n, now, p) == if p < first + i then None else CellAt(n, before, p)
  }

  lemma ClearOne(n: nat, first: nat, i: nat, before: seq<Option<Value>>, now: seq<Option<Value>>)
    requires i < n && Cleared(n, first, i, before, now)
    ensures Cleared(n, first, i + 1, before, now[(first + i) % n := None])
  {
    var now' := now[(first + i) % n := None];
    forall p | first <= p < first + n
      ensures CellAt(n, now', p) == if p < first + i + 1 then None else CellAt(n, before, p)
    {
      assert CellAt(n, now, p) == if p < first + i then None else CellAt(n, before, p);
      if p < first + i {
        SlotsDiffer(n, p, first + i);
      } else if p > first + i {
        SlotsDiffer(n, first + i, p);
      }
    }
  }

  /** Every slot belongs to one of the n tickets from `first` on. */
  lemma TicketOfSlot(n: nat, first: nat, i: nat) returns (p: nat)
    requires i < n
    ensures first <= p < first + n && p % n == i
  {
    var r := first % n;
    DivisionParts(n, first);
    p := if r <= i then first + (i - r) else first + (i + n - r);
    WalkIndex(n, first, p - first);
  }
}

/** Ring entries packed into one w-bit word: from the top, the cycle, one safe bit, and k bits of
    index, for rings of n = 2^k slots.  The bit operations of third-party/lfqueue/src/scq.rs on such
    words are what the ring machine does to records. */
module PackedEntries {
  import opened Arithmetic
  import opened Bits
  import opened ScqRing

  /** The fields of a w-bit word. */
  predicate Format(w: nat, k: nat) { 0 < k && k + 2 <= w }

  function CycleOf(k: nat, e: Entry): int { e.turn / Pow2(k) }

  function Low(k: nat, e: Entry): nat { (if e.safe then Pow2(k) else 0) + e.index }

  /** The cycle as the bits of its field: -1, the cycle of unused entries, is all ones. */
  function CycleBits(w: nat, k: nat, e: Entry): nat {
    if CycleOf(k, e) >= 0 then CycleOf(k, e) else if k < w then Pow2(w - k - 1) - 1 else 0
  }

  function Pack(w: nat, k: nat, e: Entry): nat { CycleBits(w, k, e) * Pow2(k + 1) + Low(k, e) }

  /** The value that is cut to w bits. */
  function Value(k: nat, e: Entry): int { CycleOf(k, e) * Pow2(k + 1) + Low(k, e) }

  // ---- the source's operations ---------------------------------------------------------------------

  /** modup(value, n) = value | (2n - 1) */
  function ModUp(w: nat, k: nat, x: nat): nat { Or(w, x, Pow2(k + 1) - 1) }

  /** modup(ticket << 1, n) */
  function Cycle(w: nat, k: nat, t: nat): nat { ModUp(w, k, (2 * t) % Pow2(w)) }

  /** tcycle ^ (index ^ (n - 1)) */
  function Insert(w: nat, k: nat, t: nat, i: nat): nat { Xor(w, Cycle(w, k, t), Xor(w, i, Pow2(k) - 1)) }

  /** entry | (n - 1), the effect of fetch_or */
  function Consume(w: nat, k: nat, x: nat): nat { Or(w, x, Pow2(k) - 1) }

  /** entry & (n - 1) */
  function IndexOf(w: nat, k: nat, x: nat): nat { And(w, x, Pow2(k) - 1) }

  /** entry & !n */
  function MarkUnsafe(w: nat, k: nat, x: nat): nat
    requires Pow2(k) < Pow2(w)
  {
    And(w, x, Not(w, Pow2(k)))
  }

  /** hcycle ^ (!entry & n) */
  function Advance(w: nat, k: nat, x: nat, h: nat): nat { Xor(w, Cycle(w, k, h), And(w, Not(w, x % Pow2(w)), Pow2(k))) }

  function Signed(w: nat, x: nat): int { if 2 * x < Pow2(w) then x else x - Pow2(w) }

  /** lfring_signed_cmp: the sign of this number */
  function Order(w: nat, a: nat, b: nat): int { Signed(w, (a - b) % Pow2(w)) }

  // ---- what they compute ------------------------------------------------------------------------------

  /** Records that fit: cycles from -1 (never used) up to half of what the field holds. */
  predicate Fits(w: nat, k: nat, e: Entry) {
    Format(w, k) && e.index < Pow2(k) && 0 <= e.turn + Pow2(k) && e.turn < Pow2(w - 2)
  }

  lemma CycleAtLeast(k: nat, e: Entry)
    requires 0 <= e.turn + Pow2(k)
    ensures CycleOf(k, e) >= -1
  {
    DivisionParts(Pow2(k), e.turn);
    Distribute(CycleOf(k, e), Pow2(k));
    CancelFactor(Pow2(k), -1, CycleOf(k, e) + 1);
  }

  lemma CycleRange(w: nat, k: nat, e: Entry)
    requires Fits(w, k, e)
    ensures -1 <= CycleOf(k, e) < Pow2(w - 2 - k) && Pow2(w - k - 1) == 2 * Pow2(w - 2 - k)
  {
    PowAdd(w - 2 - k, k);
    DivisionParts(Pow2(k), e.turn);
    CancelFactor(Pow2(k), CycleOf(k, e), Pow2(w - 2 - k));
    CycleAtLeast(k, e);
  }

  /** Cutting to m * p cuts the upper field to m. */
  lemma WrapParts(c: int, m: int, p: int, mp: int, low: int)
    requires -1 <= c < m && 0 < m && 0 <= low < p && mp == m * p && mp > 0
    ensures (c * p + low) % mp == (if c >= 0 then c else m - 1) * p + low < mp
  {
    MulSteps(m, p);
    if c == -1 {
      DivisionIs(mp, c * p + low, -1, mp - p + low);
    } else {
      MulMonotone(c, m - 1, p);
      SlotOfSmall(mp, c * p + low);
    }
  }

  lemma MulMonotone(a: int, b: int, p: int)
    requires 0 <= a <= b && 0 < p
    ensures 0 <= a * p <= b * p
  {
  }

  lemma PackParts(w: nat, k: nat, e: Entry)
    requires Fits(w, k, e)
    ensures Low(k, e) < Pow2(k + 1) && CycleBits(w, k, e) < Pow2(w - k - 1) && Pack(w, k, e) < Pow2(w)
  {
    PackWraps(w, k, e);
  }

  /** The word is the value modulo 2^w. */
  lemma PackWraps(w: nat, k: nat, e: Entry)
    requires Fits(w, k, e)
    ensures Low(k, e) < Pow2(k + 1) && CycleBits(w, k, e) < Pow2(w - k - 1)
    ensures Pack(w, k, e) == Value(k, e) % Pow2(w) < Pow2(w)
  {
    CycleRange(w, k, e);
    PowAdd(w - k - 1, k + 1);
    WrapParts(CycleOf(k, e), Pow2(w - k - 1), Pow2(k + 1), Pow2(w), Low(k, e));
  }

  /** Two packed records are the same word exactly when they have the same fields. */
  lemma PackInjective(w: nat, k: nat, e: Entry, e': Entry)
    requires Fits(w, k, e) && Fits(w, k, e')
    ensures Pack(w, k, e) == Pack(w, k, e') <==> CycleOf(k, e) == CycleOf(k, e') && e.safe == e'.safe && e.index == e'.index
  {
    PackParts(w, k, e);
    PackParts(w, k, e');
    CycleRange(w, k, e);
    CycleRange(w, k, e');
    if Pack(w, k, e) == Pack(w, k, e') {
      DivisionIs(Pow2(k + 1), Pack(w, k, e), CycleBits(w, k, e), Low(k, e));
      DivisionIs(Pow2(k + 1), Pack(w, k, e), CycleBits(w, k, e'), Low(k, e'));
    }
  }

  // ---- the fields under the gates ----------------------------------------------------------------------

  lemma FillLow(w: nat, k: nat, b: nat, x: nat)
    requires k <= w && b < Pow2(w - k) && x < Pow2(k)
    ensures Or(w, b * Pow2(k) + x, Pow2(k) - 1) == b * Pow2(k) + Pow2(k) - 1
  {
    LowGate(OrGate, w, k, b, x, Pow2(k) - 1);
    OnesMask(k, x);
  }

  /** modup keeps the cycle and makes the entry safe and empty. */
  lemma ModUpIs(w: nat, k: nat, e: Entry)
    requires Fits(w, k, e)
    ensures ModUp(w, k, Pack(w, k, e)) == Pack(w, k, Entry(e.turn, true, Pow2(k) - 1))
  {
    PackParts(w, k, e);
    PackParts(w, k, Entry(e.turn, true, Pow2(k) - 1));
    FillLow(w, k + 1, CycleBits(w, k, e), Low(k, e));
  }

  /** A ticket's cycle word is its safe and empty entry. */
  lemma CycleIs(w: nat, k: nat, t: nat)
    requires Format(w, k) && t < Pow2(w - 2)
    ensures Cycle(w, k, t) == Pack(w, k, Entry(t, true, Pow2(k) - 1))
  {
    PowAdd(2, w - 2);
    SlotOfSmall(Pow2(w), 2 * t);
    var p := Pow2(k);
    TwiceTicket(t, p);
    var r := 2 * (t % p);
    var x := if r >= p then Entry(t, true, r - p) else Entry(t, false, r);
    assert Low(k, x) == r;
    assert Pack(w, k, x) == 2 * t;
    ModUpIs(w, k, x);
  }

  lemma TwiceTicket(t: nat, p: nat)
    requires p > 0
    ensures 2 * t == (t / p) * (2 * p) + 2 * (t % p) && 0 <= t % p < p && t / p >= 0
  {
    DivisionParts(p, t);
  }

  /** xor with a low word complements those low bits of a safe and empty entry. */
  lemma XorLow(w: nat, k: nat, turn: int, y: nat)
    requires Fits(w, k, Entry(turn, true, Pow2(k) - 1)) && y < Pow2(k + 1)
    ensures Xor(w, Pack(w, k, Entry(turn, true, Pow2(k) - 1)), y)
         == CycleBits(w, k, Entry(turn, true, Pow2(k) - 1)) * Pow2(k + 1) + Pow2(k + 1) - 1 - y
  {
    var e := Entry(turn, true, Pow2(k) - 1);
    PackParts(w, k, e);
    LowGate(XorGate, w, k + 1, CycleBits(w, k, e), Low(k, e), y);
    Commutes(XorGate, k + 1, Low(k, e), y);
    OnesMask(k + 1, y);
  }

  /** The xor insertion writes a safe entry of this cycle with the index itself. */
  lemma InsertIs(w: nat, k: nat, t: nat, i: nat)
    requires Format(w, k) && t < Pow2(w - 2) && i < Pow2(k)
    ensures Insert(w, k, t, i) == Pack(w, k, Entry(t, true, i))
  {
    CycleIs(w, k, t);
    XorOnes(w, k, i);
    XorLow(w, k, t, Pow2(k) - 1 - i);
    PackParts(w, k, Entry(t, true, i));
  }

  lemma XorOnes(w: nat, k: nat, i: nat)
    requires k <= w && i < Pow2(k)
    ensures Xor(w, i, Pow2(k) - 1) == Pow2(k) - 1 - i
  {
    var zero: nat := 0;
    assert zero * Pow2(k) + i == i;
    LowGate(XorGate, w, k, zero, i, Pow2(k) - 1);
    OnesMask(k, i);
  }

  /** `ecycle ^ n` is the unsafe and empty entry of the cycle. */
  lemma UnsafeEmptyIs(w: nat, k: nat, turn: int)
    requires Fits(w, k, Entry(turn, true, Pow2(k) - 1))
    ensures Xor(w, Pack(w, k, Entry(turn, true, Pow2(k) - 1)), Pow2(k)) == Pack(w, k, Entry(turn, false, Pow2(k) - 1))
  {
    XorLow(w, k, turn, Pow2(k));
    PackParts(w, k, Entry(turn, false, Pow2(k) - 1));
  }

  /** A word cut at its index: the cycle and the safe bit above, the index below. */
  lemma IndexCut(w: nat, k: nat, e: Entry)
    requires Fits(w, k, e)
    ensures Pack(w, k, e) < Pow2(w)
    ensures Pack(w, k, e) % Pow2(k) == e.index
    ensures Pack(w, k, e) - e.index == Pack(w, k, e.(index := 0))
  {
    PackParts(w, k, e);
    PackParts(w, k, e.(index := 0));
    SplitIndex(Pack(w, k, e), CycleBits(w, k, e), Pow2(k), e.safe, e.index);
  }

  lemma SplitIndex(x: int, b: int, p: int, safe: bool, i: int)
    requires 0 <= i < p && x == b * (2 * p) + (if safe then p else 0) + i
    ensures x % p == i
  {
    Regroup(b, p);
    DivisionIs(p, x, if safe then 2 * b + 1 else 2 * b, i);
  }

  lemma Regroup(b: int, p: int)
    ensures b * (2 * p) == p * (2 * b) && b * (2 * p) + p == p * (2 * b + 1)
  {
  }

  lemma Subtract(c: int, d: int, p: int)
    ensures (c - d) * p == c * p - d * p
  {
  }

  /** Or-ing in n - 1 empties the entry; masking with n - 1 reads its index. */
  lemma ConsumeIs(w: nat, k: nat, e: Entry)
    requires Fits(w, k, e)
    ensures Consume(w, k, Pack(w, k, e)) == Pack(w, k, e.(index := Pow2(k) - 1))
    ensures IndexOf(w, k, Pack(w, k, e)) == e.index
  {
    IndexCut(w, k, e);
    IndexCut(w, k, e.(index := Pow2(k) - 1));
    Masks(w, k, Pack(w, k, e));
  }

  lemma OneBit(g: Gate, i: nat, j: nat)
    requires i < 2 && j < 2
    ensures Bitwise(g, 1, i, j) == g.Bit(i, j)
  {
    Halve(0, i);
    Halve(0, j);
    assert Bitwise(g, 0, 0, 0) == 0;
  }

  lemma LowParts(k: nat, safe: bool, i: nat)
    requires i < Pow2(k)
    ensures (if safe then Pow2(k) else 0) + i == Cut(k, if safe then 1 else 0, i)
    ensures Pow2(k) == Cut(k, 1, 0)
  {
    CutIs(k, 1, 0);
    if safe {
      CutIs(k, 1, i);
    } else {
      CutIs(k, 0, i);
    }
  }

  /** Gating the safe bit alone. */
  lemma SafeGate(g: Gate, k: nat, safe: bool, i: nat)
    requires i < Pow2(k) && !g.XorGate?
    ensures Bitwise(g, k + 1, (if safe then Pow2(k) else 0) + i, Pow2(k))
         == if g.OrGate? then Pow2(k) + i else if safe then Pow2(k) else 0
  {
    var s := if safe then 1 else 0;
    LowParts(k, safe, i);
    BitwiseCut(g, 1, k, s, i, 1, 0);
    OneBit(g, s, 1);
    ZerosMask(k, i);
    LowParts(k, true, i);
    LowParts(k, safe, 0);
  }

  /** `entry | n` makes the entry safe. */
  lemma OrSafeIs(w: nat, k: nat, e: Entry)
    requires Fits(w, k, e)
    ensures Or(w, Pack(w, k, e), Pow2(k)) == Pack(w, k, e.(safe := true))
  {
    PackParts(w, k, e);
    PackParts(w, k, e.(safe := true));
    SetBit(w, k, CycleBits(w, k, e), e);
  }

  lemma SetBit(w: nat, k: nat, b: nat, e: Entry)
    requires Format(w, k) && b < Pow2(w - k - 1) && e.index < Pow2(k)
    ensures Or(w, b * Pow2(k + 1) + Low(k, e), Pow2(k)) == b * Pow2(k + 1) + Pow2(k) + e.index
  {
    SafeGate(OrGate, k, e.safe, e.index);
    LowGate(OrGate, w, k + 1, b, Low(k, e), Pow2(k));
  }

  /** The complement of a word complements its fields. */
  lemma NotIs(w: nat, k: nat, b: nat, x: nat, c: nat, y: nat)
    requires k <= w && b + c == Pow2(w - k) - 1 && x + y == Pow2(k) - 1
    ensures b * Pow2(k) + x < Pow2(w)
    ensures Not(w, b * Pow2(k) + x) == c * Pow2(k) + y
  {
    var m, p := Pow2(w - k), Pow2(k);
    PowAdd(w - k, k);
    Subtract(m - 1, b, p);
    MulMonotone(b, m - 1, p);
    MulSteps(m, p);
    assert c == m - 1 - b;
  }

  /** `entry & !n` makes the entry unsafe. */
  lemma MarkUnsafeIs(w: nat, k: nat, e: Entry)
    requires Fits(w, k, e)
    ensures Pow2(k) < Pow2(w)
    ensures MarkUnsafe(w, k, Pack(w, k, e)) == Pack(w, k, e.(safe := false))
  {
    PackParts(w, k, e);
    ClearBit(w, k, CycleBits(w, k, e), e, Pack(w, k, e), Pack(w, k, e.(safe := false)));
  }

  lemma ClearBit(w: nat, k: nat, b: nat, e: Entry, x: nat, y: nat)
    requires Format(w, k) && b < Pow2(w - k - 1) && e.index < Pow2(k)
    requires x == b * Pow2(k + 1) + Low(k, e) && y == b * Pow2(k + 1) + e.index
    ensures Pow2(k) < Pow2(w)
    ensures And(w, x, Not(w, Pow2(k))) == y
  {
    var ones: nat := Pow2(w - k - 1) - 1;
    NotIs(w, k + 1, 0, Pow2(k), ones, Pow2(k) - 1);
    OnesAbove(w, k + 1, ones, b, Low(k, e), Pow2(k) - 1);
    KeepIndex(k, e);
  }

  lemma KeepIndex(k: nat, e: Entry)
    requires e.index < Pow2(k)
    ensures And(k + 1, Low(k, e), Pow2(k) - 1) == e.index
  {
    LowParts(k, e.safe, e.index);
    LowMasks(k + 1, k, if e.safe then 1 else 0, e.index);
  }

  /** `hcycle ^ (!entry & n)` is the empty entry of ticket h, as safe as before. */
  lemma AdvanceIs(w: nat, k: nat, e: Entry, h: nat)
    requires Fits(w, k, e) && h < Pow2(w - 2)
    ensures Advance(w, k, Pack(w, k, e), h) == Pack(w, k, Entry(h, e.safe, Pow2(k) - 1))
  {
    PackParts(w, k, e);
    SlotOfSmall(Pow2(w), Pack(w, k, e));
    CycleIs(w, k, h);
    NotSafe(w, k, CycleBits(w, k, e), e);
    XorLow(w, k, h, if e.safe then 0 else Pow2(k));
    PackParts(w, k, Entry(h, e.safe, Pow2(k) - 1));
  }

  lemma NotSafe(w: nat, k: nat, b: nat, e: Entry)
    requires Format(w, k) && b < Pow2(w - k - 1) && e.index < Pow2(k)
    ensures b * Pow2(k + 1) + Low(k, e) < Pow2(w)
    ensures And(w, Not(w, b * Pow2(k + 1) + Low(k, e)), Pow2(k)) == if e.safe then 0 else Pow2(k)
  {
    var c: nat, i: nat := Pow2(w - k - 1) - 1 - b, Pow2(k) - 1 - e.index;
    var low: nat := (if !e.safe then Pow2(k) else 0) + i;
    NotIs(w, k + 1, b, Low(k, e), c, low);
    LowGate(AndGate, w, k + 1, c, low, Pow2(k));
    SafeGate(AndGate, k, !e.safe, i);
  }

  // ---- signed order ---------------------------------------------------------------------------------------

  /** The signed comparison tells the order of numbers less than half the word range apart. */
  lemma OrderIs(w: nat, a: int, b: int)
    requires w > 0 && a - b < Pow2(w - 1) && b - a <= Pow2(w - 1)
    ensures Order(w, a % Pow2(w), b % Pow2(w)) == a - b
  {
    var m := Pow2(w);
    ModDifference(a, b, m);
    if a - b >= 0 {
      SlotOfSmall(m, a - b);
    } else {
      DivisionIs(m, a - b, -1, a - b + m);
    }
  }

  lemma ModDifference(a: int, b: int, m: int)
    requires m > 0
    ensures (a % m - b % m) % m == (a - b) % m
  {
    DivisionParts(m, a);
    DivisionParts(m, b);
    DivisionParts(m, a - b);
    assert a % m - b % m == m * ((a - b) / m - a / m + b / m) + (a - b) % m;
    DivisionIs(m, a % m - b % m, (a - b) / m - a / m + b / m, (a - b) % m);
  }

  /** Comparing modup words compares cycles. */
  lemma CycleOrder(w: nat, k: nat, e: Entry, h: nat)
    requires Fits(w, k, e) && h < Pow2(w - 2)
    ensures Order(w, ModUp(w, k, Pack(w, k, e)), Cycle(w, k, h)) < 0 <==> CycleOf(k, e) < h / Pow2(k)
    ensures ModUp(w, k, Pack(w, k, e)) == Cycle(w, k, h) <==> CycleOf(k, e) == h / Pow2(k)
  {
    var x, y := Entry(e.turn, true, Pow2(k) - 1), Entry(h, true, Pow2(k) - 1);
    ModUpIs(w, k, e);
    CycleIs(w, k, h);
    PackInjective(w, k, x, y);
    PackWraps(w, k, x);
    PackWraps(w, k, y);
    CycleRange(w, k, x);
    CycleRange(w, k, y);
    DivisionParts(Pow2(k), h);
    PowAdd(w - 2 - k, k + 1);
    OrderOfCycles(w, CycleOf(k, x), CycleOf(k, y), Pow2(w - 2 - k), Pow2(k + 1), Pow2(k + 1) - 1);
  }

  lemma OrderOfCycles(w: nat, c: int, d: int, b: int, p: int, low: int)
    requires w > 0 && -1 <= c < b && 0 <= d < b && p > 0 && b * p == Pow2(w - 1)
    ensures Order(w, (c * p + low) % Pow2(w), (d * p + low) % Pow2(w)) < 0 <==> c < d
  {
    DifferenceRange(c, d, b, p);
    OrderIs(w, c * p + low, d * p + low);
  }

  lemma DifferenceRange(c: int, d: int, b: int, p: int)
    requires -1 <= c < b && 0 <= d < b && p > 0
    ensures -(b * p) <= c * p - d * p < b * p
    ensures c * p - d * p < 0 <==> c < d
  {
    MulSteps(b, p);
    Subtract(c, d, p);
    Subtract(d, c, p);
    if c < d {
      MulMonotone(d - c, b, p);
      MulMonotone(1, d - c, p);
    } else {
      MulMonotone(c - d, b - 1, p);
    }
  }
}

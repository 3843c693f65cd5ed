/** Bitwise operations on machine words of any width `w`, that is, on numbers below
    2^w, and what they do with masks of low bits. */
module Bits {
  import opened Arithmetic

  function Pow2(k: nat): (r: nat)
    ensures r > 0
  {
    if k == 0 then 1 else 2 * Pow2(k - 1)
  }

  datatype Gate = AndGate | OrGate | XorGate
  {
    function Bit(i: nat, j: nat): (r: nat)
      requires i < 2 && j < 2
      ensures r < 2
    {
      match this
      case AndGate => if i == 1 && j == 1 then 1 else 0
      case OrGate => if i == 1 || j == 1 then 1 else 0
      case XorGate => if i != j then 1 else 0
    }
  }

  /** The gate applied to each of the `w` low bits. */
  function Bitwise(g: Gate, w: nat, a: nat, b: nat): nat {
    if w == 0 then 0 else 2 * Bitwise(g, w - 1, a / 2, b / 2) + g.Bit(a % 2, b % 2)
  }

  function And(w: nat, a: nat, b: nat): nat { Bitwise(AndGate, w, a, b) }
  function Or(w: nat, a: nat, b: nat): nat { Bitwise(OrGate, w, a, b) }
  function Xor(w: nat, a: nat, b: nat): nat { Bitwise(XorGate, w, a, b) }

  function Not(w: nat, a: nat): nat
    requires a < Pow2(w)
  {
    Pow2(w) - 1 - a
  }

  /** The word whose bits from k upwards are `high` and whose k low bits are those of `low`. */
  function Cut(k: nat, high: nat, low: nat): nat {
    if k == 0 then high else 2 * Cut(k - 1, high, low / 2) + low % 2
  }

  lemma {:induction false} CutIs(k: nat, high: nat, low: nat)
    requires low < Pow2(k)
    ensures Cut(k, high, low) == high * Pow2(k) + low
  {
    if k > 0 {
      CutIs(k - 1, high, low / 2);
      Doubled(high, Pow2(k - 1), low / 2, low % 2);
    }
  }

  lemma Doubled(high: int, p: int, x: int, i: int)
    ensures 2 * (high * p + x) + i == high * (2 * p) + (2 * x + i)
  {
  }

  lemma {:induction false} PowAdd(j: nat, k: nat)
    ensures Pow2(j + k) == Pow2(j) * Pow2(k)
  {
    if j > 0 {
      PowAdd(j - 1, k);
    }
  }

  lemma {:induction false} BitwiseBound(g: Gate, w: nat, a: nat, b: nat)
    ensures Bitwise(g, w, a, b) < Pow2(w)
  {
    if w > 0 {
      BitwiseBound(g, w - 1, a / 2, b / 2);
    }
  }

  lemma Halve(a: nat, i: nat)
    requires i < 2
    ensures (2 * a + i) / 2 == a && (2 * a + i) % 2 == i
  {
  }

  /** The gates work on the two parts of a cut word separately. */
  lemma {:induction false} BitwiseCut(g: Gate, w: nat, k: nat, a: nat, x: nat, b: nat, y: nat)
    ensures Bitwise(g, w + k, Cut(k, a, x), Cut(k, b, y)) == Cut(k, Bitwise(g, w, a, b), Bitwise(g, k, x, y))
  {
    if k > 0 {
      BitwiseCut(g, w, k - 1, a, x / 2, b, y / 2);
      CutLast(k, a, x);
      CutLast(k, b, y);
      Halve(Bitwise(g, k - 1, x / 2, y / 2), g.Bit(x % 2, y % 2));
    }
  }

  lemma CutLast(k: nat, high: nat, low: nat)
    requires k > 0
    ensures Cut(k, high, low) / 2 == Cut(k - 1, high, low / 2) && Cut(k, high, low) % 2 == low % 2
  {
    Halve(Cut(k - 1, high, low / 2), low % 2);
  }

  /** Against ones: and keeps, or fills, xor complements. */
  lemma {:induction false} OnesMask(k: nat, x: nat)
    requires x < Pow2(k)
    ensures And(k, x, Pow2(k) - 1) == x
    ensures Or(k, x, Pow2(k) - 1) == Pow2(k) - 1
    ensures Xor(k, x, Pow2(k) - 1) == Pow2(k) - 1 - x
  {
    if k > 0 {
      Halve(Pow2(k - 1) - 1, 1);
      OnesMask(k - 1, x / 2);
    }
  }

  /** Against zeros: and clears, or and xor keep. */
  lemma {:induction false} ZerosMask(k: nat, x: nat)
    requires x < Pow2(k)
    ensures And(k, x, 0) == 0
    ensures Or(k, x, 0) == x
    ensures Xor(k, x, 0) == x
  {
    if k > 0 {
      ZerosMask(k - 1, x / 2);
    }
  }

  /** A gate with a word of low bits only: or and xor keep the upper bits, and clears them. */
  lemma LowGate(g: Gate, w: nat, k: nat, b: nat, x: nat, y: nat)
    requires k <= w && b < Pow2(w - k) && x < Pow2(k) && y < Pow2(k)
    ensures Bitwise(g, w, b * Pow2(k) + x, y) == (if g.AndGate? then 0 else b * Pow2(k)) + Bitwise(g, k, x, y)
  {
    CutIs(k, b, x);
    CutIs(k, 0, y);
    BitwiseCut(g, w - k, k, b, x, 0, y);
    BitwiseBound(g, k, x, y);
    ZerosMask(w - k, b);
    CutIs(k, if g.AndGate? then 0 else b, Bitwise(g, k, x, y));
  }

  /** Masking with ones above: only the low bits are touched. */
  lemma OnesAbove(w: nat, k: nat, ones: nat, b: nat, x: nat, y: nat)
    requires k <= w && ones == Pow2(w - k) - 1 && b <= ones && x < Pow2(k) && y < Pow2(k)
    ensures And(w, b * Pow2(k) + x, ones * Pow2(k) + y) == b * Pow2(k) + And(k, x, y)
  {
    CutIs(k, b, x);
    CutIs(k, ones, y);
    BitwiseCut(AndGate, w - k, k, b, x, ones, y);
    BitwiseBound(AndGate, k, x, y);
    OnesMask(w - k, b);
    CutIs(k, b, And(k, x, y));
  }

  lemma {:induction false} Commutes(g: Gate, w: nat, a: nat, b: nat)
    ensures Bitwise(g, w, a, b) == Bitwise(g, w, b, a)
  {
    if w > 0 {
      Commutes(g, w - 1, a / 2, b / 2);
    }
  }

  /** A word cut at bit k into quotient and remainder. */
  lemma CutOf(w: nat, k: nat, a: nat)
    requires k <= w && a < Pow2(w)
    ensures 0 <= a / Pow2(k) < Pow2(w - k) && 0 <= a % Pow2(k) < Pow2(k)
    ensures a == Cut(k, a / Pow2(k), a % Pow2(k))
    ensures a == (a / Pow2(k)) * Pow2(k) + a % Pow2(k)
  {
    DivisionParts(Pow2(k), a);
    PowAdd(w - k, k);
    QuotientBelow(Pow2(k), a, Pow2(w - k));
    CutIs(k, a / Pow2(k), a % Pow2(k));
  }

  /** Masking the low part of a cut word. */
  lemma LowMasks(w: nat, k: nat, d: nat, r: nat)
    requires k <= w && d < Pow2(w - k) && r < Pow2(k)
    ensures And(w, Cut(k, d, r), Pow2(k) - 1) == r
    ensures Or(w, Cut(k, d, r), Pow2(k) - 1) == Cut(k, d, Pow2(k) - 1)
  {
    LowAnd(w, k, d, r);
    LowOr(w, k, d, r);
  }

  lemma LowAnd(w: nat, k: nat, d: nat, r: nat)
    requires k <= w && d < Pow2(w - k) && r < Pow2(k)
    ensures And(w, Cut(k, d, r), Pow2(k) - 1) == r
  {
    CutIs(k, 0, Pow2(k) - 1);
    CutIs(k, 0, r);
    BitwiseCut(AndGate, w - k, k, d, r, 0, Pow2(k) - 1);
    ZerosMask(w - k, d);
    OnesMask(k, r);
  }

  lemma LowOr(w: nat, k: nat, d: nat, r: nat)
    requires k <= w && d < Pow2(w - k) && r < Pow2(k)
    ensures Or(w, Cut(k, d, r), Pow2(k) - 1) == Cut(k, d, Pow2(k) - 1)
  {
    CutIs(k, 0, Pow2(k) - 1);
    BitwiseCut(OrGate, w - k, k, d, r, 0, Pow2(k) - 1);
    ZerosMask(w - k, d);
    OnesMask(k, r);
  }

  /** The complement of a low mask is the mask of the high part. */
  lemma NotLowMask(w: nat, k: nat)
    requires k <= w
    ensures Pow2(k) <= Pow2(w)
    ensures Not(w, Pow2(k) - 1) == Cut(k, Pow2(w - k) - 1, 0)
  {
    PowAdd(w - k, k);
    MulSteps(Pow2(w - k), Pow2(k));
    CutIs(k, Pow2(w - k) - 1, 0);
  }

  lemma MulSteps(m: int, p: int)
    requires m > 0 && p > 0
    ensures (m - 1) * p == m * p - p >= 0
  {
  }

  lemma HighMask(w: nat, k: nat, d: nat, r: nat)
    requires k <= w && d < Pow2(w - k) && r < Pow2(k)
    ensures Pow2(k) <= Pow2(w)
    ensures And(w, Cut(k, d, r), Not(w, Pow2(k) - 1)) == Cut(k, d, 0)
  {
    NotLowMask(w, k);
    BitwiseCut(AndGate, w - k, k, d, r, Pow2(w - k) - 1, 0);
    OnesMask(w - k, d);
    ZerosMask(k, r);
  }

  /** `a & (2^k - 1)` is the remainder, `a & !(2^k - 1)` clears it, `a | (2^k - 1)` fills it. */
  lemma Masks(w: nat, k: nat, a: nat)
    requires k <= w && a < Pow2(w)
    ensures Pow2(k) <= Pow2(w)
    ensures And(w, a, Pow2(k) - 1) == a % Pow2(k)
    ensures And(w, a, Not(w, Pow2(k) - 1)) == a - a % Pow2(k)
    ensures Or(w, a, Pow2(k) - 1) == a - a % Pow2(k) + Pow2(k) - 1
  {
    CutOf(w, k, a);
    var d, r := a / Pow2(k), a % Pow2(k);
    LowMasks(w, k, d, r);
    HighMask(w, k, d, r);
    CutIs(k, d, 0);
    CutIs(k, d, Pow2(k) - 1);
  }
}

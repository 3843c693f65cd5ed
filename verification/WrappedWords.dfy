/** Ticket words modulo 2^w.  The word of a ticket wraps around once the laps have used up the
    high bits; since 2^w is a whole number of laps, the slot index is never disturbed, and words
    of tickets on one slot collide only 2^(w-k) laps apart. */
module WrappedWords {
  import opened Arithmetic
  import opened Bits
  import opened Laps

  /** A capacity, a width and a lap size as `Queue::new` leaves them: one_lap == 2^k. */
  predicate Config(n: nat, w: nat, k: nat) { 0 < n < Pow2(k) && k < w }

  function Word(n: nat, w: nat, k: nat, p: nat): (x: nat)
    requires Config(n, w, k)
    ensures x < Pow2(w)
  {
    DivisionParts(Pow2(w), Enc(n, Pow2(k), p));
    Enc(n, Pow2(k), p) % Pow2(w)
  }

  /** `x & !(one_lap - 1)` */
  function LapPart(w: nat, k: nat, x: nat): nat
    requires k < w
  {
    NotLowMask(w, k);
    And(w, x, Not(w, Pow2(k) - 1))
  }

  lemma WholeLaps(w: nat, k: nat)
    requires k < w
    ensures Pow2(w) == Pow2(w - k) * Pow2(k) && Pow2(w - k) >= 2
  {
    PowAdd(w - k, k);
  }

  /** Reducing modulo a multiple does not change the remainder. */
  lemma ModMultiple(x: nat, laps: nat, lap: nat)
    requires laps > 0 && lap > 0
    ensures laps * lap > 0 && (x % (laps * lap)) % lap == x % lap
    ensures x % (laps * lap) <= x && exists d: nat :: x == d * (laps * lap) + x % (laps * lap)
  {
    var m := laps * lap;
    Positive(laps, lap);
    DivisionParts(m, x);
    var d, r := x / m, x % m;
    assert x == d * m + r;
    Regroup(d, laps, lap);
    DivisionParts(lap, r);
    var e, s := r / lap, r % lap;
    Factor(d * laps, e, lap);
    assert x == lap * (d * laps + e) + s;
    DivisionIs(lap, x, d * laps + e, s);
    NonNegative(d, m);
  }

  lemma Positive(a: int, b: int)
    requires a > 0 && b > 0
    ensures a * b > 0
  {
  }

  lemma NonNegative(a: int, b: int)
    requires a >= 0 && b >= 0
    ensures a * b >= 0
  {
  }

  lemma Regroup(d: int, a: int, b: int)
    ensures d * (a * b) == (d * a) * b
  {
  }

  lemma Factor(d: int, e: int, m: int)
    ensures d * m + e * m == m * (d + e)
  {
  }

  /** The word keeps the slot index, and adding one never overflows. */
  lemma WordIndex(n: nat, w: nat, k: nat, p: nat)
    requires Config(n, w, k)
    ensures Word(n, w, k, p) % Pow2(k) == p % n
    ensures Word(n, w, k, p) + 1 < Pow2(w)
    ensures (Word(n, w, k, p) + 1) % Pow2(k) == p % n + 1
    ensures And(w, Word(n, w, k, p), Pow2(k) - 1) == p % n
  {
    var lap, x := Pow2(k), Word(n, w, k, p);
    WholeLaps(w, k);
    ModMultiple(Enc(n, lap, p), Pow2(w - k), lap);
    EncParts(n, lap, p);
    DivisionParts(n, p);
    DivisionParts(lap, x);
    DivisionIs(lap, x + 1, x / lap, x % lap + 1);
    Masks(w, k, x);
    LowPartBelow(x, Pow2(w - k), lap);
  }

  /** A word whose low part is not full is not the last word. */
  lemma LowPartBelow(x: nat, laps: nat, lap: nat)
    requires laps > 0 && lap > 0 && x < laps * lap && x % lap + 1 < lap
    ensures x + 1 < laps * lap
  {
    if x + 1 == laps * lap {
      Distribute(laps - 1, lap);
      DivisionIs(lap, x, laps - 1, lap - 1);
    }
  }

  lemma AddWraps(x: nat, y: nat, m: nat)
    requires m > 0
    ensures (x % m + y) % m == (x + y) % m
  {
    DivisionParts(m, x);
    DivisionParts(m, x % m + y);
    var d, e := x / m, (x % m + y) / m;
    Factor(d, e, m);
    DivisionIs(m, x + y, d + e, (x % m + y) % m);
  }

  /** A lap further, wrapping. */
  lemma WordLap(n: nat, w: nat, k: nat, p: nat)
    requires Config(n, w, k)
    ensures (Word(n, w, k, p) + Pow2(k)) % Pow2(w) == Word(n, w, k, p + n)
  {
    EncLap(n, Pow2(k), p);
    AddWraps(Enc(n, Pow2(k), p), Pow2(k), Pow2(w));
  }

  /** The next position, as push and pop compute it. */
  lemma WordNext(n: nat, w: nat, k: nat, p: nat)
    requires Config(n, w, k)
    ensures p % n + 1 < n ==> Word(n, w, k, p + 1) == Word(n, w, k, p) + 1
    ensures p % n + 1 >= n ==>
      Word(n, w, k, p + 1) == (LapPart(w, k, Word(n, w, k, p)) + Pow2(k)) % Pow2(w)
  {
    var lap, x, e := Pow2(k), Word(n, w, k, p), Enc(n, Pow2(k), p);
    EncNext(n, lap, p);
    WordIndex(n, w, k, p);
    Masks(w, k, x);
    if p % n + 1 < n {
      AddWraps(e, 1, Pow2(w));
      SlotOfSmall(Pow2(w), x + 1);
    } else {
      WordBelowEnc(n, w, k, p);
      AddWraps(e, lap - p % n, Pow2(w));
    }
  }

  lemma WordBelowEnc(n: nat, w: nat, k: nat, p: nat)
    requires Config(n, w, k)
    ensures p % n < Pow2(k) && Word(n, w, k, p) >= p % n
    ensures LapPart(w, k, Word(n, w, k, p)) + Pow2(k) == Word(n, w, k, p) + (Pow2(k) - p % n)
  {
    var x := Word(n, w, k, p);
    WordIndex(n, w, k, p);
    Masks(w, k, x);
    DivisionParts(n, p);
    DivisionParts(Pow2(k), x);
    NonNegative(x / Pow2(k), Pow2(k));
  }

  /** Tickets at most a lap apart have different words. */
  lemma WordsDiffer(n: nat, w: nat, k: nat, p: nat, q: nat)
    requires Config(n, w, k) && p < q <= p + n
    ensures Word(n, w, k, p) != Word(n, w, k, q)
  {
    if q < p + n {
      SlotsDiffer(n, p, q);
      WordIndex(n, w, k, p);
      WordIndex(n, w, k, q);
    } else {
      LapsDiffer(n, w, k, p);
    }
  }

  lemma SlotsDiffer(n: nat, p: nat, q: nat)
    requires 0 < n && p < q < p + n
    ensures p % n != q % n
  {
    if p % n == q % n {
      SameSlotGap(n, p, q);
    }
  }

  lemma LapsDiffer(n: nat, w: nat, k: nat, p: nat)
    requires Config(n, w, k)
    ensures Word(n, w, k, p) != Word(n, w, k, p + n)
  {
    WordLap(n, w, k, p);
    TwoLapsFit(w, k);
    ShiftMovesWord(Word(n, w, k, p), Pow2(k), Pow2(w));
  }

  lemma TwoLapsFit(w: nat, k: nat)
    requires k < w
    ensures 2 * Pow2(k) <= Pow2(w)
  {
    PowMonotone(k + 1, w);
  }

  lemma ShiftMovesWord(x: nat, lap: nat, m: nat)
    requires 0 < lap && 2 * lap <= m && x < m
    ensures (x + lap) % m != x
  {
    if x + lap < m {
      SlotOfSmall(m, x + lap);
    } else {
      DivisionIs(m, x + lap, 1, x + lap - m);
    }
  }
}

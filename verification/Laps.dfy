/** How ticket numbers are written in a word: the lap in the high bits, the slot index in
    the low bits, with one_lap the smallest power of two above the capacity. */
module Laps {
  import opened Arithmetic
  import opened Bits

  /** `one_lap_for`: the smallest power of two strictly greater than the capacity. */
  method OneLapFor(cap: nat) returns (lap: nat, k: nat)
    requires cap >= 1
    ensures lap == Pow2(k) && lap > cap
    ensures forall j: nat :: Pow2(j) > cap ==> j >= k
  {
    var need := cap + 1;
    lap, k := 2, 1;
    while lap < need
      invariant k >= 1 && lap == Pow2(k) && Pow2(k - 1) <= cap
      decreases need - lap
    {
      lap, k := lap * 2, k + 1;
    }
    forall j: nat | Pow2(j) > cap ensures j >= k {
      if j < k {
        PowMonotone(j, k - 1);
      }
    }
  }

  lemma {:induction false} PowMonotone(j: nat, k: nat)
    requires j <= k
    ensures Pow2(j) <= Pow2(k)
    decreases k
  {
    if j < k {
      PowMonotone(j, k - 1);
    }
  }

  /** The word of ticket p. */
  function Enc(n: nat, lap: nat, p: nat): nat
    requires 0 < n < lap
  {
    (p / n) * lap + p % n
  }

  lemma EncParts(n: nat, lap: nat, p: nat)
    requires 0 < n < lap
    ensures Enc(n, lap, p) / lap == p / n
    ensures Enc(n, lap, p) % lap == p % n
    ensures (Enc(n, lap, p) + 1) % lap == p % n + 1
  {
    DivisionParts(n, p);
    DivisionIs(lap, Enc(n, lap, p), p / n, p % n);
    DivisionIs(lap, Enc(n, lap, p) + 1, p / n, p % n + 1);
  }

  /** A lap further in tickets is `one_lap` further in words. */
  lemma EncLap(n: nat, lap: nat, p: nat)
    requires 0 < n < lap
    ensures Enc(n, lap, p + n) == Enc(n, lap, p) + lap
  {
    SlotOfNextLap(n, p);
    Distribute(p / n, lap);
  }

  /** The next ticket: one more, or the start of the next lap. */
  lemma EncNext(n: nat, lap: nat, p: nat)
    requires 0 < n < lap
    ensures p % n + 1 < n ==> Enc(n, lap, p + 1) == Enc(n, lap, p) + 1
    ensures p % n + 1 >= n ==> Enc(n, lap, p + 1) == Enc(n, lap, p) - p % n + lap
  {
    var d := p / n;
    DivisionParts(n, p);
    if p % n + 1 < n {
      DivisionIs(n, p + 1, d, p % n + 1);
    } else {
      Distribute(d, n);
      DivisionIs(n, p + 1, d + 1, 0);
      Distribute(d, lap);
    }
  }

  lemma EncMonotone(n: nat, lap: nat, p: nat, q: nat)
    requires 0 < n < lap && p <= q
    ensures Enc(n, lap, p) <= Enc(n, lap, q)
    ensures p < q ==> Enc(n, lap, p) < Enc(n, lap, q)
  {
    if p < q {
      EncMonotone(n, lap, p, q - 1);
      EncNext(n, lap, q - 1);
      DivisionParts(n, q - 1);
    }
  }

  lemma EncInjective(n: nat, lap: nat, p: nat, q: nat)
    requires 0 < n < lap
    ensures Enc(n, lap, p) == Enc(n, lap, q) <==> p == q
  {
    if p <= q {
      EncMonotone(n, lap, p, q);
    } else {
      EncMonotone(n, lap, q, p);
    }
  }

  /** The stamp of a slot: its ticket's word, plus one when the value is published. */
  function StampWord(n: nat, lap: nat, q: nat, full: bool): nat
    requires 0 < n < lap
  {
    Enc(n, lap, q) + if full then 1 else 0
  }

  /** On one slot, the tests that push and pop make on words decide exactly the
      questions they stand for on tickets. */
  lemma StampTests(n: nat, lap: nat, t: nat, q: nat, full: bool)
    requires 0 < n < lap && t % n == q % n
    ensures StampWord(n, lap, q, full) == Enc(n, lap, t) <==> q == t && !full
    ensures StampWord(n, lap, q, full) == Enc(n, lap, t) + 1 <==> q == t && full
    ensures StampWord(n, lap, q, full) + lap == Enc(n, lap, t) + 1 <==> full && q + n == t
  {
    EncParts(n, lap, q);
    EncParts(n, lap, t);
    EncParts(n, lap, q + n);
    EncLap(n, lap, q);
    SlotOfNextLap(n, q);
    EncInjective(n, lap, q, t);
    EncInjective(n, lap, q + n, t);
  }
}

/** Division facts shared by the two rings: which positions fall on the same slot. */
module Arithmetic {

  lemma DivisionIs(n: int, p: int, d: int, r: int)
    requires 0 <= r < n && p == n * d + r
    ensures p / n == d && p % n == r
  {
    var d', r' := p / n, p % n;
    assert n * (d - d') == r' - r;
    assert -n < r' - r < n;
    MultipleInRange(n, d - d');
  }

  lemma DivisionParts(n: int, p: int)
    requires n > 0
    ensures p == (p / n) * n + p % n && 0 <= p % n < n
    ensures p >= 0 ==> p / n >= 0
  {
  }

  lemma CancelFactor(n: int, d: int, m: int)
    requires n > 0 && d * n < m * n
    ensures d < m
  {
  }

  lemma QuotientBelow(n: int, p: int, m: int)
    requires n > 0 && 0 <= p < m * n
    ensures p / n < m
  {
    DivisionParts(n, p);
    CancelFactor(n, p / n, m);
  }

  lemma MultipleInRange(n: int, k: int)
    requires n > 0 && -n < n * k < n
    ensures k == 0
  {
  }

  /** One lap further is the same slot. */
  lemma SlotOfNextLap(n: int, p: int)
    requires n > 0
    ensures (p + n) % n == p % n
    ensures (p + n) / n == p / n + 1
  {
    assert p + n == n * (p / n + 1) + p % n;
    DivisionIs(n, p + n, p / n + 1, p % n);
  }

  /** Different positions on one slot are at least a lap apart. */
  lemma SameSlotGap(n: int, p: int, q: int)
    requires n > 0 && p % n == q % n && p < q
    ensures p + n <= q
  {
    assert n * (q / n - p / n) == q - p;
    if q - p < n {
      MultipleInRange(n, q / n - p / n);
    }
  }

  lemma SlotOfSmall(n: int, p: int)
    requires 0 <= p < n
    ensures p % n == p && p / n == 0
  {
    DivisionIs(n, p, 0, p);
  }

  lemma Distribute(d: int, m: int)
    ensures (d + 1) * m == d * m + m
  {
  }

  /** How two positions at most a lap apart lie, told from their slots. */
  lemma WindowLength(n: int, h: int, t: int)
    requires n > 0 && h <= t <= h + n
    ensures h % n < t % n ==> t - h == t % n - h % n
    ensures h % n > t % n ==> t - h == n - h % n + t % n
    ensures h % n == t % n ==> t == h || t == h + n
  {
    var d := h / n;
    DivisionParts(n, h);
    Distribute(d, n);
    Distribute(d + 1, n);
    if t - d * n < n {
      DivisionIs(n, t, d, t - d * n);
    } else if t - d * n < 2 * n {
      DivisionIs(n, t, d + 1, t - (d + 1) * n);
    }
  }

  /** The i-th slot of a walk that starts at position h. */
  lemma WalkIndex(n: int, h: int, i: int)
    requires n > 0 && 0 <= i < n
    ensures (h + i) % n == if h % n + i < n then h % n + i else h % n + i - n
  {
    DivisionParts(n, h);
    Distribute(h / n, n);
    if h % n + i < n {
      DivisionIs(n, h + i, h / n, h % n + i);
    } else {
      DivisionIs(n, h + i, h / n + 1, h % n + i - n);
    }
  }
}

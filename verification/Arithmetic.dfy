/** Integer facts the solver does not find by itself. */
module Arithmetic {
  function Min(a: int, b: int): int { if a <= b then a else b }

  lemma MultiplyMonotone(a: int, b: int, s: nat)
    requires a <= b
    ensures a * s <= b * s
  {
  }

  lemma Distribute(a: int, b: int)
    ensures (a + 1) * b == a * b + b
  {
  }

  lemma CeilingDivision(n: nat, s: int, k: nat)
    requires s > 0
    ensures k * s >= n <==> k >= (n + s - 1) / s
  {
    var q := (n + s - 1) / s;
    assert q * s <= n + s - 1 < q * s + s;
    if k >= q {
      MultiplyMonotone(q, k, s);
    } else {
      MultiplyMonotone(k + 1, q, s);
      assert (k + 1) * s == k * s + s;
    }
  }

  lemma QuotientBound(k: int, gap: int, length: int)
    requires gap > 0 && k * gap <= length
    ensures k <= length / gap
  {
    var q := length / gap;
    assert length < (q + 1) * gap;
    if k > q {
      MultiplyMonotone(q + 1, k, gap);
    }
  }
}

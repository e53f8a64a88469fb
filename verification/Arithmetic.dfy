/** Counting and division facts shared by the models. */
module Arithmetic {
  function Bit(b: bool): int { if b then 1 else 0 }

  /** Two sets that differ at most in `x`. */
  lemma CountStep(before: set<nat>, after: set<nat>, x: nat)
    requires forall y :: y != x ==> (y in before <==> y in after)
    ensures |after| == |before| - Bit(x in before) + Bit(x in after)
  {
    assert after - {x} == before - {x};
    assert x in before ==> |before - {x}| == |before| - 1;
    assert x in after ==> |after - {x}| == |after| - 1;
    assert x !in before ==> before - {x} == before;
    assert x !in after ==> after - {x} == after;
  }

  lemma DivisionIsUnique(q: int, r: int, q': int, r': int, n: int)
    requires 0 <= r < n && 0 <= r' < n && q * n + r == q' * n + r'
    ensures q == q' && r == r'
  {
    if q > q' {
      assert q * n == (q - q') * n + q' * n;
      Multiple(q - q', n);
    } else if q < q' {
      assert q' * n == (q' - q) * n + q * n;
      Multiple(q' - q, n);
    }
  }

  lemma Multiple(q: int, n: int)
    requires q >= 1 && n >= 0
    ensures q * n >= n
  {
    assert q * n == (q - 1) * n + n;
  }

  lemma NextMod(x: nat, n: nat)
    requires n > 0
    ensures (x + 1) % n == if x % n + 1 == n then 0 else x % n + 1
  {
    var q, r := x / n, x % n;
    assert x == q * n + r;
    if r + 1 == n {
      assert (q + 1) * n == q * n + n;
      DivisionIsUnique((x + 1) / n, (x + 1) % n, q + 1, 0, n);
    } else {
      DivisionIsUnique((x + 1) / n, (x + 1) % n, q, r + 1, n);
    }
  }
}

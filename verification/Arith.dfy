/** Division facts the solver does not find by itself. */
module Arith {

  lemma {:induction false} MulLess(a: nat, b: nat, n: nat)
    requires a < b
    ensures a * n >= 0 && a * n + n <= b * n
    decreases b - a
  {
    assert b * n == (b - 1) * n + n;
    if a < b - 1 {
      MulLess(a, b - 1, n);
    }
  }

  lemma DivUnique(a: nat, n: nat, k: nat, j: nat)
    requires n > 0 && a == k * n + j && j < n
    ensures a / n == k && a % n == j
  {
    if a / n < k {
      MulLess(a / n, k, n);
      assert false;
    } else if k < a / n {
      MulLess(k, a / n, n);
      assert false;
    }
  }

  lemma DivBelow(q: nat, n: nat, k: nat)
    requires n > 0 && q < k * n
    ensures q / n < k
  {
    if q / n >= k {
      if k < q / n { MulLess(k, q / n, n); }
      assert false;
    }
  }

  lemma DivIff(q: nat, n: nat, k: nat)
    requires n > 0
    ensures q / n < k <==> q < k * n
  {
    if q < k * n {
      DivBelow(q, n, k);
    } else if q / n < k {
      MulLess(q / n, k, n);
      assert false;
    }
  }

  lemma DivMono(a: nat, b: nat, n: nat)
    requires n > 0 && a <= b
    ensures a / n <= b / n
  {
    DivIff(b, n, b / n + 1);
    DivIff(a, n, b / n + 1);
  }

  lemma DivShift(k: nat, m: nat, n: nat)
    requires n > 0
    ensures (k * n + m) / n == k + m / n
  {
    DivBack(m, n);
    assert (k + m / n) * n == k * n + m / n * n;
    DivUnique(k * n + m, n, k + m / n, m % n);
  }

  lemma DivBack(a: nat, n: nat)
    requires n > 0
    ensures a == a / n * n + a % n && a % n < n
  {
  }

  lemma SameDiv(a: nat, b: nat, n: nat)
    requires n > 0 && a / n == b / n && a % n == b % n
    ensures a == b
  {
    DivBack(a, n);
    DivBack(b, n);
  }

  lemma NextMultiple(a: int, n: int)
    ensures (a + 1) * n == a * n + n
  {
  }
}

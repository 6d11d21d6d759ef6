/** Facts about Euclidean division by a positive divisor that the schedule
    proofs need. */
module Arith {

  lemma DivModSucc(j: nat, n: nat)
    requires n > 0
    ensures j % n < n - 1 ==> (j + 1) % n == j % n + 1 && (j + 1) / n == j / n
    ensures j % n == n - 1 ==> (j + 1) % n == 0 && (j + 1) / n == j / n + 1
  {
    var q, m := j / n, j % n;
    assert j == q * n + m;
    if m < n - 1 {
      DivModUnique(j + 1, n, q, m + 1);
    } else {
      assert j + 1 == (q + 1) * n + 0;
      DivModUnique(j + 1, n, q + 1, 0);
    }
  }

  lemma DivModUnique(a: int, n: int, q: int, m: int)
    requires n > 0 && 0 <= m < n && a == q * n + m
    ensures a / n == q && a % n == m
  {
    var q', m' := a / n, a % n;
    assert a == q' * n + m';
    assert (q - q') * n == m' - m;
    if q > q' {
      MulAtLeast(q - q', n);
      assert false;
    } else if q < q' {
      MulAtLeast(q' - q, n);
      assert false;
    }
  }

  lemma {:induction false} MulAtLeast(d: int, n: int)
    requires d >= 1 && n > 0
    ensures d * n >= n
  {
    if d > 1 {
      MulAtLeast(d - 1, n);
      assert d * n == (d - 1) * n + n;
    }
  }

  lemma ModSucc(q: nat, n: nat)
    requires n > 0
    ensures (q % n + 1) % n == (q + 1) % n
  {
    DivModSucc(q, n);
    if q % n < n - 1 {
      DivModUnique(q % n + 1, n, 0, q % n + 1);
    } else {
      DivModUnique(n, n, 1, 0);
    }
  }

  lemma DivMonotone(a: int, b: int, d: int)
    requires a <= b && d > 0
    ensures a / d <= b / d
  {
    var qa, qb := a / d, b / d;
    assert a == qa * d + a % d && b == qb * d + b % d;
    if qa > qb {
      MulAtLeast(qa - qb, d);
      assert false;
    }
  }
}

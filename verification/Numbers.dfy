/** Arithmetic shared by the components. */
module Numbers {
  function Larger(x: real, y: real): real { if x >= y then x else y }

  lemma Product(a: real, b: real)
    requires a >= 0.0 && b >= 0.0
    ensures a * b >= 0.0 && (a > 0.0 && b > 0.0 ==> a * b > 0.0)
  {}

  lemma Cancel(a: real, b: real, n: real)
    requires n > 0.0 && a * n <= b * n
    ensures a <= b
  {
    assert (a - b) * n == a * n - b * n;
    if a > b {
      Product(a - b, n);
    }
  }

  lemma DivModStep(m: nat, n: nat)
    requires n > 0
    ensures if m % n + 1 < n then (m + 1) / n == m / n && (m + 1) % n == m % n + 1
            else (m + 1) / n == m / n + 1 && (m + 1) % n == 0
  {
    var q, r := m / n, m % n;
    assert m == q * n + r;
    if r + 1 < n {
      DivModUnique(m + 1, n, q, r + 1);
    } else {
      assert (q + 1) * n == q * n + n;
      DivModUnique(m + 1, n, q + 1, 0);
    }
  }

  /** Quotient and remainder are determined by their equation. */
  lemma DivModUnique(m: nat, n: nat, q: nat, r: nat)
    requires n > 0 && m == q * n + r && r < n
    ensures m / n == q && m % n == r
  {
    var d := m / n - q;
    assert (m / n) * n + m % n == m;
    assert d * n == (m / n) * n - q * n;
    MultipleBounds(d, n);
  }

  lemma MultipleBounds(d: int, n: int)
    requires n > 0
    ensures d >= 1 ==> d * n >= n
    ensures d <= -1 ==> d * n <= -n
  {
    if d >= 1 {
      assert (d - 1) * n >= 0;
    } else if d <= -1 {
      assert (d + 1) * n <= 0;
    }
  }

  lemma RemainderOfSum(q: nat, r: nat, k: nat, s: nat, m: nat)
    requires r < m && s < m
    ensures (q * m + r + k * m + s) % m == if r + s < m then r + s else r + s - m
  {
    var sum := q * m + r + k * m + s;
    assert (q + k) * m == q * m + k * m;
    assert (q + k + 1) * m == (q + k) * m + m;
    if r + s < m {
      DivModUnique(sum, m, q + k, r + s);
    } else {
      DivModUnique(sum, m, q + k + 1, r + s - m);
    }
  }

  /** Two numbers agree modulo `m` exactly when `m` divides their difference. */
  lemma SameRemainderIff(i: nat, d: nat, m: nat)
    requires m > 0
    ensures i % m == (i + d) % m <==> d % m == 0
  {
    var r, s := i % m, d % m;
    assert i == (i / m) * m + r;
    assert d == (d / m) * m + s;
    RemainderOfSum(i / m, r, d / m, s, m);
  }

  /** Two numbers just below multiples of `per` that agree modulo `m` are a number of `per`s apart that `m` divides. */
  lemma MultiplesApart(i: nat, j: nat, per: nat, m: nat) returns (d: nat)
    requires i <= j && per > 0 && m > 0
    requires (i + 1) % per == 0 && (j + 1) % per == 0 && i % m == j % m
    ensures d * per == j - i && (d * per) % m == 0
  {
    SameRemainderIff(i + 1, j - i, per);
    SameRemainderIff(i, j - i, m);
    d := (j - i) / per;
    assert j - i == d * per + (j - i) % per;
  }
}

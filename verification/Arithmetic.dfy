/** Minimum and maximum, sums, and division with remainder. */
module Arithmetic {

  function Min(a: int, b: int): int { if a <= b then a else b }

  function Max(a: int, b: int): int { if a >= b then a else b }

  function Sum(xs: seq<nat>): nat {
    if xs == [] then 0 else xs[0] + Sum(xs[1..])
  }

  lemma {:induction false} SumAppend(xs: seq<nat>, x: nat)
    ensures Sum(xs + [x]) == Sum(xs) + x
  {
    if xs != [] {
      assert (xs + [x])[1..] == xs[1..] + [x];
      SumAppend(xs[1..], x);
    }
  }

  lemma MulLe(m: nat, x: int, y: int)
    requires x <= y
    ensures m * x <= m * y
  {
  }

  // Quotient and remainder are unique.
  lemma ModOf(q: nat, r: nat, m: nat)
    requires r < m
    ensures (m * q + r) % m == r && (m * q + r) / m == q
  {
    var a := m * q + r;
    var p := a / m;
    assert a == m * p + a % m;
    assert m * (q + 1) == m * q + m && m * (p + 1) == m * p + m;
    if p > q {
      MulLe(m, q + 1, p);
    } else if p < q {
      MulLe(m, p + 1, q);
    }
  }
}

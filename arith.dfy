/*
 * Facts about multiplication and Euclidean remainder that the pager's
 * index arithmetic needs. Dafny's `%` never returns a negative value.
 */
module Arith {

  function Abs(n: int): (r: nat)
    ensures r == n || r == -n
  {
    if n < 0 then -n else n
  }

  lemma MulMono(a: int, b: int, m: int)
    requires a <= b && 0 <= m
    ensures a * m <= b * m
  {
    assert b * m - a * m == (b - a) * m;
  }

  lemma MulStrict(a: int, b: int, m: int)
    requires a < b && 0 < m
    ensures a * m < b * m
  {
    assert b * m - a * m == (b - a) * m;
    MulMono(1, b - a, m);
  }

  /** A multiple of `m` leaves remainder zero. */
  lemma ModOfMultiple(q: int, m: int)
    requires 0 < m
    ensures (q * m) % m == 0
  {
    var a := q * m;
    var d := q - a / m;
    assert a == (a / m) * m + a % m;
    assert d * m == a % m by {
      assert d * m == q * m - (a / m) * m;
    }
    if d >= 1 {
      MulMono(1, d, m);
    } else if d <= -1 {
      MulMono(d, -1, m);
    }
  }

  /** Remainder zero means the value is `m` times its quotient. */
  lemma ZeroModIsMultiple(a: int, m: int)
    requires 0 < m && a % m == 0
    ensures a == (a / m) * m
  {
  }

  lemma NegatedMod(a: int, m: int)
    requires 0 < m
    ensures (a % m == 0) <==> ((-a) % m == 0)
  {
    if a % m == 0 {
      ZeroModIsMultiple(a, m);
      assert -a == (-(a / m)) * m;
      ModOfMultiple(-(a / m), m);
    }
    if (-a) % m == 0 {
      ZeroModIsMultiple(-a, m);
      assert a == (-((-a) / m)) * m;
      ModOfMultiple(-((-a) / m), m);
    }
  }

  /**
   * A multiple of `m` that lies in the window `(k*m, (k+1)*m]` is the
   * window's upper end.
   */
  lemma MultipleInWindow(i: int, m: int, k: int)
    requires 0 < m && i % m == 0
    requires k * m < i <= (k + 1) * m
    ensures i == (k + 1) * m
  {
    var q := i / m;
    ZeroModIsMultiple(i, m);
    if q <= k {
      MulMono(q, k, m);
    } else if q >= k + 2 {
      MulStrict(k + 1, q, m);
    }
  }
}

/** C and C++ arithmetic that differs from Dafny's: the `(int)` cast of a
    double truncates toward zero, and `/` on `int` truncates toward zero
    where Dafny's is Euclidean. */
module CMath {

  /** `(int) r` for a double `r`: truncation toward zero. */
  function Trunc(r: real): (i: int)
    ensures 0.0 <= r ==> i as real <= r < i as real + 1.0
    ensures r < 0.0 ==> i as real - 1.0 < r <= i as real
  {
    if r >= 0.0 then r.Floor else -((-r).Floor)
  }

  /** `a / 2` on C `int`s: the quotient truncated toward zero. */
  function Half(a: int): (q: int)
    ensures 0 <= a ==> 0 <= a - 2 * q <= 1
    ensures a < 0 ==> -1 <= a - 2 * q <= 0
  {
    if a >= 0 then a / 2 else -((-a) / 2)
  }

  /** Truncating division is odd and monotone. */
  lemma HalfMonotone(a: int, b: int)
    requires a <= b
    ensures Half(-a) == -Half(a) && Half(-b) == -Half(b)
    ensures Half(a) <= Half(b)
  {
  }

  function Abs(r: real): (a: real)
    ensures a >= 0.0 && (a == r || a == -r)
  {
    if r < 0.0 then -r else r
  }

  function Min(a: real, b: real): (m: real)
    ensures m <= a && m <= b && (m == a || m == b)
  {
    if a < b then a else b
  }

  /** A fraction of a positive length is no longer than the length. */
  lemma ScaleWithin(f: real, d: real)
    requires 0.0 <= f <= 1.0 && d > 0.0
    ensures 0.0 <= f * d <= d
  {
    assert (1.0 - f) * d >= 0.0;
  }

  /** `k` of `n` equal steps that make up a positive length `m` stay below
      `m`. */
  lemma StepsWithin(k: int, n: int, m: real)
    requires 0 <= k < n && m > 0.0
    ensures 0.0 <= k as real * (m / n as real) < m
  {
    var s := m / n as real;
    assert n as real * s == m;
    assert (n - k) as real * s == n as real * s - k as real * s;
    assert (n - k) as real * s >= s > 0.0;
  }

  /** Truncation moves a nonnegative value by less than one cell when the
      value moves by less than one. */
  lemma TruncNear(r: real, d: real)
    requires 0.0 <= r && 0.0 <= r + d && -1.0 < d < 1.0
    ensures Trunc(r) - 1 <= Trunc(r + d) <= Trunc(r) + 1
  {
  }
}

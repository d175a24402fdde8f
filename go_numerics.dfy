/** Go's integer division, remainder and float-to-int conversion, written out over
    Dafny's unbounded `int` and `real` (Dafny's own `/` and `%` are Euclidean). */
module GoNumerics {

  /** Go's `int(f)` for a float `f`: truncation toward zero. */
  function Trunc(r: real): (i: int)
    ensures r >= 0.0 ==> 0 <= i && (i as real) <= r < (i as real) + 1.0
    ensures r < 0.0 ==> i <= 0 && (i as real) - 1.0 < r <= (i as real)
  {
    if r >= 0.0 then r.Floor else -((-r).Floor)
  }

  /** Go's `a / b` for a positive divisor: the quotient rounded toward zero. */
  function GoDiv(a: int, b: int): (q: int)
    requires b > 0
    ensures a >= 0 ==> 0 <= a - q * b < b
    ensures a < 0 ==> -b < a - q * b <= 0
  {
    if a >= 0 then a / b else -((-a) / b)
  }

  /** Go's `a % b` for a positive divisor: the remainder takes the sign of `a`. */
  function GoRem(a: int, b: int): (r: int)
    requires b > 0
    ensures a == GoDiv(a, b) * b + r
    ensures a >= 0 ==> 0 <= r < b
    ensures a < 0 ==> -b < r <= 0
  {
    a - GoDiv(a, b) * b
  }

  /** Index of the `j`-th cyclic neighbour of `i` in a slice of length `n`, which the
      source writes `(i + j + n) % n` (see `CyclicIndexIsGoRem`). */
  function CyclicIndex(i: int, j: int, n: int): (k: int)
    requires 0 <= i < n && -2 <= j <= 2
    ensures 0 <= k < n
  {
    var a := i + j + n;
    if a < 0 then 0
    else if a < n then a
    else if a < 2 * n then a - n
    else if a < 3 * n then a - 2 * n
    else 0
  }

  /** The cyclic index is Go's remainder `(i + j + n) % n`. For `n == 1` and `j == -2`
      the dividend is -1, and Go's `-1 % 1` is 0. */
  lemma CyclicIndexIsGoRem(i: int, j: int, n: int)
    requires 0 <= i < n && -2 <= j <= 2
    ensures CyclicIndex(i, j, n) == GoRem(i + j + n, n)
  {
    var a := i + j + n;
    if a < 0 {
      assert n == 1;
    } else if a < n {
      QuotientIs(a, n, 0);
    } else if a < 2 * n {
      QuotientIs(a, n, 1);
    } else if a < 3 * n {
      QuotientIs(a, n, 2);
    } else {
      assert n == 1 && a == 3;
      QuotientIs(a, n, 3);
    }
  }

  /** A quotient pinned down by its bracket. */
  lemma QuotientIs(a: int, b: int, q: int)
    requires b > 0 && 0 <= q && q * b <= a < (q + 1) * b
    ensures GoDiv(a, b) == q
  {
    var d := a / b;
    assert d * b <= a < (d + 1) * b;
    MulLtCancel(d, q + 1, b);
    MulLtCancel(q, d + 1, b);
  }

  /** Multiplying by a positive number keeps a strict order, so it can be cancelled. */
  lemma MulLtCancel(d: int, e: int, b: int)
    requires b > 0 && d * b < e * b
    ensures d < e
  {
    assert (e - d) * b > 0;
  }

  /** The non-strict form of `MulLtCancel`. */
  lemma MulLeCancel(d: int, e: int, b: int)
    requires b > 0 && d * b <= e * b
    ensures d <= e
  {
    assert (e + 1) * b == e * b + b;
    MulLtCancel(d, e + 1, b);
  }

  function Abs(r: real): real { if r < 0.0 then -r else r }

  function MaxReal(a: real, b: real): (m: real)
    ensures m >= a && m >= b && (m == a || m == b)
  {
    if a >= b then a else b
  }
}

/** The slice of JavaScript number semantics the progression engine relies
    on, stated over mathematical integers. */
module JsMath {

  /** A number that may be NaN, the value JavaScript produces when it does
      arithmetic on `undefined`. */
  datatype Num = Finite(value: int) | NaN

  /** JavaScript `+` on possibly-NaN numbers: NaN is absorbing. */
  function AddNum(a: Num, b: Num): (r: Num)
    ensures r.Finite? <==> a.Finite? && b.Finite?
    ensures r.Finite? ==> r.value - b.value == a.value
  {
    if a.Finite? && b.Finite? then Finite(a.value + b.value) else NaN
  }

  /** `Math.min` on two integers. */
  function Min(a: int, b: int): (r: int)
    ensures r <= a && r <= b
    ensures r == a || r == b
  {
    if a <= b then a else b
  }

  /** `Math.max` on two integers. */
  function Max(a: int, b: int): (r: int)
    ensures r >= a && r >= b
    ensures r == a || r == b
  {
    if a >= b then a else b
  }

  /** `Math.min` on two reals: the `real` counterpart of `Min`, used for
      the upper clamp of the progress percentages. */
  function MinReal(a: real, b: real): (r: real)
    ensures r <= a && r <= b
    ensures r == a || r == b
  {
    if a <= b then a else b
  }

  /** `Math.max` on two reals: the `real` counterpart of `Max`, used for
      the lower clamp of the progress percentages. */
  function MaxReal(a: real, b: real): (r: real)
    ensures r >= a && r >= b
    ensures r == a || r == b
  {
    if a >= b then a else b
  }

  /** `Math.ceil(x / k)` for a positive divisor `k` and an integer `x` of
      either sign. Dafny's `/` is Euclidean, so the ceiling is written as
      the negated floor of the negated quotient. */
  function CeilDiv(x: int, k: int): (r: int)
    requires k > 0
    ensures r * k >= x
    ensures (r - 1) * k < x
  {
    var q := (-x) / k;
    assert -x == k * q + (-x) % k;
    -q
  }

  /** The ceiling is the least integer whose multiple reaches `x`. */
  lemma CeilDivLeast(x: int, k: int, c: int)
    requires k > 0
    requires c * k >= x
    ensures CeilDiv(x, k) <= c
  {
    var r := CeilDiv(x, k);
    MulCancel(r - 1, c, k);
  }

  /** A larger positive divisor never needs more steps to cover a
      non-negative amount. */
  lemma CeilDivAntitone(x: int, j: int, k: int)
    requires x >= 0
    requires 0 < j <= k
    ensures CeilDiv(x, k) <= CeilDiv(x, j)
  {
    var c := CeilDiv(x, j);
    MulCancel(-1, c, j);
    MulMonotoneRight(c, j, k);
    CeilDivLeast(x, k, c);
  }

  /** Multiplying by a positive factor reflects strict order. */
  lemma MulCancel(a: int, b: int, k: int)
    requires k > 0
    requires a * k < b * k
    ensures a < b
  {
    assert (b - a) * k == b * k - a * k;
  }

  lemma MulMonotoneRight(c: int, j: int, k: int)
    requires c >= 0
    requires j <= k
    ensures c * j <= c * k
  {
    assert c * k - c * j == c * (k - j);
  }
}

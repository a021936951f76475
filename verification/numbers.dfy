/**
 * The numeric entries of the linear-programming form.
 *
 * Every field of the form holds what `parseFloat` made of the text typed in
 * it: a finite number, `NaN`, or an infinity (not modelled); the preview
 * code also tests for `null`. A finite double is modelled by the exact real
 * it denotes (negative zero is the real 0).
 */
module Numbers {

  /** One numeric entry of the form. */
  datatype Coef = Num(value: real) | Null | NaN

  /**
   * The entry shows up as a term of a linear expression: it is a number and
   * it is not zero. `formatEquation` skips zero, `null` and `NaN`.
   */
  predicate Emits(c: Coef) {
    c.Num? && c.value != 0.0
  }

  /** `Math.abs` on a finite number. */
  function Abs(x: real): (m: real)
    ensures m >= 0.0
    ensures m == x || m == -x
  {
    if x < 0.0 then -x else x
  }

  /** Every entry is the number zero, and there are exactly `n` of them. */
  predicate AllZero(s: seq<Coef>, n: nat) {
    |s| == n && forall k :: 0 <= k < |s| ==> s[k] == Num(0.0)
  }

  /** `new Array(n).fill(0)` */
  function Zeros(n: nat): (z: seq<Coef>)
    ensures AllZero(z, n)
  {
    seq(n, _ => Num(0.0))
  }
}

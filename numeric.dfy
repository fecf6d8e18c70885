/** JavaScript number semantics the finance views depend on: `Math.round`,
    `Math.max`/`Math.min`, and the non-finite values that a division by
    zero produces. Finite numbers are modelled as `real` (no IEEE-754
    rounding); signed zero is not distinguished. */
module Numeric {

  /** `Math.round(x)`: the nearest integer, halves rounded up (towards +infinity). */
  function Round(x: real): (r: int)
    ensures r as real - 0.5 <= x < r as real + 0.5
  {
    (x + 0.5).Floor
  }

  /** Round is monotone, so rounding preserves bounds that are integers. */
  lemma RoundBounds(x: real, lo: int, hi: int)
    requires lo as real <= x <= hi as real
    ensures lo <= Round(x) <= hi
  {
  }

  function Max(a: real, b: real): (r: real)
    ensures r >= a && r >= b && (r == a || r == b)
  {
    if a >= b then a else b
  }

  function Min(a: real, b: real): (r: real)
    ensures r <= a && r <= b && (r == a || r == b)
  {
    if a <= b then a else b
  }

  /** A JavaScript number: a finite value, an infinity, or NaN. */
  datatype Num = Fin(v: real) | Inf(positive: bool) | NaN {
    predicate IsFinite() { Fin? }
  }

  /** `a + b` */
  function Plus(a: Num, b: Num): (r: Num)
    ensures a.Fin? && b.Fin? ==> r == Fin(a.v + b.v)
    ensures r.Fin? ==> a.Fin? && b.Fin?
    ensures (a.NaN? || b.NaN?) ==> r.NaN?
  {
    match (a, b)
    case (Fin(x), Fin(y)) => Fin(x + y)
    case (NaN, _) => NaN
    case (_, NaN) => NaN
    case (Inf(s), Fin(_)) => Inf(s)
    case (Fin(_), Inf(t)) => Inf(t)
    case (Inf(s), Inf(t)) => if s == t then Inf(s) else NaN
  }

  /** `a * k` for a finite factor `k` */
  function Scale(a: Num, k: real): (r: Num)
    ensures a.Fin? ==> r == Fin(a.v * k)
    ensures !a.Fin? ==> !r.Fin?
  {
    if a.Fin? then Fin(a.v * k)
    else if a.NaN? then NaN
    else if k > 0.0 then Inf(a.positive)
    else if k < 0.0 then Inf(!a.positive)
    else NaN
  }

  /** `a / b`; a finite value divided by zero is an infinity, or NaN for 0 / 0. */
  function Quot(a: Num, b: Num): (r: Num)
    ensures a.Fin? && b.Fin? && b.v != 0.0 ==> r == Fin(a.v / b.v)
    ensures b == Fin(0.0) ==> !r.Fin?
    ensures a.NaN? || b.NaN? ==> r.NaN?
    ensures !a.Fin? && b.Fin? ==> !r.Fin?
  {
    match (a, b)
    case (NaN, _) => NaN
    case (_, NaN) => NaN
    case (Fin(x), Fin(y)) =>
      if y != 0.0 then Fin(x / y)
      else if x > 0.0 then Inf(true)
      else if x < 0.0 then Inf(false)
      else NaN
    case (Fin(_), Inf(_)) => Fin(0.0)
    case (Inf(s), Fin(y)) => if y < 0.0 then Inf(!s) else Inf(s)
    case (Inf(_), Inf(_)) => NaN
  }

  /** `Math.round` on a number that may be non-finite (which it returns unchanged). */
  function RoundNum(a: Num): (r: Num)
    ensures a.Fin? ==> r == Fin(Round(a.v) as real)
    ensures !a.Fin? ==> r == a
  {
    match a
    case Fin(x) => Fin(Round(x) as real)
    case _ => a
  }

  /** `a > 0` (false for NaN) */
  predicate IsPositive(a: Num) {
    match a
    case Fin(x) => x > 0.0
    case Inf(s) => s
    case NaN => false
  }

  // ---------------------------------------------------------------------------
  // Percentages

  /** `part` as a percentage of `whole` */
  function ShareOf(part: real, whole: real): real
    requires whole != 0.0
  {
    part / whole * 100.0
  }

  /** `pct` percent of `budget` */
  function PercentOfBudget(pct: real, budget: real): real {
    pct / 100.0 * budget
  }

  lemma ShareAdd(a: real, b: real, t: real)
    requires t != 0.0
    ensures ShareOf(a, t) + ShareOf(b, t) == ShareOf(a + b, t)
  {
  }

  /** A part between nothing and the whole is between 0 and 100 percent of
      it; nothing is 0 percent and the whole 100. */
  lemma ShareBounds(part: real, whole: real)
    requires whole > 0.0 && 0.0 <= part <= whole
    ensures 0.0 <= ShareOf(part, whole) <= 100.0
    ensures part == 0.0 ==> ShareOf(part, whole) == 0.0
    ensures part == whole ==> ShareOf(part, whole) == 100.0
  {
    assert part / whole <= 1.0 by {
      assert part / whole * whole == part;
    }
  }

  /** A part no larger than a positive whole is at most 100 percent of it. */
  lemma ShareAtMostWhole(part: real, whole: real)
    requires whole > 0.0 && part <= whole
    ensures ShareOf(part, whole) <= 100.0
  {
    assert part / whole <= 1.0 by {
      assert part / whole * whole == part;
    }
  }

  lemma ShareOfWhole(t: real)
    requires t != 0.0
    ensures ShareOf(t, t) == 100.0
  {
  }

  /** The mean of `n` values that add up to `total`. */
  function Mean(total: real, n: nat): (m: real)
    requires n > 0
    ensures m * n as real == total
  {
    total / n as real
  }

  /** The mean of values between `lo` and `hi` lies between them too. */
  lemma MeanBounds(total: real, n: nat, lo: real, hi: real)
    requires n > 0
    requires n as real * lo <= total <= n as real * hi
    ensures lo <= Mean(total, n) <= hi
  {
  }
}

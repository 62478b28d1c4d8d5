/**
 The two divisions the metrics report, with the zero-denominator guard
 every metric applies: a percentage of a count and a mean of a total.
 Go computes both in float64; here they are exact reals.
 */
module Ratios {

  /** `part / whole * 100`, and 0 when `whole` is 0. */
  function Percent(part: nat, whole: nat): (p: real)
    requires part <= whole
    ensures whole == 0 ==> p == 0.0
    ensures 0.0 <= p <= 100.0
    ensures p * whole as real == part as real * 100.0
  {
    if whole == 0 then 0.0
    else
      var ratio := part as real / whole as real;
      assert ratio * whole as real == part as real;
      assert (1.0 - ratio) * whole as real == (whole - part) as real;
      ratio * 100.0
  }

  /** `total / count`, and 0 when `count` is 0. */
  function Mean(total: int, count: nat): (m: real)
    ensures count == 0 ==> m == 0.0
    ensures count > 0 ==> m * count as real == total as real
    ensures total >= 0 ==> m >= 0.0
  {
    if count == 0 then 0.0 else total as real / count as real
  }

  /**
   A total of seconds averaged over `count` items, in days: Go converts the
   summed duration to hours and divides by `count * 24`; 0 when `count` is 0.
   */
  function MeanDays(totalSeconds: int, count: nat): (d: real)
    ensures count == 0 ==> d == 0.0
    ensures count > 0 ==> d * (count * 86400) as real == totalSeconds as real
    ensures totalSeconds >= 0 ==> d >= 0.0
  {
    if count == 0 then 0.0
    else
      var hours := totalSeconds as real / 3600.0;
      hours / (count * 24) as real
  }

  /** A mean of terms no larger than `k` is no larger than `k`. */
  lemma MeanAtMost(total: int, count: nat, k: nat)
    requires total <= k * count
    ensures Mean(total, count) <= k as real
  {
    if count > 0 {
      var m := Mean(total, count);
      assert m * count as real == total as real;
      assert total as real <= k as real * count as real;
    }
  }

  /** A mean, in days, of terms between `lo` and `hi` seconds lies between them. */
  lemma MeanDaysWithin(total: int, count: nat, lo: int, hi: int)
    requires count > 0
    requires lo * count <= total <= hi * count
    ensures lo as real <= MeanDays(total, count) * 86400.0 <= hi as real
  {
  }

  /** Nothing averaged over any number of items is 0. */
  lemma MeanOfNothing(count: nat)
    ensures Mean(0, count) == 0.0
  {
  }
}

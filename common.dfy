/** Shared pieces: an Option type and the exact-arithmetic reading of the
    JavaScript number expressions the views use for percentages. */
module Common {

  datatype Option<T> = None | Some(value: T)

  /** `(num / den) * 100 >= p` evaluated as JavaScript would, but over exact
      rationals: over a zero denominator a positive numerator gives +Infinity
      (which passes every threshold) and a zero or negative one gives NaN or
      -Infinity (which pass none). */
  predicate AtLeastPercent(num: int, den: int, p: int)
  {
    if den > 0 then 100 * num >= p * den
    else if den < 0 then 100 * num <= p * den
    else num > 0
  }

  /** `num / den >= tenths / 10`, the ratio form of the same comparison. */
  predicate RatioAtLeast(num: int, den: int, tenths: int)
  {
    if den > 0 then 10 * num >= tenths * den
    else if den < 0 then 10 * num <= tenths * den
    else num > 0
  }

  /** Comparing the ratio against 0.9, 0.8, ... picks the same answer as
      comparing the percentage against 90, 80, ... */
  lemma RatioMatchesPercent(num: int, den: int, tenths: int)
    ensures RatioAtLeast(num, den, tenths) <==> AtLeastPercent(num, den, 10 * tenths)
  {
  }

  /** Over a positive denominator the comparison is the same as comparing the
      whole-number part of the percentage. */
  lemma {:induction false} AtLeastPercentFloor(num: int, den: int, p: int)
    requires den > 0
    ensures AtLeastPercent(num, den, p) <==> (100 * num) / den >= p
  {
    var q, r := (100 * num) / den, (100 * num) % den;
    assert 100 * num == q * den + r && 0 <= r < den;
    if q >= p {
      assert q * den >= p * den by { MulMonotone(p, q, den); }
    } else {
      assert (p - 1) * den >= q * den by { MulMonotone(q, p - 1, den); }
    }
  }

  /** A higher bar is harder to meet: passing `high` implies passing `low`. */
  lemma {:induction false} AtLeastPercentAntitone(num: int, den: int, low: int, high: int)
    requires low <= high
    requires AtLeastPercent(num, den, high)
    ensures AtLeastPercent(num, den, low)
  {
    if den > 0 {
      MulMonotone(low, high, den);
    } else if den < 0 {
      MulMonotone(low, high, -den);
    }
  }

  /** A larger numerator over the same positive denominator passes every bar
      the smaller one passes. */
  lemma AtLeastPercentMonotone(small: int, large: int, den: int, p: int)
    requires small <= large && den > 0
    requires AtLeastPercent(small, den, p)
    ensures AtLeastPercent(large, den, p)
  {
  }

  lemma MulMonotone(a: int, b: int, c: int)
    requires a <= b && c >= 0
    ensures a * c <= b * c
  {
  }

  /** `Math.round((num / den) * 100)`: the nearest integer to the exact
      percentage, halves rounded up; None where JavaScript would produce
      NaN or an infinity (a zero denominator). */
  function RoundedPercent(num: int, den: int): (r: Option<int>)
    ensures r.Some? <==> den != 0
    ensures den > 0 ==> 2 * r.value * den - den <= 200 * num < 2 * r.value * den + den
    ensures den < 0 ==> 2 * r.value * den - den >= 200 * num > 2 * r.value * den + den
  {
    if den == 0 then None
    else if den > 0 then Some(RoundHalfUp(num, den))
    else Some(RoundHalfUp(-num, -den))
  }

  /** floor(100 * num / den + 1/2) for a positive denominator. */
  function RoundHalfUp(num: int, den: int): (r: int)
    requires den > 0
    ensures 2 * r * den - den <= 200 * num < 2 * r * den + den
  {
    var q := (200 * num + den) / (2 * den);
    DivBounds(200 * num + den, 2 * den);
    q
  }

  lemma DivBounds(a: int, b: int)
    requires b > 0
    ensures (a / b) * b <= a < (a / b) * b + b
  {
  }

  /** A score that does not exceed its total shows as a percentage between
      0 and 100. */
  lemma {:induction false} RoundedPercentInRange(num: int, den: int)
    requires 0 <= num <= den && den > 0
    ensures 0 <= RoundedPercent(num, den).value <= 100
  {
    var r := RoundedPercent(num, den).value;
    if r < 0 {
      MulMonotone(2 * r + 1, 0, den);
    }
    if r > 100 {
      MulMonotone(201, 2 * r - 1, den);
    }
  }
}

/**
 * Integer rounding of exact reals, and the municipal Annex IV rule
 * `round_rule_annex_iv` (core/app_main.py): round to one decimal place, then
 * round up to the next integer when the tenths digit is 5 or more.
 */
module Rounding {

  /** Python's `math.floor`. */
  function Floor(x: real): (r: int)
    ensures r as real <= x < r as real + 1.0
  {
    x.Floor
  }

  /** Python's `math.ceil`. */
  function Ceil(x: real): (r: int)
    ensures r as real - 1.0 < x <= r as real
  {
    -((-x).Floor)
  }

  /** Python's `int(x)` on a float: truncation toward zero. */
  function Trunc(x: real): (r: int)
    ensures x >= 0.0 ==> r >= 0 && r as real <= x < r as real + 1.0
    ensures x < 0.0 ==> r <= 0 && r as real - 1.0 < x <= r as real
  {
    if x >= 0.0 then Floor(x) else Ceil(x)
  }

  /** Round to the nearest integer, ties to the even one (Python's `round`). */
  function RoundHalfEven(x: real): (r: int)
    ensures x - 0.5 <= r as real <= x + 0.5
    ensures r as real == x + 0.5 || r as real == x - 0.5 ==> r % 2 == 0
  {
    var f := Floor(x);
    var d := x - f as real;
    if d < 0.5 then f
    else if d > 0.5 then f + 1
    else if f % 2 == 0 then f else f + 1
  }

  lemma RoundHalfEvenMonotone(x: real, y: real)
    requires x <= y
    ensures RoundHalfEven(x) <= RoundHalfEven(y)
  {
    var fx, fy := Floor(x), Floor(y);
    if fx < fy {
      assert RoundHalfEven(x) <= fx + 1 <= fy <= RoundHalfEven(y);
    }
  }

  /** Python's `round(x, 1)` on the exact value: the nearest tenth, ties to an even number of tenths. */
  function RoundTenth(x: real): (r: real)
    ensures x - 0.05 <= r <= x + 0.05
    ensures (10.0 * r).Floor as real == 10.0 * r
    ensures 10.0 * r == 10.0 * x + 0.5 || 10.0 * r == 10.0 * x - 0.5 ==> (10.0 * r).Floor % 2 == 0
  {
    var n := RoundHalfEven(10.0 * x);
    WholeTenths(n);
    n as real / 10.0
  }

  /** `n` tenths, times ten, is the whole number `n`. */
  lemma WholeTenths(n: int)
    ensures 10.0 * (n as real / 10.0) == n as real
    ensures (n as real).Floor == n
  {
  }

  /**
   * `round_rule_annex_iv(x)`: 0 for `x <= 0`; otherwise the value rounded to one
   * decimal place, rounded up when its fractional part is at least one half and
   * down otherwise.
   */
  function RoundRuleAnnexIV(x: real): (r: int)
    ensures r >= 0
    ensures x <= 0.0 ==> r == 0
    ensures x > 0.0 ==>
              var v := RoundTenth(x);
              r == if v - Floor(v) as real >= 0.5 then Floor(v) + 1 else Floor(v)
    ensures x > 0.0 ==> x - 0.55 <= r as real <= x + 0.55
  {
    if x <= 0.0 then 0
    else
      var v10 := RoundTenth(x);
      var i := Floor(v10);
      var frac := v10 - i as real;
      if frac >= 0.5 then i + 1 else if i >= 0 then i else 0
  }

  /**
   * Reference reading of the rule by the tenths digit: with `t` the value in
   * whole tenths, the result is `t / 10`, plus one when the tenths digit `t % 10`
   * is 5 or more.
   */
  function AnnexIVByTenthsDigit(x: real): (r: int)
    ensures x <= 0.0 ==> r == 0
  {
    if x <= 0.0 then 0
    else
      var t := RoundHalfEven(10.0 * x);
      t / 10 + (if t % 10 >= 5 then 1 else 0)
  }

  /** Splitting a whole number of tenths into its integer part and its tenths digit. */
  lemma TenthsSplit(t: int)
    requires t >= 0
    ensures Floor(t as real / 10.0) == t / 10
    ensures t as real / 10.0 - (t / 10) as real == (t % 10) as real / 10.0
  {
    var q, m := t / 10, t % 10;
    assert t == 10 * q + m && 0 <= m < 10;
    assert t as real / 10.0 == q as real + m as real / 10.0;
  }

  /** The rule as coded agrees with the tenths-digit reading. */
  lemma {:induction false} AnnexIVIsTenthsDigitRule(x: real)
    ensures RoundRuleAnnexIV(x) == AnnexIVByTenthsDigit(x)
  {
    if x > 0.0 {
      var t := RoundHalfEven(10.0 * x);
      assert t >= 0;
      TenthsSplit(t);
    }
  }

  /** A larger raw value never needs fewer stalls. */
  lemma {:induction false} AnnexIVMonotone(x: real, y: real)
    requires x <= y
    ensures RoundRuleAnnexIV(x) <= RoundRuleAnnexIV(y)
  {
    AnnexIVIsTenthsDigitRule(x);
    AnnexIVIsTenthsDigitRule(y);
    if x > 0.0 {
      var tx, ty := RoundHalfEven(10.0 * x), RoundHalfEven(10.0 * y);
      RoundHalfEvenMonotone(10.0 * x, 10.0 * y);
      assert 0 <= tx <= ty;
      assert tx / 10 <= ty / 10;
      if tx / 10 == ty / 10 {
        assert tx % 10 <= ty % 10;
      }
    }
  }

  /**
   * 2.44, 2.50 and 2.51 give 2, 3 and 3. Because the value is first rounded to
   * one decimal, 2.46 and 2.49 (tenths digit 4) become 2.5 and give 3, while
   * the exact tie 2.45 rounds to the even 2.4 and gives 2. The program itself
   * gives 3 for the literal 2.45: its binary double lies just above the tie,
   * so `round(2.45, 1)` is 2.5 there.
   */
  lemma AnnexIVExamples()
    ensures RoundRuleAnnexIV(2.44) == 2
    ensures RoundRuleAnnexIV(2.5) == 3
    ensures RoundRuleAnnexIV(2.51) == 3
    ensures RoundRuleAnnexIV(2.46) == 3
    ensures RoundRuleAnnexIV(2.49) == 3
    ensures RoundRuleAnnexIV(2.45) == 2
  {
    AnnexIVIsTenthsDigitRule(2.44);
    AnnexIVIsTenthsDigitRule(2.5);
    AnnexIVIsTenthsDigitRule(2.51);
    AnnexIVIsTenthsDigitRule(2.46);
    AnnexIVIsTenthsDigitRule(2.49);
    AnnexIVIsTenthsDigitRule(2.45);
    assert RoundHalfEven(24.4) == 24;
    assert RoundHalfEven(25.0) == 25;
    assert RoundHalfEven(25.1) == 25;
    assert RoundHalfEven(24.6) == 25;
    assert RoundHalfEven(24.9) == 25;
    assert RoundHalfEven(24.5) == 24;
  }
}

/**
 * The sanitary-formula helpers of core/app_main.py: `_parse_formula_divisor`
 * reads the divisor out of a formula such as "1/300,00m² ou fração", and
 * `_ceil_div` divides and rounds up.
 */
module Divisor {
  import opened Wrappers
  import opened Rounding

  /**
   * The characters Python's `\s` matches in a `str` pattern: those for which
   * `str.isspace()` holds.
   */
  predicate IsSpace(c: char) {
    ('\t' <= c <= '\r') || c == ' ' || ('\U{001C}' <= c <= '\U{001F}') || c == '\U{0085}' || c == '\U{00A0}'
    || c == '\U{1680}' || ('\U{2000}' <= c <= '\U{200A}') || c == '\U{2028}' || c == '\U{2029}'
    || c == '\U{202F}' || c == '\U{205F}' || c == '\U{3000}'
  }

  predicate IsDigit(c: char) { '0' <= c <= '9' }

  /** The character class `[\d\.,]`. */
  predicate IsNumberChar(c: char) { IsDigit(c) || c == '.' || c == ',' }

  /** The end of the longest run of spaces starting at `i` (a greedy `\s*`). */
  function SkipSpaces(s: string, i: nat): (j: nat)
    requires i <= |s|
    ensures i <= j <= |s| && (j == |s| || !IsSpace(s[j]))
    ensures forall n :: i <= n < j ==> IsSpace(s[n])
    decreases |s| - i
  {
    if i < |s| && IsSpace(s[i]) then SkipSpaces(s, i + 1) else i
  }

  /** The end of the longest run of number characters starting at `i` (a greedy `[\d\.,]*`). */
  function SkipNumber(s: string, i: nat): (j: nat)
    requires i <= |s|
    ensures i <= j <= |s| && (j == |s| || !IsNumberChar(s[j]))
    ensures forall n :: i <= n < j ==> IsNumberChar(s[n])
    decreases |s| - i
  {
    if i < |s| && IsNumberChar(s[i]) then SkipNumber(s, i + 1) else i
  }

  /**
   * The pattern of `_parse_formula_divisor` anchored at position `i`: a '1',
   * spaces, a '/', spaces, a captured run of digits, dots and commas, spaces,
   * then an 'm'. The result is the bounds of the captured run, or None. Greedy matching needs no
   * backtracking here, since no character both ends one part and starts the next.
   */
  function MatchAt(s: string, i: nat): (g: Option<(nat, nat)>)
    requires i <= |s|
    ensures g.Some? ==> i < g.value.0 < g.value.1 <= |s|
    ensures g.Some? ==> forall n :: g.value.0 <= n < g.value.1 ==> IsNumberChar(s[n])
  {
    if i < |s| && s[i] == '1' then
      var j := SkipSpaces(s, i + 1);
      if j < |s| && s[j] == '/' then
        var k := SkipSpaces(s, j + 1);
        var e := SkipNumber(s, k);
        if e > k then
          var m := SkipSpaces(s, e);
          if m < |s| && s[m] == 'm' then Some((k, e)) else None
        else None
      else None
    else None
  }

  /** `re.search`: the first position, from `i` on, at which the pattern matches. */
  function Search(s: string, i: nat): (g: Option<(nat, nat)>)
    requires i <= |s|
    ensures g.Some? ==> exists p :: i <= p <= |s| && MatchAt(s, p) == g &&
                                    forall q :: i <= q < p ==> MatchAt(s, q).None?
    ensures g.Some? ==> i < g.value.0 < g.value.1 <= |s| && forall n :: g.value.0 <= n < g.value.1 ==> IsNumberChar(s[n])
    ensures g.None? ==> forall p :: i <= p <= |s| ==> MatchAt(s, p).None?
    decreases |s| - i
  {
    if MatchAt(s, i).Some? then MatchAt(s, i)
    else if i == |s| then None
    else Search(s, i + 1)
  }

  /** `re.search` reports the match at the first position where the pattern matches. */
  lemma SearchFindsFirst(s: string, i: nat, p: nat)
    requires i <= p <= |s| && MatchAt(s, p).Some?
    requires forall q :: i <= q < p ==> MatchAt(s, q).None?
    ensures Search(s, i) == MatchAt(s, p)
  {
    var g := Search(s, i);
    assert g.Some?;
    var p' :| i <= p' <= |s| && MatchAt(s, p') == g && forall q :: i <= q < p' ==> MatchAt(s, q).None?;
    assert !(p' < p) && !(p < p');
  }

  /** The number of occurrences of `c` in `s`. */
  function CountChar(s: string, c: char): nat {
    if s == [] then 0 else (if s[0] == c then 1 else 0) + CountChar(s[1..], c)
  }

  /** The number of decimal digits in `s`. */
  function CountDigits(s: string): nat {
    if s == [] then 0 else (if IsDigit(s[0]) then 1 else 0) + CountDigits(s[1..])
  }

  /**
   * `raw.replace(".", "").replace(",", ".")`: drop dots, then commas become the
   * decimal point. Every comma becomes the one dot of the result, digits are kept,
   * and a dot-free text is rewritten character by character.
   */
  function Normalize(raw: string): (r: string)
    ensures |r| + CountChar(raw, '.') == |raw|
    ensures CountChar(r, ',') == 0 && CountChar(r, '.') == CountChar(raw, ',')
    ensures CountDigits(r) == CountDigits(raw)
    ensures forall c :: c in r ==> c in raw || c == '.'
    ensures CountChar(raw, '.') == 0 ==>
              forall n :: 0 <= n < |raw| ==> r[n] == (if raw[n] == ',' then '.' else raw[n])
  {
    if raw == [] then []
    else if raw[0] == '.' then Normalize(raw[1..])
    else (if raw[0] == ',' then ['.'] else [raw[0]]) + Normalize(raw[1..])
  }

  /** Normalising works piece by piece. */
  lemma {:induction false} NormalizeAppend(a: string, b: string)
    ensures Normalize(a + b) == Normalize(a) + Normalize(b)
  {
    if a != [] {
      assert (a + b)[0] == a[0] && (a + b)[1..] == a[1..] + b;
      NormalizeAppend(a[1..], b);
    } else {
      assert a + b == b;
    }
  }

  lemma {:induction false} CountCharAppend(a: string, b: string, c: char)
    ensures CountChar(a + b, c) == CountChar(a, c) + CountChar(b, c)
  {
    if a != [] {
      assert (a + b)[1..] == a[1..] + b;
      CountCharAppend(a[1..], b, c);
    } else {
      assert a + b == b;
    }
  }

  lemma {:induction false} CountDigitsAppend(a: string, b: string)
    ensures CountDigits(a + b) == CountDigits(a) + CountDigits(b)
  {
    if a != [] {
      assert (a + b)[1..] == a[1..] + b;
      CountDigitsAppend(a[1..], b);
    } else {
      assert a + b == b;
    }
  }

  /** A character absent from `s` occurs in it zero times. */
  lemma {:induction false} CountAbsent(s: string, c: char)
    ensures c !in s <==> CountChar(s, c) == 0
  {
    if s != [] {
      assert s == [s[0]] + s[1..];
      CountAbsent(s[1..], c);
    }
  }

  /** In a text of digits and dots, every character that is not a dot is a digit. */
  lemma {:induction false} CountDigitsOrDots(s: string)
    requires forall c :: c in s ==> IsDigit(c) || c == '.'
    ensures CountDigits(s) + CountChar(s, '.') == |s|
  {
    if s != [] {
      assert s[0] in s && forall c :: c in s[1..] ==> c in s;
      CountDigitsOrDots(s[1..]);
    }
  }

  function DigitValue(c: char): (v: nat)
    requires IsDigit(c)
    ensures v < 10
  {
    (c as int - '0' as int) as nat
  }

  /** The value of a string of decimal digits (0 for the empty string). */
  function DigitsValue(d: string): (v: nat)
    requires forall c :: c in d ==> IsDigit(c)
  {
    if d == [] then 0
    else
      assert d[|d| - 1] in d && forall c :: c in d[..|d| - 1] ==> c in d;
      10 * DigitsValue(d[..|d| - 1]) + DigitValue(d[|d| - 1])
  }

  /** `10^n`, the scale of an `n`-digit fraction. */
  function Pow10(n: nat): (p: nat)
    ensures p >= 1
  {
    if n == 0 then 1 else 10 * Pow10(n - 1)
  }

  /** An `n`-digit string is worth less than `10^n`, so a fraction part lies in [0, 1). */
  lemma {:induction false} DigitsBelowPow10(d: string)
    requires forall c :: c in d ==> IsDigit(c)
    ensures DigitsValue(d) < Pow10(|d|)
  {
    if d != [] {
      var h := d[..|d| - 1];
      assert d[|d| - 1] in d && forall c :: c in h ==> c in d;
      DigitsBelowPow10(h);
    }
  }

  /** Index of the first '.' in `s`, or |s|. */
  function DotIndex(s: string): (k: nat)
    ensures k <= |s| && (k < |s| ==> s[k] == '.') && '.' !in s[..k]
  {
    if s == [] then 0
    else if s[0] == '.' then 0
    else
      var k := 1 + DotIndex(s[1..]);
      assert s[..k] == [s[0]] + s[1..][..k - 1];
      k
  }

  /**
   * Python's `float(raw)` on a string of digits and dots: the decimal value
   * when there is at most one dot and at least one digit, None (the exception)
   * otherwise.
   */
  function DecimalValue(raw: string): (r: Option<real>)
    requires forall c :: c in raw ==> IsDigit(c) || c == '.'
    ensures r.Some? <==> CountDigits(raw) > 0 && CountChar(raw, '.') <= 1
    ensures r.Some? ==> r.value >= 0.0
  {
    var k := DotIndex(raw);
    assert k < |raw| ==> raw[k] in raw;
    CountDigitsOrDots(raw);
    if k == |raw| then
      assert raw[..k] == raw;
      CountAbsent(raw, '.');
      if raw == [] then None else Some(DigitsValue(raw) as real)
    else
      var whole, frac := raw[..k], raw[k + 1..];
      assert raw == whole + ['.'] + frac;
      CountCharAppend(whole + ['.'], frac, '.');
      CountCharAppend(whole, ['.'], '.');
      CountAbsent(whole, '.');
      CountAbsent(frac, '.');
      assert forall c :: c in frac ==> c in raw;
      CountDigitsOrDots(frac);
      CountDigitsOrDots(whole);
      CountDigitsAppend(whole + ['.'], frac);
      CountDigitsAppend(whole, ['.']);
      if '.' in frac || (whole == [] && frac == []) then None
      else
        assert forall c :: c in whole ==> IsDigit(c);
        Some(DigitsValue(whole) as real + Fraction(frac))
  }

  /** The value of the digits after the decimal point. */
  function Fraction(frac: string): (v: real)
    requires forall c :: c in frac ==> IsDigit(c)
    ensures 0.0 <= v < 1.0
  {
    DigitsBelowPow10(frac);
    FractionBelowOne(DigitsValue(frac) as real, Pow10(|frac|) as real);
    DigitsValue(frac) as real / Pow10(|frac|) as real
  }

  /** The dot-free case of `float`: a non-empty digit string is worth its integer value. */
  lemma DigitsOnlyValue(raw: string)
    requires forall c :: c in raw ==> IsDigit(c)
    requires raw != []
    ensures DecimalValue(raw) == Some(DigitsValue(raw) as real)
  {
    assert '.' !in raw;
  }

  /**
   * The one-dot case of `float`: "<whole>.<frac>" is worth the whole part plus
   * the fraction digits over `10^|frac|`.
   */
  lemma OneDotValue(whole: string, frac: string)
    requires forall c :: c in whole ==> IsDigit(c)
    requires forall c :: c in frac ==> IsDigit(c)
    requires whole != [] || frac != []
    ensures DecimalValue(whole + "." + frac) == Some(DigitsValue(whole) as real + Fraction(frac))
  {
    var raw := whole + "." + frac;
    DotPosition(whole, frac);
    assert raw[..|whole|] == whole && raw[|whole| + 1..] == frac;
    DigitsAroundDot(whole, frac);
    assert '.' !in frac;
  }

  lemma DigitsAroundDot(whole: string, frac: string)
    requires forall c :: c in whole ==> IsDigit(c)
    requires forall c :: c in frac ==> IsDigit(c)
    ensures forall c :: c in whole + "." + frac ==> IsDigit(c) || c == '.'
  {
  }

  lemma FractionBelowOne(f: real, p: real)
    requires 0.0 <= f < p
    ensures 0.0 <= f / p < 1.0
  {
  }

  lemma {:induction false} DotPosition(whole: string, frac: string)
    requires forall c :: c in whole ==> IsDigit(c)
    ensures DotIndex(whole + "." + frac) == |whole|
  {
    if whole != [] {
      assert (whole + "." + frac)[1..] == whole[1..] + "." + frac;
      assert whole[0] in whole && forall c :: c in whole[1..] ==> c in whole;
      DotPosition(whole[1..], frac);
    }
  }

  /**
   * `_parse_formula_divisor(formula)`: the number after "1/" and before "m", with
   * dots dropped and a comma as the decimal point; None for an empty formula, no
   * match, or a number Python cannot read.
   */
  function ParseFormulaDivisor(formula: string): (r: Option<real>)
    ensures formula == [] ==> r.None?
    ensures Search(formula, 0).None? ==> r.None?
    ensures formula != [] && Search(formula, 0).Some? ==>
              r == CapturedDivisor(formula[Search(formula, 0).value.0..Search(formula, 0).value.1])
    ensures r.Some? ==> r.value >= 0.0
  {
    if formula == [] then None
    else
      match Search(formula, 0)
      case None => None
      case Some((k, e)) => CapturedDivisor(formula[k..e])
  }

  /**
   * The divisor read from a captured run of number characters: readable exactly
   * when the run holds a digit and at most one comma; a run without commas is
   * read with its dots dropped as thousands separators.
   */
  function CapturedDivisor(capture: string): (r: Option<real>)
    requires forall n :: 0 <= n < |capture| ==> IsNumberChar(capture[n])
    ensures r.Some? <==> CountDigits(capture) > 0 && CountChar(capture, ',') <= 1
    ensures r.Some? ==> r.value >= 0.0
  {
    NormalizeNumberChars(capture);
    DecimalValue(Normalize(capture))
  }

  /**
   * `_ceil_div(a, b)`: `ceil(a / b)`, and 0 when `b` is 0. For a positive `b` the
   * result is the least count `r` with `r * b >= a`.
   */
  function CeilDiv(a: real, b: real): (r: int)
    ensures b == 0.0 ==> r == 0
    ensures b > 0.0 ==> (r as real) * b >= a && (r as real - 1.0) * b < a
  {
    if b == 0.0 then 0
    else
      var r := Ceil(a / b);
      if b > 0.0 then CeilBounds(a, b); r else r
  }

  lemma CeilBounds(a: real, b: real)
    requires b > 0.0
    ensures (Ceil(a / b) as real) * b >= a && ((Ceil(a / b) as real) - 1.0) * b < a
  {
    var q, r := a / b, Ceil(a / b) as real;
    assert q * b == a;
    MulRightMonotone(q, r, b);
    MulRightStrict(r - 1.0, q, b);
    assert (r - 1.0) * b < q * b;
    assert (r - 1.0) * b < a;
  }

  lemma MulRightMonotone(x: real, y: real, b: real)
    requires x <= y && b > 0.0
    ensures x * b <= y * b
  {
  }

  lemma MulRightStrict(x: real, y: real, b: real)
    requires x < y && b > 0.0
    ensures x * b < y * b
  {
  }

  /** The decimal digits of a natural number. */
  function NatToDigits(n: nat): (d: string)
    ensures d != [] && forall c :: c in d ==> IsDigit(c)
  {
    if n < 10 then [('0' as int + n) as char]
    else NatToDigits(n / 10) + [('0' as int + n % 10) as char]
  }

  lemma {:induction false} NatToDigitsValue(n: nat)
    ensures DigitsValue(NatToDigits(n)) == n
  {
    if n >= 10 {
      NatToDigitsValue(n / 10);
      var d := NatToDigits(n);
      assert d[..|d| - 1] == NatToDigits(n / 10);
    }
  }

  /** A run of number characters followed by another character is skipped in full. */
  lemma {:induction false} SkipRun(s: string, i: nat, e: nat)
    requires i <= e < |s|
    requires forall n :: i <= n < e ==> IsNumberChar(s[n])
    requires !IsNumberChar(s[e])
    ensures SkipNumber(s, i) == e
    decreases e - i
  {
    if i < e {
      SkipRun(s, i + 1, e);
    }
  }

  /** A digit string contains no dot, so normalising it leaves it unchanged. */
  lemma {:induction false} NormalizeDigits(d: string)
    requires forall c :: c in d ==> IsDigit(c)
    ensures Normalize(d) == d
  {
    if d != [] {
      assert d[0] in d && forall c :: c in d[1..] ==> c in d;
      NormalizeDigits(d[1..]);
      assert d == [d[0]] + d[1..];
    }
  }

  /** Round trip: the formula "1/<n>m" written for a natural `n` yields the divisor `n`. */
  lemma ParseWrittenDivisor(n: nat)
    ensures ParseFormulaDivisor("1/" + NatToDigits(n) + "m") == Some(n as real)
  {
    var d := NatToDigits(n);
    assert forall c :: c in d ==> IsNumberChar(c);
    WrittenCapture(d);
    NormalizeDigits(d);
    DigitsOnlyValue(d);
    NatToDigitsValue(n);
  }

  /** In "1/<cap>m", a non-empty run `cap` of number characters is the captured group. */
  lemma {:induction false} WrittenCapture(cap: string)
    requires cap != [] && forall c :: c in cap ==> IsNumberChar(c)
    ensures var s := "1/" + cap + "m"; Search(s, 0) == Some((2, 2 + |cap|)) && s[2..2 + |cap|] == cap
  {
    var s := "1/" + cap + "m";
    var e := 2 + |cap|;
    assert s[e] == 'm';
    assert forall q :: 2 <= q < e ==> s[q] == cap[q - 2];
    assert forall q :: 2 <= q < e ==> IsNumberChar(s[q]) by {
      forall q | 2 <= q < e ensures IsNumberChar(s[q]) {
        assert cap[q - 2] in cap;
      }
    }
    SkipRun(s, 2, e);
    assert SkipSpaces(s, 1) == 1;
    assert SkipSpaces(s, 2) == 2;
    assert SkipSpaces(s, e) == e;
    assert MatchAt(s, 0) == Some((2, e));
    assert s[2..e] == cap;
  }

  /** A decimal comma between two digit strings becomes the decimal point. */
  lemma CommaBecomesPoint(whole: string, frac: string)
    requires forall c :: c in whole ==> IsDigit(c)
    requires forall c :: c in frac ==> IsDigit(c)
    ensures Normalize(whole + "," + frac) == whole + "." + frac
  {
    NormalizeAppend(whole + ",", frac);
    NormalizeAppend(whole, ",");
    NormalizeDigits(whole);
    NormalizeDigits(frac);
    assert Normalize(",") == ".";
  }

  /** The formula "1/<whole>,<frac>m" is read as `float` reads "<whole>.<frac>". */
  lemma WrittenDecimalCapture(whole: string, frac: string)
    requires whole != [] && forall c :: c in whole ==> IsDigit(c)
    requires forall c :: c in frac ==> IsDigit(c)
    ensures ParseFormulaDivisor("1/" + whole + "," + frac + "m") == DecimalValue(whole + "." + frac)
  {
    var cap := whole + "," + frac;
    assert "1/" + whole + "," + frac + "m" == "1/" + cap + "m";
    CapChars(whole, frac);
    WrittenCapture(cap);
    CommaBecomesPoint(whole, frac);
  }

  lemma CapChars(whole: string, frac: string)
    requires forall c :: c in whole ==> IsDigit(c)
    requires forall c :: c in frac ==> IsDigit(c)
    ensures forall c :: c in whole + "," + frac ==> IsNumberChar(c)
  {
  }

  /**
   * Round trip with a decimal comma: the formula "1/<w>,<frac>m" yields the
   * divisor `w` plus the fraction the digits `frac` write.
   */
  lemma ParseWrittenDecimalDivisor(w: nat, frac: string)
    requires forall c :: c in frac ==> IsDigit(c)
    ensures ParseFormulaDivisor("1/" + NatToDigits(w) + "," + frac + "m") == Some(w as real + Fraction(frac))
  {
    var d := NatToDigits(w);
    NatToDigitsValue(w);
    var x := DecimalValue(d + "." + frac);
    OneDotValue(d, frac);
    assert x == Some(w as real + Fraction(frac));
    WrittenDecimalCapture(d, frac);
  }

  lemma MatchTableFormula(s: string)
    requires s == "1/300,00m² ou fração"
    ensures Search(s, 0) == Some((2, 8))
  {
    assert s[8] == 'm';
    assert forall n :: 2 <= n < 8 ==> IsNumberChar(s[n]);
    SkipRun(s, 2, 8);
    assert MatchAt(s, 0) == Some((2, 8));
  }

  lemma NormalizeTableNumber()
    ensures Normalize("300,00") == "300.00"
  {
    assert Normalize("00") == "00";
    assert Normalize(",00") == ".00";
  }

  lemma DecimalTableNumber()
    ensures DecimalValue("300.00") == Some(300.0)
  {
    assert DotIndex("300.00") == 3;
    assert "300.00"[..3] == "300" && "300.00"[4..] == "00";
    assert "300"[..2] == "30" && "30"[..1] == "3" && "3"[..0] == "";
    assert DigitsValue("3") == 3;
    assert DigitsValue("30") == 30;
    assert DigitsValue("300") == 300;
    assert "00"[..1] == "0" && "0"[..0] == "";
    assert DigitsValue("00") == 0;
  }

  /** Normalising a run of number characters leaves digits and dots only. */
  lemma NormalizeNumberChars(raw: string)
    requires forall n :: 0 <= n < |raw| ==> IsNumberChar(raw[n])
    ensures forall c :: c in Normalize(raw) ==> IsDigit(c) || c == '.'
  {
    forall c | c in Normalize(raw) ensures IsDigit(c) || c == '.' {
      if c != '.' {
        assert c in raw && c != ',';
        var n :| 0 <= n < |raw| && raw[n] == c;
      }
    }
  }

  /** The formula format stored in the sanitary tables: "1/300,00m² ou fração" gives 300. */
  lemma ParseTableFormula(s: string)
    requires s == "1/300,00m² ou fração"
    ensures ParseFormulaDivisor(s) == Some(300.0)
  {
    MatchTableFormula(s);
    TableCapture(s);
    NormalizeTableNumber();
    DecimalTableNumber();
  }

  lemma TableCapture(s: string)
    requires s == "1/300,00m² ou fração"
    ensures s[2..8] == "300,00"
  {
  }
}

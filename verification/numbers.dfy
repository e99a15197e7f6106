/** Numeric helpers shared by the screening model: sums and means of real series, Ruby's
    `Float#round` (half away from zero) and JavaScript's `Math.round` (half up), and the
    strict float parser behind `Float(text)`. */
module Numbers {
  import opened Wrappers
  import Text

  function Sum(s: seq<real>): real {
    if |s| == 0 then 0.0 else Sum(s[..|s| - 1]) + s[|s| - 1]
  }

  function Min(s: seq<real>): (m: real)
    requires |s| > 0
    ensures forall i :: 0 <= i < |s| ==> m <= s[i]
    ensures m in s
  {
    if |s| == 1 then s[0]
    else
      var m := Min(s[..|s| - 1]);
      assert forall i :: 0 <= i < |s| - 1 ==> s[..|s| - 1][i] == s[i];
      if s[|s| - 1] < m then s[|s| - 1] else m
  }

  function Max(s: seq<real>): (m: real)
    requires |s| > 0
    ensures forall i :: 0 <= i < |s| ==> s[i] <= m
    ensures m in s
  {
    if |s| == 1 then s[0]
    else
      var m := Max(s[..|s| - 1]);
      assert forall i :: 0 <= i < |s| - 1 ==> s[..|s| - 1][i] == s[i];
      if s[|s| - 1] > m then s[|s| - 1] else m
  }

  /** A sum of values that all lie in [lo, hi] lies in [n·lo, n·hi]. */
  lemma {:induction false} SumBounds(s: seq<real>, lo: real, hi: real)
    requires forall i :: 0 <= i < |s| ==> lo <= s[i] <= hi
    ensures |s| as real * lo <= Sum(s) <= |s| as real * hi
  {
    if |s| > 0 {
      SumBounds(s[..|s| - 1], lo, hi);
    }
  }

  lemma {:induction false} SumAppend(a: seq<real>, b: seq<real>)
    ensures Sum(a + b) == Sum(a) + Sum(b)
  {
    if |b| == 0 {
      assert a + b == a;
    } else {
      assert (a + b)[..|a + b| - 1] == a + b[..|b| - 1];
      SumAppend(a, b[..|b| - 1]);
    }
  }

  /** Ruby's `arr.sum / arr.length.to_f`, nil for an empty array; the mean lies between the
      smallest and the largest element. */
  function Mean(s: seq<real>): (r: Option<real>)
    ensures r.None? <==> |s| == 0
    ensures r.Some? ==> Min(s) <= r.value <= Max(s)
  {
    if |s| == 0 then None
    else
      SumBounds(s, Min(s), Max(s));
      DivideBounds(Sum(s), |s| as real, Min(s), Max(s));
      Some(Sum(s) / |s| as real)
  }

  lemma DivideBounds(a: real, n: real, lo: real, hi: real)
    requires n > 0.0 && n * lo <= a <= n * hi
    ensures lo <= a / n <= hi
  {
    assert a / n * n == a;
  }

  /** Ruby's `arr[i].to_f`: an index past the end reads nil, which converts to 0.0. */
  function At(s: seq<real>, i: nat): real {
    if i < |s| then s[i] else 0.0
  }

  function Ceil(x: real): int {
    if x == x.Floor as real then x.Floor else x.Floor + 1
  }

  /** `Float#round` to an integer: the nearest integer, halves rounded away from zero. */
  function RoundHalfAway(x: real): (r: int)
    ensures x.Floor <= r <= Ceil(x)
    ensures -0.5 <= r as real - x <= 0.5
    ensures r as real - x == 0.5 ==> x >= 0.0
    ensures x - r as real == 0.5 ==> x < 0.0
  {
    if x >= 0.0 then (x + 0.5).Floor else -((-x + 0.5).Floor)
  }

  /** `Float#round(3)`: the nearest multiple of 0.001, halves away from zero. */
  function Round3(x: real): (r: real)
    ensures -0.0005 <= r - x <= 0.0005
    ensures -1.0 <= x <= 1.0 ==> -1.0 <= r <= 1.0
  {
    RoundHalfAway(x * 1000.0) as real / 1000.0
  }

  /** JavaScript's `Math.round`: the nearest integer, halves rounded up. */
  function JsRound(x: real): (r: int)
    ensures x.Floor <= r <= Ceil(x)
    ensures -0.5 < r as real - x <= 0.5
  {
    (x + 0.5).Floor
  }

  lemma {:induction false} JsRoundMonotone(x: real, y: real)
    requires x <= y
    ensures JsRound(x) <= JsRound(y)
  {
    assert (x + 0.5).Floor as real <= x + 0.5 <= y + 0.5;
  }

  predicate IsDigit(c: char) {
    '0' <= c <= '9'
  }

  predicate AllDigits(s: string) {
    forall i :: 0 <= i < |s| ==> IsDigit(s[i])
  }

  function DigitsValue(s: string): nat
    requires AllDigits(s)
  {
    if |s| == 0 then 0 else DigitsValue(s[..|s| - 1]) * 10 + (s[|s| - 1] as int - '0' as int)
  }

  function Pow10(n: nat): (p: nat)
    ensures p >= 1
  {
    if n == 0 then 1 else 10 * Pow10(n - 1)
  }

  /** Position of the first character of `s` satisfying `p`, if any. */
  function FirstIndex(s: string, p: char -> bool): (r: Option<nat>)
    ensures r.Some? ==> r.value < |s| && p(s[r.value]) && forall i :: 0 <= i < r.value ==> !p(s[i])
    ensures r.None? ==> forall i :: 0 <= i < |s| ==> !p(s[i])
  {
    if |s| == 0 then None
    else if p(s[0]) then Some(0)
    else
      match FirstIndex(s[1..], p)
      case None => None
      case Some(k) => Some(k + 1)
  }

  /** An optionally signed run of digits, as used for the exponent. */
  function ParseInteger(s: string): (r: Option<int>)
    ensures r.Some? ==> forall i :: 0 <= i < |s| ==> IsFloatChar(s[i])
    ensures |s| > 0 && AllDigits(s) ==> r == Some(DigitsValue(s) as int)
    ensures |s| > 1 && s[0] == '+' && AllDigits(s[1..]) ==> r == Some(DigitsValue(s[1..]) as int)
    ensures |s| > 1 && s[0] == '-' && AllDigits(s[1..]) ==> r == Some(-(DigitsValue(s[1..]) as int))
    ensures r.Some? ==> (|s| > 0 && AllDigits(s)) || (|s| > 1 && (s[0] == '+' || s[0] == '-') && AllDigits(s[1..]))
  {
    if |s| > 0 && (s[0] == '+' || s[0] == '-') then
      var body := s[1..];
      if |body| > 0 && AllDigits(body) then
        Some(if s[0] == '-' then -(DigitsValue(body) as int) else DigitsValue(body))
      else None
    else if |s| > 0 && AllDigits(s) then Some(DigitsValue(s))
    else None
  }

  /** The decimal digits of `n`, most significant first, without leading zeros. */
  function DigitsText(n: nat): (t: string)
    ensures |t| > 0 && AllDigits(t)
    ensures DigitsValue(t) == n
  {
    var d := ['0' + ((n % 10) as char)];
    assert DigitsValue(d) == n % 10;
    if n < 10 then d
    else
      var t := DigitsText(n / 10) + d;
      assert t[..|t| - 1] == DigitsText(n / 10);
      t
  }

  /** How an integer is written in decimal: a minus sign for a negative one, then its digits. */
  function IntegerText(n: int): string {
    if n < 0 then "-" + DigitsText(-n) else DigitsText(n)
  }

  /** Parsing reads back every integer as it is written. */
  lemma IntegerRoundTrip(n: int)
    ensures ParseInteger(IntegerText(n)) == Some(n)
    ensures ParseFloat(IntegerText(n)) == Some(n as real)
  {
    var t := IntegerText(n);
    if n < 0 {
      assert t[1..] == DigitsText(-n);
      DigitsParse(t[1..]);
    } else {
      DigitsParse(t);
    }
  }

  predicate IsPoint(c: char) {
    c == '.'
  }

  predicate IsExponentMark(c: char) {
    c == 'e' || c == 'E'
  }

  /** A plain run of digits reads as its decimal value. */
  lemma DigitsParse(s: string)
    requires |s| > 0 && AllDigits(s)
    ensures FirstIndex(s, IsPoint).None? && FirstIndex(s, IsExponentMark).None?
    ensures ParseUnsignedDecimal(s) == Some(DigitsValue(s) as real)
  {
  }

  /** The value of the decimal `whole.frac`. */
  function DecimalValue(whole: string, frac: string): real
    requires AllDigits(whole) && AllDigits(frac)
  {
    DigitsValue(whole) as real + DigitsValue(frac) as real / Pow10(|frac|) as real
  }

  /** An unsigned decimal `digits[.digits]`; it starts with a digit, holds only digits and at
      most one point, and its value is that of its digit string or of `whole.frac`. */
  function ParseUnsignedDecimal(s: string): (r: Option<real>)
    ensures r.Some? ==> |s| > 0 && IsDigit(s[0]) && forall i :: 0 <= i < |s| ==> IsDigit(s[i]) || IsPoint(s[i])
    ensures r.Some? ==>
      || (AllDigits(s) && r.value == DigitsValue(s) as real)
      || (exists d :: 0 < d < |s| - 1 && IsPoint(s[d]) && AllDigits(s[..d]) && AllDigits(s[d + 1..])
                      && r.value == DecimalValue(s[..d], s[d + 1..]))
  {
    match FirstIndex(s, IsPoint)
    case None =>
      if |s| > 0 && AllDigits(s) then Some(DigitsValue(s) as real) else None
    case Some(d) =>
      var whole := s[..d];
      var frac := s[d + 1..];
      if |whole| > 0 && AllDigits(whole) && |frac| > 0 && AllDigits(frac) then
        assert forall i :: 0 <= i < |s| ==> IsDigit(s[i]) || IsPoint(s[i]) by {
          forall i | 0 <= i < |s| ensures IsDigit(s[i]) || IsPoint(s[i]) {
            if i < d { assert s[i] == whole[i]; }
            else if i > d { assert s[i] == frac[i - d - 1]; }
          }
        }
        assert IsDigit(s[0]) by { assert s[0] == whole[0]; }
        Some(DecimalValue(whole, frac))
      else None
  }

  /** A point between two non-empty digit runs reads as the decimal value. */
  lemma DecimalParse(whole: string, frac: string)
    requires |whole| > 0 && AllDigits(whole) && |frac| > 0 && AllDigits(frac)
    ensures ParseUnsignedDecimal(whole + "." + frac) == Some(DecimalValue(whole, frac))
  {
    var s := whole + "." + frac;
    assert s[|whole|] == '.';
    assert forall i :: 0 <= i < |whole| ==> s[i] == whole[i];
    assert FirstIndex(s, IsPoint) == Some(|whole|);
    assert s[..|whole|] == whole && s[|whole| + 1..] == frac;
  }

  function Scale(m: real, e: int): real {
    if e >= 0 then m * Pow10(e) as real else m / Pow10(-e) as real
  }

  predicate IsFloatChar(c: char) {
    IsDigit(c) || c == '+' || c == '-' || c == '.' || c == 'e' || c == 'E'
  }

  /** `digits[.digits][(e|E)[+-]digits]`, unsigned; it starts with a digit. Its value is the
      decimal mantissa, scaled by ten to the power of the exponent when there is one. */
  function ParseUnsignedFloat(body: string): (r: Option<real>)
    ensures r.Some? ==> |body| > 0 && IsDigit(body[0]) && forall i :: 0 <= i < |body| ==> IsFloatChar(body[i])
    ensures |body| > 0 && AllDigits(body) ==> r == Some(DigitsValue(body) as real)
    ensures r.Some? ==>
      || r == ParseUnsignedDecimal(body)
      || (exists k :: 0 < k < |body| && IsExponentMark(body[k])
                      && ParseUnsignedDecimal(body[..k]).Some? && ParseInteger(body[k + 1..]).Some?
                      && r.value == Scale(ParseUnsignedDecimal(body[..k]).value, ParseInteger(body[k + 1..]).value))
  {
    var k := FirstIndex(body, IsExponentMark);
    var mantissa := if k.Some? then body[..k.value] else body;
    var exponent := if k.Some? then ParseInteger(body[k.value + 1..]) else Some(0);
    assert |body| > 0 && AllDigits(body) ==> k.None? && ParseUnsignedDecimal(mantissa) == Some(DigitsValue(body) as real) by {
      if |body| > 0 && AllDigits(body) {
        DigitsParse(body);
      }
    }
    match (ParseUnsignedDecimal(mantissa), exponent)
    case (Some(m), Some(e)) =>
      assert forall i :: 0 <= i < |body| ==> IsFloatChar(body[i]) by {
        forall i | 0 <= i < |body| ensures IsFloatChar(body[i]) {
          if k.Some? && i > k.value {
            assert body[i] == body[k.value + 1..][i - k.value - 1];
          } else if k.None? || i < k.value {
            assert body[i] == mantissa[i];
          }
        }
      }
      assert IsDigit(body[0]) by { assert body[0] == mantissa[0]; }
      assert k.None? ==> Scale(m, e) == m;
      Some(Scale(m, e))
    case _ => None
  }

  /** A decimal without exponent reads as that decimal. */
  lemma MantissaParse(m: string)
    requires ParseUnsignedDecimal(m).Some?
    ensures ParseUnsignedFloat(m) == ParseUnsignedDecimal(m)
  {
    assert FirstIndex(m, IsExponentMark).None?;
  }

  /** A decimal mantissa, an exponent mark and an integer read as the scaled mantissa. */
  lemma ExponentParse(m: string, mark: char, e: string)
    requires ParseUnsignedDecimal(m).Some? && IsExponentMark(mark) && ParseInteger(e).Some?
    ensures ParseUnsignedFloat(m + [mark] + e) == Some(Scale(ParseUnsignedDecimal(m).value, ParseInteger(e).value))
  {
    var body := m + [mark] + e;
    assert body[|m|] == mark;
    assert forall i :: 0 <= i < |m| ==> body[i] == m[i] && !IsExponentMark(m[i]);
    assert FirstIndex(body, IsExponentMark) == Some(|m|);
    assert body[..|m|] == m && body[|m| + 1..] == e;
  }

  /** Ruby's strict `Float(text)` on already-stripped text, for the decimal forms
      `[+-]digits[.digits][(e|E)[+-]digits]`; any other text is rejected (nil). */
  function ParseFloat(t: string): (r: Option<real>)
    ensures r.Some? ==> |t| > 0 && forall i :: 0 <= i < |t| ==> IsFloatChar(t[i])
    ensures r.Some? ==> exists i :: 0 <= i < |t| && IsDigit(t[i])
    ensures |t| > 0 && AllDigits(t) ==> r == Some(DigitsValue(t) as real)
    ensures |t| == 0 || (t[0] != '+' && t[0] != '-') ==> r == ParseUnsignedFloat(t)
    ensures |t| > 0 && t[0] == '+' ==> r == ParseUnsignedFloat(t[1..])
    ensures |t| > 0 && t[0] == '-' ==> r.Some? == ParseUnsignedFloat(t[1..]).Some?
    ensures |t| > 0 && t[0] == '-' && r.Some? ==> r.value == -ParseUnsignedFloat(t[1..]).value
  {
    var signed := |t| > 0 && (t[0] == '+' || t[0] == '-');
    var body := if signed then t[1..] else t;
    match ParseUnsignedFloat(body)
    case Some(v) =>
      assert forall i :: 0 <= i < |t| ==> IsFloatChar(t[i]) by {
        forall i | 0 <= i < |t| ensures IsFloatChar(t[i]) {
          if signed && i > 0 { assert t[i] == body[i - 1]; }
          else if !signed { assert t[i] == body[i]; }
        }
      }
      assert IsDigit(t[|t| - |body|]);
      Some(if |t| > 0 && t[0] == '-' then -v else v)
    case None => None
  }

  /** Ruby's `parse_optional_float` / `parse_float`: strip, blank is nil, otherwise `Float`,
      with nil when the text does not parse. */
  function ParseOptionalFloat(text: string): (r: Option<real>)
    ensures (forall i :: 0 <= i < |text| ==> Text.IsStripSpace(text[i])) ==> r.None?
    ensures r.Some? ==> exists i :: 0 <= i < |text| && IsDigit(text[i])
    ensures r == ParseFloat(Text.Strip(text))
  {
    var t := Text.Strip(text);
    if t == "" then None else ParseFloat(t)
  }
}

/**
 * Decimal number parsing as JavaScript performs it on the amounts and months
 * the application reads: `parseFloat` (longest numeric prefix), `Number`
 * (whole string) and rounding of non-negative ratios (`Math.round`).
 * Numbers are exact `real`s; exponent notation and `Infinity` are not read.
 */
module Numbers {
  import opened Wrappers
  import opened Strings

  function Pow10(n: nat): (p: nat)
    ensures p >= 1
  {
    if n == 0 then 1 else 10 * Pow10(n - 1)
  }

  /** Length of the run of digits at the start of `s`. */
  function LeadingDigits(s: string): (k: nat)
    ensures k <= |s| && AllDigits(s[..k])
    ensures k < |s| ==> !IsDigit(s[k])
  {
    if s != [] && IsDigit(s[0]) then
      var k := 1 + LeadingDigits(s[1..]);
      assert s[..k] == [s[0]] + s[1..][..k - 1];
      k
    else 0
  }

  /** The value written by an integer part and a fraction part, `int.frac`. */
  function DecimalValue(intPart: string, fracPart: string): (r: real)
    requires AllDigits(intPart) && AllDigits(fracPart)
    ensures r >= 0.0
  {
    DigitsValue(intPart) as real + Shifted(DigitsValue(fracPart), |fracPart|)
  }

  /** `v` with the decimal point moved `places` digits to the left, one digit at a time. */
  function Shifted(v: nat, places: nat): (r: real)
    ensures r >= 0.0
  {
    if places == 0 then v as real else Shifted(v, places - 1) / 10.0
  }

  /** Moving the point `n` places divides by ten to the `n`. */
  lemma {:induction false} ShiftedIsQuotient(v: nat, n: nat)
    ensures Shifted(v, n) * Pow10(n) as real == v as real
  {
    if n > 0 {
      ShiftedIsQuotient(v, n - 1);
      var q := Shifted(v, n - 1);
      assert Shifted(v, n) * 10.0 == q;
      assert Shifted(v, n) * Pow10(n) as real == (Shifted(v, n) * 10.0) * Pow10(n - 1) as real;
    }
  }

  /**
   * An unsigned decimal literal at the start of `s`: its value and length.
   * `digits [ '.' digits ]` or `'.' digits`; None when `s` starts with neither.
   */
  function UnsignedPrefix(s: string): (r: Option<(real, nat)>)
    ensures r.Some? ==> 0 < r.value.1 <= |s| && r.value.0 >= 0.0
  {
    var k := LeadingDigits(s);
    if k < |s| && s[k] == '.' then
      var f := LeadingDigits(s[k + 1..]);
      if k == 0 && f == 0 then None
      else Some((DecimalValue(s[..k], s[k + 1..][..f]), k + 1 + f))
    else if k == 0 then None
    else Some((DecimalValue(s[..k], ""), k))
  }

  /** A sign and an unsigned literal at the start of `s`. */
  function SignedPrefix(s: string): (r: Option<(real, nat)>)
    ensures r.Some? ==> 0 < r.value.1 <= |s|
  {
    if s != [] && (s[0] == '-' || s[0] == '+') then
      match UnsignedPrefix(s[1..])
      case None => None
      case Some((v, n)) => Some((if s[0] == '-' then -v else v, n + 1))
    else UnsignedPrefix(s)
  }

  /** `parseFloat(s)`; None stands for NaN. */
  function ParseFloat(s: string): Option<real>
  {
    var t := TrimStart(s);
    match SignedPrefix(t)
    case None => None
    case Some((v, _)) => Some(v)
  }

  /** Only a text with a digit in it is a number: `parseFloat` of anything else is NaN. */
  lemma ParseFloatNeedsDigit(s: string)
    requires ParseFloat(s).Some?
    ensures exists i :: 0 <= i < |s| && IsDigit(s[i])
  {
    var t := TrimStart(s);
    TrimStartSpaces(s);
    PrefixHasDigit(t);
    var i :| 0 <= i < |t| && IsDigit(t[i]);
    assert t[i] == s[|s| - |t| + i];
  }

  lemma PrefixHasDigit(t: string)
    requires SignedPrefix(t).Some?
    ensures exists i :: 0 <= i < |t| && IsDigit(t[i])
  {
    var u := if t != [] && (t[0] == '-' || t[0] == '+') then t[1..] else t;
    var k := LeadingDigits(u);
    if k > 0 {
      assert IsDigit(u[0]);
    } else {
      assert IsDigit(u[1]);
    }
  }

  /** `Number(s)` on a decimal text: the whole trimmed string must be the literal; blank is 0. */
  function NumberOf(s: string): (r: Option<real>)
    ensures IsBlank(s) ==> r == Some(0.0)
  {
    TrimEmpty(s);
    var t := Trim(s);
    if t == [] then Some(0.0)
    else
      match SignedPrefix(t)
      case Some((v, n)) => if n == |t| then Some(v) else None
      case None => None
  }

  /** `Number` of a run of digits is the number they write. */
  lemma NumberOfDigits(s: string)
    ensures s != [] && AllDigits(s) ==> NumberOf(s) == Some(DigitsValue(s) as real)
  {
    if s != [] && AllDigits(s) {
      LeadingDigitsAll(s);
      assert !IsSpace(s[0]) && !IsSpace(s[|s| - 1]);
      TrimUnchanged(s);
      assert s[..|s|] == s;
      assert UnsignedPrefix(s) == Some((DecimalValue(s, ""), |s|));
      assert DecimalValue(s, "") == DigitsValue(s) as real;
      assert SignedPrefix(s) == UnsignedPrefix(s);
    }
  }

  /** A number read back from its digits: parseFloat(String(n)) == n. */
  lemma ParseFloatNat(n: nat)
    ensures ParseFloat(NatToString(n)) == Some(n as real)
    ensures NumberOf(NatToString(n)) == Some(n as real)
  {
    var s := NatToString(n);
    LeadingDigitsAll(s);
    assert !IsSpace(s[0]) && !IsSpace(s[|s| - 1]);
    assert TrimStart(s) == s;
    TrimUnchanged(s);
    assert s[..|s|] == s;
    assert UnsignedPrefix(s) == Some((DecimalValue(s, ""), |s|));
    assert DecimalValue(s, "") == n as real;
    assert SignedPrefix(s) == UnsignedPrefix(s);
  }

  /** The digit run of `a + rest` is `a` when `rest` does not start with a digit. */
  lemma {:induction false} LeadingDigitsConcat(a: string, rest: string)
    requires AllDigits(a) && (rest == [] || !IsDigit(rest[0]))
    ensures LeadingDigits(a + rest) == |a|
  {
    if a != [] {
      assert (a + rest)[1..] == a[1..] + rest;
      LeadingDigitsConcat(a[1..], rest);
    }
  }

  /** `parseFloat("int.frac")` is the decimal value those digits write. */
  lemma ParseFloatDecimal(intPart: string, fracPart: string)
    requires intPart != [] && AllDigits(intPart) && AllDigits(fracPart)
    ensures ParseFloat(intPart + "." + fracPart) == Some(DecimalValue(intPart, fracPart))
  {
    var s := intPart + "." + fracPart;
    assert s + [] == s;
    ParseFloatDecimalRest(intPart, fracPart, []);
  }

  /** `parseFloat` stops where the digits after the point end: `int.frac` followed by a non-digit reads as `int.frac`. */
  lemma ParseFloatDecimalRest(intPart: string, fracPart: string, rest: string)
    requires intPart != [] && AllDigits(intPart) && AllDigits(fracPart)
    requires rest == [] || !IsDigit(rest[0])
    ensures ParseFloat(intPart + "." + fracPart + rest) == Some(DecimalValue(intPart, fracPart))
  {
    var s := intPart + "." + fracPart + rest;
    UnsignedDecimal(intPart, fracPart, rest);
    assert s[0] == intPart[0];
    ParseFloatUnsigned(s);
  }

  /** A text starting with a digit has no space or sign to skip: `parseFloat` reads its unsigned literal. */
  lemma ParseFloatUnsigned(s: string)
    requires s != [] && IsDigit(s[0])
    ensures ParseFloat(s) == if UnsignedPrefix(s).Some? then Some(UnsignedPrefix(s).value.0) else None
  {
    assert TrimStart(s) == s;
    assert SignedPrefix(s) == UnsignedPrefix(s);
  }

  /** The literal at the start of `int.frac` followed by a non-digit is `int.frac`. */
  lemma UnsignedDecimal(intPart: string, fracPart: string, rest: string)
    requires intPart != [] && AllDigits(intPart) && AllDigits(fracPart)
    requires rest == [] || !IsDigit(rest[0])
    ensures var r := UnsignedPrefix(intPart + "." + fracPart + rest);
      r.Some? && r.value.0 == DecimalValue(intPart, fracPart) && r.value.1 == |intPart| + 1 + |fracPart|
  {
    var u := fracPart + rest;
    assert intPart + "." + fracPart + rest == intPart + (['.'] + u);
    LeadingDigitsConcat(fracPart, rest);
    assert u[..|fracPart|] == fracPart;
    DigitsThenPoint(intPart, u);
  }

  /** Digits, a point, then anything: the literal runs on through the digits after the point. */
  lemma DigitsThenPoint(intPart: string, u: string)
    requires intPart != [] && AllDigits(intPart)
    ensures var r := UnsignedPrefix(intPart + (['.'] + u));
      r.Some? && r.value.0 == DecimalValue(intPart, u[..LeadingDigits(u)]) && r.value.1 == |intPart| + 1 + LeadingDigits(u)
  {
    var s := intPart + (['.'] + u);
    var k := |intPart|;
    LeadingDigitsConcat(intPart, ['.'] + u);
    assert s[..k] == intPart && s[k + 1..] == u;
    var f := LeadingDigits(u);
    UnsignedPoint(s, k, f);
    assert s[k + 1..][..f] == u[..f];
  }

  /** A digit run followed by a point: the literal takes the digits after the point too. */
  lemma UnsignedPoint(s: string, k: nat, f: nat)
    requires 0 < k < |s| && k == LeadingDigits(s) && s[k] == '.'
    requires f == LeadingDigits(s[k + 1..])
    ensures var r := UnsignedPrefix(s);
      r.Some? && r.value.0 == DecimalValue(s[..k], s[k + 1..][..f]) && r.value.1 == k + 1 + f
  {
  }

  lemma LeadingDigitsAll(s: string)
    requires AllDigits(s)
    ensures LeadingDigits(s) == |s|
  {
    assert s + [] == s;
    LeadingDigitsConcat(s, []);
  }

  /**
   * `parseInt(s)` in base 10: leading whitespace, a sign and the longest run
   * of digits; None stands for NaN.
   */
  function ParseInt(s: string): Option<int>
  {
    var t := TrimStart(s);
    var signed := t != [] && (t[0] == '-' || t[0] == '+');
    var u := if signed then t[1..] else t;
    var k := LeadingDigits(u);
    if k == 0 then None
    else
      var v: int := DigitsValue(u[..k]);
      Some(if signed && t[0] == '-' then -v else v)
  }

  /** `parseInt` of a text without a digit is NaN. */
  lemma ParseIntNeedsDigit(s: string)
    requires ParseInt(s).Some?
    ensures exists i :: 0 <= i < |s| && IsDigit(s[i])
  {
    var t := TrimStart(s);
    TrimStartSpaces(s);
    var u := if t != [] && (t[0] == '-' || t[0] == '+') then t[1..] else t;
    assert IsDigit(u[0]);
    var i := |t| - |u|;
    assert IsDigit(t[i]);
    assert t[i] == s[|s| - |t| + i];
  }

  /** parseInt(String(n)) == n. */
  lemma ParseIntNat(n: nat)
    ensures ParseInt(NatToString(n)) == Some(n)
  {
    var s := NatToString(n);
    LeadingDigitsAll(s);
    assert !IsSpace(s[0]);
    assert TrimStart(s) == s;
    assert s[..|s|] == s;
  }

  /**
   * `Math.round(a / b)` for a non-negative ratio of integers, halves rounding
   * up: r - 1/2 <= a / b < r + 1/2, written over the integers.
   */
  function RoundRatio(a: nat, b: nat): (r: nat)
    requires b > 0
    ensures (2 * r - 1) * b <= 2 * a < (2 * r + 1) * b
  {
    var r := (2 * a + b) / (2 * b);
    assert r * (2 * b) <= 2 * a + b < r * (2 * b) + 2 * b;
    assert (2 * r - 1) * b == r * (2 * b) - b && (2 * r + 1) * b == r * (2 * b) + b;
    r
  }

  /** `s.replace(/R\$\s*\/g, '')`: every `R$` and the whitespace after it removed. */
  function StripCurrency(s: string): (r: string)
    ensures |r| <= |s|
    ensures '$' !in s ==> r == s
    decreases |s|
  {
    if |s| >= 2 && s[0] == 'R' && s[1] == '$' then StripCurrency(TrimStart(s[2..]))
    else if s == [] then []
    else [s[0]] + StripCurrency(s[1..])
  }

  /** `R$` and the whitespace after it, in front of a text without `$`, are removed. */
  lemma StripCurrencyPrefix(ws: string, body: string)
    requires IsBlank(ws) && body != [] && !IsSpace(body[0]) && '$' !in body
    ensures StripCurrency("R$" + ws + body) == body
  {
    var s := "R$" + ws + body;
    assert s[2..] == ws + body;
    TrimStartBlankPrefix(ws, body);
  }

  predicate IsDot(c: char) { c == '.' }

  predicate IsComma(c: char) { c == ',' }

  lemma {:induction false} RemoveDot(a: string, b: string)
    requires '.' !in a
    ensures Remove(a + "." + b, IsDot) == a + Remove(b, IsDot)
  {
    if a == [] {
      assert ("." + b)[1..] == b;
    } else {
      assert (a + "." + b)[1..] == a[1..] + "." + b;
      RemoveDot(a[1..], b);
    }
  }

  lemma RemoveNone(s: string)
    requires '.' !in s
    ensures Remove(s, IsDot) == s
  {
    RemoveSpec(s, IsDot);
  }

  lemma ReplaceFirstComma(digits: string, cents: string)
    requires AllDigits(digits)
    ensures ReplaceFirst(digits + "," + cents, ',', ".") == digits + "." + cents
  {
    var s := digits + "," + cents;
    assert s == digits + [','] + cents;
    IndexOfPrefix(digits, cents, ',');
    assert s[..|digits|] == digits && s[|digits| + 1..] == cents;
  }

  /** The value of digits written after other digits: `a` shifted left by the length of `b`. */
  lemma {:induction false} DigitsValueConcat(a: string, b: string)
    requires AllDigits(a) && AllDigits(b)
    ensures DigitsValue(a + b) == DigitsValue(a) * Pow10(|b|) + DigitsValue(b)
  {
    if b == [] {
      assert a + b == a;
    } else {
      var b' := b[..|b| - 1];
      var d := DigitValue(b[|b| - 1]);
      assert (a + b)[..|a + b| - 1] == a + b' && (a + b)[|a + b| - 1] == b[|b| - 1];
      assert DigitsValue(a + b) == DigitsValue(a + b') * 10 + d;
      assert DigitsValue(b) == DigitsValue(b') * 10 + d;
      DigitsValueConcat(a, b');
      ShiftOneDigit(DigitsValue(a), Pow10(|b'|), DigitsValue(b'));
    }
  }

  /** `(x * p + y) * 10 == x * (10 * p) + y * 10`. */
  lemma ShiftOneDigit(x: nat, p: nat, y: nat)
    ensures (x * p + y) * 10 == x * (10 * p) + y * 10
  {
  }

  /** `parseFloat` of a run of digits is the number they write. */
  lemma ParseFloatDigits(s: string)
    requires s != [] && AllDigits(s)
    ensures ParseFloat(s) == Some(DigitsValue(s) as real)
  {
    LeadingDigitsAll(s);
    assert s[..|s|] == s;
    assert UnsignedPrefix(s) == Some((DecimalValue(s, ""), |s|));
    assert DecimalValue(s, "") == DigitsValue(s) as real;
    ParseFloatUnsigned(s);
  }

  /** `Math.abs`. */
  function Abs(x: real): (r: real)
    ensures r >= 0.0 && (r == x || r == -x)
  {
    if x < 0.0 then -x else x
  }
}

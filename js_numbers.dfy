/** The JavaScript string-to-number conversions the dashboard leans on:
    `parseInt(s)` and `parseFloat(s)`. Both skip leading white space, read
    the longest numeric prefix and ignore the rest; no prefix gives `NaN`,
    written `None` here. Values are exact reals, not doubles. */
module JsNumbers {
  import opened Wrappers
  import opened Text

  /** White space skipped before a number: the ASCII separators, no-break
      space and the byte-order mark. */
  predicate IsSpace(c: char) {
    c == ' ' || c == '\t' || c == '\n' || c == '\r' || c == '\U{B}' || c == '\U{C}' || c == '\U{A0}' || c == '\U{FEFF}'
  }

  /** The string without its leading white space. */
  function TrimStart(s: string): (r: string)
    ensures |r| <= |s| && r == s[|s| - |r|..]
    ensures r != [] ==> !IsSpace(r[0])
    ensures forall i :: 0 <= i < |s| - |r| ==> IsSpace(s[i])
  {
    if s != [] && IsSpace(s[0]) then TrimStart(s[1..]) else s
  }

  /** The length of the run of decimal digits at the front. */
  function DigitRun(s: string): (n: nat)
    ensures n <= |s| && AllDigits(s[..n])
    ensures n < |s| ==> !IsDigit(s[n])
  {
    if s != [] && IsDigit(s[0]) then
      var n := 1 + DigitRun(s[1..]);
      assert s[..n] == [s[0]] + s[1..][..n - 1];
      n
    else 0
  }

  lemma {:induction false} DigitRunAll(s: string, rest: string)
    requires AllDigits(s)
    requires rest == [] || !IsDigit(rest[0])
    ensures DigitRun(s + rest) == |s|
  {
    if s != [] {
      assert (s + rest)[1..] == s[1..] + rest;
      DigitRunAll(s[1..], rest);
    } else {
      assert s + rest == rest;
    }
  }

  /** An optional sign: whether it is `-`, and what follows it. */
  function Sign(s: string): (bool, string) {
    if s != [] && s[0] == '-' then (true, s[1..])
    else if s != [] && s[0] == '+' then (false, s[1..])
    else (false, s)
  }

  function Signed(negative: bool, magnitude: nat): int {
    if negative then -(magnitude as int) else magnitude
  }

  /** `parseInt(s)` with no radix, for decimal text. */
  function ParseInt(s: string): Option<int> {
    var (negative, rest) := Sign(TrimStart(s));
    var n := DigitRun(rest);
    if n == 0 then None else Some(Signed(negative, DigitsValue(rest[..n])))
  }

  /** Text that starts with a digit or a sign has no white space to skip. */
  lemma NoSpaceToSkip(s: string)
    requires s != [] && (IsDigit(s[0]) || s[0] == '-')
    ensures TrimStart(s) == s
  {
  }

  /** How `String(n)` followed by other text splits: no white space, the
      sign, then exactly the digits of |n|. */
  lemma DecimalText(n: int, rest: string)
    requires rest == [] || !IsDigit(rest[0])
    ensures var digits := NatToDecimal(if n < 0 then -n else n);
      && TrimStart(IntToDecimal(n) + rest) == IntToDecimal(n) + rest
      && Sign(IntToDecimal(n) + rest) == (n < 0, digits + rest)
      && DigitRun(digits + rest) == |digits|
      && (digits + rest)[..|digits|] == digits
      && (digits + rest)[|digits|..] == rest
      && DigitsValue(digits) == (if n < 0 then -n else n)
  {
    var m: nat := if n < 0 then -n else n;
    var digits := NatToDecimal(m);
    var s := IntToDecimal(n) + rest;
    NatToDecimalRoundTrip(m);
    DigitRunAll(digits, rest);
    assert (digits + rest)[..|digits|] == digits;
    assert (digits + rest)[|digits|..] == rest;
    if n < 0 {
      assert s == ['-'] + (digits + rest);
      NoSpaceToSkip(s);
      assert s[1..] == digits + rest;
    } else {
      assert s == digits + rest;
      assert IsDigit(s[0]);
      NoSpaceToSkip(s);
    }
  }

  /** `parseInt` reads back what `String(n)` writes, whatever non-digit
      text follows. */
  lemma ParseIntRoundTrip(n: int, rest: string)
    requires rest == [] || !IsDigit(rest[0])
    ensures ParseInt(IntToDecimal(n) + rest) == Some(n)
  {
    DecimalText(n, rest);
  }

  /** The numeric prefix `parseFloat` reads: sign, whole digits, fraction
      digits after a point, and a decimal exponent. */
  datatype Decimal = Decimal(negative: bool, whole: string, fraction: string, exponent: int) {
    ghost predicate Valid() {
      AllDigits(whole) && AllDigits(fraction) && (whole != [] || fraction != [])
    }

    function Value(): real
      requires AllDigits(whole) && AllDigits(fraction)
    {
      var mantissa := (DigitsValue(whole) * Pow10(|fraction|) + DigitsValue(fraction)) as real / Pow10(|fraction|) as real;
      var scaled :=
        if exponent >= 0 then mantissa * Pow10(exponent) as real
        else mantissa / Pow10(-exponent) as real;
      if negative then -scaled else scaled
    }
  }

  /** An exponent part `e`/`E`, optional sign and at least one digit; text
      that does not complete one is not consumed. */
  function Exponent(s: string): int {
    if s != [] && (s[0] == 'e' || s[0] == 'E') then
      var (negative, digits) := Sign(s[1..]);
      var n := DigitRun(digits);
      if n == 0 then 0 else Signed(negative, DigitsValue(digits[..n]))
    else 0
  }

  /** The longest prefix of `s` (after white space) that reads as a decimal
      number, if any. */
  function ScanDecimal(s: string): (d: Option<Decimal>)
    ensures d.Some? ==> d.value.Valid()
  {
    var (negative, rest) := Sign(TrimStart(s));
    var n := DigitRun(rest);
    var whole := rest[..n];
    var after := rest[n..];
    var m := if after != [] && after[0] == '.' then DigitRun(after[1..]) else 0;
    var fraction := if after != [] && after[0] == '.' then after[1..][..m] else [];
    var tail := if after != [] && after[0] == '.' then after[1..][m..] else after;
    if n == 0 && m == 0 then None
    else Some(Decimal(negative, whole, fraction, Exponent(tail)))
  }

  /** `parseFloat(s)`; `None` stands for `NaN`. */
  function ParseFloat(s: string): Option<real> {
    var d := ScanDecimal(s);
    if d.None? then None else Some(d.value.Value())
  }

  /** `parseFloat` reads back an integer written by `String(n)`, whatever
      text follows that does not continue the number. */
  lemma ParseFloatOfInteger(n: int, rest: string)
    requires rest == [] || !(IsDigit(rest[0]) || rest[0] in ".eE")
    ensures ParseFloat(IntToDecimal(n) + rest) == Some(n as real)
  {
    DecimalText(n, rest);
    var digits := NatToDecimal(if n < 0 then -n else n);
    assert ScanDecimal(IntToDecimal(n) + rest) == Some(Decimal(n < 0, digits, [], 0));
  }

  /** `parseFloat` yields a number exactly when, after white space and an
      optional sign, the text starts with a digit or with a point followed
      by a digit. */
  lemma ParseFloatDefined(s: string)
    ensures var rest := Sign(TrimStart(s)).1;
      ParseFloat(s).Some? <==>
        (rest != [] && IsDigit(rest[0])) || (|rest| >= 2 && rest[0] == '.' && IsDigit(rest[1]))
  {
    var rest := Sign(TrimStart(s)).1;
    if rest != [] && rest[0] == '.' {
      assert DigitRun(rest) == 0;
      assert rest[0..] == rest;
    }
  }
}

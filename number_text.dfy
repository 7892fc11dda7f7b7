/** The two conversions between numbers and text that the add-grade form
    relies on: `parseFloat` (form input to number; `NaN` is `None`) and
    `Number.prototype.toString` on integers (points copied into the form). */
module NumberText {
  import opened Common

  predicate IsDigit(c: char) {
    '0' <= c <= '9'
  }

  predicate AllDigits(s: string) {
    forall i :: 0 <= i < |s| ==> IsDigit(s[i])
  }

  function DigitValue(c: char): (n: nat)
    requires IsDigit(c)
    ensures n < 10
  {
    c as int - '0' as int
  }

  function DigitChar(n: nat): (c: char)
    requires n < 10
    ensures IsDigit(c) && DigitValue(c) == n
  {
    ('0' as int + n) as char
  }

  /** The end of the run of decimal digits of `s` that starts at `i`. */
  function DigitsEnd(s: string, i: nat): (n: nat)
    requires i <= |s|
    ensures i <= n <= |s|
    ensures forall j :: i <= j < n ==> IsDigit(s[j])
    ensures n < |s| ==> !IsDigit(s[n])
    decreases |s| - i
  {
    if i < |s| && IsDigit(s[i]) then DigitsEnd(s, i + 1) else i
  }

  /** The value of a string of decimal digits, most significant first. */
  function DigitsValue(s: string): nat
    requires AllDigits(s)
  {
    if s == [] then 0
    else DigitsValue(s[..|s| - 1]) * 10 + DigitValue(s[|s| - 1])
  }

  /** The value of the digits after a decimal point: `0.d1d2...`. */
  function FractionValue(f: string): real
    requires AllDigits(f)
  {
    if f == [] then 0.0 else (DigitValue(f[0]) as real + FractionValue(f[1..])) / 10.0
  }

  /** The white-space characters the model recognises before a number. */
  predicate IsSpace(c: char) {
    c == ' ' || c == '\t' || c == '\n' || c == '\r'
  }

  /** The end of the run of white space of `s` that starts at `i`. */
  function SpacesEnd(s: string, i: nat): (n: nat)
    requires i <= |s|
    ensures i <= n <= |s|
    ensures n < |s| ==> !IsSpace(s[n])
    decreases |s| - i
  {
    if i < |s| && IsSpace(s[i]) then SpacesEnd(s, i + 1) else i
  }

  /** The text after its leading white space. */
  function TrimStart(s: string): (t: string)
    ensures t == [] || !IsSpace(t[0])
  {
    s[SpacesEnd(s, 0)..]
  }

  /** The unsigned part of `parseFloat`: the longest prefix of the form
      digits [ '.' digits ] with at least one digit; anything after it is
      ignored. */
  function UnsignedFloat(u: string): Option<real> {
    var n := DigitsEnd(u, 0);
    var point := n < |u| && u[n] == '.';
    var m := if point then DigitsEnd(u, n + 1) else n;
    var fraction := if point then u[n + 1..m] else "";
    assert AllDigits(u[..n]) && AllDigits(fraction);
    if n == 0 && fraction == [] then None
    else Some(DigitsValue(u[..n]) as real + FractionValue(fraction))
  }

  /** The text after an optional leading sign. */
  function WithoutSign(t: string): (u: string)
    ensures u == t || (t != [] && u == t[1..])
  {
    if t != [] && (t[0] == '-' || t[0] == '+') then t[1..] else t
  }

  /** `parseFloat`: skip leading white space, read an optional sign, then
      the unsigned number. No digit at all gives `NaN`, modelled as
      `None`. */
  function ParseFloat(s: string): (r: Option<real>)
    ensures var u := WithoutSign(TrimStart(s));
      r.Some? <==> (u != [] && IsDigit(u[0])) || (|u| >= 2 && u[0] == '.' && IsDigit(u[1]))
  {
    var t := TrimStart(s);
    match UnsignedFloat(WithoutSign(t))
    case None => None
    case Some(magnitude) => Some(if t != [] && t[0] == '-' then -magnitude else magnitude)
  }

  /** `parseInt(s)` in base 10: skip leading white space, read an optional
      sign, then the longest run of digits; anything after it is ignored.
      No digit at all gives `NaN`, modelled as `None`. */
  function ParseInt(s: string): (r: Option<int>)
    ensures var u := WithoutSign(TrimStart(s));
      r.Some? <==> u != [] && IsDigit(u[0])
  {
    var t := TrimStart(s);
    var u := WithoutSign(t);
    var n := DigitsEnd(u, 0);
    assert AllDigits(u[..n]);
    if n == 0 then None
    else Some(if t != [] && t[0] == '-' then -(DigitsValue(u[..n]) as int) else DigitsValue(u[..n]))
  }

  /** `n.toString()` for a natural number: its decimal digits, no leading
      zero. */
  function NatToString(n: nat): (s: string)
    ensures |s| >= 1 && AllDigits(s)
    ensures DigitsValue(s) == n
    ensures s[0] == '0' ==> n == 0
  {
    if n < 10 then [DigitChar(n)]
    else
      var init := NatToString(n / 10);
      var s := init + [DigitChar(n % 10)];
      assert s[..|s| - 1] == init;
      s
  }

  /** `n.toString()` for an integer. */
  function IntToString(n: int): (s: string)
    ensures |s| >= 1
  {
    if n < 0 then "-" + NatToString(-n) else NatToString(n)
  }

  lemma {:induction false} DigitsEndAllDigits(s: string, i: nat)
    requires AllDigits(s) && i <= |s|
    ensures DigitsEnd(s, i) == |s|
    decreases |s| - i
  {
    if i < |s| {
      DigitsEndAllDigits(s, i + 1);
    }
  }

  /** A string of digits only reads as its value. */
  lemma UnsignedFloatDigits(digits: string)
    requires |digits| >= 1 && AllDigits(digits)
    ensures UnsignedFloat(digits) == Some(DigitsValue(digits) as real)
  {
    DigitsEndAllDigits(digits, 0);
    assert digits[..|digits|] == digits;
  }

  /** `parseFloat` of a text without leading white space or sign: the
      unsigned number it starts with. */
  lemma ParseFloatUnsigned(s: string, v: real)
    requires s != [] && s[0] != '-' && TrimStart(s) == s && UnsignedFloat(WithoutSign(s)) == Some(v)
    ensures ParseFloat(s) == Some(v)
  {
  }

  /** `parseFloat` of digits only. */
  lemma ParseFloatDigits(digits: string)
    requires |digits| >= 1 && AllDigits(digits)
    ensures ParseFloat(digits) == Some(DigitsValue(digits) as real)
  {
    assert IsDigit(digits[0]);
    assert TrimStart(digits) == digits;
    assert WithoutSign(digits) == digits;
    UnsignedFloatDigits(digits);
    ParseFloatUnsigned(digits, DigitsValue(digits) as real);
  }

  /** `parseFloat` of a text without leading white space that starts with
      a minus sign: the negated unsigned number after the sign. */
  lemma ParseFloatNegative(s: string, v: real)
    requires s != [] && s[0] == '-' && TrimStart(s) == s && UnsignedFloat(WithoutSign(s)) == Some(v)
    ensures ParseFloat(s) == Some(-v)
  {
  }

  /** `parseFloat` of a minus sign followed by digits only. */
  lemma ParseFloatNegativeDigits(s: string, digits: string)
    requires s != [] && s[0] == '-' && s[1..] == digits
    requires |digits| >= 1 && AllDigits(digits)
    ensures ParseFloat(s) == Some(-(DigitsValue(digits) as real))
  {
    assert TrimStart(s) == s;
    assert WithoutSign(s) == digits;
    UnsignedFloatDigits(digits);
    ParseFloatNegative(s, DigitsValue(digits) as real);
  }

  /** Printing an integer and parsing the text back gives the integer:
      the points copied into the grade form read back unchanged. */
  lemma ParseFloatIntToString(n: int)
    ensures ParseFloat(IntToString(n)) == Some(n as real)
  {
    var s := IntToString(n);
    if n < 0 {
      var digits := NatToString(-n);
      assert s[1..] == digits;
      ParseFloatNegativeDigits(s, digits);
    } else {
      ParseFloatDigits(NatToString(n));
    }
  }

  /** Printing an integer and reading it back with `parseInt` gives the
      integer. */
  lemma ParseIntIntToString(n: int)
    ensures ParseInt(IntToString(n)) == Some(n)
  {
    var s := IntToString(n);
    var digits := NatToString(if n < 0 then -n else n);
    DigitsEndAllDigits(digits, 0);
    assert digits[..|digits|] == digits;
    if n < 0 {
      assert s[1..] == digits;
      assert TrimStart(s) == s;
      assert WithoutSign(s) == digits;
    } else {
      assert s == digits;
      assert TrimStart(s) == s;
      assert WithoutSign(s) == digits;
    }
  }

  /** An empty form field parses as `NaN`. */
  lemma ParseFloatEmpty()
    ensures ParseFloat("") == None
  {
  }
}

/**
 * The parts of Python's number handling the analysis routes rely on:
 * `float()` applied to a decoded JSON value, `min`/`max` clamping and
 * `round(x, 1)`. Numbers are exact reals.
 */
module PyFloat {
  import opened Text
  import opened Results
  import opened JsonValue

  predicate IsDigit(c: char) { '0' <= c <= '9' }

  predicate AllDigits(s: string) { forall i :: 0 <= i < |s| ==> IsDigit(s[i]) }

  function DigitValue(c: char): nat
    requires IsDigit(c)
  {
    c as int - '0' as int
  }

  /** The number a string of decimal digits spells, most significant digit first. */
  function DigitsValue(s: string): nat
    requires AllDigits(s)
  {
    if s == [] then 0 else DigitsValue(s[..|s| - 1]) * 10 + DigitValue(s[|s| - 1])
  }

  function Pow10(n: nat): (r: nat)
    ensures r >= 1
  {
    if n == 0 then 1 else 10 * Pow10(n - 1)
  }

  /** `str(n)` for a natural number: its decimal digits without leading zeros. */
  function NatToString(n: nat): (r: string)
    ensures r != [] && AllDigits(r)
    ensures n > 0 ==> r[0] != '0'
  {
    var d := ['0' + (n % 10) as char];
    if n < 10 then d else NatToString(n / 10) + d
  }

  /** Reading back the digits of `str(n)` gives `n`. */
  lemma {:induction false} DigitsOfNatToString(n: nat)
    ensures DigitsValue(NatToString(n)) == n
  {
    var s := NatToString(n);
    if n >= 10 {
      DigitsOfNatToString(n / 10);
      assert s[..|s| - 1] == NatToString(n / 10);
    }
  }

  /**
   * The characters `float()` strips around a numeral: ASCII whitespace (`\t` to
   * `\r` and the space) and the non-ASCII characters for which `str.isspace`
   * holds. The separators `\x1c` to `\x1f`, spaces to `str.isspace`, are kept,
   * so a numeral surrounded by them is refused.
   */
  predicate IsFloatSpace(c: char)
  {
    IsSpace(c) && !('\U{1C}' <= c <= '\U{1F}')
  }

  /** The text without its leading whitespace. */
  function StripLeft(s: string): (r: string)
    ensures IsSuffix(r, s)
    ensures forall i :: 0 <= i < |s| - |r| ==> IsFloatSpace(s[i])
    ensures r == [] || !IsFloatSpace(r[0])
  {
    if s != [] && IsFloatSpace(s[0]) then StripLeft(s[1..]) else s
  }

  /** The text without its trailing whitespace. */
  function StripRight(s: string): (r: string)
    ensures IsPrefix(r, s)
    ensures forall i :: |r| <= i < |s| ==> IsFloatSpace(s[i])
    ensures r == [] || !IsFloatSpace(r[|r| - 1])
  {
    if s != [] && IsFloatSpace(s[|s| - 1]) then StripRight(s[..|s| - 1]) else s
  }

  /** `s.strip()`: the text without surrounding whitespace, as `float()` reads it. */
  function Strip(s: string): string
  {
    StripLeft(StripRight(s))
  }

  /** A text that neither starts nor ends with whitespace is its own stripped form. */
  lemma StripUnspaced(s: string)
    requires s != [] && !IsFloatSpace(s[0]) && !IsFloatSpace(s[|s| - 1])
    ensures Strip(s) == s
  {
  }

  /** The value of the digits after a decimal point. */
  function FractionValue(frac: string): real
    requires AllDigits(frac)
  {
    DigitsValue(frac) as real / Pow10(|frac|) as real
  }

  /** A decimal numeral without sign: digits with an optional fraction after a `.`, at least one digit. */
  function ParseUnsigned(t: string): (r: Option<real>)
    ensures r.Some? ==> forall i :: 0 <= i < |t| ==> IsDigit(t[i]) || t[i] == '.'
    ensures r.Some? ==> exists i :: 0 <= i < |t| && IsDigit(t[i])
    ensures r.Some? ==> r.value >= 0.0
  {
    if '.' in t then
      var (whole, frac) := SplitOnce(t, '.');
      if AllDigits(whole) && AllDigits(frac) && (whole != [] || frac != []) then
        Some(DigitsValue(whole) as real + FractionValue(frac))
      else None
    else if t != [] && AllDigits(t) then Some(DigitsValue(t) as real)
    else None
  }

  /** `float(s)` for a `str`: surrounding whitespace, an optional sign and a decimal numeral. */
  function ParseDecimal(s: string): (r: Option<real>)
    ensures r.Some? ==> var t := Strip(s);
      && t != []
      && (forall i :: 1 <= i < |t| ==> IsDigit(t[i]) || t[i] == '.')
      && (IsDigit(t[0]) || t[0] == '.' || t[0] == '+' || t[0] == '-')
    ensures r.Some? ==> (Strip(s)[0] == '-' ==> r.value <= 0.0) && (Strip(s)[0] != '-' ==> r.value >= 0.0)
  {
    var t := Strip(s);
    if t != [] && (t[0] == '+' || t[0] == '-') then
      match ParseUnsigned(t[1..])
      case Some(v) => Some(if t[0] == '-' then -v else v)
      case None => None
    else ParseUnsigned(t)
  }

  /** A non-empty string of digits reads as the number it spells. */
  lemma ParseDigits(s: string)
    requires s != [] && AllDigits(s)
    ensures ParseUnsigned(s) == Some(DigitsValue(s) as real)
  {
    assert forall i :: 0 <= i < |s| ==> s[i] != '.';
  }

  /** `float(str(n))` gives back `n`. */
  lemma ParseNatString(n: nat)
    ensures ParseDecimal(NatToString(n)) == Some(n as real)
  {
    var s := NatToString(n);
    assert Strip(s) == s by {
      assert IsDigit(s[0]) && IsDigit(s[|s| - 1]);
      StripUnspaced(s);
    }
    assert ParseUnsigned(s) == Some(n as real) by {
      DigitsOfNatToString(n);
      ParseDigits(s);
    }
    assert IsDigit(s[0]);
  }

  /** `float("-" + str(n))` gives back `-n`. */
  lemma ParseNegativeNatString(n: nat)
    ensures ParseDecimal("-" + NatToString(n)) == Some(-(n as real))
  {
    var s := NatToString(n);
    var m := "-" + s;
    assert Strip(m) == m by {
      assert m[|m| - 1] == s[|s| - 1] && IsDigit(s[|s| - 1]);
      StripUnspaced(m);
    }
    assert ParseUnsigned(m[1..]) == Some(n as real) by {
      assert m[1..] == s;
      DigitsOfNatToString(n);
      ParseDigits(s);
    }
  }

  /** Digits, a `.` and more digits read as the whole part plus the fraction. */
  lemma ParseFraction(whole: string, frac: string)
    requires AllDigits(whole) && AllDigits(frac) && (whole != [] || frac != [])
    ensures ParseUnsigned(whole + ['.'] + frac) == Some(DigitsValue(whole) as real + FractionValue(frac))
  {
    var head := whole + ['.'];
    var m := head + frac;
    assert m[|head|..] == frac;
    assert m[..|whole|] == whole;
    assert m[|whole|] == '.';
    assert forall j :: 0 <= j < |whole| ==> IsDigit(m[j]);
    assert FindChar(m, '.') == |whole|;
    assert SplitOnce(m, '.') == (whole, frac);
  }

  lemma FractionOfDigit(d: char)
    requires IsDigit(d)
    ensures FractionValue([d]) == DigitValue(d) as real / 10.0
  {
    assert [d][..0] == [];
    assert DigitsValue([d]) == DigitValue(d);
    assert Pow10(|[d]|) == 10;
  }

  /** `float("7.5")` and the like: a numeral with one decimal digit. */
  lemma ParseOneDecimal(w: nat, d: char)
    requires IsDigit(d)
    ensures ParseDecimal(NatToString(w) + ['.', d]) == Some(w as real + DigitValue(d) as real / 10.0)
  {
    var s := NatToString(w);
    var m := s + ['.', d];
    assert Strip(m) == m by {
      assert m[0] == s[0] && m[|m| - 1] == d;
      StripUnspaced(m);
    }
    UnsignedOneDecimal(w, d);
    assert m[0] == s[0] && IsDigit(s[0]);
  }

  lemma UnsignedOneDecimal(w: nat, d: char)
    requires IsDigit(d)
    ensures ParseUnsigned(NatToString(w) + ['.', d]) == Some(w as real + DigitValue(d) as real / 10.0)
  {
    var s := NatToString(w);
    assert s + ['.', d] == s + ['.'] + [d];
    DigitsOfNatToString(w);
    FractionOfDigit(d);
    ParseFraction(s, [d]);
  }

  /** Spaces around a numeral are stripped, but an information separator is not. */
  lemma FloatStripExamples()
    ensures ParseDecimal(" 5\n") == Some(5.0)
    ensures ParseDecimal("\U{1F}5") == None
  {
    ParseDigits("5");
    assert StripRight(" 5\n") == " 5";
    assert Strip(" 5\n") == "5";
    assert Strip("\U{1F}5") == "\U{1F}5";
  }

  /** `float(v)` for a value `json.loads` produced; `None` where Python raises. */
  function ToFloat(v: Json): (r: Option<real>)
    ensures v.JNum? ==> r == Some(v.n)
    ensures v.JNull? || v.JArr? || v.JObj? ==> r.None?
  {
    match v
    case JNum(n) => Some(n)
    case JBool(b) => Some(if b then 1.0 else 0.0)
    case JStr(s) => ParseDecimal(s)
    case _ => None
  }

  /** `min(max(x, 0), 10)`. */
  function Clamp(x: real): (r: real)
    ensures 0.0 <= r <= 10.0
    ensures 0.0 <= x <= 10.0 ==> r == x
    ensures x < 0.0 ==> r == 0.0
    ensures x > 10.0 ==> r == 10.0
  {
    var low := if x >= 0.0 then x else 0.0;
    if low <= 10.0 then low else 10.0
  }

  /** `x` is a whole number of tenths. */
  predicate IsTenths(x: real)
  {
    (x * 10.0).Floor as real == x * 10.0
  }

  /**
   * `round(x, 1)`: the nearest whole number of tenths, and on a tie the one
   * with an even count of tenths.
   */
  function Round1(x: real): (r: real)
    ensures IsTenths(r)
    ensures -0.05 <= r - x <= 0.05
    ensures r - x == 0.05 || x - r == 0.05 ==> (r * 10.0).Floor % 2 == 0
    ensures 0.0 <= x <= 10.0 ==> 0.0 <= r <= 10.0
  {
    var y := x * 10.0;
    var n := y.Floor;
    var f := y - n as real;
    var k := if f < 0.5 then n else if f > 0.5 then n + 1 else if n % 2 == 0 then n else n + 1;
    assert (k as real / 10.0) * 10.0 == k as real;
    k as real / 10.0
  }

  /** A number already in tenths is kept by `round(x, 1)`. */
  lemma Round1KeepsTenths(x: real)
    requires IsTenths(x)
    ensures Round1(x) == x
  {
    var k := (x * 10.0).Floor;
    assert x == k as real / 10.0;
  }

  lemma Round1Examples()
    ensures Round1(7.25) == 7.2
    ensures Round1(7.75) == 7.8
    ensures Round1(7.26) == 7.3
    ensures Round1(Clamp(12.5)) == 10.0
    ensures Round1(Clamp(-3.0)) == 0.0
    ensures Round1(Clamp(11.0)) == 10.0
    ensures Round1(Clamp(7.36)) == 7.4
  {
    assert (72.5).Floor == 72;
    assert (77.5).Floor == 77;
    assert (72.6).Floor == 72;
    assert (73.6).Floor == 73;
    Round1KeepsTenths(10.0);
    Round1KeepsTenths(0.0);
  }
}

/** Integer and decimal numerals: the formatting the selector does with
    `f"{n:016x}"` and `f"{n:04d}"`, and the parsing done by `int(s, 16)` and
    `float(s)`. */
module Numerals {
  import opened Wrappers
  import opened PyText

  predicate IsDecDigit(c: char) { '0' <= c <= '9' }

  predicate IsHexDigit(c: char) { '0' <= c <= '9' || 'a' <= c <= 'f' || 'A' <= c <= 'F' }

  function DigitValue(c: char): (d: nat)
    requires IsHexDigit(c)
    ensures d < 16
    ensures IsDecDigit(c) ==> d < 10
  {
    if '0' <= c <= '9' then c as int - '0' as int
    else if 'a' <= c <= 'f' then c as int - 'a' as int + 10
    else c as int - 'A' as int + 10
  }

  /** The lower-case digit character for `d`, as `format` writes it. */
  function DigitChar(d: nat): (c: char)
    requires d < 16
    ensures IsHexDigit(c) && DigitValue(c) == d
    ensures d < 10 ==> IsDecDigit(c)
    ensures IsLowerDigit(c)
  {
    if d < 10 then ('0' as int + d) as char else ('a' as int + d - 10) as char
  }

  /** Every character of `s` is a digit of the given base. */
  predicate AllDigits(s: string, base: nat) {
    forall i :: 0 <= i < |s| ==> IsHexDigit(s[i]) && DigitValue(s[i]) < base
  }

  /** The number a string of digits denotes, most significant digit first. */
  function DigitsValue(s: string, base: nat): nat
    requires AllDigits(s, base)
  {
    if s == [] then 0 else DigitsValue(s[..|s| - 1], base) * base + DigitValue(s[|s| - 1])
  }

  lemma DivSmaller(n: nat, base: nat)
    requires 2 <= base && n >= base
    ensures 0 < n / base < n && n % base < base
    ensures n == (n / base) * base + n % base
  {
  }

  /** A digit as `format` writes it: a decimal digit or a lower-case letter a-f. */
  predicate IsLowerDigit(c: char) { '0' <= c <= '9' || 'a' <= c <= 'f' }

  /** The shortest numeral for `n` in `base` (no sign, no leading zeros except "0"). */
  function ToText(n: nat, base: nat): (s: string)
    requires 2 <= base <= 16
    ensures s != [] && AllDigits(s, base)
    ensures forall i :: 0 <= i < |s| ==> IsLowerDigit(s[i])
    decreases n
  {
    if n < base then [DigitChar(n)]
    else
      DivSmaller(n, base);
      ToText(n / base, base) + [DigitChar(n % base)]
  }

  /** Parsing a numeral back gives the number it was written from. */
  lemma {:induction false} ToTextRoundTrip(n: nat, base: nat)
    requires 2 <= base <= 16
    ensures DigitsValue(ToText(n, base), base) == n
    decreases n
  {
    var s := ToText(n, base);
    if n >= base {
      DivSmaller(n, base);
      assert s[..|s| - 1] == ToText(n / base, base);
      assert DigitValue(s[|s| - 1]) == n % base;
      ToTextRoundTrip(n / base, base);
      assert DigitsValue(s, base) == (n / base) * base + n % base;
    } else {
      assert s[..0] == [];
      assert DigitsValue(s, base) == 0 * base + n;
    }
  }

  function Zeros(k: nat): (z: string)
    ensures |z| == k && forall i :: 0 <= i < k ==> z[i] == '0'
  {
    if k == 0 then [] else Zeros(k - 1) + ['0']
  }

  /** Left-pads `s` with '0' to at least `width` characters, as the `0`
      flag of a format specification does. */
  function ZeroPad(s: string, width: nat): (r: string)
    ensures |r| >= width && |r| >= |s|
  {
    if |s| >= width then s else Zeros(width - |s|) + s
  }

  /** Leading zeros do not change the value of a numeral. */
  lemma {:induction false} LeadingZerosIgnored(k: nat, s: string, base: nat)
    requires 2 <= base <= 16 && AllDigits(s, base)
    ensures AllDigits(Zeros(k) + s, base)
    ensures DigitsValue(Zeros(k) + s, base) == DigitsValue(s, base)
    decreases |s|
  {
    var t := Zeros(k) + s;
    assert AllDigits(t, base) by {
      forall i | 0 <= i < |t| ensures IsHexDigit(t[i]) && DigitValue(t[i]) < base {
        if i >= k { assert t[i] == s[i - k]; }
      }
    }
    if s == [] {
      assert t == Zeros(k);
      ZerosValue(k, base);
    } else {
      assert t[..|t| - 1] == Zeros(k) + s[..|s| - 1];
      LeadingZerosIgnored(k, s[..|s| - 1], base);
    }
  }

  lemma ZerosAllDigits(k: nat, base: nat)
    requires 2 <= base
    ensures AllDigits(Zeros(k), base)
  {
    assert DigitValue('0') == 0;
  }

  lemma {:induction false} ZerosValue(k: nat, base: nat)
    requires 2 <= base <= 16
    ensures AllDigits(Zeros(k), base) && DigitsValue(Zeros(k), base) == 0
  {
    ZerosAllDigits(k, base);
    if k > 0 {
      var z := Zeros(k);
      var init := z[..k - 1];
      assert init == Zeros(k - 1);
      ZerosValue(k - 1, base);
      var v := DigitsValue(init, base);
      assert v == 0;
      assert DigitValue(z[k - 1]) == 0;
      assert DigitsValue(z, base) == v * base + DigitValue(z[k - 1]);
    }
  }

  /** Padding a numeral with zeros keeps its digits lower-case and its value. */
  lemma ZeroPadFacts(t: string, width: nat, base: nat)
    requires 2 <= base <= 16 && AllDigits(t, base)
    requires forall i :: 0 <= i < |t| ==> IsLowerDigit(t[i])
    ensures AllDigits(ZeroPad(t, width), base)
    ensures forall i :: 0 <= i < |ZeroPad(t, width)| ==> IsLowerDigit(ZeroPad(t, width)[i])
    ensures DigitsValue(ZeroPad(t, width), base) == DigitsValue(t, base)
  {
    if |t| < width {
      var k := width - |t|;
      LeadingZerosIgnored(k, t, base);
      var r := Zeros(k) + t;
      forall i | 0 <= i < |r| ensures IsLowerDigit(r[i]) {
        if i >= k { assert r[i] == t[i - k]; }
      }
    }
  }

  /** `format(n, "0<width><x|d>")` for a non-negative `n`: the numeral of `n`
      in `base`, zero-padded on the left to `width` characters. */
  function FormatPadded(n: nat, base: nat, width: nat): (s: string)
    requires 2 <= base <= 16
    ensures |s| >= width && AllDigits(s, base)
    ensures forall i :: 0 <= i < |s| ==> IsLowerDigit(s[i])
    ensures DigitsValue(s, base) == n
  {
    var t := ToText(n, base);
    ToTextRoundTrip(n, base);
    ZeroPadFacts(t, width, base);
    ZeroPad(t, width)
  }

  /** `f"{n:016x}"`: lower-case hexadecimal, zero-padded to 16 digits. */
  function FormatHex16(n: nat): (s: string)
    ensures |s| >= 16 && forall i :: 0 <= i < |s| ==> IsLowerDigit(s[i])
    ensures AllDigits(s, 16) && DigitsValue(s, 16) == n
  {
    FormatPadded(n, 16, 16)
  }

  /** `f"{n:04d}"` for a non-negative `n`. */
  function FormatDec04(n: nat): (s: string)
    ensures |s| >= 4 && AllDigits(s, 10)
    ensures DigitsValue(s, 10) == n
  {
    FormatPadded(n, 10, 4)
  }

  /** Different numbers are written differently. */
  lemma FormatDec04Injective(a: nat, b: nat)
    requires FormatDec04(a) == FormatDec04(b)
    ensures a == b
  {
  }

  // ---------------------------------------------------------------------------
  // int(s, 16)

  /** Hex digits with single underscores between them, as PEP 515 allows. */
  predicate IsGroupedHex(w: string) {
    && w != []
    && IsHexDigit(w[0]) && IsHexDigit(w[|w| - 1])
    && (forall i :: 0 <= i < |w| ==> IsHexDigit(w[i]) || w[i] == '_')
    && (forall i :: 0 <= i < |w| - 1 ==> !(w[i] == '_' && w[i + 1] == '_'))
  }

  function RemoveUnderscores(w: string): (r: string)
    ensures (forall i :: 0 <= i < |w| ==> IsHexDigit(w[i]) || w[i] == '_') ==> AllDigits(r, 16)
    ensures (forall i :: 0 <= i < |w| ==> w[i] != '_') ==> r == w
  {
    if w == [] then []
    else (if w[0] == '_' then [] else [w[0]]) + RemoveUnderscores(w[1..])
  }

  /** `int(text, 16)`: `None` where Python raises ValueError. Surrounding
      whitespace, a sign, a `0x`/`0X` prefix (optionally followed by one
      underscore) and underscores between digits are accepted. */
  function ParseHexInt(text: string): (r: Option<int>)
  {
    var t := Strip(text);
    var negative := t != [] && t[0] == '-';
    var u := if t != [] && (t[0] == '+' || t[0] == '-') then t[1..] else t;
    var prefixed := |u| >= 2 && u[0] == '0' && (u[1] == 'x' || u[1] == 'X');
    var v := if prefixed then u[2..] else u;
    var w := if prefixed && v != [] && v[0] == '_' then v[1..] else v;
    if IsGroupedHex(w) then
      var magnitude := DigitsValue(RemoveUnderscores(w), 16);
      Some(if negative then -(magnitude as int) else magnitude as int)
    else None
  }

  /** Neither the whitespace stripped by `str.strip`, nor a sign, an `x`
      or an underscore, is a digit as `format` writes it. */
  lemma LowerDigitIsPlain(c: char)
    requires IsLowerDigit(c)
    ensures !IsSpace(c) && c != '+' && c != '-' && c != 'x' && c != 'X' && c != '_'
    ensures IsHexDigit(c)
  {
  }

  /** A plain numeral of lower-case digits is a well-formed group of hex
      digits with no underscore to remove. */
  lemma PlainHexGrouped(s: string)
    requires s != [] && forall i :: 0 <= i < |s| ==> IsLowerDigit(s[i])
    ensures IsGroupedHex(s) && RemoveUnderscores(s) == s && AllDigits(s, 16)
  {
    forall i | 0 <= i < |s| ensures s[i] != '_' && IsHexDigit(s[i]) {
      LowerDigitIsPlain(s[i]);
    }
  }

  /** A text with nothing to strip, no sign and no `0x` prefix is read as
      its grouped digits. */
  lemma ParseHexUnprefixed(text: string)
    requires Strip(text) == text && text != [] && text[0] != '+' && text[0] != '-'
    requires !(|text| >= 2 && text[0] == '0' && (text[1] == 'x' || text[1] == 'X'))
    requires IsGroupedHex(text)
    ensures ParseHexInt(text) == Some(DigitsValue(RemoveUnderscores(text), 16) as int)
  {
  }

  /** A plain numeral of lower-case digits (no sign, prefix, space or
      underscore) is read by `int(s, 16)` as its hexadecimal value. */
  lemma ParsePlainHex(s: string)
    requires s != [] && forall i :: 0 <= i < |s| ==> IsLowerDigit(s[i])
    ensures AllDigits(s, 16)
    ensures ParseHexInt(s) == Some(DigitsValue(s, 16) as int)
  {
    LowerDigitIsPlain(s[0]);
    LowerDigitIsPlain(s[|s| - 1]);
    StripByNoop(s, IsSpace);
    if |s| >= 2 {
      LowerDigitIsPlain(s[1]);
    }
    PlainHexGrouped(s);
    ParseHexUnprefixed(s);
  }

  /** The fingerprint text the selector stores, `f"{h:016x}"`, parses back to `h`. */
  lemma FormatHex16RoundTrip(n: nat)
    ensures ParseHexInt(FormatHex16(n)) == Some(n)
  {
    ParsePlainHex(FormatHex16(n));
  }

  // ---------------------------------------------------------------------------
  // float(s)

  function Pow10(k: nat): (p: nat)
    ensures p >= 1
  {
    if k == 0 then 1 else 10 * Pow10(k - 1)
  }

  predicate IsDecNumeral(s: string) {
    s != [] && forall i :: 0 <= i < |s| ==> IsDecDigit(s[i])
  }

  /** The exponent part after `e`/`E`: an optional sign and decimal digits. */
  function ParseExponent(s: string): Option<int>
  {
    var negative := s != [] && s[0] == '-';
    var digits := if s != [] && (s[0] == '+' || s[0] == '-') then s[1..] else s;
    if IsDecNumeral(digits) then
      assert AllDigits(digits, 10);
      var e := DigitsValue(digits, 10);
      Some(if negative then -(e as int) else e as int)
    else None
  }

  /** The unsigned mantissa `digits [. digits]` or `. digits`, at least one digit. */
  function ParseMantissa(s: string): Option<real>
  {
    var dot := Find(s, '.');
    var whole := if dot >= 0 then s[..dot] else s;
    var fraction := if dot >= 0 then s[dot + 1..] else [];
    if (whole == [] || IsDecNumeral(whole)) && (fraction == [] || IsDecNumeral(fraction))
       && |whole| + |fraction| > 0
    then
      assert AllDigits(whole + fraction, 10);
      Some(DigitsValue(whole + fraction, 10) as real / Pow10(|fraction|) as real)
    else None
  }

  /** `m * 10**x` for an integer exponent of either sign. */
  function Scale(m: real, x: int): real
  {
    if x >= 0 then m * Pow10(x) as real else m / Pow10(-x) as real
  }

  /** An unsigned literal: a mantissa, optionally followed by `e`/`E` and
      an exponent. */
  function ParseUnsigned(u: string): Option<real>
  {
    var e := Find(Lower(u), 'e');
    if e < 0 then ParseMantissa(u)
    else match (ParseMantissa(u[..e]), ParseExponent(u[e + 1..]))
      case (Some(m), Some(x)) => Some(Scale(m, x))
      case _ => None
  }

  /** `float(text)` for finite decimal literals: `None` where Python raises
      ValueError. Surrounding whitespace and one sign are accepted. */
  function ParseFloat(text: string): (r: Option<real>)
  {
    var t := Strip(text);
    if t != [] && t[0] == '-' then
      match ParseUnsigned(t[1..])
      case Some(v) => Some(-v)
      case None => None
    else if t != [] && t[0] == '+' then ParseUnsigned(t[1..])
    else ParseUnsigned(t)
  }

  /** A mantissa with no decimal point is read as the integer it spells. */
  lemma ParseWholeMantissa(s: string)
    requires IsDecNumeral(s)
    ensures AllDigits(s, 10)
    ensures ParseMantissa(s) == Some(DigitsValue(s, 10) as real)
  {
    assert forall i :: 0 <= i < |s| ==> s[i] != '.';
    assert Find(s, '.') == -1;
    assert s + [] == s;
    assert Pow10(0) == 1;
    var v := DigitsValue(s, 10) as real;
    assert v / 1 as real == v;
  }

  /** A character of an unsigned decimal literal without exponent. */
  predicate IsNumeralChar(c: char) { IsDecDigit(c) || c == '.' }

  /** Digits and points are not whitespace, not signs and not letters. */
  lemma NumeralTextUnchanged(s: string)
    requires s != [] && forall i :: 0 <= i < |s| ==> IsNumeralChar(s[i])
    ensures Strip(s) == s && Lower(s) == s
    ensures s[0] != '+' && s[0] != '-'
    ensures Find(Lower(s), 'e') == -1
  {
    assert IsNumeralChar(s[0]) && IsNumeralChar(s[|s| - 1]);
    StripByNoop(s, IsSpace);
    var l := Lower(s);
    forall i | 0 <= i < |s| ensures l[i] == s[i] {
      assert IsNumeralChar(s[i]);
    }
    assert l == s;
    assert forall i :: 0 <= i < |s| ==> s[i] != 'e';
  }

  /** Text made of digits and points only, as a judge writes an unsigned
      score, is read by `float` through its mantissa alone. */
  lemma ParseFloatUnsigned(s: string)
    requires s != [] && forall i :: 0 <= i < |s| ==> IsNumeralChar(s[i])
    ensures ParseFloat(s) == ParseMantissa(s)
  {
    NumeralTextUnchanged(s);
    assert ParseFloat(s) == ParseUnsigned(s);
  }

  /** `whole.frac` is read as the digits of both, divided by ten to the
      number of fraction digits. */
  lemma ParseMantissaPoint(whole: string, frac: string)
    requires IsDecNumeral(whole) && IsDecNumeral(frac)
    ensures AllDigits(whole + frac, 10)
    ensures ParseMantissa(whole + "." + frac)
         == Some(DigitsValue(whole + frac, 10) as real / Pow10(|frac|) as real)
  {
    var s := whole + "." + frac;
    assert s[|whole|] == '.';
    assert forall i :: 0 <= i < |whole| ==> s[i] == whole[i] && s[i] != '.';
    assert Find(s, '.') == |whole|;
    assert s[..|whole|] == whole && s[|whole| + 1..] == frac;
  }

  lemma TwelveDigits()
    ensures AllDigits("12", 10) && DigitsValue("12", 10) == 12
  {
    assert "12"[..1] == "1" && "1"[..0] == "";
  }

  /** The judge's score text "1.2" is the number 1.2. */
  lemma ParseFloatOnePointTwo()
    ensures ParseFloat("1.2") == Some(1.2)
  {
    var whole, frac := "1", "2";
    var s := whole + "." + frac;
    assert s == "1.2";
    assert whole + frac == "12";
    ParseMantissaPoint(whole, frac);
    TwelveDigits();
    assert Pow10(1) == 10;
    assert ParseMantissa(s) == Some(1.2);
    ParseFloatUnsigned(s);
  }

  /** A plain decimal numeral such as "7" or "0042" is read by `float` as the
      integer it spells. */
  lemma ParsePlainDecimal(s: string)
    requires IsDecNumeral(s)
    ensures AllDigits(s, 10)
    ensures ParseFloat(s) == Some(DigitsValue(s, 10) as real)
  {
    ParseFloatUnsigned(s);
    ParseWholeMantissa(s);
  }
}

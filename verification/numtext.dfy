/** Integer <-> text conversions with JavaScript semantics: `String(n)` /
    template-literal rendering of an integer, and `parseInt(s)` with no radix
    argument. */
module NumText {

  import opened Wrappers

  predicate IsDecimalDigit(c: char) {
    '0' <= c <= '9'
  }

  /** The character of a decimal digit. */
  function DigitChar(d: nat): (c: char)
    requires d < 10
    ensures IsDecimalDigit(c)
    ensures DigitValue(c) == Some(d)
  {
    "0123456789"[d]
  }

  /** Decimal rendering of a natural number, without leading zeros. */
  function NatString(n: nat): (s: string)
    ensures |s| >= 1
    ensures forall i :: 0 <= i < |s| ==> IsDecimalDigit(s[i])
    ensures |s| > 1 ==> s[0] != '0'
    decreases n
  {
    if n < 10 then [DigitChar(n)] else NatString(n / 10) + [DigitChar(n % 10)]
  }

  /** `String(n)` for an integer `n`: an optional minus sign, then the digits. */
  function DecimalString(n: int): (s: string)
    ensures |s| >= 1
    ensures s[0] == '-' <==> n < 0
    ensures n >= 0 ==> s == NatString(n)
  {
    if n < 0 then "-" + NatString(-n) else NatString(n)
  }

  /** The value of a digit in radix 36 ('0'..'9', then 'a'..'z' either case). */
  function DigitValue(c: char): (r: Option<nat>)
    ensures r.Some? ==> r.value < 36
    ensures IsDecimalDigit(c) <==> r.Some? && r.value < 10
  {
    if '0' <= c <= '9' then Some(c as int - '0' as int)
    else if 'a' <= c <= 'z' then Some(c as int - 'a' as int + 10)
    else if 'A' <= c <= 'Z' then Some(c as int - 'A' as int + 10)
    else None
  }

  predicate IsRadixDigit(c: char, radix: nat) {
    DigitValue(c).Some? && DigitValue(c).value < radix
  }

  /** The characters that `parseInt` skips before the number: the ECMAScript
      WhiteSpace (tab, vertical tab, form feed, space, no-break space, byte
      order mark and every space separator) and LineTerminator characters. */
  predicate IsJsWhiteSpace(c: char) {
    || c == '\t' || c == '\U{000B}' || c == '\U{000C}' || c == ' '
    || c == '\U{00A0}' || c == '\U{FEFF}' || c == '\U{1680}'
    || ('\U{2000}' <= c <= '\U{200A}') || c == '\U{202F}' || c == '\U{205F}'
    || c == '\U{3000}'
    || c == '\n' || c == '\r' || c == '\U{2028}' || c == '\U{2029}'
  }

  /** `s` without its leading white space. */
  function TrimStart(s: string): (r: string)
    ensures |r| <= |s| && r == s[|s| - |r|..]
    ensures |r| > 0 ==> !IsJsWhiteSpace(r[0])
    ensures forall i :: 0 <= i < |s| - |r| ==> IsJsWhiteSpace(s[i])
  {
    if |s| > 0 && IsJsWhiteSpace(s[0]) then TrimStart(s[1..]) else s
  }

  /** The longest prefix of `s` made of digits of `radix`. */
  function DigitRun(s: string, radix: nat): (r: string)
    ensures |r| <= |s| && r == s[..|r|]
    ensures forall i :: 0 <= i < |r| ==> IsRadixDigit(r[i], radix)
    ensures |r| < |s| ==> !IsRadixDigit(s[|r|], radix)
  {
    if |s| > 0 && IsRadixDigit(s[0], radix) then [s[0]] + DigitRun(s[1..], radix) else []
  }

  lemma NatProduct(a: nat, b: nat)
    ensures a * b >= 0
  {
  }

  /** The value of a string of digits in `radix`, most significant first. */
  function DigitsValue(ds: string, radix: nat): (v: nat)
    requires forall i :: 0 <= i < |ds| ==> IsRadixDigit(ds[i], radix)
  {
    if |ds| == 0 then 0
    else
      var last := ds[|ds| - 1];
      assert IsRadixDigit(last, radix);
      var high := DigitsValue(ds[..|ds| - 1], radix);
      NatProduct(high, radix);
      high * radix + DigitValue(last).value
  }

  /** The value of the longest run of `radix` digits at the start of `s`;
      None when `s` does not start with such a digit. */
  function ReadDigits(s: string, radix: nat): (r: Option<nat>)
    ensures r.None? <==> |s| == 0 || !IsRadixDigit(s[0], radix)
  {
    var ds := DigitRun(s, radix);
    if |ds| == 0 then None else Some(DigitsValue(ds, radix))
  }

  /** An unsigned number: radix 16 after a `0x`/`0X` prefix, radix 10 otherwise. */
  function ParseUnsigned(u: string): Option<nat> {
    if |u| >= 2 && u[0] == '0' && (u[1] == 'x' || u[1] == 'X') then ReadDigits(u[2..], 16)
    else ReadDigits(u, 10)
  }

  /** An optional `-` or `+`, then an unsigned number. */
  function ParseSigned(t: string): Option<int> {
    if |t| > 0 && t[0] == '-' then
      match ParseUnsigned(t[1..])
      case None => None
      case Some(v) => Some(-(v as int))
    else if |t| > 0 && t[0] == '+' then
      match ParseUnsigned(t[1..])
      case None => None
      case Some(v) => Some(v)
    else
      match ParseUnsigned(t)
      case None => None
      case Some(v) => Some(v)
  }

  /** JavaScript's `parseInt(s)`: skip white space, read an optional sign, read
      radix 16 after a `0x`/`0X` prefix and radix 10 otherwise, and take the
      longest run of digits; no digit at all is `NaN`, modelled as None. */
  function ParseInt(s: string): Option<int> {
    ParseSigned(TrimStart(s))
  }

  /** Reading back the decimal digits of `n` gives `n`. */
  lemma {:induction false} NatStringValue(n: nat)
    ensures DigitsValue(NatString(n), 10) == n
    decreases n
  {
    var s := NatString(n);
    if n >= 10 {
      NatStringValue(n / 10);
      assert s[..|s| - 1] == NatString(n / 10);
    }
  }

  /** A run of decimal digits is read whole. */
  lemma DigitRunAllDigits(s: string)
    requires forall i :: 0 <= i < |s| ==> IsDecimalDigit(s[i])
    ensures DigitRun(s, 10) == s
  {
  }

  /** The digits of `n`, read as an unsigned number, give `n`. */
  lemma ParseUnsignedNatString(n: nat)
    ensures ParseUnsigned(NatString(n)) == Some(n)
  {
    var s := NatString(n);
    NatStringValue(n);
    DigitRunAllDigits(s);
    if |s| >= 2 {
      assert IsDecimalDigit(s[1]);
    }
  }

  /** `parseInt(String(n)) == n` for every integer `n`. */
  lemma ParseIntDecimalRoundTrip(n: int)
    ensures ParseInt(DecimalString(n)) == Some(n)
  {
    var s := DecimalString(n);
    if n < 0 {
      ParseUnsignedNatString(-n);
      assert s[1..] == NatString(-n);
      assert !IsJsWhiteSpace(s[0]);
    } else {
      ParseUnsignedNatString(n);
      assert IsDecimalDigit(s[0]);
      assert !IsJsWhiteSpace(s[0]);
    }
    assert TrimStart(s) == s;
  }

  /** `parseInt` stops at the first non-digit. */
  lemma ParseIntStopsAtNonDigit()
    ensures ParseInt("12abc") == Some(12)
  {
    var s := "12abc";
    assert !IsJsWhiteSpace(s[0]);
    assert TrimStart(s) == s;
    assert DigitRun(s, 10) == "12" by {
      assert DigitRun(s[2..], 10) == [];
      assert DigitRun(s[1..], 10) == "2";
    }
    assert DigitsValue("12", 10) == DigitsValue("1", 10) * 10 + 2;
  }

  /** The listing's default page and limit read back as 1 and 20. */
  lemma ParseIntPagingDefaults()
    ensures ParseInt("1") == Some(1)
    ensures ParseInt("20") == Some(20)
  {
    ParseIntOne();
    ParseIntTwenty();
  }

  /** `parseInt("1")` is 1. */
  lemma ParseIntOne()
    ensures ParseInt("1") == Some(1)
  {
    assert TrimStart("1") == "1" by {
      assert !IsJsWhiteSpace("1"[0]);
    }
    assert DigitRun("1", 10) == "1" by {
      assert DigitRun("1"[1..], 10) == [];
    }
  }

  /** `parseInt("20")` is 20. */
  lemma ParseIntTwenty()
    ensures ParseInt("20") == Some(20)
  {
    TwentyUnsigned();
    assert TrimStart("20") == "20" by {
      assert !IsJsWhiteSpace("20"[0]);
    }
  }

  /** "20" read as an unsigned number is 20. */
  lemma TwentyUnsigned()
    ensures ParseUnsigned("20") == Some(20)
  {
    TwentyDigits();
    assert ParseUnsigned("20") == ReadDigits("20", 10);
  }

  /** "20" is a whole run of decimal digits worth 20. */
  lemma TwentyDigits()
    ensures DigitRun("20", 10) == "20"
    ensures DigitsValue("20", 10) == 20
  {
    var s := "20";
    assert DigitRun(s, 10) == "20" by {
      assert DigitRun(s[2..], 10) == [];
      assert DigitRun(s[1..], 10) == "0";
    }
    assert DigitsValue("2", 10) == 2 by {
      assert "2"[..0] == [];
    }
    assert s[..1] == "2";
  }

  /** `parseInt` reads hexadecimal after a `0x` prefix. */
  lemma ParseIntHexPrefix()
    ensures ParseInt("0x1A") == Some(26)
  {
    var s := "0x1A";
    assert !IsJsWhiteSpace(s[0]);
    assert TrimStart(s) == s;
    assert s[2..] == "1A";
    assert DigitRun("1A", 16) == "1A" by {
      assert DigitRun("A", 16) == "A";
    }
    assert DigitsValue("1A", 16) == DigitsValue("1", 16) * 16 + 10;
  }

  /** Text that does not start with a digit is `NaN`. */
  lemma ParseIntNaN()
    ensures ParseInt("") == None
    ensures ParseInt("abc") == None
  {
    var s := "abc";
    assert !IsJsWhiteSpace(s[0]);
    assert TrimStart(s) == s;
    assert !IsRadixDigit(s[0], 10);
  }

  /** A hex prefix with no hex digit after it is `NaN`. */
  lemma ParseIntBareHexPrefix()
    ensures ParseInt("0x") == None
  {
    var s := "0x";
    assert !IsJsWhiteSpace(s[0]);
    assert TrimStart(s) == s;
    assert s[2..] == "";
  }
}

/** The parts of JavaScript's `parseInt(string)` (no radix argument) that
    the mesh parser relies on. */
module JsNumbers {
  import opened JsValues

  /** The characters `parseInt` skips before the number: the ECMAScript
      white space and line terminator characters. */
  predicate IsWhiteSpace(c: char)
  {
    || c == ' ' || '\t' <= c <= '\r' || c == '\U{00A0}' || c == '\U{1680}'
    || '\U{2000}' <= c <= '\U{200A}' || c == '\U{2028}' || c == '\U{2029}'
    || c == '\U{202F}' || c == '\U{205F}' || c == '\U{3000}' || c == '\U{FEFF}'
  }

  /** The value of `c` as a digit in radix 36, or 36 for a non-digit. */
  function DigitValue(c: char): (d: nat)
    ensures d <= 36
  {
    if '0' <= c <= '9' then c as int - '0' as int
    else if 'a' <= c <= 'z' then c as int - 'a' as int + 10
    else if 'A' <= c <= 'Z' then c as int - 'A' as int + 10
    else 36
  }

  /** The string with its leading white space removed. */
  function TrimStart(s: string): (t: string)
    ensures |t| <= |s| && t == s[|s| - |t|..]
    ensures t == [] || !IsWhiteSpace(t[0])
    ensures forall k :: 0 <= k < |s| - |t| ==> IsWhiteSpace(s[k])
  {
    if |s| > 0 && IsWhiteSpace(s[0]) then TrimStart(s[1..]) else s
  }

  /** Length of the longest prefix of `s` made of digits in `radix`. */
  function DigitPrefixLength(s: string, radix: nat): (n: nat)
    ensures n <= |s|
    ensures forall k :: 0 <= k < n ==> DigitValue(s[k]) < radix
    ensures n == |s| || DigitValue(s[n]) >= radix
  {
    if |s| > 0 && DigitValue(s[0]) < radix then 1 + DigitPrefixLength(s[1..], radix) else 0
  }

  /** The value of the digit string `ds` in `radix`, most significant digit first. */
  function DigitsValue(ds: string, radix: nat): nat
  {
    if |ds| == 0 then 0
    else DigitsValue(ds[..|ds| - 1], radix) * radix + DigitValue(ds[|ds| - 1])
  }

  /** The string after an optional leading sign. */
  function Unsigned(t: string): string
  {
    if |t| > 0 && (t[0] == '-' || t[0] == '+') then t[1..] else t
  }

  /** Whether the unsigned numeral starts with `0x` or `0X`. */
  predicate HasHexPrefix(u: string)
  {
    |u| >= 2 && u[0] == '0' && (u[1] == 'x' || u[1] == 'X')
  }

  /** The radix `parseInt` uses when no radix is passed. */
  function Radix(u: string): nat
  {
    if HasHexPrefix(u) then 16 else 10
  }

  /** The unsigned numeral without its `0x` prefix. */
  function Body(u: string): string
  {
    if HasHexPrefix(u) then u[2..] else u
  }

  /** The longest prefix of `w` made of digits in `radix`. */
  function DigitRun(w: string, radix: nat): string
  {
    w[..DigitPrefixLength(w, radix)]
  }

  /** `parseInt` applied to a string: skip white space, read an optional
      sign, then an optional `0x`/`0X` prefix that selects radix 16, then
      the longest run of digits. No digits at all gives `NaN`. */
  function ParseIntString(s: string): Num
  {
    var t := TrimStart(s);
    var u := Unsigned(t);
    var z := DigitRun(Body(u), Radix(u));
    var v: int := DigitsValue(z, Radix(u));
    if |z| == 0 then NaN
    else if |t| > 0 && t[0] == '-' then Int(-v)
    else Int(v)
  }

  /** `parseInt(v)` for a value that is a string or `undefined`; `undefined`
      is first converted to the string "undefined", which holds no digits, so
      a missing token reads as `NaN`. */
  function ParseInt(v: Option<string>): (r: Num)
    ensures v.None? ==> r == NaN
  {
    LetterStart("undefined");
    ParseIntString(if v.Some? then v.value else "undefined")
  }

  /** The decimal digit character for `d`. */
  function DigitChar(d: nat): (c: char)
    requires d < 10
    ensures '0' <= c <= '9' && DigitValue(c) == d
  {
    ('0' as int + d) as char
  }

  /** The decimal numeral of `n`: its digits, most significant first, with
      no leading zero. */
  function DecimalString(n: nat): (s: string)
    ensures |s| >= 1
    ensures forall k :: 0 <= k < |s| ==> '0' <= s[k] <= '9'
    ensures n >= 10 ==> s[0] != '0'
  {
    if n < 10 then [DigitChar(n)] else DecimalString(n / 10) + [DigitChar(n % 10)]
  }

  predicate IsDecimalDigits(s: string)
  {
    forall k :: 0 <= k < |s| ==> '0' <= s[k] <= '9'
  }

  /** The decimal numeral of `n` has the value `n`. */
  lemma {:induction false} DecimalStringValue(n: nat)
    ensures DigitsValue(DecimalString(n), 10) == n
  {
    var s := DecimalString(n);
    if n >= 10 {
      DecimalStringValue(n / 10);
      assert s[..|s| - 1] == DecimalString(n / 10);
    }
  }

  /** The digit run of a string that starts with `ds` and continues with a
      non-digit stops at the end of `ds`. */
  lemma {:induction false} DigitPrefixStops(ds: string, rest: string, radix: nat)
    requires forall k :: 0 <= k < |ds| ==> DigitValue(ds[k]) < radix
    requires rest == [] || DigitValue(rest[0]) >= radix
    ensures DigitPrefixLength(ds + rest, radix) == |ds|
    decreases |ds|
  {
    if |ds| > 0 {
      assert (ds + rest)[1..] == ds[1..] + rest;
      DigitPrefixStops(ds[1..], rest, radix);
    }
  }

  /** `parseInt` reads a leading run of decimal digits and ignores whatever
      follows it, provided the next character is neither a letter nor a
      digit: `parseInt("12/5/7")` is 12, as in an OBJ face slot
      `vertex/texture/normal`. */
  lemma DecimalPrefix(ds: string, rest: string)
    requires |ds| >= 1 && IsDecimalDigits(ds)
    requires rest == [] || DigitValue(rest[0]) == 36
    ensures ParseInt(Some(ds + rest)) == Int(DigitsValue(ds, 10))
  {
    var s := ds + rest;
    assert s[0] == ds[0];
    StartsWithDigit(s);
    assert !HasHexPrefix(s) by {
      if |s| >= 2 {
        if |ds| >= 2 { assert s[1] == ds[1]; } else { assert s[1] == rest[0]; }
      }
    }
    DigitPrefixStops(ds, rest, 10);
    assert DigitRun(s, 10) == ds;
    UnsignedDecimal(s, ds);
  }

  /** A string starting with a digit has no white space or sign to skip. */
  lemma StartsWithDigit(s: string)
    requires |s| >= 1 && '0' <= s[0] <= '9'
    ensures TrimStart(s) == s && Unsigned(s) == s
  {
    DigitIsNotWhiteSpace(s[0]);
  }

  lemma DigitIsNotWhiteSpace(c: char)
    requires '0' <= c <= '9'
    ensures !IsWhiteSpace(c)
  {
  }

  /** An unsigned decimal numeral is read as the value of its digit run. */
  lemma UnsignedDecimal(s: string, z: string)
    requires TrimStart(s) == s && Unsigned(s) == s && !HasHexPrefix(s)
    requires DigitRun(s, 10) == z && |z| >= 1 && s[0] != '-'
    ensures ParseInt(Some(s)) == Int(DigitsValue(z, 10))
  {
    assert Radix(s) == 10 && Body(s) == s;
  }

  /** `parseInt` of the decimal numeral of any natural number `n` is `n`,
      with exact integers in place of doubles. */
  lemma ParseIntDecimal(n: nat)
    ensures ParseInt(Some(DecimalString(n))) == Int(n)
  {
    DecimalPrefix(DecimalString(n), []);
    assert DecimalString(n) + [] == DecimalString(n);
    DecimalStringValue(n);
  }

  /** `parseInt(undefined)` and `parseInt("")` are `NaN`. */
  lemma ParseIntNoDigits()
    ensures ParseInt(None) == NaN
    ensures ParseInt(Some("")) == NaN
  {
    EmptyString();
  }

  /** A string that starts with a letter beyond the hexadecimal digits has no digits to read. */
  lemma LetterStart(s: string)
    requires |s| >= 1 && 'g' <= s[0] <= 'z'
    ensures ParseIntString(s) == NaN
  {
    assert !IsWhiteSpace(s[0]);
    assert TrimStart(s) == s && Unsigned(s) == s && !HasHexPrefix(s);
    assert DigitPrefixLength(s, 10) == 0;
  }

  lemma EmptyString()
    ensures ParseIntString("") == NaN
  {
    assert TrimStart("") == "" && Unsigned("") == "" && !HasHexPrefix("");
  }
}

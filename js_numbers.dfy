/**
 * JavaScript's `parseInt(s)` (no radix argument) and the decimal rendering of
 * integers that template strings use. NaN is `None`.
 */
module JsNumbers {
  import opened Wrappers
  import opened JsStrings

  /** The value of c as a digit in bases up to 36; 36 for a character that is no digit at all. */
  function DigitValue(c: char): (d: nat)
    ensures d <= 36
    ensures '0' <= c <= '9' ==> d == c as int - '0' as int
  {
    if '0' <= c <= '9' then c as int - '0' as int
    else if 'a' <= c <= 'z' then c as int - 'a' as int + 10
    else if 'A' <= c <= 'Z' then c as int - 'A' as int + 10
    else 36
  }

  /** The longest prefix of s made only of digits of the given radix. */
  function DigitPrefix(s: string, radix: nat): (ds: string)
    ensures |ds| <= |s| && ds == s[..|ds|]
    ensures forall i :: 0 <= i < |ds| ==> DigitValue(ds[i]) < radix
    ensures |ds| < |s| ==> DigitValue(s[|ds|]) >= radix
  {
    if s != [] && DigitValue(s[0]) < radix then [s[0]] + DigitPrefix(s[1..], radix) else []
  }

  /** The number a digit string denotes, most significant digit first. */
  function DigitsValue(ds: string, radix: nat): nat
  {
    if ds == [] then 0 else DigitsValue(ds[..|ds| - 1], radix) * radix + DigitValue(ds[|ds| - 1])
  }

  /**
   * `parseInt(s)`: leading white space is skipped, one sign is read, a `0x`/`0X`
   * prefix switches to base 16, and the longest run of digits that follows is the
   * value; no digit at all gives NaN.
   */
  function ParseIntText(s: string): (r: Option<int>)
  {
    ParseSigned(TrimStart(s))
  }

  /** The sign, then the unsigned number. */
  function ParseSigned(t: string): (r: Option<int>)
  {
    var negative := t != [] && t[0] == '-';
    var u := if t != [] && (t[0] == '-' || t[0] == '+') then t[1..] else t;
    match ParseUnsigned(u)
    case None => None
    case Some(v) => Some(if negative then -(v as int) else v)
  }

  /** The digits after an optional `0x`/`0X` prefix, in base 16 after the prefix and base 10 otherwise. */
  function ParseUnsigned(u: string): (r: Option<nat>)
  {
    var hex := |u| >= 2 && u[0] == '0' && (u[1] == 'x' || u[1] == 'X');
    var radix := if hex then 16 else 10;
    var ds := DigitPrefix(if hex then u[2..] else u, radix);
    if ds == [] then None else Some(DigitsValue(ds, radix))
  }

  /** `parseInt(x)` for a capture that may be undefined: undefined is converted to the string "undefined", which has no leading digit. */
  function ParseInt(x: Option<string>): Option<int>
  {
    ParseIntText(if x.Some? then x.value else "undefined")
  }

  /** `parseInt(undefined)` is NaN. */
  lemma ParseIntUndefined()
    ensures ParseInt(None).None?
  {
    var s := "undefined";
    assert !IsSpace(s[0]);
    assert TrimStart(s) == s;
    assert DigitValue(s[0]) == 30;
  }

  /** `parseInt(x) || d`: NaN and zero are both falsy and give the fallback. */
  function ParseIntOr(x: Option<string>, d: int): (r: int)
    ensures r == d || (ParseInt(x) == Some(r) && r != 0)
    ensures ParseInt(x).None? || ParseInt(x) == Some(0) ==> r == d
    ensures ParseInt(x).Some? && ParseInt(x).value != 0 ==> r == ParseInt(x).value
  {
    match ParseInt(x)
    case Some(n) => if n != 0 then n else d
    case None => d
  }

  function DigitChar(d: nat): (c: char)
    requires d < 10
    ensures '0' <= c <= '9' && DigitValue(c) == d
  {
    (d + '0' as int) as char
  }

  /** The decimal digits of n, without leading zeros. */
  function NatToString(n: nat): (s: string)
    ensures |s| >= 1
    ensures forall i :: 0 <= i < |s| ==> '0' <= s[i] <= '9'
    ensures s[0] == '0' ==> n == 0 && |s| == 1
  {
    if n < 10 then [DigitChar(n)] else NatToString(n / 10) + [DigitChar(n % 10)]
  }

  /** `${n}` for an integer n. */
  function IntToString(n: int): (s: string)
    ensures |s| >= 1 && (s[0] == '-' || '0' <= s[0] <= '9')
    ensures forall i :: 0 <= i < |s| ==> s[i] == '-' || '0' <= s[i] <= '9'
  {
    if n < 0 then "-" + NatToString(-n) else NatToString(n)
  }

  lemma {:induction false} DigitsValueOfNatToString(n: nat)
    ensures DigitsValue(NatToString(n), 10) == n
  {
    var s := NatToString(n);
    if n >= 10 {
      DigitsValueOfNatToString(n / 10);
      assert s[..|s| - 1] == NatToString(n / 10);
    }
  }

  lemma DigitPrefixOfDigits(s: string)
    requires forall i :: 0 <= i < |s| ==> '0' <= s[i] <= '9'
    ensures DigitPrefix(s, 10) == s
  {
  }

  /** `parseInt` reads back exactly the integer whose decimal rendering it is given. */
  lemma ParseIntRoundTrip(n: int)
    ensures ParseIntText(IntToString(n)) == Some(n)
  {
    var m: nat := if n < 0 then -n else n;
    var digits := NatToString(m);
    DigitsValueOfNatToString(m);
    ParseDecimal(digits);
    if n < 0 {
      assert IntToString(n) == "-" + digits;
      ParseSignedText("-" + digits);
      ParseSignedMinus(digits, m);
    } else {
      assert IntToString(n) == digits;
      ParseSignedText(digits);
      ParseSignedPlain(digits, m);
    }
  }

  /** Text that starts with a sign or a digit is parsed without skipping anything. */
  lemma ParseSignedText(s: string)
    requires s != [] && (s[0] == '-' || '0' <= s[0] <= '9')
    ensures ParseIntText(s) == ParseSigned(s)
  {
    assert !IsSpace(s[0]);
  }

  /** A minus sign negates the number that follows it. */
  lemma ParseSignedMinus(d: string, v: nat)
    requires ParseUnsigned(d) == Some(v)
    ensures ParseSigned("-" + d) == Some(-(v as int))
  {
    assert ("-" + d)[1..] == d;
  }

  /** Text starting with a digit has no sign. */
  lemma ParseSignedPlain(d: string, v: nat)
    requires d != [] && '0' <= d[0] <= '9'
    requires ParseUnsigned(d) == Some(v)
    ensures ParseSigned(d) == Some(v)
  {
  }

  /** Decimal digits without a leading zero parse to their value. */
  lemma ParseDecimal(digits: string)
    requires digits != [] && forall i :: 0 <= i < |digits| ==> '0' <= digits[i] <= '9'
    requires |digits| >= 2 ==> digits[0] != '0'
    ensures ParseUnsigned(digits) == Some(DigitsValue(digits, 10))
  {
    DigitPrefixOfDigits(digits);
  }

  /** A capture holding the decimal rendering of n parses to n. */
  lemma ParseIntOfNumeral(n: int)
    ensures ParseInt(Some(IntToString(n))) == Some(n)
  {
    ParseIntRoundTrip(n);
  }
}

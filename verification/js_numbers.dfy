/**
 * The JavaScript number conversions the work list and the DICOM route use:
 * `String(n)` for integers, `padStart`, `Number(str)` (only whether it is
 * NaN), and `parseInt(str)` without a radix argument.
 */
module JsNumbers {

  /** An integer-valued JavaScript number, or NaN. */
  datatype JsInt = Int(value: int) | NaN

  predicate IsDigit(c: char)
  {
    '0' <= c <= '9'
  }

  predicate IsHexDigit(c: char)
  {
    IsDigit(c) || 'a' <= c <= 'f' || 'A' <= c <= 'F'
  }

  /** A digit of the given radix; `parseInt` only ever uses 10 or 16. */
  predicate IsRadixDigit(c: char, radix: nat)
  {
    if radix == 16 then IsHexDigit(c) else IsDigit(c)
  }

  function DigitValue(c: char): (d: nat)
    requires IsHexDigit(c)
    ensures d < 16 && (IsDigit(c) ==> d < 10)
  {
    if IsDigit(c) then c as int - '0' as int
    else if 'a' <= c <= 'f' then c as int - 'a' as int + 10
    else c as int - 'A' as int + 10
  }

  function DigitChar(d: nat): (c: char)
    requires d < 10
    ensures IsDigit(c) && DigitValue(c) == d
  {
    ('0' as int + d) as char
  }

  predicate AllRadixDigits(s: string, radix: nat)
  {
    forall i :: 0 <= i < |s| ==> IsRadixDigit(s[i], radix)
  }

  /** The value of a string of digits, most significant first. */
  function DigitsValue(s: string, radix: nat): nat
    requires radix == 10 || radix == 16
    requires AllRadixDigits(s, radix)
  {
    if s == [] then 0
    else DigitsValue(s[..|s| - 1], radix) * radix + DigitValue(s[|s| - 1])
  }

  /** `String(n)` for a natural number: decimal digits, no leading zero. */
  function NatToString(n: nat): (s: string)
    ensures |s| >= 1 && AllRadixDigits(s, 10)
    ensures |s| > 1 ==> s[0] != '0'
    decreases n
  {
    if n < 10 then [DigitChar(n)] else NatToString(n / 10) + [DigitChar(n % 10)]
  }

  /** `String(n)` for an integer. */
  function IntToString(n: int): string
  {
    if n < 0 then "-" + NatToString(-n) else NatToString(n)
  }

  /** `s.padStart(len, c)`. */
  function PadStart(s: string, len: nat, c: char): (r: string)
    ensures |r| == if |s| >= len then |s| else len
    ensures r[|r| - |s|..] == s
    ensures forall i :: 0 <= i < |r| - |s| ==> r[i] == c
  {
    if |s| >= len then s else seq(len - |s|, _ => c) + s
  }

  lemma {:induction false} NatToStringValue(n: nat)
    ensures DigitsValue(NatToString(n), 10) == n
    decreases n
  {
    if n >= 10 {
      NatToStringValue(n / 10);
      var s := NatToString(n);
      assert s[..|s| - 1] == NatToString(n / 10);
    }
  }

  lemma {:induction false} NatToStringLength(n: nat, k: nat)
    requires 1 <= k && n < Pow10(k)
    ensures |NatToString(n)| <= k
    decreases k
  {
    if n >= 10 {
      assert k != 1 by { assert Pow10(1) == 10; }
      assert n / 10 < Pow10(k - 1);
      NatToStringLength(n / 10, k - 1);
    }
  }

  function Pow10(k: nat): (p: nat)
    ensures p >= 1
  {
    if k == 0 then 1 else 10 * Pow10(k - 1)
  }

  /** Leading zeros do not change the value of a digit string. */
  lemma {:induction false} LeadingZerosValue(z: string, s: string)
    requires forall i :: 0 <= i < |z| ==> z[i] == '0'
    requires AllRadixDigits(s, 10)
    ensures AllRadixDigits(z + s, 10)
    ensures DigitsValue(z + s, 10) == DigitsValue(s, 10)
    decreases |s|
  {
    if s == [] {
      AllZerosValue(z);
      assert z + s == z;
    } else {
      var t := z + s;
      assert t[..|t| - 1] == z + s[..|s| - 1];
      LeadingZerosValue(z, s[..|s| - 1]);
    }
  }

  lemma {:induction false} AllZerosValue(z: string)
    requires forall i :: 0 <= i < |z| ==> z[i] == '0'
    ensures AllRadixDigits(z, 10) && DigitsValue(z, 10) == 0
    decreases |z|
  {
    if z != [] {
      AllZerosValue(z[..|z| - 1]);
    }
  }

  /** `String(i).padStart(5, '0')` for i below 100000: five digits that read back as i. */
  lemma PadFiveValue(i: nat)
    requires i < 100000
    ensures |PadStart(NatToString(i), 5, '0')| == 5
    ensures AllRadixDigits(PadStart(NatToString(i), 5, '0'), 10)
    ensures DigitsValue(PadStart(NatToString(i), 5, '0'), 10) == i
  {
    var s := NatToString(i);
    assert Pow10(5) == 100000;
    NatToStringLength(i, 5);
    var r := PadStart(s, 5, '0');
    var z := r[..5 - |s|];
    assert r == z + s;
    assert forall j :: 0 <= j < |z| ==> z[j] == '0';
    NatToStringValue(i);
    LeadingZerosValue(z, s);
  }

  /** The white space `Number` and `parseInt` skip: ECMAScript's StrWhiteSpaceChar. */
  predicate IsWhiteSpace(c: char)
  {
    c == ' ' || c == '\t' || c == '\n' || c == '\r'
    || c as int == 0x0B || c as int == 0x0C || c as int == 0xA0 || c as int == 0x1680
    || 0x2000 <= c as int <= 0x200A || c as int == 0x2028 || c as int == 0x2029
    || c as int == 0x202F || c as int == 0x205F || c as int == 0x3000 || c as int == 0xFEFF
  }

  function TrimStart(s: string): (r: string)
    ensures r == [] || !IsWhiteSpace(r[0])
    ensures |r| <= |s| && r == s[|s| - |r|..]
    decreases |s|
  {
    if s != [] && IsWhiteSpace(s[0]) then TrimStart(s[1..]) else s
  }

  function TrimEnd(s: string): (r: string)
    ensures r == [] || !IsWhiteSpace(r[|r| - 1])
    ensures r <= s
    decreases |s|
  {
    if s != [] && IsWhiteSpace(s[|s| - 1]) then TrimEnd(s[..|s| - 1]) else s
  }

  /** First index of a character satisfying `IsExponentMark`, or |s|. */
  function ExponentIndex(s: string): (k: nat)
    ensures k <= |s|
    ensures forall i :: 0 <= i < k ==> s[i] != 'e' && s[i] != 'E'
    ensures k < |s| ==> s[k] == 'e' || s[k] == 'E'
  {
    if s == [] then 0
    else if s[0] == 'e' || s[0] == 'E' then 0
    else 1 + ExponentIndex(s[1..])
  }

  /** First index of '.', or |s|. */
  function DotIndex(s: string): (k: nat)
    ensures k <= |s|
    ensures forall i :: 0 <= i < k ==> s[i] != '.'
    ensures k < |s| ==> s[k] == '.'
  {
    if s == [] then 0
    else if s[0] == '.' then 0
    else 1 + DotIndex(s[1..])
  }

  /** DecimalDigits `.` DecimalDigits, either side possibly empty but not both. */
  predicate IsMantissa(m: string)
  {
    var d := DotIndex(m);
    if d == |m| then |m| >= 1 && AllRadixDigits(m, 10)
    else AllRadixDigits(m[..d], 10) && AllRadixDigits(m[d + 1..], 10) && (d >= 1 || d + 1 < |m|)
  }

  /** The digits after `e`: an optional sign, then at least one digit. */
  predicate IsExponentDigits(x: string)
  {
    if x != [] && (x[0] == '+' || x[0] == '-') then |x| >= 2 && AllRadixDigits(x[1..], 10)
    else |x| >= 1 && AllRadixDigits(x, 10)
  }

  predicate IsUnsignedDecimalLiteral(s: string)
  {
    s == "Infinity" ||
    var e := ExponentIndex(s);
    IsMantissa(s[..e]) && (e == |s| || IsExponentDigits(s[e + 1..]))
  }

  /** `0x…`, `0o…` or `0b…` with at least one digit of that base. */
  predicate IsNonDecimalIntegerLiteral(t: string)
  {
    |t| >= 3 && t[0] == '0' &&
    ((t[1] in "xX" && forall i :: 2 <= i < |t| ==> IsHexDigit(t[i])) ||
     (t[1] in "oO" && forall i :: 2 <= i < |t| ==> '0' <= t[i] <= '7') ||
     (t[1] in "bB" && forall i :: 2 <= i < |t| ==> '0' <= t[i] <= '1'))
  }

  /** ECMAScript's StrNumericLiteral (a trimmed, non-empty string). */
  predicate IsStrNumericLiteral(t: string)
  {
    IsNonDecimalIntegerLiteral(t) ||
    (t != [] && (if t[0] == '+' || t[0] == '-' then IsUnsignedDecimalLiteral(t[1..])
                 else IsUnsignedDecimalLiteral(t)))
  }

  /**
   * `isNaN(Number(s))`: after trimming, the text is neither empty (which
   * converts to 0) nor a numeric literal.
   */
  predicate NumberIsNaN(s: string)
  {
    var t := TrimEnd(TrimStart(s));
    t != [] && !IsStrNumericLiteral(t)
  }

  /** The number of leading digits of the radix. */
  function LeadingDigits(s: string, radix: nat): (n: nat)
    ensures n <= |s| && AllRadixDigits(s[..n], radix)
    ensures n < |s| ==> !IsRadixDigit(s[n], radix)
  {
    if s != [] && IsRadixDigit(s[0], radix) then 1 + LeadingDigits(s[1..], radix) else 0
  }

  /**
   * `parseInt(s)`: skip leading white space, take an optional sign, a `0x`
   * prefix switches to hexadecimal, then read the longest run of digits;
   * NaN when there is none.
   */
  function ParseInt(s: string): JsInt
  {
    var t := TrimStart(s);
    var negative := t != [] && t[0] == '-';
    var u := if t != [] && (t[0] == '+' || t[0] == '-') then t[1..] else t;
    var hex := |u| >= 2 && u[0] == '0' && (u[1] == 'x' || u[1] == 'X');
    var body := if hex then u[2..] else u;
    var radix := if hex then 16 else 10;
    var n := LeadingDigits(body, radix);
    if n == 0 then NaN
    else
      var v: int := DigitsValue(body[..n], radix);
      Int(if negative then -v else v)
  }

  lemma DigitsAreDecimalLiteral(d: string)
    requires |d| >= 1 && AllRadixDigits(d, 10)
    ensures IsUnsignedDecimalLiteral(d) && !IsNonDecimalIntegerLiteral(d)
  {
    assert d[0] != 'I';
    var e := ExponentIndex(d);
    assert e == |d|;
    var k := DotIndex(d);
    assert k == |d|;
    assert d[..e] == d;
    if |d| >= 3 {
      assert IsDigit(d[1]);
    }
  }

  lemma IntToStringTrimmed(n: int)
    ensures var s := IntToString(n); TrimEnd(TrimStart(s)) == s && TrimStart(s) == s
  {
    var s := IntToString(n);
    var d := NatToString(if n < 0 then -n else n);
    assert IsDigit(d[0]) && IsDigit(d[|d| - 1]);
    assert !IsWhiteSpace(s[0]) && !IsWhiteSpace(s[|s| - 1]);
  }

  lemma IntToStringIsLiteral(n: int)
    ensures !NumberIsNaN(IntToString(n))
  {
    var s := IntToString(n);
    var d := NatToString(if n < 0 then -n else n);
    DigitsAreDecimalLiteral(d);
    IntToStringTrimmed(n);
    if n < 0 {
      assert s[1..] == d;
    }
    assert IsStrNumericLiteral(s);
  }

  /** `parseInt` reads back what `String` wrote. */
  lemma ParseIntToString(n: int)
    ensures ParseInt(IntToString(n)) == Int(n)
  {
    var s := IntToString(n);
    var m: nat := if n < 0 then -n else n;
    var d := NatToString(m);
    IntToStringTrimmed(n);
    var u := if s[0] == '+' || s[0] == '-' then s[1..] else s;
    assert u == d by {
      if n < 0 { assert s[1..] == d; } else { assert IsDigit(d[0]); }
    }
    assert !(|d| >= 2 && d[0] == '0');
    LeadingDigitsOfDigits(d, 10);
    assert d[..|d|] == d;
    NatToStringValue(m);
  }

  lemma {:induction false} LeadingDigitsOfDigits(d: string, radix: nat)
    requires AllRadixDigits(d, radix)
    ensures LeadingDigits(d, radix) == |d|
    decreases |d|
  {
    if d != [] {
      LeadingDigitsOfDigits(d[1..], radix);
    }
  }
}

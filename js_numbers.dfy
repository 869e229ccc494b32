/** The browser's `parseInt` with no radix argument, as the controller applies
    it to the text of the points field, and the decimal rendering a number
    field holds. A result of `None` stands for NaN. */
module JsNumbers {
  import opened GameTypes

  /** The white-space and line-terminator characters `parseInt` skips before
      the number. */
  predicate IsWhiteSpace(c: char) {
    c == '\t' || c == '\n' || c == '\U{000B}' || c == '\U{000C}' || c == '\r' ||
    c == ' ' || c == '\U{00A0}' || c == '\U{1680}' || ('\U{2000}' <= c <= '\U{200A}') ||
    c == '\U{2028}' || c == '\U{2029}' || c == '\U{202F}' || c == '\U{205F}' ||
    c == '\U{3000}' || c == '\U{FEFF}'
  }

  /** The input with its leading white space removed. */
  function TrimStart(s: string): (t: string)
    ensures |t| <= |s| && t == s[|s| - |t|..]
    ensures t == [] || !IsWhiteSpace(t[0])
    ensures forall i | 0 <= i < |s| - |t| :: IsWhiteSpace(s[i])
  {
    if s != [] && IsWhiteSpace(s[0]) then TrimStart(s[1..]) else s
  }

  /** The value of `c` as a digit in base `radix` (10 or 16), if it is one. */
  function DigitValue(c: char, radix: nat): Option<nat> {
    if '0' <= c <= '9' then Some(c as nat - '0' as nat)
    else if radix == 16 && 'a' <= c <= 'f' then Some(c as nat - 'a' as nat + 10)
    else if radix == 16 && 'A' <= c <= 'F' then Some(c as nat - 'A' as nat + 10)
    else None
  }

  /** The length of the longest prefix of `s` made of base-`radix` digits. */
  function DigitRun(s: string, radix: nat): (k: nat)
    ensures k <= |s|
    ensures forall i | 0 <= i < k :: DigitValue(s[i], radix).Some?
    ensures k < |s| ==> DigitValue(s[k], radix).None?
  {
    if s != [] && DigitValue(s[0], radix).Some? then 1 + DigitRun(s[1..], radix) else 0
  }

  /** The value of a string of base-`radix` digits, most significant first. */
  function ValueOf(digits: string, radix: nat): nat
    requires forall i | 0 <= i < |digits| :: DigitValue(digits[i], radix).Some?
  {
    if digits == [] then 0
    else
      var n := |digits| - 1;
      ValueOf(digits[..n], radix) * radix + DigitValue(digits[n], radix).value
  }

  /** The value of the longest run of base-`radix` digits at the start of
      `s`, or NaN when `s` does not start with a digit. */
  function ReadDigits(s: string, radix: nat): Option<nat> {
    var k := DigitRun(s, radix);
    if k == 0 then None else Some(ValueOf(s[..k], radix))
  }

  /** Whether the number is negative, and the text after its sign. */
  function SplitSign(t: string): (bool, string) {
    if t != [] && (t[0] == '-' || t[0] == '+') then (t[0] == '-', t[1..]) else (false, t)
  }

  /** The base and the digits after an optional `0x` or `0X` prefix. */
  function SplitRadix(s: string): (nat, string) {
    if |s| >= 2 && s[0] == '0' && (s[1] == 'x' || s[1] == 'X') then (16, s[2..]) else (10, s)
  }

  /** `parseInt(text)`: skip white space, read an optional sign, switch to
      base 16 after a `0x` or `0X` prefix, then read the longest run of
      digits; no digit at all gives NaN. */
  function ParseInt(text: string): Option<int> {
    var (negative, unsigned) := SplitSign(TrimStart(text));
    var (radix, body) := SplitRadix(unsigned);
    match ReadDigits(body, radix)
    case None => None
    case Some(magnitude) =>
      var v: int := if negative then -(magnitude as int) else magnitude;
      Some(v)
  }

  function DigitChar(d: nat): (c: char)
    requires d < 10
    ensures DigitValue(c, 10) == Some(d)
  {
    ('0' as nat + d) as char
  }

  /** The decimal digits of `n`, without leading zeros. */
  function NatString(n: nat): (s: string)
    ensures s != []
    ensures forall i | 0 <= i < |s| :: DigitValue(s[i], 10).Some?
    ensures n > 0 ==> s[0] != '0'
  {
    if n < 10 then [DigitChar(n)] else NatString(n / 10) + [DigitChar(n % 10)]
  }

  /** The text a number field holds for the integer `n`. */
  function DecimalString(n: int): string {
    if n < 0 then "-" + NatString(-n) else NatString(n)
  }

  lemma {:induction false} ValueOfNatString(n: nat)
    ensures ValueOf(NatString(n), 10) == n
  {
    if n >= 10 {
      var s := NatString(n);
      ValueOfNatString(n / 10);
      assert s[..|s| - 1] == NatString(n / 10);
    }
  }

  lemma {:induction false} DigitRunAppend(digits: string, rest: string, radix: nat)
    requires forall i | 0 <= i < |digits| :: DigitValue(digits[i], radix).Some?
    requires rest == [] || DigitValue(rest[0], radix).None?
    ensures DigitRun(digits + rest, radix) == |digits|
  {
    if digits != [] {
      assert (digits + rest)[1..] == digits[1..] + rest;
      DigitRunAppend(digits[1..], rest, radix);
    } else {
      assert digits + rest == rest;
    }
  }

  /** `parseInt` reads back the integer a number field renders, whatever
      follows it (a fraction, an exponent) as long as that does not continue
      the digits or turn the text `0` into a `0x` prefix. */
  lemma ParseIntDecimal(n: int, rest: string)
    requires rest == [] || DigitValue(rest[0], 10).None?
    requires rest == [] || n != 0 || (rest[0] != 'x' && rest[0] != 'X')
    ensures ParseInt(DecimalString(n) + rest) == Some(n)
  {
    var magnitude: nat := if n < 0 then -n else n;
    TrimDecimal(n, rest);
    SplitSignDecimal(n, rest);
    SplitRadixDecimal(magnitude, rest);
    ReadDigitsNatString(magnitude, rest);
  }

  lemma TrimDecimal(n: int, rest: string)
    ensures TrimStart(DecimalString(n) + rest) == DecimalString(n) + rest
  {
    var text := DecimalString(n) + rest;
    assert text[0] == '-' || '0' <= text[0] <= '9';
    assert !IsWhiteSpace(text[0]);
  }

  lemma SplitSignDecimal(n: int, rest: string)
    ensures SplitSign(DecimalString(n) + rest) == (n < 0, NatString(if n < 0 then -n else n) + rest)
  {
    var text := DecimalString(n) + rest;
    var unsigned := NatString(if n < 0 then -n else n) + rest;
    if n < 0 {
      assert text == ['-'] + unsigned;
    } else {
      assert text == unsigned;
      assert DigitValue(unsigned[0], 10).Some?;
    }
  }

  lemma SplitRadixDecimal(n: nat, rest: string)
    requires rest == [] || n != 0 || (rest[0] != 'x' && rest[0] != 'X')
    ensures SplitRadix(NatString(n) + rest) == (10, NatString(n) + rest)
  {
    var digits := NatString(n);
    var unsigned := digits + rest;
    if |unsigned| >= 2 && unsigned[0] == '0' {
      assert |digits| == 1 && unsigned[1] == rest[0];
    }
  }

  lemma ReadDigitsNatString(n: nat, rest: string)
    requires rest == [] || DigitValue(rest[0], 10).None?
    ensures ReadDigits(NatString(n) + rest, 10) == Some(n)
  {
    var digits := NatString(n);
    DigitRunAppend(digits, rest, 10);
    assert (digits + rest)[..|digits|] == digits;
    ValueOfNatString(n);
  }

  /** An empty or blank field never parses. */
  lemma ParseIntBlank(text: string)
    requires forall i | 0 <= i < |text| :: IsWhiteSpace(text[i])
    ensures ParseInt(text) == None
  {
    assert TrimStart(text) == [];
    assert SplitSign([]) == (false, []);
    assert SplitRadix([]) == (10, []);
    assert ReadDigits([], 10) == None;
  }
}

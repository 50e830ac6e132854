/**
 * The two number conversions the doctor editor relies on:
 * `parseInt(s)` (ECMAScript, no radix argument) and
 * `Number.prototype.toString()` on the values `parseInt` produces.
 */
module Numbers {

  /** A number as `parseInt` yields it: an integer or `NaN`. */
  datatype Num = Int(value: int) | NaN

  /** The characters `parseInt` skips at the start: white space and line terminators. */
  predicate IsStrWhiteSpace(c: char)
  {
    c == '\t' || c == '\U{000B}' || c == '\U{000C}' || c == ' ' || c == '\U{00A0}' || c == '\U{FEFF}'
    || c == '\n' || c == '\r' || c == '\U{2028}' || c == '\U{2029}'
    || c == '\U{1680}' || ('\U{2000}' <= c <= '\U{200A}') || c == '\U{202F}' || c == '\U{205F}' || c == '\U{3000}'
  }

  /** `s` without its leading white space. */
  function TrimStart(s: string): (r: string)
    ensures r == [] || !IsStrWhiteSpace(r[0])
    ensures |r| <= |s| && r == s[|s| - |r|..]
  {
    if s != [] && IsStrWhiteSpace(s[0]) then TrimStart(s[1..]) else s
  }

  /** The value of `c` as a digit in base 16, or 16 or more when it is none. */
  function HexValue(c: char): nat
  {
    if '0' <= c <= '9' then c as int - '0' as int
    else if 'a' <= c <= 'f' then c as int - 'a' as int + 10
    else if 'A' <= c <= 'F' then c as int - 'A' as int + 10
    else 16
  }

  /** `c` is a digit in base `radix` (10 or 16). */
  predicate IsDigit(c: char, radix: nat)
  {
    HexValue(c) < radix
  }

  /** The longest prefix of `s` made of digits in base `radix`. */
  function DigitPrefix(s: string, radix: nat): (r: string)
    ensures |r| <= |s| && r == s[..|r|]
    ensures forall i :: 0 <= i < |r| ==> IsDigit(r[i], radix)
    ensures |r| < |s| ==> !IsDigit(s[|r|], radix)
  {
    if s == [] || !IsDigit(s[0], radix) then [] else [s[0]] + DigitPrefix(s[1..], radix)
  }

  /** The value of a string of digits in base `radix`, most significant first. */
  function DigitsValue(s: string, radix: nat): nat
  {
    if s == [] then 0
    else DigitsValue(s[..|s| - 1], radix) * radix + HexValue(s[|s| - 1]) % 16
  }

  /** `parseInt(s)` with no radix, following section 19.2.5 of ECMA-262. */
  function ParseInt(s: string): Num
  {
    var t := TrimStart(s);
    if t != [] && t[0] == '-' then Negate(ParseMagnitude(t[1..]))
    else if t != [] && t[0] == '+' then ParseMagnitude(t[1..])
    else ParseMagnitude(t)
  }

  /** The unsigned part: a `0x` or `0X` prefix selects base 16, otherwise base 10. */
  function ParseMagnitude(u: string): Num
  {
    if |u| >= 2 && u[0] == '0' && (u[1] == 'x' || u[1] == 'X') then ParseDigits(u[2..], 16)
    else ParseDigits(u, 10)
  }

  /** The value of the leading digits of `v`, or `NaN` when there are none. */
  function ParseDigits(v: string, radix: nat): Num
  {
    var z := DigitPrefix(v, radix);
    if z == [] then NaN else Int(DigitsValue(z, radix))
  }

  /** Applying the minus sign; `-NaN` is `NaN`. */
  function Negate(n: Num): Num
  {
    match n
    case NaN => NaN
    case Int(i) => Int(-i)
  }

  /** The decimal digit for `d`. */
  function DigitChar(d: nat): (c: char)
    requires d < 10
    ensures IsDigit(c, 10) && HexValue(c) == d
  {
    ('0' as int + d) as char
  }

  /** The decimal numeral of `k`, without leading zeros. */
  function Decimal(k: nat): (r: string)
    ensures r != []
  {
    if k < 10 then [DigitChar(k)] else Decimal(k / 10) + [DigitChar(k % 10)]
  }

  /** `n.toString()` for the numbers `parseInt` produces. */
  function ToString(n: Num): string
  {
    match n
    case NaN => "NaN"
    case Int(i) => if i < 0 then "-" + Decimal(-i) else Decimal(i)
  }

  /** A decimal numeral is all digits, has no leading zero, and denotes `k`. */
  lemma {:induction false} DecimalSpec(k: nat)
    ensures forall i :: 0 <= i < |Decimal(k)| ==> IsDigit(Decimal(k)[i], 10)
    ensures k > 0 ==> Decimal(k)[0] != '0'
    ensures DigitsValue(Decimal(k), 10) == k
  {
    if k >= 10 {
      DecimalSpec(k / 10);
      var r := Decimal(k);
      assert r[..|r| - 1] == Decimal(k / 10);
    }
  }

  /** A string made only of digits is its own digit prefix. */
  lemma {:induction false} DigitPrefixAll(s: string, radix: nat)
    requires forall i :: 0 <= i < |s| ==> IsDigit(s[i], radix)
    ensures DigitPrefix(s, radix) == s
  {
    if s != [] {
      DigitPrefixAll(s[1..], radix);
    }
  }

  /** The magnitude of a decimal numeral parses back to its value. */
  lemma ParseMagnitudeDecimal(k: nat)
    ensures ParseMagnitude(Decimal(k)) == Int(k)
  {
    var d := Decimal(k);
    DecimalSpec(k);
    DigitPrefixAll(d, 10);
    assert |d| >= 2 ==> d[0] != '0';
  }

  /** A decimal digit is neither white space nor a sign. */
  lemma DigitIsPlain(c: char)
    requires IsDigit(c, 10)
    ensures '0' <= c <= '9'
    ensures !IsStrWhiteSpace(c) && c != '-' && c != '+'
  {
  }

  /** A numeral with no sign parses to its value. */
  lemma ParseDecimal(k: nat)
    ensures ParseInt(Decimal(k)) == Int(k)
  {
    var d := Decimal(k);
    DecimalSpec(k);
    DigitIsPlain(d[0]);
    assert TrimStart(d) == d;
    ParseMagnitudeDecimal(k);
  }

  /** A numeral after a minus sign parses to the negated value. */
  lemma ParseNegativeDecimal(k: nat)
    ensures ParseInt("-" + Decimal(k)) == Int(-(k as int))
  {
    var s := "-" + Decimal(k);
    assert !IsStrWhiteSpace(s[0]);
    assert TrimStart(s) == s;
    assert s[1..] == Decimal(k);
    ParseMagnitudeDecimal(k);
  }

  /** "NaN" has no digits, so it parses to `NaN`. */
  lemma ParseNaN()
    ensures ParseInt("NaN") == NaN
  {
    assert !IsStrWhiteSpace('N');
    assert TrimStart("NaN") == "NaN";
    assert DigitPrefix("NaN", 10) == [];
  }

  /** Parsing what `toString` prints gives the number back, `NaN` included. */
  lemma ParseIntToString(n: Num)
    ensures ParseInt(ToString(n)) == n
  {
    match n
    case NaN =>
      ParseNaN();
    case Int(i) =>
      if i < 0 {
        ParseNegativeDecimal(-i);
      } else {
        ParseDecimal(i);
      }
  }
}

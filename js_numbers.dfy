/** The global `parseInt` of ECMAScript (section 19.2.5 of ECMA-262) for
    the two radix arguments the components use, and `Number::toString` for
    integral numbers, which is how a number held in a form field reaches
    `parseInt`. Numbers are unbounded integers here; see the README. */
module JsNumbers {

  /** `parseInt(s)` (radix omitted) or `parseInt(s, 10)`. */
  datatype Radix = Unspecified | Decimal

  /** The number `parseInt` produces: an integer or `NaN`. */
  datatype Numeric = Int(value: int) | NaN

  /** A form field value: the initial number or whatever text the input held. */
  datatype InputValue = Num(n: int) | Str(s: string)

  /** `StrWhiteSpaceChar`: the white space and line terminators `parseInt` skips. */
  predicate IsWhiteSpace(c: char) {
    var k := c as int;
    k == 0x09 || k == 0x0A || k == 0x0B || k == 0x0C || k == 0x0D || k == 0x20 ||
    k == 0xA0 || k == 0x1680 || (0x2000 <= k <= 0x200A) || k == 0x2028 ||
    k == 0x2029 || k == 0x202F || k == 0x205F || k == 0x3000 || k == 0xFEFF
  }

  /** The value of a character read as a digit in radix 36, and 36 for a
      character that is no digit at all. */
  function DigitValue(c: char): nat {
    if '0' <= c <= '9' then c as int - '0' as int
    else if 'a' <= c <= 'z' then c as int - 'a' as int + 10
    else if 'A' <= c <= 'Z' then c as int - 'A' as int + 10
    else 36
  }

  predicate IsDigit(c: char, radix: nat) {
    DigitValue(c) < radix
  }

  /** The length of the longest prefix of `s` made of digits of `radix`. */
  function DigitRun(s: string, radix: nat): (n: nat)
    ensures n <= |s|
    ensures forall i :: 0 <= i < n ==> IsDigit(s[i], radix)
    ensures n < |s| ==> !IsDigit(s[n], radix)
  {
    if s != [] && IsDigit(s[0], radix) then 1 + DigitRun(s[1..], radix) else 0
  }

  /** The positional value of a digit string, most significant digit first. */
  function DigitsValue(ds: string, radix: nat): nat {
    if ds == [] then 0 else DigitsValue(ds[..|ds| - 1], radix) * radix + DigitValue(ds[|ds| - 1])
  }

  /** True of a string that, after its sign, starts with `0x` or `0X`. */
  predicate HasHexPrefix(u: string) {
    |u| >= 2 && u[0] == '0' && (u[1] == 'x' || u[1] == 'X')
  }

  /** The string after leading white space and one sign character. */
  function Unsigned(s: string): string {
    if s != [] && IsWhiteSpace(s[0]) then Unsigned(s[1..])
    else if s != [] && (s[0] == '-' || s[0] == '+') then s[1..]
    else s
  }

  /** True when the first character after the white space is `-`. */
  predicate Negative(s: string) {
    if s != [] && IsWhiteSpace(s[0]) then Negative(s[1..]) else s != [] && s[0] == '-'
  }

  /** The longest run of digits at the start of `digits`, read in `radix`;
      `NaN` when there is none. */
  function ParseDigits(digits: string, radix: nat): Numeric {
    var n := DigitRun(digits, radix);
    if n == 0 then NaN else Int(DigitsValue(digits[..n], radix))
  }

  /** `parseInt`: skip white space, read one sign, strip a `0x` prefix when
      no radix was given (switching to radix 16), then read the longest run
      of digits; `NaN` when that run is empty. Trailing text is ignored. */
  function ParseInt(s: string, radix: Radix): Numeric {
    var u := Unsigned(s);
    var magnitude :=
      if radix.Unspecified? && HasHexPrefix(u) then ParseDigits(u[2..], 16) else ParseDigits(u, 10);
    match magnitude
    case NaN => NaN
    case Int(v) => if Negative(s) then Int(-v) else Int(v)
  }

  function DigitChar(d: nat): (c: char)
    requires d < 10
  {
    ('0' as int + d) as char
  }

  /** The decimal numeral of a natural number, without leading zeros. */
  function NaturalString(n: nat): (s: string)
    ensures |s| >= 1
    ensures forall i :: 0 <= i < |s| ==> '0' <= s[i] <= '9'
  {
    if n < 10 then [DigitChar(n)] else NaturalString(n / 10) + [DigitChar(n % 10)]
  }

  /** `Number::toString` of an integral number (no exponent form). */
  function DecimalString(n: int): string {
    if n < 0 then "-" + NaturalString(-n) else NaturalString(n)
  }

  /** `ToString` of a form field value, as `parseInt` applies it. */
  function ToJsString(v: InputValue): string {
    match v
    case Num(n) => DecimalString(n)
    case Str(s) => s
  }

  lemma {:induction false} NaturalStringValue(n: nat)
    ensures DigitsValue(NaturalString(n), 10) == n
  {
    var s := NaturalString(n);
    if n >= 10 {
      NaturalStringValue(n / 10);
      assert s[..|s| - 1] == NaturalString(n / 10);
    }
  }

  lemma {:induction false} DigitRunOfDigits(p: string, rest: string, radix: nat)
    requires forall i :: 0 <= i < |p| ==> IsDigit(p[i], radix)
    requires rest == [] || !IsDigit(rest[0], radix)
    ensures DigitRun(p + rest, radix) == |p|
  {
    if p != [] {
      assert (p + rest)[1..] == p[1..] + rest;
      DigitRunOfDigits(p[1..], rest, radix);
    }
  }

  /** `parseInt(String(n) + rest, 10)` is `n` whenever `rest` does not
      continue the numeral: the lenient reading stops at the first
      non-digit. */
  lemma ParseIntStopsAtNonDigit(n: int, rest: string)
    requires rest == [] || !IsDigit(rest[0], 10)
    ensures ParseInt(DecimalString(n) + rest, Decimal) == Int(n)
  {
    var m: nat := if n < 0 then -n else n;
    UnsignedOfNumeral(n, rest);
    ParseDigitsOfNumeral(m, rest);
  }

  /** A numeral has no leading white space; its sign is read off and the
      digits with what follows them remain. */
  lemma UnsignedOfNumeral(n: int, rest: string)
    ensures Negative(DecimalString(n) + rest) <==> n < 0
    ensures Unsigned(DecimalString(n) + rest) == NaturalString(if n < 0 then -n else n) + rest
  {
    var s := DecimalString(n) + rest;
    var p := NaturalString(if n < 0 then -n else n);
    if n < 0 {
      assert s == ['-'] + (p + rest);
      assert s[1..] == p + rest;
    } else {
      assert s == p + rest;
      assert '0' <= p[0] <= '9';
    }
  }

  lemma ParseDigitsOfNumeral(m: nat, rest: string)
    requires rest == [] || !IsDigit(rest[0], 10)
    ensures ParseDigits(NaturalString(m) + rest, 10) == Int(m)
  {
    var p := NaturalString(m);
    DigitRunOfDigits(p, rest, 10);
    assert (p + rest)[..|p|] == p;
    NaturalStringValue(m);
  }

  /** Without a radix `parseInt` reads the same number as with radix 10,
      unless the digits start with `0x` or `0X`. */
  lemma ParseIntRadixAgree(s: string)
    requires !HasHexPrefix(Unsigned(s))
    ensures ParseInt(s, Unspecified) == ParseInt(s, Decimal)
  {
  }

  /** Round trip: `parseInt(String(n))` is `n` for both radix arguments. */
  lemma ParseIntRoundTrip(n: int, radix: Radix)
    ensures ParseInt(DecimalString(n), radix) == Int(n)
  {
    var s := DecimalString(n);
    assert s + [] == s;
    ParseIntStopsAtNonDigit(n, []);
    if radix.Unspecified? {
      UnsignedOfNumeral(n, []);
      var p := NaturalString(if n < 0 then -n else n);
      assert Unsigned(s) == p + [] == p;
      assert !HasHexPrefix(p) by {
        if |p| >= 2 {
          assert '0' <= p[1] <= '9';
        }
      }
      ParseIntRadixAgree(s);
    }
  }

  /** A number-valued field reaches the server unchanged: parsing its
      string form gives the number back. */
  lemma ParseNumberField(n: int, radix: Radix)
    ensures ParseInt(ToJsString(Num(n)), radix) == Int(n)
  {
    ParseIntRoundTrip(n, radix);
  }

  /** Where the two call sites differ: without a radix a `0x` prefix is hex. */
  lemma HexPrefixNeedsUnspecifiedRadix()
    ensures ParseInt("0x1A", Unspecified) == Int(26)
    ensures ParseInt("0x1A", Decimal) == Int(0)
  {
    assert Unsigned("0x1A") == "0x1A";
    assert DigitRun("1A", 16) == 2 by {
      assert "1A"[1..] == "A";
      assert "A"[1..] == [];
    }
    assert "1A"[..2] == "1A";
    assert DigitsValue("1A", 16) == 26 by {
      assert "1A"[..1] == "1";
      assert "1"[..0] == [];
    }
    assert DigitRun("0x1A", 10) == 1 by {
      assert "0x1A"[1..] == "x1A";
    }
    assert "0x1A"[..1] == "0";
    assert DigitsValue("0", 10) == 0 by {
      assert "0"[..0] == [];
    }
  }

  /** `NaN` exactly when no digit follows the white space and the sign. */
  lemma ParseIntNaN(s: string)
    ensures ParseInt(s, Decimal) == NaN <==> (Unsigned(s) == [] || !IsDigit(Unsigned(s)[0], 10))
  {
  }

  /** A `0x`/`0X` prefix after the sign: with radix 10 the reading stops at
      the `x` and gives 0; without a radix the text after the prefix is read
      in base 16, and the result is `NaN` exactly when no hex digit follows. */
  lemma HexPrefixReadsBase16(s: string)
    requires HasHexPrefix(Unsigned(s))
    ensures ParseInt(s, Decimal) == Int(0)
    ensures ParseInt(s, Unspecified) == NaN <==> |Unsigned(s)| == 2 || !IsDigit(Unsigned(s)[2], 16)
    ensures ParseInt(s, Unspecified).Int? ==>
      var h := Unsigned(s)[2..];
      var v: int := DigitsValue(h[..DigitRun(h, 16)], 16);
      ParseInt(s, Unspecified).value == if Negative(s) then -v else v
  {
    var u := Unsigned(s);
    assert DigitRun(u, 10) == 1 by {
      assert u[1..][0] == u[1];
    }
    assert u[..1] == "0";
    assert DigitsValue("0", 10) == 0 by {
      assert "0"[..0] == [];
    }
  }
}

/**
 * The two number conversions the upload server relies on: `parseInt(s, 10)`,
 * which turns a chunk file name back into an index, and the template literal
 * `${n}`, which turns an index into a chunk file name.  Both follow the
 * ECMAScript definitions (section 19.2.5 of ECMA-262 for parseInt), with exact
 * integers in place of IEEE doubles.  NaN is modelled as `None`.
 */
module JsNumber {
  import opened Wrappers

  /** The StrWhiteSpaceChar set (WhiteSpace and LineTerminator) that parseInt skips. */
  predicate IsStrWhiteSpace(c: char) {
    var n := c as int;
    n == 0x09 || n == 0x0A || n == 0x0B || n == 0x0C || n == 0x0D || n == 0x20 ||
    n == 0xA0 || n == 0x1680 || (0x2000 <= n <= 0x200A) || n == 0x2028 || n == 0x2029 ||
    n == 0x202F || n == 0x205F || n == 0x3000 || n == 0xFEFF
  }

  predicate IsDigit(c: char) {
    '0' <= c <= '9'
  }

  predicate AllDigits(s: string) {
    forall i :: 0 <= i < |s| ==> IsDigit(s[i])
  }

  function DigitChar(d: nat): char
    requires d < 10
  {
    (('0' as int) + d) as char
  }

  /** Drops the longest prefix of white space. */
  function TrimStart(s: string): string {
    if s != [] && IsStrWhiteSpace(s[0]) then TrimStart(s[1..]) else s
  }

  /** The length of the longest prefix of decimal digits. */
  function LeadingDigits(s: string): (k: nat)
    ensures k <= |s|
  {
    if s != [] && IsDigit(s[0]) then 1 + LeadingDigits(s[1..]) else 0
  }

  /** The value of a string of decimal digits, most significant first. */
  function DigitsValue(s: string): int {
    if s == [] then 0 else 10 * DigitsValue(s[..|s| - 1]) + ((s[|s| - 1] as int) - ('0' as int))
  }

  /** The digit run at the front of u, read as a number; None when u does not start with a digit. */
  function DigitPrefixValue(u: string): Option<int> {
    var k := LeadingDigits(u);
    if k == 0 then None else Some(DigitsValue(u[..k]))
  }

  /** What parseInt does after the white space is gone: an optional sign, then a digit run. */
  function ParseSigned(t: string): Option<int> {
    if t != [] && t[0] == '-' then
      match DigitPrefixValue(t[1..])
      case None => None
      case Some(v) => Some(-v)
    else if t != [] && t[0] == '+' then DigitPrefixValue(t[1..])
    else DigitPrefixValue(t)
  }

  /**
   * parseInt(s, 10): skip leading white space, take an optional sign, then the
   * longest run of decimal digits; NaN when that run is empty.  Anything after
   * the run is ignored.
   */
  function ParseInt(s: string): Option<int> {
    ParseSigned(TrimStart(s))
  }

  /** The shortest decimal spelling of a natural number. */
  function NatString(n: nat): (s: string)
    ensures s != []
  {
    if n < 10 then [DigitChar(n)] else NatString(n / 10) + [DigitChar(n % 10)]
  }

  /** `${n}` for an integer-valued number: a minus sign for negatives, no leading zeros. */
  function DecimalString(n: int): (s: string)
    ensures s != []
  {
    if n < 0 then "-" + NatString(-n) else NatString(n)
  }

  /** A chunk name that `${parseInt(name, 10)}` reproduces exactly. */
  predicate IsCanonicalIndex(name: string) {
    ParseInt(name).Some? && DecimalString(ParseInt(name).value) == name
  }

  /** Digits with no leading zero. */
  predicate IsPositiveDigits(d: string) {
    d != [] && AllDigits(d) && d[0] != '0'
  }

  /** The spellings `${n}` produces: "0", or a minus sign or nothing followed by digits without a leading zero. */
  predicate IsDecimalSpelling(s: string) {
    if s != [] && s[0] == '-' then IsPositiveDigits(s[1..]) else s == "0" || IsPositiveDigits(s)
  }

  lemma {:induction false} NatStringShape(n: nat)
    ensures AllDigits(NatString(n))
    ensures NatString(n)[0] == '0' <==> n == 0
    ensures DigitsValue(NatString(n)) == n
  {
    var s := NatString(n);
    if n >= 10 {
      NatStringShape(n / 10);
      assert s[..|s| - 1] == NatString(n / 10);
      assert s[0] == NatString(n / 10)[0];
    }
  }

  lemma {:induction false} LeadingDigitsOfDigits(u: string)
    requires AllDigits(u)
    ensures LeadingDigits(u) == |u|
  {
    if u != [] {
      LeadingDigitsOfDigits(u[1..]);
    }
  }

  /** A digit string other than a run of zeros has a positive value. */
  lemma {:induction false} DigitsValuePositive(d: string)
    requires AllDigits(d) && d != []
    ensures DigitsValue(d) >= 0
    ensures d[0] != '0' ==> DigitsValue(d) > 0
  {
    if |d| > 1 {
      var p := d[..|d| - 1];
      DigitsValuePositive(p);
      assert p[0] == d[0];
    }
  }

  /** A digit string without a leading zero is the spelling of its own value. */
  lemma {:induction false} NatStringOfDigits(d: string)
    requires IsPositiveDigits(d)
    ensures DigitsValue(d) >= 0 && NatString(DigitsValue(d)) == d
  {
    DigitsValuePositive(d);
    var v := DigitsValue(d);
    if |d| > 1 {
      var p := d[..|d| - 1];
      var digit := (d[|d| - 1] as int) - ('0' as int);
      assert p[0] == d[0];
      NatStringOfDigits(p);
      DigitsValuePositive(p);
      assert 0 <= digit < 10 && v == 10 * DigitsValue(p) + digit;
      assert v / 10 == DigitsValue(p) && v % 10 == digit;
      assert DigitChar(digit) == d[|d| - 1];
      assert d == p + [d[|d| - 1]];
    }
  }

  lemma ParseDigits(u: string)
    requires u != [] && AllDigits(u)
    ensures DigitPrefixValue(u) == Some(DigitsValue(u))
  {
    LeadingDigitsOfDigits(u);
    assert u[..|u|] == u;
  }

  /** Reading back a name written as `${n}` yields n again. */
  lemma DecimalRoundTrip(n: int)
    ensures ParseInt(DecimalString(n)) == Some(n)
  {
    var m: nat := if n < 0 then -n else n;
    var digits := NatString(m);
    NatStringShape(m);
    ParseDigits(digits);
    var s := DecimalString(n);
    assert TrimStart(s) == s;
    if n < 0 {
      assert s[1..] == digits;
    }
  }

  /** Distinct indices are written under distinct names. */
  lemma DecimalInjective(m: int, n: int)
    ensures DecimalString(m) == DecimalString(n) <==> m == n
  {
    if DecimalString(m) == DecimalString(n) {
      DecimalRoundTrip(m);
      DecimalRoundTrip(n);
    }
  }

  /** Every name of the form `${n}` is canonical, and it names n. */
  lemma DecimalIsCanonical(n: int)
    ensures IsCanonicalIndex(DecimalString(n))
    ensures ParseInt(DecimalString(n)) == Some(n)
  {
    DecimalRoundTrip(n);
  }

  /** Two canonical names that parse to the same index are the same name. */
  lemma CanonicalInjective(a: string, b: string)
    requires IsCanonicalIndex(a) && IsCanonicalIndex(b)
    ensures ParseInt(a) == ParseInt(b) <==> a == b
  {
  }

  lemma CanonicalHasSpelling(s: string)
    requires IsCanonicalIndex(s)
    ensures IsDecimalSpelling(s)
  {
    var v := ParseInt(s).value;
    var m: nat := if v < 0 then -v else v;
    NatStringShape(m);
    if v < 0 {
      assert s[1..] == NatString(m);
    }
  }

  lemma PositiveSpellingIsCanonical(d: string)
    requires IsPositiveDigits(d)
    ensures IsCanonicalIndex(d)
  {
    NatStringOfDigits(d);
    ParseDigits(d);
    assert TrimStart(d) == d;
  }

  lemma NegativeSpellingIsCanonical(s: string)
    requires s != [] && s[0] == '-' && IsPositiveDigits(s[1..])
    ensures IsCanonicalIndex(s)
  {
    var d := s[1..];
    NatStringOfDigits(d);
    ParseDigits(d);
    DigitsValuePositive(d);
    assert TrimStart(s) == s;
    var v := DigitsValue(d);
    assert ParseInt(s) == Some(-v);
    assert s == "-" + d;
  }

  /**
   * A chunk name survives the trip through parseInt and back exactly when it
   * is spelled the way `${}` spells numbers: so "01", "+1", " 1", "1a" and
   * "-0" are parsed to an index but re-read under a different name.
   */
  lemma CanonicalIffSpelling(s: string)
    ensures IsCanonicalIndex(s) <==> IsDecimalSpelling(s)
  {
    if IsCanonicalIndex(s) {
      CanonicalHasSpelling(s);
    }
    if IsDecimalSpelling(s) {
      if s[0] == '-' {
        NegativeSpellingIsCanonical(s);
      } else if s == "0" {
        DecimalRoundTrip(0);
      } else {
        PositiveSpellingIsCanonical(s);
      }
    }
  }

  /** Names that parseInt reads as an index but that `${}` spells differently. */
  lemma NonCanonicalNames()
    ensures ParseInt("01") == Some(1) && ParseInt("+1") == Some(1) && ParseInt(" 1") == Some(1)
    ensures ParseInt("1a") == Some(1) && ParseInt("-0") == Some(0)
    ensures !IsCanonicalIndex("01") && !IsCanonicalIndex("+1") && !IsCanonicalIndex(" 1")
    ensures !IsCanonicalIndex("1a") && !IsCanonicalIndex("-0")
  {
    assert "01"[..2] == "01";
    assert DigitsValue("01") == 1;
    assert "1a"[..1] == "1";
    CanonicalIffSpelling("01");
    CanonicalIffSpelling("+1");
    CanonicalIffSpelling(" 1");
    CanonicalIffSpelling("1a");
    CanonicalIffSpelling("-0");
    assert ("-0")[1..] == "0";
  }
}

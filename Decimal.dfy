// Decimal text of integers: `std::to_string` on `int` (used for block
// names in src/ast/ast_codegen.cpp) and `std::stoi` (used for integer
// literals in src/ast/ast.cpp).
module Decimal {
  import opened Common

  predicate IsDigit(c: char) { '0' <= c <= '9' }

  predicate AllDigits(s: string) { forall i :: 0 <= i < |s| ==> IsDigit(s[i]) }

  function DigitChar(d: nat): (c: char)
    requires d < 10
    ensures IsDigit(c)
  {
    ('0' as int + d) as char
  }

  function DigitValue(c: char): (d: nat)
    requires IsDigit(c)
    ensures d < 10
  {
    c as int - '0' as int
  }

  /** The decimal digits of n, most significant first, without leading zeros. */
  function NatToString(n: nat): (s: string)
    ensures |s| >= 1 && AllDigits(s)
    ensures |s| > 1 ==> s[0] != '0'
  {
    if n < 10 then [DigitChar(n)] else NatToString(n / 10) + [DigitChar(n % 10)]
  }

  /** `std::to_string(int)`: a minus sign for negative values, then the digits. */
  function IntToString(i: int): string
  {
    if i < 0 then "-" + NatToString(-i) else NatToString(i)
  }

  /** The value of a string of digits. */
  function DigitsValue(s: string): nat
    requires AllDigits(s)
  {
    if s == [] then 0 else DigitsValue(s[..|s| - 1]) * 10 + DigitValue(s[|s| - 1])
  }

  /** Reading back the digits of n gives n. */
  lemma {:induction false} DigitsRoundTrip(n: nat)
    ensures DigitsValue(NatToString(n)) == n
  {
    if n >= 10 {
      DigitsRoundTrip(n / 10);
      var s := NatToString(n);
      assert s[..|s| - 1] == NatToString(n / 10);
    }
  }

  /** Distinct integers have distinct decimal text. */
  lemma IntToStringInjective(a: int, b: int)
    requires a != b
    ensures IntToString(a) != IntToString(b)
  {
    if a >= 0 && b >= 0 {
      DigitsRoundTrip(a);
      DigitsRoundTrip(b);
    } else if a < 0 && b < 0 {
      var sa := IntToString(a);
      var sb := IntToString(b);
      if sa == sb {
        assert sa[1..] == NatToString(-a);
        assert sb[1..] == NatToString(-b);
        DigitsRoundTrip(-a);
        DigitsRoundTrip(-b);
      }
    } else if a < 0 {
      assert IntToString(a)[0] == '-' && IsDigit(IntToString(b)[0]);
    } else {
      assert IntToString(b)[0] == '-' && IsDigit(IntToString(a)[0]);
    }
  }

  /** What `std::stoi` does with a string: a value, or one of its two exceptions. */
  datatype StoiResult = Parsed(value: int) | InvalidArgument | OutOfRange

  /** The characters `isspace` accepts in the C locale. */
  predicate IsSpace(c: char) { c == ' ' || c == '\t' || c == '\n' || c == '\U{0B}' || c == '\U{0C}' || c == '\r' }

  /** The number of leading characters of s satisfying IsSpace. */
  function SpacePrefix(s: string): (n: nat)
    ensures n <= |s|
    ensures forall i :: 0 <= i < n ==> IsSpace(s[i])
    ensures n < |s| ==> !IsSpace(s[n])
  {
    if s == [] || !IsSpace(s[0]) then 0 else 1 + SpacePrefix(s[1..])
  }

  /** The number of leading digits of s. */
  function DigitPrefix(s: string): (n: nat)
    ensures n <= |s| && AllDigits(s[..n])
    ensures n < |s| ==> !IsDigit(s[n])
  {
    if s == [] || !IsDigit(s[0]) then 0 else
      var r := DigitPrefix(s[1..]);
      assert s[..1 + r] == [s[0]] + s[1..][..r];
      1 + r
  }

  /**
   * `std::stoi(s)` in base 10: leading white space is skipped, one optional
   * sign is read, then the longest run of digits; the rest of the string is
   * ignored. No digits is `invalid_argument`; a value outside `int` is
   * `out_of_range`.
   */
  function Stoi(s: string): (r: StoiResult)
    ensures r.Parsed? ==> IsInt32(r.value)
  {
    var t := s[SpacePrefix(s)..];
    var neg := |t| > 0 && t[0] == '-';
    var u := if |t| > 0 && (t[0] == '-' || t[0] == '+') then t[1..] else t;
    var n := DigitPrefix(u);
    if n == 0 then InvalidArgument
    else
      var mag: int := DigitsValue(u[..n]);
      var v := if neg then -mag else mag;
      if IsInt32(v) then Parsed(v) else OutOfRange
  }

  /** The decimal text of every `int` reads back as the same value. */
  lemma StoiRoundTrip(i: int)
    requires IsInt32(i)
    ensures Stoi(IntToString(i)) == Parsed(i)
  {
    var s := IntToString(i);
    var m := if i < 0 then -i else i;
    var d := NatToString(m);
    DigitsRoundTrip(m);
    assert SpacePrefix(s) == 0;
    assert s[0..] == s;
    var u := if i < 0 then s[1..] else s;
    assert u == d;
    assert DigitPrefix(u) == |d| by {
      DigitPrefixAll(d);
    }
    assert u[..|d|] == d;
  }

  lemma {:induction false} DigitPrefixAll(s: string)
    requires AllDigits(s)
    ensures DigitPrefix(s) == |s|
  {
    if s != [] {
      DigitPrefixAll(s[1..]);
    }
  }

  /** A lexeme of digits is read as its value when that value fits in an `int`, and is out of range otherwise. */
  lemma StoiDigits(s: string)
    requires |s| > 0 && AllDigits(s)
    ensures DigitsValue(s) <= INT_MAX ==> Stoi(s) == Parsed(DigitsValue(s))
    ensures DigitsValue(s) > INT_MAX ==> Stoi(s) == OutOfRange
  {
    assert SpacePrefix(s) == 0;
    assert s[0..] == s;
    DigitPrefixAll(s);
    assert s[..|s|] == s;
  }
}

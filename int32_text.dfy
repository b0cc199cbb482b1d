/**
 * Int32.TryParse(string, out int) with NumberStyles.Integer under the
 * invariant culture: optional white space, an optional '+' or '-', one or
 * more ASCII digits, optional white space, and a value within Int32.
 */
module Int32Text {
  import opened Wrappers

  const MinInt32: int := -0x8000_0000
  const MaxInt32: int := 0x7FFF_FFFF

  /** The white space NumberStyles.AllowLeadingWhite/AllowTrailingWhite skip: U+0009-U+000D and U+0020. */
  predicate IsWhite(c: char) {
    c == ' ' || ('\t' <= c <= '\r')
  }

  predicate IsDigit(c: char) {
    '0' <= c <= '9'
  }

  predicate AllDigits(s: string) {
    forall k | 0 <= k < |s| :: IsDigit(s[k])
  }

  function TrimStart(s: string): (r: string)
    ensures |r| <= |s| && r == s[|s| - |r|..]
    ensures r != [] ==> !IsWhite(r[0])
  {
    if s != [] && IsWhite(s[0]) then TrimStart(s[1..]) else s
  }

  function TrimEnd(s: string): (r: string)
    ensures |r| <= |s| && r == s[..|r|]
    ensures r != [] ==> !IsWhite(r[|r| - 1])
  {
    if s != [] && IsWhite(s[|s| - 1]) then TrimEnd(s[..|s| - 1]) else s
  }

  /** The value of a string of decimal digits, most significant first. */
  function DigitsValue(s: string): nat
    requires AllDigits(s)
  {
    if s == [] then 0 else DigitsValue(s[..|s| - 1]) * 10 + (s[|s| - 1] as int - '0' as int)
  }

  /** The digits after an optional leading sign. */
  function Unsigned(t: string): string {
    if t != [] && (t[0] == '-' || t[0] == '+') then t[1..] else t
  }

  /** Int32.TryParse: None where TryParse returns false. */
  function ParseInt32(s: string): (r: Option<int>)
    ensures r.Some? ==> MinInt32 <= r.value <= MaxInt32
  {
    var t := TrimEnd(TrimStart(s));
    var digits := Unsigned(t);
    if digits == [] || !AllDigits(digits) then None
    else
      var v: int := if t[0] == '-' then 0 - DigitsValue(digits) as int else DigitsValue(digits);
      if MinInt32 <= v <= MaxInt32 then Some(v) else None
  }

  /** The decimal text of `n` with no leading zeros, as Int32.ToString() writes it. */
  function Decimal(n: nat): (r: string)
    ensures AllDigits(r) && r != []
  {
    if n < 10 then [('0' as int + n) as char] else Decimal(n / 10) + [('0' as int + n % 10) as char]
  }

  lemma {:induction false} DecimalValue(n: nat)
    ensures DigitsValue(Decimal(n)) == n
  {
    var r := Decimal(n);
    if n >= 10 {
      DecimalValue(n / 10);
      assert r[..|r| - 1] == Decimal(n / 10);
    }
  }

  /** A run of digits has no white space to trim and no sign. */
  lemma DigitsUntouched(d: string)
    requires d != [] && AllDigits(d)
    ensures TrimEnd(TrimStart(d)) == d && Unsigned(d) == d && d[0] != '-'
  {
    assert IsDigit(d[0]);
    assert TrimStart(d) == d;
    assert IsDigit(d[|d| - 1]);
  }

  /** A plain run of digits whose value fits parses to that value. */
  lemma ParseDigits(d: string)
    requires d != [] && AllDigits(d) && DigitsValue(d) <= MaxInt32
    ensures ParseInt32(d).Some? && ParseInt32(d).value == DigitsValue(d)
  {
    DigitsUntouched(d);
  }

  /** Text without surrounding white space or a sign that is not all digits is rejected. */
  lemma NonDigitsRejected(s: string)
    requires s != [] && !IsWhite(s[0]) && !IsWhite(s[|s| - 1]) && s[0] != '-' && s[0] != '+'
    requires !AllDigits(s)
    ensures ParseInt32(s) == None
  {
    assert TrimStart(s) == s;
  }

  /** A leading zero does not change the value of a run of digits. */
  lemma {:induction false} LeadingZero(d: string)
    requires AllDigits(d)
    ensures AllDigits("0" + d) && DigitsValue("0" + d) == DigitsValue(d)
  {
    if d != [] {
      LeadingZero(d[..|d| - 1]);
      assert ("0" + d)[..|d|] == "0" + d[..|d| - 1];
    }
  }

  /** The decimal text of n after a leading zero parses back to n. */
  lemma ZeroPaddedRoundTrip(n: nat)
    requires n <= MaxInt32
    ensures ParseInt32("0" + Decimal(n)) == Some(n)
  {
    DecimalValue(n);
    LeadingZero(Decimal(n));
    ParseDigits("0" + Decimal(n));
  }

  /** Writing a width in decimal and parsing it back gives the width. */
  lemma DecimalRoundTrip(n: nat)
    requires n <= MaxInt32
    ensures ParseInt32(Decimal(n)) == Some(n)
  {
    DecimalValue(n);
    ParseDigits(Decimal(n));
  }
}

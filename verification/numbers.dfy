/**
 * Decimal parsing of `@SchemaFieldNumber` values, after `java.lang.Integer.parseInt`:
 * an optional `-` or `+`, then one or more decimal digits, with a value that fits in 32 bits.
 * `FormatInt` is its inverse, after `Integer.toString`.
 */
module Numbers {
  import opened Wrappers

  const MinInt: int := -0x8000_0000
  const MaxInt: int := 0x7fff_ffff

  predicate InIntRange(n: int) {
    MinInt <= n <= MaxInt
  }

  predicate IsDigit(c: char) {
    '0' <= c <= '9'
  }

  predicate AllDigits(s: string) {
    forall i :: 0 <= i < |s| ==> IsDigit(s[i])
  }

  function DigitValue(c: char): nat
    requires IsDigit(c)
  {
    (c as int) - ('0' as int)
  }

  function DigitChar(d: nat): (c: char)
    requires d < 10
    ensures IsDigit(c) && DigitValue(c) == d
  {
    ('0' as int + d) as char
  }

  /** The value of a string of decimal digits, most significant first. */
  function DigitsValue(s: string): nat
    requires AllDigits(s)
  {
    if |s| == 0 then 0 else 10 * DigitsValue(s[..|s| - 1]) + DigitValue(s[|s| - 1])
  }

  /** `Integer.parseInt(s)`, with `None` for a NumberFormatException. */
  function ParseInt(s: string): (r: Option<int>)
    ensures r.Some? ==> InIntRange(r.value)
  {
    if |s| == 0 then None
    else
      var signed := s[0] == '-' || s[0] == '+';
      var digits := if signed then s[1..] else s;
      if |digits| == 0 || !AllDigits(digits) then None
      else
        var magnitude: int := DigitsValue(digits);
        var v := if s[0] == '-' then -magnitude else magnitude;
        if InIntRange(v) then Some(v) else None
  }

  /** The decimal digits of `n` without leading zeros. */
  function NatDigits(n: nat): (s: string)
    ensures 0 < |s| && AllDigits(s)
    ensures DigitsValue(s) == n
    ensures |s| > 1 ==> s[0] != '0'
  {
    if n < 10 then [DigitChar(n)]
    else
      var prefix := NatDigits(n / 10);
      var s := prefix + [DigitChar(n % 10)];
      assert s[..|s| - 1] == prefix;
      s
  }

  /** `Integer.toString(n)`. */
  function FormatInt(n: int): string {
    if n < 0 then "-" + NatDigits(-n) else NatDigits(n)
  }

  /** Every 32-bit integer parses back from its decimal form. */
  lemma ParseFormatRoundTrip(n: int)
    requires InIntRange(n)
    ensures ParseInt(FormatInt(n)) == Some(n)
  {
  }

  /** A string of digits without a leading zero, or the single digit `0`. */
  predicate CanonicalDigits(s: string) {
    0 < |s| && AllDigits(s) && (s[0] == '0' ==> |s| == 1)
  }

  /** The form `Integer.toString` produces: canonical digits, optionally after a `-` that is not before `0`. */
  predicate Canonical(s: string) {
    || CanonicalDigits(s)
    || (0 < |s| && s[0] == '-' && CanonicalDigits(s[1..]) && s[1] != '0')
  }

  /** Digits that do not start with `0` have a positive value. */
  lemma {:induction false} LeadingDigitPositive(s: string)
    requires 0 < |s| && AllDigits(s) && s[0] != '0'
    ensures DigitsValue(s) > 0
  {
    if |s| > 1 {
      LeadingDigitPositive(s[..|s| - 1]);
    }
  }

  /** Canonical digits are the decimal form of their own value. */
  lemma {:induction false} CanonicalDigitsRoundTrip(s: string)
    requires CanonicalDigits(s)
    ensures NatDigits(DigitsValue(s)) == s
  {
    var n := DigitsValue(s);
    if |s| > 1 {
      var p := s[..|s| - 1];
      LeadingDigitPositive(p);
      CanonicalDigitsRoundTrip(p);
      assert n / 10 == DigitsValue(p) && n % 10 == DigitValue(s[|s| - 1]);
      assert s == p + [s[|s| - 1]];
    }
  }

  /** A canonical numeral that parses is exactly the decimal form of its value. */
  lemma {:induction false} CanonicalRoundTrip(s: string)
    requires Canonical(s)
    ensures ParseInt(s).Some? ==> FormatInt(ParseInt(s).value) == s
  {
    if ParseInt(s).Some? {
      if s[0] == '-' {
        LeadingDigitPositive(s[1..]);
        CanonicalDigitsRoundTrip(s[1..]);
        assert s == "-" + s[1..];
      } else {
        CanonicalDigitsRoundTrip(s);
      }
    }
  }

  /**
   * The value of any numeral that parses: its digits after an optional sign, negated after `-`,
   * whether or not it is canonical.
   */
  lemma ParsedValue(s: string)
    requires ParseInt(s).Some?
    ensures
      var digits := if s[0] == '-' || s[0] == '+' then s[1..] else s;
      && 0 < |digits| && AllDigits(digits)
      && ParseInt(s).value == (if s[0] == '-' then -1 else 1) * DigitsValue(digits)
  {
  }

  /** Conversely, an optional sign followed by digits whose signed value fits in 32 bits parses to that value. */
  lemma SignedDigitsParse(s: string)
    requires 0 < |s|
    requires
      var digits := if s[0] == '-' || s[0] == '+' then s[1..] else s;
      0 < |digits| && AllDigits(digits) && InIntRange((if s[0] == '-' then -1 else 1) * DigitsValue(digits))
    ensures
      var digits := if s[0] == '-' || s[0] == '+' then s[1..] else s;
      ParseInt(s) == Some((if s[0] == '-' then -1 else 1) * DigitsValue(digits))
  {
  }

  /** Leading zeros, a `+` sign and `-0` are accepted, as `Integer.parseInt` accepts them. */
  lemma ParseAcceptsNonCanonicalNumerals()
    ensures ParseInt("007") == Some(7)
    ensures ParseInt("+7") == Some(7)
    ensures ParseInt("-0") == Some(0)
  {
    assert DigitsValue("00") == 0;
    assert DigitsValue("007"[..2]) == 0;
    assert DigitsValue("+7"[1..]) == 7;
    assert DigitsValue("-0"[1..]) == 0;
  }

  /** The empty string and a sign without digits are rejected. */
  lemma ParseRejectsEmptyNumerals()
    ensures ParseInt("") == None
    ensures ParseInt("-") == None
    ensures ParseInt("+") == None
  {
  }
}

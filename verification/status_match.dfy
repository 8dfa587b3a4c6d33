/** Status-code matching (`checkStatusCode` in exporter.go): the code is
    rendered in decimal as `strconv.Itoa` does and compared position by
    position with a pattern in which a lowercase 'x' matches any character. */
module StatusMatch {

  /** The decimal digit character for 0 <= d < 10. */
  function DigitChar(d: nat): (c: char)
    requires d < 10
    ensures '0' <= c <= '9'
  {
    (48 + d) as char
  }

  predicate IsDigit(c: char) {
    '0' <= c <= '9'
  }

  predicate AllDigits(s: string) {
    forall i :: 0 <= i < |s| ==> IsDigit(s[i])
  }

  /** The value of a digit character: the inverse of DigitChar. */
  function DigitValue(c: char): (d: nat)
    requires IsDigit(c)
    ensures d < 10 && DigitChar(d) == c
  {
    c as int - 48
  }

  /** Decimal representation of a natural number, without leading zeros. */
  function NatToString(n: nat): string {
    if n < 10 then [DigitChar(n)] else NatToString(n / 10) + [DigitChar(n % 10)]
  }

  /** The rendering is a non-empty string of digits with no leading zero. */
  lemma {:induction false} NatToStringDigits(n: nat)
    ensures var s := NatToString(n);
      |s| >= 1 && AllDigits(s) && (n >= 10 ==> s[0] != '0')
  {
    if n >= 10 {
      NatToStringDigits(n / 10);
    }
  }

  /** `strconv.Itoa`: a leading '-' for negative numbers, then the digits. */
  function Itoa(n: int): string {
    if n < 0 then "-" + NatToString(-n) else NatToString(n)
  }

  /** The rendering starts with a digit exactly for a non-negative number,
      and every later character is a digit. */
  lemma ItoaShape(n: int)
    ensures var s := Itoa(n);
      |s| >= 1 && (n >= 0 <==> IsDigit(s[0])) && AllDigits(s[1..])
  {
    NatToStringDigits(if n < 0 then -n else n);
  }

  /** Reads a string of digits back as a number (the partner of NatToString). */
  function ParseNat(s: string): nat
    requires AllDigits(s)
  {
    if s == [] then 0 else ParseNat(s[..|s| - 1]) * 10 + DigitValue(s[|s| - 1])
  }

  /** Reads an optionally '-'-prefixed digit string back as an integer. */
  function ParseInt(s: string): int
    requires |s| >= 1
    requires s[0] == '-' || IsDigit(s[0])
    requires AllDigits(s[1..])
  {
    if s[0] == '-' then -(ParseNat(s[1..]) as int) else ParseNat(s)
  }

  /** Reading back the digits of a natural number gives the number. */
  lemma {:induction false} NatToStringRoundTrip(n: nat)
    ensures AllDigits(NatToString(n)) && ParseNat(NatToString(n)) == n
  {
    NatToStringDigits(n);
    var s := NatToString(n);
    if n < 10 {
      assert s[..|s| - 1] == [];
    } else {
      NatToStringRoundTrip(n / 10);
      assert s[..|s| - 1] == NatToString(n / 10);
      assert s[|s| - 1] == DigitChar(n % 10);
    }
  }

  /** `strconv.Itoa` loses no information: its output is a sign and digits,
      and parsing it gives the number back. */
  lemma ItoaRoundTrip(n: int)
    ensures var s := Itoa(n);
      |s| >= 1 && (s[0] == '-' || IsDigit(s[0])) && AllDigits(s[1..]) && ParseInt(s) == n
  {
    ItoaShape(n);
    if n < 0 {
      var digits := NatToString(-n);
      assert Itoa(n)[1..] == digits;
      NatToStringRoundTrip(-n);
    } else {
      NatToStringRoundTrip(n);
    }
  }

  /** Status codes are three-digit integers (section 15 of RFC 9110); such a
      code is rendered as exactly its three digits. */
  lemma ThreeDigitItoa(code: int)
    requires 100 <= code <= 999
    ensures Itoa(code) == [DigitChar(code / 100), DigitChar(code / 10 % 10), DigitChar(code % 10)]
  {
    var tens := code / 10;
    assert tens / 10 == code / 100;
    assert 10 <= tens < 100 && code / 100 < 10;
    assert NatToString(tens) == [DigitChar(tens / 10)] + [DigitChar(tens % 10)];
    assert NatToString(code) == NatToString(tens) + [DigitChar(code % 10)];
  }

  /** The matching rule on text: same length, and every pattern position is
      the wildcard 'x' or equals the text's character at that position. */
  predicate PatternAccepts(pattern: string, text: string) {
    |pattern| == |text| && forall i :: 0 <= i < |text| ==> pattern[i] == 'x' || pattern[i] == text[i]
  }

  /** A status code matches a pattern when the pattern accepts its decimal form. */
  predicate Matches(statusCode: int, pattern: string) {
    PatternAccepts(pattern, Itoa(statusCode))
  }

  /** `checkStatusCode`: the exact-equality fast path, the length check, then a
      position-by-position loop that stops at the first mismatch. */
  method CheckStatusCode(statusCode: int, expected: string) returns (ok: bool)
    ensures ok <==> Matches(statusCode, expected)
    ensures expected == Itoa(statusCode) ==> ok
    ensures |expected| != |Itoa(statusCode)| ==> !ok
  {
    var strStatusCode := Itoa(statusCode);
    if strStatusCode == expected {
      return true;
    }
    if |expected| != |strStatusCode| {
      return false;
    }
    ok := true;
    var i := 0;
    while i < |strStatusCode|
      invariant 0 <= i <= |strStatusCode|
      invariant ok
      invariant forall j :: 0 <= j < i ==> expected[j] == 'x' || expected[j] == strStatusCode[j]
    {
      if expected[i] == 'x' {
        i := i + 1;
        continue;
      }
      if expected[i] == strStatusCode[i] {
        i := i + 1;
        continue;
      } else {
        ok := false;
        break;
      }
    }
  }

  /** For a three-digit code the rule is a per-digit comparison. */
  lemma MatchesThreeDigit(code: int, pattern: string)
    requires 100 <= code <= 999
    ensures Matches(code, pattern) <==>
      |pattern| == 3 &&
      (pattern[0] == 'x' || pattern[0] == DigitChar(code / 100)) &&
      (pattern[1] == 'x' || pattern[1] == DigitChar(code / 10 % 10)) &&
      (pattern[2] == 'x' || pattern[2] == DigitChar(code % 10))
  {
    ThreeDigitItoa(code);
  }

  /** Only lowercase 'x' is a wildcard: a pattern holding an uppercase 'X'
      never matches a non-negative code. */
  lemma UppercaseXIsLiteral(code: int, pattern: string, k: nat)
    requires code >= 0
    requires k < |pattern| && pattern[k] == 'X'
    ensures !Matches(code, pattern)
  {
    var s := Itoa(code);
    ItoaShape(code);
    if |pattern| == |s| && k > 0 {
      assert s[1..][k - 1] == s[k];
    }
  }

  /** Worked examples of the matcher. */
  lemma MatcherExamples()
    ensures Matches(204, "2xx") && Matches(200, "200")
    ensures !Matches(404, "2xx") && !Matches(200, "20") && !Matches(200, "2XX")
  {
    MatchesThreeDigit(204, "2xx");
    MatchesThreeDigit(200, "200");
    MatchesThreeDigit(404, "2xx");
    MatchesThreeDigit(200, "20");
    UppercaseXIsLiteral(200, "2XX", 1);
  }
}

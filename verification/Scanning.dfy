/** Decimal numbers as fmt prints and scans them. */
module Scanning {
  import opened Prelude

  predicate IsDigit(c: char) { '0' <= c <= '9' }

  predicate AllDigits(s: string) { forall i :: 0 <= i < |s| ==> IsDigit(s[i]) }

  function Digit(n: nat): char
    requires n < 10
  {
    ('0' as int + n) as char
  }

  /** %d of a natural number. */
  function Decimal(n: nat): (s: string)
    ensures s != "" && AllDigits(s)
  {
    if n < 10 then [Digit(n)] else Decimal(n / 10) + [Digit(n % 10)]
  }

  /** %02d of a natural number. */
  function Padded(n: nat): (s: string)
    ensures s != "" && AllDigits(s)
  {
    if n < 10 then ['0', Digit(n)] else Decimal(n)
  }

  function Value(digits: string): nat
    requires AllDigits(digits)
  {
    if digits == "" then 0
    else Value(digits[..|digits| - 1]) * 10 + (digits[|digits| - 1] as int - '0' as int)
  }

  lemma {:induction false} ValueOfDecimal(n: nat)
    ensures Value(Decimal(n)) == n
  {
    if n >= 10 {
      ValueOfDecimal(n / 10);
      var s := Decimal(n);
      assert s[..|s| - 1] == Decimal(n / 10);
    } else {
      assert Decimal(n)[..0] == "";
    }
  }

  lemma ValueOfPadded(n: nat)
    ensures Value(Padded(n)) == n
  {
    ValueOfDecimal(n);
    if n < 10 {
      var s := Padded(n);
      assert s[..1] == ['0'] && ['0'][..0] == "";
      assert Value(['0']) == 0;
    }
  }

  function TakeDigits(s: string): (digits: string)
    ensures AllDigits(digits) && digits <= s
  {
    if s == "" || !IsDigit(s[0]) then "" else [s[0]] + TakeDigits(s[1..])
  }

  lemma {:induction false} TakesAllDigits(digits: string, rest: string)
    requires AllDigits(digits) && (rest == "" || !IsDigit(rest[0]))
    ensures TakeDigits(digits + rest) == digits
    decreases |digits|
  {
    if digits == "" {
      assert digits + rest == rest;
    } else {
      TakesAllDigits(digits[1..], rest);
      assert (digits + rest)[1..] == digits[1..] + rest;
    }
  }

  predicate IsBlank(c: char) { c == ' ' || c == '\t' || c == '\r' || c == '\U{0B}' || c == '\U{0C}' }

  function SkipBlanks(s: string): string {
    if s != "" && IsBlank(s[0]) then SkipBlanks(s[1..]) else s
  }

  /** %d into an unsigned variable that holds values below `limit`: no sign, at least one digit, no overflow. */
  function ScanUint(s: string, limit: nat): Option<(nat, string)> {
    var s1 := SkipBlanks(s);
    var digits := TakeDigits(s1);
    if digits == "" || Value(digits) >= limit then None else Some((Value(digits), s1[|digits|..]))
  }

  const INT_LIMIT: nat := 0x8000_0000_0000_0000

  /** %d into an int: a sign may come first. */
  function ScanInt(s: string): Option<(int, string)> {
    var s1 := SkipBlanks(s);
    var signed := s1 != "" && (s1[0] == '-' || s1[0] == '+');
    var s2 := if signed then s1[1..] else s1;
    var digits := TakeDigits(s2);
    if digits == "" then None
    else if signed && s1[0] == '-' then
      if Value(digits) > INT_LIMIT then None else var v: int := Value(digits); Some((-v, s2[|digits|..]))
    else
      if Value(digits) >= INT_LIMIT then None else Some((Value(digits), s2[|digits|..]))
  }

  /** A literal of the format must match exactly. */
  function Literal(s: string, literal: string): Option<string> {
    if literal <= s then Some(s[|literal|..]) else None
  }

  /** Digits in front of something else scan as their value and leave it. */
  lemma DigitsScan(digits: string, rest: string, limit: nat)
    requires digits != "" && AllDigits(digits) && (rest == "" || !IsDigit(rest[0]))
    ensures Value(digits) < limit ==> ScanUint(digits + rest, limit) == Some((Value(digits), rest))
    ensures Value(digits) < INT_LIMIT ==> ScanInt(digits + rest) == Some((Value(digits) as int, rest))
  {
    TakesAllDigits(digits, rest);
    assert (digits + rest)[0] == digits[0] && IsDigit(digits[0]);
    assert SkipBlanks(digits + rest) == digits + rest;
    assert (digits + rest)[|digits|..] == rest;
  }

  lemma LiteralMatches(literal: string, rest: string)
    ensures Literal(literal + rest, literal) == Some(rest)
  {
    assert (literal + rest)[|literal|..] == rest;
  }
}

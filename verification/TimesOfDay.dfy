/** Times of day as text, and the quiet-hours test that compares them as text. */
module TimesOfDay {
  import opened Prelude
  import opened Scanning

  const DAY: nat := 86_400

  /** 64-bit wrap-around. */
  function Wrap(x: int): int { (x + 0x8000_0000_0000_0000) % 0x1_0000_0000_0000_0000 - 0x8000_0000_0000_0000 }

  // ---- parse and print ----

  function Micros(h: int, m: int, s: int): int { Wrap((h * 3600 + m * 60 + s) * SECOND) }

  /** "HH:MM" or "HH:MM:SS" in microseconds; an unreadable third part counts as zero, anything shorter as NULL. */
  function TimeOfDay(s: Option<string>): Option<int> {
    if s.None? || s.value == "" then None
    else
      var h := ScanInt(s.value);
      if h.None? || Literal(h.value.1, ":").None? then None
      else
        var m := ScanInt(Literal(h.value.1, ":").value);
        if m.None? then None
        else
          var sec := if Literal(m.value.1, ":").None? then None else ScanInt(Literal(m.value.1, ":").value);
          Some(Micros(h.value.0, m.value.0, if sec.Some? then sec.value.0 else 0))
  }

  function Clock(seconds: nat): string {
    Padded(seconds / 3600) + (":" + (Padded(seconds % 3600 / 60) + (":" + Padded(seconds % 60))))
  }

  function TimeOfDayStr(t: Option<nat>): Option<string> {
    if t.None? then None else Some(Clock(t.value / SECOND))
  }

  /** Printing and parsing again drops the fraction of the second and nothing else, NULL included. */
  lemma PrintParse(t: Option<nat>)
    requires t.Some? ==> t.value < INT_LIMIT
    ensures TimeOfDay(TimeOfDayStr(t)) == if t.None? then None else Some(t.value / SECOND * SECOND)
  {
    if t.Some? {
      var total := t.value / SECOND;
      var r1, r2 := ClockScans(total);
      LiteralMatches(":", r1);
      LiteralMatches(":", r2);
      Recombined(t.value);
      hide ScanInt, Literal, Clock, Micros;
    }
  }

  /** Hours and minutes alone are taken as that minute's first second, whatever stands in the place of the seconds, as long as
      it is not a number. */
  lemma MinutesAreEnough(h: nat, m: nat, rest: string)
    requires (h * 3600 + m * 60) * SECOND < INT_LIMIT
    requires rest == "" || (rest[0] == ':' && ScanInt(rest[1..]).None?)
    ensures TimeOfDay(Some(Padded(h) + (":" + (Padded(m) + rest)))) == Some((h * 60 + m) * 60_000_000)
  {
    ValueOfPadded(h);
    ValueOfPadded(m);
    MinutesFit(h, m);
    hide Padded, Value, Wrap;
    var tail := Padded(m) + rest;
    Scans(Padded(h), ":" + tail);
    Scans(Padded(m), rest);
    LiteralMatches(":", tail);
    hide ScanInt;
    if rest != "" {
      assert rest == ":" + rest[1..];
      LiteralMatches(":", rest[1..]);
    }
    NoWrap((h * 3600 + m * 60 + 0) * SECOND);
  }

  lemma MinutesFit(h: nat, m: nat)
    requires (h * 3600 + m * 60) * SECOND < INT_LIMIT
    ensures h < INT_LIMIT && m < INT_LIMIT
  {
  }

  lemma NoWrap(x: nat)
    requires x < INT_LIMIT
    ensures Wrap(x) == x
  {
  }

  lemma Recombined(t: nat)
    requires t < INT_LIMIT
    ensures var total := t / SECOND;
      Micros(total / 3600, total % 3600 / 60, total % 60) == t / SECOND * SECOND
  {
    var total := t / SECOND;
    Parts(total);
    assert 0 <= total * SECOND <= t;
    NoWrap(total * SECOND);
  }

  /** The three numbers of a clock text scan one after the other. */
  lemma ClockScans(total: nat) returns (r1: string, r2: string)
    requires total < INT_LIMIT
    ensures Clock(total) != ""
    ensures ScanInt(Clock(total)) == Some((total / 3600 as int, ":" + r1))
    ensures ScanInt(r1) == Some((total % 3600 / 60 as int, ":" + r2))
    ensures ScanInt(r2) == Some((total % 60 as int, ""))
  {
    var h, m, s := Padded(total / 3600), Padded(total % 3600 / 60), Padded(total % 60);
    ValueOfPadded(total / 3600);
    ValueOfPadded(total % 3600 / 60);
    ValueOfPadded(total % 60);
    hide ScanInt, Padded, Value, IsDigit, AllDigits;
    r2 := s;
    r1 := m + (":" + s);
    Scans(h, ":" + r1);
    Scans(m, ":" + r2);
    Scans(s, "");
    assert s + "" == s;
  }

  lemma Scans(digits: string, rest: string)
    requires digits != "" && AllDigits(digits) && Value(digits) < INT_LIMIT && (rest == "" || rest[0] == ':')
    ensures ScanInt(digits + rest) == Some((Value(digits) as int, rest))
  {
    DigitsScan(digits, rest, 0);
  }

  // ---- text order ----

  /** Go's < on strings. */
  predicate Before(a: string, b: string)
    decreases |a|
  {
    b != "" && (a == "" || a[0] < b[0] || (a[0] == b[0] && Before(a[1..], b[1..])))
  }

  lemma {:induction false} BeforeByChunks(p: string, q: string, a: string, b: string)
    requires |p| == |q|
    ensures Before(p + a, q + b) <==> Before(p, q) || (p == q && Before(a, b))
    decreases |p|
  {
    if p == "" {
      assert p + a == a && q + b == b;
    } else {
      BeforeByChunks(p[1..], q[1..], a, b);
      assert (p + a)[1..] == p[1..] + a && (q + b)[1..] == q[1..] + b;
      assert p == [p[0]] + p[1..] && q == [q[0]] + q[1..];
    }
  }

  lemma TwoDigits(m: nat)
    requires m < 100
    ensures Padded(m) == [Digit(m / 10), Digit(m % 10)]
  {
    if m >= 10 {
      assert Decimal(m / 10) == [Digit(m / 10)];
    } else {
      assert m / 10 == 0 && m % 10 == m;
    }
  }

  lemma TwoDigitsOrder(m: nat, n: nat)
    requires m < 100 && n < 100
    ensures |Padded(m)| == |Padded(n)| == 2
    ensures Before(Padded(m), Padded(n)) <==> m < n
    ensures Padded(m) == Padded(n) <==> m == n
  {
    TwoDigits(m);
    TwoDigits(n);
    hide Padded;
    var p, q := [Digit(m % 10)], [Digit(n % 10)];
    assert Padded(m)[1..] == p && Padded(n)[1..] == q && p[1..] == "" && q[1..] == "";
    assert Padded(m)[0] == Digit(m / 10) && Padded(n)[0] == Digit(n / 10);
    assert Padded(m)[1] == Digit(m % 10) && Padded(n)[1] == Digit(n % 10);
    assert Before(p, q) <==> m % 10 < n % 10;
  }

  predicate Lexicographic(h: nat, m: nat, s: nat, h': nat, m': nat, s': nat) {
    h < h' || (h == h' && (m < m' || (m == m' && s < s')))
  }

  lemma PartsOrder(a: nat, b: nat)
    ensures Lexicographic(a / 3600, a % 3600 / 60, a % 60, b / 3600, b % 3600 / 60, b % 60) <==> a < b
  {
    Parts(a);
    Parts(b);
  }

  lemma Parts(a: nat)
    ensures a == a / 3600 * 3600 + a % 3600 / 60 * 60 + a % 60
    ensures a % 3600 / 60 < 60 && a % 60 < 60
  {
  }

  /** Clock texts, while the hours have two digits, are ordered as their times are; 24:00:00 included. */
  lemma ClockOrder(a: nat, b: nat)
    requires a < 100 * 3600 && b < 100 * 3600
    ensures Before(Clock(a), Clock(b)) <==> a < b
  {
    PartsOrder(a, b);
    PartsDecide(a / 3600, a % 3600 / 60, a % 60, b / 3600, b % 3600 / 60, b % 60);
  }

  lemma PartsDecide(h: nat, m: nat, s: nat, h': nat, m': nat, s': nat)
    requires h < 100 && m < 100 && s < 100 && h' < 100 && m' < 100 && s' < 100
    ensures Before(Padded(h) + (":" + (Padded(m) + (":" + Padded(s)))), Padded(h') + (":" + (Padded(m') + (":" + Padded(s')))))
      <==> Lexicographic(h, m, s, h', m', s')
  {
    TwoDigitsOrder(h, h');
    TwoDigitsOrder(m, m');
    TwoDigitsOrder(s, s');
    hide Before, Padded;
    var t, t' := Padded(m) + (":" + Padded(s)), Padded(m') + (":" + Padded(s'));
    BeforeByChunks(Padded(h), Padded(h'), ":" + t, ":" + t');
    Colon(t, t');
    BeforeByChunks(Padded(m), Padded(m'), ":" + Padded(s), ":" + Padded(s'));
    Colon(Padded(s), Padded(s'));
  }

  lemma Colon(a: string, b: string)
    ensures Before(":" + a, ":" + b) <==> Before(a, b)
  {
    assert (":" + a)[1..] == a && (":" + b)[1..] == b;
  }

  // ---- quiet hours ----

  predicate IsQuietHours(start: Option<string>, end: Option<string>, current: string) {
    if start.None? || end.None? then false
    else if Before(end.value, start.value) then !Before(current, start.value) || Before(current, end.value)
    else !Before(current, start.value) && Before(current, end.value)
  }

  /** The time lies in the half-open interval from a to b on the clock's circle. */
  predicate OnTheCircle(a: nat, b: nat, n: nat) { (n - a) % DAY < (b - a) % DAY }

  function ClockText(t: Option<nat>): Option<string> {
    if t.None? then None else Some(Clock(t.value))
  }

  /** With both bounds set the comparison of texts is membership in a circular interval, midnight wrap included, and with one
      missing no time is quiet. The one exception is 00:00:00 to 24:00:00, which the texts take for the whole day and the circle
      for an empty interval. */
  lemma QuietHoursAreCircular(a: Option<nat>, b: Option<nat>, n: nat)
    requires (a.Some? ==> a.value <= DAY) && (b.Some? ==> b.value <= DAY) && n < DAY
    ensures IsQuietHours(ClockText(a), ClockText(b), Clock(n)) <==>
      a.Some? && b.Some? && (OnTheCircle(a.value, b.value, n) || (a.value == 0 && b.value == 86_400))
  {
    if a.Some? && b.Some? {
      QuietBetween(a.value, b.value, n);
    }
    hide Clock, OnTheCircle;
  }

  lemma QuietBetween(a: nat, b: nat, n: nat)
    requires a <= DAY && b <= DAY && n < DAY
    ensures IsQuietHours(Some(Clock(a)), Some(Clock(b)), Clock(n)) <==> OnTheCircle(a, b, n) || (a == 0 && b == DAY)
  {
    ClockOrder(b, a);
    ClockOrder(n, a);
    ClockOrder(n, b);
    hide Clock, Before;
    Circle(a, b, n);
  }

  lemma Circle(a: nat, b: nat, n: nat)
    requires a <= DAY && b <= DAY && n < DAY
    ensures (if b < a then n >= a || n < b else a <= n < b) <==> OnTheCircle(a, b, n) || (a == 0 && b == DAY)
  {
    assert (n - a) % DAY == if n < a then n - a + DAY else n - a;
    assert (b - a) % DAY == if b < a then (b - a + DAY) % DAY else if b - a == DAY then 0 else b - a;
  }
}

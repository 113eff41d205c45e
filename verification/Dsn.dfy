/** Connection strings: what BuildDSN writes, and a reader of keyword/value strings as section 34.1.1.1 of the
    PostgreSQL 16 manual describes them. */
module Dsn {
  import opened Prelude
  import opened Strings

  datatype Credentials = Credentials(host: string, port: string, user: string, password: string, dbName: string, sslMode: string)

  // ---- writing ----

  function Quote(v: string): string {
    "'" + ReplaceAll(ReplaceAll(v, "\\", "\\\\"), "'", "\\'") + "'"
  }

  function BuildDSN(c: Credentials, extra: seq<string>): string {
    Line(Settings(c)) + if extra == [] then "" else " " + Join(extra, " ")
  }

  datatype Setting = Setting(keyword: string, value: string)

  function Settings(c: Credentials): seq<Setting> {
    [Setting("host", c.host), Setting("port", c.port), Setting("user", c.user),
     Setting("password", c.password), Setting("dbname", c.dbName), Setting("sslmode", c.sslMode)]
  }

  /** keyword=value, every value quoted, one space between two settings. */
  function Line(settings: seq<Setting>): string {
    if settings == [] then ""
    else settings[0].keyword + "=" + Quote(settings[0].value) + if |settings| == 1 then "" else " " + Line(settings[1..])
  }

  // ---- reading ----

  predicate IsSpace(c: char) { c == ' ' || c == '\t' || c == '\n' || c == '\r' || c == '\U{0B}' || c == '\U{0C}' }

  function SkipSpaces(s: string): (rest: string)
    ensures |rest| <= |s|
  {
    if s != "" && IsSpace(s[0]) then SkipSpaces(s[1..]) else s
  }

  /** A keyword ends at the equal sign or at a space. */
  function Keyword(s: string): (r: (string, string))
    ensures |r.0| + |r.1| == |s|
  {
    if s == "" || s[0] == '=' || IsSpace(s[0]) then ("", s)
    else var (name, rest) := Keyword(s[1..]); ([s[0]] + name, rest)
  }

  /** After the opening quote: up to the next bare quote, a backslash taking the next character as it is. */
  function Quoted(s: string): (r: Option<(string, string)>)
    ensures r.Some? ==> |r.value.1| < |s|
  {
    if s == "" then None
    else if s[0] == '\'' then Some(("", s[1..]))
    else if s[0] == '\\' then
      if |s| == 1 then None
      else
        var r := Quoted(s[2..]);
        if r.None? then None else Some(([s[1]] + r.value.0, r.value.1))
    else
      var r := Quoted(s[1..]);
      if r.None? then None else Some(([s[0]] + r.value.0, r.value.1))
  }

  /** Up to the next space. */
  function Bare(s: string): (r: (string, string))
    ensures |r.1| <= |s|
  {
    if s == "" || IsSpace(s[0]) then ("", s)
    else if s[0] == '\\' then
      if |s| == 1 then ("", "") else var (v, rest) := Bare(s[2..]); ([s[1]] + v, rest)
    else var (v, rest) := Bare(s[1..]); ([s[0]] + v, rest)
  }

  function Parse(s: string): Option<seq<Setting>>
    decreases |s|
  {
    var s1 := SkipSpaces(s);
    if s1 == "" then Some([])
    else
      var (name, s2) := Keyword(s1);
      var s3 := SkipSpaces(s2);
      if name == "" || s3 == "" || s3[0] != '=' then None
      else
        var s4 := SkipSpaces(s3[1..]);
        var value := if s4 != "" && s4[0] == '\'' then Quoted(s4[1..]) else Some(Bare(s4));
        if value.None? then None
        else Prepend([Setting(name, value.value.0)], Parse(value.value.1))
  }

  function Prepend(settings: seq<Setting>, rest: Option<seq<Setting>>): Option<seq<Setting>> {
    if rest.None? then None else Some(settings + rest.value)
  }

  // ---- one escape ----

  /** The manual's escape: a backslash before each quote and each backslash. */
  function Escape(v: string): string {
    if v == "" then ""
    else (if v[0] == '\'' || v[0] == '\\' then ['\\', v[0]] else [v[0]]) + Escape(v[1..])
  }

  /** The two replacements in turn are the one escape at once. */
  lemma {:induction false} TwoReplacementsAreOneEscape(v: string)
    ensures ReplaceAll(ReplaceAll(v, "\\", "\\\\"), "'", "\\'") == Escape(v)
    decreases |v|
  {
    if v != "" {
      TwoReplacementsAreOneEscape(v[1..]);
      var inner := ReplaceAll(v[1..], "\\", "\\\\");
      var head := EscapeOfOne(v[0]);
      assert v == [v[0]] + v[1..];
      ReplaceCharAppend([v[0]], v[1..], '\\', "\\\\");
      ReplaceCharAppend(head, inner, '\'', "\\'");
    }
  }

  /** What the first replacement makes of one character, and the second of that. */
  lemma EscapeOfOne(c: char) returns (head: string)
    ensures head == ReplaceAll([c], "\\", "\\\\")
    ensures ReplaceAll(head, "'", "\\'") == if c == '\'' || c == '\\' then ['\\', c] else [c]
  {
    head := if c == '\\' then "\\\\" else [c];
    assert [c][1..] == "" && "\\\\" + "" == "\\\\" && [c] + "" == [c];
    assert "\\"[0] == '\\' && [c][0] == c;
    if c == '\\' {
      assert head[1..] == "\\" && "\\"[1..] == "";
    } else {
      assert head[1..] == "";
    }
  }

  // ---- round trip ----

  lemma {:induction false} QuotedUndoesEscape(v: string, rest: string)
    ensures Quoted(Escape(v) + ("'" + rest)) == Some((v, rest))
    decreases |v|
  {
    var s := Escape(v) + ("'" + rest);
    if v == "" {
      assert s == "'" + rest;
    } else {
      QuotedUndoesEscape(v[1..], rest);
      var tail := Escape(v[1..]) + ("'" + rest);
      if v[0] == '\'' || v[0] == '\\' {
        assert s == ['\\', v[0]] + tail && s[2..] == tail;
      } else {
        assert s == [v[0]] + tail && s[1..] == tail;
      }
      assert v == [v[0]] + v[1..];
    }
  }

  predicate IsKeyword(name: string) {
    name != "" && forall i :: 0 <= i < |name| ==> name[i] != '=' && !IsSpace(name[i])
  }

  lemma {:induction false} KeywordEnds(name: string, rest: string)
    requires forall i :: 0 <= i < |name| ==> name[i] != '=' && !IsSpace(name[i])
    ensures Keyword(name + ("=" + rest)) == (name, "=" + rest)
    decreases |name|
  {
    var s := name + ("=" + rest);
    if name == "" {
      assert s == "=" + rest;
    } else {
      KeywordEnds(name[1..], rest);
      assert s[1..] == name[1..] + ("=" + rest);
      assert name == [name[0]] + name[1..];
    }
  }

  lemma LeadingSpace(s: string)
    ensures Parse(" " + s) == Parse(s)
  {
    assert (" " + s)[1..] == s;
    assert SkipSpaces(" " + s) == SkipSpaces(s);
  }

  /** A quoted setting is read back, whatever its value and whatever comes after it. */
  lemma SettingReadsBack(name: string, v: string, rest: string)
    requires IsKeyword(name)
    ensures Parse(name + "=" + Quote(v) + rest) == Prepend([Setting(name, v)], Parse(rest))
  {
    TwoReplacementsAreOneEscape(v);
    var body := Escape(v) + ("'" + rest);
    var s := name + "=" + Quote(v) + rest;
    assert s == name + ("=" + ("'" + body));
    KeywordEnds(name, "'" + body);
    QuotedUndoesEscape(v, rest);
    hide Escape, Quote, Keyword, Quoted, Bare, ReplaceAll;
    var s3 := "=" + ("'" + body);
    assert s3[1..] == "'" + body && ("'" + body)[1..] == body;
    assert SkipSpaces(s) == s && SkipSpaces(s3) == s3 && SkipSpaces("'" + body) == "'" + body;
  }

  /** A line of settings reads back as those settings, followed by whatever the rest reads as. */
  lemma {:induction false} LineReadsBack(settings: seq<Setting>, rest: string)
    requires settings != [] && forall i :: 0 <= i < |settings| ==> IsKeyword(settings[i].keyword)
    ensures Parse(Line(settings) + rest) == Prepend(settings, Parse(rest))
    decreases |settings|
  {
    hide Parse, Quote, IsKeyword;
    var first, more := settings[0], settings[1..];
    var head := first.keyword + "=" + Quote(first.value);
    assert settings == [first] + more && first == Setting(first.keyword, first.value);
    if more == [] {
      SettingReadsBack(first.keyword, first.value, rest);
      assert Line(settings) == head && settings == [first];
    } else {
      var tail := Line(more) + rest;
      SettingReadsBack(first.keyword, first.value, " " + tail);
      LeadingSpace(tail);
      LineReadsBack(more, rest);
      assert Line(settings) + rest == head + (" " + tail);
      if Parse(rest).Some? {
        assert [first] + (more + Parse(rest).value) == settings + Parse(rest).value;
      }
    }
  }

  lemma SixKeywords(c: Credentials)
    ensures forall i :: 0 <= i < |Settings(c)| ==> IsKeyword(Settings(c)[i].keyword)
  {
    assert IsKeyword("host") && IsKeyword("port") && IsKeyword("user");
    assert IsKeyword("password") && IsKeyword("dbname") && IsKeyword("sslmode");
    hide IsKeyword;
  }

  /** Reading what BuildDSN wrote gives exactly the six strings, for all strings, then the extra settings. */
  lemma RoundTrip(c: Credentials, extra: seq<string>)
    ensures
      var six := [Setting("host", c.host), Setting("port", c.port), Setting("user", c.user),
                  Setting("password", c.password), Setting("dbname", c.dbName), Setting("sslmode", c.sslMode)];
      && (extra == [] ==> Parse(BuildDSN(c, extra)) == Some(six))
      && (Parse(Join(extra, " ")).Some? ==> Parse(BuildDSN(c, extra)) == Some(six + Parse(Join(extra, " ")).value))
    ensures Parse(Join(extra, " ")).None? ==> Parse(BuildDSN(c, extra)).None?
  {
    var more := Join(extra, " ");
    assert Parse("") == Some([]);
    SixKeywords(c);
    assert Settings(c) != [];
    hide Parse, Quote, Line, IsKeyword, Settings;
    if extra == [] {
      LineReadsBack(Settings(c), "");
      assert Settings(c) + [] == Settings(c);
    } else {
      LineReadsBack(Settings(c), " " + more);
      LeadingSpace(more);
    }
  }
}

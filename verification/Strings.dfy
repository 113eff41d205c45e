/** The string operations the repository's code leans on. */
module Strings {
  import opened Prelude

  /** strings.ReplaceAll for a non-empty target: leftmost matches, none overlapping, what is put in is not looked at again. */
  function ReplaceAll(s: string, what: string, with: string): string
    requires what != ""
    decreases |s|
  {
    if |s| < |what| then s
    else if what <= s then with + ReplaceAll(s[|what|..], what, with)
    else [s[0]] + ReplaceAll(s[1..], what, with)
  }

  /** strings.Contains for a non-empty target. */
  predicate Contains(s: string, what: string)
    requires what != ""
    decreases |s|
  {
    |what| <= |s| && (what <= s || Contains(s[1..], what))
  }

  lemma {:induction false} ReplaceNothing(s: string, what: string, with: string)
    requires what != "" && (!Contains(s, what) || with == what)
    ensures ReplaceAll(s, what, with) == s
    decreases |s|
  {
    if |s| < |what| {
    } else if what <= s {
      ReplaceNothing(s[|what|..], what, with);
      assert s == what + s[|what|..];
    } else {
      ReplaceNothing(s[1..], what, with);
    }
  }

  lemma {:induction false} ReplaceLength(s: string, what: string, with: string)
    requires what != ""
    ensures |with| >= |what| ==> |ReplaceAll(s, what, with)| >= |s|
    ensures |with| <= |what| ==> |ReplaceAll(s, what, with)| <= |s|
    ensures Contains(s, what) && |with| != |what| ==> |ReplaceAll(s, what, with)| != |s|
    decreases |s|
  {
    if |s| < |what| {
    } else if what <= s {
      ReplaceLength(s[|what|..], what, with);
    } else {
      ReplaceLength(s[1..], what, with);
    }
  }

  /** Replacing what is there by something else changes the string. */
  lemma {:induction false} ReplaceChanges(s: string, what: string, with: string)
    requires what != "" && Contains(s, what) && with != what
    ensures ReplaceAll(s, what, with) != s
    decreases |s|
  {
    if |with| != |what| {
      ReplaceLength(s, what, with);
    } else if what <= s {
      assert ReplaceAll(s, what, with)[..|what|] == with && s[..|what|] == what;
    } else {
      ReplaceChanges(s[1..], what, with);
      assert ReplaceAll(s, what, with)[1..] == ReplaceAll(s[1..], what, with);
    }
  }

  lemma TailOfSum(a: string, b: string)
    requires a != ""
    ensures (a + b)[0] == a[0] && (a + b)[1..] == a[1..] + b && a == [a[0]] + a[1..]
  {
  }

  lemma ReplaceMatch(what: string, rest: string, with: string)
    requires what != ""
    ensures ReplaceAll(what + rest, what, with) == with + ReplaceAll(rest, what, with)
  {
    assert (what + rest)[|what|..] == rest;
  }

  lemma ReplaceMismatch(s: string, what: string, with: string)
    requires what != "" && s != "" && !(what <= s)
    ensures ReplaceAll(s, what, with) == [s[0]] + ReplaceAll(s[1..], what, with)
  {
    assert s == [s[0]] + s[1..];
  }

  /** Replacing one character works on each character by itself. */
  lemma {:induction false} ReplaceCharAppend(a: string, b: string, c: char, with: string)
    ensures ReplaceAll(a + b, [c], with) == ReplaceAll(a, [c], with) + ReplaceAll(b, [c], with)
    decreases |a|
  {
    if a == "" {
      assert a + b == b && ReplaceAll(a, [c], with) == "";
    } else {
      TailOfSum(a, b);
      ReplaceCharAppend(a[1..], b, c, with);
      ReplaceFirst(a, c, with);
      ReplaceFirst(a + b, c, with);
      Reassociate(if a[0] == c then with else [a[0]], ReplaceAll(a[1..], [c], with), ReplaceAll(b, [c], with));
      hide ReplaceAll;
    }
  }

  lemma ReplaceFirst(s: string, c: char, with: string)
    requires s != ""
    ensures ReplaceAll(s, [c], with) == (if s[0] == c then with else [s[0]]) + ReplaceAll(s[1..], [c], with)
  {
    hide ReplaceAll;
    assert s == [s[0]] + s[1..];
    if s[0] == c { ReplaceMatch([c], s[1..], with); } else { ReplaceMismatch(s, [c], with); }
  }

  function Join(parts: seq<string>, separator: string): string {
    if parts == [] then ""
    else if |parts| == 1 then parts[0]
    else parts[0] + separator + Join(parts[1..], separator)
  }
}

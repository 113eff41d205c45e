/** Placeholder substitution in notification texts and deep links. */
module Interpolation {
  import opened Prelude
  import opened Strings

  // ---- templates ----

  datatype Part = Text(text: string) | Hole(name: string)

  predicate BraceFree(s: string) { '{' !in s && '}' !in s }

  predicate WellFormed(parts: seq<Part>) {
    forall i :: 0 <= i < |parts| ==> BraceFree(if parts[i].Text? then parts[i].text else parts[i].name)
  }

  function Placeholder(name: string): (p: string)
    ensures |p| == |name| + 2 && p[0] == '{'
  {
    "{" + (name + "}")
  }

  function Show(p: Part): string { if p.Text? then p.text else Placeholder(p.name) }

  function Render(parts: seq<Part>): string {
    if parts == [] then "" else Show(parts[0]) + Render(parts[1..])
  }

  /** Braces come in pairs, opening first, and none inside another; `open` says that one is open already. */
  predicate Balanced(s: string, open: bool) {
    if s == "" then !open
    else if s[0] == '{' then !open && Balanced(s[1..], true)
    else if s[0] == '}' then open && Balanced(s[1..], false)
    else Balanced(s[1..], open)
  }

  // ---- two ways to substitute ----

  /** The loop's way: one ReplaceAll after the other over the whole string, in the order given. */
  function InTurn(s: string, data: map<string, string>, keys: seq<string>): string
    requires forall k :: k in keys ==> k in data
    decreases |keys|
  {
    if keys == [] then s else InTurn(ReplaceAll(s, Placeholder(keys[0]), data[keys[0]]), data, keys[1..])
  }

  /** All at once: each placeholder of a known name gives way to its value, unknown ones stay. */
  function AtOnce(parts: seq<Part>, data: map<string, string>): string {
    if parts == [] then ""
    else (if parts[0].Hole? && parts[0].name in data then data[parts[0].name] else Show(parts[0])) + AtOnce(parts[1..], data)
  }

  // ---- what one ReplaceAll does ----

  /** Text without an opening brace is passed over. */
  lemma {:induction false} PassOver(text: string, rest: string, key: string, value: string)
    requires '{' !in text
    ensures ReplaceAll(text + rest, Placeholder(key), value) == text + ReplaceAll(rest, Placeholder(key), value)
    decreases |text|
  {
    hide ReplaceAll, Placeholder;
    var end := ReplaceAll(rest, Placeholder(key), value);
    if text == "" {
      assert text + rest == rest && text + end == end;
    } else {
      TailOfSum(text, rest);
      PassOver(text[1..], rest, key, value);
      ReplaceMismatch(text + rest, Placeholder(key), value);
      Reassociate([text[0]], text[1..], end);
    }
  }

  /** A placeholder is matched by its own name only. */
  lemma OwnNameOnly(name: string, rest: string, key: string)
    requires BraceFree(name) && BraceFree(key)
    ensures Placeholder(key) <= Placeholder(name) + rest <==> name == key
  {
    var s, p := Placeholder(name) + rest, Placeholder(key);
    assert s[|name| + 1] == '}' && p[|key| + 1] == '}';
    assert forall i :: 0 <= i < |name| ==> s[i + 1] == name[i];
    assert forall i :: 0 <= i < |key| ==> p[i + 1] == key[i];
    assert |key| < |name| ==> s[|key| + 1] == name[|key|] != p[|key| + 1];
    assert |name| < |key| ==> p[|name| + 1] == key[|name|] != s[|name| + 1];
    if p <= s {
      assert forall i :: 0 <= i < |p| ==> p[i] == s[i];
      assert |key| == |name|;
      assert forall i :: 0 <= i < |key| ==> key[i] == p[i + 1] == s[i + 1] == name[i];
      assert name == key;
    }
  }

  lemma HoleStep(name: string, rest: string, key: string, value: string)
    requires BraceFree(name) && BraceFree(key)
    ensures ReplaceAll(Placeholder(name) + rest, Placeholder(key), value) ==
      (if name == key then value else Placeholder(name)) + ReplaceAll(rest, Placeholder(key), value)
  {
    OwnNameOnly(name, rest, key);
    hide ReplaceAll;
    if name == key {
      ReplaceMatch(Placeholder(key), rest, value);
    } else {
      var tail, end := name + "}", ReplaceAll(rest, Placeholder(key), value);
      Reassociate("{", tail, rest);
      TailOfSum("{", tail + rest);
      ReplaceMismatch(Placeholder(name) + rest, Placeholder(key), value);
      PassOver(tail, rest, key, value);
      Reassociate("{", tail, end);
      assert "{"[1..] + (tail + rest) == tail + rest;
    }
  }

  /** What one replacement makes of one part. */
  function Replaced(p: Part, key: string, value: string): string { if p == Hole(key) then value else Show(p) }

  lemma PartApart(p: Part, rest: string, key: string, value: string)
    requires WellFormed([p]) && BraceFree(key)
    ensures ReplaceAll(Show(p) + rest, Placeholder(key), value) == Replaced(p, key, value) + ReplaceAll(rest, Placeholder(key), value)
  {
    assert [p][0] == p;
    if p.Text? { PassOver(p.text, rest, key, value); } else { HoleStep(p.name, rest, key, value); }
  }

  lemma PartsOf(parts: seq<Part>, key: string, value: string)
    requires WellFormed(parts)
    ensures parts != [] ==> WellFormed([parts[0]]) && WellFormed(parts[1..]) && Render(parts) == Show(parts[0]) + Render(parts[1..])
    ensures Render([]) == "" && ReplaceAll("", Placeholder(key), value) == ""
  {
  }

  /** A replacement works on a balanced beginning by itself. */
  lemma {:induction false} RenderedApart(parts: seq<Part>, rest: string, key: string, value: string)
    requires WellFormed(parts) && BraceFree(key)
    ensures ReplaceAll(Render(parts) + rest, Placeholder(key), value) ==
      ReplaceAll(Render(parts), Placeholder(key), value) + ReplaceAll(rest, Placeholder(key), value)
    decreases |parts|
  {
    hide ReplaceAll, Placeholder, Show, Render, WellFormed, Replaced;
    PartsOf(parts, key, value);
    if parts == [] {
      assert Render(parts) + rest == rest && "" + ReplaceAll(rest, Placeholder(key), value) == ReplaceAll(rest, Placeholder(key), value);
    } else {
      var first, more := Show(parts[0]), Render(parts[1..]);
      RenderedApart(parts[1..], rest, key, value);
      assert (first + more) + rest == first + (more + rest);
      PartApart(parts[0], more + rest, key, value);
      PartApart(parts[0], more, key, value);
      var x, y, z := Replaced(parts[0], key, value), ReplaceAll(more, Placeholder(key), value), ReplaceAll(rest, Placeholder(key), value);
      assert x + (y + z) == (x + y) + z;
    }
  }

  lemma BalancedApart(s: string, rest: string, key: string, value: string)
    requires Balanced(s, false) && BraceFree(key)
    ensures ReplaceAll(s + rest, Placeholder(key), value) ==
      ReplaceAll(s, Placeholder(key), value) + ReplaceAll(rest, Placeholder(key), value)
  {
    var _, parts := BalancedIsWellFormed(s, false);
    RenderedApart(parts, rest, key, value);
  }

  // ---- order does not matter ----

  ghost predicate Orders(keys: seq<string>, data: map<string, string>) {
    && (forall k :: k in keys <==> k in data)
    && (forall i, j :: 0 <= i < j < |keys| ==> keys[i] != keys[j])
  }

  predicate Plain(data: map<string, string>) { forall k :: k in data ==> BraceFree(k) && BraceFree(data[k]) }

  /** No value mentions another key's placeholder, but of a key that stands for its own placeholder. */
  predicate SelfContained(data: map<string, string>) {
    forall a, k :: a in data && k in data && a != k && Contains(data[a], Placeholder(k)) ==> data[k] == Placeholder(k)
  }

  predicate Balances(data: map<string, string>) { forall k :: k in data ==> BraceFree(k) && Balanced(data[k], false) }

  /** The placeholders of the names done have given way. */
  function Partial(parts: seq<Part>, data: map<string, string>, done: set<string>): string
    requires done <= data.Keys
  {
    if parts == [] then ""
    else (if parts[0].Hole? && parts[0].name in done then data[parts[0].name] else Show(parts[0])) + Partial(parts[1..], data, done)
  }

  lemma {:induction false} PartialEnds(parts: seq<Part>, data: map<string, string>)
    ensures Partial(parts, data, {}) == Render(parts) && Partial(parts, data, data.Keys) == AtOnce(parts, data)
    decreases |parts|
  {
    if parts != [] { PartialEnds(parts[1..], data); }
  }

  /** A key that stands for its own placeholder changes nothing when its turn comes. */
  lemma {:induction false} OwnPlaceholderStays(parts: seq<Part>, data: map<string, string>, done: set<string>, key: string)
    requires done <= data.Keys && key in data && data[key] == Placeholder(key)
    ensures Partial(parts, data, done + {key}) == Partial(parts, data, done)
    decreases |parts|
  {
    if parts != [] { OwnPlaceholderStays(parts[1..], data, done, key); }
  }

  /** One replacement takes one more name. */
  lemma {:induction false} OneMoreDone(parts: seq<Part>, data: map<string, string>, done: set<string>, key: string)
    requires WellFormed(parts) && Balances(data) && done <= data.Keys && key in data && key !in done
    requires forall a :: a in done ==> !Contains(data[a], Placeholder(key))
    ensures ReplaceAll(Partial(parts, data, done), Placeholder(key), data[key]) == Partial(parts, data, done + {key})
    decreases |parts|
  {
    if parts != [] {
      var rest := Partial(parts[1..], data, done);
      assert BraceFree(if parts[0].Text? then parts[0].text else parts[0].name);
      OneMoreDone(parts[1..], data, done, key);
      if parts[0].Text? {
        PassOver(parts[0].text, rest, key, data[key]);
      } else if parts[0].name in done {
        BalancedApart(data[parts[0].name], rest, key, data[key]);
        ReplaceNothing(data[parts[0].name], Placeholder(key), data[key]);
      } else {
        HoleStep(parts[0].name, rest, key, data[key]);
      }
      hide ReplaceAll, Placeholder;
    }
  }

  lemma {:induction false} RestIsAtOnce(parts: seq<Part>, data: map<string, string>, done: set<string>, keys: seq<string>)
    requires WellFormed(parts) && Balances(data) && SelfContained(data) && done <= data.Keys
    requires forall k :: k in keys <==> k in data && k !in done
    requires forall i, j :: 0 <= i < j < |keys| ==> keys[i] != keys[j]
    ensures InTurn(Partial(parts, data, done), data, keys) == AtOnce(parts, data)
    decreases |keys|
  {
    if keys == [] {
      assert done == data.Keys;
      PartialEnds(parts, data);
    } else {
      var key := keys[0];
      assert key in keys;
      if data[key] == Placeholder(key) {
        OwnPlaceholderStays(parts, data, done, key);
        ReplaceNothing(Partial(parts, data, done), Placeholder(key), data[key]);
      } else {
        OneMoreDone(parts, data, done, key);
      }
      hide ReplaceAll, Contains, Balanced;
      forall k ensures k in keys[1..] <==> k in data && k !in done + {key} {
        if k in keys && k != key {
          var i :| 0 <= i < |keys| && keys[i] == k;
          assert keys[1..][i - 1] == k;
        }
      }
      RestIsAtOnce(parts, data, done + {key}, keys[1..]);
    }
  }

  /** For a template without stray or nested braces, and data without them whose values mention no other key, the loop gives
      the same result in every order of the map, and it is the substitution of all placeholders at once. */
  lemma EveryOrderIsAtOnce(parts: seq<Part>, data: map<string, string>, keys: seq<string>)
    requires WellFormed(parts) && Balances(data) && SelfContained(data) && Orders(keys, data)
    ensures InTurn(Render(parts), data, keys) == AtOnce(parts, data)
  {
    PartialEnds(parts, data);
    RestIsAtOnce(parts, data, {}, keys);
  }

  /** Brace-free keys and values are such data. */
  lemma PlainIsSelfContained(data: map<string, string>)
    requires Plain(data)
    ensures Balances(data) && SelfContained(data)
  {
    forall a | a in data ensures Balanced(data[a], false) {
      BraceFreeIsBalanced(data[a], "", false);
      assert data[a] + "" == data[a];
    }
    forall a, k | a in data && k in data ensures !Contains(data[a], Placeholder(k)) { BraceFreeHasNone(data[a], k); }
  }

  lemma {:induction false} BraceFreeHasNone(s: string, key: string)
    requires BraceFree(s)
    ensures !Contains(s, Placeholder(key))
    decreases |s|
  {
    if |Placeholder(key)| <= |s| {
      BraceFreeHasNone(s[1..], key);
      assert Placeholder(key)[0] == '{' && s[0] != '{';
    }
  }

  // ---- exactly when order does not matter ----

  ghost predicate OrderFree(data: map<string, string>) {
    forall parts, ks, ls :: WellFormed(parts) && Orders(ks, data) && Orders(ls, data)
      ==> InTurn(Render(parts), data, ks) == InTurn(Render(parts), data, ls)
  }

  /** For brace-free keys and values without stray or nested braces, all orders agree on every well-formed template exactly
      when no value mentions another key's placeholder, but of a key that stands for its own placeholder. */
  lemma OrderFreeIff(data: map<string, string>)
    requires Balances(data)
    ensures OrderFree(data) <==> SelfContained(data)
  {
    if SelfContained(data) {
      forall parts, ks, ls | WellFormed(parts) && Orders(ks, data) && Orders(ls, data)
        ensures InTurn(Render(parts), data, ks) == InTurn(Render(parts), data, ls)
      {
        EveryOrderIsAtOnce(parts, data, ks);
        EveryOrderIsAtOnce(parts, data, ls);
      }
    } else {
      var a, k :| a in data && k in data && a != k && Contains(data[a], Placeholder(k)) && data[k] != Placeholder(k);
      var ks, ls := LastTwoDiffer(data, a, k);
      assert WellFormed([Hole(a)]);
    }
  }

  lemma Enumerate(keys: set<string>) returns (list: seq<string>)
    ensures forall k :: k in list <==> k in keys
    ensures forall i, j :: 0 <= i < j < |list| ==> list[i] != list[j]
    decreases |keys|
  {
    list := [];
    if keys != {} {
      var k :| k in keys;
      var rest := Enumerate(keys - {k});
      list := [k] + rest;
    }
  }

  lemma {:induction false} OthersPassBy(a: string, data: map<string, string>, keys: seq<string>)
    requires Balances(data) && a in data && a !in keys && forall k :: k in keys ==> k in data
    ensures InTurn(Placeholder(a), data, keys) == Placeholder(a)
    decreases |keys|
  {
    if keys != [] {
      var k := keys[0];
      assert k in keys;
      HoleStep(a, "", k, data[k]);
      assert Placeholder(a) + "" == Placeholder(a) && ReplaceAll("", Placeholder(k), data[k]) == "";
      OthersPassBy(a, data, keys[1..]);
    }
  }

  /** The other keys first, then the two one way or the other: the value stays, or its mention of k gives way. */
  lemma LastTwoDiffer(data: map<string, string>, a: string, k: string) returns (ks: seq<string>, ls: seq<string>)
    requires Balances(data) && a in data && k in data && a != k
    requires Contains(data[a], Placeholder(k)) && data[k] != Placeholder(k)
    ensures Orders(ks, data) && Orders(ls, data)
    ensures InTurn(Render([Hole(a)]), data, ks) == data[a]
    ensures InTurn(Render([Hole(a)]), data, ls) == ReplaceAll(data[a], Placeholder(k), data[k]) != data[a]
  {
    hide ReplaceAll, Render, Placeholder, Contains, Balanced;
    var others := Enumerate(data.Keys - {a, k});
    ks, ls := others + [k] + [a], others + [a] + [k];
    RenderOne(Hole(a));
    ReplaceChanges(data[a], Placeholder(k), data[k]);
    Exactly(a, data[a]);
    OthersPassBy(a, data, others);
    OthersPassBy(a, data, others + [k]);
    InTurnOneMore(Placeholder(a), data, others + [k], a);
    InTurnOneMore(Placeholder(a), data, others, a);
    InTurnOneMore(Placeholder(a), data, others + [a], k);
  }

  lemma RenderOne(p: Part)
    ensures Render([p]) == Show(p)
  {
    assert [p][1..] == [] && Render([]) == "";
  }

  /** A string whose braces are balanced and not nested is a well-formed template. */
  lemma {:induction false} BalancedIsWellFormed(s: string, open: bool) returns (name: string, parts: seq<Part>)
    requires Balanced(s, open)
    ensures WellFormed(parts) && BraceFree(name)
    ensures s == if open then name + ("}" + Render(parts)) else Render(parts)
    decreases |s|
  {
    NoParts();
    name, parts := "", [];
    if s != "" {
      BalancedFrom(s, open);
      hide WellFormed, Render, Balanced, Placeholder, BraceFree;
      var c := s[0];
      var name1, parts1 := BalancedIsWellFormed(s[1..], c == '{' || (open && c != '}'));
      if c == '{' {
        parts := OneHole(s, name1, parts1);
      } else if c == '}' {
        parts := parts1;
        assert s == "}" + Render(parts) == "" + ("}" + Render(parts));
      } else if open {
        name := OneMoreInName(s, name1, parts1);
        parts := parts1;
      } else {
        parts := [Text([c])] + parts1;
        RenderCons(Text([c]), parts1);
      }
    }
  }

  lemma BalancedFrom(s: string, open: bool)
    requires s != "" && Balanced(s, open)
    ensures Balanced(s[1..], s[0] == '{' || (open && s[0] != '}')) && s == [s[0]] + s[1..]
    ensures (s[0] == '{' ==> !open) && (s[0] == '}' ==> open)
    ensures BraceFree("") && (s[0] != '{' && s[0] != '}' ==> BraceFree([s[0]]))
  {
  }

  lemma OneHole(s: string, name: string, parts: seq<Part>) returns (all: seq<Part>)
    requires s != "" && s[0] == '{' && s[1..] == name + ("}" + Render(parts)) && WellFormed(parts) && BraceFree(name)
    ensures WellFormed(all) && Render(all) == s
  {
    hide WellFormed, Render, BraceFree;
    all := [Hole(name)] + parts;
    RenderCons(Hole(name), parts);
    assert s == "{" + (name + ("}" + Render(parts)));
    assert ("{" + (name + "}")) + Render(parts) == "{" + (name + ("}" + Render(parts)));
  }

  lemma OneMoreInName(s: string, name: string, parts: seq<Part>) returns (longer: string)
    requires s != "" && s[0] != '{' && s[0] != '}' && s[1..] == name + ("}" + Render(parts)) && BraceFree(name)
    ensures BraceFree(longer) && s == longer + ("}" + Render(parts))
  {
    hide Render;
    longer := [s[0]] + name;
    assert s == [s[0]] + (name + ("}" + Render(parts)));
  }

  lemma {:induction false} BraceFreeIsBalanced(text: string, rest: string, open: bool)
    requires BraceFree(text)
    ensures Balanced(text + rest, open) <==> Balanced(rest, open)
    decreases |text|
  {
    if text == "" {
      assert text + rest == rest;
    } else {
      BraceFreeIsBalanced(text[1..], rest, open);
      assert (text + rest)[1..] == text[1..] + rest;
    }
  }

  lemma PlaceholderIsBalanced(name: string, rest: string)
    requires BraceFree(name)
    ensures Balanced(Placeholder(name) + rest, false) <==> Balanced(rest, false)
  {
    var inner := name + ("}" + rest);
    BraceFreeIsBalanced(name, "}" + rest, true);
    assert ("}" + rest)[1..] == rest;
    assert Placeholder(name) + rest == "{" + inner && ("{" + inner)[1..] == inner;
  }

  lemma {:induction false} WellFormedIsBalanced(parts: seq<Part>)
    requires WellFormed(parts)
    ensures Balanced(Render(parts), false)
    decreases |parts|
  {
    if parts != [] {
      var rest := parts[1..];
      assert BraceFree(if parts[0].Text? then parts[0].text else parts[0].name);
      assert WellFormed(rest);
      hide WellFormed, Balanced, BraceFree, Placeholder;
      WellFormedIsBalanced(rest);
      if parts[0].Text? {
        BraceFreeIsBalanced(parts[0].text, Render(rest), false);
      } else {
        PlaceholderIsBalanced(parts[0].name, Render(rest));
      }
    } else {
      assert Render(parts) == "";
    }
  }

  /** The well-formed templates are exactly the strings whose braces are balanced and not nested. */
  lemma WellFormedIffBalanced(s: string)
    ensures Balanced(s, false) <==> exists parts :: WellFormed(parts) && Render(parts) == s
  {
    if Balanced(s, false) {
      var _, parts := BalancedIsWellFormed(s, false);
      assert WellFormed(parts) && Render(parts) == s;
    }
    forall parts | WellFormed(parts) && Render(parts) == s ensures Balanced(s, false) {
      WellFormedIsBalanced(parts);
    }
  }

  lemma NoParts()
    ensures WellFormed([]) && Render([]) == ""
  {
  }

  lemma RenderCons(p: Part, parts: seq<Part>)
    ensures Render([p] + parts) == Show(p) + Render(parts)
    ensures WellFormed(parts) && BraceFree(if p.Text? then p.text else p.name) ==> WellFormed([p] + parts)
  {
    assert ([p] + parts)[1..] == parts;
  }

  lemma Exactly(name: string, value: string)
    requires BraceFree(name)
    ensures ReplaceAll(Placeholder(name), Placeholder(name), value) == value
  {
    HoleStep(name, "", name, value);
    assert Placeholder(name) + "" == Placeholder(name);
    assert ReplaceAll("", Placeholder(name), value) == "" && value + "" == value;
  }

  // ---- the loops ----

  /** Range over the map in whatever order it comes. */
  method Interpolate(template: string, data: map<string, string>) returns (result: string)
    ensures exists keys :: Orders(keys, data) && result == InTurn(template, data, keys)
    ensures Balances(data) && SelfContained(data) ==>
      forall parts :: WellFormed(parts) && Render(parts) == template ==> result == AtOnce(parts, data)
  {
    result := template;
    var rest := data.Keys;
    ghost var done: seq<string> := [];
    while rest != {}
      invariant rest <= data.Keys
      invariant Orders(done, data - rest)
      invariant result == InTurn(template, data, done)
    {
      var key :| key in rest;
      InTurnOneMore(template, data, done, key);
      OrdersMore(done, data, rest, key);
      result := ReplaceAll(result, Placeholder(key), data[key]);
      rest := rest - {key};
      done := done + [key];
    }
    assert data - rest == data;
    if Balances(data) && SelfContained(data) {
      forall parts | WellFormed(parts) && Render(parts) == template ensures result == AtOnce(parts, data) {
        EveryOrderIsAtOnce(parts, data, done);
      }
    }
  }

  lemma OrdersMore(keys: seq<string>, data: map<string, string>, rest: set<string>, key: string)
    requires Orders(keys, data - rest) && key in rest && key in data
    ensures Orders(keys + [key], data - (rest - {key}))
  {
    assert key !in keys;
  }

  lemma {:induction false} InTurnOneMore(s: string, data: map<string, string>, keys: seq<string>, key: string)
    requires key in data && forall k :: k in keys ==> k in data
    ensures InTurn(s, data, keys + [key]) == ReplaceAll(InTurn(s, data, keys), Placeholder(key), data[key])
    decreases |keys|
  {
    assert forall k :: k in keys + [key] ==> k in data;
    if keys == [] {
      assert keys + [key] == [key] && [key][1..] == [];
    } else {
      assert (keys + [key])[1..] == keys[1..] + [key];
      InTurnOneMore(ReplaceAll(s, Placeholder(keys[0]), data[keys[0]]), data, keys[1..], key);
    }
  }

  datatype LinkConfig = LinkConfig(eventLinks: map<string, string>, templates: map<string, string>, baseUrl: string)

  /** An event without a link, or a link without a template, has no deep link. */
  method BuildDeepLink(c: LinkConfig, eventType: string, data: map<string, string>) returns (link: string)
    ensures eventType !in c.eventLinks || c.eventLinks[eventType] !in c.templates ==> link == ""
    ensures eventType in c.eventLinks && c.eventLinks[eventType] in c.templates && Balances(data) && SelfContained(data) ==>
      forall parts :: WellFormed(parts) && Render(parts) == c.baseUrl + c.templates[c.eventLinks[eventType]]
        ==> link == AtOnce(parts, data)
  {
    if eventType !in c.eventLinks || c.eventLinks[eventType] !in c.templates { return ""; }
    link := Interpolate(c.baseUrl + c.templates[c.eventLinks[eventType]], data);
  }
}

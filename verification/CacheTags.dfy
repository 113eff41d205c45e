/** Cache entries in Redis and the tag sets that index them. Both expire, on clocks of their own. */
module CacheTags {
  import opened Prelude

  // ---- Redis ----

  /** `named` records the tags the Set that wrote an entry gave it; no command reads it. */
  datatype Item = Blob(data: string, named: set<string>, expires: Option<Time>)
    | Members(keys: set<string>, expires: Option<Time>)

  datatype Redis = Redis(now: Time, items: map<string, Item>) {
    /** An expired key is gone, whether or not it was collected. */
    predicate Live(key: string) {
      key in items && (items[key].expires.Some? ==> now < items[key].expires.value)
    }

    function Put(key: string, data: string, named: set<string>, ttl: nat): Redis {
      this.(items := items[key := Blob(data, named, if ttl > 0 then Some(now + ttl) else None)])
    }

    /** SADD keeps the expiry a set has; on a string it is refused. */
    function SAdd(key: string, member: string): Redis {
      if !Live(key) then this.(items := items[key := Members({member}, None)])
      else if items[key].Blob? then this
      else this.(items := items[key := items[key].(keys := items[key].keys + {member})])
    }

    /** EXPIRE replaces whatever expiry the key has. */
    function Expire(key: string, ttl: nat): Redis {
      if Live(key) then this.(items := items[key := items[key].(expires := Some(now + ttl))]) else this
    }

    function SMembers(key: string): set<string> {
      if Live(key) && items[key].Members? then items[key].keys else {}
    }

    function Del(keys: set<string>): Redis {
      this.(items := items - keys)
    }

    function Read(key: string): Option<string> {
      if Live(key) && items[key].Blob? then Some(items[key].data) else None
    }
  }

  // ---- keys ----

  function Key(prefix: string, key: string): string { prefix + ":cache:" + key }

  function TagKey(prefix: string, tag: string): string { prefix + ":tag:" + tag }

  predicate IsEntryKey(prefix: string, k: string) { prefix + ":cache:" <= k }

  /** Entries and tag sets never share a key, and different names never build the same one. */
  lemma KeysAreApart(prefix: string, a: string, b: string)
    ensures IsEntryKey(prefix, Key(prefix, a)) && !IsEntryKey(prefix, TagKey(prefix, b))
    ensures Key(prefix, a) == Key(prefix, b) <==> a == b
    ensures TagKey(prefix, a) == TagKey(prefix, b) <==> a == b
  {
    var n := |prefix|;
    assert Key(prefix, a)[n + 1] == 'c' && TagKey(prefix, b)[n + 1] == 't';
    assert Key(prefix, a)[n + 7..] == a && Key(prefix, b)[n + 7..] == b;
    assert TagKey(prefix, a)[n + 5..] == a && TagKey(prefix, b)[n + 5..] == b;
  }

  // ---- steps ----

  datatype Step =
    | Tick(elapsed: nat)
    | Set(key: string, data: string, ttl: nat, tags: seq<string>)
    | Delete(key: string)
    | Invalidate(tags: seq<string>)

  /** Add the entry to a tag's set, and push the set's expiry an hour past the entry's. */
  function TagOne(prefix: string, r: Redis, key: string, ttl: nat, tag: string): Redis {
    r.SAdd(TagKey(prefix, tag), key).Expire(TagKey(prefix, tag), ttl + HOUR)
  }

  /** The tag commands of one Set, in order. */
  function Tagged(prefix: string, r: Redis, key: string, ttl: nat, tags: seq<string>): Redis {
    if tags == [] then r
    else TagOne(prefix, Tagged(prefix, r, key, ttl, tags[..|tags| - 1]), key, ttl, tags[|tags| - 1])
  }

  function TagKeys(prefix: string, tags: seq<string>): set<string> {
    set t | t in tags :: TagKey(prefix, t)
  }

  function MembersOf(prefix: string, r: Redis, tags: seq<string>): set<string> {
    set t, k | t in tags && k in r.SMembers(TagKey(prefix, t)) :: k
  }

  function Apply(prefix: string, r: Redis, step: Step): Redis {
    match step
    case Tick(elapsed) => r.(now := r.now + elapsed)
    case Set(key, data, ttl, tags) =>
      Tagged(prefix, r.Put(Key(prefix, key), data, Elements(tags), ttl), Key(prefix, key), ttl, tags)
    case Delete(key) => r.Del({Key(prefix, key)})
    case Invalidate(tags) => r.Del(MembersOf(prefix, r, tags)).Del(TagKeys(prefix, tags))
  }

  function Run(prefix: string, r: Redis, steps: seq<Step>): Redis
    decreases |steps|
  {
    if steps == [] then r else Run(prefix, Apply(prefix, r, steps[0]), steps[1..])
  }

  // ---- coverage ----

  /** Every live entry whose latest Set named the tag is in the tag's live set. */
  ghost predicate Covers(prefix: string, r: Redis, tag: string) {
    forall k :: r.Live(k) && r.items[k].Blob? && tag in r.items[k].named ==> k in r.SMembers(TagKey(prefix, tag))
  }

  /** The times to live that are safe to mix under one tag. */
  ghost predicate Compatible(ttls: set<nat>) {
    && (forall a :: a in ttls ==> a > 0)
    && (forall a, b :: a in ttls && b in ttls ==> a <= b + HOUR)
  }

  /** The steps give the tag no other times to live. */
  predicate Uses(steps: seq<Step>, tag: string, ttls: set<nat>) {
    forall i :: 0 <= i < |steps| && steps[i].Set? && tag in steps[i].tags ==> steps[i].ttl in ttls
  }

  /** What makes coverage last: a tag's set outlives each entry it indexes, and would still do so if its expiry were
      now reset for any of the times to live in use. */
  ghost predicate Outlives(prefix: string, r: Redis, tag: string, ttls: set<nat>) {
    forall k :: k in r.items && r.Live(k) && r.items[k].Blob? && tag in r.items[k].named ==>
      OutlivesKey(prefix, r, tag, ttls, k)
  }

  ghost predicate OutlivesKey(prefix: string, r: Redis, tag: string, ttls: set<nat>, k: string)
    requires k in r.items
  {
    var tagKey := TagKey(prefix, tag);
    && r.items[k].expires.Some?
    && tagKey in r.items && r.items[tagKey].Members? && k in r.items[tagKey].keys
    && (r.items[tagKey].expires.Some? ==> r.items[k].expires.value <= r.items[tagKey].expires.value)
    && (forall b :: b in ttls ==> r.items[k].expires.value <= r.now + b + HOUR)
  }

  /** Entries live under entry keys and sets under tag keys. */
  ghost predicate Typed(prefix: string, r: Redis) {
    && (forall k :: k in r.items ==> (r.items[k].Blob? <==> IsEntryKey(prefix, k)))
    && (forall k, m :: k in r.items && r.items[k].Members? && m in r.items[k].keys ==> IsEntryKey(prefix, m))
  }

  ghost predicate Inv(prefix: string, r: Redis, tag: string, ttls: set<nat>) {
    Typed(prefix, r) && Outlives(prefix, r, tag, ttls)
  }

  lemma OutlivesCovers(prefix: string, r: Redis, tag: string, ttls: set<nat>)
    requires Outlives(prefix, r, tag, ttls)
    ensures Covers(prefix, r, tag)
  {
    forall k | r.Live(k) && r.items[k].Blob? && tag in r.items[k].named
      ensures k in r.SMembers(TagKey(prefix, tag))
    {
      assert OutlivesKey(prefix, r, tag, ttls, k);
    }
  }

  lemma TagOnce(prefix: string, r: Redis, key: string, ttl: nat, tag: string)
    requires Typed(prefix, r) && IsEntryKey(prefix, key)
    ensures var r' := TagOne(prefix, r, key, ttl, tag);
      && Typed(prefix, r') && r'.now == r.now
      && r'.items == r.items[TagKey(prefix, tag) := Members(r.SMembers(TagKey(prefix, tag)) + {key}, Some(r.now + ttl + HOUR))]
  {
    KeysAreApart(prefix, tag, tag);
    var added := r.SAdd(TagKey(prefix, tag), key);
    assert added.Live(TagKey(prefix, tag)) && added.items[TagKey(prefix, tag)].keys == r.SMembers(TagKey(prefix, tag)) + {key};
  }

  lemma UnnamedIsApart(prefix: string, tags: seq<string>, t: string)
    requires t !in tags
    ensures TagKey(prefix, t) !in TagKeys(prefix, tags)
  {
    forall u | u in tags ensures TagKey(prefix, u) != TagKey(prefix, t) { KeysAreApart(prefix, u, t); }
  }

  /** The tag commands touch no key but the named tags'. */
  lemma {:induction false} TaggedElsewhere(prefix: string, r: Redis, key: string, ttl: nat, tags: seq<string>)
    requires Typed(prefix, r) && IsEntryKey(prefix, key)
    ensures Typed(prefix, Tagged(prefix, r, key, ttl, tags)) && Tagged(prefix, r, key, ttl, tags).now == r.now
    ensures var r' := Tagged(prefix, r, key, ttl, tags);
      forall k :: k !in TagKeys(prefix, tags) ==> (k in r'.items <==> k in r.items) && (k in r.items ==> r'.items[k] == r.items[k])
  {
    if tags != [] {
      var rest, last := tags[..|tags| - 1], tags[|tags| - 1];
      TaggedElsewhere(prefix, r, key, ttl, rest);
      TagOnce(prefix, Tagged(prefix, r, key, ttl, rest), key, ttl, last);
      hide Typed, TagOne, TagKey;
      assert forall t :: t in tags <==> t in rest || t == last;
      assert TagKeys(prefix, tags) == TagKeys(prefix, rest) + {TagKey(prefix, last)};
    }
  }

  /** After some of the tag commands a tag's set has its old members, and possibly the key. */
  lemma MembersSoFar(prefix: string, r: Redis, key: string, ttl: nat, tags: seq<string>, t: string)
    requires Typed(prefix, r) && IsEntryKey(prefix, key)
    requires t in tags ==> TagKey(prefix, t) in Tagged(prefix, r, key, ttl, tags).items
    requires t in tags ==> (
      Tagged(prefix, r, key, ttl, tags).items[TagKey(prefix, t)]
      == Members(r.SMembers(TagKey(prefix, t)) + {key}, Some(r.now + ttl + HOUR)))
    ensures Tagged(prefix, r, key, ttl, tags).SMembers(TagKey(prefix, t)) + {key} == r.SMembers(TagKey(prefix, t)) + {key}
  {
    TaggedElsewhere(prefix, r, key, ttl, tags);
    hide Typed, Tagged, TagKey;
    if t !in tags {
      UnnamedIsApart(prefix, tags, t);
    }
  }

  /** Each named tag's set gains the key and a fresh expiry. */
  lemma {:induction false} TaggedAt(prefix: string, r: Redis, key: string, ttl: nat, tags: seq<string>, t: string)
    requires Typed(prefix, r) && IsEntryKey(prefix, key) && t in tags
    ensures var r' := Tagged(prefix, r, key, ttl, tags);
      && TagKey(prefix, t) in r'.items
      && r'.items[TagKey(prefix, t)] == Members(r.SMembers(TagKey(prefix, t)) + {key}, Some(r.now + ttl + HOUR))
  {
    var rest, last := tags[..|tags| - 1], tags[|tags| - 1];
    var mid := Tagged(prefix, r, key, ttl, rest);
    assert Tagged(prefix, r, key, ttl, tags) == TagOne(prefix, mid, key, ttl, last);
    hide Typed, Tagged, TagOne, TagKey;
    TaggedElsewhere(prefix, r, key, ttl, rest);
    TagOnce(prefix, mid, key, ttl, last);
    if t in rest { TaggedAt(prefix, r, key, ttl, rest, t); }
    if t == last {
      MembersSoFar(prefix, r, key, ttl, rest, t);
    } else {
      KeysAreApart(prefix, t, last);
    }
  }

  lemma TaggedItems(prefix: string, r: Redis, key: string, ttl: nat, tags: seq<string>)
    requires Typed(prefix, r) && IsEntryKey(prefix, key)
    ensures Typed(prefix, Tagged(prefix, r, key, ttl, tags))
    ensures var r' := Tagged(prefix, r, key, ttl, tags);
      && r'.now == r.now
      && (forall k :: k !in TagKeys(prefix, tags) ==> (k in r'.items <==> k in r.items) && (k in r.items ==> r'.items[k] == r.items[k]))
      && (forall t :: t in tags ==> TagKey(prefix, t) in r'.items)
      && (forall t :: t in tags ==>
        r'.items[TagKey(prefix, t)] == Members(r.SMembers(TagKey(prefix, t)) + {key}, Some(r.now + ttl + HOUR)))
  {
    TaggedElsewhere(prefix, r, key, ttl, tags);
    hide Typed, Tagged, TagKey;
    var r' := Tagged(prefix, r, key, ttl, tags);
    forall t | t in tags
      ensures TagKey(prefix, t) in r'.items
      ensures r'.items[TagKey(prefix, t)] == Members(r.SMembers(TagKey(prefix, t)) + {key}, Some(r.now + ttl + HOUR))
    {
      TaggedAt(prefix, r, key, ttl, tags, t);
    }
  }

  lemma SetKeepsInv(prefix: string, r: Redis, tag: string, ttls: set<nat>, step: Step)
    requires Inv(prefix, r, tag, ttls) && Compatible(ttls)
    requires step.Set? && (tag in step.tags ==> step.ttl in ttls)
    ensures Inv(prefix, Apply(prefix, r, step), tag, ttls)
  {
    var full := Key(prefix, step.key);
    var r1 := r.Put(full, step.data, Elements(step.tags), step.ttl);
    var r' := Apply(prefix, r, step);
    KeysAreApart(prefix, step.key, tag);
    TaggedItems(prefix, r1, full, step.ttl, step.tags);
    forall k | k in r'.items && r'.Live(k) && r'.items[k].Blob? && tag in r'.items[k].named
      ensures OutlivesKey(prefix, r', tag, ttls, k)
    {
      SetKeepsKey(prefix, r, tag, ttls, step, k);
    }
  }

  lemma SetKeepsKey(prefix: string, r: Redis, tag: string, ttls: set<nat>, step: Step, k: string)
    requires Inv(prefix, r, tag, ttls) && Compatible(ttls)
    requires step.Set? && (tag in step.tags ==> step.ttl in ttls)
    requires var r' := Apply(prefix, r, step);
      k in r'.items && r'.Live(k) && r'.items[k].Blob? && tag in r'.items[k].named
    ensures OutlivesKey(prefix, Apply(prefix, r, step), tag, ttls, k)
  {
    var full, tagKey := Key(prefix, step.key), TagKey(prefix, tag);
    var r1 := r.Put(full, step.data, Elements(step.tags), step.ttl);
    TaggedItems(prefix, r1, full, step.ttl, step.tags);
    KeysAreApart(prefix, step.key, tag);
    forall t | t in step.tags ensures TagKey(prefix, t) != k { KeysAreApart(prefix, step.key, t); }
    assert k !in TagKeys(prefix, step.tags);
    if k != full {
      assert OutlivesKey(prefix, r, tag, ttls, k);
    }
    if tag !in step.tags {
      UnnamedIsApart(prefix, step.tags, tag);
    }
  }

  lemma StepKeepsInv(prefix: string, r: Redis, tag: string, ttls: set<nat>, step: Step)
    requires Inv(prefix, r, tag, ttls) && Compatible(ttls)
    requires step.Set? && tag in step.tags ==> step.ttl in ttls
    ensures Inv(prefix, Apply(prefix, r, step), tag, ttls)
  {
    if step.Set? {
      SetKeepsInv(prefix, r, tag, ttls, step);
    } else {
      var r' := Apply(prefix, r, step);
      forall k | k in r'.items && r'.Live(k) && r'.items[k].Blob? && tag in r'.items[k].named
        ensures OutlivesKey(prefix, r', tag, ttls, k)
      {
        assert OutlivesKey(prefix, r, tag, ttls, k);
        OutlivesCovers(prefix, r, tag, ttls);
        if step.Delete? { KeysAreApart(prefix, step.key, tag); }
        if step.Invalidate? { SurvivorIsUnnamed(prefix, r, tag, step.tags, k); }
      }
    }
  }

  lemma SurvivorIsUnnamed(prefix: string, r: Redis, tag: string, tags: seq<string>, k: string)
    requires Typed(prefix, r) && Covers(prefix, r, tag)
    requires k in Apply(prefix, r, Invalidate(tags)).items && r.Live(k) && r.items[k].Blob? && tag in r.items[k].named
    ensures tag !in tags
    ensures TagKey(prefix, tag) in r.items ==> TagKey(prefix, tag) in Apply(prefix, r, Invalidate(tags)).items
  {
  }

  lemma {:induction false} RunKeepsInv(prefix: string, r: Redis, tag: string, ttls: set<nat>, steps: seq<Step>)
    requires Inv(prefix, r, tag, ttls) && Compatible(ttls) && Uses(steps, tag, ttls)
    ensures Inv(prefix, Run(prefix, r, steps), tag, ttls)
    decreases |steps|
  {
    if steps != [] {
      StepKeepsInv(prefix, r, tag, ttls, steps[0]);
      RunKeepsInv(prefix, Apply(prefix, r, steps[0]), tag, ttls, steps[1..]);
    }
  }

  function Empty(now: Time): Redis { Redis(now, map[]) }

  /** However the steps go, the tag covers its entries. */
  ghost predicate AlwaysCovers(prefix: string, tag: string, ttls: set<nat>) {
    forall start, steps :: Uses(steps, tag, ttls) ==> Covers(prefix, Run(prefix, Empty(start), steps), tag)
  }

  /** Exactly when the times to live used with a tag are positive and no two differ by more than the hour of slack
      does the tag's set cover its live entries in every run. */
  lemma CoverageIff(prefix: string, tag: string, ttls: set<nat>)
    ensures AlwaysCovers(prefix, tag, ttls) <==> Compatible(ttls)
  {
    if Compatible(ttls) {
      forall start, steps | Uses(steps, tag, ttls) ensures Covers(prefix, Run(prefix, Empty(start), steps), tag) {
        RunKeepsInv(prefix, Empty(start), tag, ttls, steps);
        OutlivesCovers(prefix, Run(prefix, Empty(start), steps), tag, ttls);
      }
    } else if a: nat :| a in ttls && a == 0 {
      EndlessEntryIsLost(prefix, tag);
      assert Uses(EndlessRun(tag), tag, ttls);
    } else {
      var a: nat, b: nat :| a in ttls && b in ttls && a > b + HOUR;
      LongEntryIsLost(prefix, tag, a, b);
      assert Uses(LongRun(tag, a, b), tag, ttls);
    }
  }

  function EndlessRun(tag: string): seq<Step> { [Set("a", "", 0, [tag]), Tick(HOUR)] }

  function LongRun(tag: string, a: nat, b: nat): seq<Step> { [Set("a", "", a, [tag]), Set("b", "", b, [tag]), Tick(b + HOUR)] }

  /** An entry without expiry outlives the tag set that indexes it. */
  lemma EndlessEntryIsLost(prefix: string, tag: string)
    ensures !Covers(prefix, Run(prefix, Empty(0), EndlessRun(tag)), tag)
  {
    var r1 := Apply(prefix, Empty(0), Set("a", "", 0, [tag]));
    var k, tagKey := Key(prefix, "a"), TagKey(prefix, tag);
    OneTag(prefix, Empty(0), "a", "", 0, tag);
    var r2 := Apply(prefix, r1, Tick(HOUR));
    assert EndlessRun(tag)[1..] == [Tick(HOUR)] && [Tick(HOUR)][1..] == [];
    assert Run(prefix, r1, [Tick(HOUR)]) == r2;
    assert r2.Live(k) && tag in r2.items[k].named && !r2.Live(tagKey);
  }

  /** A later, shorter Set under the same tag pulls the tag set's expiry in before the longer entry's. */
  lemma LongEntryIsLost(prefix: string, tag: string, a: nat, b: nat)
    requires a > b + HOUR
    ensures !Covers(prefix, Run(prefix, Empty(0), LongRun(tag, a, b)), tag)
  {
    var k, tagKey := Key(prefix, "a"), TagKey(prefix, tag);
    var r1 := Apply(prefix, Empty(0), Set("a", "", a, [tag]));
    OneTag(prefix, Empty(0), "a", "", a, tag);
    var r2 := Apply(prefix, r1, Set("b", "", b, [tag]));
    OneTag(prefix, r1, "b", "", b, tag);
    KeysAreApart(prefix, "a", "b");
    var r3 := Apply(prefix, r2, Tick(b + HOUR));
    assert LongRun(tag, a, b)[1..] == [Set("b", "", b, [tag]), Tick(b + HOUR)];
    assert [Set("b", "", b, [tag]), Tick(b + HOUR)][1..] == [Tick(b + HOUR)] && [Tick(b + HOUR)][1..] == [];
    assert Run(prefix, r2, [Tick(b + HOUR)]) == r3;
    assert Run(prefix, r1, LongRun(tag, a, b)[1..]) == r3;
    assert r3.Live(k) && tag in r3.items[k].named && !r3.Live(tagKey);
  }

  lemma OneTag(prefix: string, r: Redis, key: string, data: string, ttl: nat, tag: string)
    requires Typed(prefix, r)
    ensures var r' := Apply(prefix, r, Set(key, data, ttl, [tag]));
      var full, tagKey := Key(prefix, key), TagKey(prefix, tag);
      && r'.now == r.now && Typed(prefix, r') && full != tagKey
      && full in r'.items && r'.items[full] == Blob(data, {tag}, if ttl > 0 then Some(r.now + ttl) else None)
      && tagKey in r'.items && r'.items[tagKey].expires == Some(r.now + ttl + HOUR)
      && forall k :: k in r.items && k != full && k != tagKey ==> k in r'.items && r'.items[k] == r.items[k]
  {
    KeysAreApart(prefix, key, tag);
    var r1 := r.Put(Key(prefix, key), data, Elements([tag]), ttl);
    TaggedItems(prefix, r1, Key(prefix, key), ttl, [tag]);
    assert tag in [tag] && TagKeys(prefix, [tag]) == {TagKey(prefix, tag)} && Elements([tag]) == {tag};
  }

  // ---- invalidation ----

  /** Until a key is set again it stays unreadable. */
  lemma {:induction false} UnreadableUntilSet(prefix: string, r: Redis, steps: seq<Step>, key: string)
    requires Typed(prefix, r) && r.Read(Key(prefix, key)) == None
    requires forall i :: 0 <= i < |steps| && steps[i].Set? ==> steps[i].key != key
    ensures Run(prefix, r, steps).Read(Key(prefix, key)) == None
    decreases |steps|
  {
    if steps != [] {
      var r' := Apply(prefix, r, steps[0]);
      if steps[0].Set? {
        var r1 := r.Put(Key(prefix, steps[0].key), steps[0].data, Elements(steps[0].tags), steps[0].ttl);
        KeysAreApart(prefix, key, steps[0].key);
        KeysAreApart(prefix, steps[0].key, key);
        TaggedItems(prefix, r1, Key(prefix, steps[0].key), steps[0].ttl, steps[0].tags);
        forall t | t in steps[0].tags ensures TagKey(prefix, t) != Key(prefix, key) { KeysAreApart(prefix, key, t); }
        assert Key(prefix, key) !in TagKeys(prefix, steps[0].tags);
      }
      UnreadableUntilSet(prefix, r', steps[1..], key);
    }
  }

  /** The step deletes the entry, by name or through a tag that has it as a member. */
  predicate Removes(prefix: string, r: Redis, step: Step, key: string) {
    (step.Delete? && step.key == key) || (step.Invalidate? && Key(prefix, key) in MembersOf(prefix, r, step.tags))
  }

  predicate Removed(prefix: string, r: Redis, steps: seq<Step>, key: string)
    decreases |steps|
  {
    steps != [] && (Removes(prefix, r, steps[0], key) || Removed(prefix, Apply(prefix, r, steps[0]), steps[1..], key))
  }

  function Elapsed(steps: seq<Step>): nat {
    if steps == [] then 0 else (if steps[0].Tick? then steps[0].elapsed else 0) + Elapsed(steps[1..])
  }

  predicate SetsOthers(steps: seq<Step>, key: string) {
    forall i :: 0 <= i < |steps| && steps[i].Set? ==> steps[i].key != key
  }

  /** A Set of another key leaves an entry as it is. */
  lemma OtherSetSpares(prefix: string, r: Redis, step: Step, key: string)
    requires Typed(prefix, r) && step.Set? && step.key != key
    ensures var r', full := Apply(prefix, r, step), Key(prefix, key);
      Typed(prefix, r') && r'.now == r.now && (full in r'.items <==> full in r.items) && (full in r.items ==> r'.items[full] == r.items[full])
  {
    var r1 := r.Put(Key(prefix, step.key), step.data, Elements(step.tags), step.ttl);
    KeysAreApart(prefix, key, step.key);
    KeysAreApart(prefix, step.key, key);
    TaggedElsewhere(prefix, r1, Key(prefix, step.key), step.ttl, step.tags);
    forall t | t in step.tags ensures TagKey(prefix, t) != Key(prefix, key) { KeysAreApart(prefix, key, t); }
    assert Key(prefix, key) !in TagKeys(prefix, step.tags);
  }

  /** Any other step keeps an entry it does not remove. */
  lemma QuietStepSpares(prefix: string, r: Redis, step: Step, key: string)
    requires Typed(prefix, r) && !step.Set?
    ensures var r', full := Apply(prefix, r, step), Key(prefix, key);
      && Typed(prefix, r') && r'.now == r.now + Elapsed([step])
      && (Removes(prefix, r, step, key) ==> full !in r'.items)
      && (!Removes(prefix, r, step, key) && full in r.items ==> full in r'.items && r'.items[full] == r.items[full])
  {
    KeysAreApart(prefix, key, key);
    assert [step][1..] == [];
    if step.Delete? { KeysAreApart(prefix, key, step.key); }
    if step.Invalidate? {
      forall t | t in step.tags ensures TagKey(prefix, t) != Key(prefix, key) { KeysAreApart(prefix, key, t); }
    }
  }

  /** What an entry reads as later on: its data, exactly until its expiry or its removal. */
  lemma {:induction false} EntryLasts(prefix: string, r: Redis, steps: seq<Step>, key: string)
    requires Typed(prefix, r) && SetsOthers(steps, key)
    requires Key(prefix, key) in r.items && r.items[Key(prefix, key)].Blob?
    ensures var item := r.items[Key(prefix, key)];
      Run(prefix, r, steps).Read(Key(prefix, key)) ==
        if !Removed(prefix, r, steps, key) && (item.expires.Some? ==> r.now + Elapsed(steps) < item.expires.value)
        then Some(item.data) else None
    decreases |steps|
  {
    if steps != [] {
      var r' := Apply(prefix, r, steps[0]);
      assert Elapsed([steps[0]]) == if steps[0].Tick? then steps[0].elapsed else 0 by { assert [steps[0]][1..] == []; }
      if steps[0].Set? { OtherSetSpares(prefix, r, steps[0], key); } else { QuietStepSpares(prefix, r, steps[0], key); }
      hide Typed, Apply, Removes;
      if Removes(prefix, r, steps[0], key) {
        UnreadableUntilSet(prefix, r', steps[1..], key);
      } else {
        EntryLasts(prefix, r', steps[1..], key);
      }
    }
  }

  /** Until a key is set again, a read of it gives the data of its latest Set exactly while the time to live lasts and no
      delete of it and no invalidation of a tag that has it as a member came between. */
  lemma ReadsLatestSet(prefix: string, r: Redis, key: string, data: string, ttl: nat, tags: seq<string>, after: seq<Step>)
    requires Typed(prefix, r) && SetsOthers(after, key)
    ensures var r' := Apply(prefix, r, Set(key, data, ttl, tags));
      Run(prefix, r', after).Read(Key(prefix, key)) ==
        if !Removed(prefix, r', after, key) && (ttl > 0 ==> Elapsed(after) < ttl) then Some(data) else None
  {
    var full, step := Key(prefix, key), Set(key, data, ttl, tags);
    var r1 := r.Put(full, data, Elements(tags), ttl);
    KeysAreApart(prefix, key, key);
    TaggedElsewhere(prefix, r1, full, ttl, tags);
    forall t | t in tags ensures TagKey(prefix, t) != full { KeysAreApart(prefix, key, t); }
    assert full !in TagKeys(prefix, tags);
    EntryLasts(prefix, Apply(prefix, r, step), after, key);
  }

  /** After invalidating tags, no entry whose latest Set named one of them is readable, until it is set again. */
  lemma InvalidatedUntilSet(prefix: string, start: Time, before: seq<Step>, tags: seq<string>, tag: string, ttls: set<nat>,
                            key: string, after: seq<Step>)
    requires Uses(before, tag, ttls) && Compatible(ttls) && tag in tags
    requires var r := Run(prefix, Empty(start), before);
      r.Live(Key(prefix, key)) && r.items[Key(prefix, key)].Blob? && tag in r.items[Key(prefix, key)].named
    requires forall i :: 0 <= i < |after| && after[i].Set? ==> after[i].key != key
    ensures Run(prefix, Apply(prefix, Run(prefix, Empty(start), before), Invalidate(tags)), after).Read(Key(prefix, key)) == None
  {
    var r := Run(prefix, Empty(start), before);
    RunKeepsInv(prefix, Empty(start), tag, ttls, before);
    OutlivesCovers(prefix, r, tag, ttls);
    UnreadableUntilSet(prefix, Apply(prefix, r, Invalidate(tags)), after, key);
  }

  // ---- the manager ----

  class CacheManager {
    const prefix: string
    var redis: Redis

    constructor (prefix: string, redis: Redis)
      ensures this.prefix == prefix && this.redis == redis
    {
      this.prefix := prefix;
      this.redis := redis;
    }

    /** Write an entry and index it under each tag, in one pipeline. A value that cannot be encoded is an error. */
    method Set(key: string, data: Option<string>, ttl: nat, tags: seq<string>, up: bool) returns (ok: bool)
      modifies this
      ensures ok <==> data.Some? && up
      ensures redis == if ok then Apply(prefix, old(redis), Step.Set(key, data.value, ttl, tags)) else old(redis)
    {
      if data.None? || !up {
        return false;
      }
      var full := Key(prefix, key);
      redis := redis.Put(full, data.value, Elements(tags), ttl);
      ghost var put := redis;
      for i := 0 to |tags|
        invariant redis == Tagged(prefix, put, full, ttl, tags[..i])
      {
        var tagKey := TagKey(prefix, tags[i]);
        redis := redis.SAdd(tagKey, full);
        redis := redis.Expire(tagKey, ttl + HOUR);
        assert tags[..i + 1][..i] == tags[..i];
      }
      assert tags[..|tags|] == tags;
      ok := true;
    }

    method Get(key: string, up: bool) returns (r: Result<Option<string>, string>)
      ensures r == if up then Ok(redis.Read(Key(prefix, key))) else Err("cache unavailable")
    {
      if !up { return Err("cache unavailable"); }
      r := Ok(redis.Read(Key(prefix, key)));
    }

    /** Read and delete at once: of two calls for one key, the second finds nothing. */
    method GetDel(key: string, up: bool) returns (found: Option<string>)
      modifies this
      ensures found == if up then old(redis).Read(Key(prefix, key)) else None
      ensures redis == if up then Apply(prefix, old(redis), Step.Delete(key)) else old(redis)
      ensures up ==> redis.Read(Key(prefix, key)) == None
    {
      if !up { return None; }
      found := redis.Read(Key(prefix, key));
      redis := redis.Del({Key(prefix, key)});
    }

    method Delete(key: string, up: bool) returns (ok: bool)
      modifies this
      ensures ok == up && redis == if up then Apply(prefix, old(redis), Step.Delete(key)) else old(redis)
    {
      if up { redis := redis.Del({Key(prefix, key)}); }
      ok := up;
    }

    /** Invalidating one tag; a tag with no members is left as it is. */
    method InvalidateByTag(tag: string, up: bool) returns (ok: bool)
      modifies this
      ensures ok == up
      ensures up && old(redis).SMembers(TagKey(prefix, tag)) == {} ==> redis == old(redis)
      ensures up && old(redis).SMembers(TagKey(prefix, tag)) != {} ==> redis == Apply(prefix, old(redis), Invalidate([tag]))
      ensures !up ==> redis == old(redis)
    {
      if !up { return false; }
      var keys := redis.SMembers(TagKey(prefix, tag));
      if keys == {} { return true; }
      DelEach(keys);
      redis := redis.Del({TagKey(prefix, tag)});
      assert tag in [tag];
      assert MembersOf(prefix, old(redis), [tag]) == keys && TagKeys(prefix, [tag]) == {TagKey(prefix, tag)};
      ok := true;
    }

    /** Invalidating several tags: gather every member first, then delete members and tag sets in one pipeline. */
    method InvalidateByTags(tags: seq<string>, up: bool) returns (ok: bool)
      modifies this
      ensures ok <==> up || tags == []
      ensures redis == if up then Apply(prefix, old(redis), Invalidate(tags)) else old(redis)
    {
      if tags == [] {
        assert redis.Del({}) == redis;
        assert MembersOf(prefix, redis, tags) == {} && TagKeys(prefix, tags) == {};
        return true;
      }
      if !up { return false; }
      var tagKeys := [];
      for i := 0 to |tags|
        invariant tagKeys == seq(i, j requires 0 <= j < |tags| => TagKey(prefix, tags[j]))
        invariant redis == old(redis)
      {
        tagKeys := tagKeys + [TagKey(prefix, tags[i])];
      }
      var allKeys := {};
      for i := 0 to |tagKeys|
        invariant allKeys == MembersOf(prefix, redis, tags[..i]) && redis == old(redis)
      {
        allKeys := allKeys + redis.SMembers(tagKeys[i]);
        assert tags[..i + 1] == tags[..i] + [tags[i]];
        assert forall t :: t in tags[..i + 1] <==> t in tags[..i] || t == tags[i];
      }
      assert tags[..|tags|] == tags;
      DelEach(allKeys);
      DelEach(set i | 0 <= i < |tagKeys| :: tagKeys[i]);
      forall t | t in tags ensures exists i :: 0 <= i < |tagKeys| && tagKeys[i] == TagKey(prefix, t) {
        var i :| 0 <= i < |tags| && tags[i] == t;
        assert tagKeys[i] == TagKey(prefix, t);
      }
      assert (set i | 0 <= i < |tagKeys| :: tagKeys[i]) == TagKeys(prefix, tags);
      ok := true;
    }

    method DelEach(keys: set<string>)
      modifies this
      ensures redis == old(redis).Del(keys)
    {
      var rest := keys;
      assert redis.Del({}) == redis;
      while rest != {}
        invariant rest <= keys && redis == old(redis).Del(keys - rest)
      {
        var key :| key in rest;
        redis := redis.Del({key});
        rest := rest - {key};
        assert keys - rest == (keys - (rest + {key})) + {key};
      }
      assert keys - rest == keys;
    }
  }
}

/** The auth service's calls, statement by statement. Calls are serialized here; any statement may fail
    unless the store is healthy. Every committed statement is a step of the protocol. */
module AuthService {
  import opened Prelude
  import opened AuthProtocol
  import opened AuthTheorems

  datatype RefreshError = InvalidRefreshToken | TokenRevoked | SessionNotFound | StoreError

  datatype PasswordError = IncorrectPassword | WeakPassword | PasswordStoreError

  /** A password-reset key in Redis: whose it is, and when it expires. */
  datatype ResetToken = ResetToken(userId: UserId, expiresAt: Time)

  const PREFIX_LENGTH := 8
  const HASH_LENGTH := 64

  /** The indexed prefix Create stores beside a hash. */
  function Prefix(hash: Hash): string {
    if |hash| >= PREFIX_LENGTH then hash[..PREFIX_LENGTH] else ""
  }

  // ---- the active listing ----

  /** What ListActiveDevicesByUser may return: the active sessions, most recently active first, ties in any order. */
  ghost predicate IsListing(s: State, ids: set<SessionId>, list: seq<SessionId>) {
    && (forall id :: id in list <==> id in ids)
    && (forall k, l :: 0 <= k < l < |list| ==> list[k] != list[l])
    && (forall k :: 0 <= k < |list| ==> list[k] in s.sessions)
    && (forall k, l :: 0 <= k < l < |list| ==> s.sessions[list[k]].lastActivity >= s.sessions[list[l]].lastActivity)
  }

  predicate MostRecent(s: State, ids: set<SessionId>, id: SessionId)
    requires ids <= s.sessions.Keys
  {
    id in ids && forall j :: j in ids ==> s.sessions[id].lastActivity >= s.sessions[j].lastActivity
  }

  lemma {:induction false} MostRecentExists(s: State, ids: set<SessionId>)
    requires ids <= s.sessions.Keys && ids != {}
    ensures exists id :: MostRecent(s, ids, id)
  {
    var x :| x in ids;
    var rest := ids - {x};
    assert forall j :: j in ids && j != x ==> j in rest;
    if rest == {} {
      assert MostRecent(s, ids, x);
    } else {
      MostRecentExists(s, rest);
      var y :| MostRecent(s, rest, y);
      assert MostRecent(s, ids, if s.sessions[x].lastActivity >= s.sessions[y].lastActivity then x else y);
    }
  }

  /** A session and its tokens revoked. */
  function RevokedWithTokens(s: State, id: SessionId): State {
    RevokeTokens(RevokeSessions(s, {id}), TokensOfSession(s, id))
  }

  /** Sessions `ids` and no others were revoked, and nothing else happened to sessions. */
  ghost predicate JustRevoked(s: State, s': State, ids: set<SessionId>) {
    s'.sessions == RevokeSessions(s, ids).sessions && s'.now == s.now
  }

  lemma ActiveAfterRevoking(cfg: Config, s: State, s': State, ids: set<SessionId>, user: UserId)
    requires JustRevoked(s, s', ids)
    ensures Active(cfg, s', user, s'.now) == Active(cfg, s, user, s.now) - ids
  {
  }

  lemma RevokingMore(s: State, s1: State, s2: State, ids: set<SessionId>, id: SessionId)
    requires JustRevoked(s, s1, ids) && JustRevoked(s1, s2, {id})
    ensures JustRevoked(s, s2, ids + {id})
  {
  }

  /** What eviction leaves: of the listing, the first `kept` sessions stay and the rest are revoked. With a healthy
      store that is all of it below the cap, and one less than the cap otherwise. */
  ghost predicate Evicted(cfg: Config, healthy: bool, s: State, s': State, user: UserId, list: seq<SessionId>, kept: nat) {
    && kept <= |list| && s'.now == s.now && JustRevoked(s, s', Elements(list[kept..]))
    && (list == [] || IsListing(s, Active(cfg, s, user, s.now), list))
    && (healthy && cfg.maxDevices > 0 ==>
          && IsListing(s, Active(cfg, s, user, s.now), list)
          && kept == (if |list| < cfg.maxDevices then |list| else cfg.maxDevices - 1)
          && Active(cfg, s', user, s'.now) == Elements(list[..kept]))
  }

  /** Stopping with the first n of the listing left, early or with room for one more, is an eviction. */
  lemma EvictionStops(cfg: Config, s: State, s': State, user: UserId, list: seq<SessionId>, n: nat, healthy: bool)
    requires IsListing(s, Active(cfg, s, user, s.now), list) && n <= |list| && JustRevoked(s, s', Elements(list[n..]))
    requires healthy ==> n == if |list| < cfg.maxDevices then |list| else cfg.maxDevices - 1
    ensures Evicted(cfg, healthy, s, s', user, list, n)
  {
    ActiveAfterRevoking(cfg, s, s', Elements(list[n..]), user);
    SplitListing(s, Active(cfg, s, user, s.now), list, n);
    hide IsListing, Active, Elements;
  }

  lemma NothingRevoked(s: State, list: seq<SessionId>)
    ensures JustRevoked(s, s, Elements(list[|list|..]))
  {
  }

  lemma NothingEvicted(cfg: Config, s: State, user: UserId, healthy: bool)
    ensures cfg.maxDevices <= 0 || !healthy ==> Evicted(cfg, healthy, s, s, user, [], 0)
  {
    var none: seq<SessionId> := [];
    assert JustRevoked(s, s, Elements(none[0..]));
  }

  lemma LastOf(list: seq<SessionId>, n: nat)
    requires 0 < n <= |list| && forall k, l :: 0 <= k < l < |list| ==> list[k] != list[l]
    ensures list[..n][n - 1] == list[n - 1] && list[n - 1] in list && list[n - 1] !in Elements(list[n..])
    ensures Elements(list[n - 1..]) == Elements(list[n..]) + {list[n - 1]}
  {
    assert forall l :: n <= l < |list| ==> list[l] != list[n - 1];
    assert list[n - 1..] == [list[n - 1]] + list[n..];
  }

  lemma SparedStaysLive(s: State, s': State, ids: set<SessionId>, id: SessionId)
    requires JustRevoked(s, s', ids) && id !in ids && id in s.sessions
    ensures id in s'.sessions && s'.sessions[id] == s.sessions[id] && s'.now == s.now
  {
  }

  /** After the eviction there is room for one more. */
  lemma EvictedRoom(cfg: Config, healthy: bool, s: State, s': State, user: UserId)
    requires exists list, kept: nat :: Evicted(cfg, healthy, s, s', user, list, kept)
    ensures healthy && cfg.maxDevices > 0 ==> |Active(cfg, s', user, s'.now)| < cfg.maxDevices
    ensures forall u :: Active(cfg, s', u, s'.now) <= Active(cfg, s, u, s.now)
    ensures s'.sessions.Keys == s.sessions.Keys
  {
    var list, kept: nat :| Evicted(cfg, healthy, s, s', user, list, kept);
    if healthy && cfg.maxDevices > 0 {
      ElementsOfDistinct(list[..kept]);
    }
  }

  lemma LoginRoom(cfg: Config, s1: State, s2: State, step: Step)
    requires step.Login? && Enabled(cfg, s2, step)
    requires s2.sessions == s1.sessions && s2.now == s1.now
    ensures |Active(cfg, s1, step.user, s1.now)| < cfg.maxDevices ==>
      |Active(cfg, Apply(cfg, s2, step), step.user, s1.now)| <= cfg.maxDevices
    ensures forall u :: u != step.user ==> Active(cfg, Apply(cfg, s2, step), u, s1.now) <= Active(cfg, s1, u, s1.now)
  {
    ActiveReadsSessions(cfg, s1, s2);
    StepShrinksActive(cfg, s2, step, step.user, s1.now);
    var before := Active(cfg, s1, step.user, s1.now);
    SubsetIsNoLarger(Active(cfg, Apply(cfg, s2, step), step.user, s1.now), before + {step.id});
    forall u | u != step.user
      ensures Active(cfg, Apply(cfg, s2, step), u, s1.now) <= Active(cfg, s1, u, s1.now)
    {
      StepShrinksActive(cfg, s2, step, u, s1.now);
    }
  }

  /** An access token issued on the way leaves the login as possible as it was. */
  lemma AfterIssue(cfg: Config, s: State, token: string, login: Step)
    requires login.Login? && !DeviceConflict(Relogin(s, login.deviceId), login.deviceId)
    requires login.id !in s.sessions && login.family !in s.families.Values && login.hash !in s.usedHashes
    ensures Enabled(cfg, s, IssueAccess(token, login.id))
    ensures var s' := Apply(cfg, s, IssueAccess(token, login.id));
      s' == s.(access := s.access[token := Access(login.id, s.now + cfg.accessExpiry)]) && Enabled(cfg, s', login)
      && Active(cfg, s', login.user, s'.now) == Active(cfg, s, login.user, s.now)
      && (|Active(cfg, s, login.user, s.now)| < cfg.maxDevices ==> FindsRoom(cfg, s', login)) && !login.RefreshRead?
  {
    ReloginShrinksActive(cfg, Apply(cfg, s, IssueAccess(token, login.id)), login.deviceId, login.user);
    var s' := Apply(cfg, s, IssueAccess(token, login.id));
    assert Relogin(s', login.deviceId).sessions == Relogin(s, login.deviceId).sessions;
    ActiveReadsSessions(cfg, s, s');
  }

  lemma LoginAccepted(cfg: Config, s: State, login: Step)
    requires login.Login? && Enabled(cfg, s, login)
    ensures var s' := Apply(cfg, s, login);
      && s'.now == s.now && s'.flights == s.flights && login.id in s'.sessions && s'.access == s.access
      && s'.sessions[login.id] == Session(login.user, login.deviceId, s.now, None)
      && login.hash in s'.tokens && s'.tokens[login.hash] == Token(login.id, login.family, s.now + cfg.refreshExpiry, None)
      && (cfg.inactivity >= 0 && cfg.refreshExpiry >= 0 ==> Refresh(cfg, s', login.hash) == Rotates(login.id, login.family))
  {
  }

  /** What a login's transaction leaves: the session, its first refresh token and its access token, and no more active sessions
      than one more of its user. */
  ghost predicate SessionInserted(cfg: Config, s: State, s': State, login: Step, access: string)
    requires login.Login?
  {
    && login.id in s'.sessions && s'.sessions[login.id] == Session(login.user, login.deviceId, s.now, None)
    && login.hash in s'.tokens && s'.tokens[login.hash] == Token(login.id, login.family, s.now + cfg.refreshExpiry, None)
    && access in s'.access && s'.access[access] == Access(login.id, s.now + cfg.accessExpiry)
    && (cfg.inactivity >= 0 && cfg.refreshExpiry >= 0 ==> Refresh(cfg, s', login.hash) == Rotates(login.id, login.family))
    && (|Active(cfg, s, login.user, s.now)| < cfg.maxDevices ==> |Active(cfg, s', login.user, s.now)| <= cfg.maxDevices)
    && (forall u :: u != login.user ==> Active(cfg, s', u, s.now) <= Active(cfg, s, u, s.now))
  }

  lemma LoginDone(cfg: Config, s: State, s1: State, login: Step, access: string)
    requires login.Login? && Enabled(cfg, s1, login)
    requires s1 == s.(access := s.access[access := Access(login.id, s.now + cfg.accessExpiry)])
    ensures var s' := Apply(cfg, s1, login);
      SessionInserted(cfg, s, s', login, access) && s'.now == s.now && s'.flights == s.flights
  {
    hide Apply, Enabled, Active, Refresh;
    LoginAccepted(cfg, s1, login);
    LoginRoom(cfg, s, s1, login);
  }

  lemma ActiveReadsSessions(cfg: Config, s: State, s': State)
    requires s'.sessions == s.sessions
    ensures forall u, now :: Active(cfg, s', u, now) == Active(cfg, s, u, now)
  {
  }

  /** No token was added, and those there are were at most revoked. */
  ghost predicate OnlyRevoked(s: State, s': State) {
    && s'.tokens.Keys == s.tokens.Keys
    && forall h :: h in s.tokens ==> s'.tokens[h] == s.tokens[h] || s'.tokens[h] == RevokedToken(s.tokens[h], s.now)
  }

  lemma SameTokensRevoked(s: State, s': State, id: SessionId)
    requires s'.tokens == s.tokens && s'.now == s.now
    ensures RevokeTokens(s', TokensOfSession(s', id)).tokens == RevokeTokens(s, TokensOfSession(s, id)).tokens
  {
  }

  /** Revoking a session the guard of the update leaves alone changes nothing. */
  lemma RevokedTwice(s: State, id: SessionId)
    ensures id !in s.sessions || s.sessions[id].IsRevoked() ==> RevokeSessions(s, {id}).sessions == s.sessions
  {
  }

  /** Every login of the run finds room, whoever's it is. */
  ghost predicate RoomForAll(cfg: Config, s: State, steps: seq<Step>)
    requires CanRun(cfg, s, steps)
  {
    forall user :: RoomAtLogins(cfg, s, steps, user)
  }

  lemma RoomForMore(cfg: Config, s: State, steps: seq<Step>, more: seq<Step>)
    requires CanRun(cfg, s, steps) && RoomForAll(cfg, s, steps)
    requires CanRun(cfg, Run(cfg, s, steps), more) && RoomForAll(cfg, Run(cfg, s, steps), more)
    ensures CanRun(cfg, s, steps + more) && RoomForAll(cfg, s, steps + more)
  {
    RunAppend(cfg, s, steps, more);
    hide CanRun, Run, RoomAtLogins;
    forall user ensures RoomAtLogins(cfg, s, steps + more, user) { RoomAppend(cfg, s, steps, more, user); }
  }

  lemma OneStepIsFit(cfg: Config, s: State, step: Step)
    requires Enabled(cfg, s, step)
    ensures CanRun(cfg, s, [step])
    ensures (step.Login? ==> FindsRoom(cfg, s, step)) ==> RoomForAll(cfg, s, [step])
    ensures SerialStep(s, step) ==> Serial(cfg, s, [step])
  {
    RunOne(cfg, s, step);
    hide Enabled, Apply, FindsRoom, SerialStep;
    assert [step][1..] == [];
    if step.Login? ==> FindsRoom(cfg, s, step) {
      forall user ensures RoomAtLogins(cfg, s, [step], user) {
        assert RoomAtLogins(cfg, Apply(cfg, s, step), [], user);
      }
    }
  }

  /** Reading a token that may be refreshed, and giving up again before or after an access token was issued. */
  lemma ReadAndAbandon(cfg: Config, s: State, call: nat, hash: Hash, access: string)
    requires Refresh(cfg, s, hash).Rotates? && call !in s.flights
    ensures Enabled(cfg, s, Step.RefreshRead(call, hash))
    ensures var s1 := Apply(cfg, s, Step.RefreshRead(call, hash));
      && s1 == s.(flights := s.flights[call := Flight(hash, s.tokens[hash].sessionId, s.tokens[hash].family)])
      && Enabled(cfg, s1, Step.RefreshAbandon(call)) && Apply(cfg, s1, Step.RefreshAbandon(call)) == s
      && Enabled(cfg, s1, Step.IssueAccess(access, s.tokens[hash].sessionId))
      && var s2 := Apply(cfg, s1, Step.IssueAccess(access, s.tokens[hash].sessionId));
      && s2 == s1.(access := s1.access[access := Access(s.tokens[hash].sessionId, s.now + cfg.accessExpiry)])
      && Enabled(cfg, s2, Step.RefreshAbandon(call)) && Apply(cfg, s2, Step.RefreshAbandon(call)) == s.(access := s2.access)
    ensures s.flights[call := Flight(hash, s.tokens[hash].sessionId, s.tokens[hash].family)] - {call} == s.flights
    ensures forall acc :: OnlyRevoked(s, s.(access := acc))
  {
    var flights := s.flights[call := Flight(hash, s.tokens[hash].sessionId, s.tokens[hash].family)];
    assert flights - {call} == s.flights;
  }

  lemma RotationAnswers(cfg: Config, s: State, s1: State, call: nat, hash: Hash, next: Hash)
    requires Inv(s) && Refresh(cfg, s, hash).Rotates? && next !in s.usedHashes && cfg.refreshExpiry >= 0
    requires s1 == s.(flights := s1.flights, access := s1.access)
    requires call in s1.flights && s1.flights[call] == Flight(hash, s.tokens[hash].sessionId, s.tokens[hash].family)
    ensures Enabled(cfg, s1, Step.RefreshRotate(call, next))
    ensures Answered(cfg, s, Apply(cfg, s1, Step.RefreshRotate(call, next)), hash, next, Ok(s.tokens[hash].sessionId))
    ensures Apply(cfg, s1, Step.RefreshRotate(call, next)).access == s1.access
    ensures Apply(cfg, s1, Step.RefreshRotate(call, next)).now == s1.now
    ensures Apply(cfg, s1, Step.RefreshRotate(call, next)).flights == s1.flights - {call}
  {
    assert hash != next;
  }

  function Kept(keep: Option<SessionId>): set<SessionId> {
    if keep.Some? then {keep.value} else {}
  }

  /** No session of the user but the spared one is valid at any strictly later time. */
  ghost predicate InvalidLater(cfg: Config, s: State, user: UserId, keep: Option<SessionId>) {
    forall id, later :: (id in s.sessions && s.sessions[id].userId == user && keep != Some(id) && later > s.now
      ==> !s.sessions[id].IsValid(later, cfg.inactivity))
  }

  lemma ListedAreLive(cfg: Config, s: State, user: UserId, list: seq<SessionId>)
    requires IsListing(s, Active(cfg, s, user, s.now), list)
    ensures Elements(list) == Active(cfg, s, user, s.now)
    ensures forall id :: id in list ==> id in s.sessions && !s.sessions[id].IsRevoked()
    ensures forall k, l :: 0 <= k < l < |list| ==> list[k] != list[l]
  {
  }

  lemma RevokingTheListed(cfg: Config, s: State, s': State, user: UserId, keep: Option<SessionId>)
    requires JustRevoked(s, s', Active(cfg, s, user, s.now) - Kept(keep))
    ensures InvalidLater(cfg, s', user, keep)
  {
    forall id, later | id in s'.sessions && s'.sessions[id].userId == user && keep != Some(id) && later > s'.now
      ensures !s'.sessions[id].IsValid(later, cfg.inactivity)
    {
      if id !in Active(cfg, s, user, s.now) {
        UnlistedIsInvalidLater(cfg, s, user, id, later);
      }
    }
  }

  /** GetDeviceSessionByUserAndDevice: the user's live sessions on a device. */
  function OnDevice(s: State, user: UserId, deviceId: string): set<SessionId> {
    set id | id in s.sessions && s.sessions[id].userId == user && s.sessions[id].deviceId == deviceId && !s.sessions[id].IsRevoked()
  }

  /** A live session of the user on the device, other than the current one. */
  ghost predicate OtherDevice(s: State, user: UserId, deviceId: string, current: SessionId, id: SessionId) {
    id in s.sessions && s.sessions[id].userId == user && s.sessions[id].deviceId == deviceId && s.sessions[id].revokedAt.None? && id != current
  }

  lemma OneOnDevice(s: State, user: UserId, deviceId: string, id: SessionId)
    requires Inv(s) && id in OnDevice(s, user, deviceId)
    ensures OnDevice(s, user, deviceId) == {id}
  {
  }

  class Service {
    const cfg: Config
    const start: Time
    const healthy: bool
    const serialized: bool
    var st: State
    var resetTokens: map<string, ResetToken>
    ghost var trace: seq<Step>

    ghost predicate Valid()
      reads this
    {
      && CanRun(cfg, Initial(start), trace) && Run(cfg, Initial(start), trace) == st
      && (Capped() ==> RoomForAll(cfg, Initial(start), trace))
      && (serialized ==> Serial(cfg, Initial(start), trace))
    }

    /** The device cap is meant to hold: it is set, and no statement fails. */
    predicate Capped() { healthy && cfg.maxDevices >= 1 }

    /** So it does, for every user, whatever calls made the trace. */
    lemma CapKept(user: UserId)
      requires Valid() && Capped()
      ensures |Active(cfg, st, user, st.now)| <= cfg.maxDevices
    {
      CapHolds(cfg, Initial(start), trace, user);
    }

    /** And if the refreshes of each family are serialized, no family ever has two unrevoked tokens. */
    lemma OneLiveKept()
      requires Valid() && serialized
      ensures OneLive(st)
    {
      SerializedRunsKeepOneLive(cfg, Initial(start), trace);
    }

    constructor (cfg: Config, start: Time, healthy: bool, serialized: bool)
      ensures Valid() && this.cfg == cfg && this.healthy == healthy && this.serialized == serialized
      ensures this.start == start && st == Initial(start) && resetTokens == map[]
    {
      this.cfg := cfg;
      this.start := start;
      this.healthy := healthy;
      this.serialized := serialized;
      this.st := Initial(start);
      this.resetTokens := map[];
      this.trace := [];
    }

    lemma Sound()
      requires Valid()
      ensures Reachable(cfg, st) && Inv(st)
    {
      ReachableInv(cfg, st);
    }

    method Do(step: Step)
      requires Valid() && Enabled(cfg, st, step)
      requires Capped() && step.Login? ==> FindsRoom(cfg, st, step)
      requires serialized ==> SerialStep(st, step)
      modifies this`st, this`trace
      ensures Valid() && st == Apply(cfg, old(st), step) && trace == old(trace) + [step]
    {
      hide Enabled, Apply, FindsRoom, SerialStep, Serial, RoomForAll;
      RunOne(cfg, st, step);
      OneStepIsFit(cfg, st, step);
      Extend([step]);
      st := Apply(cfg, st, step);
      trace := trace + [step];
    }

    /** What a run from here adds to the trace keeps it valid. */
    lemma Extend(steps: seq<Step>)
      requires Valid() && CanRun(cfg, st, steps)
      requires (Capped() ==> RoomForAll(cfg, st, steps)) && (serialized ==> Serial(cfg, st, steps))
      ensures CanRun(cfg, Initial(start), trace + steps) && Run(cfg, Initial(start), trace + steps) == Run(cfg, st, steps)
      ensures Capped() ==> RoomForAll(cfg, Initial(start), trace + steps)
      ensures serialized ==> Serial(cfg, Initial(start), trace + steps)
    {
      hide Enabled, Apply, Serial, RoomForAll;
      RunAppend(cfg, Initial(start), trace, steps);
      if Capped() { RoomForMore(cfg, Initial(start), trace, steps); }
      if serialized { SerialAppend(cfg, Initial(start), trace, steps); }
    }

    /** Between calls other replicas take any steps. Their logins, too, find room, and their refreshes, too, are serialized by
        family if that is promised; some may be in flight when the next call comes. */
    method Others(steps: seq<Step>)
      requires Valid() && CanRun(cfg, st, steps)
      requires (Capped() ==> RoomForAll(cfg, st, steps)) && (serialized ==> Serial(cfg, st, steps))
      modifies this`st, this`trace
      ensures Valid() && st == Run(cfg, old(st), steps) && trace == old(trace) + steps
    {
      hide Enabled, Apply, Serial, RoomForAll;
      Extend(steps);
      st := Run(cfg, st, steps);
      trace := trace + steps;
    }

    method Fails() returns (fails: bool)
      ensures healthy ==> !fails
    {
      fails := *;
      if healthy {
        fails := false;
      }
    }

    // ---- repositories ----

    /** Prefix lookup, then a comparison of whole hashes, row by row, then the loads of session and user. With a healthy
        store it finds a token exactly when one with that hash and its session are stored. */
    method FindByTokenHash(hash: Hash) returns (r: Option<Token>)
      ensures r.Some? ==> |hash| >= 8 && hash in st.tokens && r.value == st.tokens[hash] && r.value.sessionId in st.sessions
      ensures healthy ==> (r.Some? <==> |hash| >= 8 && hash in st.tokens && st.tokens[hash].sessionId in st.sessions)
    {
      if |hash| < PREFIX_LENGTH {
        return None;
      }
      var lookupFails := Fails();
      if lookupFails {
        return None;
      }
      var rows := set h | h in st.tokens && Prefix(h) == hash[..PREFIX_LENGTH];
      var rest := rows;
      while rest != {}
        invariant rest <= rows
        invariant forall h :: h in rows && h !in rest ==> h != hash
      {
        var row :| row in rest;
        if row == hash {
          var loadFails := Fails();
          if loadFails || st.tokens[row].sessionId !in st.sessions {
            return None;
          }
          return Some(st.tokens[row]);
        }
        rest := rest - {row};
      }
      assert hash in st.tokens ==> hash in rows;
      r := None;
    }

    method ListActive(user: UserId) returns (ok: bool, list: seq<SessionId>)
      ensures healthy ==> ok
      ensures ok ==> IsListing(st, Active(cfg, st, user, st.now), list)
    {
      list := [];
      var fails := Fails();
      if fails {
        return false, list;
      }
      var ids := Active(cfg, st, user, st.now);
      var rest := ids;
      while rest != {}
        invariant rest <= ids && IsListing(st, ids - rest, list)
        invariant forall k, id :: 0 <= k < |list| && id in rest ==> st.sessions[list[k]].lastActivity >= st.sessions[id].lastActivity
      {
        MostRecentExists(st, rest);
        var id :| id in rest && MostRecent(st, rest, id);
        assert ids - (rest - {id}) == (ids - rest) + {id};
        list := list + [id];
        rest := rest - {id};
      }
      assert ids - rest == ids;
      ok := true;
    }

    /** RevokeDeviceSession returns the row, so a session that is gone or already revoked is an error. */
    method RevokeSession(id: SessionId) returns (ok: bool)
      requires Valid()
      modifies this`st, this`trace
      ensures Valid() && old(trace) <= trace
      ensures st.flights == old(st).flights
      ensures ok ==> st == RevokeSessions(old(st), {id})
      ensures !ok ==> st == old(st)
      ensures healthy ==> (ok <==> id in old(st).sessions && !old(st).sessions[id].IsRevoked())
    {
      var fails := Fails();
      if fails || id !in st.sessions || st.sessions[id].IsRevoked() {
        return false;
      }
      Do(Step.RevokeSession(id));
      ok := true;
    }

    method RevokeTokensOf(id: SessionId) returns (ok: bool)
      requires Valid()
      modifies this`st, this`trace
      ensures Valid() && old(trace) <= trace && (healthy ==> ok)
      ensures st == if ok then old(st).(tokens := RevokeTokens(old(st), TokensOfSession(old(st), id)).tokens) else old(st)
    {
      hide CanRun, Run, RoomForAll, Serial;
      var fails := Fails();
      if !fails { Do(RevokeSessionTokens(id)); }
      ok := !fails;
    }

    method RevokeAccessToken(access: string) returns (ok: bool)
      requires Valid()
      modifies this`st, this`trace
      ensures Valid() && old(trace) <= trace && (healthy ==> ok)
      ensures st == if ok then old(st).(access := old(st).access - {access}) else old(st)
    {
      hide CanRun, Run, RoomForAll, Serial;
      var fails := Fails();
      if !fails { Do(RevokeAccess(access)); }
      ok := !fails;
    }

    /** The session must go; a failure to revoke its tokens is only logged. */
    method RevokeSessionAndTokens(id: SessionId) returns (ok: bool)
      requires Valid()
      modifies this`st, this`trace
      ensures Valid() && old(trace) <= trace
      ensures ok ==> JustRevoked(old(st), st, {id})
      ensures !ok ==> st == old(st)
      ensures healthy ==> (ok <==> id in old(st).sessions && !old(st).sessions[id].IsRevoked())
      ensures healthy && ok ==> st == RevokedWithTokens(old(st), id)
      ensures st.flights == old(st).flights && st.usedHashes == old(st).usedHashes && st.families == old(st).families
    {
      ok := RevokeSession(id);
      if !ok {
        return;
      }
      var _ := RevokeTokensOf(id);
    }

    // ---- sessions ----

    /** Revoke from the least recently active on, until there is room for one more under the cap. What stays is
        the most recently active part of the listing. */
    method EvictOldestIfOverLimit(user: UserId)
      requires Valid()
      modifies this`st, this`trace
      ensures Valid() && old(trace) <= trace && st.now == old(st).now
      ensures st.flights == old(st).flights && st.usedHashes == old(st).usedHashes && st.families == old(st).families
      ensures cfg.maxDevices <= 0 ==> st == old(st)
      ensures exists list, kept: nat :: Evicted(cfg, healthy, old(st), st, user, list, kept)
    {
      hide CanRun, Run, Inv, IsListing, Active, Evicted, JustRevoked, Elements, RevokedWithTokens;
      NothingEvicted(cfg, st, user, healthy);
      if cfg.maxDevices <= 0 {
        return;
      }
      var ok, list := ListActive(user);
      if !ok {
        return;
      }
      ListedAreLive(cfg, st, user, list);
      NothingRevoked(st, list);
      var sessions := list;
      while |sessions| >= cfg.maxDevices
        invariant st.now == old(st).now
        invariant |sessions| <= |list| && sessions == list[..|sessions|] && (|sessions| >= cfg.maxDevices - 1 || sessions == list)
        invariant Valid() && old(trace) <= trace
        invariant st.flights == old(st).flights && st.usedHashes == old(st).usedHashes && st.families == old(st).families
        invariant JustRevoked(old(st), st, Elements(list[|sessions|..]))
      {
        label before:
        ghost var n := |sessions|;
        var oldest := sessions[|sessions| - 1];
        LastOf(list, n);
        SparedStaysLive(old(st), st, Elements(list[n..]), oldest);
        var revoked := RevokeSessionAndTokens(oldest);
        if !revoked {
          assert !healthy;
          EvictionStops(cfg, old(st), st, user, list, n, healthy);
          return;
        }
        RevokingMore(old(st), old@before(st), st, Elements(list[n..]), oldest);
        sessions := sessions[..|sessions| - 1];
      }
      EvictionStops(cfg, old(st), st, user, list, |sessions|, healthy);
    }

    /** Evict, then in one transaction revoke whatever is live on the device, insert the session and its first
        token. The access token is issued on the way and may be orphaned by a rollback. */
    method CreateSessionAndTokens(user: UserId, deviceId: string, id: SessionId, family: Family, hash: Hash, access: string)
      returns (ok: bool)
      requires Valid()
      requires id !in st.sessions && family !in st.families.Values && hash !in st.usedHashes
      modifies this`st, this`trace
      ensures Valid() && old(trace) <= trace && st.now == old(st).now
      ensures st.flights == old(st).flights
      ensures ok ==> id in st.sessions && st.sessions[id] == Session(user, deviceId, st.now, None)
      ensures ok ==> hash in st.tokens && st.tokens[hash] == Token(id, family, st.now + cfg.refreshExpiry, None)
      ensures ok ==> access in st.access && st.access[access] == Access(id, st.now + cfg.accessExpiry)
      ensures ok && cfg.inactivity >= 0 && cfg.refreshExpiry >= 0 ==> Refresh(cfg, st, hash) == Rotates(id, family)
      ensures !ok ==> st.sessions.Keys == old(st).sessions.Keys && st.usedHashes == old(st).usedHashes
      ensures healthy && deviceId != "" ==> ok
      ensures ok && healthy && cfg.maxDevices >= 1 ==> |Active(cfg, st, user, st.now)| <= cfg.maxDevices
      ensures forall u :: u != user ==> Active(cfg, st, u, st.now) <= Active(cfg, old(st), u, st.now)
    {
      hide CanRun, Run, Inv, Active, IsListing, JustRevoked;
      EvictOldestIfOverLimit(user);
      EvictedRoom(cfg, healthy, old(st), st, user);
      ghost var s1 := st;
      ok := InsertSession(Step.Login(user, deviceId, id, family, hash), access);
      if ok {
        forall u | u != user ensures Active(cfg, st, u, st.now) <= Active(cfg, old(st), u, st.now) {
          assert Active(cfg, st, u, s1.now) <= Active(cfg, s1, u, s1.now);
        }
      } else {
        ActiveReadsSessions(cfg, s1, st);
      }
    }

    /** The transaction of a login. */
    method InsertSession(login: Step, access: string) returns (ok: bool)
      requires Valid() && login.Login?
      requires login.id !in st.sessions && login.family !in st.families.Values && login.hash !in st.usedHashes
      requires Capped() ==> |Active(cfg, st, login.user, st.now)| < cfg.maxDevices
      modifies this`st, this`trace
      ensures Valid() && old(trace) <= trace && st.now == old(st).now && st.flights == old(st).flights
      ensures !ok ==> st.sessions == old(st).sessions && st.usedHashes == old(st).usedHashes
      ensures ok ==> SessionInserted(cfg, old(st), st, login, access)
      ensures healthy && login.deviceId != "" ==> ok
    {
      hide CanRun, Run, Inv, Active, Apply, Enabled, Relogin, DeviceConflict, Refresh, FindsRoom, RoomForAll, Serial, SessionInserted;
      ghost var s0 := st;
      LoginIsRefusedOnlyWithoutADevice(st, login.deviceId);
      var insertFails := Fails();
      if insertFails || DeviceConflict(Relogin(st, login.deviceId), login.deviceId) {
        return false;
      }
      var issueFails := Fails();
      if issueFails {
        return false;
      }
      AfterIssue(cfg, s0, access, login);
      Do(IssueAccess(access, login.id));
      var commitFails := Fails();
      if commitFails {
        return false;
      }
      LoginDone(cfg, s0, st, login, access);
      Do(login);
      ok := true;
    }

    // ---- refresh ----

    /** The decision is Refresh's on the state the call found. A healthy store then does exactly what the decision
        asks for; an unhealthy one may fail the call, but never lets a refused token through. */
    method RefreshTokens(call: nat, hash: Hash, next: Hash, access: string) returns (r: Result<SessionId, RefreshError>)
      requires Valid() && call !in st.flights && next !in st.usedHashes && |hash| == HASH_LENGTH && cfg.refreshExpiry >= 0
      requires serialized ==> SerialStep(st, RefreshRead(call, hash))
      modifies this`st, this`trace
      ensures Valid() && old(trace) <= trace && st.flights == old(st).flights && st.now == old(st).now
      ensures healthy || r.Ok? ==> Answered(cfg, old(st), st, hash, next, r)
      ensures r.Err? ==> OnlyRevoked(old(st), st)
      ensures r.Ok? ==> access in st.access && st.access[access] == Access(r.value, st.now + cfg.accessExpiry)
    {
      hide CanRun, Run, Inv;
      var found := FindByTokenHash(hash);
      if found.None? {
        return Err(InvalidRefreshToken);
      }
      var record := found.value;
      var session := st.sessions[record.sessionId];
      if record.IsRevoked() {
        EndFamily(record.sessionId, record.family);
        return Err(TokenRevoked);
      }
      if record.IsExpired(st.now) {
        return Err(InvalidRefreshToken);
      }
      if !session.IsValid(st.now, cfg.inactivity) {
        return Err(SessionNotFound);
      }
      r := Rotate(call, hash, next, access);
    }

    /** A reused token: its family and its session are revoked; neither failure is reported. */
    method EndFamily(id: SessionId, family: Family)
      requires Valid()
      modifies this`st, this`trace
      ensures Valid() && old(trace) <= trace && st.now == old(st).now && st.flights == old(st).flights
      ensures OnlyRevoked(old(st), st)
      ensures healthy ==> FamilyEnded(old(st), st, family) && SessionEnded(old(st), st, id)
    {
      hide CanRun, Run, Inv;
      ghost var s0 := st;
      var familyFails := Fails();
      if !familyFails {
        Do(Step.RevokeFamily(family));
      }
      RevokedTwice(s0, id);
      var _ := RevokeSession(id);
    }

    /** The rotation of a token that may be refreshed. */
    method Rotate(call: nat, hash: Hash, next: Hash, access: string) returns (r: Result<SessionId, RefreshError>)
      requires Valid() && call !in st.flights && next !in st.usedHashes && cfg.refreshExpiry >= 0
      requires serialized ==> SerialStep(st, RefreshRead(call, hash))
      requires Refresh(cfg, st, hash).Rotates?
      modifies this`st, this`trace
      ensures Valid() && old(trace) <= trace && st.flights == old(st).flights && st.now == old(st).now
      ensures r.Ok? ==> Answered(cfg, old(st), st, hash, next, r)
      ensures r.Err? ==> r == Err(StoreError) && OnlyRevoked(old(st), st)
      ensures healthy ==> r.Ok?
      ensures r.Ok? ==> access in st.access && st.access[access] == Access(r.value, st.now + cfg.accessExpiry)
    {
      hide CanRun, Run, RoomForAll, Serial, Inv, Active, Answered, OnlyRevoked, Apply, Enabled, FindsRoom, Reachable;
      Sound();
      ghost var s0 := st;
      var id := st.tokens[hash].sessionId;
      ReadAndAbandon(cfg, s0, call, hash, access);
      hide Refresh;
      Do(Step.RefreshRead(call, hash));
      var issueFails := Fails();
      if issueFails {
        Do(Step.RefreshAbandon(call));
        return Err(StoreError);
      }
      Do(Step.IssueAccess(access, id));
      var rotateFails := Fails();
      if rotateFails {
        Do(Step.RefreshAbandon(call));
        return Err(StoreError);
      }
      RotationAnswers(cfg, s0, st, call, hash, next);
      Do(Step.RefreshRotate(call, next));
      r := Ok(id);
    }

    // ---- revoking several ----

    /** Revoke the listed sessions but one; a failure is logged and the loop goes on. */
    method RevokeListed(list: seq<SessionId>, keep: Option<SessionId>, ghost ids: set<SessionId>)
      requires Valid() && IsListing(st, ids, list) && forall id :: id in list ==> !st.sessions[id].IsRevoked()
      modifies this`st, this`trace
      ensures Valid() && old(trace) <= trace
      ensures st.flights == old(st).flights
      ensures exists gone :: (JustRevoked(old(st), st, gone) && gone <= Elements(list) - Kept(keep)
        && (healthy ==> gone == Elements(list) - Kept(keep)))
    {
      ghost var gone := {};
      assert JustRevoked(st, st, gone);
      for i := 0 to |list|
        invariant Valid() && old(trace) <= trace && st.flights == old(st).flights
        invariant JustRevoked(old(st), st, gone) && gone <= Elements(list[..i]) - Kept(keep)
        invariant healthy ==> gone == Elements(list[..i]) - Kept(keep)
      {
        assert list[..i + 1] == list[..i] + [list[i]];
        assert Elements(list[..i + 1]) == Elements(list[..i]) + {list[i]};
        assert list[i] !in list[..i] && list[i] in list;
        if keep == Some(list[i]) {
          continue;
        }
        label before:
        var ok := RevokeSessionAndTokens(list[i]);
        if ok {
          RevokingMore(old(st), old@before(st), st, gone, list[i]);
          gone := gone + {list[i]};
        }
      }
      assert list[..|list|] == list;
    }

    /** With a healthy store, every other session of the user is invalid at every strictly later time. */
    method RevokeOtherSessions(user: UserId, keep: SessionId) returns (ok: bool)
      requires Valid()
      modifies this`st, this`trace
      ensures Valid() && old(trace) <= trace && st.now == old(st).now
      ensures st.flights == old(st).flights
      ensures !ok ==> st == old(st)
      ensures keep in old(st).sessions ==> keep in st.sessions && st.sessions[keep] == old(st).sessions[keep]
      ensures healthy ==> ok && JustRevoked(old(st), st, Active(cfg, old(st), user, st.now) - {keep})
      ensures healthy ==> InvalidLater(cfg, st, user, Some(keep))
    {
      hide CanRun, Run, Active;
      var list;
      ghost var ids := Active(cfg, st, user, st.now);
      ok, list := ListActive(user);
      if ok {
        ListedAreLive(cfg, st, user, list);
        RevokeListed(list, Some(keep), ids);
        assert healthy ==> Elements(list) - {keep} == ids - {keep};
        if healthy { RevokingTheListed(cfg, old(st), st, user, Some(keep)); }
      }
    }

    /** As above, sparing none. */
    method RevokeAllSessions(user: UserId) returns (ok: bool)
      requires Valid()
      modifies this`st, this`trace
      ensures Valid() && old(trace) <= trace && st.now == old(st).now
      ensures st.flights == old(st).flights
      ensures !ok ==> st == old(st)
      ensures healthy ==> ok && JustRevoked(old(st), st, Active(cfg, old(st), user, st.now))
      ensures healthy ==> InvalidLater(cfg, st, user, None)
    {
      hide CanRun, Run, Active;
      var list;
      ghost var ids := Active(cfg, st, user, st.now);
      ok, list := ListActive(user);
      if ok {
        ListedAreLive(cfg, st, user, list);
        RevokeListed(list, None, ids);
        assert healthy ==> Elements(list) == ids;
        if healthy { RevokingTheListed(cfg, old(st), st, user, None); }
      }
    }

    // ---- single sessions ----

    /** Log the session out: a store that works leaves it revoked with its tokens and its access token gone. */
    method Logout(id: SessionId, access: string)
      requires Valid()
      modifies this`st, this`trace
      ensures Valid() && old(trace) <= trace
      ensures st.flights == old(st).flights
      ensures healthy ==> st.sessions == RevokeSessions(old(st), {id}).sessions
      ensures healthy ==> st.tokens == RevokeTokens(old(st), TokensOfSession(old(st), id)).tokens
      ensures healthy ==> st.access == if access == "" then old(st).access else old(st).access - {access}
    {
      hide CanRun, Run, RoomForAll, Serial, RevokeTokens, TokensOfSession;
      RevokedTwice(st, id);
      var _ := RevokeSession(id);
      if access != "" {
        var _ := RevokeAccessToken(access);
      }
      SameTokensRevoked(old(st), st, id);
      var _ := RevokeTokensOf(id);
    }

    /** A user's own live session on a device, other than the one the call came through, goes. */
    method RemoveDevice(user: UserId, deviceId: string, current: SessionId) returns (ok: bool)
      requires Valid()
      modifies this`st, this`trace
      ensures Valid() && old(trace) <= trace
      ensures st.flights == old(st).flights
      ensures ok ==> exists id :: OtherDevice(old(st), user, deviceId, current, id) && SessionEnded(old(st), st, id)
      ensures !ok ==> st == old(st)
      ensures healthy ==> (ok <==> exists id :: OtherDevice(old(st), user, deviceId, current, id))
    {
      Sound();
      var matching := OnDevice(st, user, deviceId);
      assert forall id :: OtherDevice(st, user, deviceId, current, id) ==> id in matching;
      var fails := Fails();
      if fails || matching == {} {
        return false;
      }
      var id :| id in matching;
      OneOnDevice(st, user, deviceId, id);
      if id == current {
        return false;
      }
      assert OtherDevice(st, user, deviceId, current, id);
      ok := RevokeSessionAndTokens(id);
    }

    // ---- passwords ----

    /** Change a password. On success with a healthy store no other session of the user is valid at any later time. */
    method ChangePassword(user: UserId, current: SessionId, verified: bool, strong: bool) returns (err: Option<PasswordError>)
      requires Valid()
      modifies this`st, this`trace
      ensures Valid() && old(trace) <= trace && st.now == old(st).now
      ensures st.flights == old(st).flights
      ensures err.Some? ==> st == old(st)
      ensures healthy ==> err == (if !verified then Some(IncorrectPassword) else if !strong then Some(WeakPassword) else None)
      ensures healthy && err.None? ==> InvalidLater(cfg, st, user, Some(current))
      ensures current in old(st).sessions ==> current in st.sessions && st.sessions[current] == old(st).sessions[current]
    {
      var lookupFails := Fails();
      if lookupFails { return Some(PasswordStoreError); }
      if !verified { return Some(IncorrectPassword); }
      if !strong { return Some(WeakPassword); }
      var updateFails := Fails();
      if updateFails { return Some(PasswordStoreError); }
      var _ := RevokeOtherSessions(user, current);
      err := None;
    }

    /** A reset token is stored for a user, for an hour. */
    method IssueReset(user: UserId, token: string) returns (ok: bool)
      modifies this`resetTokens
      ensures resetTokens == if ok then old(resetTokens)[token := ResetToken(user, st.now + 3_600_000_000)] else old(resetTokens)
      ensures healthy ==> ok
    {
      var setFails := Fails();
      if setFails { return false; }
      resetTokens := resetTokens[token := ResetToken(user, st.now + HOUR)];
      ok := true;
    }

    /** The token can still be taken. */
    predicate ResetLive(token: string)
      reads this
    {
      token in resetTokens && st.now < resetTokens[token].expiresAt
    }

    /** Reset a password: a live token is used up, also when what follows fails, and every session of its user is revoked at
        once, listed or not. A weak password leaves the token alone. */
    method ResetPassword(token: string, strong: bool) returns (ok: bool)
      requires Valid()
      modifies this`st, this`trace, this`resetTokens
      ensures Valid() && old(trace) <= trace && st.now == old(st).now
      ensures st.flights == old(st).flights
      ensures !ok ==> st == old(st)
      ensures ok ==> strong && token in old(resetTokens) && old(st).now < old(resetTokens)[token].expiresAt && token !in resetTokens
      ensures resetTokens == old(resetTokens) || (strong && resetTokens == old(resetTokens) - {token})
      ensures healthy && strong ==> !ResetLive(token)
      ensures healthy ==> (ok <==> strong && token in old(resetTokens) && old(st).now < old(resetTokens)[token].expiresAt)
      ensures healthy && ok ==> UserEnded(old(st), st, old(resetTokens)[token].userId)
    {
      if !strong { return false; }
      var takeFails := Fails();
      if takeFails || !ResetLive(token) { return false; }
      var user := resetTokens[token].userId;
      resetTokens := resetTokens - {token};
      var updateFails := Fails();
      if updateFails { return false; }
      var revokeFails := Fails();
      if !revokeFails { Do(RevokeUserSessions(user)); }
      ok := true;
    }
  }

  /** What a refresh did: the decision carried out. */
  ghost predicate Answered(cfg: Config, s: State, s': State, hash: Hash, next: Hash, r: Result<SessionId, RefreshError>) {
    match Refresh(cfg, s, hash)
    case NotFound => r == Err(InvalidRefreshToken) && s' == s
    case Reused(id, family) => r == Err(TokenRevoked) && FamilyEnded(s, s', family) && SessionEnded(s, s', id)
    case Expired => r == Err(InvalidRefreshToken) && s' == s
    case SessionInvalid => r == Err(SessionNotFound) && s' == s
    case Rotates(id, family) =>
      && r == Ok(id) && s'.sessions == s.sessions
      && s'.tokens.Keys == s.tokens.Keys + {next} && next !in s.tokens
      && s'.tokens[next] == Token(id, family, s.now + cfg.refreshExpiry, None)
      && s'.tokens[hash] == s.tokens[hash].(revokedAt := Some(s.now))
      && (forall h :: h in s.tokens && h != hash ==> s'.tokens[h] == s.tokens[h])
  }

  /** The live tokens of the family, and no others, were revoked. */
  ghost predicate FamilyEnded(s: State, s': State, family: Family) {
    && s'.tokens.Keys == s.tokens.Keys
    && forall h :: h in s.tokens ==>
      (if s.tokens[h].family == family && s.tokens[h].revokedAt.None? then s'.tokens[h] == s.tokens[h].(revokedAt := Some(s.now))
       else s'.tokens[h] == s.tokens[h])
  }

  /** The session, and no other, was revoked, unless it was before. */
  ghost predicate SessionEnded(s: State, s': State, id: SessionId) {
    && s'.sessions.Keys == s.sessions.Keys
    && forall i :: i in s.sessions ==>
      (if i == id && s.sessions[i].revokedAt.None? then s'.sessions[i] == s.sessions[i].(revokedAt := Some(s.now))
       else s'.sessions[i] == s.sessions[i])
  }

  /** Every live session of the user, and none of anyone else's, was revoked. */
  ghost predicate UserEnded(s: State, s': State, user: UserId) {
    && s'.sessions.Keys == s.sessions.Keys
    && forall i :: i in s.sessions ==>
      (if s.sessions[i].userId == user && s.sessions[i].revokedAt.None? then s'.sessions[i] == s.sessions[i].(revokedAt := Some(s.now))
       else s'.sessions[i] == s.sessions[i])
  }

  lemma SplitListing(s: State, ids: set<SessionId>, list: seq<SessionId>, n: nat)
    requires IsListing(s, ids, list) && n <= |list|
    ensures ids - Elements(list[n..]) == Elements(list[..n])
  {
    forall id | id in ids ensures id in Elements(list[n..]) <==> id !in Elements(list[..n]) {
      var k :| 0 <= k < |list| && list[k] == id;
      if k < n {
        assert list[..n][k] == id;
        assert forall l :: n <= l < |list| ==> list[l] != id;
      } else {
        assert list[n..][k - n] == id;
      }
    }
  }
}

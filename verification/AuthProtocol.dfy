/** Device sessions and rotating refresh tokens as a transition system whose steps are the committed
    transactions of the auth service, so that calls may interleave between them. */
module AuthProtocol {
  import opened Prelude

  // ---- tables ----

  type SessionId = nat
  type UserId = nat
  type Family = nat
  type Hash = string

  datatype Session = Session(userId: UserId, deviceId: string, lastActivity: Time, revokedAt: Option<Time>) {
    predicate IsRevoked() { revokedAt.Some? }
    predicate IsInactive(now: Time, timeout: Time) { now - lastActivity > timeout }
    predicate IsValid(now: Time, timeout: Time) { !IsRevoked() && !IsInactive(now, timeout) }
  }

  datatype Token = Token(sessionId: SessionId, family: Family, expiresAt: Time, revokedAt: Option<Time>) {
    predicate IsRevoked() { revokedAt.Some? }
    predicate IsExpired(now: Time) { expiresAt < now }
  }

  /** An access token in Redis: the session it names, and when the key expires. */
  datatype Access = Access(sessionId: SessionId, expiresAt: Time)

  /** A refresh call between its read and its rotation. */
  datatype Flight = Flight(hash: Hash, sessionId: SessionId, family: Family)

  /** `families` records the family each session's first token was given; no guard but freshness reads it. */
  datatype State = State(
    now: Time,
    sessions: map<SessionId, Session>,
    tokens: map<Hash, Token>,
    access: map<string, Access>,
    flights: map<nat, Flight>,
    families: map<SessionId, Family>,
    usedHashes: set<Hash>)

  datatype Config = Config(inactivity: Time, refreshExpiry: Time, accessExpiry: Time, maxDevices: int)

  // ---- decisions ----

  datatype RefreshOutcome = NotFound | Reused(sessionId: SessionId, family: Family) | Expired | SessionInvalid
    | Rotates(sessionId: SessionId, family: Family)

  /** The checks of a refresh, in the order the service makes them, on what it read. */
  function Refresh(cfg: Config, s: State, hash: Hash): RefreshOutcome {
    if hash !in s.tokens || s.tokens[hash].sessionId !in s.sessions then NotFound
    else
      var t := s.tokens[hash];
      if t.IsRevoked() then Reused(t.sessionId, t.family)
      else if t.IsExpired(s.now) then Expired
      else if !s.sessions[t.sessionId].IsValid(s.now, cfg.inactivity) then SessionInvalid
      else Rotates(t.sessionId, t.family)
  }

  datatype AuthOutcome = InvalidToken | SessionRevoked | SessionExpired | AccountInactive | Authenticated(sessionId: SessionId)

  /** The interceptor's checks of a bearer token. */
  function Authenticate(cfg: Config, s: State, token: string, userActive: UserId -> bool): AuthOutcome {
    if token !in s.access || s.now >= s.access[token].expiresAt then InvalidToken
    else
      var sid := s.access[token].sessionId;
      if sid !in s.sessions || s.sessions[sid].IsRevoked() then SessionRevoked
      else if s.sessions[sid].IsInactive(s.now, cfg.inactivity) then SessionExpired
      else if !userActive(s.sessions[sid].userId) then AccountInactive
      else Authenticated(sid)
  }

  // ---- statements ----

  function Revoked(x: Session, now: Time): Session {
    if x.IsRevoked() then x else x.(revokedAt := Some(now))
  }

  function RevokedToken(t: Token, now: Time): Token {
    if t.IsRevoked() then t else t.(revokedAt := Some(now))
  }

  /** UPDATE auth.device_sessions SET revoked_at = now() WHERE <ids> AND revoked_at IS NULL. */
  function RevokeSessions(s: State, ids: set<SessionId>): State {
    s.(sessions := map id | id in s.sessions :: if id in ids then Revoked(s.sessions[id], s.now) else s.sessions[id])
  }

  /** UPDATE auth.refresh_tokens SET revoked_at = now() WHERE <hashes> AND revoked_at IS NULL. */
  function RevokeTokens(s: State, hashes: set<Hash>): State {
    s.(tokens := map h | h in s.tokens :: if h in hashes then RevokedToken(s.tokens[h], s.now) else s.tokens[h])
  }

  function SessionsOfUser(s: State, user: UserId): set<SessionId> {
    set id | id in s.sessions && s.sessions[id].userId == user
  }

  function SessionsOnDevice(s: State, deviceId: string): set<SessionId> {
    set id | id in s.sessions && s.sessions[id].deviceId == deviceId
  }

  function TokensOfSession(s: State, id: SessionId): set<Hash> {
    set h | h in s.tokens && s.tokens[h].sessionId == id
  }

  function TokensOfFamily(s: State, family: Family): set<Hash> {
    set h | h in s.tokens && s.tokens[h].family == family
  }

  function LiveTokens(s: State, family: Family): set<Hash> {
    set h | h in s.tokens && s.tokens[h].family == family && !s.tokens[h].IsRevoked()
  }

  function InsertToken(s: State, hash: Hash, t: Token): State {
    s.(tokens := s.tokens[hash := t], usedHashes := s.usedHashes + {hash})
  }

  /** DeleteStaleRefreshTokens. */
  predicate Stale(t: Token, cutoff: Time) {
    t.expiresAt < cutoff || (t.revokedAt.Some? && t.revokedAt.value < cutoff)
  }

  function SweepTokens(s: State, cutoff: Time): State {
    s.(tokens := map h | h in s.tokens && !Stale(s.tokens[h], cutoff) :: s.tokens[h])
  }

  // ---- steps ----

  datatype Step =
    | Tick(elapsed: nat)
    | Login(user: UserId, deviceId: string, id: SessionId, family: Family, hash: Hash)
    | RevokeSession(id: SessionId)
    | RevokeUserSessions(user: UserId)
    | RevokeSessionTokens(id: SessionId)
    | RevokeFamily(family: Family)
    | RefreshRead(call: nat, hash: Hash)
    | RefreshRotate(call: nat, hash: Hash)
    | RefreshAbandon(call: nat)
    | IssueAccess(token: string, id: SessionId)
    | RevokeAccess(token: string)
    | Sweep(cutoff: Time)

  /** Before a login inserts its session: every live session on a named device is revoked, whoever owned it. */
  function Relogin(s: State, deviceId: string): State {
    if deviceId == "" then s else RevokeSessions(s, SessionsOnDevice(s, deviceId))
  }

  /** idx_unique_active_device_id refuses the insert; it knows no exception for the empty device id. */
  predicate DeviceConflict(s: State, deviceId: string) {
    exists id :: id in s.sessions && s.sessions[id].deviceId == deviceId && !s.sessions[id].IsRevoked()
  }

  predicate Enabled(cfg: Config, s: State, step: Step) {
    match step
    case Login(_, deviceId, id, family, hash) =>
      && id !in s.sessions && family !in s.families.Values && hash !in s.usedHashes
      && !DeviceConflict(Relogin(s, deviceId), deviceId)
    case RefreshRead(call, hash) => call !in s.flights && Refresh(cfg, s, hash).Rotates?
    case RefreshRotate(call, hash) => call in s.flights && hash !in s.usedHashes
    case RefreshAbandon(call) => call in s.flights
    case _ => true
  }

  function LoggedIn(cfg: Config, s: State, step: Step): State
    requires step.Login?
  {
    var s1 := Relogin(s, step.deviceId);
    var s2 := s1.(
      sessions := s1.sessions[step.id := Session(step.user, step.deviceId, s.now, None)],
      families := s1.families[step.id := step.family]);
    InsertToken(s2, step.hash, Token(step.id, step.family, s.now + cfg.refreshExpiry, None))
  }

  /** The rotation transaction: revoke the old token if it is still live, insert the new one. It does not look
      whether the old one was live. */
  function Rotated(cfg: Config, s: State, f: Flight, hash: Hash): State {
    InsertToken(RevokeTokens(s, {f.hash}), hash, Token(f.sessionId, f.family, s.now + cfg.refreshExpiry, None))
  }

  function Apply(cfg: Config, s: State, step: Step): State
    requires Enabled(cfg, s, step)
  {
    match step
    case Tick(elapsed) => s.(now := s.now + elapsed)
    case Login(_, _, _, _, _) => LoggedIn(cfg, s, step)
    case RevokeSession(id) => RevokeSessions(s, {id})
    case RevokeUserSessions(user) => RevokeSessions(s, SessionsOfUser(s, user))
    case RevokeSessionTokens(id) => RevokeTokens(s, TokensOfSession(s, id))
    case RevokeFamily(family) => RevokeTokens(s, TokensOfFamily(s, family))
    case RefreshRead(call, hash) =>
      s.(flights := s.flights[call := Flight(hash, s.tokens[hash].sessionId, s.tokens[hash].family)])
    case RefreshRotate(call, hash) =>
      Rotated(cfg, s, s.flights[call], hash).(flights := s.flights - {call})
    case RefreshAbandon(call) => s.(flights := s.flights - {call})
    case IssueAccess(token, id) => s.(access := s.access[token := Access(id, s.now + cfg.accessExpiry)])
    case RevokeAccess(token) => s.(access := s.access - {token})
    case Sweep(cutoff) => SweepTokens(s, cutoff)
  }

  predicate CanRun(cfg: Config, s: State, steps: seq<Step>)
    decreases |steps|
  {
    steps == [] || (Enabled(cfg, s, steps[0]) && CanRun(cfg, Apply(cfg, s, steps[0]), steps[1..]))
  }

  function Run(cfg: Config, s: State, steps: seq<Step>): State
    requires CanRun(cfg, s, steps)
    decreases |steps|
  {
    if steps == [] then s else Run(cfg, Apply(cfg, s, steps[0]), steps[1..])
  }

  function Initial(now: Time): State {
    State(now, map[], map[], map[], map[], map[], {})
  }

  lemma {:induction false} RunAppend(cfg: Config, s: State, steps: seq<Step>, more: seq<Step>)
    requires CanRun(cfg, s, steps) && CanRun(cfg, Run(cfg, s, steps), more)
    ensures CanRun(cfg, s, steps + more)
    ensures Run(cfg, s, steps + more) == Run(cfg, Run(cfg, s, steps), more)
    decreases |steps|
  {
    if steps == [] {
      assert steps + more == more;
    } else {
      RunAppend(cfg, Apply(cfg, s, steps[0]), steps[1..], more);
      assert (steps + more)[1..] == steps[1..] + more;
    }
  }

  lemma RunCons(cfg: Config, s: State, step: Step, steps: seq<Step>)
    requires Enabled(cfg, s, step) && CanRun(cfg, Apply(cfg, s, step), steps)
    ensures CanRun(cfg, s, [step] + steps) && Run(cfg, s, [step] + steps) == Run(cfg, Apply(cfg, s, step), steps)
  {
    hide Enabled, Apply;
    assert ([step] + steps)[1..] == steps;
  }

  lemma RunOne(cfg: Config, s: State, step: Step)
    requires Enabled(cfg, s, step)
    ensures CanRun(cfg, s, [step]) && Run(cfg, s, [step]) == Apply(cfg, s, step)
  {
    hide Enabled, Apply;
    RunCons(cfg, s, step, []);
    assert [step] + [] == [step];
  }

  // ---- invariant ----

  /** Every token and every call in flight carries the family its session was given, families are not shared,
      and no two live sessions are on one device. */
  ghost predicate FamiliesOk(s: State) {
    && (forall h :: h in s.tokens ==> BoundTo(s, s.tokens[h].sessionId, s.tokens[h].family))
    && (forall c :: c in s.flights ==> BoundTo(s, s.flights[c].sessionId, s.flights[c].family))
    && (forall i, j :: i in s.families && j in s.families && i != j ==> s.families[i] != s.families[j])
  }

  ghost predicate BoundTo(s: State, id: SessionId, family: Family) {
    id in s.sessions && id in s.families && s.families[id] == family
  }

  ghost predicate DevicesOk(s: State) {
    forall i, j :: i in s.sessions && j in s.sessions && i != j && !s.sessions[i].IsRevoked() && !s.sessions[j].IsRevoked()
      ==> s.sessions[i].deviceId != s.sessions[j].deviceId
  }

  ghost predicate Inv(s: State) {
    && FamiliesOk(s) && DevicesOk(s)
    && s.families.Keys == s.sessions.Keys
    && s.tokens.Keys <= s.usedHashes
  }

  lemma RevokeSessionsKeepsInv(s: State, ids: set<SessionId>)
    requires Inv(s)
    ensures Inv(RevokeSessions(s, ids))
  {
    var s' := RevokeSessions(s, ids);
    forall h | h in s'.tokens ensures BoundTo(s', s'.tokens[h].sessionId, s'.tokens[h].family) {
      assert BoundTo(s, s.tokens[h].sessionId, s.tokens[h].family);
    }
    forall c | c in s'.flights ensures BoundTo(s', s'.flights[c].sessionId, s'.flights[c].family) {
      assert BoundTo(s, s.flights[c].sessionId, s.flights[c].family);
    }
  }

  lemma RevokeTokensKeepsInv(s: State, hashes: set<Hash>)
    requires Inv(s)
    ensures Inv(RevokeTokens(s, hashes))
  {
    var s' := RevokeTokens(s, hashes);
    forall h | h in s'.tokens ensures BoundTo(s', s'.tokens[h].sessionId, s'.tokens[h].family) {
      assert BoundTo(s, s.tokens[h].sessionId, s.tokens[h].family);
    }
    forall c | c in s'.flights ensures BoundTo(s', s'.flights[c].sessionId, s'.flights[c].family) {
      assert BoundTo(s, s.flights[c].sessionId, s.flights[c].family);
    }
  }

  lemma LoginKeepsFamilies(cfg: Config, s: State, step: Step)
    requires Inv(s) && step.Login? && step.id !in s.sessions && step.family !in s.families.Values
    ensures FamiliesOk(LoggedIn(cfg, s, step))
  {
    var s' := LoggedIn(cfg, s, step);
    forall h | h in s'.tokens ensures BoundTo(s', s'.tokens[h].sessionId, s'.tokens[h].family) {
      if h != step.hash { assert BoundTo(s, s.tokens[h].sessionId, s.tokens[h].family); }
    }
    forall c | c in s'.flights ensures BoundTo(s', s'.flights[c].sessionId, s'.flights[c].family) {
      assert BoundTo(s, s.flights[c].sessionId, s.flights[c].family);
    }
    forall i | i in s.families ensures s.families[i] != step.family {
      assert s.families[i] in s.families.Values;
    }
  }

  lemma LoginKeepsInv(cfg: Config, s: State, step: Step)
    requires Inv(s) && step.Login? && Enabled(cfg, s, step)
    ensures Inv(LoggedIn(cfg, s, step))
  {
    LoginKeepsFamilies(cfg, s, step);
    RevokeSessionsKeepsInv(s, SessionsOnDevice(s, step.deviceId));
    hide FamiliesOk, SessionsOnDevice;
  }

  lemma RotateKeepsInv(cfg: Config, s: State, call: nat, hash: Hash)
    requires Inv(s) && call in s.flights && hash !in s.usedHashes
    ensures Inv(Rotated(cfg, s, s.flights[call], hash).(flights := s.flights - {call}))
  {
    var f := s.flights[call];
    RevokeTokensKeepsInv(s, {f.hash});
    assert BoundTo(s, f.sessionId, f.family);
    var s1 := RevokeTokens(s, {f.hash});
    var s' := Rotated(cfg, s, f, hash).(flights := s.flights - {call});
    forall h | h in s'.tokens ensures BoundTo(s', s'.tokens[h].sessionId, s'.tokens[h].family) {
      if h != hash { assert BoundTo(s1, s1.tokens[h].sessionId, s1.tokens[h].family); }
    }
    forall c | c in s'.flights ensures BoundTo(s', s'.flights[c].sessionId, s'.flights[c].family) {
      assert BoundTo(s, s.flights[c].sessionId, s.flights[c].family);
    }
  }

  lemma StepKeepsInv(cfg: Config, s: State, step: Step)
    requires Inv(s) && Enabled(cfg, s, step)
    ensures Inv(Apply(cfg, s, step))
  {
    match step
    case Login(_, _, _, _, _) => LoginKeepsInv(cfg, s, step);
    case RevokeSession(id) => RevokeSessionsKeepsInv(s, {id});
    case RevokeUserSessions(user) => RevokeSessionsKeepsInv(s, SessionsOfUser(s, user));
    case RevokeSessionTokens(id) => RevokeTokensKeepsInv(s, TokensOfSession(s, id));
    case RevokeFamily(family) => RevokeTokensKeepsInv(s, TokensOfFamily(s, family));
    case RefreshRotate(call, hash) => RotateKeepsInv(cfg, s, call, hash);
    case _ => QuietStepKeepsInv(cfg, s, step);
  }

  lemma QuietStepKeepsInv(cfg: Config, s: State, step: Step)
    requires Inv(s) && Enabled(cfg, s, step)
    requires step.Tick? || step.RefreshRead? || step.RefreshAbandon? || step.IssueAccess? || step.RevokeAccess? || step.Sweep?
    ensures Inv(Apply(cfg, s, step))
  {
    var s' := Apply(cfg, s, step);
    forall h | h in s'.tokens ensures BoundTo(s', s'.tokens[h].sessionId, s'.tokens[h].family) {
      assert BoundTo(s, s.tokens[h].sessionId, s.tokens[h].family);
    }
    forall c | c in s'.flights ensures BoundTo(s', s'.flights[c].sessionId, s'.flights[c].family) {
      if c in s.flights { assert BoundTo(s, s.flights[c].sessionId, s.flights[c].family); }
      if step.RefreshRead? { assert BoundTo(s, s.tokens[step.hash].sessionId, s.tokens[step.hash].family); }
    }
  }

  lemma {:induction false} RunKeepsInv(cfg: Config, s: State, steps: seq<Step>)
    requires Inv(s) && CanRun(cfg, s, steps)
    ensures Inv(Run(cfg, s, steps))
    decreases |steps|
  {
    if steps != [] {
      StepKeepsInv(cfg, s, steps[0]);
      RunKeepsInv(cfg, Apply(cfg, s, steps[0]), steps[1..]);
    }
  }
}

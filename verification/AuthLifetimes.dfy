/** How long tokens work: exact answers to a refresh and to a request at the end of any run. */
module AuthLifetimes {
  import opened Prelude
  import opened AuthProtocol
  import opened AuthTheorems

  // ---- time ----

  /** How long a run takes: only ticks take time. */
  function Elapsed(steps: seq<Step>): nat {
    if steps == [] then 0 else (if steps[0].Tick? then steps[0].elapsed else 0) + Elapsed(steps[1..])
  }

  lemma {:induction false} RunTakesItsTime(cfg: Config, s: State, steps: seq<Step>)
    requires CanRun(cfg, s, steps)
    ensures Run(cfg, s, steps).now == s.now + Elapsed(steps)
    decreases |steps|
  {
    if steps != [] {
      RunTakesItsTime(cfg, Apply(cfg, s, steps[0]), steps[1..]);
    }
  }

  // ---- what ends a session and a token ----

  /** A live session is revoked by exactly three steps: a revocation that names it, one that names its user, and a login
      that names its device. */
  lemma SessionsEndExactly(cfg: Config, s: State, step: Step, id: SessionId)
    requires Enabled(cfg, s, step) && id in s.sessions && s.sessions[id].revokedAt.None?
    ensures id in Apply(cfg, s, step).sessions
    ensures Apply(cfg, s, step).sessions[id].revokedAt == (
      if step == RevokeSession(id) || step == RevokeUserSessions(s.sessions[id].userId)
        || (step.Login? && step.deviceId != "" && step.deviceId == s.sessions[id].deviceId)
      then Some(s.now) else None)
  {
  }

  /** A live token is revoked by exactly three: a revocation of its session's tokens, one of its family's, and the rotation
      of a call that read it. */
  lemma TokensEndExactly(cfg: Config, s: State, step: Step, hash: Hash)
    requires Enabled(cfg, s, step) && hash in s.tokens && hash in s.usedHashes && s.tokens[hash].revokedAt.None?
    requires hash in Apply(cfg, s, step).tokens
    ensures Apply(cfg, s, step).tokens[hash] == s.tokens[hash].(revokedAt := (
      if step == RevokeSessionTokens(s.tokens[hash].sessionId) || step == RevokeFamily(s.tokens[hash].family)
        || (step.RefreshRotate? && s.flights[step.call].hash == hash)
      then Some(s.now) else None))
  {
  }

  // ---- the life of a refresh token ----

  /** The step ends neither the session `x` nor its token, and sweeps nothing that is not yet due. */
  predicate Spares(s: State, step: Step, hash: Hash, t: Token, x: Session) {
    match step
    case RevokeSession(id) => id != t.sessionId
    case RevokeUserSessions(user) => user != x.userId
    case Login(_, deviceId, _, _, _) => deviceId == "" || deviceId != x.deviceId
    case RevokeSessionTokens(id) => id != t.sessionId
    case RevokeFamily(family) => family != t.family
    case RefreshRotate(call, _) => call in s.flights ==> s.flights[call].hash != hash
    case Sweep(cutoff) => cutoff <= s.now
    case _ => true
  }

  ghost predicate Spared(cfg: Config, s: State, steps: seq<Step>, hash: Hash, t: Token, x: Session)
    requires CanRun(cfg, s, steps)
    decreases |steps|
  {
    steps == [] || (Spares(s, steps[0], hash, t, x) && Spared(cfg, Apply(cfg, s, steps[0]), steps[1..], hash, t, x))
  }

  /** Some sweep of the run was due to delete what expired at this time. */
  predicate SweptPast(steps: seq<Step>, expiresAt: Time) {
    exists k :: 0 <= k < |steps| && steps[k].Sweep? && steps[k].cutoff > expiresAt
  }

  /** The session is stored as `x`, and the token as `t` unless it was swept. */
  ghost predicate Stored(s: State, hash: Hash, t: Token, x: Session) {
    && t.sessionId in s.sessions && s.sessions[t.sessionId] == x && x.revokedAt.None? && t.revokedAt.None?
    && hash in s.usedHashes && (hash in s.tokens ==> s.tokens[hash] == t)
  }

  lemma StepSpares(cfg: Config, s: State, step: Step, hash: Hash, t: Token, x: Session)
    requires Enabled(cfg, s, step) && Stored(s, hash, t, x) && Spares(s, step, hash, t, x)
    ensures Stored(Apply(cfg, s, step), hash, t, x)
    ensures hash in Apply(cfg, s, step).tokens <==> hash in s.tokens && !(step.Sweep? && step.cutoff > t.expiresAt)
    ensures hash in s.tokens && hash !in Apply(cfg, s, step).tokens ==> t.expiresAt < s.now
    ensures s.now <= Apply(cfg, s, step).now
  {
  }

  lemma {:induction false} RunSpares(cfg: Config, s: State, steps: seq<Step>, hash: Hash, t: Token, x: Session)
    requires CanRun(cfg, s, steps) && Stored(s, hash, t, x) && Spared(cfg, s, steps, hash, t, x)
    ensures Stored(Run(cfg, s, steps), hash, t, x) && s.now <= Run(cfg, s, steps).now
    ensures hash in Run(cfg, s, steps).tokens <==> hash in s.tokens && !SweptPast(steps, t.expiresAt)
    ensures hash in s.tokens && hash !in Run(cfg, s, steps).tokens ==> t.expiresAt < Run(cfg, s, steps).now
    decreases |steps|
  {
    if steps != [] {
      var s1 := Apply(cfg, s, steps[0]);
      StepSpares(cfg, s, steps[0], hash, t, x);
      hide Enabled, Apply, Spares, Stored;
      RunSpares(cfg, s1, steps[1..], hash, t, x);
      assert SweptPast(steps, t.expiresAt) <==> (steps[0].Sweep? && steps[0].cutoff > t.expiresAt) || SweptPast(steps[1..], t.expiresAt) by {
        SweptFirstOrLater(steps, t.expiresAt);
      }
    }
  }

  lemma SweptFirstOrLater(steps: seq<Step>, expiresAt: Time)
    requires steps != []
    ensures SweptPast(steps, expiresAt) <==> (steps[0].Sweep? && steps[0].cutoff > expiresAt) || SweptPast(steps[1..], expiresAt)
  {
    if SweptPast(steps[1..], expiresAt) {
      var k :| 0 <= k < |steps[1..]| && steps[1..][k].Sweep? && steps[1..][k].cutoff > expiresAt;
      assert steps[k + 1] == steps[1..][k];
    }
    if SweptPast(steps, expiresAt) && !(steps[0].Sweep? && steps[0].cutoff > expiresAt) {
      var k :| 0 <= k < |steps| && steps[k].Sweep? && steps[k].cutoff > expiresAt;
      assert steps[1..][k - 1] == steps[k];
    }
  }

  /** What a refresh with a token that expires at `expiresAt`, of a session last active at `active`, is answered at `now`
      as long as nobody revoked either. */
  function LiveAnswer(cfg: Config, t: Token, active: Time, now: Time, swept: bool): RefreshOutcome {
    if now > t.expiresAt then (if swept then NotFound else Expired)
    else if now - active > cfg.inactivity then SessionInvalid
    else Rotates(t.sessionId, t.family)
  }

  /** Left alone, a live token of a live session is answered by the clock: accepted up to its expiry while the session is not
      idle for too long, and refused ever after. */
  lemma LiveTokenLasts(cfg: Config, s: State, steps: seq<Step>, hash: Hash)
    requires Reachable(cfg, s) && CanRun(cfg, s, steps) && hash in s.tokens && s.tokens[hash].revokedAt.None?
    requires s.tokens[hash].sessionId in s.sessions && s.sessions[s.tokens[hash].sessionId].revokedAt.None?
    requires Spared(cfg, s, steps, hash, s.tokens[hash], s.sessions[s.tokens[hash].sessionId])
    ensures
      var t := s.tokens[hash];
      Refresh(cfg, Run(cfg, s, steps), hash) ==
        LiveAnswer(cfg, t, s.sessions[t.sessionId].lastActivity, s.now + Elapsed(steps), SweptPast(steps, t.expiresAt))
  {
    ReachableInv(cfg, s);
    LiveTokenAnswers(cfg, s, steps, hash, s.tokens[hash], s.sessions[s.tokens[hash].sessionId]);
  }

  lemma LiveTokenAnswers(cfg: Config, s: State, steps: seq<Step>, hash: Hash, t: Token, x: Session)
    requires CanRun(cfg, s, steps) && Stored(s, hash, t, x) && hash in s.tokens && Spared(cfg, s, steps, hash, t, x)
    ensures Refresh(cfg, Run(cfg, s, steps), hash) ==
      LiveAnswer(cfg, t, x.lastActivity, s.now + Elapsed(steps), SweptPast(steps, t.expiresAt))
  {
    RunSpares(cfg, s, steps, hash, t, x);
    RunTakesItsTime(cfg, s, steps);
    hide CanRun, Run, Spared;
  }

  /** The token a rotation hands out is good for the refresh lifetime: presented after a time e in which nobody ended it, it
      rotates exactly when e is at most that lifetime and the session has not been idle for too long. */
  lemma RotatedTokenLasts(cfg: Config, s: State, call: nat, next: Hash, steps: seq<Step>)
    requires Reachable(cfg, s) && Enabled(cfg, s, RefreshRotate(call, next))
    requires s.flights[call].sessionId in s.sessions && s.sessions[s.flights[call].sessionId].revokedAt.None?
    requires var s' := Apply(cfg, s, RefreshRotate(call, next));
      && CanRun(cfg, s', steps) && next in s'.tokens
      && Spared(cfg, s', steps, next, s'.tokens[next], s.sessions[s.flights[call].sessionId])
    ensures
      var f, end := s.flights[call], Run(cfg, Apply(cfg, s, RefreshRotate(call, next)), steps);
      var e, idle := Elapsed(steps), s.now + Elapsed(steps) - s.sessions[f.sessionId].lastActivity;
      && (Refresh(cfg, end, next) == Rotates(f.sessionId, f.family) <==> e <= cfg.refreshExpiry && idle <= cfg.inactivity)
      && (e <= cfg.refreshExpiry && idle > cfg.inactivity ==> Refresh(cfg, end, next) == SessionInvalid)
      && (e > cfg.refreshExpiry ==> Refresh(cfg, end, next) == Expired || Refresh(cfg, end, next) == NotFound)
      && (e > cfg.refreshExpiry ==>
            (Refresh(cfg, end, next) == NotFound <==> SweptPast(steps, s.now + cfg.refreshExpiry)))
  {
    ReachableInv(cfg, s);
    var f := s.flights[call];
    var s' := Apply(cfg, s, RefreshRotate(call, next));
    assert s'.tokens[next] == Token(f.sessionId, f.family, s.now + cfg.refreshExpiry, None);
    hide Inv, Reachable, CanRun, Run, Spared;
    LiveTokenAnswers(cfg, s', steps, next, s'.tokens[next], s.sessions[f.sessionId]);
  }

  /** So is the token a login hands out; there the session has been idle since the login. */
  lemma FirstTokenLasts(cfg: Config, s: State, login: Step, steps: seq<Step>)
    requires login.Login? && Enabled(cfg, s, login)
    requires var s' := Apply(cfg, s, login);
      && CanRun(cfg, s', steps) && login.hash in s'.tokens && login.id in s'.sessions
      && Spared(cfg, s', steps, login.hash, s'.tokens[login.hash], s'.sessions[login.id])
    ensures
      var end, e := Run(cfg, Apply(cfg, s, login), steps), Elapsed(steps);
      && (Refresh(cfg, end, login.hash) == Rotates(login.id, login.family) <==> e <= cfg.refreshExpiry && e <= cfg.inactivity)
      && (e <= cfg.refreshExpiry && e > cfg.inactivity ==> Refresh(cfg, end, login.hash) == SessionInvalid)
      && (e > cfg.refreshExpiry ==> Refresh(cfg, end, login.hash) == Expired || Refresh(cfg, end, login.hash) == NotFound)
      && (e > cfg.refreshExpiry ==>
            (Refresh(cfg, end, login.hash) == NotFound <==> SweptPast(steps, s.now + cfg.refreshExpiry)))
  {
    var s' := Apply(cfg, s, login);
    assert s'.tokens[login.hash] == Token(login.id, login.family, s.now + cfg.refreshExpiry, None);
    assert s'.sessions[login.id] == Session(login.user, login.deviceId, s.now, None);
    hide CanRun, Run, Spared, Relogin;
    LiveTokenAnswers(cfg, s', steps, login.hash, s'.tokens[login.hash], s'.sessions[login.id]);
  }

  // ---- reuse is noticed until the sweep ----

  lemma StepKeepsRevokedToken(cfg: Config, s: State, step: Step, hash: Hash, t: Token)
    requires Enabled(cfg, s, step) && hash in s.usedHashes && (hash in s.tokens ==> s.tokens[hash] == t) && t.revokedAt.Some?
    requires t.sessionId in s.sessions
    ensures var s' := Apply(cfg, s, step);
      && hash in s'.usedHashes && t.sessionId in s'.sessions && (hash in s'.tokens ==> s'.tokens[hash] == t)
      && (hash in s'.tokens <==>
            hash in s.tokens && !(step.Sweep? && (step.cutoff > t.expiresAt || step.cutoff > t.revokedAt.value)))
  {
  }

  lemma {:induction false} RevokedTokenStays(cfg: Config, s: State, steps: seq<Step>, hash: Hash, t: Token)
    requires CanRun(cfg, s, steps) && hash in s.usedHashes && (hash in s.tokens ==> s.tokens[hash] == t) && t.revokedAt.Some?
    requires t.sessionId in s.sessions
    ensures var end := Run(cfg, s, steps);
      && t.sessionId in end.sessions && (hash in end.tokens ==> end.tokens[hash] == t)
      && (hash in end.tokens <==> hash in s.tokens && !SweptPast(steps, t.expiresAt) && !SweptPast(steps, t.revokedAt.value))
    decreases |steps|
  {
    if steps != [] {
      var s1 := Apply(cfg, s, steps[0]);
      StepKeepsRevokedToken(cfg, s, steps[0], hash, t);
      hide Enabled, Apply;
      RevokedTokenStays(cfg, s1, steps[1..], hash, t);
      SweptFirstOrLater(steps, t.expiresAt);
      SweptFirstOrLater(steps, t.revokedAt.value);
      hide SweptPast;
    }
  }

  /** A revoked token is recognised as reused in every continuation, expired or not, until a sweep whose cutoff is past its
      expiry or its revocation; from then on it is unknown. */
  lemma ReuseIsNoticedUntilSwept(cfg: Config, s: State, steps: seq<Step>, hash: Hash)
    requires Reachable(cfg, s) && CanRun(cfg, s, steps) && hash in s.tokens && s.tokens[hash].revokedAt.Some?
    ensures
      var t := s.tokens[hash];
      Refresh(cfg, Run(cfg, s, steps), hash) ==
        if SweptPast(steps, t.expiresAt) || SweptPast(steps, t.revokedAt.value) then NotFound
        else Reused(t.sessionId, t.family)
  {
    ReachableInv(cfg, s);
    assert BoundTo(s, s.tokens[hash].sessionId, s.tokens[hash].family);
    hide Inv, Reachable, SweptPast;
    RevokedTokenStays(cfg, s, steps, hash, s.tokens[hash]);
  }

  // ---- the life of an access token ----

  /** The token is neither issued again nor revoked. */
  predicate Untouched(steps: seq<Step>, token: string) {
    forall k :: 0 <= k < |steps| ==> steps[k] != RevokeAccess(token) && !(steps[k].IssueAccess? && steps[k].token == token)
  }

  /** The n-th step issued the token for this session, and nothing has been done to it since. */
  predicate IssuedLast(steps: seq<Step>, n: nat, token: string, id: SessionId) {
    n < |steps| && steps[n] == IssueAccess(token, id) && Untouched(steps[n + 1..], token)
  }

  lemma {:induction false} AccessKept(cfg: Config, s: State, steps: seq<Step>, token: string)
    requires CanRun(cfg, s, steps) && Untouched(steps, token)
    ensures token in Run(cfg, s, steps).access <==> token in s.access
    ensures token in s.access ==> Run(cfg, s, steps).access[token] == s.access[token]
    decreases |steps|
  {
    if steps != [] {
      assert forall k :: 0 <= k < |steps[1..]| ==> steps[1..][k] == steps[k + 1];
      var s1 := Apply(cfg, s, steps[0]);
      assert token in s1.access <==> token in s.access;
      assert token in s.access ==> s1.access[token] == s.access[token];
      AccessKept(cfg, s1, steps[1..], token);
    }
  }

  predicate Touches(step: Step, token: string) {
    step == RevokeAccess(token) || (step.IssueAccess? && step.token == token)
  }

  lemma {:induction false} LastTouch(steps: seq<Step>, token: string) returns (n: nat)
    requires !Untouched(steps, token)
    ensures n < |steps| && Touches(steps[n], token) && Untouched(steps[n + 1..], token)
    decreases |steps|
  {
    var rest := steps[1..];
    if Untouched(rest, token) {
      n := 0;
      var k :| 0 <= k < |steps| && Touches(steps[k], token);
      if k > 0 { assert rest[k - 1] == steps[k]; }
    } else {
      var m := LastTouch(rest, token);
      n := m + 1;
      assert steps[n + 1..] == rest[m + 1..];
    }
  }

  /** What the last step that touched a token left of it. */
  lemma {:induction false} AccessSince(cfg: Config, s: State, steps: seq<Step>, token: string, n: nat)
    requires CanRun(cfg, s, steps) && n < |steps| && Touches(steps[n], token) && Untouched(steps[n + 1..], token)
    ensures token in Run(cfg, s, steps).access <==> steps[n].IssueAccess?
    ensures var end := Run(cfg, s, steps);
      steps[n].IssueAccess? ==> end.access[token] == Access(steps[n].id, end.now - Elapsed(steps[n + 1..]) + cfg.accessExpiry)
    decreases |steps|
  {
    var s1 := Apply(cfg, s, steps[0]);
    var rest := steps[1..];
    if n == 0 {
      AccessKept(cfg, s1, rest, token);
      RunTakesItsTime(cfg, s1, rest);
    } else {
      hide Enabled, Apply;
      assert steps[n + 1..] == rest[n..];
      AccessSince(cfg, s1, rest, token, n - 1);
    }
  }

  /** The run issued the token for this session, left it alone since, and its lifetime is not over. */
  ghost predicate LiveIssue(cfg: Config, steps: seq<Step>, token: string, id: SessionId) {
    exists n :: IssuedLast(steps, n, token, id) && Elapsed(steps[n + 1..]) < cfg.accessExpiry
  }

  /** The key of a token is live exactly when the run's last word on it was to issue it, less than the access lifetime ago. */
  lemma KeyIsLiveIff(cfg: Config, start: Time, steps: seq<Step>, token: string, id: SessionId)
    requires CanRun(cfg, Initial(start), steps)
    ensures var end := Run(cfg, Initial(start), steps);
      LiveIssue(cfg, steps, token, id) <==> token in end.access && end.now < end.access[token].expiresAt && end.access[token].sessionId == id
  {
    var end := Run(cfg, Initial(start), steps);
    hide CanRun, Run;
    if LiveIssue(cfg, steps, token, id) {
      var n :| IssuedLast(steps, n, token, id) && Elapsed(steps[n + 1..]) < cfg.accessExpiry;
      AccessSince(cfg, Initial(start), steps, token, n);
    }
    if token in end.access && end.now < end.access[token].expiresAt && end.access[token].sessionId == id {
      if Untouched(steps, token) { AccessKept(cfg, Initial(start), steps, token); }
      var n := LastTouch(steps, token);
      AccessSince(cfg, Initial(start), steps, token, n);
      assert IssuedLast(steps, n, token, id);
    }
  }

  /** What the interceptor answers at the end of any run. A token is unknown unless the run issued it, has not revoked or
      reissued it, and less than the access lifetime has passed; then the session it was issued for decides. In particular a
      token never issued is never let in. */
  lemma AuthenticatedIff(cfg: Config, start: Time, steps: seq<Step>, token: string, userActive: UserId -> bool, id: SessionId)
    requires CanRun(cfg, Initial(start), steps)
    ensures
      var end := Run(cfg, Initial(start), steps);
      var answer := Authenticate(cfg, end, token, userActive);
      && (answer == InvalidToken <==> forall i :: !LiveIssue(cfg, steps, token, i))
      && (LiveIssue(cfg, steps, token, id) ==>
            && (answer == SessionRevoked <==> id !in end.sessions || end.sessions[id].revokedAt.Some?)
            && (answer == SessionExpired <==>
                  && id in end.sessions && end.sessions[id].revokedAt.None?
                  && end.now - end.sessions[id].lastActivity > cfg.inactivity)
            && (answer == AccountInactive <==>
                  && id in end.sessions && end.sessions[id].revokedAt.None?
                  && end.now - end.sessions[id].lastActivity <= cfg.inactivity && !userActive(end.sessions[id].userId)))
      && (answer == Authenticated(id) <==>
            && LiveIssue(cfg, steps, token, id)
            && id in end.sessions && end.sessions[id].revokedAt.None?
            && end.now - end.sessions[id].lastActivity <= cfg.inactivity && userActive(end.sessions[id].userId))
  {
    var end := Run(cfg, Initial(start), steps);
    KeyIsLiveIff(cfg, start, steps, token, id);
    if token in end.access { KeyIsLiveIff(cfg, start, steps, token, end.access[token].sessionId); }
    forall i ensures LiveIssue(cfg, steps, token, i) ==> token in end.access && end.access[token].sessionId == i && end.now < end.access[token].expiresAt {
      KeyIsLiveIff(cfg, start, steps, token, i);
    }
    hide CanRun, Run, LiveIssue;
  }
}

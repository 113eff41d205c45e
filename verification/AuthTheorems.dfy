/** What sessions and refresh tokens promise over runs. Calls interleave freely unless a theorem says
    that they are serialized. */
module AuthTheorems {
  import opened Prelude
  import opened AuthProtocol

  ghost predicate Reachable(cfg: Config, s: State) {
    exists start, steps :: CanRun(cfg, Initial(start), steps) && Run(cfg, Initial(start), steps) == s
  }

  lemma ReachableInv(cfg: Config, s: State)
    requires Reachable(cfg, s)
    ensures Inv(s)
  {
    var start, steps :| CanRun(cfg, Initial(start), steps) && Run(cfg, Initial(start), steps) == s;
    RunKeepsInv(cfg, Initial(start), steps);
  }

  // ---- revocation is final ----

  /** A session's record never changes but for being revoked, once. */
  ghost predicate SessionKept(s: State, s': State, id: SessionId) {
    && id in s.sessions && id in s'.sessions
    && s'.sessions[id].(revokedAt := None) == s.sessions[id].(revokedAt := None)
    && (s.sessions[id].IsRevoked() ==> s'.sessions[id] == s.sessions[id])
    && s.now <= s'.now
  }

  lemma StepKeepsSession(cfg: Config, s: State, step: Step, id: SessionId)
    requires Enabled(cfg, s, step) && id in s.sessions
    ensures SessionKept(s, Apply(cfg, s, step), id)
  {
  }

  lemma {:induction false} RunKeepsSession(cfg: Config, s: State, steps: seq<Step>, id: SessionId)
    requires CanRun(cfg, s, steps) && id in s.sessions
    ensures SessionKept(s, Run(cfg, s, steps), id)
    decreases |steps|
  {
    if steps != [] {
      StepKeepsSession(cfg, s, steps[0], id);
      RunKeepsSession(cfg, Apply(cfg, s, steps[0]), steps[1..], id);
    }
  }

  /** Once a session is invalid, revoked by any path or idle too long, then in every continuation no refresh
      token bound to it is accepted and no access token naming it authenticates, calls already in flight included. */
  lemma InvalidSessionIsFinal(cfg: Config, s: State, steps: seq<Step>, id: SessionId,
                              hash: Hash, token: string, userActive: UserId -> bool)
    requires CanRun(cfg, s, steps) && id in s.sessions && !s.sessions[id].IsValid(s.now, cfg.inactivity)
    ensures id in Run(cfg, s, steps).sessions
    ensures !Run(cfg, s, steps).sessions[id].IsValid(Run(cfg, s, steps).now, cfg.inactivity)
    ensures s.sessions[id].IsRevoked() ==> Run(cfg, s, steps).sessions[id] == s.sessions[id]
    ensures Refresh(cfg, Run(cfg, s, steps), hash).Rotates? ==> Refresh(cfg, Run(cfg, s, steps), hash).sessionId != id
    ensures Authenticate(cfg, Run(cfg, s, steps), token, userActive) != Authenticated(id)
  {
    RunKeepsSession(cfg, s, steps, id);
  }

  // ---- families and sessions ----

  /** Two tokens are of one family exactly when they are of one session. */
  lemma FamilyAndSessionCoincide(cfg: Config, s: State, g: Hash, h: Hash)
    requires Reachable(cfg, s) && g in s.tokens && h in s.tokens
    ensures s.tokens[g].family == s.tokens[h].family <==> s.tokens[g].sessionId == s.tokens[h].sessionId
  {
    ReachableInv(cfg, s);
    assert BoundTo(s, s.tokens[g].sessionId, s.tokens[g].family);
    assert BoundTo(s, s.tokens[h].sessionId, s.tokens[h].family);
  }

  /** So revoking a token's family and revoking its session's tokens are one and the same update. */
  lemma RevokingFamilyIsRevokingSession(cfg: Config, s: State, h: Hash)
    requires Reachable(cfg, s) && h in s.tokens
    ensures RevokeTokens(s, TokensOfFamily(s, s.tokens[h].family)) == RevokeTokens(s, TokensOfSession(s, s.tokens[h].sessionId))
  {
    forall g | g in s.tokens
      ensures g in TokensOfFamily(s, s.tokens[h].family) <==> g in TokensOfSession(s, s.tokens[h].sessionId)
    {
      FamilyAndSessionCoincide(cfg, s, g, h);
    }
    assert TokensOfFamily(s, s.tokens[h].family) == TokensOfSession(s, s.tokens[h].sessionId);
  }

  // ---- reuse ----

  /** After a reused token was met and its session revoked, its family never again yields an accepted pair:
      no token of the family is accepted later, whichever rotation was in flight. */
  lemma ReuseEndsTheFamily(cfg: Config, s: State, hash: Hash, steps: seq<Step>, later: Hash)
    requires Reachable(cfg, s) && Refresh(cfg, s, hash).Reused?
    requires
      var after := RevokeSessions(s, {Refresh(cfg, s, hash).sessionId});
      CanRun(cfg, after, steps)
    ensures
      var end := Run(cfg, RevokeSessions(s, {Refresh(cfg, s, hash).sessionId}), steps);
      Refresh(cfg, end, later).Rotates? ==> Refresh(cfg, end, later).family != Refresh(cfg, s, hash).family
  {
    var id, family := Refresh(cfg, s, hash).sessionId, Refresh(cfg, s, hash).family;
    var after := RevokeSessions(s, {id});
    ReachableInv(cfg, s);
    assert BoundTo(s, id, family);
    RevokeSessionsKeepsInv(s, {id});
    RunKeepsInv(cfg, after, steps);
    var end := Run(cfg, after, steps);
    RunKeepsSession(cfg, after, steps, id);
    RunKeepsFamily(cfg, after, steps, id);
    if Refresh(cfg, end, later).Rotates? {
      assert BoundTo(end, end.tokens[later].sessionId, end.tokens[later].family);
    }
  }

  lemma {:induction false} RunKeepsFamily(cfg: Config, s: State, steps: seq<Step>, id: SessionId)
    requires CanRun(cfg, s, steps) && id in s.families && id in s.sessions
    ensures id in Run(cfg, s, steps).families && Run(cfg, s, steps).families[id] == s.families[id]
    decreases |steps|
  {
    if steps != [] {
      StepKeepsSession(cfg, s, steps[0], id);
      RunKeepsFamily(cfg, Apply(cfg, s, steps[0]), steps[1..], id);
    }
  }

  /** Revoking the family alone would not do: a refresh that had read its token before the family was revoked
      still rotates, and its new token is accepted. */
  lemma FamilyRevocationAloneIsOvertaken(cfg: Config, s: State, call: nat, hash: Hash, next: Hash)
    requires Refresh(cfg, s, hash).Rotates? && call !in s.flights && next !in s.usedHashes && cfg.refreshExpiry >= 0
    ensures
      var steps := [RefreshRead(call, hash), RevokeFamily(s.tokens[hash].family), RefreshRotate(call, next)];
      CanRun(cfg, s, steps)
      && Refresh(cfg, Run(cfg, s, steps), next) == Rotates(s.tokens[hash].sessionId, s.tokens[hash].family)
  {
    var a, b, c := RefreshRead(call, hash), RevokeFamily(s.tokens[hash].family), RefreshRotate(call, next);
    var s1 := Apply(cfg, s, a);
    var s2 := Apply(cfg, s1, b);
    assert Enabled(cfg, s2, c);
    RunOne(cfg, s2, c);
    RunCons(cfg, s1, b, [c]);
    RunCons(cfg, s, a, [b] + [c]);
    assert [a] + ([b] + [c]) == [a, b, c];
  }

  /** No token of the family is live, none is in flight, and no login can be given the family again. */
  ghost predicate Ended(s: State, family: Family) {
    && family in s.families.Values && s.families.Keys <= s.sessions.Keys
    && (forall h :: h in s.tokens && s.tokens[h].family == family ==> s.tokens[h].IsRevoked())
    && (forall c :: c in s.flights ==> s.flights[c].family != family)
  }

  lemma StepKeepsEnded(cfg: Config, s: State, step: Step, family: Family)
    requires Ended(s, family) && Enabled(cfg, s, step)
    ensures Ended(Apply(cfg, s, step), family)
  {
    var id :| id in s.families && s.families[id] == family;
    var s' := Apply(cfg, s, step);
    assert step.Login? ==> step.family != family && s'.families == s.families[step.id := step.family];
    assert id in s'.families && s'.families[id] == family;
  }

  lemma {:induction false} RunKeepsEnded(cfg: Config, s: State, steps: seq<Step>, family: Family)
    requires Ended(s, family) && CanRun(cfg, s, steps)
    ensures Ended(Run(cfg, s, steps), family)
    decreases |steps|
  {
    if steps != [] {
      StepKeepsEnded(cfg, s, steps[0], family);
      hide Ended, Enabled, Apply;
      RunKeepsEnded(cfg, Apply(cfg, s, steps[0]), steps[1..], family);
    }
  }

  lemma AnyLongerString(used: set<string>) returns (n: nat)
    ensures forall h :: h in used ==> |h| <= n
    decreases |used|
  {
    n := 0;
    if used != {} {
      var h :| h in used;
      var rest := used - {h};
      var m := AnyLongerString(rest);
      n := if |h| > m then |h| else m;
      assert forall g :: g in used ==> g == h || g in rest;
    }
  }

  lemma UnusedHash(used: set<Hash>) returns (h: Hash)
    ensures h !in used
  {
    var n := AnyLongerString(used);
    h := seq(n + 1, _ => '0');
  }

  /** No continuation accepts a token of the family. */
  ghost predicate NeverAcceptedAgain(cfg: Config, s: State, family: Family) {
    forall steps, hash :: CanRun(cfg, s, steps) && Refresh(cfg, Run(cfg, s, steps), hash).Rotates?
      ==> Refresh(cfg, Run(cfg, s, steps), hash).family != family
  }

  /** Revoking the family alone, as when the session's revocation fails, is enough exactly when the session is no longer
      valid anyway or no refresh of the family is in flight. */
  lemma FamilyRevocationSufficesIff(cfg: Config, s: State, id: SessionId)
    requires Reachable(cfg, s) && id in s.sessions && id in s.families && cfg.refreshExpiry >= 0
    ensures NeverAcceptedAgain(cfg, RevokeTokens(s, TokensOfFamily(s, s.families[id])), s.families[id])
      <==> !s.sessions[id].IsValid(s.now, cfg.inactivity) || forall c :: c in s.flights ==> s.flights[c].family != s.families[id]
  {
    var family := s.families[id];
    var after := RevokeTokens(s, TokensOfFamily(s, family));
    ReachableInv(cfg, s);
    RevokeTokensKeepsInv(s, TokensOfFamily(s, family));
    if !s.sessions[id].IsValid(s.now, cfg.inactivity) {
      InvalidSessionEndsFamily(cfg, after, id);
    } else if forall c :: c in s.flights ==> s.flights[c].family != family {
      EndedIsNeverAccepted(cfg, after, family);
    } else {
      var c :| c in s.flights && s.flights[c].family == family;
      FlightOvertakes(cfg, after, id, c);
    }
  }

  lemma InvalidSessionEndsFamily(cfg: Config, s: State, id: SessionId)
    requires Inv(s) && id in s.sessions && !s.sessions[id].IsValid(s.now, cfg.inactivity)
    ensures NeverAcceptedAgain(cfg, s, s.families[id])
  {
    forall steps, hash | CanRun(cfg, s, steps) && Refresh(cfg, Run(cfg, s, steps), hash).Rotates?
      ensures Refresh(cfg, Run(cfg, s, steps), hash).family != s.families[id]
    {
      var end := Run(cfg, s, steps);
      RunKeepsInv(cfg, s, steps);
      RunKeepsSession(cfg, s, steps, id);
      RunKeepsFamily(cfg, s, steps, id);
      assert BoundTo(end, end.tokens[hash].sessionId, end.tokens[hash].family);
    }
  }

  lemma EndedIsNeverAccepted(cfg: Config, s: State, family: Family)
    requires Ended(s, family)
    ensures NeverAcceptedAgain(cfg, s, family)
  {
    forall steps, hash | CanRun(cfg, s, steps) && Refresh(cfg, Run(cfg, s, steps), hash).Rotates?
      ensures Refresh(cfg, Run(cfg, s, steps), hash).family != family
    {
      RunKeepsEnded(cfg, s, steps, family);
    }
  }

  lemma FlightOvertakes(cfg: Config, s: State, id: SessionId, c: nat)
    requires Inv(s) && id in s.sessions && s.sessions[id].IsValid(s.now, cfg.inactivity) && cfg.refreshExpiry >= 0
    requires c in s.flights && s.flights[c].family == s.families[id]
    ensures !NeverAcceptedAgain(cfg, s, s.families[id])
  {
    var next := UnusedHash(s.usedHashes);
    var step := RefreshRotate(c, next);
    assert BoundTo(s, s.flights[c].sessionId, s.flights[c].family);
    RunOne(cfg, s, step);
    assert Refresh(cfg, Run(cfg, s, [step]), next) == Rotates(id, s.families[id]);
  }

  // ---- one live token per family ----

  ghost predicate OneLive(s: State) {
    forall g, h :: (g in s.tokens && h in s.tokens && s.tokens[g].family == s.tokens[h].family
      && !s.tokens[g].IsRevoked() && !s.tokens[h].IsRevoked()) ==> g == h
  }

  /** The unrevoked tokens after a rotation: the new one, and the old ones but the one rotated. */
  lemma LiveAfterRotation(cfg: Config, s: State, call: nat, hash: Hash, h: Hash)
    requires Inv(s) && call in s.flights && hash !in s.usedHashes
    ensures var s', f := Apply(cfg, s, RefreshRotate(call, hash)), s.flights[call];
      && hash in s'.tokens && !s'.tokens[hash].IsRevoked() && s'.tokens[hash].family == f.family && hash !in s.tokens
      && (h != hash ==>
            && (h in s'.tokens <==> h in s.tokens)
            && (h in s.tokens ==> s'.tokens[h].family == s.tokens[h].family)
            && (h in s.tokens ==> (!s'.tokens[h].IsRevoked() <==> !s.tokens[h].IsRevoked() && h != f.hash)))
  {
  }

  /** A rotation keeps one live token per family exactly when the family's live tokens, at its commit, are
      none but the one it rotates. The rotation itself does not check. */
  lemma RotationKeepsOneLiveIff(cfg: Config, s: State, call: nat, hash: Hash)
    requires Inv(s) && OneLive(s) && call in s.flights && hash !in s.usedHashes
    ensures OneLive(Apply(cfg, s, RefreshRotate(call, hash))) <==>
      LiveTokens(s, s.flights[call].family) <= {s.flights[call].hash}
  {
    hide Inv, Apply;
    var f, s' := s.flights[call], Apply(cfg, s, RefreshRotate(call, hash));
    if h :| h in LiveTokens(s, f.family) && h != f.hash {
      LiveAfterRotation(cfg, s, call, hash, h);
    } else {
      forall g, h | g in s'.tokens && h in s'.tokens && s'.tokens[g].family == s'.tokens[h].family
        && !s'.tokens[g].IsRevoked() && !s'.tokens[h].IsRevoked()
        ensures g == h
      {
        LiveAfterRotation(cfg, s, call, hash, g);
        LiveAfterRotation(cfg, s, call, hash, h);
        assert s'.tokens[g].family == f.family && g != hash ==> g in LiveTokens(s, f.family);
        assert s'.tokens[h].family == f.family && h != hash ==> h in LiveTokens(s, f.family);
      }
    }
  }

  /** Nothing else makes a second live token. */
  lemma OtherStepsKeepOneLive(cfg: Config, s: State, step: Step)
    requires Inv(s) && OneLive(s) && Enabled(cfg, s, step) && !step.RefreshRotate?
    ensures OneLive(Apply(cfg, s, step))
  {
    if step.Login? {
      forall h | h in s.tokens ensures s.tokens[h].family != step.family {
        assert BoundTo(s, s.tokens[h].sessionId, s.tokens[h].family);
        assert s.tokens[h].family in s.families.Values;
      }
    }
  }

  /** At every rotation of the run, the family's live tokens are none but the one it rotates. */
  ghost predicate CleanRotations(cfg: Config, s: State, steps: seq<Step>)
    requires CanRun(cfg, s, steps)
    decreases |steps|
  {
    steps == [] ||
      ((steps[0].RefreshRotate? ==> LiveTokens(s, s.flights[steps[0].call].family) <= {s.flights[steps[0].call].hash})
       && CleanRotations(cfg, Apply(cfg, s, steps[0]), steps[1..]))
  }

  ghost predicate AlwaysOneLive(cfg: Config, s: State, steps: seq<Step>)
    requires CanRun(cfg, s, steps)
    decreases |steps|
  {
    OneLive(s) && (steps == [] || AlwaysOneLive(cfg, Apply(cfg, s, steps[0]), steps[1..]))
  }

  /** A run has one live token per family throughout exactly when each of its rotations is clean, whatever else happens
      and however refreshes overlap. */
  lemma {:induction false} AlwaysOneLiveIff(cfg: Config, s: State, steps: seq<Step>)
    requires Inv(s) && OneLive(s) && CanRun(cfg, s, steps)
    ensures AlwaysOneLive(cfg, s, steps) <==> CleanRotations(cfg, s, steps)
    decreases |steps|
  {
    if steps != [] {
      var step, s' := steps[0], Apply(cfg, s, steps[0]);
      StepKeepsInv(cfg, s, step);
      if step.RefreshRotate? {
        RotationKeepsOneLiveIff(cfg, s, step.call, step.hash);
      } else {
        OtherStepsKeepOneLive(cfg, s, step);
      }
      hide Inv, OneLive, Apply, LiveTokens;
      if OneLive(s') { AlwaysOneLiveIff(cfg, s', steps[1..]); }
    }
  }

  /** No refresh reads a token while another refresh of its family is in flight. All else may happen in between. */
  predicate SerialStep(s: State, step: Step) {
    step.RefreshRead? && step.hash in s.tokens ==> forall c :: c in s.flights ==> s.flights[c].family != s.tokens[step.hash].family
  }

  predicate Serial(cfg: Config, s: State, steps: seq<Step>)
    requires CanRun(cfg, s, steps)
    decreases |steps|
  {
    steps == [] || (SerialStep(s, steps[0]) && Serial(cfg, Apply(cfg, s, steps[0]), steps[1..]))
  }

  lemma {:induction false} SerialAppend(cfg: Config, s: State, steps: seq<Step>, more: seq<Step>)
    requires CanRun(cfg, s, steps) && Serial(cfg, s, steps)
    requires CanRun(cfg, Run(cfg, s, steps), more) && Serial(cfg, Run(cfg, s, steps), more)
    ensures CanRun(cfg, s, steps + more) && Serial(cfg, s, steps + more)
    decreases |steps|
  {
    RunAppend(cfg, s, steps, more);
    hide Enabled, Apply, SerialStep;
    if steps == [] {
      assert steps + more == more;
    } else {
      SerialAppend(cfg, Apply(cfg, s, steps[0]), steps[1..], more);
      assert (steps + more)[1..] == steps[1..] + more;
    }
  }

  /** One refresh in flight per family, and no live token of the family but the one it read. */
  ghost predicate FlightsAlone(s: State) {
    && (forall c, d :: c in s.flights && d in s.flights && s.flights[c].family == s.flights[d].family ==> c == d)
    && (forall c :: c in s.flights ==> FlightAlone(s, s.flights[c]))
  }

  ghost predicate FlightAlone(s: State, f: Flight) { LiveTokens(s, f.family) <= {f.hash} }

  /** A serial step opens no second flight of a family. */
  lemma FlightsStayApart(cfg: Config, s: State, step: Step)
    requires FlightsAlone(s) && Enabled(cfg, s, step) && SerialStep(s, step)
    ensures var s' := Apply(cfg, s, step);
      forall c, d :: c in s'.flights && d in s'.flights && s'.flights[c].family == s'.flights[d].family ==> c == d
  {
    hide FlightAlone;
    var s' := Apply(cfg, s, step);
    assert forall c :: c in s'.flights && !(step.RefreshRead? && c == step.call) ==> c in s.flights && s'.flights[c] == s.flights[c];
  }

  lemma SerialStepKeepsAlone(cfg: Config, s: State, step: Step)
    requires Inv(s) && OneLive(s) && FlightsAlone(s) && Enabled(cfg, s, step) && SerialStep(s, step)
    ensures FlightsAlone(Apply(cfg, s, step))
  {
    FlightsStayApart(cfg, s, step);
    var s' := Apply(cfg, s, step);
    forall c | c in s'.flights ensures FlightAlone(s', s'.flights[c]) {
      if c in s.flights {
        assert FlightAlone(s, s.flights[c]) && BoundTo(s, s.flights[c].sessionId, s.flights[c].family);
        assert s.flights[c].family in s.families.Values;
        OldFlightStaysAlone(cfg, s, step, c);
      }
    }
  }

  lemma OldFlightStaysAlone(cfg: Config, s: State, step: Step, c: nat)
    requires FlightsAlone(s) && Enabled(cfg, s, step) && c in s.flights && c in Apply(cfg, s, step).flights
    requires FlightAlone(s, s.flights[c]) && s.flights[c].family in s.families.Values
    ensures Apply(cfg, s, step).flights[c] == s.flights[c] && FlightAlone(Apply(cfg, s, step), s.flights[c])
  {
    assert step.RefreshRotate? ==> step.call != c && s.flights[step.call].family != s.flights[c].family;
    NoNewLiveTokens(cfg, s, step, s.flights[c].family);
  }

  /** A family that is not being rotated gains no live token. */
  lemma NoNewLiveTokens(cfg: Config, s: State, step: Step, family: Family)
    requires Enabled(cfg, s, step) && family in s.families.Values
    requires step.RefreshRotate? ==> s.flights[step.call].family != family
    ensures LiveTokens(Apply(cfg, s, step), family) <= LiveTokens(s, family)
  {
  }

  /** With the refreshes of each family serialized, whatever else comes between, each family has at most one unrevoked token
      at all times. */
  lemma {:induction false} SerializedRunsKeepOneLive(cfg: Config, s: State, steps: seq<Step>)
    requires Inv(s) && OneLive(s) && FlightsAlone(s) && CanRun(cfg, s, steps) && Serial(cfg, s, steps)
    ensures AlwaysOneLive(cfg, s, steps) && OneLive(Run(cfg, s, steps))
    decreases |steps|
  {
    if steps != [] {
      var step := steps[0];
      StepKeepsInv(cfg, s, step);
      if step.RefreshRotate? {
        assert FlightAlone(s, s.flights[step.call]);
        RotationKeepsOneLiveIff(cfg, s, step.call, step.hash);
      } else {
        OtherStepsKeepOneLive(cfg, s, step);
      }
      SerialStepKeepsAlone(cfg, s, step);
      hide Inv, OneLive, FlightsAlone, Apply, Enabled, SerialStep, LiveTokens;
      SerializedRunsKeepOneLive(cfg, Apply(cfg, s, step), steps[1..]);
    }
  }

  /** So has it after every such run from the start. */
  lemma OneLiveTokenPerFamily(cfg: Config, start: Time, steps: seq<Step>, g: Hash, h: Hash)
    requires CanRun(cfg, Initial(start), steps) && Serial(cfg, Initial(start), steps)
    requires var s := Run(cfg, Initial(start), steps);
      && g in s.tokens && h in s.tokens && s.tokens[g].family == s.tokens[h].family
      && !s.tokens[g].IsRevoked() && !s.tokens[h].IsRevoked()
    ensures g == h
  {
    SerializedRunsKeepOneLive(cfg, Initial(start), steps);
  }

  /** Serialization is needed. Whenever a token can be refreshed, two overlapping refreshes of it fork the
      family: both new tokens are live and both are accepted next. */
  lemma OverlappingRefreshesForkTheFamily(cfg: Config, s: State, hash: Hash, g: Hash, h: Hash)
    requires Refresh(cfg, s, hash).Rotates? && 0 !in s.flights && 1 !in s.flights && cfg.refreshExpiry >= 0
    requires g !in s.usedHashes && h !in s.usedHashes && g != h && s.tokens.Keys <= s.usedHashes
    ensures
      var steps := [RefreshRead(0, hash), RefreshRead(1, hash), RefreshRotate(0, g), RefreshRotate(1, h)];
      CanRun(cfg, s, steps)
      && Refresh(cfg, Run(cfg, s, steps), g) == Rotates(s.tokens[hash].sessionId, s.tokens[hash].family)
      && Refresh(cfg, Run(cfg, s, steps), h) == Rotates(s.tokens[hash].sessionId, s.tokens[hash].family)
  {
    var a, b, c, d := RefreshRead(0, hash), RefreshRead(1, hash), RefreshRotate(0, g), RefreshRotate(1, h);
    var s1 := Apply(cfg, s, a);
    var s2 := Apply(cfg, s1, b);
    assert s2.flights[0] == s2.flights[1] == Flight(hash, s.tokens[hash].sessionId, s.tokens[hash].family);
    var s3 := Apply(cfg, s2, c);
    assert Refresh(cfg, s3, g) == Rotates(s.tokens[hash].sessionId, s.tokens[hash].family);
    var s4 := Apply(cfg, s3, d);
    assert s4.tokens[g] == s3.tokens[g];
    RunOfFour(cfg, s, a, b, c, d);
  }

  lemma RunOfFour(cfg: Config, s: State, a: Step, b: Step, c: Step, d: Step)
    requires Enabled(cfg, s, a) && Enabled(cfg, Apply(cfg, s, a), b)
    requires var s2 := Apply(cfg, Apply(cfg, s, a), b); Enabled(cfg, s2, c) && Enabled(cfg, Apply(cfg, s2, c), d)
    ensures CanRun(cfg, s, [a, b, c, d])
    ensures Run(cfg, s, [a, b, c, d]) == Apply(cfg, Apply(cfg, Apply(cfg, Apply(cfg, s, a), b), c), d)
  {
    hide Enabled, Apply;
    var s1 := Apply(cfg, s, a);
    var s2 := Apply(cfg, s1, b);
    var s3 := Apply(cfg, s2, c);
    RunOne(cfg, s3, d);
    RunCons(cfg, s2, c, [d]);
    RunCons(cfg, s1, b, [c] + [d]);
    RunCons(cfg, s, a, [b] + ([c] + [d]));
    assert [a] + ([b] + ([c] + [d])) == [a, b, c, d];
  }

  /** What a refresh's read and rotation make of a state, with nothing in between. */
  lemma ReadThenRotate(cfg: Config, s: State, call: nat, hash: Hash, next: Hash)
    requires Refresh(cfg, s, hash).Rotates? && call !in s.flights && next !in s.usedHashes
    ensures Enabled(cfg, s, RefreshRead(call, hash))
    ensures var s1 := Apply(cfg, s, RefreshRead(call, hash));
      && Enabled(cfg, s1, RefreshRotate(call, next))
      && Apply(cfg, s1, RefreshRotate(call, next))
         == Rotated(cfg, s, Flight(hash, s.tokens[hash].sessionId, s.tokens[hash].family), next)
  {
    hide InsertToken, RevokeTokens;
    var f := Flight(hash, s.tokens[hash].sessionId, s.tokens[hash].family);
    assert s.flights[call := f] - {call} == s.flights;
    RotatedReads(cfg, s, s.flights[call := f], f, next);
  }

  lemma RotatedReads(cfg: Config, s: State, flights: map<nat, Flight>, f: Flight, next: Hash)
    ensures Rotated(cfg, s.(flights := flights), f, next) == Rotated(cfg, s, f, next).(flights := flights)
    ensures Rotated(cfg, s, f, next).flights == s.flights
  {
  }

  /** A refresh hands over: its old token is answered with reuse, its new one is accepted next. */
  lemma RotationHandsOver(cfg: Config, s: State, call: nat, hash: Hash, next: Hash)
    requires Inv(s) && Refresh(cfg, s, hash).Rotates? && call !in s.flights && next !in s.usedHashes && cfg.refreshExpiry >= 0
    ensures
      var s1 := Apply(cfg, s, RefreshRead(call, hash));
      var s2 := Apply(cfg, s1, RefreshRotate(call, next));
      Refresh(cfg, s2, hash) == Reused(s.tokens[hash].sessionId, s.tokens[hash].family)
      && Refresh(cfg, s2, next) == Rotates(s.tokens[hash].sessionId, s.tokens[hash].family)
      && s2.flights == s.flights
  {
    ReadThenRotate(cfg, s, call, hash, next);
    assert hash != next;
    hide Apply, Enabled;
  }

  // ---- the retention sweep ----

  /** A sweep whose cutoff is not in the future changes no acceptance. What it can change is a refusal: a swept
      token is no longer recognised, so its reuse goes unnoticed. */
  lemma SweepKeepsAcceptance(cfg: Config, s: State, cutoff: Time, hash: Hash)
    requires cutoff <= s.now
    ensures Refresh(cfg, SweepTokens(s, cutoff), hash) ==
      if hash in s.tokens && (s.tokens[hash].expiresAt < cutoff
        || (s.tokens[hash].revokedAt.Some? && s.tokens[hash].revokedAt.value < cutoff)) then NotFound
      else Refresh(cfg, s, hash)
    ensures Refresh(cfg, s, hash).Rotates? ==> Refresh(cfg, SweepTokens(s, cutoff), hash) == Refresh(cfg, s, hash)
    ensures OneLive(s) ==> OneLive(SweepTokens(s, cutoff))
  {
  }

  // ---- devices ----

  /** A login inserts its session exactly when it names a device, or nobody is logged in without one. */
  lemma LoginIsRefusedOnlyWithoutADevice(s: State, deviceId: string)
    ensures !DeviceConflict(Relogin(s, deviceId), deviceId) <==> deviceId != "" || !DeviceConflict(s, "")
  {
    var s' := Relogin(s, deviceId);
    if deviceId != "" {
      forall id | id in s'.sessions && s'.sessions[id].deviceId == deviceId ensures s'.sessions[id].IsRevoked() {
        assert id in SessionsOnDevice(s, deviceId);
      }
    }
  }

  /** The partial unique index holds in every reachable state. */
  lemma OneLiveSessionPerDevice(cfg: Config, s: State, i: SessionId, j: SessionId)
    requires Reachable(cfg, s) && i in s.sessions && j in s.sessions
    requires !s.sessions[i].IsRevoked() && !s.sessions[j].IsRevoked() && s.sessions[i].deviceId == s.sessions[j].deviceId
    ensures i == j
  {
    ReachableInv(cfg, s);
  }

  /** ListActiveDevicesByUser, as a set. */
  function Active(cfg: Config, s: State, user: UserId, now: Time): set<SessionId> {
    set id | id in s.sessions && s.sessions[id].userId == user && !s.sessions[id].IsRevoked()
      && s.sessions[id].lastActivity > now - cfg.inactivity
  }

  lemma StepShrinksActive(cfg: Config, s: State, step: Step, user: UserId, now: Time)
    requires Enabled(cfg, s, step)
    ensures Active(cfg, Apply(cfg, s, step), user, now) <=
      Active(cfg, s, user, now) + (if step.Login? && step.user == user then {step.id} else {})
  {
  }

  lemma SubsetIsNoLarger<T>(a: set<T>, b: set<T>)
    requires a <= b
    ensures |a| <= |b|
  {
    assert b == a + (b - a);
  }

  /** What a login adds to its user's active sessions: nothing when sessions time out at once. */
  function Added(cfg: Config): nat { if cfg.inactivity > 0 then 1 else 0 }

  /** The tables after a login. */
  lemma LoginTables(cfg: Config, s: State, login: Step)
    requires login.Login? && Enabled(cfg, s, login)
    ensures var s' := Apply(cfg, s, login);
      && s'.now == s.now && login.id !in Relogin(s, login.deviceId).sessions
      && s'.sessions == Relogin(s, login.deviceId).sessions[login.id := Session(login.user, login.deviceId, s.now, None)]
      && s'.families == s.families[login.id := login.family] && s'.usedHashes == s.usedHashes + {login.hash}
    ensures Relogin(s, login.deviceId).sessions.Keys == s.sessions.Keys
  {
  }

  /** A login leaves the active sessions that are left when those on its device are revoked, and its own. */
  lemma ActiveAfterLogin(cfg: Config, s: State, login: Step)
    requires login.Login? && Enabled(cfg, s, login)
    ensures |Active(cfg, Apply(cfg, s, login), login.user, s.now)| ==
      |Active(cfg, Relogin(s, login.deviceId), login.user, s.now)| + Added(cfg)
  {
    LoginTables(cfg, s, login);
    hide Apply, Enabled, Relogin;
    var left := Active(cfg, Relogin(s, login.deviceId), login.user, s.now);
    var after := Active(cfg, Apply(cfg, s, login), login.user, s.now);
    assert login.id !in left;
    assert after == if cfg.inactivity > 0 then left + {login.id} else left;
  }

  lemma ReloginShrinksActive(cfg: Config, s: State, deviceId: string, user: UserId)
    ensures Active(cfg, Relogin(s, deviceId), user, s.now) <= Active(cfg, s, user, s.now)
    ensures |Active(cfg, Relogin(s, deviceId), user, s.now)| <= |Active(cfg, s, user, s.now)|
  {
    SubsetIsNoLarger(Active(cfg, Relogin(s, deviceId), user, s.now), Active(cfg, s, user, s.now));
  }

  /** The login finds room: the sessions its device does not replace leave a place under the cap. */
  predicate FindsRoom(cfg: Config, s: State, login: Step)
    requires login.Login?
  {
    |Active(cfg, Relogin(s, login.deviceId), login.user, s.now)| + Added(cfg) <= cfg.maxDevices
  }

  /** Every login of the user in the run finds room. */
  ghost predicate RoomAtLogins(cfg: Config, s: State, steps: seq<Step>, user: UserId)
    requires CanRun(cfg, s, steps)
    decreases |steps|
  {
    steps == [] ||
      ((steps[0].Login? && steps[0].user == user ==> FindsRoom(cfg, s, steps[0]))
       && RoomAtLogins(cfg, Apply(cfg, s, steps[0]), steps[1..], user))
  }

  lemma {:induction false} RoomAppend(cfg: Config, s: State, steps: seq<Step>, more: seq<Step>, user: UserId)
    requires CanRun(cfg, s, steps) && RoomAtLogins(cfg, s, steps, user)
    requires CanRun(cfg, Run(cfg, s, steps), more) && RoomAtLogins(cfg, Run(cfg, s, steps), more, user)
    ensures CanRun(cfg, s, steps + more) && RoomAtLogins(cfg, s, steps + more, user)
    decreases |steps|
  {
    RunAppend(cfg, s, steps, more);
    hide Enabled, Apply, FindsRoom;
    if steps == [] {
      assert steps + more == more;
    } else {
      RoomAppend(cfg, Apply(cfg, s, steps[0]), steps[1..], more, user);
      assert (steps + more)[1..] == steps[1..] + more;
    }
  }

  predicate UnderCap(cfg: Config, s: State, user: UserId) { |Active(cfg, s, user, s.now)| <= cfg.maxDevices }

  ghost predicate AlwaysUnderCap(cfg: Config, s: State, steps: seq<Step>, user: UserId)
    requires CanRun(cfg, s, steps)
    decreases |steps|
  {
    UnderCap(cfg, s, user) && (steps == [] || AlwaysUnderCap(cfg, Apply(cfg, s, steps[0]), steps[1..], user))
  }

  /** One step keeps the user under the cap, unless it is a login of the user; that does exactly when it finds room. */
  lemma StepUnderCap(cfg: Config, s: State, step: Step, user: UserId)
    requires Enabled(cfg, s, step) && UnderCap(cfg, s, user)
    ensures UnderCap(cfg, Apply(cfg, s, step), user) <==> (step.Login? && step.user == user ==> FindsRoom(cfg, s, step))
  {
    var s' := Apply(cfg, s, step);
    if step.Login? && step.user == user {
      ActiveAfterLogin(cfg, s, step);
    } else {
      StepShrinksActive(cfg, s, step, user, s'.now);
      assert Active(cfg, s, user, s'.now) <= Active(cfg, s, user, s.now);
      SubsetIsNoLarger(Active(cfg, s', user, s'.now), Active(cfg, s, user, s.now));
    }
  }

  /** A user stays under the cap throughout a run, as the clock advances too, exactly when each of the user's logins finds
      room. */
  lemma {:induction false} AlwaysUnderCapIff(cfg: Config, s: State, steps: seq<Step>, user: UserId)
    requires CanRun(cfg, s, steps) && UnderCap(cfg, s, user)
    ensures AlwaysUnderCap(cfg, s, steps, user) <==> RoomAtLogins(cfg, s, steps, user)
    decreases |steps|
  {
    if steps != [] {
      StepUnderCap(cfg, s, steps[0], user);
      hide Enabled, Apply, UnderCap, FindsRoom;
      var s' := Apply(cfg, s, steps[0]);
      if UnderCap(cfg, s', user) { AlwaysUnderCapIff(cfg, s', steps[1..], user); }
    }
  }

  /** So the cap holds at the end of such a run. */
  lemma {:induction false} CapHolds(cfg: Config, s: State, steps: seq<Step>, user: UserId)
    requires CanRun(cfg, s, steps) && RoomAtLogins(cfg, s, steps, user) && UnderCap(cfg, s, user)
    ensures UnderCap(cfg, Run(cfg, s, steps), user)
    decreases |steps|
  {
    if steps != [] {
      StepUnderCap(cfg, s, steps[0], user);
      hide Enabled, Apply, UnderCap, FindsRoom;
      CapHolds(cfg, Apply(cfg, s, steps[0]), steps[1..], user);
    }
  }

  /** Two logins of one user on new devices, both let in on the same count, end with both of them above it: a count that
      leaves each of them room leaves both of them room exactly when it is two below the cap. */
  lemma OverlappingLogins(cfg: Config, s: State, a: Step, b: Step)
    requires a.Login? && b.Login? && a.user == b.user && a.id != b.id && a.family != b.family && a.hash != b.hash
    requires a.deviceId != b.deviceId && a.deviceId != "" && b.deviceId != ""
    requires Enabled(cfg, s, a) && Enabled(cfg, s, b) && cfg.inactivity > 0
    requires forall id :: id in Active(cfg, s, a.user, s.now) ==> s.sessions[id].deviceId != a.deviceId && s.sessions[id].deviceId != b.deviceId
    ensures CanRun(cfg, s, [a, b])
    ensures |Active(cfg, Run(cfg, s, [a, b]), a.user, s.now)| == |Active(cfg, s, a.user, s.now)| + 2
    ensures FindsRoom(cfg, s, a) && FindsRoom(cfg, s, b) ==>
      (UnderCap(cfg, Run(cfg, s, [a, b]), a.user) <==> |Active(cfg, s, a.user, s.now)| <= cfg.maxDevices - 2)
  {
    var s1 := Apply(cfg, s, a);
    var before := Active(cfg, s, a.user, s.now);
    ReloginElsewhere(cfg, s, a.deviceId, a.user);
    ActiveAfterLogin(cfg, s, a);
    SecondLogin(cfg, s, a, b);
    ActiveAfterLogin(cfg, s1, b);
    ReloginElsewhere(cfg, s1, b.deviceId, a.user);
    RunOne(cfg, s1, b);
    RunCons(cfg, s, a, [b]);
    assert [a] + [b] == [a, b];
  }

  /** With a cap of one, two such logins of any user already exceed it from the start. */
  lemma TwoLoginsExceedACapOfOne(cfg: Config, start: Time, user: UserId)
    requires cfg.maxDevices == 1 && cfg.inactivity > 0
    ensures var s, a, b := Initial(start), Login(user, "a", 1, 1, "1"), Login(user, "b", 2, 2, "2");
      && FindsRoom(cfg, s, a) && FindsRoom(cfg, s, b)
      && CanRun(cfg, s, [a, b]) && !UnderCap(cfg, Run(cfg, s, [a, b]), user)
  {
    var s, a, b := Initial(start), Login(user, "a", 1, 1, "1"), Login(user, "b", 2, 2, "2");
    assert Active(cfg, s, user, s.now) == {};
    assert "a"[0] != "b"[0] && "1"[0] != "2"[0];
    ReloginShrinksActive(cfg, s, "a", user);
    ReloginShrinksActive(cfg, s, "b", user);
    OverlappingLogins(cfg, s, a, b);
  }

  /** A login on a device none of the user's active sessions is on replaces none of them. */
  lemma ReloginElsewhere(cfg: Config, s: State, deviceId: string, user: UserId)
    requires forall id :: id in Active(cfg, s, user, s.now) ==> s.sessions[id].deviceId != deviceId
    ensures Active(cfg, Relogin(s, deviceId), user, s.now) == Active(cfg, s, user, s.now)
  {
  }

  lemma ReloginKeepsDevices(s: State, deviceId: string)
    ensures forall id :: id in Relogin(s, deviceId).sessions ==> Relogin(s, deviceId).sessions[id].deviceId == s.sessions[id].deviceId
    ensures Relogin(s, deviceId).sessions.Keys == s.sessions.Keys
  {
  }

  lemma SecondLogin(cfg: Config, s: State, a: Step, b: Step)
    requires a.Login? && b.Login? && a.user == b.user && a.id != b.id && a.family != b.family && a.hash != b.hash
    requires a.deviceId != b.deviceId && b.deviceId != "" && Enabled(cfg, s, a) && Enabled(cfg, s, b)
    requires forall id :: id in Active(cfg, s, a.user, s.now) ==> s.sessions[id].deviceId != b.deviceId
    ensures Enabled(cfg, Apply(cfg, s, a), b) && Apply(cfg, s, a).now == s.now
    ensures forall id :: id in Active(cfg, Apply(cfg, s, a), a.user, s.now) ==> Apply(cfg, s, a).sessions[id].deviceId != b.deviceId
  {
    LoginIsRefusedOnlyWithoutADevice(Apply(cfg, s, a), b.deviceId);
    LoginTables(cfg, s, a);
    ReloginShrinksActive(cfg, s, a.deviceId, a.user);
    ReloginKeepsDevices(s, a.deviceId);
    hide Apply, Relogin, DeviceConflict;
  }

  // ---- listing against validity ----

  /** A session the active listing leaves out is invalid at every strictly later time. */
  lemma UnlistedIsInvalidLater(cfg: Config, s: State, user: UserId, id: SessionId, later: Time)
    requires id in s.sessions && s.sessions[id].userId == user && id !in Active(cfg, s, user, s.now) && later > s.now
    ensures !s.sessions[id].IsValid(later, cfg.inactivity)
  {
  }

  /** Strictly: a session idle for exactly the timeout is left out of the listing, yet valid at that instant. */
  lemma UnlistedYetValidNow(cfg: Config, s: State, user: UserId, id: SessionId)
    requires id in s.sessions && s.sessions[id].userId == user && !s.sessions[id].IsRevoked()
    ensures id !in Active(cfg, s, user, s.now) && s.sessions[id].IsValid(s.now, cfg.inactivity)
      <==> s.now - s.sessions[id].lastActivity == cfg.inactivity
  {
  }
}

/** Rows that have used up their ten retries: they exist, and nothing ever becomes of them. */
module OutboxExhaustion {
  import opened Prelude
  import opened Outbox
  import opened OutboxProtocol
  import opened OutboxInvariant
  import opened OutboxTheorems

  // ---- never dead-lettered ----

  /** The row is out of retries or gone, and has no dead letter. */
  ghost predicate GivenUp(s: State, id: RowId) {
    id in s.history && (id in s.table ==> s.table[id].retryCount >= MAX_RETRY) && id !in Sources(s.dead)
  }

  /** No letter of an open drain is about a given-up row. */
  lemma GivenUpHasNoLetter(cfg: Config, s: State, d: nat, id: RowId)
    requires Inv(cfg, s) && GivenUp(s, id) && d in s.drainers
    ensures id !in Sources(s.drainers[d].letters)
  {
    assert TxOk(cfg, s.drainers[d], s.table, s.tasks, s.locks, d);
    StagedIsClaimed(cfg, s, d);
    HeldRowsArePending(cfg, s, id);
    assert id !in s.drainers[d].batch;
  }

  lemma StepKeepsGivenUp(cfg: Config, s: State, step: Step, id: RowId)
    requires Inv(cfg, s) && GivenUp(s, id) && Enabled(cfg, s, step)
    ensures GivenUp(Apply(cfg, s, step), id)
  {
    StepMovesForward(cfg, s, step, id);
    LettersOfStep(cfg, s, step);
    if step.Commit? {
      GivenUpHasNoLetter(cfg, s, step.d, id);
      SourcesOfConcat(s.dead, s.drainers[step.d].letters);
    }
    hide Inv, Apply, Enabled, Sources;
  }

  lemma {:induction false} RunKeepsGivenUp(cfg: Config, s: State, steps: seq<Step>, id: RowId)
    requires Inv(cfg, s) && GivenUp(s, id) && CanRun(cfg, s, steps)
    ensures GivenUp(Run(cfg, s, steps), id)
    decreases |steps|
  {
    hide Inv, GivenUp, Enabled, Apply;
    if steps != [] {
      StepKeepsGivenUp(cfg, s, steps[0], id);
      StepKeepsInv(cfg, s, steps[0]);
      RunKeepsGivenUp(cfg, Apply(cfg, s, steps[0]), steps[1..], id);
    }
  }

  /** An unprocessed row at ten retries is never dead-lettered, in any continuation. */
  lemma ExhaustedIsNeverDeadLettered(cfg: Config, s: State, steps: seq<Step>, id: RowId)
    requires Reachable(cfg, s) && CanRun(cfg, s, steps)
    requires id in s.table && s.table[id].processedAt.None? && s.table[id].retryCount >= 10
    ensures id !in Sources(Run(cfg, s, steps).dead)
  {
    ReachableInv(cfg, s);
    ClosedAtMostOnce(cfg, s);
    assert id in s.history;
    RunKeepsGivenUp(cfg, s, steps, id);
  }

  // ---- such rows exist ----

  predicate CanFail(cfg: Config, e: Event, n: nat) {
    exists k :: 0 <= k < n && k < |cfg.Subs(e)| && (cfg.Subs(e)[k].isAsync || cfg.Subs(e)[k].critical)
  }

  /** Row 1 has n drain failures behind it, each as soon after the one before as the backoff allows. */
  ghost predicate FailedInTime(s: State, e: Event, n: nat) {
    && s.table.Keys == {1} && 1 in s.history && !s.history[1].publisherFailed && s.history[1].failed == n
    && var row := s.table[1];
      row.event == e && row.processedAt.None? && row.retryCount == n && row.createdAt <= s.now
      && (n == 0 ==> row.lastAttemptedAt.None?)
      && (n >= 1 ==> s.history[1].firstFailure.Some?)
      && (n >= 1 ==> row.lastAttemptedAt == Some(s.history[1].firstFailure.value + Schedule(n) + (n - 1)))
  }

  /** The n-th failure has just been committed, or the row been written. */
  ghost predicate Waiting(cfg: Config, s: State, e: Event, n: nat) {
    && Reachable(cfg, s) && s.locks == map[] && s.drainers == map[]
    && FailedInTime(s, e, n) && (n >= 1 ==> s.table[1].lastAttemptedAt == Some(s.now))
  }

  /** Drainer 0 stands before the row, at the first instant the backoff lets it. */
  ghost predicate Holding(cfg: Config, s: State, e: Event, n: nat, d: Dispatch) {
    && Reachable(cfg, s) && s.drainers.Keys == {0} && s.locks.Keys == {1}
    && s.drainers[0] == DrainTx(s.now, true, [1], 0, d, map[], [])
    && FailedInTime(s, e, n)
    && (n >= 1 ==> s.now == s.history[1].firstFailure.value + Schedule(n + 1) + n)
  }

  /** Drainer 0 begins when the wait is over, and the row is all it can claim. */
  lemma BeginsAlone(cfg: Config, s: State, e: Event, n: nat) returns (s': State)
    requires Waiting(cfg, s, e, n) && n < 10
    ensures var now := if n == 0 then s.now else s.history[1].firstFailure.value + Schedule(n + 1) + n;
      && s' == WithTx(s.(now := now), 0, DrainTx(now, false, [], 0, START, map[], [])) && now >= s.now
      && Candidates(s'.table, s'.locks.Keys, now) == {1}
    ensures Reachable(cfg, s')
  {
    var wait := if n == 0 then 0 else WAITS[n - 1] * 1_000_000 + 1;
    if n >= 1 { ClaimableAfterItsWait(s.table[1], s.now + wait); }
    assert Claimable(s.table[1], s.now + wait);
    hide Reachable, Claimable;
    ReachableNext(cfg, s, Tick(wait));
    var s1 := s.(now := s.now + wait);
    ReachableNext(cfg, s1, Begin(0));
    s' := Apply(cfg, s1, Begin(0));
  }

  lemma ClaimsAlone(s: State)
    requires s.drainers == map[0 := DrainTx(s.now, false, [], 0, START, map[], [])] && s.locks == map[]
    requires Candidates(s.table, s.locks.Keys, s.now) == {1}
    ensures var s' := Claimed(s, 0, 1);
      s' == s.(drainers := map[0 := DrainTx(s.now, true, [1], 0, START, map[], [])], locks := map[1 := 0])
  {
    hide Claimable, Select;
    SelectIsOrderedPrefix(s.table, {1}, 1);
    assert Claimed(s, 0, 1).drainers[0].batch == [1];
  }

  lemma ClaimsTheRow(cfg: Config, s: State, e: Event, n: nat) returns (s': State)
    requires Waiting(cfg, s, e, n) && n < 10
    ensures Holding(cfg, s', e, n, START)
  {
    var s1 := BeginsAlone(cfg, s, e, n);
    hide Reachable, Candidates, Claimable, Claimed, Select, Schedule;
    ClaimsAlone(s1);
    ReachableNext(cfg, s1, Claim(0, 1));
    s' := Claimed(s1, 0, 1);
  }

  /** Every subscription up to the n-th fails the event. */
  lemma {:induction false} EachFails(cfg: Config, s: State, e: Event, n: nat, k: nat) returns (s': State, d: Dispatch)
    requires Holding(cfg, s, e, n, START) && cfg.decode(e).Decoded? && n < 10 && k <= |cfg.Subs(e)|
    ensures Holding(cfg, s', e, n, d) && d.next == k
    ensures CanFail(cfg, e, k) ==> d.Error().Some?
    decreases k
  {
    if k == 0 {
      s', d := s, START;
    } else {
      var s0, d0 := EachFails(cfg, s, e, n, k - 1);
      var reply := if cfg.Subs(e)[k - 1].isAsync then Refused(false) else HandlerFailed("failed");
      hide Reachable, CanFail;
      ReachableNext(cfg, s0, DrainDispatch(0, reply));
      s' := Apply(cfg, s0, DrainDispatch(0, reply));
      d := DispatchAfter(cfg, e, d0, reply);
      MoreCanFail(cfg, e, k);
    }
  }

  lemma MoreCanFail(cfg: Config, e: Event, k: nat)
    requires 0 < k <= |cfg.Subs(e)|
    ensures CanFail(cfg, e, k) ==> CanFail(cfg, e, k - 1) || cfg.Subs(e)[k - 1].isAsync || cfg.Subs(e)[k - 1].critical
  {
  }

  /** Settle and commit. */
  lemma FailureCommits(cfg: Config, s: State, e: Event, n: nat, d: Dispatch) returns (s': State)
    requires Holding(cfg, s, e, n, d) && cfg.decode(e).Decoded? && n < 10
    requires d.next == |cfg.Subs(e)| && d.Error().Some?
    ensures Waiting(cfg, s', e, n + 1)
  {
    var failed := MarkFailed(s.table[1], s.now, d.Error().value);
    var s1 := SettlesFailed(cfg, s, e, n, d);
    hide Reachable;
    ReachableNext(cfg, s1, Commit(0));
    s' := Committed(s1, 0);
    assert s'.drainers == map[] && s'.locks == map[] && s'.table[1] == failed;
  }

  lemma SettlesFailed(cfg: Config, s: State, e: Event, n: nat, d: Dispatch) returns (s': State)
    requires Holding(cfg, s, e, n, d) && cfg.decode(e).Decoded? && n < 10
    requires d.next == |cfg.Subs(e)| && d.Error().Some?
    ensures Reachable(cfg, s')
    ensures s' == WithTx(s, 0, DrainTx(s.now, true, [1], 1, START, map[1 := MarkFailed(s.table[1], s.now, d.Error().value)], []))
  {
    hide Reachable;
    ReachableNext(cfg, s, Settle(0));
    s' := Settled(s, 0);
    assert s'.drainers[0].staged == map[1 := MarkFailed(s.table[1], s.now, d.Error().value)];
  }

  /** For every event that decodes and has a subscription whose failure counts, and every n up to ten, drains alone can
      bring its row to n failures, the n-th exactly one microsecond per failure over the schedule after the first: the retry
      limit is reached, and no smaller bound on the time it takes holds. */
  lemma {:induction false} RetriesAreReached(cfg: Config, e: Event, n: nat) returns (s: State)
    requires cfg.decode(e).Decoded? && CanFail(cfg, e, |cfg.Subs(e)|) && n <= 10
    ensures Waiting(cfg, s, e, n)
    decreases n
  {
    if n == 0 {
      assert CanRun(cfg, Initial(0), []) && Run(cfg, Initial(0), []) == Initial(0);
      ReachableNext(cfg, Initial(0), CommitPublish(1, e, None, 0));
      s := Apply(cfg, Initial(0), CommitPublish(1, e, None, 0));
      hide Reachable;
    } else {
      var s0 := RetriesAreReached(cfg, e, n - 1);
      var s1 := ClaimsTheRow(cfg, s0, e, n - 1);
      var s2, d := EachFails(cfg, s1, e, n - 1, |cfg.Subs(e)|);
      s := FailureCommits(cfg, s2, e, n - 1, d);
    }
  }
}

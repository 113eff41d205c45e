/** What the outbox promises over every run: any publishers, drainers, crashes, rollbacks and sweeps,
    in any interleaving. */
module OutboxTheorems {
  import opened Prelude
  import opened Outbox
  import opened OutboxProtocol
  import opened OutboxInvariant
  import opened OutboxMeasure

  /** s is the end of some run from an empty outbox. */
  ghost predicate Reachable(cfg: Config, s: State) {
    exists start, steps :: CanRun(cfg, Initial(start), steps) && Run(cfg, Initial(start), steps) == s
  }

  lemma ReachableNext(cfg: Config, s: State, step: Step)
    requires Reachable(cfg, s) && Enabled(cfg, s, step)
    ensures Reachable(cfg, Apply(cfg, s, step))
  {
    hide Enabled, Apply;
    var start, steps :| CanRun(cfg, Initial(start), steps) && Run(cfg, Initial(start), steps) == s;
    RunOne(cfg, s, step);
    RunAppend(cfg, Initial(start), steps, [step]);
    assert Run(cfg, Initial(start), steps + [step]) == Apply(cfg, s, step);
  }

  lemma ReachableInv(cfg: Config, s: State)
    requires Reachable(cfg, s)
    ensures Inv(cfg, s)
  {
    var start, steps :| CanRun(cfg, Initial(start), steps) && Run(cfg, Initial(start), steps) == s;
    InitialInv(cfg, start);
    RunKeepsInv(cfg, Initial(start), steps);
  }

  /** No committed event is lost. Every row ever committed, swept or not, is still unprocessed, or is
      in the dead-letter table, or the queue has taken every one of its asynchronous tasks. */
  lemma NoCommittedEventIsLost(cfg: Config, s: State, id: RowId)
    requires Reachable(cfg, s) && id in s.history
    ensures
      || (id in s.table && s.table[id].processedAt.None? && s.table[id].event == s.history[id].event)
      || (exists k :: 0 <= k < |s.dead| && s.dead[k].source == id)
      || AllCovered(cfg, s.tasks, s.history[id].event)
  {
    ReachableInv(cfg, s);
    assert IdOk(cfg, s, id);
    if id in Sources(s.dead) {
      var k :| 0 <= k < |s.dead| && s.dead[k].source == id;
    }
  }

  /** Rows other drainers hold are never claimed: whatever two open drains claimed is disjoint. */
  lemma OpenClaimsAreDisjoint(cfg: Config, s: State, d: nat, e: nat)
    requires Reachable(cfg, s) && d in s.drainers && e in s.drainers && d != e
    ensures forall id :: id in s.drainers[d].batch ==> id !in s.drainers[e].batch
  {
    ReachableInv(cfg, s);
    ClaimsAreDisjoint(cfg, s, d, e);
  }

  /** At most one committed drain closes a row, at most one dead letter names it, a dead-lettered row
      left in the table is processed, and no letter says retry_exhausted: that arm is never taken. */
  lemma ClosedAtMostOnce(cfg: Config, s: State)
    requires Reachable(cfg, s)
    ensures forall id :: id in s.history ==> s.history[id].closed <= 1
    ensures forall k, l :: 0 <= k < l < |s.dead| ==> s.dead[k].source != s.dead[l].source
    ensures forall k :: 0 <= k < |s.dead| ==>
      && s.dead[k].reason != RetryExhausted
      && s.dead[k].source in s.history && s.history[s.dead[k].source].closed == 1
      && (s.dead[k].source in s.table ==> s.table[s.dead[k].source].processedAt.Some?)
  {
    ReachableInv(cfg, s);
    forall k | 0 <= k < |s.dead|
      ensures s.dead[k].source in s.history && s.history[s.dead[k].source].closed == 1
      ensures s.dead[k].source in s.table ==> s.table[s.dead[k].source].processedAt.Some?
    {
      assert s.dead[k].source in Sources(s.dead);
      assert IdOk(cfg, s, s.dead[k].source);
    }
    forall id | id in s.history ensures s.history[id].closed <= 1 {
      assert IdOk(cfg, s, id);
    }
  }

  /** Each row gets at most ten committed drain attempts, the closing one included. */
  lemma AtMostTenAttempts(cfg: Config, s: State, id: RowId)
    requires Reachable(cfg, s) && id in s.history
    ensures s.history[id].failed + s.history[id].closed <= 10
  {
    ReachableInv(cfg, s);
    assert IdOk(cfg, s, id);
  }

  /** The partial unique index on pending rows holds at all times, marks and retries included. */
  lemma OnePendingPerDedupeKey(cfg: Config, s: State, i: RowId, j: RowId)
    requires Reachable(cfg, s) && i in s.table && j in s.table
    requires s.table[i].processedAt.None? && s.table[j].processedAt.None? && s.table[j].dedupeKey.Some?
    requires s.table[i].dedupeKey == s.table[j].dedupeKey && s.table[i].event.eventType == s.table[j].event.eventType
    ensures i == j
  {
    ReachableInv(cfg, s);
    assert i != j ==> !Duplicates(s.table[i], s.table[j].event, s.table[j].dedupeKey);
  }

  /** A row under a fresh id is inserted exactly when no unprocessed row has its type and its deduplication key; without a key
      it always is. */
  lemma InsertGoesThroughIff(cfg: Config, s: State, id: RowId, event: Event, key: Option<string>, createdAt: Time)
    requires id > 0 && id !in s.history && createdAt <= s.now
    ensures Enabled(cfg, s, CommitPublish(id, event, key, createdAt)) <==>
      key.None? || forall i :: i in s.table && s.table[i].processedAt.None? && s.table[i].dedupeKey == key
                              ==> s.table[i].event.eventType != event.eventType
    ensures Enabled(cfg, s, CommitPublish(id, event, key, createdAt)) ==>
      var s' := Apply(cfg, s, CommitPublish(id, event, key, createdAt));
      s'.table == s.table[id := Row(event, key, createdAt, None, 0, None, None)]
  {
    if DedupeConflict(s.table, event, key) {
      var i :| i in s.table && Duplicates(s.table[i], event, key);
    }
  }

  // ---- what no later step undoes ----

  /** A row only moves forward: gone stays gone, processed stays processed, retries never decrease. */
  ghost predicate Forward(s: State, s': State, id: RowId) {
    && (id in s.history ==> id in s'.history && s'.history[id].event == s.history[id].event)
    && (id in s.history && id !in s.table ==> id !in s'.table)
    && (id in s.table && id in s'.table ==>
          && (s.table[id].processedAt.Some? ==> s'.table[id].processedAt.Some?)
          && s.table[id].retryCount <= s'.table[id].retryCount)
    && (id in s.table && id !in s'.table ==> s.table[id].processedAt.Some?)
  }

  /** A staged row is its table row moved forward. */
  lemma StagedMovesForward(cfg: Config, s: State, d: nat, id: RowId)
    requires d in s.drainers && TxOk(cfg, s.drainers[d], s.table, s.tasks, s.locks, d) && id in s.drainers[d].staged
    ensures id in s.table && var row, row' := s.table[id], s.drainers[d].staged[id];
      row.retryCount <= row'.retryCount && (row.processedAt.Some? ==> row'.processedAt.Some?)
  {
    assert StagedOk(cfg, s.tasks, s.drainers[d], id, s.table[id]);
  }

  lemma RecordedEvent(history: map<RowId, History>)
    ensures forall id, row :: id in history ==> Recorded(history[id], row).event == history[id].event
  {
  }

  lemma CommitMovesForward(cfg: Config, s: State, d: nat, id: RowId)
    requires TxsOk(cfg, s) && d in s.drainers
    ensures Forward(s, Committed(s, d), id)
  {
    hide TxOk, Recorded;
    RecordedEvent(s.history);
    assert TxOk(cfg, s.drainers[d], s.table, s.tasks, s.locks, d);
    if id in s.drainers[d].staged { StagedMovesForward(cfg, s, d, id); }
  }

  lemma RowMovesForward(cfg: Config, s: State, step: Step, id: RowId)
    requires (id in s.table ==> id in s.history) && (id in s.history ==> IdOk(cfg, s, id))
    requires Enabled(cfg, s, step) && !step.Commit?
    ensures Forward(s, Apply(cfg, s, step), id)
  {
    hide Select, Candidates, ReplyFits, TasksAfter, DispatchAfter, BuryReason, Kept, BackoffOk;
  }

  lemma StepMovesForward(cfg: Config, s: State, step: Step, id: RowId)
    requires Inv(cfg, s) && Enabled(cfg, s, step)
    ensures Forward(s, Apply(cfg, s, step), id)
  {
    if step.Commit? {
      CommitMovesForward(cfg, s, step.d, id);
    } else {
      if id in s.history { assert IdOk(cfg, s, id); }
      hide IdOk;
      RowMovesForward(cfg, s, step, id);
    }
  }

  lemma {:induction false} RunMovesForward(cfg: Config, s: State, steps: seq<Step>, id: RowId)
    requires Inv(cfg, s) && CanRun(cfg, s, steps) && id in s.history
    ensures id in Run(cfg, s, steps).history
    ensures id !in s.table ==> id !in Run(cfg, s, steps).table
    ensures id in s.table && id in Run(cfg, s, steps).table ==>
      && (s.table[id].processedAt.Some? ==> Run(cfg, s, steps).table[id].processedAt.Some?)
      && s.table[id].retryCount <= Run(cfg, s, steps).table[id].retryCount
    decreases |steps|
  {
    if steps != [] {
      StepMovesForward(cfg, s, steps[0], id);
      StepKeepsInv(cfg, s, steps[0]);
      RunMovesForward(cfg, Apply(cfg, s, steps[0]), steps[1..], id);
    }
  }

  /** Processed is final: a processed row is never pending again, and no drain ever holds it again. */
  lemma ProcessedIsFinal(cfg: Config, s: State, steps: seq<Step>, id: RowId)
    requires Reachable(cfg, s) && CanRun(cfg, s, steps)
    requires id in s.table && s.table[id].processedAt.Some?
    ensures var s' := Run(cfg, s, steps);
      && (id in s'.table ==> s'.table[id].processedAt.Some?)
      && (forall d :: d in s'.drainers ==> id !in s'.drainers[d].batch)
  {
    ReachableInv(cfg, s);
    RunMovesForward(cfg, s, steps, id);
    RunKeepsInv(cfg, s, steps);
    HeldRowsArePending(cfg, Run(cfg, s, steps), id);
  }

  /** A row at the retry limit is abandoned: no later drain ever holds it. */
  lemma ExhaustedIsNeverClaimed(cfg: Config, s: State, steps: seq<Step>, id: RowId)
    requires Reachable(cfg, s) && CanRun(cfg, s, steps)
    requires id in s.table && s.table[id].retryCount >= 10
    ensures forall d :: d in Run(cfg, s, steps).drainers ==> id !in Run(cfg, s, steps).drainers[d].batch
  {
    ReachableInv(cfg, s);
    RunMovesForward(cfg, s, steps, id);
    RunKeepsInv(cfg, s, steps);
    HeldRowsArePending(cfg, Run(cfg, s, steps), id);
  }

  /** A rollback undoes the drain but for the tasks it queued: rows, letters and history are as before it, its rows are free
      again, and the other drains keep theirs. */
  lemma RollbackUndoesTheDrain(cfg: Config, s: State, d: nat)
    requires Reachable(cfg, s) && d in s.drainers
    ensures var s' := Apply(cfg, s, Rollback(d));
      && s'.table == s.table && s'.dead == s.dead && s'.history == s.history && s'.tasks == s.tasks && s'.now == s.now
      && s'.drainers == s.drainers - {d}
      && (forall id :: id in s'.locks <==> id in s.locks && s.locks[id] != d)
      && (forall id :: id in s'.locks ==> s'.locks[id] == s.locks[id])
  {
    ReachableInv(cfg, s);
    forall id | id in s.locks ensures id in s.drainers[d].batch <==> s.locks[id] == d {
      assert LockOk(s, id);
      if id in s.drainers[d].batch { assert ClaimOk(s.drainers[d], s.table, s.locks, d, id); }
    }
  }

  lemma HeldRowsArePending(cfg: Config, s: State, id: RowId)
    requires Inv(cfg, s)
    ensures forall d :: d in s.drainers && id in s.drainers[d].batch ==>
      id in s.table && s.table[id].processedAt.None? && s.table[id].retryCount < MAX_RETRY
  {
    forall d | d in s.drainers && id in s.drainers[d].batch
      ensures id in s.table && s.table[id].processedAt.None? && s.table[id].retryCount < MAX_RETRY
    {
      assert ClaimOk(s.drainers[d], s.table, s.locks, d, id);
    }
  }

  /** The sweep deletes exactly the rows processed before its cutoff, and leaves every other as it is: nothing a drain or a
      reader of pending rows could still want. */
  lemma SweepDeletesOnlyProcessed(cfg: Config, s: State, cutoff: Time, id: RowId)
    requires Reachable(cfg, s) && id in s.table
    ensures id !in Swept(s, cutoff).table <==> s.table[id].processedAt.Some? && s.table[id].processedAt.value < cutoff
    ensures id in Swept(s, cutoff).table ==> Swept(s, cutoff).table[id] == s.table[id]
    ensures id !in Swept(s, cutoff).table ==> id !in s.locks && (id in Sources(s.dead) || AllCovered(cfg, s.tasks, s.table[id].event))
  {
    ReachableInv(cfg, s);
    LockedIsPending(cfg, s);
    assert IdOk(cfg, s, id);
  }

  // ---- dead letters ----

  /** The letter is about this event, and says why it could not be decoded. */
  predicate LetterFits(cfg: Config, l: DeadLetter, event: Event) {
    l.event == event &&
    match cfg.decode(event)
    case UnknownType => l.reason.UnknownEventType? && l.lastError.None?
    case Malformed(e) => l.reason.UnmarshalFailed? && l.lastError == if e == "" then None else Some(e)
    case Decoded => false
  }

  ghost predicate LetterTrue(cfg: Config, history: map<RowId, History>, l: DeadLetter) {
    l.source in history && LetterFits(cfg, l, history[l.source].event)
  }

  ghost predicate LettersTrue(cfg: Config, history: map<RowId, History>, letters: seq<DeadLetter>) {
    forall k :: 0 <= k < |letters| ==> LetterTrue(cfg, history, letters[k])
  }

  ghost predicate AllLettersTrue(cfg: Config, s: State) {
    && LettersTrue(cfg, s.history, s.dead)
    && forall d :: d in s.drainers ==> LettersTrue(cfg, s.history, s.drainers[d].letters)
  }

  lemma NewLetterIsTrue(cfg: Config, s: State, d: nat)
    requires Inv(cfg, s) && Enabled(cfg, s, Bury(d))
    ensures LetterTrue(cfg, s.history, Letter(cfg, s.drainers[d].batch[s.drainers[d].pos], RowAt(s, d), BuryReason(cfg, RowAt(s, d)).value))
  {
    var tx := s.drainers[d];
    assert TxOk(cfg, tx, s.table, s.tasks, s.locks, d);
    assert ClaimOk(tx, s.table, s.locks, d, tx.batch[tx.pos]);
    assert IdOk(cfg, s, tx.batch[tx.pos]);
  }

  /** What a step may do to the letters. */
  lemma LettersOfStep(cfg: Config, s: State, step: Step)
    requires Enabled(cfg, s, step)
    ensures var s' := Apply(cfg, s, step);
      && s'.dead == (if step.Commit? then s.dead + s.drainers[step.d].letters else s.dead)
      && forall d :: d in s'.drainers ==>
        (s'.drainers[d].letters == [] || (d in s.drainers && s'.drainers[d].letters == s.drainers[d].letters)
         || (step == Bury(d) && s'.drainers[d].letters == Buried(cfg, s, d).drainers[d].letters))
  {
    hide Letter, BuryReason, Select, Candidates, ReplyFits, TasksAfter, DispatchAfter, Recorded, MarkFailed, MarkProcessed;
  }

  lemma LetterStaysTrue(cfg: Config, s: State, step: Step, letters: seq<DeadLetter>)
    requires Inv(cfg, s) && Enabled(cfg, s, step) && LettersTrue(cfg, s.history, letters)
    ensures LettersTrue(cfg, Apply(cfg, s, step).history, letters)
  {
    hide Inv, Apply, Enabled, LetterFits;
    forall k | 0 <= k < |letters| ensures LetterTrue(cfg, Apply(cfg, s, step).history, letters[k]) {
      assert LetterTrue(cfg, s.history, letters[k]);
      StepMovesForward(cfg, s, step, letters[k].source);
    }
  }

  lemma LettersTrueConcat(cfg: Config, history: map<RowId, History>, a: seq<DeadLetter>, b: seq<DeadLetter>)
    requires LettersTrue(cfg, history, a) && LettersTrue(cfg, history, b)
    ensures LettersTrue(cfg, history, a + b)
  {
    hide LetterTrue;
  }

  lemma BuriedLettersTrue(cfg: Config, s: State, d: nat)
    requires Inv(cfg, s) && Enabled(cfg, s, Bury(d)) && LettersTrue(cfg, s.history, s.drainers[d].letters)
    ensures LettersTrue(cfg, s.history, Buried(cfg, s, d).drainers[d].letters)
  {
    NewLetterIsTrue(cfg, s, d);
    var letter := Letter(cfg, s.drainers[d].batch[s.drainers[d].pos], RowAt(s, d), BuryReason(cfg, RowAt(s, d)).value);
    hide Inv, Letter, LetterTrue, BuryReason;
    LettersTrueConcat(cfg, s.history, s.drainers[d].letters, [letter]);
  }

  lemma StepKeepsLettersTrue(cfg: Config, s: State, step: Step)
    requires Inv(cfg, s) && AllLettersTrue(cfg, s) && Enabled(cfg, s, step)
    ensures AllLettersTrue(cfg, Apply(cfg, s, step))
  {
    assert LettersTrue(cfg, s.history, []);
    hide Inv, LettersTrue;
    var s' := Apply(cfg, s, step);
    LettersOfStep(cfg, s, step);
    if step.Bury? { BuriedLettersTrue(cfg, s, step.d); }
    if step.Commit? { LettersTrueConcat(cfg, s.history, s.dead, s.drainers[step.d].letters); }
    hide Apply, Enabled, Buried;
    LetterStaysTrue(cfg, s, step, s'.dead);
    forall d | d in s'.drainers ensures LettersTrue(cfg, s'.history, s'.drainers[d].letters) {
      LetterStaysTrue(cfg, s, step, s'.drainers[d].letters);
    }
  }

  lemma {:induction false} RunKeepsLettersTrue(cfg: Config, s: State, steps: seq<Step>)
    requires Inv(cfg, s) && AllLettersTrue(cfg, s) && CanRun(cfg, s, steps)
    ensures AllLettersTrue(cfg, Run(cfg, s, steps))
    decreases |steps|
  {
    hide Inv, AllLettersTrue, Enabled, Apply;
    if steps != [] {
      StepKeepsLettersTrue(cfg, s, steps[0]);
      StepKeepsInv(cfg, s, steps[0]);
      RunKeepsLettersTrue(cfg, Apply(cfg, s, steps[0]), steps[1..]);
    }
  }

  /** Every dead letter carries its row's event, and its reason and message are the decoder's verdict on it. */
  lemma DeadLettersAreTrue(cfg: Config, s: State, k: nat)
    requires Reachable(cfg, s) && k < |s.dead|
    ensures s.dead[k].source in s.history && LetterFits(cfg, s.dead[k], s.history[s.dead[k].source].event)
  {
    var start, steps :| CanRun(cfg, Initial(start), steps) && Run(cfg, Initial(start), steps) == s;
    InitialInv(cfg, start);
    RunKeepsLettersTrue(cfg, Initial(start), steps);
    assert LetterTrue(cfg, s.history, s.dead[k]);
  }

  /** So an event that decodes is never dead-lettered: its row is unprocessed, or the queue has taken every one of its
      asynchronous tasks. */
  lemma DecodableEventsReachTheQueue(cfg: Config, s: State, id: RowId)
    requires Reachable(cfg, s) && id in s.history && cfg.decode(s.history[id].event).Decoded?
    ensures forall k :: 0 <= k < |s.dead| ==> s.dead[k].source != id
    ensures (id in s.table && s.table[id].processedAt.None?) || AllCovered(cfg, s.tasks, s.history[id].event)
  {
    NoCommittedEventIsLost(cfg, s, id);
    forall k | 0 <= k < |s.dead| ensures s.dead[k].source != id {
      DeadLettersAreTrue(cfg, s, k);
    }
  }

  // ---- time ----

  /** The waits between one failed attempt and the next, in seconds. */
  const WAITS: seq<int> := [30, 120, 600, 1800, 3600, 3600, 3600, 3600, 3600]

  /** An unprocessed row with n failures behind it is claimable exactly when more than the n-th wait has passed since its last
      attempt; the schedule is the sum of these waits. */
  lemma ClaimableAfterItsWait(row: Row, now: Time)
    requires row.processedAt.None? && 1 <= row.retryCount < 10 && row.lastAttemptedAt.Some?
    ensures Claimable(row, now) <==> now - row.lastAttemptedAt.value > WAITS[row.retryCount - 1] * 1_000_000
    ensures Schedule(row.retryCount + 1) - Schedule(row.retryCount) == WAITS[row.retryCount - 1] * 1_000_000
  {
  }

  /** A row that only drains ever failed reaches the limit strictly more than 20550 seconds after the
      attempt that failed it first; in general its n-th failure respects the whole schedule. */
  lemma BackoffOverARun(cfg: Config, s: State, id: RowId)
    requires Reachable(cfg, s) && id in s.table && id in s.history && !s.history[id].publisherFailed
    requires s.table[id].retryCount >= 1
    ensures s.history[id].failed == s.table[id].retryCount
    ensures s.history[id].firstFailure.Some? && s.table[id].lastAttemptedAt.Some?
    ensures s.table[id].lastAttemptedAt.value - s.history[id].firstFailure.value
      >= Schedule(s.table[id].retryCount) + s.table[id].retryCount - 1
    ensures s.table[id].retryCount == 10 ==>
      s.table[id].lastAttemptedAt.value - s.history[id].firstFailure.value > 20_550_000_000
  {
    ReachableInv(cfg, s);
    assert IdOk(cfg, s, id);
  }

  /** No row is stuck: unprocessed and under the limit, it is claimable at every time more than an hour
      after its last attempt, whoever made that attempt. */
  lemma NoRowIsStuck(cfg: Config, s: State, id: RowId, now: Time)
    requires Reachable(cfg, s) && id in s.table
    requires s.table[id].processedAt.None? && s.table[id].retryCount < 10
    requires s.table[id].lastAttemptedAt.Some? ==> now > s.table[id].lastAttemptedAt.value + HOUR
    ensures Claimable(s.table[id], now)
  {
    ReachableInv(cfg, s);
    assert IdOk(cfg, s, id);
    StuckIffAttemptUncounted(s.table[id]);
  }

  // ---- work ----

  /** All committed batches of a run together fetch at most ten rows for each row ever inserted. */
  lemma TotalWorkIsBounded(cfg: Config, start: Time, steps: seq<Step>)
    requires CanRun(cfg, Initial(start), steps)
    ensures RunFetched(cfg, Initial(start), steps) <= 10 * RunInserts(steps)
  {
    InitialInv(cfg, start);
    RunMeasure(cfg, Initial(start), steps);
  }
}

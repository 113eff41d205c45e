/** What every row satisfies in every run: only an event with a subscription whose failure counts is ever retried, no row is
    processed before it was created, and a drain dead-letters exactly the events that do not decode. */
module OutboxFailures {
  import opened Prelude
  import opened Outbox
  import opened OutboxProtocol
  import opened OutboxInvariant
  import opened OutboxTheorems
  import opened OutboxExhaustion

  /** A row with a failure behind it has an event that can fail, and a processed row was created before. */
  predicate RowSound(cfg: Config, row: Row) {
    && (row.retryCount > 0 ==> CanFail(cfg, row.event, |cfg.Subs(row.event)|))
    && (row.processedAt.Some? ==> row.processedAt.value >= row.createdAt)
  }

  /** A dispatch with an error has met a subscription that can cause one. */
  predicate DispatchSound(cfg: Config, e: Event, d: Dispatch) {
    d.Error().Some? ==> d.next <= |cfg.Subs(e)| && CanFail(cfg, e, d.next)
  }

  /** A staged row keeps its event, and if it is closed without a letter the event decodes. */
  ghost predicate StagedSound(cfg: Config, history: map<RowId, History>, tx: DrainTx, id: RowId)
    requires id in tx.staged
  {
    && id in history && tx.staged[id].event == history[id].event
    && (tx.staged[id].processedAt.Some? && id !in Sources(tx.letters) ==> cfg.decode(tx.staged[id].event).Decoded?)
  }

  /** What drains closed without a letter decodes. */
  ghost predicate ClosedSound(cfg: Config, s: State) {
    forall id :: id in s.history && s.history[id].closed > 0 && id !in Sources(s.dead) ==> cfg.decode(s.history[id].event).Decoded?
  }

  ghost predicate TxSound(cfg: Config, history: map<RowId, History>, tx: DrainTx) {
    && (forall id :: id in tx.staged ==> RowSound(cfg, tx.staged[id]) && StagedSound(cfg, history, tx, id))
    && (tx.pos < |tx.batch| && tx.batch[tx.pos] in history ==> DispatchSound(cfg, history[tx.batch[tx.pos]].event, tx.dispatch))
  }

  ghost predicate RowsSound(cfg: Config, table: Table) {
    forall id :: id in table ==> RowSound(cfg, table[id])
  }

  ghost predicate Sound(cfg: Config, s: State) {
    && RowsSound(cfg, s.table) && ClosedSound(cfg, s)
    && (forall d :: d in s.drainers ==> TxSound(cfg, s.history, s.drainers[d]))
    && (forall p :: p in s.publishers ==> DispatchSound(cfg, s.publishers[p].event, s.publishers[p].dispatch))
  }

  lemma AnswerKeepsSound(cfg: Config, tasks: set<Task>, e: Event, d: Dispatch, reply: Reply)
    requires DispatchSound(cfg, e, d) && ReplyFits(cfg, tasks, e, d, reply)
    ensures DispatchSound(cfg, e, DispatchAfter(cfg, e, d, reply))
  {
    if d.Error().Some? {
      var k :| 0 <= k < d.next && k < |cfg.Subs(e)| && (cfg.Subs(e)[k].isAsync || cfg.Subs(e)[k].critical);
    }
    assert cfg.Subs(e)[d.next].isAsync || cfg.Subs(e)[d.next].critical ==> CanFail(cfg, e, d.next + 1);
  }

  /** The row a drain stands before has the event its history names. */
  lemma EventAtRow(cfg: Config, s: State, d: nat)
    requires Inv(cfg, s) && AtRow(s, d)
    ensures var id := s.drainers[d].batch[s.drainers[d].pos]; id in s.history && s.history[id].event == RowAt(s, d).event
  {
    assert IdOk(cfg, s, s.drainers[d].batch[s.drainers[d].pos]);
  }

  lemma ClaimedAreRecorded(cfg: Config, s: State, d: nat)
    requires Inv(cfg, s) && d in s.drainers
    ensures forall id :: id in s.drainers[d].batch ==> id in s.history
    ensures !s.drainers[d].claimed ==> s.drainers[d].dispatch == START
  {
    assert TxOk(cfg, s.drainers[d], s.table, s.tasks, s.locks, d);
    forall id | id in s.drainers[d].batch ensures id in s.history {
      assert ClaimOk(s.drainers[d], s.table, s.locks, d, id);
    }
  }

  lemma EventsStay(cfg: Config, s: State, step: Step)
    requires Enabled(cfg, s, step)
    ensures forall id :: id in s.history ==> id in Apply(cfg, s, step).history && Apply(cfg, s, step).history[id].event == s.history[id].event
  {
    hide Select, Candidates, ReplyFits, TasksAfter, DispatchAfter, BuryReason, Letter;
  }

  /** What a publisher's mark fails has an event that can fail. */
  lemma MarkedSound(cfg: Config, s: State, p: nat, at: Time)
    requires Inv(cfg, s) && Sound(cfg, s) && p in s.publishers
    requires s.publishers[p].dispatch.next == |cfg.Subs(s.publishers[p].event)|
    requires s.publishers[p].row.Some? && s.publishers[p].row.value in s.table ==>
      at >= s.table[s.publishers[p].row.value].createdAt
    ensures RowsSound(cfg, Marked(s, s.publishers[p], at).table)
  {
    var pub := s.publishers[p];
    if pub.row.Some? && pub.row.value in s.table {
      assert PublisherOk(cfg, pub, s.tasks, s.history);
      assert IdOk(cfg, s, pub.row.value) && RowSound(cfg, s.table[pub.row.value]);
    }
    hide Inv, IdOk, CanFail;
  }

  lemma StepKeepsRows(cfg: Config, s: State, step: Step)
    requires Inv(cfg, s) && Sound(cfg, s) && Enabled(cfg, s, step)
    ensures RowsSound(cfg, Apply(cfg, s, step).table)
  {
    hide Inv, Select, Candidates, ReplyFits, TasksAfter, DispatchAfter, BuryReason, Letter, Recorded, CanFail, Marked, MarkFailed,
      MarkProcessed, InsertAllowed, DispatchSound;
    if step.PublisherMark? && step.marked {
      MarkedSound(cfg, s, step.p, step.at);
    }
    if step.Commit? {
      assert TxSound(cfg, s.history, s.drainers[step.d]);
    }
  }

  /** The committed rows a letter was written for are dead-lettered, and the others decode. */
  lemma CommitKeepsClosed(cfg: Config, s: State, d: nat)
    requires ClosedSound(cfg, s) && d in s.drainers && TxSound(cfg, s.history, s.drainers[d])
    ensures ClosedSound(cfg, Committed(s, d))
  {
    hide RowSound, DispatchSound, Sources;
    var s', tx := Committed(s, d), s.drainers[d];
    SourcesOfConcat(s.dead, tx.letters);
    forall id | id in s'.history && s'.history[id].closed > 0 && id !in Sources(s'.dead)
      ensures cfg.decode(s'.history[id].event).Decoded?
    {
      if id in tx.staged { assert StagedSound(cfg, s.history, tx, id); }
    }
  }

  lemma StepKeepsClosed(cfg: Config, s: State, step: Step)
    requires Sound(cfg, s) && Enabled(cfg, s, step)
    ensures ClosedSound(cfg, Apply(cfg, s, step))
  {
    if step.Commit? {
      CommitKeepsClosed(cfg, s, step.d);
    }
    hide Sources, TxSound, RowsSound, DispatchSound, Select, Candidates, ReplyFits, TasksAfter, DispatchAfter, BuryReason, Letter, Recorded,
      MarkFailed, MarkProcessed, Committed;
  }

  lemma StepKeepsPublishers(cfg: Config, s: State, step: Step, p: nat)
    requires Sound(cfg, s) && Enabled(cfg, s, step) && p in Apply(cfg, s, step).publishers
    ensures DispatchSound(cfg, Apply(cfg, s, step).publishers[p].event, Apply(cfg, s, step).publishers[p].dispatch)
  {
    if step.PublisherDispatch? {
      AnswerKeepsSound(cfg, s.tasks, s.publishers[step.p].event, s.publishers[step.p].dispatch, step.reply);
    }
    hide CanFail, Select, Candidates, ReplyFits, TasksAfter, DispatchAfter, BuryReason, Letter, Recorded, MarkFailed, MarkProcessed;
  }

  lemma TxFrameSound(cfg: Config, history: map<RowId, History>, history': map<RowId, History>, tx: DrainTx)
    requires TxSound(cfg, history, tx)
    requires forall id :: id in history ==> id in history' && history'[id].event == history[id].event
    requires forall id :: id in tx.batch ==> id in history
    ensures TxSound(cfg, history', tx)
  {
    hide RowSound, DispatchSound, Sources;
    forall id | id in tx.staged ensures StagedSound(cfg, history', tx, id) {
      assert StagedSound(cfg, history, tx, id);
    }
  }

  /** The records of the drains a step leaves alone stay sound. */
  lemma TxStaysSound(cfg: Config, s: State, step: Step, d: nat)
    requires Inv(cfg, s) && Sound(cfg, s) && Enabled(cfg, s, step) && d in s.drainers
    ensures TxSound(cfg, Apply(cfg, s, step).history, s.drainers[d])
  {
    hide Inv, Apply, Enabled, TxSound, RowsSound, ClosedSound, DispatchSound;
    ClaimedAreRecorded(cfg, s, d);
    EventsStay(cfg, s, step);
    TxFrameSound(cfg, s.history, Apply(cfg, s, step).history, s.drainers[d]);
  }

  /** A drain that stages its next row as a sound row, with a letter or without, and starts on the one after. */
  lemma NextSound(cfg: Config, history: map<RowId, History>, tx: DrainTx, row: Row, letters: seq<DeadLetter>)
    requires TxSound(cfg, history, tx) && tx.pos < |tx.batch| && RowSound(cfg, row)
    requires tx.batch[tx.pos] in history && history[tx.batch[tx.pos]].event == row.event
    requires Sources(tx.letters) <= Sources(letters)
    requires row.processedAt.Some? && tx.batch[tx.pos] !in Sources(letters) ==> cfg.decode(row.event).Decoded?
    ensures TxSound(cfg, history, Staged(tx, row).(letters := letters))
  {
    hide CanFail, RowSound, Sources;
    var tx' := Staged(tx, row).(letters := letters);
    forall id | id in tx'.staged ensures StagedSound(cfg, history, tx', id) {
      if id in tx.staged { assert StagedSound(cfg, history, tx, id); }
    }
  }

  lemma SettledSound(cfg: Config, s: State, d: nat)
    requires Inv(cfg, s) && Sound(cfg, s) && AtRow(s, d) && BuryReason(cfg, RowAt(s, d)).None?
    requires s.drainers[d].dispatch.next == |cfg.Subs(RowAt(s, d).event)|
    requires s.drainers[d].dispatch.Error().None? ==> s.drainers[d].started >= RowAt(s, d).createdAt
    ensures Settled(s, d).history == s.history && TxSound(cfg, s.history, Settled(s, d).drainers[d])
  {
    hide Inv, CanFail;
    EventAtRow(cfg, s, d);
    assert TxSound(cfg, s.history, s.drainers[d]) && RowSound(cfg, RowAt(s, d));
    var tx := s.drainers[d];
    NextSound(cfg, s.history, tx, Settled(s, d).drainers[d].staged[tx.batch[tx.pos]], tx.letters);
  }

  lemma BuriedSound(cfg: Config, s: State, d: nat)
    requires Inv(cfg, s) && Sound(cfg, s) && AtRow(s, d) && BuryReason(cfg, RowAt(s, d)).Some? && s.drainers[d].started >= RowAt(s, d).createdAt
    ensures Buried(cfg, s, d).history == s.history && TxSound(cfg, s.history, Buried(cfg, s, d).drainers[d])
  {
    hide Inv, CanFail, BuryReason;
    EventAtRow(cfg, s, d);
    var tx, row := s.drainers[d], RowAt(s, d);
    var id := tx.batch[tx.pos];
    assert TxSound(cfg, s.history, tx) && RowSound(cfg, row);
    var letter := Letter(cfg, id, row, BuryReason(cfg, row).value);
    SourcesOfConcat(tx.letters, [letter]);
    assert id in Sources([letter]) by { assert [letter][0].source == id; }
    hide TxSound, Sources, Letter;
    NextSound(cfg, s.history, tx, MarkProcessed(row, tx.started), tx.letters + [letter]);
  }

  lemma DispatchedSound(cfg: Config, s: State, d: nat, reply: Reply)
    requires Inv(cfg, s) && Sound(cfg, s) && AtRow(s, d)
    requires ReplyFits(cfg, s.tasks, RowAt(s, d).event, s.drainers[d].dispatch, reply)
    ensures Dispatched(cfg, s, d, reply).history == s.history && TxSound(cfg, s.history, Dispatched(cfg, s, d, reply).drainers[d])
  {
    hide Inv, CanFail, DispatchAfter, DispatchSound, RowSound, ReplyFits;
    EventAtRow(cfg, s, d);
    assert TxSound(cfg, s.history, s.drainers[d]);
    AnswerKeepsSound(cfg, s.tasks, RowAt(s, d).event, s.drainers[d].dispatch, reply);
  }

  lemma ClaimSound(cfg: Config, s: State, d: nat, limit: nat)
    requires Inv(cfg, s) && Sound(cfg, s) && d in s.drainers && !s.drainers[d].claimed
    ensures Claimed(s, d, limit).history == s.history && TxSound(cfg, s.history, Claimed(s, d, limit).drainers[d])
  {
    hide Inv, CanFail, Select, Candidates, RowSound, DispatchSound, StagedSound, TxSound;
    ClaimedAreRecorded(cfg, s, d);
    FreshBatchSound(cfg, s.history, s.drainers[d], Claimed(s, d, limit).drainers[d].batch);
  }

  lemma FreshBatchSound(cfg: Config, history: map<RowId, History>, tx: DrainTx, batch: seq<RowId>)
    requires TxSound(cfg, history, tx) && tx.dispatch == START
    ensures TxSound(cfg, history, tx.(claimed := true, batch := batch, pos := 0))
  {
    hide RowSound, CanFail;
    forall id | id in tx.staged ensures StagedSound(cfg, history, tx.(claimed := true, batch := batch, pos := 0), id) {
      assert StagedSound(cfg, history, tx, id);
    }
  }

  lemma EmptyTxSound(cfg: Config, s: State)
    ensures TxSound(cfg, s.history, DrainTx(s.now, false, [], 0, START, map[], []))
  {
  }

  /** Only a drain's own steps change its record. */
  lemma OwnStepsOnly(cfg: Config, s: State, step: Step, d: nat)
    requires Enabled(cfg, s, step) && d in Apply(cfg, s, step).drainers
    ensures step == Begin(d) || d in s.drainers
    ensures var s' := Apply(cfg, s, step);
      step == Begin(d) || s'.drainers[d] == s.drainers[d] || (step.Claim? && step.d == d) || step == Bury(d)
      || (step.DrainDispatch? && step.d == d) || step == Settle(d)
  {
    hide Select, Candidates, ReplyFits, TasksAfter, DispatchAfter, BuryReason, Letter, Recorded, MarkFailed, MarkProcessed;
  }

  lemma StepKeepsTx(cfg: Config, s: State, step: Step, d: nat)
    requires Inv(cfg, s) && Sound(cfg, s) && Enabled(cfg, s, step) && d in Apply(cfg, s, step).drainers
    ensures TxSound(cfg, Apply(cfg, s, step).history, Apply(cfg, s, step).drainers[d])
  {
    hide Inv, Sound, TxSound, Dispatched, Claimed, Settled, Buried, ReplyFits, Inserted, Marked, Committed, Swept,
      InsertAllowed, BuryReason;
    OwnStepsOnly(cfg, s, step, d);
    if d in s.drainers { TxStaysSound(cfg, s, step, d); }
    if step == Begin(d) {
      EmptyTxSound(cfg, s);
    } else if step.Claim? && step.d == d {
      ClaimSound(cfg, s, d, step.limit);
    } else if step == Bury(d) {
      BuriedSound(cfg, s, d);
    } else if step.DrainDispatch? && step.d == d {
      DispatchedSound(cfg, s, d, step.reply);
    } else if step == Settle(d) {
      SettledSound(cfg, s, d);
    }
  }

  lemma StepKeepsSound(cfg: Config, s: State, step: Step)
    requires Inv(cfg, s) && Sound(cfg, s) && Enabled(cfg, s, step)
    ensures Sound(cfg, Apply(cfg, s, step))
  {
    hide Inv, Apply, Enabled, TxSound, RowsSound, ClosedSound, DispatchSound;
    var s' := Apply(cfg, s, step);
    StepKeepsRows(cfg, s, step);
    StepKeepsClosed(cfg, s, step);
    forall d | d in s'.drainers ensures TxSound(cfg, s'.history, s'.drainers[d]) {
      StepKeepsTx(cfg, s, step, d);
    }
    forall p | p in s'.publishers ensures DispatchSound(cfg, s'.publishers[p].event, s'.publishers[p].dispatch) {
      StepKeepsPublishers(cfg, s, step, p);
    }
  }

  lemma {:induction false} RunKeepsSound(cfg: Config, s: State, steps: seq<Step>)
    requires Inv(cfg, s) && Sound(cfg, s) && CanRun(cfg, s, steps)
    ensures Sound(cfg, Run(cfg, s, steps))
    decreases |steps|
  {
    hide Inv, Sound, Enabled, Apply;
    if steps != [] {
      StepKeepsSound(cfg, s, steps[0]);
      StepKeepsInv(cfg, s, steps[0]);
      RunKeepsSound(cfg, Apply(cfg, s, steps[0]), steps[1..]);
    }
  }

  /** In every reachable state a row that was ever failed has an event with an asynchronous or a critical subscription:
      nothing else makes a dispatch fail. */
  lemma OnlyWhatCanFailIsRetried(cfg: Config, s: State, id: RowId)
    requires Reachable(cfg, s) && id in s.table && s.table[id].retryCount > 0
    ensures var subs := cfg.Subs(s.table[id].event); exists k :: 0 <= k < |subs| && (subs[k].isAsync || subs[k].critical)
  {
    var start, steps :| CanRun(cfg, Initial(start), steps) && Run(cfg, Initial(start), steps) == s;
    InitialInv(cfg, start);
    RunKeepsSound(cfg, Initial(start), steps);
    hide Inv, Reachable;
    assert RowSound(cfg, s.table[id]);
  }

  /** Of the rows drains closed, exactly those whose event does not decode were dead-lettered. */
  lemma LetteredIffUndecodable(cfg: Config, s: State, id: RowId)
    requires Reachable(cfg, s) && id in s.history && s.history[id].closed > 0
    ensures (exists k :: 0 <= k < |s.dead| && s.dead[k].source == id) <==> !cfg.decode(s.history[id].event).Decoded?
  {
    var start, steps :| CanRun(cfg, Initial(start), steps) && Run(cfg, Initial(start), steps) == s;
    InitialInv(cfg, start);
    RunKeepsSound(cfg, Initial(start), steps);
    hide Inv, Reachable;
    if cfg.decode(s.history[id].event).Decoded? { DecodableEventsReachTheQueue(cfg, s, id); }
    if id in Sources(s.dead) {
      var k :| 0 <= k < |s.dead| && s.dead[k].source == id;
    }
  }

  /** No row is marked processed at a time before it was created. */
  lemma ProcessedAfterCreation(cfg: Config, s: State, id: RowId)
    requires Reachable(cfg, s) && id in s.table && s.table[id].processedAt.Some?
    ensures s.table[id].createdAt <= s.table[id].processedAt.value
  {
    var start, steps :| CanRun(cfg, Initial(start), steps) && Run(cfg, Initial(start), steps) == s;
    InitialInv(cfg, start);
    RunKeepsSound(cfg, Initial(start), steps);
    hide Inv, Reachable;
    assert RowSound(cfg, s.table[id]);
  }

  ghost predicate RetriedTo(s: State, e: Event, n: nat) {
    exists id :: id in s.table && s.table[id].event == e && s.table[id].processedAt.None? && s.table[id].retryCount == n
  }

  /** An event that decodes can be brought to n failures, for each n from one to ten, exactly when one of its subscriptions
      is asynchronous or critical. */
  lemma RetriedIffCanFail(cfg: Config, e: Event, n: nat)
    requires cfg.decode(e).Decoded? && 1 <= n <= 10
    ensures (exists s :: Reachable(cfg, s) && RetriedTo(s, e, n)) <==>
      (exists k :: 0 <= k < |cfg.Subs(e)| && (cfg.Subs(e)[k].isAsync || cfg.Subs(e)[k].critical))
  {
    if CanFail(cfg, e, |cfg.Subs(e)|) {
      var s := RetriesAreReached(cfg, e, n);
      hide Reachable;
      assert RetriedTo(s, e, n);
    }
    hide Reachable;
    if s :| Reachable(cfg, s) && RetriedTo(s, e, n) {
      var id :| id in s.table && s.table[id].event == e && s.table[id].processedAt.None? && s.table[id].retryCount == n;
      OnlyWhatCanFailIsRetried(cfg, s, id);
    }
  }
}

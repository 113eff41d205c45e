/** The inductive invariant of the outbox protocol: every enabled step keeps it. */
module OutboxInvariant {
  import opened Prelude
  import opened Outbox
  import opened OutboxProtocol

  // ---- the invariant ----

  function Sources(letters: seq<DeadLetter>): set<RowId> {
    set k | 0 <= k < |letters| :: letters[k].source
  }

  ghost predicate LettersOk(letters: seq<DeadLetter>) {
    && (forall k :: 0 <= k < |letters| ==> letters[k].reason != RetryExhausted)
    && (forall k, l :: 0 <= k < l < |letters| ==> letters[k].source != letters[l].source)
  }

  /** A dispatch that has lost no enqueue has covered every asynchronous subscription behind it. */
  ghost predicate DispatchOk(cfg: Config, tasks: set<Task>, event: Event, d: Dispatch) {
    && d.next <= |cfg.Subs(event)|
    && (d.allEnqueued ==>
          forall k :: 0 <= k < d.next && cfg.Subs(event)[k].isAsync ==> Covered(tasks, cfg.Subs(event)[k], event))
  }

  /** A staged row is its claimed row, failed once more, or processed for a reason. */
  ghost predicate StagedOk(cfg: Config, tasks: set<Task>, tx: DrainTx, id: RowId, row: Row)
    requires id in tx.staged
  {
    || (tx.staged[id].lastError.Some? && tx.staged[id] == MarkFailed(row, tx.started, tx.staged[id].lastError.value))
    || (tx.staged[id] == MarkProcessed(row, tx.started)
        && (id in Sources(tx.letters) || AllCovered(cfg, tasks, row.event)))
  }

  ghost predicate ClaimOk(tx: DrainTx, table: Table, locks: map<RowId, nat>, d: nat, id: RowId) {
    id in locks && locks[id] == d && id in table && Claimable(table[id], tx.started)
  }

  ghost predicate TxOk(cfg: Config, tx: DrainTx, table: Table, tasks: set<Task>, locks: map<RowId, nat>, d: nat) {
    && tx.pos <= |tx.batch|
    && (!tx.claimed ==> tx.batch == [] && tx.dispatch == START)
    && (forall k, l :: 0 <= k < l < |tx.batch| ==> tx.batch[k] != tx.batch[l])
    && (forall id :: id in tx.batch ==> ClaimOk(tx, table, locks, d, id))
    && (forall id :: id in tx.staged <==> id in tx.batch[..tx.pos])
    && (forall id :: id in tx.staged ==> id in table && StagedOk(cfg, tasks, tx, id, table[id]))
    && LettersOk(tx.letters)
    && (forall id :: id in Sources(tx.letters) ==> id in tx.staged && tx.staged[id].processedAt.Some?)
    && (tx.pos < |tx.batch| ==>
          tx.batch[tx.pos] in table && DispatchOk(cfg, tasks, table[tx.batch[tx.pos]].event, tx.dispatch))
  }

  ghost predicate PublisherOk(cfg: Config, pub: Publisher, tasks: set<Task>, history: map<RowId, History>) {
    && DispatchOk(cfg, tasks, pub.event, pub.dispatch)
    && (pub.row.Some? ==> pub.row.value in history && history[pub.row.value].event == pub.event)
  }

  /** The least time from the first failed attempt to the n-th, by the backoff schedule. */
  function Schedule(n: nat): Time {
    if n <= 1 then 0
    else if n == 2 then 30 * SECOND
    else if n == 3 then 30 * SECOND + 2 * MINUTE
    else if n == 4 then 30 * SECOND + 12 * MINUTE
    else if n == 5 then 30 * SECOND + 42 * MINUTE
    else 30 * SECOND + 42 * MINUTE + (n - 5) * HOUR
  }

  ghost predicate BackoffOk(h: History, row: Row) {
    && h.failed == row.retryCount
    && (row.retryCount >= 1 ==>
          && h.firstFailure.Some? && row.lastAttemptedAt.Some?
          && (row.retryCount == 1 ==> row.lastAttemptedAt == h.firstFailure)
          && row.lastAttemptedAt.value - h.firstFailure.value >= Schedule(row.retryCount) + row.retryCount - 1)
  }

  ghost predicate RowOk(h: History, row: Row) {
    && row.event == h.event
    && (row.lastAttemptedAt.None? <==> row.retryCount == 0)
    && (h.closed > 0 ==> row.processedAt.Some?)
    && h.failed <= row.retryCount
    && (!h.publisherFailed ==> BackoffOk(h, row))
  }

  /** No committed event is lost. */
  ghost predicate Kept(cfg: Config, s: State, id: RowId)
    requires id in s.history
  {
    || (id in s.table && s.table[id].processedAt.None?)
    || id in Sources(s.dead)
    || AllCovered(cfg, s.tasks, s.history[id].event)
  }

  ghost predicate IdOk(cfg: Config, s: State, id: RowId)
    requires id in s.history
  {
    && id > 0
    && (id in s.table ==> RowOk(s.history[id], s.table[id]))
    && Kept(cfg, s, id)
    && (id in Sources(s.dead) ==> s.history[id].closed == 1)
    && s.history[id].closed <= 1
    && s.history[id].failed + s.history[id].closed <= MAX_RETRY
  }

  /** ux_outbox_pending_dedupe. */
  ghost predicate NoPendingTwins(table: Table) {
    forall i, j :: i in table && j in table && i != j && table[j].dedupeKey.Some? && table[j].processedAt.None?
      ==> !Duplicates(table[i], table[j].event, table[j].dedupeKey)
  }

  ghost predicate LockOk(s: State, id: RowId)
    requires id in s.locks
  {
    s.locks[id] in s.drainers && id in s.drainers[s.locks[id]].batch
  }

  ghost predicate IdsOk(cfg: Config, s: State) {
    s.table.Keys <= s.history.Keys && forall id :: id in s.history ==> IdOk(cfg, s, id)
  }

  ghost predicate TxsOk(cfg: Config, s: State) {
    forall d :: d in s.drainers ==> TxOk(cfg, s.drainers[d], s.table, s.tasks, s.locks, d)
  }

  ghost predicate LocksOk(s: State) {
    forall id :: id in s.locks ==> LockOk(s, id)
  }

  ghost predicate PublishersOk(cfg: Config, s: State) {
    forall p :: p in s.publishers ==> PublisherOk(cfg, s.publishers[p], s.tasks, s.history)
  }

  ghost predicate DeadOk(s: State) {
    LettersOk(s.dead) && Sources(s.dead) <= s.history.Keys
  }

  ghost predicate Inv(cfg: Config, s: State) {
    IdsOk(cfg, s) && TxsOk(cfg, s) && LocksOk(s) && PublishersOk(cfg, s) && DeadOk(s) && NoPendingTwins(s.table)
  }

  // ---- frames ----

  lemma AllCoveredGrows(cfg: Config, tasks: set<Task>, more: set<Task>, event: Event)
    requires tasks <= more
    ensures AllCovered(cfg, tasks, event) ==> AllCovered(cfg, more, event)
  {
    if AllCovered(cfg, tasks, event) {
      forall k | 0 <= k < |cfg.Subs(event)| && cfg.Subs(event)[k].isAsync
        ensures Covered(more, cfg.Subs(event)[k], event)
      {
        assert Covered(tasks, cfg.Subs(event)[k], event);
      }
    }
  }

  lemma DispatchOkGrows(cfg: Config, tasks: set<Task>, more: set<Task>, event: Event, d: Dispatch)
    requires tasks <= more && DispatchOk(cfg, tasks, event, d)
    ensures DispatchOk(cfg, more, event, d)
  {
    if d.allEnqueued {
      forall k | 0 <= k < d.next && cfg.Subs(event)[k].isAsync ensures Covered(more, cfg.Subs(event)[k], event) {
        assert Covered(tasks, cfg.Subs(event)[k], event);
      }
    }
  }

  /** A drain transaction stays in order while others leave its claimed rows and locks alone. */
  lemma TxFrame(cfg: Config, tx: DrainTx, d: nat, s: State, s': State)
    requires TxOk(cfg, tx, s.table, s.tasks, s.locks, d) && s.tasks <= s'.tasks
    requires forall id :: id in tx.batch ==> SameRow(s, s', id)
    ensures TxOk(cfg, tx, s'.table, s'.tasks, s'.locks, d)
  {
    forall id | id in tx.batch ensures ClaimOk(tx, s'.table, s'.locks, d, id) {
      assert ClaimOk(tx, s.table, s.locks, d, id) && SameRow(s, s', id);
    }
    forall id | id in tx.staged ensures id in s'.table && StagedOk(cfg, s'.tasks, tx, id, s'.table[id]) {
      assert id in tx.batch[..tx.pos] && id in tx.batch;
      assert SameRow(s, s', id) && StagedOk(cfg, s.tasks, tx, id, s.table[id]);
      AllCoveredGrows(cfg, s.tasks, s'.tasks, s.table[id].event);
    }
    if tx.pos < |tx.batch| {
      assert tx.batch[tx.pos] in tx.batch && SameRow(s, s', tx.batch[tx.pos]);
      DispatchOkGrows(cfg, s.tasks, s'.tasks, s.table[tx.batch[tx.pos]].event, tx.dispatch);
    }
  }

  /** A row and its lock are the same in both states. */
  ghost predicate SameRow(s: State, s': State, id: RowId) {
    && (id in s.table ==> id in s'.table && s'.table[id] == s.table[id])
    && (id in s.locks ==> id in s'.locks && s'.locks[id] == s.locks[id])
  }

  /** Every open drain but `d`'s is unchanged, and so are the rows it claimed. */
  ghost predicate OthersKept(s: State, s': State, except: set<nat>) {
    && s.tasks <= s'.tasks
    && (forall e :: e in s'.drainers && e !in except ==>
          && e in s.drainers && s'.drainers[e] == s.drainers[e]
          && forall id :: id in s.drainers[e].batch ==> SameRow(s, s', id))
  }

  lemma TxsFrame(cfg: Config, s: State, s': State, except: set<nat>)
    requires TxsOk(cfg, s) && OthersKept(s, s', except)
    ensures forall e :: e in s'.drainers && e !in except ==> TxOk(cfg, s'.drainers[e], s'.table, s'.tasks, s'.locks, e)
  {
    forall e | e in s'.drainers && e !in except ensures TxOk(cfg, s'.drainers[e], s'.table, s'.tasks, s'.locks, e) {
      TxFrame(cfg, s.drainers[e], e, s, s');
    }
  }

  lemma PublisherFrame(cfg: Config, pub: Publisher, s: State, s': State)
    requires PublisherOk(cfg, pub, s.tasks, s.history) && s.tasks <= s'.tasks
    requires forall id :: id in s.history ==> id in s'.history && s'.history[id].event == s.history[id].event
    ensures PublisherOk(cfg, pub, s'.tasks, s'.history)
  {
    DispatchOkGrows(cfg, s.tasks, s'.tasks, pub.event, pub.dispatch);
  }

  lemma PublishersFrame(cfg: Config, s: State, s': State)
    requires PublishersOk(cfg, s) && s.tasks <= s'.tasks
    requires forall id :: id in s.history ==> id in s'.history && s'.history[id].event == s.history[id].event
    ensures forall p :: p in s'.publishers && p in s.publishers && s'.publishers[p] == s.publishers[p]
              ==> PublisherOk(cfg, s'.publishers[p], s'.tasks, s'.history)
  {
    forall p | p in s'.publishers && p in s.publishers && s'.publishers[p] == s.publishers[p]
      ensures PublisherOk(cfg, s'.publishers[p], s'.tasks, s'.history)
    {
      PublisherFrame(cfg, s.publishers[p], s, s');
    }
  }

  lemma IdFrame(cfg: Config, s: State, s': State, id: RowId)
    requires id in s.history && id in s'.history && IdOk(cfg, s, id)
    requires s'.history[id] == s.history[id] && s'.dead == s.dead && s.tasks <= s'.tasks
    requires id in s.table <==> id in s'.table
    requires id in s.table ==> s'.table[id] == s.table[id]
    ensures IdOk(cfg, s', id)
  {
    AllCoveredGrows(cfg, s.tasks, s'.tasks, s.history[id].event);
  }

  lemma IdsFrame(cfg: Config, s: State, s': State)
    requires IdsOk(cfg, s)
    requires s'.table == s.table && s'.history == s.history && s'.dead == s.dead && s.tasks <= s'.tasks
    ensures IdsOk(cfg, s')
  {
    forall id | id in s'.history ensures IdOk(cfg, s', id) {
      IdFrame(cfg, s, s', id);
    }
  }

  /** Locked rows are unprocessed, and under the retry limit. */
  lemma LockedIsPending(cfg: Config, s: State)
    requires TxsOk(cfg, s) && LocksOk(s)
    ensures forall id :: id in s.locks ==> id in s.table && s.table[id].processedAt.None? && s.table[id].retryCount < MAX_RETRY
  {
    forall id | id in s.locks
      ensures id in s.table && s.table[id].processedAt.None? && s.table[id].retryCount < MAX_RETRY
    {
      var d := s.locks[id];
      assert LockOk(s, id);
      assert ClaimOk(s.drainers[d], s.table, s.locks, d, id);
    }
  }

  /** A step from outside every drain: open drains and locks stay, and so do the locked rows. */
  lemma OutsideFrame(cfg: Config, s: State, s': State)
    requires TxsOk(cfg, s) && LocksOk(s) && s.tasks <= s'.tasks
    requires s'.drainers == s.drainers && s'.locks == s.locks
    requires forall id :: id in s.locks && id in s.table ==> id in s'.table && s'.table[id] == s.table[id]
    ensures TxsOk(cfg, s') && LocksOk(s')
  {
    forall d, id | d in s.drainers && id in s.drainers[d].batch ensures SameRow(s, s', id) {
      assert ClaimOk(s.drainers[d], s.table, s.locks, d, id);
    }
    TxsFrame(cfg, s, s', {});
    forall id | id in s'.locks ensures LockOk(s', id) {
      assert LockOk(s, id);
    }
  }

  // ---- steps on the queue ----

  lemma DispatchStep(cfg: Config, tasks: set<Task>, event: Event, d: Dispatch, reply: Reply)
    requires DispatchOk(cfg, tasks, event, d) && ReplyFits(cfg, tasks, event, d, reply)
    ensures tasks <= TasksAfter(cfg, tasks, event, d, reply)
    ensures DispatchOk(cfg, TasksAfter(cfg, tasks, event, d, reply), event, DispatchAfter(cfg, event, d, reply))
  {
    var tasks' := TasksAfter(cfg, tasks, event, d, reply);
    var d' := DispatchAfter(cfg, event, d, reply);
    DispatchOkGrows(cfg, tasks, tasks', event, d);
    var sub := cfg.Subs(event)[d.next];
    if d'.allEnqueued && sub.isAsync {
      if reply == Accepted {
        assert Task(sub.queue, sub.taskId(event), event) in tasks';
      }
      assert Covered(tasks', sub, event);
    }
  }

  lemma PublisherDispatchKeepsInv(cfg: Config, s: State, p: nat, reply: Reply)
    requires Inv(cfg, s) && p in s.publishers
    requires ReplyFits(cfg, s.tasks, s.publishers[p].event, s.publishers[p].dispatch, reply)
    ensures Inv(cfg, PublisherDispatched(cfg, s, p, reply))
  {
    var s' := PublisherDispatched(cfg, s, p, reply);
    DispatchStep(cfg, s.tasks, s.publishers[p].event, s.publishers[p].dispatch, reply);
    IdsFrame(cfg, s, s');
    OutsideFrame(cfg, s, s');
    PublishersFrame(cfg, s, s');
  }

  lemma DispatchedKeepsTxs(cfg: Config, s: State, d: nat, reply: Reply)
    requires TxsOk(cfg, s) && AtRow(s, d)
    requires ReplyFits(cfg, s.tasks, RowAt(s, d).event, s.drainers[d].dispatch, reply)
    ensures s.tasks <= Dispatched(cfg, s, d, reply).tasks && TxsOk(cfg, Dispatched(cfg, s, d, reply))
  {
    var s' := Dispatched(cfg, s, d, reply);
    var tx, event := s.drainers[d], RowAt(s, d).event;
    assert TxOk(cfg, tx, s.table, s.tasks, s.locks, d);
    DispatchStep(cfg, s.tasks, event, tx.dispatch, reply);
    TxsFrame(cfg, s, s', {d});
    TxFrame(cfg, tx, d, s, s');
    TxWithDispatch(cfg, tx, DispatchAfter(cfg, event, tx.dispatch, reply), s', d);
  }

  lemma DrainDispatchKeepsInv(cfg: Config, s: State, d: nat, reply: Reply)
    requires Inv(cfg, s) && AtRow(s, d)
    requires ReplyFits(cfg, s.tasks, RowAt(s, d).event, s.drainers[d].dispatch, reply)
    ensures Inv(cfg, Dispatched(cfg, s, d, reply))
  {
    hide TxOk, IdOk;
    var s' := Dispatched(cfg, s, d, reply);
    DispatchedKeepsTxs(cfg, s, d, reply);
    IdsFrame(cfg, s, s');
    PublishersFrame(cfg, s, s');
    assert LocksOk(s') by { forall id | id in s'.locks ensures LockOk(s', id) { assert LockOk(s, id); } }
  }

  lemma TxWithDispatch(cfg: Config, tx: DrainTx, dispatch: Dispatch, s: State, d: nat)
    requires TxOk(cfg, tx, s.table, s.tasks, s.locks, d)
    requires tx.pos < |tx.batch| && DispatchOk(cfg, s.tasks, s.table[tx.batch[tx.pos]].event, dispatch)
    ensures TxOk(cfg, tx.(dispatch := dispatch), s.table, s.tasks, s.locks, d)
  {
    var tx' := tx.(dispatch := dispatch);
    forall id | id in tx'.staged ensures id in s.table && StagedOk(cfg, s.tasks, tx', id, s.table[id]) {
      assert StagedOk(cfg, s.tasks, tx, id, s.table[id]);
    }
    forall id | id in tx'.batch ensures ClaimOk(tx', s.table, s.locks, d, id) {
      assert ClaimOk(tx, s.table, s.locks, d, id);
    }
  }

  // ---- steps on the table from outside a drain ----

  lemma InsertedKeepsTwins(s: State, id: RowId, event: Event, key: Option<string>, createdAt: Time)
    requires NoPendingTwins(s.table) && InsertAllowed(s, id, event, key, createdAt)
    ensures NoPendingTwins(Inserted(s, id, event, key, createdAt).table)
  {
    var table' := Inserted(s, id, event, key, createdAt).table;
    forall i, j | i in table' && j in table' && i != j && table'[j].dedupeKey.Some? && table'[j].processedAt.None?
      ensures !Duplicates(table'[i], table'[j].event, table'[j].dedupeKey)
    {
      if j == id {
        assert i in s.table && table'[i] == s.table[i];
      } else if i == id {
        assert j in s.table && (key.None? || !Duplicates(s.table[j], event, key));
      }
    }
  }

  lemma InsertedKeepsIds(cfg: Config, s: State, id: RowId, event: Event, key: Option<string>, createdAt: Time)
    requires IdsOk(cfg, s) && DeadOk(s) && InsertAllowed(s, id, event, key, createdAt)
    ensures IdsOk(cfg, Inserted(s, id, event, key, createdAt))
  {
    var s' := Inserted(s, id, event, key, createdAt);
    forall i | i in s'.history ensures IdOk(cfg, s', i) {
      if i != id {
        IdFrame(cfg, s, s', i);
      }
    }
  }

  lemma InsertedKeepsInv(cfg: Config, s: State, id: RowId, event: Event, key: Option<string>, createdAt: Time)
    requires Inv(cfg, s) && InsertAllowed(s, id, event, key, createdAt)
    ensures Inv(cfg, Inserted(s, id, event, key, createdAt))
  {
    hide IdOk, TxOk, Duplicates;
    var s' := Inserted(s, id, event, key, createdAt);
    InsertedKeepsIds(cfg, s, id, event, key, createdAt);
    InsertedKeepsTwins(s, id, event, key, createdAt);
    OutsideFrame(cfg, s, s');
    PublishersFrame(cfg, s, s');
  }

  /** A new publisher starts a dispatch; its row, if it wrote one, is already in the table. */
  lemma StartedKeepsInv(cfg: Config, s: State, p: nat, event: Event, row: Option<RowId>)
    requires Inv(cfg, s)
    requires row.Some? ==> row.value in s.history && s.history[row.value].event == event
    ensures Inv(cfg, s.(publishers := s.publishers[p := Publisher(event, row, START)]))
  {
    hide IdOk, TxOk;
    var s' := s.(publishers := s.publishers[p := Publisher(event, row, START)]);
    IdsFrame(cfg, s, s');
    OutsideFrame(cfg, s, s');
    PublishersFrame(cfg, s, s');
  }

  lemma StoppedKeepsInv(cfg: Config, s: State, p: nat)
    requires Inv(cfg, s)
    ensures Inv(cfg, s.(publishers := s.publishers - {p}))
  {
    hide IdOk, TxOk;
    var s' := s.(publishers := s.publishers - {p});
    IdsFrame(cfg, s, s');
    OutsideFrame(cfg, s, s');
    PublishersFrame(cfg, s, s');
  }

  predicate MarkAllowed(cfg: Config, s: State, pub: Publisher) {
    && pub.dispatch.next == |cfg.Subs(pub.event)|
    && (pub.row.Some? ==> pub.row.value !in s.locks)
  }

  lemma MarkedKeepsIds(cfg: Config, s: State, pub: Publisher, at: Time)
    requires IdsOk(cfg, s) && PublisherOk(cfg, pub, s.tasks, s.history) && MarkAllowed(cfg, s, pub)
    ensures IdsOk(cfg, Marked(s, pub, at))
  {
    var s' := Marked(s, pub, at);
    if pub.dispatch.allEnqueued {
      assert AllCovered(cfg, s.tasks, pub.event);
    }
    hide AllCovered, PublisherOk, Schedule;
    forall i | i in s'.history ensures IdOk(cfg, s', i) {
      assert IdOk(cfg, s, i);
      if pub.row != Some(i) || i !in s.table {
        IdFrame(cfg, s, s', i);
      }
    }
  }

  lemma MarkedKeepsTwins(s: State, pub: Publisher, at: Time)
    requires NoPendingTwins(s.table)
    ensures NoPendingTwins(Marked(s, pub, at).table)
  {
    var table' := Marked(s, pub, at).table;
    forall i, j | i in table' && j in table' && i != j && table'[j].dedupeKey.Some? && table'[j].processedAt.None?
      ensures !Duplicates(table'[i], table'[j].event, table'[j].dedupeKey)
    {
      assert !Duplicates(s.table[i], s.table[j].event, s.table[j].dedupeKey);
    }
  }

  lemma MarkedKeepsInv(cfg: Config, s: State, p: nat, at: Time)
    requires Inv(cfg, s) && p in s.publishers && MarkAllowed(cfg, s, s.publishers[p])
    ensures Inv(cfg, Marked(s, s.publishers[p], at))
  {
    hide IdOk, TxOk, Duplicates;
    var s' := Marked(s, s.publishers[p], at);
    MarkedKeepsIds(cfg, s, s.publishers[p], at);
    MarkedKeepsTwins(s, s.publishers[p], at);
    OutsideFrame(cfg, s, s');
    PublishersFrame(cfg, s, s');
  }

  lemma SweptKeepsIds(cfg: Config, s: State, cutoff: Time)
    requires IdsOk(cfg, s)
    ensures IdsOk(cfg, Swept(s, cutoff))
  {
    forall id | id in s.history ensures IdOk(cfg, Swept(s, cutoff), id) {
      assert IdOk(cfg, s, id);
    }
  }

  lemma SweptKeepsInv(cfg: Config, s: State, cutoff: Time)
    requires Inv(cfg, s)
    ensures Inv(cfg, Swept(s, cutoff))
  {
    hide IdOk, TxOk;
    var s' := Swept(s, cutoff);
    SweptKeepsIds(cfg, s, cutoff);
    LockedIsPending(cfg, s);
    OutsideFrame(cfg, s, s');
    PublishersFrame(cfg, s, s');
    assert NoPendingTwins(s'.table);
  }

  // ---- steps of a drain ----

  lemma ClaimedTx(cfg: Config, s: State, d: nat, limit: nat)
    requires d in s.drainers && !s.drainers[d].claimed && TxOk(cfg, s.drainers[d], s.table, s.tasks, s.locks, d)
    ensures var s' := Claimed(s, d, limit);
      && TxOk(cfg, s'.drainers[d], s'.table, s'.tasks, s'.locks, d)
      && (forall id :: id in s'.drainers[d].batch ==> id !in s.locks)
  {
    var s' := Claimed(s, d, limit);
    var tx, tx' := s.drainers[d], s'.drainers[d];
    var ids := Candidates(s.table, s.locks.Keys, tx.started);
    SelectIsOrderedPrefix(s.table, ids, limit);
    forall id | id in tx'.batch ensures id !in s.locks && ClaimOk(tx', s'.table, s'.locks, d, id) {
      var k :| 0 <= k < |tx'.batch| && tx'.batch[k] == id;
      assert id in ids;
    }
    assert tx.batch[..tx.pos] == [];
    assert forall id :: id !in tx.staged;
    assert tx'.batch[..tx'.pos] == [];
  }

  lemma ClaimedLocks(cfg: Config, s: State, d: nat, limit: nat)
    requires LocksOk(s) && d in s.drainers && s.drainers[d].batch == []
    ensures LocksOk(Claimed(s, d, limit))
  {
    hide Select, Candidates;
    var s' := Claimed(s, d, limit);
    forall id | id in s'.locks ensures LockOk(s', id) {
      if id in s.locks { assert LockOk(s, id); }
    }
  }

  lemma ClaimedKeepsInv(cfg: Config, s: State, d: nat, limit: nat)
    requires Inv(cfg, s) && d in s.drainers && !s.drainers[d].claimed
    ensures Inv(cfg, Claimed(s, d, limit))
  {
    hide IdOk, TxOk, Select, DispatchOk, Candidates, IdsOk, LocksOk, NoPendingTwins;
    var s' := Claimed(s, d, limit);
    ClaimedTx(cfg, s, d, limit);
    ClaimedNothing(cfg, s, d);
    ClaimedLocks(cfg, s, d, limit);
    IdsFrame(cfg, s, s');
    TxsFrame(cfg, s, s', {d});
    PublishersFrame(cfg, s, s');
  }

  lemma ClaimedNothing(cfg: Config, s: State, d: nat)
    requires TxsOk(cfg, s) && d in s.drainers && !s.drainers[d].claimed
    ensures s.drainers[d].batch == []
  {
    assert TxOk(cfg, s.drainers[d], s.table, s.tasks, s.locks, d);
  }

  /** A row may be staged so: failed once more, processed after a full dispatch, or processed with a dead letter. */
  ghost predicate MayStage(cfg: Config, tx: DrainTx, id: RowId, row: Row, letters: seq<DeadLetter>, s: State) {
    && id in s.table
    && (if letters == [] then
          || (row.lastError.Some? && row == MarkFailed(s.table[id], tx.started, row.lastError.value))
          || (row == MarkProcessed(s.table[id], tx.started) && AllCovered(cfg, s.tasks, s.table[id].event))
        else
          && |letters| == 1 && letters[0].source == id && letters[0].reason != RetryExhausted
          && row == MarkProcessed(s.table[id], tx.started))
  }

  lemma StagedRows(cfg: Config, tx: DrainTx, row: Row, letters: seq<DeadLetter>, s: State, d: nat)
    requires TxOk(cfg, tx, s.table, s.tasks, s.locks, d) && tx.pos < |tx.batch|
    requires MayStage(cfg, tx, tx.batch[tx.pos], row, letters, s)
    ensures var tx' := Staged(tx, row).(letters := tx.letters + letters);
      && (forall i :: i in tx'.staged <==> i in tx'.batch[..tx'.pos])
      && (forall i :: i in tx'.staged ==> i in s.table && StagedOk(cfg, s.tasks, tx', i, s.table[i]))
  {
    var tx' := Staged(tx, row).(letters := tx.letters + letters);
    assert tx.batch[..tx'.pos] == tx.batch[..tx.pos] + [tx.batch[tx.pos]];
    SourcesOfConcat(tx.letters, letters);
    forall i | i in tx'.staged ensures i in s.table && StagedOk(cfg, s.tasks, tx', i, s.table[i]) {
      if i != tx.batch[tx.pos] {
        assert StagedOk(cfg, s.tasks, tx, i, s.table[i]);
      }
    }
  }

  lemma StagedLetters(cfg: Config, tx: DrainTx, row: Row, letters: seq<DeadLetter>, s: State, d: nat)
    requires TxOk(cfg, tx, s.table, s.tasks, s.locks, d) && tx.pos < |tx.batch|
    requires MayStage(cfg, tx, tx.batch[tx.pos], row, letters, s)
    ensures var tx' := Staged(tx, row).(letters := tx.letters + letters);
      && LettersOk(tx'.letters)
      && (forall i :: i in Sources(tx'.letters) ==> i in tx'.staged && tx'.staged[i].processedAt.Some?)
  {
    var id := tx.batch[tx.pos];
    assert id !in tx.batch[..tx.pos];
    SourcesOfConcat(tx.letters, letters);
    if letters == [] { assert tx.letters + letters == tx.letters; }
  }

  /** Staging the next row of a batch keeps the transaction in order. */
  lemma StagedTx(cfg: Config, tx: DrainTx, row: Row, letters: seq<DeadLetter>, s: State, d: nat)
    requires TxOk(cfg, tx, s.table, s.tasks, s.locks, d) && tx.pos < |tx.batch|
    requires MayStage(cfg, tx, tx.batch[tx.pos], row, letters, s)
    ensures TxOk(cfg, Staged(tx, row).(letters := tx.letters + letters), s.table, s.tasks, s.locks, d)
  {
    hide StagedOk, MayStage, LettersOk, Sources;
    var tx' := Staged(tx, row).(letters := tx.letters + letters);
    StagedRows(cfg, tx, row, letters, s, d);
    StagedLetters(cfg, tx, row, letters, s, d);
    forall i | i in tx'.batch ensures ClaimOk(tx', s.table, s.locks, d, i) {
      assert ClaimOk(tx, s.table, s.locks, d, i);
    }
    if tx'.pos < |tx'.batch| {
      assert ClaimOk(tx', s.table, s.locks, d, tx'.batch[tx'.pos]);
    }
  }

  lemma SourcesOfConcat(a: seq<DeadLetter>, b: seq<DeadLetter>)
    ensures Sources(a + b) == Sources(a) + Sources(b)
    ensures |b| == 1 ==> Sources(b) == {b[0].source}
    ensures LettersOk(a) && LettersOk(b) && Sources(a) !! Sources(b) ==> LettersOk(a + b)
  {
    var c := a + b;
    forall id | id in Sources(a) + Sources(b) ensures id in Sources(c) {
      if id in Sources(a) {
        var k :| 0 <= k < |a| && a[k].source == id;
        assert c[k].source == id;
      } else {
        var k :| 0 <= k < |b| && b[k].source == id;
        assert c[|a| + k].source == id;
      }
    }
    if LettersOk(a) && LettersOk(b) && Sources(a) !! Sources(b) {
      forall k, l | 0 <= k < l < |c| ensures c[k].source != c[l].source {
        if k < |a| <= l {
          assert a[k].source in Sources(a) && b[l - |a|].source in Sources(b);
        }
      }
    }
  }

  /** Only drainer `d` moved on, in a way that keeps its own transaction in order. */
  lemma DrainFrame(cfg: Config, s: State, d: nat, tx: DrainTx)
    requires Inv(cfg, s) && d in s.drainers && tx.batch == s.drainers[d].batch
    requires TxOk(cfg, tx, s.table, s.tasks, s.locks, d)
    ensures Inv(cfg, WithTx(s, d, tx))
  {
    hide IdOk, TxOk, DispatchOk;
    var s' := WithTx(s, d, tx);
    IdsFrame(cfg, s, s');
    TxsFrame(cfg, s, s', {d});
    PublishersFrame(cfg, s, s');
    forall id | id in s'.locks ensures LockOk(s', id) {
      assert LockOk(s, id);
    }
  }

  lemma BuriedTx(cfg: Config, s: State, d: nat)
    requires AtRow(s, d) && TxOk(cfg, s.drainers[d], s.table, s.tasks, s.locks, d) && BuryReason(cfg, RowAt(s, d)).Some?
    ensures TxOk(cfg, Buried(cfg, s, d).drainers[d], s.table, s.tasks, s.locks, d)
  {
    var tx, row := s.drainers[d], RowAt(s, d);
    assert ClaimOk(tx, s.table, s.locks, d, tx.batch[tx.pos]);
    var letters := [Letter(cfg, tx.batch[tx.pos], row, BuryReason(cfg, row).value)];
    assert MayStage(cfg, tx, tx.batch[tx.pos], MarkProcessed(row, tx.started), letters, s);
    hide TxOk, MayStage, ClaimOk, BuryReason;
    StagedTx(cfg, tx, MarkProcessed(row, tx.started), letters, s, d);
  }

  lemma BuriedKeepsInv(cfg: Config, s: State, d: nat)
    requires Inv(cfg, s) && AtRow(s, d) && BuryReason(cfg, RowAt(s, d)).Some?
    ensures Inv(cfg, Buried(cfg, s, d))
  {
    assert TxOk(cfg, s.drainers[d], s.table, s.tasks, s.locks, d);
    hide Inv, TxOk, BuryReason;
    BuriedTx(cfg, s, d);
    DrainFrame(cfg, s, d, Buried(cfg, s, d).drainers[d]);
  }

  lemma SettledTxOk(cfg: Config, s: State, d: nat)
    requires AtRow(s, d) && TxOk(cfg, s.drainers[d], s.table, s.tasks, s.locks, d)
    requires s.drainers[d].dispatch.next == |cfg.Subs(RowAt(s, d).event)|
    ensures TxOk(cfg, Settled(s, d).drainers[d], s.table, s.tasks, s.locks, d)
  {
    var tx, row := s.drainers[d], RowAt(s, d);
    var row' :=
      match tx.dispatch.Error()
      case None => MarkProcessed(row, tx.started)
      case Some(e) => MarkFailed(row, tx.started, e);
    if tx.dispatch.Error().None? {
      assert AllCovered(cfg, s.tasks, row.event);
    }
    assert MayStage(cfg, tx, tx.batch[tx.pos], row', [], s);
    hide TxOk, MayStage, AllCovered;
    StagedTx(cfg, tx, row', [], s, d);
    assert tx.letters + [] == tx.letters;
  }

  lemma SettledKeepsInv(cfg: Config, s: State, d: nat)
    requires Inv(cfg, s) && AtRow(s, d) && s.drainers[d].dispatch.next == |cfg.Subs(RowAt(s, d).event)|
    ensures Inv(cfg, Settled(s, d))
  {
    assert TxOk(cfg, s.drainers[d], s.table, s.tasks, s.locks, d);
    hide Inv, TxOk;
    SettledTxOk(cfg, s, d);
    DrainFrame(cfg, s, d, Settled(s, d).drainers[d]);
  }

  // ---- the end of a drain ----

  lemma ClaimsAreDisjoint(cfg: Config, s: State, d: nat, e: nat)
    requires TxsOk(cfg, s) && d in s.drainers && e in s.drainers && d != e
    ensures forall id :: id in s.drainers[d].batch ==> id !in s.drainers[e].batch
    ensures forall id :: id in s.drainers[d].batch ==> id in s.locks && s.locks[id] == d && id in s.table
  {
    forall id | id in s.drainers[d].batch
      ensures id !in s.drainers[e].batch && id in s.locks && s.locks[id] == d && id in s.table
    {
      assert ClaimOk(s.drainers[d], s.table, s.locks, d, id);
      assert id in s.drainers[e].batch ==> ClaimOk(s.drainers[e], s.table, s.locks, e, id);
    }
  }

  lemma WithoutTxKeepsTxs(cfg: Config, s: State, d: nat, s': State)
    requires TxsOk(cfg, s) && LocksOk(s) && d in s.drainers
    requires s'.drainers == WithoutTx(s, d).drainers && s'.locks == WithoutTx(s, d).locks && s'.tasks == s.tasks
    requires forall id :: id in s.table && id !in s.drainers[d].batch ==> id in s'.table && s'.table[id] == s.table[id]
    ensures TxsOk(cfg, s') && LocksOk(s')
  {
    hide TxOk;
    forall e | e in s'.drainers ensures forall id :: id in s.drainers[e].batch ==> SameRow(s, s', id) {
      ClaimsAreDisjoint(cfg, s, e, d);
    }
    TxsFrame(cfg, s, s', {});
    forall id | id in s'.locks ensures LockOk(s', id) {
      assert LockOk(s, id);
    }
  }

  lemma RollbackKeepsInv(cfg: Config, s: State, d: nat)
    requires Inv(cfg, s) && d in s.drainers
    ensures Inv(cfg, WithoutTx(s, d))
  {
    hide IdOk, TxOk, DispatchOk;
    var s' := WithoutTx(s, d);
    IdsFrame(cfg, s, s');
    WithoutTxKeepsTxs(cfg, s, d, s');
    PublishersFrame(cfg, s, s');
  }

  /** The row a drain failed once more: its backoff clock has advanced by the interval it waited out. */
  lemma FailedRowOk(h: History, row: Row, started: Time, error: string)
    requires RowOk(h, row) && Claimable(row, started)
    ensures RowOk(Recorded(h, MarkFailed(row, started, error)), MarkFailed(row, started, error))
  {
  }

  lemma CommittedStagedId(cfg: Config, s: State, d: nat, id: RowId)
    requires IdsOk(cfg, s) && DeadOk(s) && d in s.drainers && id in s.drainers[d].staged
    requires TxOk(cfg, s.drainers[d], s.table, s.tasks, s.locks, d)
    ensures id !in Sources(s.dead)
    ensures id in Committed(s, d).history && IdOk(cfg, Committed(s, d), id)
  {
    var tx, s' := s.drainers[d], Committed(s, d);
    assert id in tx.batch[..tx.pos] && id in tx.batch;
    assert ClaimOk(tx, s.table, s.locks, d, id);
    assert IdOk(cfg, s, id) && StagedOk(cfg, s.tasks, tx, id, s.table[id]);
    SourcesOfConcat(s.dead, tx.letters);
    if tx.staged[id].processedAt.None? {
      FailedRowOk(s.history[id], s.table[id], tx.started, tx.staged[id].lastError.value);
    }
  }

  lemma CommittedKeepsIds(cfg: Config, s: State, d: nat)
    requires IdsOk(cfg, s) && DeadOk(s) && d in s.drainers
    requires TxOk(cfg, s.drainers[d], s.table, s.tasks, s.locks, d)
    ensures IdsOk(cfg, Committed(s, d)) && DeadOk(Committed(s, d))
  {
    var tx, s' := s.drainers[d], Committed(s, d);
    SourcesOfConcat(s.dead, tx.letters);
    forall id | id in tx.staged ensures id !in Sources(s.dead) && IdOk(cfg, s', id) {
      CommittedStagedId(cfg, s, d, id);
    }
    forall id | id in s'.history ensures IdOk(cfg, s', id) {
      if id !in tx.staged {
        assert IdOk(cfg, s, id);
        assert id !in Sources(tx.letters);
      }
    }
  }

  lemma CommittedKeepsTwins(cfg: Config, s: State, d: nat)
    requires NoPendingTwins(s.table) && d in s.drainers && TxOk(cfg, s.drainers[d], s.table, s.tasks, s.locks, d)
    ensures NoPendingTwins(Committed(s, d).table)
  {
    var table', staged := Committed(s, d).table, s.drainers[d].staged;
    forall id | id in table'
      ensures id in s.table && table'[id].event == s.table[id].event && table'[id].dedupeKey == s.table[id].dedupeKey
      ensures table'[id].processedAt.None? ==> s.table[id].processedAt.None?
    {
      if id in staged { assert StagedOk(cfg, s.tasks, s.drainers[d], id, s.table[id]); }
    }
    forall i, j | i in table' && j in table' && i != j && table'[j].dedupeKey.Some? && table'[j].processedAt.None?
      ensures !Duplicates(table'[i], table'[j].event, table'[j].dedupeKey)
    {
      assert !Duplicates(s.table[i], s.table[j].event, s.table[j].dedupeKey);
    }
  }

  lemma StagedIsClaimed(cfg: Config, s: State, d: nat)
    requires d in s.drainers && TxOk(cfg, s.drainers[d], s.table, s.tasks, s.locks, d)
    ensures forall id :: id in s.drainers[d].staged ==> id in s.drainers[d].batch
  {
    var tx := s.drainers[d];
    forall id | id in tx.staged ensures id in tx.batch {
      assert id in tx.batch[..tx.pos];
    }
  }

  lemma CommittedKeepsInv(cfg: Config, s: State, d: nat)
    requires Inv(cfg, s) && d in s.drainers
    ensures Inv(cfg, Committed(s, d))
  {
    hide IdOk, TxOk, DispatchOk;
    var s' := Committed(s, d);
    CommittedKeepsIds(cfg, s, d);
    CommittedKeepsTwins(cfg, s, d);
    StagedIsClaimed(cfg, s, d);
    WithoutTxKeepsTxs(cfg, s, d, s');
    PublishersFrame(cfg, s, s');
  }

  lemma BegunTxOk(cfg: Config, s: State, d: nat, started: Time)
    ensures TxOk(cfg, DrainTx(started, false, [], 0, START, map[], []), s.table, s.tasks, s.locks, d)
  {
  }

  lemma BegunKeepsInv(cfg: Config, s: State, d: nat)
    requires Inv(cfg, s) && d !in s.drainers
    ensures Inv(cfg, WithTx(s, d, DrainTx(s.now, false, [], 0, START, map[], [])))
  {
    hide IdOk, TxOk, DispatchOk;
    var s' := WithTx(s, d, DrainTx(s.now, false, [], 0, START, map[], []));
    BegunTxOk(cfg, s, d, s.now);
    IdsFrame(cfg, s, s');
    TxsFrame(cfg, s, s', {d});
    PublishersFrame(cfg, s, s');
    forall id | id in s'.locks ensures LockOk(s', id) {
      assert LockOk(s, id);
    }
  }

  lemma TickKeepsInv(cfg: Config, s: State, elapsed: nat)
    requires Inv(cfg, s)
    ensures Inv(cfg, s.(now := s.now + elapsed))
  {
    hide IdOk, TxOk, DispatchOk;
    var s' := s.(now := s.now + elapsed);
    IdsFrame(cfg, s, s');
    OutsideFrame(cfg, s, s');
  }

  // ---- every step, every run ----

  lemma StepKeepsInv(cfg: Config, s: State, step: Step)
    requires Inv(cfg, s) && Enabled(cfg, s, step)
    ensures Inv(cfg, Apply(cfg, s, step))
  {
    hide Inv;
    match step
    case Tick(elapsed) => TickKeepsInv(cfg, s, elapsed);
    case CommitPublish(id, event, key, createdAt) => InsertedKeepsInv(cfg, s, id, event, key, createdAt);
    case PublishDirect(p, event, row, key, createdAt) =>
      var s1 := s;
      if row.Some? {
        InsertedKeepsInv(cfg, s, row.value, event, key, createdAt);
        s1 := Inserted(s, row.value, event, key, createdAt);
      }
      StartedKeepsInv(cfg, s1, p, event, row);
    case PublisherDispatch(p, reply) => PublisherDispatchKeepsInv(cfg, s, p, reply);
    case PublisherMark(p, at, marked) =>
      var s1 := s;
      if marked {
        MarkedKeepsInv(cfg, s, p, at);
        s1 := Marked(s, s.publishers[p], at);
      }
      StoppedKeepsInv(cfg, s1, p);
    case PublisherCrash(p) => StoppedKeepsInv(cfg, s, p);
    case Begin(d) => BegunKeepsInv(cfg, s, d);
    case Claim(d, limit) => ClaimedKeepsInv(cfg, s, d, limit);
    case Bury(d) => BuriedKeepsInv(cfg, s, d);
    case DrainDispatch(d, reply) => DrainDispatchKeepsInv(cfg, s, d, reply);
    case Settle(d) => SettledKeepsInv(cfg, s, d);
    case Commit(d) => CommittedKeepsInv(cfg, s, d);
    case Rollback(d) => RollbackKeepsInv(cfg, s, d);
    case Sweep(cutoff) => SweptKeepsInv(cfg, s, cutoff);
  }

  lemma {:induction false} RunKeepsInv(cfg: Config, s: State, steps: seq<Step>)
    requires Inv(cfg, s) && CanRun(cfg, s, steps)
    ensures Inv(cfg, Run(cfg, s, steps))
    decreases |steps|
  {
    if steps != [] {
      StepKeepsInv(cfg, s, steps[0]);
      RunKeepsInv(cfg, Apply(cfg, s, steps[0]), steps[1..]);
    }
  }

  lemma InitialInv(cfg: Config, now: Time)
    ensures Inv(cfg, Initial(now))
  {
  }
}

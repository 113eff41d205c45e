/** A measure that every committed batch lowers by the rows it fetched, whatever the clock does. */
module OutboxMeasure {
  import opened Prelude
  import opened Outbox
  import opened OutboxProtocol
  import opened OutboxInvariant

  /** The drain attempts a row may still consume. */
  function Weight(row: Row): nat {
    if row.processedAt.Some? || row.retryCount >= MAX_RETRY then 0 else MAX_RETRY - row.retryCount
  }

  ghost function Total(table: Table, ids: set<RowId>): nat
    requires ids <= table.Keys
  {
    if ids == {} then 0
    else
      var id :| id in ids;
      Weight(table[id]) + Total(table, ids - {id})
  }

  ghost function Measure(table: Table): nat {
    Total(table, table.Keys)
  }

  lemma {:induction false} TotalSplit(table: Table, ids: set<RowId>, id: RowId)
    requires ids <= table.Keys && id in ids
    ensures Total(table, ids) == Weight(table[id]) + Total(table, ids - {id})
    decreases ids
  {
    var pick :| pick in ids && Total(table, ids) == Weight(table[pick]) + Total(table, ids - {pick});
    if pick != id {
      TotalSplit(table, ids - {pick}, id);
      TotalSplit(table, ids - {id}, pick);
      assert ids - {pick} - {id} == ids - {id} - {pick};
    }
  }

  /** Rows of `ids` weigh no more in table', rows of `lighter` at least one less. */
  ghost predicate NoHeavier(table: Table, table': Table, ids: set<RowId>, lighter: set<RowId>) {
    forall id :: id in ids ==>
      && id in table && id in table'
      && Weight(table'[id]) + (if id in lighter then 1 else 0) <= Weight(table[id])
  }

  lemma {:induction false} TotalDrops(table: Table, table': Table, ids: set<RowId>, lighter: set<RowId>)
    requires lighter <= ids && NoHeavier(table, table', ids, lighter)
    ensures ids <= table.Keys && ids <= table'.Keys
    ensures Total(table', ids) + |lighter| <= Total(table, ids)
    decreases ids
  {
    if ids != {} {
      var id :| id in ids;
      TotalSplit(table, ids, id);
      TotalSplit(table', ids, id);
      TotalDrops(table, table', ids - {id}, lighter - {id});
      assert |lighter| <= |lighter - {id}| + (if id in lighter then 1 else 0);
    }
  }

  /** Dropping rows from a table cannot raise the measure; they are compared on what is left. */
  lemma {:induction false} TotalOfFewer(table: Table, ids: set<RowId>, fewer: set<RowId>)
    requires fewer <= ids <= table.Keys
    ensures Total(table, fewer) <= Total(table, ids)
    decreases |ids - fewer|
  {
    if ids - fewer == {} {
      assert forall id :: id in ids ==> id !in ids - fewer;
      assert ids == fewer;
    } else {
      var id :| id in ids - fewer;
      TotalSplit(table, ids, id);
      assert |(ids - {id}) - fewer| < |ids - fewer| by { assert (ids - {id}) - fewer == (ids - fewer) - {id}; }
      TotalOfFewer(table, ids - {id}, fewer);
    }
  }

  lemma MeasureDrops(table: Table, table': Table, lighter: set<RowId>)
    requires table'.Keys <= table.Keys && lighter <= table'.Keys
    requires NoHeavier(table, table', table'.Keys, lighter)
    ensures Measure(table') + |lighter| <= Measure(table)
  {
    TotalDrops(table, table', table'.Keys, lighter);
    TotalOfFewer(table, table.Keys, table'.Keys);
  }

  lemma {:induction false} TotalSame(table: Table, table': Table, ids: set<RowId>)
    requires ids <= table.Keys && ids <= table'.Keys
    requires forall id :: id in ids ==> table'[id] == table[id]
    ensures Total(table', ids) == Total(table, ids)
    decreases ids
  {
    if ids != {} {
      var id :| id in ids;
      TotalSplit(table, ids, id);
      TotalSplit(table', ids, id);
      TotalSame(table, table', ids - {id});
    }
  }

  lemma InsertRaisesByTen(s: State, id: RowId, event: Event, key: Option<string>, createdAt: Time)
    requires id !in s.table
    ensures Measure(Inserted(s, id, event, key, createdAt).table) == Measure(s.table) + MAX_RETRY
  {
    var table' := Inserted(s, id, event, key, createdAt).table;
    TotalSplit(table', table'.Keys, id);
    assert table'.Keys - {id} == s.table.Keys;
    TotalSame(s.table, table', s.table.Keys);
  }

  // ---- steps and runs ----

  function Inserts(step: Step): nat {
    if step.CommitPublish? || (step.PublishDirect? && step.row.Some?) then 1 else 0
  }

  /** The rows a step fetched and whose outcome it committed. */
  function Fetched(s: State, step: Step): nat {
    if step.Commit? && step.d in s.drainers then |s.drainers[step.d].batch| else 0
  }

  lemma ClaimedRowGetsLighter(cfg: Config, s: State, d: nat, id: RowId)
    requires d in s.drainers && TxOk(cfg, s.drainers[d], s.table, s.tasks, s.locks, d)
    requires s.drainers[d].pos == |s.drainers[d].batch| && id in s.drainers[d].batch
    ensures id in s.table && id in s.drainers[d].staged
    ensures Weight(s.drainers[d].staged[id]) + 1 <= Weight(s.table[id])
  {
    var tx := s.drainers[d];
    assert tx.batch[..tx.pos] == tx.batch;
    assert ClaimOk(tx, s.table, s.locks, d, id) && StagedOk(cfg, s.tasks, tx, id, s.table[id]);
  }

  lemma CommittedTable(s: State, d: nat)
    requires d in s.drainers && s.drainers[d].staged.Keys <= s.table.Keys
    ensures var table', staged := Committed(s, d).table, s.drainers[d].staged;
      table'.Keys == s.table.Keys && forall id :: id in table' ==> table'[id] == if id in staged then staged[id] else s.table[id]
  {
  }

  lemma CommitDropsByFetched(cfg: Config, s: State, d: nat)
    requires TxsOk(cfg, s) && Enabled(cfg, s, Commit(d))
    ensures Measure(Committed(s, d).table) + |s.drainers[d].batch| <= Measure(s.table)
  {
    var tx := s.drainers[d];
    assert TxOk(cfg, tx, s.table, s.tasks, s.locks, d);
    ElementsOfDistinct(tx.batch);
    hide TxOk, Measure, Weight, Committed, TxsOk, Enabled;
    StagedIsClaimed(cfg, s, d);
    forall id | id in tx.batch
      ensures id in s.table && id in tx.staged && Weight(tx.staged[id]) + 1 <= Weight(s.table[id])
    {
      ClaimedRowGetsLighter(cfg, s, d, id);
    }
    CommittedTable(s, d);
    MeasureDrops(s.table, Committed(s, d).table, Elements(tx.batch));
  }

  lemma MarkMeasure(s: State, pub: Publisher, at: Time)
    ensures Measure(Marked(s, pub, at).table) <= Measure(s.table)
  {
    MeasureDrops(s.table, Marked(s, pub, at).table, {});
  }

  lemma SweepMeasure(s: State, cutoff: Time)
    ensures Measure(Swept(s, cutoff).table) <= Measure(s.table)
  {
    MeasureDrops(s.table, Swept(s, cutoff).table, {});
  }

  /** The table after a step, step by step. */
  lemma TableAfter(cfg: Config, s: State, step: Step)
    requires Enabled(cfg, s, step)
    ensures var table' := Apply(cfg, s, step).table;
      match step
      case CommitPublish(id, event, key, createdAt) => table' == Inserted(s, id, event, key, createdAt).table
      case PublishDirect(_, event, row, key, createdAt) =>
        table' == if row.Some? then Inserted(s, row.value, event, key, createdAt).table else s.table
      case PublisherMark(p, at, marked) => p in s.publishers && table' == if marked then Marked(s, s.publishers[p], at).table else s.table
      case Commit(d) => d in s.drainers && table' == Committed(s, d).table
      case Sweep(cutoff) => table' == Swept(s, cutoff).table
      case _ => table' == s.table
  {
    hide Inserted, Marked, Committed, Swept, Select, Candidates, ReplyFits, InsertAllowed;
    if step.PublishDirect? && step.row.Some? { InsertOnlyInserts(s, step.row.value, step.event, step.dedupeKey, step.createdAt); }
    if step.PublisherMark? && step.marked { assert step.p in s.publishers; }
  }

  lemma InsertOnlyInserts(s: State, id: RowId, event: Event, key: Option<string>, createdAt: Time)
    ensures var s' := Inserted(s, id, event, key, createdAt); s' == s.(table := s'.table, history := s'.history)
  {
  }

  lemma StepMeasure(cfg: Config, s: State, step: Step)
    requires Inv(cfg, s) && Enabled(cfg, s, step)
    ensures Measure(Apply(cfg, s, step).table) + Fetched(s, step) <= Measure(s.table) + MAX_RETRY * Inserts(step)
  {
    hide IdsOk, TxsOk, LocksOk, PublishersOk, NoPendingTwins, Measure, Inserted, Marked, Committed, Swept;
    if step.CommitPublish? { FreshRow(cfg, s, step.id); }
    if step.PublishDirect? && step.row.Some? { FreshRow(cfg, s, step.row.value); }
    TableAfter(cfg, s, step);
    hide Apply;
    match step
    case CommitPublish(id, event, key, createdAt) => InsertRaisesByTen(s, id, event, key, createdAt);
    case PublishDirect(_, event, row, key, createdAt) =>
      if row.Some? { InsertRaisesByTen(s, row.value, event, key, createdAt); }
    case PublisherMark(p, at, marked) => MarkMeasure(s, s.publishers[p], at);
    case Commit(d) => CommitDropsByFetched(cfg, s, d);
    case Sweep(cutoff) => SweepMeasure(s, cutoff);
    case _ =>
  }

  lemma FreshRow(cfg: Config, s: State, id: RowId)
    requires Inv(cfg, s) && id !in s.history
    ensures id !in s.table
  {
  }

  function RunInserts(steps: seq<Step>): nat {
    if steps == [] then 0 else Inserts(steps[0]) + RunInserts(steps[1..])
  }

  function RunFetched(cfg: Config, s: State, steps: seq<Step>): nat
    requires CanRun(cfg, s, steps)
    decreases |steps|
  {
    if steps == [] then 0
    else Fetched(s, steps[0]) + RunFetched(cfg, Apply(cfg, s, steps[0]), steps[1..])
  }

  /** Over any run, the rows fetched by committed batches are paid for by the measure and the inserts. */
  lemma {:induction false} RunMeasure(cfg: Config, s: State, steps: seq<Step>)
    requires Inv(cfg, s) && CanRun(cfg, s, steps)
    ensures Measure(Run(cfg, s, steps).table) + RunFetched(cfg, s, steps)
         <= Measure(s.table) + MAX_RETRY * RunInserts(steps)
    decreases |steps|
  {
    if steps != [] {
      StepMeasure(cfg, s, steps[0]);
      StepKeepsInv(cfg, s, steps[0]);
      RunMeasure(cfg, Apply(cfg, s, steps[0]), steps[1..]);
    }
  }
}

/** The events.outbox table and the SQL statements that read and write it. */
module Outbox {
  import opened Prelude

  /** A published event: its type name and the JSON text of its fields. */
  datatype Event = Event(eventType: string, payload: string)

  datatype Row = Row(
    event: Event,
    dedupeKey: Option<string>,
    createdAt: Time,
    processedAt: Option<Time>,
    retryCount: nat,
    lastError: Option<string>,
    lastAttemptedAt: Option<Time>)

  /** BIGSERIAL keys; the sequence starts at 1. */
  type RowId = nat

  type Table = map<RowId, Row>

  const MAX_RETRY: nat := 10

  /** A freshly inserted row, as the column defaults leave it. */
  function NewRow(event: Event, dedupeKey: Option<string>, createdAt: Time): Row {
    Row(event, dedupeKey, createdAt, None, 0, None, None)
  }

  function MarkProcessed(row: Row, at: Time): Row {
    row.(processedAt := Some(at))
  }

  function MarkFailed(row: Row, at: Time, error: string): Row {
    row.(retryCount := row.retryCount + 1, lastError := Some(error), lastAttemptedAt := Some(at))
  }

  /** The partial unique index ux_outbox_pending_dedupe refuses this insert. */
  predicate DedupeConflict(table: Table, event: Event, dedupeKey: Option<string>) {
    && dedupeKey.Some?
    && exists id :: id in table && Duplicates(table[id], event, dedupeKey)
  }

  predicate Duplicates(row: Row, event: Event, dedupeKey: Option<string>) {
    row.processedAt.None? && row.event.eventType == event.eventType && row.dedupeKey == dedupeKey
  }

  // ---- the claim query ----

  /** The backoff disjunction of the claim's WHERE clause. */
  predicate BackoffElapsed(row: Row, now: Time) {
    match row.lastAttemptedAt
    case None => true
    case Some(last) =>
      || (row.retryCount == 1 && last < now - 30 * SECOND)
      || (row.retryCount == 2 && last < now - 2 * MINUTE)
      || (row.retryCount == 3 && last < now - 10 * MINUTE)
      || (row.retryCount == 4 && last < now - 30 * MINUTE)
      || (row.retryCount >= 5 && last < now - HOUR)
  }

  predicate Claimable(row: Row, now: Time) {
    row.processedAt.None? && row.retryCount < MAX_RETRY && BackoffElapsed(row, now)
  }

  /** ids the claim query may return: claimable and, by SKIP LOCKED, not locked. */
  function Candidates(table: Table, locked: set<RowId>, now: Time): set<RowId> {
    set id | id in table && id !in locked && Claimable(table[id], now)
  }

  /** ORDER BY last_attempted_at NULLS FIRST, id ASC. */
  predicate Before(table: Table, i: RowId, j: RowId)
    requires i in table && j in table
  {
    match (table[i].lastAttemptedAt, table[j].lastAttemptedAt)
    case (None, None) => i < j
    case (None, Some(_)) => true
    case (Some(_), None) => false
    case (Some(a), Some(b)) => a < b || (a == b && i < j)
  }

  predicate IsFirst(table: Table, ids: set<RowId>, i: RowId)
    requires ids <= table.Keys
  {
    i in ids && forall j :: j in ids && j != i ==> Before(table, i, j)
  }

  lemma {:induction false} FirstExists(table: Table, ids: set<RowId>)
    requires ids != {} && ids <= table.Keys
    ensures exists i :: IsFirst(table, ids, i)
  {
    var x :| x in ids;
    var rest := ids - {x};
    assert forall j :: j in ids && j != x ==> j in rest;
    if rest == {} {
      assert IsFirst(table, ids, x);
    } else {
      FirstExists(table, rest);
      var y :| IsFirst(table, rest, y);
      assert IsFirst(table, ids, if Before(table, x, y) then x else y);
    }
  }

  function First(table: Table, ids: set<RowId>): (i: RowId)
    requires ids <= table.Keys && ids != {}
    ensures IsFirst(table, ids, i)
  {
    FirstExists(table, ids);
    var i :| i in ids && IsFirst(table, ids, i);
    i
  }

  /** ORDER BY ... LIMIT over a set of rows. */
  function Select(table: Table, ids: set<RowId>, limit: nat): (batch: seq<RowId>)
    requires ids <= table.Keys
    decreases limit
  {
    if limit == 0 || ids == {} then []
    else
      var i := First(table, ids);
      [i] + Select(table, ids - {i}, limit - 1)
  }

  /** Row i has waited at least as long as row j: rows never attempted come first, then those whose last attempt is longest
      ago, and of two that are equal in this the one inserted first. */
  ghost predicate WaitedLonger(table: Table, i: RowId, j: RowId)
    requires i in table && j in table
  {
    var a, b := table[i].lastAttemptedAt, table[j].lastAttemptedAt;
    (b.None? ==> a.None?) && (a.Some? && b.Some? ==> a.value <= b.value) && (a == b ==> i < j)
  }

  /** What a claimed batch is, without reference to how it is computed: distinct rows of the
      candidate set, longest waiting first, as many as the limit allows, none of them overtaken by a row left out. */
  ghost predicate IsOrderedPrefix(table: Table, ids: set<RowId>, limit: nat, batch: seq<RowId>)
    requires ids <= table.Keys
  {
    && |batch| == (if |ids| < limit then |ids| else limit)
    && (forall k :: 0 <= k < |batch| ==> batch[k] in ids)
    && (forall k, l :: 0 <= k < l < |batch| ==> batch[k] != batch[l] && WaitedLonger(table, batch[k], batch[l]))
    && (forall k, j :: 0 <= k < |batch| && j in ids && j !in batch ==> WaitedLonger(table, batch[k], j))
  }

  lemma {:induction false} SelectIsOrderedPrefix(table: Table, ids: set<RowId>, limit: nat)
    requires ids <= table.Keys
    ensures IsOrderedPrefix(table, ids, limit, Select(table, ids, limit))
    decreases limit
  {
    if limit == 0 || ids == {} {
    } else {
      var i := First(table, ids);
      SelectIsOrderedPrefix(table, ids - {i}, limit - 1);
      var rest := Select(table, ids - {i}, limit - 1);
      var batch := Select(table, ids, limit);
      assert batch == [i] + rest;
      assert |ids - {i}| == |ids| - 1;
      forall k, l | 0 <= k < l < |batch|
        ensures batch[k] != batch[l] && WaitedLonger(table, batch[k], batch[l])
      {
        assert batch[l] == rest[l - 1];
      }
      forall k, j | 0 <= k < |batch| && j in ids && j !in batch ensures WaitedLonger(table, batch[k], j) {
        assert j != i by { assert batch[0] == i; }
        assert forall m :: 0 <= m < |rest| ==> rest[m] == batch[m + 1];
        assert j !in rest;
        if k > 0 { assert batch[k] == rest[k - 1]; }
      }
    }
  }

  /** An unprocessed row under the retry limit is claimable again once an hour has passed since its
      last attempt, exactly when it is not attempted-but-uncounted: a row with an attempt time and a
      zero retry count would satisfy no branch of the backoff clause, ever. */
  lemma StuckIffAttemptUncounted(row: Row)
    requires row.processedAt.None? && row.retryCount < MAX_RETRY
    ensures (row.lastAttemptedAt.Some? && row.retryCount == 0) <==> (forall now :: !Claimable(row, now))
    ensures !(row.lastAttemptedAt.Some? && row.retryCount == 0) ==>
      forall now :: (row.lastAttemptedAt.Some? ==> now > row.lastAttemptedAt.value + HOUR) ==> Claimable(row, now)
  {
    var later := match row.lastAttemptedAt case None => 0 case Some(last) => last + HOUR + 1;
    if !(row.lastAttemptedAt.Some? && row.retryCount == 0) {
      assert Claimable(row, later);
    }
  }
}

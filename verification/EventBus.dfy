/** The event bus: dispatch, direct publication, and the drain with its circuit breaker, each run amid
    any steps of other publishers and drainers. */
module EventBus {
  import opened Prelude
  import opened Outbox
  import opened OutboxProtocol
  import opened OutboxInvariant
  import opened OutboxMeasure
  import opened OutboxWorld
  import opened Breaker

  /** Why a drain ended. */
  datatype Stop = GateShut | Tripped | RolledBack | Drained | Cancelled

  datatype PublishError = EnqueueFailed | HandlerError(text: string) | WriteFailed

  /** The error a dispatch reports: a failed enqueue outranks the first critical handler error. */
  function ErrorOf(d: Dispatch): Option<PublishError> {
    if !d.allEnqueued then Some(EnqueueFailed)
    else if d.critical.Some? then Some(HandlerError(d.critical.value))
    else None
  }

  // ---- what the answers of the subscriptions amount to ----

  predicate SomeRefused(replies: seq<Reply>) {
    exists k :: 0 <= k < |replies| && replies[k].Refused?
  }

  /** The handler of the k-th subscription failed, and its failure counts. */
  predicate FailedCritically(subs: seq<Subscription>, replies: seq<Reply>, k: nat)
    requires |replies| <= |subs|
  {
    k < |replies| && replies[k].HandlerFailed? && subs[k].critical
  }

  predicate FirstCritical(subs: seq<Subscription>, replies: seq<Reply>, k: nat)
    requires |replies| <= |subs|
  {
    FailedCritically(subs, replies, k) && forall j :: 0 <= j < k ==> !FailedCritically(subs, replies, j)
  }

  predicate SomeCritical(subs: seq<Subscription>, replies: seq<Reply>)
    requires |replies| <= |subs|
  {
    exists k :: 0 <= k < |replies| && FailedCritically(subs, replies, k)
  }

  /** The text is what the first critical handler that failed said. */
  ghost predicate CriticalText(subs: seq<Subscription>, replies: seq<Reply>, text: string)
    requires |replies| <= |subs|
  {
    exists k :: 0 <= k < |replies| && FirstCritical(subs, replies, k) && replies[k].error == text
  }

  /** The two things a dispatch remembers of the answers: whether every enqueue went through, and the first
      critical handler's error. */
  ghost predicate Tallied(subs: seq<Subscription>, replies: seq<Reply>, allEnqueued: bool, critical: Option<string>) {
    && |replies| <= |subs|
    && (allEnqueued <==> !SomeRefused(replies))
    && match critical
       case None => !SomeCritical(subs, replies)
       case Some(text) => CriticalText(subs, replies, text)
  }

  /** The error is the one these answers call for: a refused enqueue outranks every handler, the first critical
      handler that failed outranks the later ones, and no other failure counts. */
  ghost predicate Verdict(subs: seq<Subscription>, replies: seq<Reply>, err: Option<PublishError>)
    requires |replies| <= |subs|
  {
    && (err == Some(EnqueueFailed) <==> SomeRefused(replies))
    && (err.None? <==> !SomeRefused(replies) && !SomeCritical(subs, replies))
    && err != Some(WriteFailed)
    && (err.Some? && err.value.HandlerError? ==> CriticalText(subs, replies, err.value.text))
  }

  /** One more answer changes the tally as the protocol's record of the dispatch says. */
  lemma OneMoreAnswer(cfg: Config, event: Event, replies: seq<Reply>, d: Dispatch, reply: Reply)
    requires |replies| == d.next < |cfg.Subs(event)| && ReplyKind(cfg, event, d, reply)
    requires Tallied(cfg.Subs(event), replies, d.allEnqueued, d.critical)
    ensures var d' := DispatchAfter(cfg, event, d, reply);
      d'.next == d.next + 1 && Tallied(cfg.Subs(event), replies + [reply], d'.allEnqueued, d'.critical)
  {
    var subs, more := cfg.Subs(event), replies + [reply];
    var n := |replies|;
    assert more[n] == reply;
    if SomeRefused(replies) {
      var k :| 0 <= k < |replies| && replies[k].Refused?;
      assert more[k].Refused?;
    }
    assert forall k :: 0 <= k < n ==> (FailedCritically(subs, more, k) <==> FailedCritically(subs, replies, k));
    if d.critical.Some? {
      var k :| 0 <= k < n && FirstCritical(subs, replies, k) && replies[k].error == d.critical.value;
      assert FirstCritical(subs, more, k) && more[k].error == d.critical.value;
    } else {
      assert forall k :: 0 <= k < n ==> !FailedCritically(subs, replies, k);
      if FailedCritically(subs, more, n) {
        assert FirstCritical(subs, more, n) && more[n].error == reply.error;
      }
    }
  }

  lemma TallyDecides(subs: seq<Subscription>, replies: seq<Reply>, d: Dispatch)
    requires Tallied(subs, replies, d.allEnqueued, d.critical)
    ensures Verdict(subs, replies, ErrorOf(d))
  {
    if d.critical.Some? {
      var k :| 0 <= k < |replies| && FirstCritical(subs, replies, k) && replies[k].error == d.critical.value;
      assert FailedCritically(subs, replies, k);
    }
  }

  /** What the drain makes of a row whose subscriptions gave these answers: processed at the transaction's time when the
      dispatch failed in nothing that counts, otherwise failed once more, with the error's text. */
  ghost predicate RowSettled(subs: seq<Subscription>, replies: seq<Reply>, before: DrainTx, after: DrainTx, row: Row, failed: bool) {
    && |replies| == |subs| && before.pos < |before.batch|
    && (failed <==> SomeRefused(replies) || SomeCritical(subs, replies))
    && exists row' :: (
      && after == before.(staged := before.staged[before.batch[before.pos] := row'], pos := before.pos + 1)
      && SettledRow(subs, replies, before.started, row, row', failed))
  }

  ghost predicate SettledRow(subs: seq<Subscription>, replies: seq<Reply>, at: Time, row: Row, row': Row, failed: bool)
    requires |replies| <= |subs|
  {
    if !failed then row' == row.(processedAt := Some(at))
    else
      && row'.lastError.Some?
      && row' == row.(retryCount := row.retryCount + 1, lastAttemptedAt := Some(at), lastError := row'.lastError)
      && (SomeRefused(replies) ==> row'.lastError.value == "one or more async event enqueues failed")
      && (!SomeRefused(replies) ==> CriticalText(subs, replies, row'.lastError.value))
  }

  lemma SettledByVerdict(cfg: Config, tx: DrainTx, row: Row, done: Dispatch, replies: seq<Reply>)
    requires tx.pos < |tx.batch| && tx.dispatch == START && |replies| == |cfg.Subs(row.event)|
    requires Tallied(cfg.Subs(row.event), replies, done.allEnqueued, done.critical)
    ensures RowSettled(cfg.Subs(row.event), replies, tx, SettledTx(tx, row, done), row, ErrorOf(done).Some?)
  {
    var subs := cfg.Subs(row.event);
    TallyDecides(subs, replies, done);
    hide SomeRefused, SomeCritical, CriticalText;
    var row' := SettledTx(tx, row, done).staged[tx.batch[tx.pos]];
    assert SettledRow(subs, replies, tx.started, row, row', ErrorOf(done).Some?);
  }

  // ---- what a committed batch did ----

  function FailedRows(staged: Table): set<RowId> {
    set id | id in staged && staged[id].processedAt.None?
  }

  /** The n-th step of the trace committed the transaction `tx` of drainer `d`. */
  ghost predicate CommittedAt(w: World, n: nat, d: nat, tx: DrainTx)
    reads w
  {
    && n < |w.trace| && w.trace[n] == Commit(d)
    && CanRun(w.cfg, Initial(w.start), w.trace[..n])
    && d in Run(w.cfg, Initial(w.start), w.trace[..n]).drainers
    && Run(w.cfg, Initial(w.start), w.trace[..n]).drainers[d] == tx
  }

  /** The batch record counts the rows the transaction tried to publish, and those of them it failed. */
  ghost predicate Counts(b: Batch, tx: DrainTx) {
    && b.started == tx.started && |tx.letters| <= |tx.batch|
    && b.attempts == |tx.batch| - |tx.letters| && b.failures == |set id | id in tx.staged && tx.staged[id].processedAt.None?|
  }

  lemma NextRowIsNew(cfg: Config, s: State, n: nat)
    requires Inv(cfg, s) && AtRow(s, n)
    ensures s.drainers[n].batch[s.drainers[n].pos] !in s.drainers[n].staged
    ensures RowAt(s, n).retryCount < MAX_RETRY && RowAt(s, n).processedAt.None?
  {
    var tx := s.drainers[n];
    assert TxOk(cfg, tx, s.table, s.tasks, s.locks, n);
    assert ClaimOk(tx, s.table, s.locks, n, tx.batch[tx.pos]);
    assert tx.batch[tx.pos] !in tx.batch[..tx.pos];
  }

  lemma StagedCount(staged: Table, id: RowId, row: Row)
    requires id !in staged
    ensures |FailedRows(staged[id := row])| == |FailedRows(staged)| + (if row.processedAt.None? then 1 else 0)
  {
    if row.processedAt.None? {
      assert FailedRows(staged[id := row]) == FailedRows(staged) + {id};
    } else {
      assert FailedRows(staged[id := row]) == FailedRows(staged);
    }
  }

  lemma OnlyDispatchedTrans(s: State, t: State, u: State, actor: Actor)
    requires OnlyDispatched(s, t, actor) && OnlyDispatched(t, u, actor)
    ensures OnlyDispatched(s, u, actor)
  {
    match actor
    case Direct(_) =>
    case Drainer(n) =>
      forall id | id in s.drainers[n].batch ensures SameClaim(s, u, id) {
        assert SameClaim(s, t, id) && SameClaim(t, u, id);
      }
  }

  lemma AllowsLater(log: seq<Batch>, now: Time, later: Time)
    requires Allows(log, now) && now <= later
    ensures Allows(log, later)
  {
  }

  ghost predicate IsFirstError(handler: nat -> Option<string>, ran: seq<nat>, i: nat, err: Option<string>) {
    i < |ran| && handler(ran[i]) == err && forall j :: 0 <= j < i ==> handler(ran[j]).None?
  }

  /** Some row was created after this time. */
  ghost predicate TooYoung(s: State, started: Time) {
    exists id :: id in s.table && s.table[id].createdAt > started
  }

  lemma YoungIn(s: State, started: Time)
    ensures forall s': State {:trigger s'.table} :: s'.table == s.table ==> (TooYoung(s', started) <==> TooYoung(s, started))
  {
  }

  /** From the n-th step of the trace on the drainer claimed, with this limit, and took this many rows: all it could, or as many
      as the limit allows. */
  ghost predicate Took(cfg: Config, start: Time, trace: seq<Step>, n: nat, d: nat, limit: nat, fetched: nat) {
    exists m :: n <= m < |trace| && trace[m] == Claim(d, limit) && TookAt(cfg, start, trace[..m], d, limit, fetched)
  }

  ghost predicate TookAt(cfg: Config, start: Time, trace: seq<Step>, d: nat, limit: nat, fetched: nat) {
    && CanRun(cfg, Initial(start), trace)
    && var s := Run(cfg, Initial(start), trace);
    && d in s.drainers
    && var free := set id | id in s.table && id !in s.locks && Claimable(s.table[id], s.drainers[d].started);
    && fetched == if |free| < limit then |free| else limit
  }

  lemma TookNow(w: World, n: nat, d: nat, limit: nat)
    requires w.Valid() && n <= |w.trace| && d in w.st.drainers
    ensures Took(w.cfg, w.start, w.trace + [Claim(d, limit)], n, d, limit, |Claimed(w.st, d, limit).drainers[d].batch|)
  {
    hide CanRun, Run, Claimable, Select;
    var more := w.trace + [Claim(d, limit)];
    assert more[|w.trace|] == Claim(d, limit) && more[..|w.trace|] == w.trace;
    var free := Candidates(w.st.table, w.st.locks.Keys, w.st.drainers[d].started);
    assert free == set id | id in w.st.table && id !in w.st.locks && Claimable(w.st.table[id], w.st.drainers[d].started);
    SelectIsOrderedPrefix(w.st.table, free, limit);
  }

  lemma TookSince(cfg: Config, start: Time, trace: seq<Step>, n: nat, before: nat, d: nat, limit: nat, fetched: nat)
    requires Took(cfg, start, trace, n, d, limit, fetched) && before <= n
    ensures Took(cfg, start, trace, before, d, limit, fetched)
  {
  }

  lemma TookStays(cfg: Config, start: Time, trace: seq<Step>, more: seq<Step>, n: nat, d: nat, limit: nat, fetched: nat)
    requires Took(cfg, start, trace, n, d, limit, fetched) && trace <= more
    ensures Took(cfg, start, more, n, d, limit, fetched)
  {
    hide TookAt;
    var m :| n <= m < |trace| && trace[m] == Claim(d, limit) && TookAt(cfg, start, trace[..m], d, limit, fetched);
    assert more[m] == trace[m] && more[..m] == trace[..m];
  }

  /** Batch i was committed and left the breaker closed. */
  ghost predicate LeavesClosed(log: seq<Batch>, i: nat)
    requires i < |log|
  {
    log[i].committed && Trailing(log[..i + 1]) < THRESHOLD
  }

  ghost predicate LeftClosed(log: seq<Batch>, from: nat, upto: int) {
    forall i :: from <= i < upto && i < |log| ==> LeavesClosed(log, i)
  }

  lemma LeftClosedGrows(log: seq<Batch>, more: seq<Batch>, from: nat)
    requires LeftClosed(log, from, |log|) && |log| <= |more| && more[..|log|] == log
    ensures LeftClosed(more, from, |log|) && LeftClosed(more, from, |log| - 1)
    ensures |more| == |log| + 1 && more[|log|].committed && Trailing(more) < THRESHOLD ==> LeftClosed(more, from, |more|)
  {
    hide Trailing;
    forall i | from <= i < |log| ensures LeavesClosed(more, i) {
      assert LeavesClosed(log, i);
      assert more[i] == more[..|log|][i] && more[..i + 1] == log[..i + 1];
    }
    if |more| == |log| + 1 && more[|log|].committed && Trailing(more) < THRESHOLD {
      assert LeavesClosed(more, |log|) by { assert more[..|log| + 1] == more; }
    }
  }

  predicate AnyAsync(subs: seq<Subscription>) { exists k :: 0 <= k < |subs| && subs[k].isAsync }

  /** With the breaker open, a second batch is taken only after a first with a success. */
  lemma FirstSucceeded(before: seq<Batch>, log: seq<Batch>)
    requires |before| <= |log| && log[..|before|] == before && LeftClosed(log, |before|, |log| - 1)
    ensures Trailing(before) >= THRESHOLD && |log| > |before| + 1 ==> log[|before|].Succeeded()
  {
    hide Trailing;
    if Trailing(before) >= THRESHOLD && |log| > |before| + 1 {
      assert LeavesClosed(log, |before|);
      OnlySuccessCloses(log, |before|);
    }
  }

  /** At some state of the trace, from its n-th step on, the dedupe index refuses the event. */
  ghost predicate RefusedSince(cfg: Config, start: Time, trace: seq<Step>, n: nat, event: Event, dedupeKey: Option<string>) {
    exists k :: n <= k <= |trace| && RefusedAt(cfg, start, trace[..k], event, dedupeKey)
  }

  ghost predicate RefusedAt(cfg: Config, start: Time, trace: seq<Step>, event: Event, dedupeKey: Option<string>) {
    CanRun(cfg, Initial(start), trace) && DedupeConflict(Run(cfg, Initial(start), trace).table, event, dedupeKey)
  }

  /** A step of the trace, from its n-th on, began the publication, with this row. */
  ghost predicate BeganSince(trace: seq<Step>, n: nat, p: nat, event: Event, row: Option<RowId>, dedupeKey: Option<string>) {
    exists k, at :: n <= k < |trace| && trace[k] == PublishDirect(p, event, row, dedupeKey, at)
  }

  lemma SinceGrows(cfg: Config, start: Time, trace: seq<Step>, more: seq<Step>, n: nat, p: nat, event: Event, row: Option<RowId>,
                   dedupeKey: Option<string>)
    requires trace <= more
    ensures RefusedSince(cfg, start, trace, n, event, dedupeKey) ==> RefusedSince(cfg, start, more, n, event, dedupeKey)
    ensures BeganSince(trace, n, p, event, row, dedupeKey) ==> BeganSince(more, n, p, event, row, dedupeKey)
  {
    hide RefusedAt;
    if RefusedSince(cfg, start, trace, n, event, dedupeKey) {
      var k :| n <= k <= |trace| && RefusedAt(cfg, start, trace[..k], event, dedupeKey);
      assert more[..k] == trace[..k];
    }
    if BeganSince(trace, n, p, event, row, dedupeKey) {
      var k, at :| n <= k < |trace| && trace[k] == PublishDirect(p, event, row, dedupeKey, at);
      assert more[k] == trace[k];
    }
  }

  lemma RefusedNow(w: World, event: Event, dedupeKey: Option<string>)
    requires w.Valid() && DedupeConflict(w.st.table, event, dedupeKey)
    ensures RefusedAt(w.cfg, w.start, w.trace, event, dedupeKey)
  {
    hide CanRun, Run;
  }

  lemma NothingToCover(cfg: Config, tasks: set<Task>, event: Event)
    requires |cfg.Subs(event)| == 0
    ensures AllCovered(cfg, tasks, event) && !AnyAsync(cfg.Subs(event))
  {
  }

  /** A key the sequence has not handed out. */
  method NextId(used: set<nat>) returns (id: nat)
    ensures id > 0 && id !in used
  {
    id := 1;
    var rest := used;
    while rest != {}
      invariant id > 0 && rest <= used && forall k :: k in used && k !in rest ==> k < id
    {
      var k :| k in rest;
      if k >= id { id := k + 1; }
      rest := rest - {k};
    }
  }

  /** The mark a publisher leaves: processed, or failed once more and to be retried by a drain. */
  predicate MarkedAs(row: Row, allEnqueued: bool) {
    if allEnqueued then row.processedAt.Some?
    else row.retryCount > 0 && row.lastError == Some("one or more enqueues failed") && row.lastAttemptedAt.Some?
  }

  /** What keeps a publisher from marking its row: a drain has locked it, or it was created later than now. */
  predicate Unmarkable(s: State, row: Option<RowId>) {
    row.Some? && (row.value in s.locks || (row.value in s.table && s.table[row.value].createdAt > s.now))
  }

  class Bus {
    const world: World
    const self: nat
    var drainBatchSize: nat
    var drainBreakerFailures: nat
    var drainBreakerOpenedAt: Time
    ghost var log: seq<Batch>

    /** The two breaker fields are a digest of the batches so far. */
    ghost predicate BreakerOk()
      reads this
    {
      && drainBreakerFailures == Trailing(log)
      && (drainBreakerFailures >= THRESHOLD ==> OpenedAt(log) == Some(drainBreakerOpenedAt))
      && Disciplined(log)
    }

    ghost predicate Valid()
      reads this, world
    {
      world.Valid() && drainBatchSize > 0 && BreakerOk() && self !in world.st.drainers
    }

    constructor (world: World, self: nat, batchSize: nat)
      requires world.Valid() && self !in world.st.drainers
      ensures Valid() && this.world == world && this.self == self && log == []
      ensures drainBatchSize == if batchSize == 0 then 100 else batchSize
    {
      this.world := world;
      this.self := self;
      this.drainBatchSize := if batchSize == 0 then 100 else batchSize;
      this.drainBreakerFailures := 0;
      this.drainBreakerOpenedAt := 0;
      this.log := [];
    }

    // ---- dispatch ----

    lemma OnlyDispatchedRefl(actor: Actor)
      requires world.Valid() && match actor case Direct(p) => p in world.st.publishers case Drainer(n) => n in world.st.drainers
      ensures OnlyDispatched(world.st, world.st, actor)
    {
      world.Sound();
      ClaimsAreRows(world.cfg, world.st);
    }

    /** Hand an event to its subscriptions, one after the other. The two locals of the loop are what the
        protocol's record of the dispatch says, and a tally of the answers so far; the error is the verdict on all of them. */
    method Dispatch(actor: Actor, event: Event) returns (err: Option<PublishError>, ghost done: Dispatch, ghost replies: seq<Reply>)
      requires world.Valid() && Dispatching(world.cfg, world.st, actor, event, START)
      modifies world
      ensures world.Valid() && old(world.trace) <= world.trace && world.Potential() <= old(world.Potential())
      ensures Dispatching(world.cfg, world.st, actor, event, done) && done.next == |world.cfg.Subs(event)|
      ensures OnlyDispatched(old(world.st), world.st, actor)
      ensures |replies| == |world.cfg.Subs(event)| && Replies(world.trace, actor) == Replies(old(world.trace), actor) + replies
      ensures Verdict(world.cfg.Subs(event), replies, err)
      ensures Tallied(world.cfg.Subs(event), replies, done.allEnqueued, done.critical) && err == ErrorOf(done)
    {
      var subs := world.cfg.Subs(event);
      var allEnqueued, firstCritErr := true, None;
      replies := [];
      OnlyDispatchedRefl(actor);
      assert Tallied(subs, [], true, None);
      hide Inv, Measure, Dispatching, OnlyDispatched, Replies, CanRun, Run, Tallied, Verdict;
      var k := 0;
      while k < |subs|
        invariant k == |replies| <= |subs|
        invariant world.Valid() && old(world.trace) <= world.trace && world.Potential() <= old(world.Potential())
        invariant Dispatching(world.cfg, world.st, actor, event, OutboxProtocol.Dispatch(k, allEnqueued, firstCritErr))
        invariant OnlyDispatched(old(world.st), world.st, actor)
        invariant Replies(world.trace, actor) == Replies(old(world.trace), actor) + replies
        invariant Tallied(subs, replies, allEnqueued, firstCritErr)
      {
        label before:
        ghost var d := OutboxProtocol.Dispatch(k, allEnqueued, firstCritErr);
        var reply := world.Answer(actor, event, d);
        OnlyDispatchedTrans(old(world.st), old@before(world.st), world.st, actor);
        OneMoreAnswer(world.cfg, event, replies, d, reply);
        Reassociate(Replies(old(world.trace), actor), replies, [reply]);
        replies := replies + [reply];
        if subs[k].isAsync {
          if reply.Refused? {
            allEnqueued := false;
          }
        } else if reply.HandlerFailed? && subs[k].critical && firstCritErr.None? {
          firstCritErr := Some(reply.error);
        }
        k := k + 1;
      }
      done := OutboxProtocol.Dispatch(k, allEnqueued, firstCritErr);
      TallyDecides(subs, replies, done);
      err := if !allEnqueued then Some(EnqueueFailed)
        else match firstCritErr case None => None case Some(e) => Some(HandlerError(e));
    }

    /** Publish outside any transaction: write a row first when some subscription is asynchronous, dispatch,
        then mark the row. A failed write is survived; a critical handler's error does not fail the row. Unless
        an enqueue failed, the queue has taken every asynchronous task of the event. `writeFails` says whether the
        statement fails for a reason of its own; otherwise only the dedupe index can refuse the row. */
    method Publish(p: nat, event: Event, dedupeKey: Option<string>, writeFails: bool)
      returns (err: Option<PublishError>, row: Option<RowId>, marked: bool, ghost replies: seq<Reply>)
      requires world.Valid() && p !in world.st.publishers
      modifies world
      ensures |replies| == |world.cfg.Subs(event)| && Verdict(world.cfg.Subs(event), replies, err)
      ensures Replies(world.trace, Direct(p)) == Replies(old(world.trace), Direct(p)) + replies
      ensures world.Valid() && old(world.trace) <= world.trace && p !in world.st.publishers
      ensures err != Some(EnqueueFailed) ==> AllCovered(world.cfg, world.st.tasks, event)
      ensures |world.cfg.Subs(event)| == 0 ==> world.trace == old(world.trace)
      ensures |world.cfg.Subs(event)| > 0 ==> BeganSince(world.trace, |old(world.trace)|, p, event, row, dedupeKey)
      ensures row.Some? ==> !writeFails && AnyAsync(world.cfg.Subs(event))
      ensures !writeFails && AnyAsync(world.cfg.Subs(event)) && row.None? ==>
        RefusedSince(world.cfg, world.start, world.trace, |old(world.trace)|, event, dedupeKey)
      ensures !writeFails && dedupeKey.None? ==> (row.Some? <==> AnyAsync(world.cfg.Subs(event)))
      ensures marked && row.Some? && row.value in world.st.table ==>
        MarkedAs(world.st.table[row.value], err != Some(EnqueueFailed))
      ensures world.healthy && !marked && |world.cfg.Subs(event)| > 0 ==> Unmarkable(world.st, row)
    {
      hide Measure, CanRun, Run, Inv, RefusedSince, BeganSince, AnyAsync, AllCovered, Replies;
      row, marked, replies := None, false, [];
      var subs := world.cfg.Subs(event);
      if |subs| == 0 {
        NothingToCover(world.cfg, world.st.tasks, event);
        return None, row, marked, [];
      }
      row := WriteRow(p, event, dedupeKey, writeFails);
      ghost var began := world.trace;
      ghost var done;
      err, done, replies := Dispatch(Direct(p), event);
      CoveredWhenEnqueued(p, event, done);
      ghost var tasks := world.st.tasks;
      marked := MarkRow(p);
      AllCoveredGrows(world.cfg, tasks, world.st.tasks, event);
      SinceGrows(world.cfg, world.start, began, world.trace, |old(world.trace)|, p, event, row, dedupeKey);
    }

    /** The write before a direct dispatch. */
    method WriteRow(p: nat, event: Event, dedupeKey: Option<string>, writeFails: bool) returns (row: Option<RowId>)
      requires world.Valid() && p !in world.st.publishers && |world.cfg.Subs(event)| > 0
      modifies world
      ensures world.Valid() && old(world.trace) <= world.trace
      ensures p in world.st.publishers && world.st.publishers[p] == Publisher(event, row, START)
      ensures BeganSince(world.trace, |old(world.trace)|, p, event, row, dedupeKey)
      ensures Replies(world.trace, Direct(p)) == Replies(old(world.trace), Direct(p))
      ensures row.Some? ==> !writeFails && AnyAsync(world.cfg.Subs(event))
      ensures !writeFails && AnyAsync(world.cfg.Subs(event)) && row.None? ==>
        dedupeKey.Some? && RefusedSince(world.cfg, world.start, world.trace, |old(world.trace)|, event, dedupeKey)
    {
      hide Measure, CanRun, Run, Inv, AnyAsync, RefusedAt, Replies;
      var hasAsync := HasAsync(world.cfg.Subs(event));
      row := None;
      world.Interfere(Direct(p));
      ghost var before := world.trace;
      if hasAsync && !writeFails {
        row := Inserting(event, dedupeKey);
        if row.None? {
          RefusedNow(world, event, dedupeKey);
        }
      }
      var at := world.st.now;
      RepliesSnoc(before, PublishDirect(p, event, row, dedupeKey, at), Direct(p));
      world.Do(PublishDirect(p, event, row, dedupeKey, at));
      assert world.trace[|before|] == PublishDirect(p, event, row, dedupeKey, at);
      assert world.trace[..|before|] == before;
    }

    /** Publish inside a transaction of the caller: the row is written there and nothing is dispatched; a refused write is
        an error, which makes the caller's transaction fail. `commits` says whether that transaction goes through. */
    method PublishInTx(p: nat, event: Event, dedupeKey: Option<string>, writeFails: bool, commits: bool)
      returns (err: Option<PublishError>, row: Option<RowId>)
      requires world.Valid() && p !in world.st.publishers
      modifies world
      ensures world.Valid() && old(world.trace) <= world.trace && p !in world.st.publishers
      ensures |world.cfg.Subs(event)| == 0 ==> err.None? && row.None? && world.trace == old(world.trace)
      ensures row.Some? <==> commits && err.None? && |world.cfg.Subs(event)| > 0
      ensures row.Some? ==> row.value in world.st.table && world.st.table[row.value] == Row(event, dedupeKey, world.st.now, None, 0, None, None)
      ensures err.Some? ==> err == Some(WriteFailed)
      ensures err.Some? ==> writeFails || RefusedSince(world.cfg, world.start, world.trace, |old(world.trace)|, event, dedupeKey)
      ensures writeFails && |world.cfg.Subs(event)| > 0 ==> err.Some?
    {
      hide Measure, CanRun, Run, Inv, RefusedAt;
      err, row := None, None;
      if |world.cfg.Subs(event)| == 0 {
        return;
      }
      world.Interfere(Direct(p));
      if writeFails {
        return Some(WriteFailed), None;
      }
      var id := Inserting(event, dedupeKey);
      if id.None? {
        RefusedNow(world, event, dedupeKey);
        assert world.trace[..|world.trace|] == world.trace;
        return Some(WriteFailed), None;
      }
      if commits {
        world.Do(CommitPublish(id.value, event, dedupeKey, world.st.now));
        row := id;
      }
    }

    /** The insert of an outbox row goes through unless the dedupe index refuses it. */
    method Inserting(event: Event, dedupeKey: Option<string>) returns (row: Option<RowId>)
      ensures row.None? <==> DedupeConflict(world.st.table, event, dedupeKey)
      ensures row.Some? ==> InsertAllowed(world.st, row.value, event, dedupeKey, world.st.now)
    {
      if DedupeConflict(world.st.table, event, dedupeKey) { return None; }
      var id := NextId(world.st.history.Keys);
      row := Some(id);
    }

    method HasAsync(subs: seq<Subscription>) returns (found: bool)
      ensures found <==> exists k :: 0 <= k < |subs| && subs[k].isAsync
      ensures found <==> AnyAsync(subs)
    {
      for k := 0 to |subs|
        invariant forall j :: 0 <= j < k ==> !subs[j].isAsync
      {
        if subs[k].isAsync {
          return true;
        }
      }
      found := false;
    }

    lemma CoveredWhenEnqueued(p: nat, event: Event, done: Dispatch)
      requires world.Valid() && Dispatching(world.cfg, world.st, Direct(p), event, done)
      requires done.next == |world.cfg.Subs(event)|
      ensures done.allEnqueued ==> AllCovered(world.cfg, world.st.tasks, event)
    {
      world.Sound();
      assert PublisherOk(world.cfg, world.st.publishers[p], world.st.tasks, world.st.history);
    }

    /** The mark after a direct dispatch. It waits for no one: a row a drain has locked, or a failing
        statement, leaves the row unmarked for a drain to find. */
    method MarkRow(p: nat) returns (marked: bool)
      requires world.Valid() && p in world.st.publishers
      requires world.st.publishers[p].dispatch.next == |world.cfg.Subs(world.st.publishers[p].event)|
      modifies world
      ensures world.Valid() && old(world.trace) <= world.trace
      ensures p !in world.st.publishers && old(world.st.tasks) <= world.st.tasks
      ensures Replies(world.trace, Direct(p)) == Replies(old(world.trace), Direct(p))
      ensures var pub := old(world.st.publishers[p]);
        marked && pub.row.Some? && pub.row.value in world.st.table ==>
          MarkedAs(world.st.table[pub.row.value], pub.dispatch.allEnqueued)
      ensures world.healthy && !marked ==> Unmarkable(world.st, old(world.st.publishers[p]).row)
    {
      hide Inv, Measure, CanRun, Run, Replies;
      world.Interfere(Direct(p));
      var fails := world.Fails();
      marked := !fails && Enabled(world.cfg, world.st, PublisherMark(p, world.st.now, true));
      RepliesSnoc(world.trace, PublisherMark(p, world.st.now, marked), Direct(p));
      world.Do(PublisherMark(p, world.st.now, marked));
    }

    /** Run a task: call every asynchronous subscription of its event, report the first error. */
    method InvokeAsync(event: Event, handler: nat -> Option<string>) returns (err: Option<string>, ran: seq<nat>)
      ensures forall k: nat :: k in ran <==> k < |world.cfg.Subs(event)| && world.cfg.Subs(event)[k].isAsync
      ensures forall i, j :: 0 <= i < j < |ran| ==> ran[i] < ran[j]
      ensures err.None? <==> forall i :: 0 <= i < |ran| ==> handler(ran[i]).None?
      ensures err.Some? ==> exists i :: IsFirstError(handler, ran, i, err)
    {
      var subs := world.cfg.Subs(event);
      err, ran := None, [];
      for k := 0 to |subs|
        invariant forall j: nat :: j in ran <==> j < k && subs[j].isAsync
        invariant forall i :: 0 <= i < |ran| ==> ran[i] < k
        invariant forall i, j :: 0 <= i < j < |ran| ==> ran[i] < ran[j]
        invariant err.None? <==> forall i :: 0 <= i < |ran| ==> handler(ran[i]).None?
        invariant err.Some? ==> exists i :: IsFirstError(handler, ran, i, err)
      {
        if subs[k].isAsync {
          var result := handler(k);
          assert (ran + [k])[|ran|] == k;
          if result.Some? && err.None? {
            assert IsFirstError(handler, ran + [k], |ran|, result);
            err := result;
          } else if err.Some? {
            ghost var i :| IsFirstError(handler, ran, i, err);
            assert IsFirstError(handler, ran + [k], i, err);
          }
          ran := ran + [k];
        }
      }
    }

    // ---- drain ----

    /** One claimed row, from the arms of the drain's switch to its mark. */
    method DrainRow(row: Row) returns (ok: bool, attempted: bool, failed: bool, ghost replies: seq<Reply>)
      requires world.Valid() && AtRow(world.st, self) && RowAt(world.st, self) == row
      requires world.st.drainers[self].dispatch == START
      modifies world
      ensures world.Valid() && old(world.trace) <= world.trace && world.Potential() <= old(world.Potential())
      ensures self in world.st.drainers && world.st.drainers[self].started == old(world.st.drainers[self].started)
      ensures ok ==> RowDone(old(world.st.drainers[self]), world.st.drainers[self], attempted, failed)
      ensures attempted <==> world.cfg.decode(row.event).Decoded?
      ensures ok && !attempted ==> world.st.drainers[self] == Buried(world.cfg, old(world.st), self).drainers[self]
      ensures ok && attempted ==>
        RowSettled(world.cfg.Subs(row.event), replies, old(world.st.drainers[self]), world.st.drainers[self], row, failed)
      ensures Replies(world.trace, Drainer(self)) == Replies(old(world.trace), Drainer(self)) + replies
      ensures forall id :: id in old(world.st).drainers[self].batch ==> SameClaim(old(world.st), world.st, id)
      ensures !ok && world.healthy ==> row.createdAt > world.st.drainers[self].started
    {
      hide Inv, Measure, CanRun, Run, RowDone, RowSettled, Buried, Settled, SameClaim, Apply, Enabled, Replies;
      world.Sound();
      NextRowIsNew(world.cfg, world.st, self);
      ghost var s0 := world.st;
      attempted, failed, replies := false, false, [];
      if BuryReason(world.cfg, row).Some? {
        BuriedDone(world.cfg, s0, self);
        ok := world.Finish(self, Bury(self));
        return;
      }
      attempted := true;
      ok, failed, replies := DispatchAndMark(row);
      if ok { SettledDone(world.cfg, s0, self, world.st.drainers[self], replies, failed); }
    }

    /** Publish from the drain, then MarkProcessed, or MarkFailed when the dispatch reported an error. */
    method DispatchAndMark(row: Row) returns (ok: bool, failed: bool, ghost replies: seq<Reply>)
      requires world.Valid() && AtRow(world.st, self) && RowAt(world.st, self) == row
      requires world.st.drainers[self].dispatch == START && BuryReason(world.cfg, row).None?
      modifies world
      ensures world.Valid() && old(world.trace) <= world.trace && world.Potential() <= old(world.Potential())
      ensures self in world.st.drainers && world.st.drainers[self].started == old(world.st.drainers[self].started)
      ensures ok ==>
        RowSettled(world.cfg.Subs(row.event), replies, old(world.st.drainers[self]), world.st.drainers[self], row, failed)
      ensures Replies(world.trace, Drainer(self)) == Replies(old(world.trace), Drainer(self)) + replies
      ensures forall id :: id in old(world.st).drainers[self].batch ==> SameClaim(old(world.st), world.st, id)
      ensures !ok && world.healthy ==> row.createdAt > world.st.drainers[self].started
    {
      ghost var s0 := world.st;
      var err;
      ghost var done;
      err, done, replies := Dispatch(Drainer(self), row.event);
      failed := err.Some?;
      ghost var s1 := world.st;
      DispatchedRow(world.cfg, s0, s1, self, row, done);
      SettledByVerdict(world.cfg, s0.drainers[self], row, done, replies);
      hide Inv, Measure, Dispatching, OnlyDispatched, SameClaim, Replies, RowSettled, Tallied, Verdict;
      ok := world.Finish(self, Settle(self));
      ClaimsCompose(s0, s1, world.st, s0.drainers[self].batch);
      if ok {
        assert world.st.drainers[self] == SettledTx(s0.drainers[self], row, done);
      }
    }

    ghost predicate InBatch(rows: seq<Row>, k: nat, attempts: nat, failures: nat)
      reads this, world
    {
      && self in world.st.drainers
      && var tx := world.st.drainers[self];
      && tx.claimed && |tx.batch| == |rows| && tx.pos == k <= |rows| && tx.dispatch == START
      && (forall j :: 0 <= j < |rows| ==> tx.batch[j] in world.st.table && world.st.table[tx.batch[j]] == rows[j])
      && |tx.letters| <= k && attempts == k - |tx.letters| && failures == |FailedRows(tx.staged)| && failures <= attempts
    }

    /** The log grew by one record at most. */
    twostate predicate Logged()
      reads this
    {
      log == old(log) || (|log| == |old(log)| + 1 && log[..|old(log)|] == old(log))
    }

    /** The batch just logged is the transaction a step of this call committed, and `fetched` its size. */
    twostate predicate LoggedCommit(fetched: nat)
      reads this, world
    {
      && |log| == |old(log)| + 1 && log[..|old(log)|] == old(log) && log[|old(log)|].committed
      && exists n, tx :: (
        n >= |old(world.trace)| && CommittedAt(world, n, self, tx) && |tx.batch| == fetched && Counts(log[|old(log)|], tx))
    }

    /** Claim one batch, process its rows, commit. Any statement may fail, and then everything is rolled back.
        The breaker hears of committed batches only, and hears the truth about them. */
    method DrainBatch(shutdown: bool) returns (fetched: nat, ok: bool, ghost stop: Stop)
      requires Valid() && Allows(log, world.st.now)
      modifies this`drainBreakerFailures, this`drainBreakerOpenedAt, this`log, world
      ensures Valid() && Logged()
      ensures old(world.trace) <= world.trace && world.Potential() <= old(world.Potential())
      ensures |log| > |old(log)| && log[|old(log)|].committed ==> LoggedCommit(fetched)
      ensures ok ==> |log| > |old(log)| && log[|old(log)|].committed && Trailing(log) < 3
      ensures ok ==> world.Potential() + fetched <= old(world.Potential())
      ensures !ok || fetched < drainBatchSize || shutdown ==> Stopped(stop, shutdown, |old(log)|, |old(world.trace)|)
    {
      hide Inv, Measure, Trailing, OpenedAt, Allows, InBatch, Took, TooYoung, CanRun, Run;
      fetched := 0;
      var claimed, rows := ClaimBatch();
      if !claimed {
        return fetched, false, RolledBack;
      }
      fetched := |rows|;
      ghost var claimedBy := world.trace;
      var done, attempts, failures := DrainRows(rows);
      var commitFails := world.Fails();
      if !done || commitFails {
        YoungIn(world.st, world.st.drainers[self].started);
        Abandon();
        return fetched, false, RolledBack;
      }
      CommitBatch(rows, attempts, failures);
      TookStays(world.cfg, world.start, claimedBy, world.trace, |old(world.trace)|, self, drainBatchSize, fetched);
      ok := drainBreakerFailures < THRESHOLD;
      stop := if !ok then Tripped else if fetched < drainBatchSize then Drained else Cancelled;
    }

    /** Open the transaction and run the claim query. */
    method ClaimBatch() returns (ok: bool, rows: seq<Row>)
      requires Valid() && Allows(log, world.st.now)
      modifies this`log, world
      ensures world.Valid() && old(world.trace) <= world.trace && world.Potential() <= old(world.Potential())
      ensures ok ==> log == old(log) && InBatch(rows, 0, 0, 0) && Allows(log, world.st.drainers[self].started)
      ensures !ok ==> Valid() && Logged() && (|log| > |old(log)| ==> !log[|old(log)|].committed)
      ensures !ok ==> !world.healthy
      ensures ok ==> Took(world.cfg, world.start, world.trace, |old(world.trace)|, self, drainBatchSize, |rows|)
    {
      hide Inv, Measure, Trailing, OpenedAt, Replies, CanRun, Run;
      rows := [];
      world.Interfere(Drainer(self));
      AllowsLater(log, old(world.st.now), world.st.now);
      var beginFails := world.Fails();
      if beginFails {
        return false, rows;
      }
      world.Do(Begin(self));
      world.Interfere(Drainer(self));
      var queryFails := world.Fails();
      if queryFails {
        Abandon();
        return false, rows;
      }
      rows := ClaimRows(|old(world.trace)|);
      ok := true;
    }

    /** The claim query. */
    method ClaimRows(ghost n: nat) returns (rows: seq<Row>)
      requires world.Valid() && self in world.st.drainers && n <= |world.trace|
      requires world.st.drainers[self] == DrainTx(world.st.drainers[self].started, false, [], 0, START, map[], [])
      modifies world
      ensures world.Valid() && old(world.trace) <= world.trace && world.Potential() <= old(world.Potential())
      ensures InBatch(rows, 0, 0, 0) && world.st.drainers[self].started == old(world.st.drainers[self].started)
      ensures Took(world.cfg, world.start, world.trace, n, self, drainBatchSize, |rows|)
    {
      hide Inv, Measure, CanRun, Run, Took, Select, Candidates;
      TookNow(world, n, self, drainBatchSize);
      world.Do(Claim(self, drainBatchSize));
      rows := ClaimedRows();
    }

    /** The rows of the batch, as the query returned them. */
    method ClaimedRows() returns (rows: seq<Row>)
      requires world.Valid() && self in world.st.drainers && world.st.drainers[self].claimed
      requires world.st.drainers[self].pos == 0 && world.st.drainers[self].dispatch == START
      requires world.st.drainers[self].staged == map[] && world.st.drainers[self].letters == []
      ensures InBatch(rows, 0, 0, 0)
    {
      world.Sound();
      ClaimsAreRows(world.cfg, world.st);
      hide Inv;
      var batch := world.st.drainers[self].batch;
      rows := [];
      for i := 0 to |batch|
        invariant |rows| == i
        invariant forall j :: 0 <= j < i ==> batch[j] in world.st.table && world.st.table[batch[j]] == rows[j]
      {
        assert batch[i] in batch;
        rows := rows + [world.st.table[batch[i]]];
      }
      assert FailedRows(map[]) == {};
    }

    /** The loop over the claimed rows; it stops at the first statement that fails. */
    method DrainRows(rows: seq<Row>) returns (done: bool, attempts: nat, failures: nat)
      requires world.Valid() && InBatch(rows, 0, 0, 0)
      modifies world
      ensures world.Valid() && old(world.trace) <= world.trace && world.Potential() <= old(world.Potential())
      ensures self in world.st.drainers && world.st.drainers[self].started == old(world.st.drainers[self].started)
      ensures done ==> InBatch(rows, |rows|, attempts, failures)
      ensures !done && world.healthy ==> TooYoung(world.st, world.st.drainers[self].started)
    {
      hide Inv, Measure, Replies, RowSettled;
      done, attempts, failures := true, 0, 0;
      var k := 0;
      while k < |rows|
        invariant world.Valid() && old(world.trace) <= world.trace && world.Potential() <= old(world.Potential())
        invariant InBatch(rows, k, attempts, failures)
        invariant world.st.drainers[self].started == old(world.st.drainers[self].started)
      {
        label before:
        var attempted, failed;
        ghost var replies;
        done, attempted, failed, replies := DrainRow(rows[k]);
        if !done {
          if world.healthy {
            assert SameClaim(old@before(world.st), world.st, old@before(world.st).drainers[self].batch[k]);
            assert world.st.table[old@before(world.st).drainers[self].batch[k]] == rows[k];
          }
          return;
        }
        BatchAdvanced(old@before(world.st), world.st, rows);
        attempts := attempts + (if attempted then 1 else 0);
        failures := failures + (if failed then 1 else 0);
        k := k + 1;
      }
    }

    lemma BatchAdvanced(s: State, s': State, rows: seq<Row>)
      requires self in s.drainers && |s.drainers[self].batch| == |rows|
      requires forall j :: 0 <= j < |rows| ==> s.drainers[self].batch[j] in s.table && s.table[s.drainers[self].batch[j]] == rows[j]
      requires forall id :: id in s.drainers[self].batch ==> SameClaim(s, s', id)
      ensures forall j :: 0 <= j < |rows| ==> s.drainers[self].batch[j] in s'.table && s'.table[s.drainers[self].batch[j]] == rows[j]
    {
      forall j | 0 <= j < |rows|
        ensures s.drainers[self].batch[j] in s'.table && s'.table[s.drainers[self].batch[j]] == rows[j]
      {
        assert SameClaim(s, s', s.drainers[self].batch[j]);
      }
    }

    /** Commit, then tell the breaker. */
    method CommitBatch(rows: seq<Row>, attempts: nat, failures: nat)
      requires world.Valid() && InBatch(rows, |rows|, attempts, failures) && drainBatchSize > 0 && BreakerOk()
      requires Allows(log, world.st.drainers[self].started)
      modifies this`drainBreakerFailures, this`drainBreakerOpenedAt, this`log, world
      ensures Valid() && old(world.trace) <= world.trace && LoggedCommit(|rows|)
      ensures world.Potential() + |rows| <= old(world.Potential())
    {
      hide Inv, Measure, Trailing, OpenedAt, Replies, CanRun, Run;
      world.Interfere(Drainer(self));
      ghost var tx, n := world.st.drainers[self], |world.trace|;
      ghost var prefix := world.trace;
      world.Do(Commit(self));
      world.Interfere(Drainer(self));
      assert world.trace[..n] == prefix;
      RecordBreaker(attempts, failures, tx.started);
      assert Counts(log[|old(log)|], tx) by {
        assert FailedRows(tx.staged) == set id | id in tx.staged && tx.staged[id].processedAt.None?;
      }
      assert CommittedAt(world, n, self, tx);
    }

    predicate BreakerAllows()
      reads this, world
    {
      drainBreakerFailures < THRESHOLD || world.st.now - drainBreakerOpenedAt >= COOLDOWN
    }

    lemma BreakerRefinesHistory()
      requires BreakerOk()
      ensures BreakerAllows() <==> Allows(log, world.st.now)
      ensures drainBreakerFailures >= THRESHOLD ==> OpenedAt(log).Some?
    {
    }

    /** Drain batch after batch. It ends provided the others insert finitely many rows while it runs, and for one of five
        reasons: the breaker's gate is shut; the last batch tripped the breaker; the last batch was rolled back, which in a healthy
        database only a row created after the batch began can cause; the last batch took every row there was to take; the process is being shut
        down. Every batch but the last left the breaker closed. */
    method DrainOnce(shutdown: bool) returns (ghost stop: Stop)
      requires Valid()
      modifies this`drainBreakerFailures, this`drainBreakerOpenedAt, this`log, world
      ensures Valid() && old(world.trace) <= world.trace && world.Potential() <= old(world.Potential())
      ensures |old(log)| <= |log| && log[..|old(log)|] == old(log)
      ensures LeftClosed(log, |old(log)|, |log| - 1)
      ensures Trailing(old(log)) >= 3 && |log| > |old(log)| + 1 ==> log[|old(log)|].Succeeded()
      ensures Stopped(stop, shutdown, |old(log)|, |old(world.trace)|)
    {
      stop := DrainWhileAllowed(shutdown);
      FirstSucceeded(old(log), log);
    }

    /** What the reason says about the batches since the n-th of the log and the t-th step of the trace. */
    ghost predicate Stopped(stop: Stop, shutdown: bool, n: nat, t: nat)
      reads this, world
    {
      match stop
      case GateShut => !Allows(log, world.st.now)
      case Tripped => |log| > n && log[|log| - 1].committed && Trailing(log) >= 3
      case RolledBack => world.healthy ==> |log| > n && !log[|log| - 1].committed && TooYoung(world.st, log[|log| - 1].started)
      case Drained =>
        |log| > n && log[|log| - 1].committed && exists fetched: nat :: (
          fetched < drainBatchSize && Took(world.cfg, world.start, world.trace, t, self, drainBatchSize, fetched))
      case Cancelled => shutdown && |log| > n && log[|log| - 1].committed
    }

    lemma StoppedSince(stop: Stop, shutdown: bool, n: nat, t: nat, n0: nat, t0: nat)
      requires Stopped(stop, shutdown, n, t) && n0 <= n && t0 <= t
      ensures Stopped(stop, shutdown, n0, t0)
    {
      hide Took, TooYoung, Allows, Trailing;
      if stop.Drained? {
        var fetched: nat :| fetched < drainBatchSize && Took(world.cfg, world.start, world.trace, t, self, drainBatchSize, fetched);
        TookSince(world.cfg, world.start, world.trace, t, t0, self, drainBatchSize, fetched);
      }
    }

    method DrainWhileAllowed(shutdown: bool) returns (ghost stop: Stop)
      requires Valid()
      modifies this`drainBreakerFailures, this`drainBreakerOpenedAt, this`log, world
      ensures Valid() && old(world.trace) <= world.trace && world.Potential() <= old(world.Potential())
      ensures |old(log)| <= |log| && log[..|old(log)|] == old(log)
      ensures LeftClosed(log, |old(log)|, |log| - 1)
      ensures Stopped(stop, shutdown, |old(log)|, |old(world.trace)|)
    {
      assert LeftClosed(log, |log|, |log|);
      hide Inv, Measure, Trailing, OpenedAt, Allows, Disciplined, LeftClosed, CanRun, Run, Stopped, Replies, Undisturbed, LoggedCommit, Foreign;
      while true
        invariant Valid() && old(world.trace) <= world.trace && world.Potential() <= old(world.Potential())
        invariant |old(log)| <= |log| && log[..|old(log)|] == old(log)
        invariant LeftClosed(log, |old(log)|, |log|)
        decreases world.Potential()
      {
        var allowed := AskBreaker();
        if !allowed {
          LeftClosedGrows(log, log, |old(log)|);
          GateIsShut(shutdown, |old(log)|, |old(world.trace)|);
          return GateShut;
        }
        label before:
        var fetched, ok;
        fetched, ok, stop := DrainBatch(shutdown);
        LeftClosedGrows(old@before(log), log, |old(log)|);
        var cancelled: bool := *;
        if !ok || fetched < drainBatchSize || (shutdown && cancelled) {
          StoppedSince(stop, shutdown, |old@before(log)|, |old@before(world.trace)|, |old(log)|, |old(world.trace)|);
          return;
        }
      }
    }

    /** Whether the breaker lets a batch through by now. */
    method AskBreaker() returns (allowed: bool)
      requires Valid()
      modifies world
      ensures Valid() && old(world.trace) <= world.trace && world.Potential() <= old(world.Potential())
      ensures allowed <==> Allows(log, world.st.now)
    {
      hide Inv, Measure, Trailing, OpenedAt, Disciplined, CanRun, Run, Replies;
      world.Interfere(Drainer(self));
      BreakerRefinesHistory();
      allowed := BreakerAllows();
    }

    lemma GateIsShut(shutdown: bool, n: nat, t: nat)
      requires !Allows(log, world.st.now)
      ensures Stopped(GateShut, shutdown, n, t)
    {
    }

    /** Drain no more of this batch. */
    method Abandon()
      requires world.Valid() && self in world.st.drainers && drainBatchSize > 0 && BreakerOk()
      requires Allows(log, world.st.drainers[self].started)
      modifies this`log, world
      ensures Valid() && old(world.trace) <= world.trace && world.Potential() <= old(world.Potential())
      ensures |log| == |old(log)| + 1 && log[..|old(log)|] == old(log) && !log[|old(log)|].committed
      ensures log[|old(log)|].started == old(world.st.drainers[self].started) && world.st.table == old(world.st.table)
    {
      ghost var b := Batch(world.st.drainers[self].started, world.st.now, false, 0, 0);
      TrailingStep(log, b);
      world.Do(Rollback(self));
      log := log + [b];
    }

    /** recordBreaker: the two fields after one more committed batch. */
    method RecordBreaker(attempts: nat, failures: nat, ghost started: Time)
      requires BreakerOk() && Allows(log, started) && failures <= attempts
      modifies this`drainBreakerFailures, this`drainBreakerOpenedAt, this`log
      ensures BreakerOk()
      ensures log == old(log) + [Batch(started, world.st.now, true, attempts, failures)]
    {
      ghost var b := Batch(started, world.st.now, true, attempts, failures);
      TrailingStep(log, b);
      if attempts == 0 {
      } else if failures == attempts {
        drainBreakerFailures := drainBreakerFailures + 1;
        if drainBreakerFailures == THRESHOLD {
          drainBreakerOpenedAt := world.st.now;
        }
      } else {
        drainBreakerFailures := 0;
      }
      log := log + [b];
    }
  }

  ghost predicate RowDone(before: DrainTx, after: DrainTx, attempted: bool, failed: bool) {
    && after.batch == before.batch && after.claimed == before.claimed && after.started == before.started
    && after.pos == before.pos + 1 && after.dispatch == START
    && |after.letters| == |before.letters| + (if attempted then 0 else 1)
    && |FailedRows(after.staged)| == |FailedRows(before.staged)| + (if failed then 1 else 0)
    && (failed ==> attempted)
  }

  ghost function SettledTx(tx: DrainTx, row: Row, done: Dispatch): DrainTx
    requires tx.pos < |tx.batch|
  {
    Staged(tx.(dispatch := done),
      match done.Error()
      case None => MarkProcessed(row, tx.started)
      case Some(e) => MarkFailed(row, tx.started, e))
  }

  lemma BuriedDone(cfg: Config, s: State, n: nat)
    requires Inv(cfg, s) && AtRow(s, n) && BuryReason(cfg, RowAt(s, n)).Some?
    ensures Buried(cfg, s, n).drainers[n].started == s.drainers[n].started
    ensures RowDone(s.drainers[n], Buried(cfg, s, n).drainers[n], false, false)
  {
    var tx, row := s.drainers[n], RowAt(s, n);
    NextRowIsNew(cfg, s, n);
    hide Inv;
    StagedCount(tx.staged, tx.batch[tx.pos], MarkProcessed(row, tx.started));
  }

  lemma SettledDone(cfg: Config, s: State, n: nat, after: DrainTx, replies: seq<Reply>, failed: bool)
    requires Inv(cfg, s) && AtRow(s, n) && s.drainers[n].dispatch == START
    requires RowSettled(cfg.Subs(RowAt(s, n).event), replies, s.drainers[n], after, RowAt(s, n), failed)
    ensures RowDone(s.drainers[n], after, true, failed) && after.started == s.drainers[n].started
  {
    var tx, row := s.drainers[n], RowAt(s, n);
    NextRowIsNew(cfg, s, n);
    hide Inv, SomeRefused, SomeCritical, CriticalText;
    StagedCount(tx.staged, tx.batch[tx.pos], after.staged[tx.batch[tx.pos]]);
  }

  lemma DispatchedRow(cfg: Config, s: State, s': State, n: nat, row: Row, done: Dispatch)
    requires AtRow(s, n) && RowAt(s, n) == row && BuryReason(cfg, row).None?
    requires OnlyDispatched(s, s', Drainer(n)) && Dispatching(cfg, s', Drainer(n), row.event, done)
    ensures AtRow(s', n) && RowAt(s', n) == row && s'.drainers[n] == s.drainers[n].(dispatch := done)
    ensures Settled(s', n).drainers[n] == SettledTx(s.drainers[n], row, done)
    ensures forall id :: id in s.drainers[n].batch ==> SameClaim(s, s', id)
  {
    assert SameClaim(s, s', s.drainers[n].batch[s.drainers[n].pos]);
  }

  lemma ClaimsCompose(s: State, t: State, u: State, batch: seq<RowId>)
    requires forall id :: id in batch ==> SameClaim(s, t, id)
    requires forall id :: id in batch ==> SameClaim(t, u, id)
    ensures forall id :: id in batch ==> SameClaim(s, u, id)
  {
    forall id | id in batch ensures SameClaim(s, u, id) {
      assert SameClaim(s, t, id) && SameClaim(t, u, id);
    }
  }
}

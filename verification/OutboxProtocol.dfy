/** The outbox as a transition system: any number of publishers and drainers act on one table and
    one task queue, a step at a time, in any order. A run is a sequence of enabled steps. */
module OutboxProtocol {
  import opened Prelude
  import opened Outbox

  // ---- configuration, fixed before the run ----

  datatype Subscription = Subscription(isAsync: bool, critical: bool, queue: string, taskId: Event -> string)

  /** What the registry and the JSON decoder make of a stored payload. */
  datatype Decoding = UnknownType | Malformed(error: string) | Decoded

  datatype Config = Config(
    subs: map<string, seq<Subscription>>,
    decode: Event -> Decoding,
    dispatcher: bool)
  {
    function Subs(event: Event): seq<Subscription> {
      if event.eventType in subs then subs[event.eventType] else []
    }
  }

  // ---- the task queue ----

  datatype Task = Task(queue: string, id: string, event: Event)

  /** The queue refuses this subscription's task as a duplicate: the queue already took a task with
      that id, or one with that content while the uniqueness lock on contents was held. */
  predicate Covered(tasks: set<Task>, sub: Subscription, event: Event) {
    exists t :: t in tasks && t.queue == sub.queue && (t.id == sub.taskId(event) || t.event == event)
  }

  predicate AllCovered(cfg: Config, tasks: set<Task>, event: Event) {
    forall k :: 0 <= k < |cfg.Subs(event)| && cfg.Subs(event)[k].isAsync ==> Covered(tasks, cfg.Subs(event)[k], event)
  }

  /** What one subscription answers: the queue to an enqueue, or a synchronous handler. A failed
      enqueue may still have stored the task before the error reached the caller. */
  datatype Reply = Accepted | Duplicate | Refused(stored: bool) | Handled | HandlerFailed(error: string)

  // ---- dispatch ----

  const ENQUEUE_FAILED := "one or more async event enqueues failed"
  const PUBLISHER_ENQUEUE_FAILED := "one or more enqueues failed"

  /** Progress of a dispatch through the subscriptions of its event. */
  datatype Dispatch = Dispatch(next: nat, allEnqueued: bool, critical: Option<string>) {
    function Error(): Option<string> {
      if !allEnqueued then Some(ENQUEUE_FAILED) else critical
    }
  }

  const START := Dispatch(0, true, None)

  predicate ReplyFits(cfg: Config, tasks: set<Task>, event: Event, d: Dispatch, reply: Reply) {
    && d.next < |cfg.Subs(event)|
    && var sub := cfg.Subs(event)[d.next];
    match reply
    case Accepted => sub.isAsync && cfg.dispatcher
    case Duplicate => sub.isAsync && cfg.dispatcher && Covered(tasks, sub, event)
    case Refused(stored) => sub.isAsync && (stored ==> cfg.dispatcher)
    case Handled => !sub.isAsync
    case HandlerFailed(_) => !sub.isAsync
  }

  function TasksAfter(cfg: Config, tasks: set<Task>, event: Event, d: Dispatch, reply: Reply): set<Task>
    requires ReplyFits(cfg, tasks, event, d, reply)
  {
    var sub := cfg.Subs(event)[d.next];
    if reply == Accepted || reply == Refused(true) then tasks + {Task(sub.queue, sub.taskId(event), event)} else tasks
  }

  function DispatchAfter(cfg: Config, event: Event, d: Dispatch, reply: Reply): Dispatch
    requires d.next < |cfg.Subs(event)|
  {
    var sub := cfg.Subs(event)[d.next];
    match reply
    case Refused(_) => d.(next := d.next + 1, allEnqueued := false)
    case HandlerFailed(e) =>
      d.(next := d.next + 1, critical := if sub.critical && d.critical.None? then Some(e) else d.critical)
    case _ => d.(next := d.next + 1)
  }

  // ---- state ----

  datatype Reason = RetryExhausted | UnknownEventType | UnmarshalFailed

  datatype DeadLetter = DeadLetter(source: RowId, event: Event, reason: Reason, lastError: Option<string>)

  /** The order of the dead-letter arms of the drain. */
  function BuryReason(cfg: Config, row: Row): Option<Reason> {
    if row.retryCount >= MAX_RETRY then Some(RetryExhausted)
    else match cfg.decode(row.event)
      case UnknownType => Some(UnknownEventType)
      case Malformed(_) => Some(UnmarshalFailed)
      case Decoded => None
  }

  /** store.NullStr: an empty message is stored as NULL. */
  function NullStr(s: string): Option<string> {
    if s == "" then None else Some(s)
  }

  function Letter(cfg: Config, id: RowId, row: Row, reason: Reason): DeadLetter {
    var lastError :=
      match reason
      case RetryExhausted => NullStr(if row.lastError.Some? then row.lastError.value else "")
      case UnknownEventType => None
      case UnmarshalFailed => match cfg.decode(row.event) case Malformed(e) => NullStr(e) case _ => None;
    DeadLetter(id, row.event, reason, lastError)
  }

  /** An open drain transaction. `now()` inside it is `started`. Its updates are staged until commit. */
  datatype DrainTx = DrainTx(
    started: Time,
    claimed: bool,
    batch: seq<RowId>,
    pos: nat,
    dispatch: Dispatch,
    staged: Table,
    letters: seq<DeadLetter>)

  /** A publisher between its outbox write and its mark; `row` is None when the write failed or was not made. */
  datatype Publisher = Publisher(event: Event, row: Option<RowId>, dispatch: Dispatch)

  /** What happened to a row so far. No step's guard reads it, except that ids are not reused. */
  datatype History = History(
    event: Event,
    failed: nat,                 // committed drains that marked the row failed
    closed: nat,                 // committed drains that marked it processed
    firstFailure: Option<Time>,  // the attempt time of the first of the failed drains
    publisherFailed: bool)       // a publisher marked it failed

  datatype State = State(
    now: Time,
    table: Table,
    dead: seq<DeadLetter>,
    tasks: set<Task>,
    locks: map<RowId, nat>,
    drainers: map<nat, DrainTx>,
    publishers: map<nat, Publisher>,
    history: map<RowId, History>)

  // ---- steps ----

  datatype Step =
    | Tick(elapsed: nat)
    | CommitPublish(id: RowId, event: Event, dedupeKey: Option<string>, createdAt: Time)
    | PublishDirect(p: nat, event: Event, row: Option<RowId>, dedupeKey: Option<string>, createdAt: Time)
    | PublisherDispatch(p: nat, reply: Reply)
    | PublisherMark(p: nat, at: Time, marked: bool)
    | PublisherCrash(p: nat)
    | Begin(d: nat)
    | Claim(d: nat, limit: nat)
    | Bury(d: nat)
    | DrainDispatch(d: nat, reply: Reply)
    | Settle(d: nat)
    | Commit(d: nat)
    | Rollback(d: nat)
    | Sweep(cutoff: Time)

  predicate InsertAllowed(s: State, id: RowId, event: Event, dedupeKey: Option<string>, createdAt: Time) {
    id > 0 && id !in s.history && createdAt <= s.now && !DedupeConflict(s.table, event, dedupeKey)
  }

  /** The drainer stands before a claimed row. */
  predicate AtRow(s: State, d: nat) {
    && d in s.drainers
    && s.drainers[d].claimed
    && s.drainers[d].pos < |s.drainers[d].batch|
    && s.drainers[d].batch[s.drainers[d].pos] in s.table
  }

  function RowAt(s: State, d: nat): Row
    requires AtRow(s, d)
  {
    s.table[s.drainers[d].batch[s.drainers[d].pos]]
  }

  /** chk_outbox_processed_at_order lets a transaction stamp the row. */
  predicate StampAllowed(row: Row, at: Time) {
    at >= row.createdAt
  }

  predicate Enabled(cfg: Config, s: State, step: Step) {
    match step
    case Tick(_) => true
    case CommitPublish(id, event, key, createdAt) => InsertAllowed(s, id, event, key, createdAt)
    case PublishDirect(p, event, row, key, createdAt) =>
      p !in s.publishers && (row.Some? ==> InsertAllowed(s, row.value, event, key, createdAt))
    case PublisherDispatch(p, reply) =>
      p in s.publishers && ReplyFits(cfg, s.tasks, s.publishers[p].event, s.publishers[p].dispatch, reply)
    case PublisherMark(p, at, marked) =>
      && p in s.publishers
      && s.publishers[p].dispatch.next == |cfg.Subs(s.publishers[p].event)|
      && at <= s.now
      && (marked && s.publishers[p].row.Some? ==>
            var id := s.publishers[p].row.value;
            id !in s.locks && (id in s.table ==> StampAllowed(s.table[id], at)))
    case PublisherCrash(p) => p in s.publishers
    case Begin(d) => d !in s.drainers
    case Claim(d, _) => d in s.drainers && !s.drainers[d].claimed
    case Bury(d) =>
      AtRow(s, d) && BuryReason(cfg, RowAt(s, d)).Some? && StampAllowed(RowAt(s, d), s.drainers[d].started)
    case DrainDispatch(d, reply) =>
      && AtRow(s, d) && BuryReason(cfg, RowAt(s, d)).None?
      && ReplyFits(cfg, s.tasks, RowAt(s, d).event, s.drainers[d].dispatch, reply)
    case Settle(d) =>
      && AtRow(s, d) && BuryReason(cfg, RowAt(s, d)).None?
      && s.drainers[d].dispatch.next == |cfg.Subs(RowAt(s, d).event)|
      && (s.drainers[d].dispatch.Error().None? ==> StampAllowed(RowAt(s, d), s.drainers[d].started))
    case Commit(d) => d in s.drainers && s.drainers[d].claimed && s.drainers[d].pos == |s.drainers[d].batch|
    case Rollback(d) => d in s.drainers
    case Sweep(_) => true
  }

  function Inserted(s: State, id: RowId, event: Event, dedupeKey: Option<string>, createdAt: Time): State {
    s.(table := s.table[id := NewRow(event, dedupeKey, createdAt)],
       history := s.history[id := History(event, 0, 0, None, false)])
  }

  function WithTx(s: State, d: nat, tx: DrainTx): State {
    s.(drainers := s.drainers[d := tx])
  }

  function WithoutTx(s: State, d: nat): State
    requires d in s.drainers
  {
    s.(drainers := s.drainers - {d}, locks := s.locks - (set id | id in s.drainers[d].batch))
  }

  /** The drain's next row is staged as `row`. */
  function Staged(tx: DrainTx, row: Row): DrainTx
    requires tx.pos < |tx.batch|
  {
    tx.(staged := tx.staged[tx.batch[tx.pos] := row], pos := tx.pos + 1, dispatch := START)
  }

  function Marked(s: State, pub: Publisher, at: Time): State {
    if pub.row.None? || pub.row.value !in s.table then s
    else if !pub.dispatch.allEnqueued then
      s.(table := s.table[pub.row.value := MarkFailed(s.table[pub.row.value], at, PUBLISHER_ENQUEUE_FAILED)],
         history := if pub.row.value in s.history
           then s.history[pub.row.value := s.history[pub.row.value].(publisherFailed := true)] else s.history)
    else
      s.(table := s.table[pub.row.value := MarkProcessed(s.table[pub.row.value], at)])
  }

  function Recorded(h: History, row: Row): History {
    if row.processedAt.Some? then h.(closed := h.closed + 1)
    else h.(failed := h.failed + 1, firstFailure := if h.failed == 0 then row.lastAttemptedAt else h.firstFailure)
  }

  function Committed(s: State, d: nat): State
    requires d in s.drainers
  {
    var tx := s.drainers[d];
    WithoutTx(s, d).(
      table := s.table + tx.staged,
      dead := s.dead + tx.letters,
      history := map id | id in s.history ::
        if id in tx.staged then Recorded(s.history[id], tx.staged[id]) else s.history[id])
  }

  function Claimed(s: State, d: nat, limit: nat): State
    requires d in s.drainers
  {
    var tx := s.drainers[d];
    var batch := Select(s.table, Candidates(s.table, s.locks.Keys, tx.started), limit);
    WithTx(s, d, tx.(claimed := true, batch := batch, pos := 0)).(locks := s.locks + (map id | id in batch :: d))
  }

  function Buried(cfg: Config, s: State, d: nat): State
    requires AtRow(s, d) && BuryReason(cfg, RowAt(s, d)).Some?
  {
    var tx, row := s.drainers[d], RowAt(s, d);
    var letter := Letter(cfg, tx.batch[tx.pos], row, BuryReason(cfg, row).value);
    WithTx(s, d, Staged(tx, MarkProcessed(row, tx.started)).(letters := tx.letters + [letter]))
  }

  function Dispatched(cfg: Config, s: State, d: nat, reply: Reply): State
    requires AtRow(s, d) && ReplyFits(cfg, s.tasks, RowAt(s, d).event, s.drainers[d].dispatch, reply)
  {
    var tx, row := s.drainers[d], RowAt(s, d);
    WithTx(s, d, tx.(dispatch := DispatchAfter(cfg, row.event, tx.dispatch, reply)))
      .(tasks := TasksAfter(cfg, s.tasks, row.event, tx.dispatch, reply))
  }

  function Settled(s: State, d: nat): State
    requires AtRow(s, d)
  {
    var tx, row := s.drainers[d], RowAt(s, d);
    WithTx(s, d, Staged(tx,
      match tx.dispatch.Error()
      case None => MarkProcessed(row, tx.started)
      case Some(e) => MarkFailed(row, tx.started, e)))
  }

  function PublisherDispatched(cfg: Config, s: State, p: nat, reply: Reply): State
    requires p in s.publishers
    requires ReplyFits(cfg, s.tasks, s.publishers[p].event, s.publishers[p].dispatch, reply)
  {
    var pub := s.publishers[p];
    s.(tasks := TasksAfter(cfg, s.tasks, pub.event, pub.dispatch, reply),
       publishers := s.publishers[p := pub.(dispatch := DispatchAfter(cfg, pub.event, pub.dispatch, reply))])
  }

  function Swept(s: State, cutoff: Time): State {
    s.(table := map id | id in s.table &&
        !(s.table[id].processedAt.Some? && s.table[id].processedAt.value < cutoff) :: s.table[id])
  }

  function Apply(cfg: Config, s: State, step: Step): State
    requires Enabled(cfg, s, step)
  {
    match step
    case Tick(elapsed) => s.(now := s.now + elapsed)
    case CommitPublish(id, event, key, createdAt) => Inserted(s, id, event, key, createdAt)
    case PublishDirect(p, event, row, key, createdAt) =>
      var s1 := if row.Some? then Inserted(s, row.value, event, key, createdAt) else s;
      s1.(publishers := s1.publishers[p := Publisher(event, row, START)])
    case PublisherDispatch(p, reply) => PublisherDispatched(cfg, s, p, reply)
    case PublisherMark(p, at, marked) =>
      var s1 := if marked then Marked(s, s.publishers[p], at) else s;
      s1.(publishers := s1.publishers - {p})
    case PublisherCrash(p) => s.(publishers := s.publishers - {p})
    case Begin(d) => WithTx(s, d, DrainTx(s.now, false, [], 0, START, map[], []))
    case Claim(d, limit) => Claimed(s, d, limit)
    case Bury(d) => Buried(cfg, s, d)
    case DrainDispatch(d, reply) => Dispatched(cfg, s, d, reply)
    case Settle(d) => Settled(s, d)
    case Commit(d) => Committed(s, d)
    case Rollback(d) => WithoutTx(s, d)
    case Sweep(cutoff) => Swept(s, cutoff)
  }

  // ---- runs ----

  predicate CanRun(cfg: Config, s: State, steps: seq<Step>)
    decreases |steps|
  {
    steps == [] || (Enabled(cfg, s, steps[0]) && CanRun(cfg, Apply(cfg, s, steps[0]), steps[1..]))
  }

  function Run(cfg: Config, s: State, steps: seq<Step>): State
    requires CanRun(cfg, s, steps)
    decreases |steps|
  {
    if steps == [] then s else Run(cfg, Apply(cfg, s, steps[0]), steps[1..])
  }

  function Initial(now: Time): State {
    State(now, map[], [], {}, map[], map[], map[], map[])
  }

  lemma {:induction false} RunAppend(cfg: Config, s: State, steps: seq<Step>, more: seq<Step>)
    requires CanRun(cfg, s, steps) && CanRun(cfg, Run(cfg, s, steps), more)
    ensures CanRun(cfg, s, steps + more)
    ensures Run(cfg, s, steps + more) == Run(cfg, Run(cfg, s, steps), more)
    decreases |steps|
  {
    if steps == [] {
      assert steps + more == more;
    } else {
      RunAppend(cfg, Apply(cfg, s, steps[0]), steps[1..], more);
      assert (steps + more)[1..] == steps[1..] + more;
    }
  }

  lemma RunCons(cfg: Config, s: State, step: Step, steps: seq<Step>)
    requires Enabled(cfg, s, step) && CanRun(cfg, Apply(cfg, s, step), steps)
    ensures CanRun(cfg, s, [step] + steps) && Run(cfg, s, [step] + steps) == Run(cfg, Apply(cfg, s, step), steps)
  {
    hide Enabled, Apply;
    assert ([step] + steps)[1..] == steps;
  }

  lemma RunOne(cfg: Config, s: State, step: Step)
    requires Enabled(cfg, s, step)
    ensures CanRun(cfg, s, [step]) && Run(cfg, s, [step]) == Apply(cfg, s, step)
  {
    hide Enabled, Apply;
    RunCons(cfg, s, step, []);
    assert [step] + [] == [step];
  }
}

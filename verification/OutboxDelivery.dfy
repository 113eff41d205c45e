/** What a closed row means for the handlers of its event: whether the queue holds a task with the event itself, and
    not only tasks that made it look like a duplicate. */
module OutboxDelivery {
  import opened Prelude
  import opened Outbox
  import opened OutboxProtocol
  import opened OutboxInvariant
  import opened OutboxTheorems

  // ---- task ids ----

  predicate IsAsync(cfg: Config, e: Event, k: nat) {
    k < |cfg.Subs(e)| && cfg.Subs(e)[k].isAsync
  }

  /** Subscription l of e gives e the queue and the task id that subscription k of f gives f. */
  predicate Collides(cfg: Config, e: Event, l: nat, f: Event, k: nat)
    requires k < |cfg.Subs(f)|
  {
    && IsAsync(cfg, e, l) && e != f
    && cfg.Subs(e)[l].queue == cfg.Subs(f)[k].queue && cfg.Subs(e)[l].taskId(e) == cfg.Subs(f)[k].taskId(f)
  }

  /** No other event's asynchronous subscription on that queue gives the id. */
  ghost predicate PrivateId(cfg: Config, f: Event, k: nat) {
    IsAsync(cfg, f, k) && forall e, l: nat :: !Collides(cfg, e, l, f, k)
  }

  /** Some task on one of the queues carries the event. */
  ghost predicate Delivered(tasks: set<Task>, f: Event, queues: set<string>) {
    exists t :: t in tasks && t.event == f && t.queue in queues
  }

  /** The row is neither waiting nor dead-lettered. */
  predicate Closed(s: State, id: RowId) {
    id in s.history && (id in s.table ==> s.table[id].processedAt.Some?) && id !in Sources(s.dead)
  }

  /** Whatever happened, each closed row of f was delivered on one of the queues. */
  ghost predicate AlwaysDelivered(cfg: Config, f: Event, queues: set<string>) {
    forall s, id :: Reachable(cfg, s) && Closed(s, id) && s.history[id].event == f ==> Delivered(s.tasks, f, queues)
  }

  // ---- a private id delivers ----

  /** Every task in the queue was made for its event by one of the event's asynchronous subscriptions. */
  ghost predicate TaskMade(cfg: Config, t: Task) {
    exists k: nat :: IsAsync(cfg, t.event, k) && t.queue == cfg.Subs(t.event)[k].queue && t.id == cfg.Subs(t.event)[k].taskId(t.event)
  }

  lemma StepMakesTasks(cfg: Config, s: State, step: Step)
    requires (forall t :: t in s.tasks ==> TaskMade(cfg, t)) && Enabled(cfg, s, step)
    ensures forall t :: t in Apply(cfg, s, step).tasks ==> TaskMade(cfg, t)
  {
    if step.PublisherDispatch? {
      var pub := s.publishers[step.p];
      assert IsAsync(cfg, pub.event, pub.dispatch.next) <==> cfg.Subs(pub.event)[pub.dispatch.next].isAsync;
    } else if step.DrainDispatch? {
      var event, d := RowAt(s, step.d).event, s.drainers[step.d].dispatch;
      assert IsAsync(cfg, event, d.next) <==> cfg.Subs(event)[d.next].isAsync;
    }
  }

  lemma {:induction false} RunMakesTasks(cfg: Config, s: State, steps: seq<Step>)
    requires (forall t :: t in s.tasks ==> TaskMade(cfg, t)) && CanRun(cfg, s, steps)
    ensures forall t :: t in Run(cfg, s, steps).tasks ==> TaskMade(cfg, t)
    decreases |steps|
  {
    hide TaskMade, Enabled, Apply;
    if steps != [] {
      StepMakesTasks(cfg, s, steps[0]);
      RunMakesTasks(cfg, Apply(cfg, s, steps[0]), steps[1..]);
    }
  }

  /** A subscription with a private id has its queue hold a task with the event of every closed row. */
  lemma PrivateIdDeliversTheEvent(cfg: Config, s: State, id: RowId, k: nat)
    requires Reachable(cfg, s) && Closed(s, id) && PrivateId(cfg, s.history[id].event, k)
    ensures Delivered(s.tasks, s.history[id].event, {cfg.Subs(s.history[id].event)[k].queue})
  {
    var f := s.history[id].event;
    ReachableInv(cfg, s);
    assert IdOk(cfg, s, id);
    var sub := cfg.Subs(f)[k];
    assert AllCovered(cfg, s.tasks, f);
    assert Covered(s.tasks, sub, f);
    var t :| t in s.tasks && t.queue == sub.queue && (t.id == sub.taskId(f) || t.event == f);
    hide Inv, IdOk;
    var start, steps :| CanRun(cfg, Initial(start), steps) && Run(cfg, Initial(start), steps) == s;
    RunMakesTasks(cfg, Initial(start), steps);
    assert TaskMade(cfg, t);
    var l: nat :| IsAsync(cfg, t.event, l) && t.queue == cfg.Subs(t.event)[l].queue && t.id == cfg.Subs(t.event)[l].taskId(t.event);
    assert !Collides(cfg, t.event, l, f, k);
  }

  // ---- without one, a run that does not deliver ----

  /** Nothing happened but that the queue took some tasks. */
  function Quiet(tasks: set<Task>): State {
    Initial(0).(tasks := tasks)
  }

  function Publishing(tasks: set<Task>, p: Publisher): State {
    Quiet(tasks).(publishers := map[0 := p])
  }

  /** A publisher without a row whose first n subscriptions all failed. */
  lemma {:induction false} FailedFirst(cfg: Config, tasks: set<Task>, e: Event, n: nat) returns (d: Dispatch)
    requires Reachable(cfg, Quiet(tasks)) && n <= |cfg.Subs(e)|
    ensures d.next == n && Reachable(cfg, Publishing(tasks, Publisher(e, None, d)))
    decreases n
  {
    if n == 0 {
      d := START;
      var step := PublishDirect(0, e, None, None, 0);
      ReachableNext(cfg, Quiet(tasks), step);
      assert Apply(cfg, Quiet(tasks), step) == Publishing(tasks, Publisher(e, None, START));
    } else {
      var d0 := FailedFirst(cfg, tasks, e, n - 1);
      var reply := if cfg.Subs(e)[n - 1].isAsync then Refused(false) else Handled;
      d := AnswerReached(cfg, tasks, Publisher(e, None, d0), reply);
    }
  }

  /** One answer in a publisher's dispatch. */
  lemma AnswerReached(cfg: Config, tasks: set<Task>, pub: Publisher, reply: Reply) returns (d: Dispatch)
    requires Reachable(cfg, Publishing(tasks, pub)) && ReplyFits(cfg, tasks, pub.event, pub.dispatch, reply)
    ensures d == DispatchAfter(cfg, pub.event, pub.dispatch, reply)
    ensures Reachable(cfg, Publishing(TasksAfter(cfg, tasks, pub.event, pub.dispatch, reply), pub.(dispatch := d)))
  {
    d := DispatchAfter(cfg, pub.event, pub.dispatch, reply);
    hide Reachable, TasksAfter, DispatchAfter, ReplyFits;
    var s, step := Publishing(tasks, pub), PublisherDispatch(0, reply);
    ReachableNext(cfg, s, step);
    var tasks' := TasksAfter(cfg, tasks, pub.event, pub.dispatch, reply);
    assert Apply(cfg, s, step) == Publishing(tasks', pub.(dispatch := d)) by {
      assert map[0 := pub][0 := pub.(dispatch := d)] == map[0 := pub.(dispatch := d)];
    }
  }

  /** The queue can take the task of one subscription of any event and nothing else happen. */
  lemma TaskCanBeTaken(cfg: Config, tasks: set<Task>, e: Event, l: nat)
    requires Reachable(cfg, Quiet(tasks)) && cfg.dispatcher && IsAsync(cfg, e, l)
    ensures Reachable(cfg, Quiet(tasks + {Task(cfg.Subs(e)[l].queue, cfg.Subs(e)[l].taskId(e), e)}))
  {
    var d0 := FailedFirst(cfg, tasks, e, l);
    var d := AnswerReached(cfg, tasks, Publisher(e, None, d0), Accepted);
    var tasks' := tasks + {Task(cfg.Subs(e)[l].queue, cfg.Subs(e)[l].taskId(e), e)};
    hide Reachable;
    var s, step := Publishing(tasks', Publisher(e, None, d)), PublisherCrash(0);
    ReachableNext(cfg, s, step);
    assert Apply(cfg, s, step) == Quiet(tasks') by {
      assert map[0 := Publisher(e, None, d)] - {0} == map[];
    }
  }


  /** The first n of f's subscriptions on the queues would all meet a duplicate, though no task carries f. */
  lemma {:induction false} TakenByOthers(cfg: Config, f: Event, queues: set<string>, n: nat) returns (tasks: set<Task>)
    requires cfg.dispatcher && n <= |cfg.Subs(f)|
    requires forall k: nat :: PrivateId(cfg, f, k) ==> cfg.Subs(f)[k].queue !in queues
    ensures Reachable(cfg, Quiet(tasks)) && (forall t :: t in tasks ==> t.event != f)
    ensures forall k :: 0 <= k < n && cfg.Subs(f)[k].isAsync && cfg.Subs(f)[k].queue in queues ==> Covered(tasks, cfg.Subs(f)[k], f)
    decreases n
  {
    if n == 0 {
      tasks := {};
      assert CanRun(cfg, Initial(0), []) && Run(cfg, Initial(0), []) == Quiet({});
    } else {
      var before := TakenByOthers(cfg, f, queues, n - 1);
      var sub := cfg.Subs(f)[n - 1];
      tasks := before;
      if sub.isAsync && sub.queue in queues {
        assert !PrivateId(cfg, f, n - 1);
        var e, l: nat :| Collides(cfg, e, l, f, n - 1);
        TaskCanBeTaken(cfg, before, e, l);
        var t := Task(sub.queue, sub.taskId(f), e);
        tasks := before + {t};
        assert t in tasks;
        forall k | 0 <= k < n && cfg.Subs(f)[k].isAsync && cfg.Subs(f)[k].queue in queues
          ensures Covered(tasks, cfg.Subs(f)[k], f)
        {
          if k < n - 1 { assert Covered(before, cfg.Subs(f)[k], f); }
        }
      }
    }
  }

  function PublishedState(tasks: set<Task>, f: Event, d: Dispatch): State {
    var s := Publishing(tasks, Publisher(f, Some(1), d));
    s.(table := map[1 := NewRow(f, None, 0)], history := map[1 := History(f, 0, 0, None, false)])
  }

  /** The dispatch of f loses no enqueue, and no task on the queues carries f. */
  lemma {:induction false} AllDuplicates(cfg: Config, taken: set<Task>, f: Event, queues: set<string>, n: nat) returns (tasks: set<Task>)
    requires Reachable(cfg, Quiet(taken)) && cfg.dispatcher && n <= |cfg.Subs(f)|
    requires forall t :: t in taken ==> t.event != f
    requires forall k :: 0 <= k < |cfg.Subs(f)| && cfg.Subs(f)[k].isAsync && cfg.Subs(f)[k].queue in queues ==> Covered(taken, cfg.Subs(f)[k], f)
    ensures Reachable(cfg, PublishedState(tasks, f, Dispatch(n, true, None)))
    ensures taken <= tasks && !Delivered(tasks, f, queues)
    decreases n
  {
    if n == 0 {
      tasks := taken;
      var s, step := Quiet(taken), PublishDirect(0, f, Some(1), None, 0);
      ReachableNext(cfg, s, step);
      hide Reachable;
      assert Apply(cfg, s, step) == PublishedState(taken, f, START);
    } else {
      var before := AllDuplicates(cfg, taken, f, queues, n - 1);
      var sub, d0 := cfg.Subs(f)[n - 1], Dispatch(n - 1, true, None);
      var reply := if !sub.isAsync then Handled else if sub.queue in queues then Duplicate else Accepted;
      if reply == Duplicate { assert Covered(taken, sub, f); }
      assert ReplyFits(cfg, before, f, d0, reply);
      tasks := TasksAfter(cfg, before, f, d0, reply);
      hide Reachable, Covered;
      var s, step := PublishedState(before, f, d0), PublisherDispatch(0, reply);
      ReachableNext(cfg, s, step);
      assert Apply(cfg, s, step) == PublishedState(tasks, f, Dispatch(n, true, None)) by {
        var pub := Publisher(f, Some(1), d0);
        var pub' := pub.(dispatch := Dispatch(n, true, None));
        assert map[0 := pub][0 := pub'] == map[0 := pub'];
      }
    }
  }

  /** When every subscription of f on the queues shares its id with some other event, f's row can be marked processed
      while no task there carries f: two actions audited under one request and name are such events. */
  lemma SharedIdsDropTheEvent(cfg: Config, f: Event, queues: set<string>) returns (s: State)
    requires cfg.dispatcher && forall k: nat :: PrivateId(cfg, f, k) ==> cfg.Subs(f)[k].queue !in queues
    ensures Reachable(cfg, s) && Closed(s, 1) && s.history[1].event == f && 1 in s.table
    ensures !Delivered(s.tasks, f, queues)
  {
    var taken := TakenByOthers(cfg, f, queues, |cfg.Subs(f)|);
    var tasks := AllDuplicates(cfg, taken, f, queues, |cfg.Subs(f)|);
    hide Reachable, Covered, PrivateId, Delivered;
    var before, step := PublishedState(tasks, f, Dispatch(|cfg.Subs(f)|, true, None)), PublisherMark(0, 0, true);
    ReachableNext(cfg, before, step);
    s := Apply(cfg, before, step);
  }

  // ---- exactly when ----

  /** While enqueuing works at all, the rows of f are always delivered on one of the queues exactly when some asynchronous
      subscription of f there has a private id. */
  lemma DeliveredIffPrivateId(cfg: Config, f: Event, queues: set<string>)
    requires cfg.dispatcher
    ensures AlwaysDelivered(cfg, f, queues) <==> exists k: nat :: PrivateId(cfg, f, k) && cfg.Subs(f)[k].queue in queues
  {
    if k: nat :| PrivateId(cfg, f, k) && cfg.Subs(f)[k].queue in queues {
      forall s, id | Reachable(cfg, s) && Closed(s, id) && s.history[id].event == f ensures Delivered(s.tasks, f, queues) {
        PrivateIdDeliversTheEvent(cfg, s, id, k);
      }
    } else {
      var s := SharedIdsDropTheEvent(cfg, f, queues);
    }
  }

  /** On any queue whatever: exactly when some asynchronous subscription of f has a private id. */
  lemma DeliveredSomewhereIffPrivateId(cfg: Config, f: Event)
    requires cfg.dispatcher
    ensures (forall s, id :: Reachable(cfg, s) && Closed(s, id) && s.history[id].event == f ==> exists t :: t in s.tasks && t.event == f)
      <==> exists k: nat :: PrivateId(cfg, f, k)
  {
    if k: nat :| PrivateId(cfg, f, k) {
      forall s, id | Reachable(cfg, s) && Closed(s, id) && s.history[id].event == f ensures exists t :: t in s.tasks && t.event == f {
        PrivateIdDeliversTheEvent(cfg, s, id, k);
      }
    } else {
      var queues := set k | 0 <= k < |cfg.Subs(f)| :: cfg.Subs(f)[k].queue;
      var s := SharedIdsDropTheEvent(cfg, f, queues);
      forall t | t in s.tasks && t.event == f ensures t.queue in queues {
        TasksAreMade(cfg, s, t);
      }
    }
  }

  lemma TasksAreMade(cfg: Config, s: State, t: Task)
    requires Reachable(cfg, s) && t in s.tasks
    ensures TaskMade(cfg, t)
  {
    var start, steps :| CanRun(cfg, Initial(start), steps) && Run(cfg, Initial(start), steps) == s;
    RunMakesTasks(cfg, Initial(start), steps);
  }
}

/** The outbox shared by many processes, seen from one of them: between two of its own statements the
    others take any number of protocol steps. */
module OutboxWorld {
  import opened Prelude
  import opened Outbox
  import opened OutboxProtocol
  import opened OutboxInvariant
  import opened OutboxMeasure
  import opened OutboxTheorems

  datatype Actor = Drainer(d: nat) | Direct(p: nat)

  predicate By(step: Step, actor: Actor) {
    match step
    case PublishDirect(p, _, _, _, _) => actor == Direct(p)
    case PublisherDispatch(p, _) => actor == Direct(p)
    case PublisherMark(p, _, _) => actor == Direct(p)
    case PublisherCrash(p) => actor == Direct(p)
    case Begin(d) => actor == Drainer(d)
    case Claim(d, _) => actor == Drainer(d)
    case Bury(d) => actor == Drainer(d)
    case DrainDispatch(d, _) => actor == Drainer(d)
    case Settle(d) => actor == Drainer(d)
    case Commit(d) => actor == Drainer(d)
    case Rollback(d) => actor == Drainer(d)
    case _ => false
  }

  predicate Foreign(steps: seq<Step>, actor: Actor) {
    forall k :: 0 <= k < |steps| ==> !By(steps[k], actor)
  }

  /** What the subscriptions the actor stood before answered, in order. */
  function Replies(steps: seq<Step>, actor: Actor): seq<Reply>
    decreases |steps|
  {
    if steps == [] then [] else Replies(steps[..|steps| - 1], actor) + ReplyIn(steps[|steps| - 1], actor)
  }

  function ReplyIn(step: Step, actor: Actor): seq<Reply> {
    match step
    case PublisherDispatch(p, reply) => if actor == Direct(p) then [reply] else []
    case DrainDispatch(d, reply) => if actor == Drainer(d) then [reply] else []
    case _ => []
  }

  lemma RepliesSnoc(steps: seq<Step>, step: Step, actor: Actor)
    ensures Replies(steps + [step], actor) == Replies(steps, actor) + ReplyIn(step, actor)
  {
    assert (steps + [step])[..|steps|] == steps;
  }

  lemma {:induction false} RepliesOfForeign(steps: seq<Step>, more: seq<Step>, actor: Actor)
    requires Foreign(more, actor)
    ensures Replies(steps + more, actor) == Replies(steps, actor)
    decreases |more|
  {
    if more == [] {
      assert steps + more == steps;
    } else {
      var last := |more| - 1;
      RepliesOfForeign(steps, more[..last], actor);
      assert steps + more == (steps + more[..last]) + [more[last]];
      RepliesSnoc(steps + more[..last], more[last], actor);
    }
  }

  /** What an actor can rely on while others act: its own record, its claimed rows, tasks once queued, time. */
  ghost predicate Undisturbed(s: State, s': State, actor: Actor) {
    && s.tasks <= s'.tasks && s.now <= s'.now
    && s.history.Keys <= s'.history.Keys
    && match actor
       case Direct(p) => (p in s'.publishers <==> p in s.publishers) && (p in s.publishers ==> s'.publishers[p] == s.publishers[p])
       case Drainer(d) =>
         && (d in s'.drainers <==> d in s.drainers)
         && (d in s.drainers ==>
               && s'.drainers[d] == s.drainers[d]
               && forall id :: id in s.drainers[d].batch ==> SameClaim(s, s', id))
  }

  ghost predicate SameClaim(s: State, s': State, id: RowId) {
    id in s.table && id in s'.table && s'.table[id] == s.table[id]
  }

  lemma HeldRow(cfg: Config, s: State, d: nat, id: RowId)
    requires Inv(cfg, s) && d in s.drainers && id in s.drainers[d].batch
    ensures id in s.locks && s.locks[id] == d && id in s.table && id in s.history
    ensures s.table[id].processedAt.None?
  {
    assert ClaimOk(s.drainers[d], s.table, s.locks, d, id);
  }

  lemma OtherCommitLeavesClaims(cfg: Config, s: State, e: nat, d: nat, id: RowId)
    requires Inv(cfg, s) && e in s.drainers && d in s.drainers && d != e && id in s.drainers[d].batch
    ensures SameClaim(s, Committed(s, e), id)
  {
    HeldRow(cfg, s, d, id);
    StagedIsClaimed(cfg, s, e);
    ClaimsAreDisjoint(cfg, s, d, e);
  }

  lemma OthersLeaveClaims(cfg: Config, s: State, step: Step, d: nat, id: RowId)
    requires Inv(cfg, s) && Enabled(cfg, s, step) && !By(step, Drainer(d))
    requires d in s.drainers && id in s.drainers[d].batch
    ensures SameClaim(s, Apply(cfg, s, step), id)
  {
    hide Inv, Select, ReplyFits;
    HeldRow(cfg, s, d, id);
    if step.Commit? {
      OtherCommitLeavesClaims(cfg, s, step.d, d, id);
    }
  }

  lemma ForeignStepKeepsRecord(cfg: Config, s: State, step: Step, actor: Actor)
    requires Enabled(cfg, s, step) && !By(step, actor)
    ensures var s' := Apply(cfg, s, step);
      && s.tasks <= s'.tasks && s.now <= s'.now && s.history.Keys <= s'.history.Keys
      && match actor
         case Direct(p) =>
           (p in s'.publishers <==> p in s.publishers) && (p in s.publishers ==> s'.publishers[p] == s.publishers[p])
         case Drainer(d) =>
           (d in s'.drainers <==> d in s.drainers) && (d in s.drainers ==> s'.drainers[d] == s.drainers[d])
  {
    StepOnlyGrows(cfg, s, step);
    hide Select, Candidates, ReplyFits, TasksAfter, DispatchAfter, Recorded, MarkFailed, MarkProcessed, Letter, BuryReason;
  }

  lemma StepOnlyGrows(cfg: Config, s: State, step: Step)
    requires Enabled(cfg, s, step)
    ensures var s' := Apply(cfg, s, step); s.tasks <= s'.tasks && s.now <= s'.now && s.history.Keys <= s'.history.Keys
  {
    hide Select, Candidates, ReplyFits, DispatchAfter, Recorded, MarkFailed, MarkProcessed, Letter, BuryReason;
  }

  lemma ForeignStep(cfg: Config, s: State, step: Step, actor: Actor)
    requires Inv(cfg, s) && Enabled(cfg, s, step) && !By(step, actor)
    ensures Undisturbed(s, Apply(cfg, s, step), actor)
  {
    hide Inv, SameClaim, Apply, Enabled;
    ForeignStepKeepsRecord(cfg, s, step, actor);
    if actor.Drainer? && actor.d in s.drainers {
      forall id | id in s.drainers[actor.d].batch ensures SameClaim(s, Apply(cfg, s, step), id) {
        OthersLeaveClaims(cfg, s, step, actor.d, id);
      }
    }
  }

  lemma {:induction false} ForeignRun(cfg: Config, s: State, steps: seq<Step>, actor: Actor)
    requires Inv(cfg, s) && CanRun(cfg, s, steps) && Foreign(steps, actor)
    ensures Undisturbed(s, Run(cfg, s, steps), actor)
    decreases |steps|
  {
    hide Inv;
    if steps == [] {
      ClaimsAreRows(cfg, s);
    } else {
      var s1 := Apply(cfg, s, steps[0]);
      ForeignStep(cfg, s, steps[0], actor);
      StepKeepsInv(cfg, s, steps[0]);
      ForeignRun(cfg, s1, steps[1..], actor);
    }
  }

  lemma ClaimsAreRows(cfg: Config, s: State)
    requires Inv(cfg, s)
    ensures forall d, id :: d in s.drainers && id in s.drainers[d].batch ==> id in s.table
  {
    forall d, id | d in s.drainers && id in s.drainers[d].batch ensures id in s.table {
      assert ClaimOk(s.drainers[d], s.table, s.locks, d, id);
    }
  }

  lemma RowKept(s: State, s': State, n: nat)
    requires AtRow(s, n) && Undisturbed(s, s', Drainer(n))
    ensures AtRow(s', n) && RowAt(s', n) == RowAt(s, n)
  {
    assert SameClaim(s, s', s.drainers[n].batch[s.drainers[n].pos]);
  }

  lemma HeldKept(s: State, s': State, n: nat)
    requires n in s.drainers && Undisturbed(s, s', Drainer(n))
    ensures n in s'.drainers && s'.drainers[n] == s.drainers[n]
    ensures forall id :: id in s.drainers[n].batch ==> SameClaim(s, s', id)
    ensures forall t: State {:trigger t.table} :: t.table == s'.table ==> forall id :: id in s.drainers[n].batch ==> SameClaim(s, t, id)
  {
  }

  /** Finishing a row after the others ran does to the drain's own record what it would have done before. */
  lemma FinishedLater(cfg: Config, s: State, s': State, n: nat, step: Step)
    requires AtRow(s, n) && Undisturbed(s, s', Drainer(n)) && Enabled(cfg, s', step)
    requires step == Bury(n) || step == Settle(n)
    requires step == Bury(n) ==> BuryReason(cfg, RowAt(s, n)).Some?
    ensures n in Apply(cfg, s', step).drainers && Apply(cfg, s', step).table == s'.table
    ensures Apply(cfg, s', step).drainers[n] ==
      if step == Bury(n) then Buried(cfg, s, n).drainers[n] else Settled(s, n).drainers[n]
  {
    RowKept(s, s', n);
  }

  /** What can refuse that statement: the check that a row is not processed before its creation. */
  lemma RefusedForAge(cfg: Config, s: State, s': State, n: nat, step: Step)
    requires AtRow(s, n) && Undisturbed(s, s', Drainer(n))
    requires step == Bury(n) ==> BuryReason(cfg, RowAt(s, n)).Some?
    requires step == Settle(n) ==> BuryReason(cfg, RowAt(s, n)).None? && s.drainers[n].dispatch.next == |cfg.Subs(RowAt(s, n).event)|
    requires step == Bury(n) || step == Settle(n)
    ensures Enabled(cfg, s', step) || RowAt(s, n).createdAt > s.drainers[n].started
  {
    RowKept(s, s', n);
  }

  /** The database, the queue and the clock the processes share. */
  class World {
    const cfg: Config
    const start: Time
    /** No statement fails for a reason of its own: only the database's constraints can refuse one. */
    const healthy: bool
    var st: State
    /** Rows the other processes will still insert. Any finite number will do. */
    var arrivals: nat
    ghost var trace: seq<Step>

    /** The state is where the trace leads: everything that happened was an enabled protocol step. */
    ghost predicate Valid()
      reads this
    {
      CanRun(cfg, Initial(start), trace) && Run(cfg, Initial(start), trace) == st
    }

    ghost function Potential(): nat
      reads this
    {
      Measure(st.table) + MAX_RETRY * arrivals
    }

    constructor (cfg: Config, start: Time, arrivals: nat, healthy: bool)
      ensures Valid() && this.cfg == cfg && st == Initial(start) && trace == [] && this.arrivals == arrivals && this.healthy == healthy
    {
      this.healthy := healthy;
      this.cfg := cfg;
      this.start := start;
      this.st := Initial(start);
      this.arrivals := arrivals;
      this.trace := [];
    }

    /** Valid states satisfy the protocol's invariant. */
    lemma Sound()
      requires Valid()
      ensures Reachable(cfg, st) && Inv(cfg, st)
    {
      ReachableInv(cfg, st);
    }

    /** The others run for a while. */
    method Interfere(actor: Actor)
      requires Valid()
      modifies this
      ensures Valid() && old(trace) <= trace && Foreign(trace[|old(trace)|..], actor)
      ensures Undisturbed(old(st), st, actor)
      ensures Potential() <= old(Potential())
      ensures Replies(trace, actor) == Replies(old(trace), actor)
    {
      Sound();
      var steps: seq<Step> := *;
      if !(Foreign(steps, actor) && CanRun(cfg, st, steps) && RunInserts(steps) <= arrivals) {
        steps := [];
      }
      ForeignRun(cfg, st, steps, actor);
      RunMeasure(cfg, st, steps);
      RunAppend(cfg, Initial(start), trace, steps);
      assert (trace + steps)[|trace|..] == steps;
      RepliesOfForeign(trace, steps, actor);
      st := Run(cfg, st, steps);
      arrivals := arrivals - RunInserts(steps);
      trace := trace + steps;
    }

    /** The process takes one step of its own. */
    method Do(step: Step)
      requires Valid() && Enabled(cfg, st, step)
      modifies this`st, this`trace
      ensures Valid() && st == Apply(cfg, old(st), step) && trace == old(trace) + [step]
      ensures Inv(cfg, st)
      ensures Inserts(step) == 0 ==> Potential() + Fetched(old(st), step) <= old(Potential())
    {
      Sound();
      StepMeasure(cfg, st, step);
      StepKeepsInv(cfg, st, step);
      RunOne(cfg, st, step);
      RunAppend(cfg, Initial(start), trace, [step]);
      st := Apply(cfg, st, step);
      trace := trace + [step];
    }

    /** The subscription an actor stands before answers. */
    method Answer(actor: Actor, event: Event, ghost d: Dispatch) returns (reply: Reply)
      requires Valid() && Dispatching(cfg, st, actor, event, d) && d.next < |cfg.Subs(event)|
      modifies this
      ensures Valid() && old(trace) <= trace && Potential() <= old(Potential())
      ensures ReplyKind(cfg, event, d, reply)
      ensures Dispatching(cfg, st, actor, event, DispatchAfter(cfg, event, d, reply))
      ensures OnlyDispatched(old(st), st, actor)
      ensures Replies(trace, actor) == Replies(old(trace), actor) + [reply]
    {
      hide Measure, CanRun, Run, Inv, Replies;
      Interfere(actor);
      ghost var before := trace;
      if actor.Drainer? { RowKept(old(st), st, actor.d); }
      var at := match actor case Direct(p) => st.publishers[p].dispatch case Drainer(n) => st.drainers[n].dispatch;
      reply := *;
      if !ReplyFits(cfg, st.tasks, event, at, reply) {
        reply := if cfg.Subs(event)[at.next].isAsync then Refused(false) else Handled;
      }
      var step := match actor case Direct(p) => PublisherDispatch(p, reply) case Drainer(n) => DrainDispatch(n, reply);
      RepliesSnoc(before, step, actor);
      Do(step);
    }

    method Fails() returns (fails: bool)
      ensures healthy ==> !fails
    {
      fails := *;
      if healthy { fails := false; }
    }

    /** A statement of the drain that stamps or fails the row it stands before. It may fail; in a healthy database only for a row
        that was created after the transaction began, which cannot be stamped with the transaction's time. */
    method Finish(n: nat, step: Step) returns (ok: bool)
      requires Valid() && AtRow(st, n) && (step == Bury(n) || step == Settle(n))
      requires step == Bury(n) ==> BuryReason(cfg, RowAt(st, n)).Some?
      requires step == Settle(n) ==> BuryReason(cfg, RowAt(st, n)).None?
      requires step == Settle(n) ==> st.drainers[n].dispatch.next == |cfg.Subs(RowAt(st, n).event)|
      modifies this
      ensures Valid() && old(trace) <= trace && Potential() <= old(Potential())
      ensures n in st.drainers && forall id :: id in old(st).drainers[n].batch ==> SameClaim(old(st), st, id)
      ensures ok ==> st.drainers[n] == if step == Bury(n) then Buried(cfg, old(st), n).drainers[n] else Settled(old(st), n).drainers[n]
      ensures !ok ==> st.drainers[n] == old(st).drainers[n]
      ensures !ok && healthy ==> RowAt(old(st), n).createdAt > old(st).drainers[n].started
      ensures Inv(cfg, st) && Replies(trace, Drainer(n)) == Replies(old(trace), Drainer(n))
    {
      hide Inv, Replies, Undisturbed, SameClaim, Buried, Settled, Apply, Enabled, Measure;
      Interfere(Drainer(n));
      Sound();
      HeldKept(old(st), st, n);
      var fails := Fails();
      if fails || !Enabled(cfg, st, step) {
        RefusedForAge(cfg, old(st), st, n, step);
        return false;
      }
      FinishedLater(cfg, old(st), st, n, step);
      RepliesSnoc(trace, step, Drainer(n));
      Do(step);
      ok := true;
    }
  }

  /** The actor is in the middle of a dispatch of `event`. */
  ghost predicate Dispatching(cfg: Config, s: State, actor: Actor, event: Event, d: Dispatch) {
    match actor
    case Direct(p) => p in s.publishers && s.publishers[p].event == event && s.publishers[p].dispatch == d
    case Drainer(n) =>
      && AtRow(s, n) && BuryReason(cfg, RowAt(s, n)).None?
      && RowAt(s, n).event == event && s.drainers[n].dispatch == d
  }

  /** The actor's record differs in its dispatch at most. */
  ghost predicate OnlyDispatched(s: State, s': State, actor: Actor) {
    match actor
    case Direct(p) =>
      p in s.publishers && p in s'.publishers
      && s'.publishers[p] == s.publishers[p].(dispatch := s'.publishers[p].dispatch)
    case Drainer(n) =>
      && n in s.drainers && n in s'.drainers
      && s'.drainers[n] == s.drainers[n].(dispatch := s'.drainers[n].dispatch)
      && forall id :: id in s.drainers[n].batch ==> SameClaim(s, s', id)
  }

  /** Queues answer enqueues, handlers answer calls; without a dispatcher nothing is enqueued. */
  predicate ReplyKind(cfg: Config, event: Event, d: Dispatch, reply: Reply)
    requires d.next < |cfg.Subs(event)|
  {
    if cfg.Subs(event)[d.next].isAsync then
      reply.Refused? || (cfg.dispatcher && (reply.Accepted? || reply.Duplicate?))
    else reply.Handled? || reply.HandlerFailed?
  }
}

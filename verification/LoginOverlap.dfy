/** Logins that overlap: the check of the counter, the check of the password and the increment are steps of their own, and
    other attempts on the same email may come between them. */
module LoginOverlap {
  import opened Prelude
  import opened LoginLimiter

  /** Attempts that passed the throttle and whose password is still to be checked, and attempts whose password was wrong
      and whose failure is still to be counted. */
  datatype Attempts = Attempts(st: State, admitted: nat, failed: nat) {
    function Width(): nat { admitted + failed }
  }

  datatype Move =
    | Wait(elapsed: nat)
    | Admit
    | Fail      // the email is unknown or the password wrong
    | Leave     // the credentials are right and the account is not active
    | Record

  predicate Can(cfg: Config, s: Attempts, m: Move) {
    match m
    case Wait(_) => true
    case Admit => !Blocked(cfg, s.st, true)
    case Fail => s.admitted > 0
    case Leave => s.admitted > 0
    case Record => s.failed > 0
  }

  function Act(cfg: Config, s: Attempts, m: Move): Attempts
    requires Can(cfg, s, m)
  {
    match m
    case Wait(elapsed) => s.(st := s.st.(now := s.st.now + elapsed))
    case Admit => s.(admitted := s.admitted + 1)
    case Fail => s.(admitted := s.admitted - 1, failed := s.failed + 1)
    case Leave => s.(admitted := s.admitted - 1)
    case Record => s.(failed := s.failed - 1, st := s.st.Increment(cfg.window))
  }

  /** The moves are possible, and at no time are more than `width` attempts under way. */
  predicate CanRun(cfg: Config, s: Attempts, moves: seq<Move>, width: nat)
    decreases |moves|
  {
    s.Width() <= width && (moves == [] || (Can(cfg, s, moves[0]) && CanRun(cfg, Act(cfg, s, moves[0]), moves[1..], width)))
  }

  function Run(cfg: Config, s: Attempts, moves: seq<Move>, width: nat): Attempts
    requires CanRun(cfg, s, moves, width)
    decreases |moves|
  {
    if moves == [] then s else Run(cfg, Act(cfg, s, moves[0]), moves[1..], width)
  }

  /** How many password checks fail in [a, b). */
  function FailedIn(cfg: Config, s: Attempts, moves: seq<Move>, width: nat, a: Time, b: Time): nat
    requires CanRun(cfg, s, moves, width)
    decreases |moves|
  {
    if moves == [] then 0
    else (if moves[0] == Fail && a <= s.st.now < b then 1 else 0)
         + FailedIn(cfg, Act(cfg, s, moves[0]), moves[1..], width, a, b)
  }

  function Idle(now: Time): Attempts { Attempts(State(now, None), 0, 0) }

  // ---- the bound ----

  /** The most failures one window can count: those up to the limit, and those already under way when it is reached. */
  function Most(cfg: Config, width: nat): int { cfg.maxAttempts - 1 + width }

  predicate Ok(cfg: Config, s: Attempts, width: nat) {
    && cfg.maxAttempts >= 1 && cfg.window >= 1 && width >= 1 && s.Width() <= width
    && (s.st.cell.Some? ==> s.st.cell.value.expires.Some? && 1 <= s.st.cell.value.count <= Most(cfg, width))
    && s.st.Counter() + s.Width() <= Most(cfg, width)
  }

  /** The failed checks [a, a + W) may still see. */
  function Allowance(cfg: Config, s: Attempts, width: nat, a: Time): int {
    var b := a + cfg.window;
    if s.st.now >= b then 0
    else if s.st.now < a then 2 * Most(cfg, width) - 1
    else Most(cfg, width) - s.st.Counter() - s.failed
         + (if s.st.Live() && s.st.cell.value.expires.Some? && s.st.cell.value.expires.value < b then Most(cfg, width) else 0)
  }

  lemma MoveSpendsAllowance(cfg: Config, s: Attempts, m: Move, width: nat, a: Time)
    requires Ok(cfg, s, width) && Can(cfg, s, m) && Act(cfg, s, m).Width() <= width
    ensures Ok(cfg, Act(cfg, s, m), width)
    ensures Allowance(cfg, Act(cfg, s, m), width, a) + (if m == Fail && a <= s.st.now < a + cfg.window then 1 else 0)
      <= Allowance(cfg, s, width, a)
  {
  }

  lemma {:induction false} RunSpendsAllowance(cfg: Config, s: Attempts, moves: seq<Move>, width: nat, a: Time)
    requires Ok(cfg, s, width) && CanRun(cfg, s, moves, width)
    ensures FailedIn(cfg, s, moves, width, a, a + cfg.window) <= Allowance(cfg, s, width, a)
    decreases |moves|
  {
    if moves != [] {
      MoveSpendsAllowance(cfg, s, moves[0], width, a);
      RunSpendsAllowance(cfg, Act(cfg, s, moves[0]), moves[1..], width, a);
    }
  }

  /** With the cache up, no reset and at most `width` attempts under way at once, any half-open interval of one window's
      length sees at most 2 * (max + width) - 3 failed password checks of one email. */
  lemma OverlapBound(cfg: Config, start: Time, moves: seq<Move>, width: nat, a: Time)
    requires cfg.maxAttempts >= 1 && cfg.window >= 1 && width >= 1 && CanRun(cfg, Idle(start), moves, width)
    ensures FailedIn(cfg, Idle(start), moves, width, a, a + cfg.window) <= 2 * (cfg.maxAttempts + width) - 3
  {
    RunSpendsAllowance(cfg, Idle(start), moves, width, a);
  }

  // ---- the bound is met ----

  /** Moves that lead from s to s' with `count` failures in [a, b). */
  ghost predicate Leads(cfg: Config, s: Attempts, moves: seq<Move>, width: nat, s': Attempts, a: Time, b: Time, count: nat) {
    CanRun(cfg, s, moves, width) && Run(cfg, s, moves, width) == s' && FailedIn(cfg, s, moves, width, a, b) == count
  }

  lemma {:induction false} LeadsOn(cfg: Config, s: Attempts, m1: seq<Move>, width: nat, s1: Attempts, m2: seq<Move>, s2: Attempts,
                                   a: Time, b: Time, c1: nat, c2: nat)
    requires Leads(cfg, s, m1, width, s1, a, b, c1) && Leads(cfg, s1, m2, width, s2, a, b, c2)
    ensures Leads(cfg, s, m1 + m2, width, s2, a, b, c1 + c2)
    decreases |m1|
  {
    if m1 == [] {
      assert m1 + m2 == m2;
    } else {
      var s' := Act(cfg, s, m1[0]);
      var first := if m1[0] == Fail && a <= s.st.now < b then 1 else 0;
      assert Leads(cfg, s', m1[1..], width, s1, a, b, c1 - first);
      hide Can, Act;
      LeadsOn(cfg, s', m1[1..], width, s1, m2, s2, a, b, c1 - first, c2);
      assert (m1 + m2)[1..] == m1[1..] + m2;
    }
  }

  lemma LeadsOne(cfg: Config, s: Attempts, m: Move, width: nat, a: Time, b: Time)
    requires s.Width() <= width && Can(cfg, s, m) && Act(cfg, s, m).Width() <= width
    ensures Leads(cfg, s, [m], width, Act(cfg, s, m), a, b, if m == Fail && a <= s.st.now < b then 1 else 0)
  {
    var s' := Act(cfg, s, m);
    assert [m][1..] == [];
    assert CanRun(cfg, s', [], width) && Run(cfg, s', [], width) == s' && FailedIn(cfg, s', [], width, a, b) == 0;
  }

  /** n attempts are let in. */
  lemma {:induction false} LetIn(cfg: Config, st: State, n: nat, width: nat, a: Time, b: Time) returns (moves: seq<Move>)
    requires !Blocked(cfg, st, true) && n <= width
    ensures Leads(cfg, Attempts(st, 0, 0), moves, width, Attempts(st, n, 0), a, b, 0)
    decreases n
  {
    if n == 0 {
      moves := [];
    } else {
      var before := LetIn(cfg, st, n - 1, width, a, b);
      LeadsOne(cfg, Attempts(st, n - 1, 0), Admit, width, a, b);
      LeadsOn(cfg, Attempts(st, 0, 0), before, width, Attempts(st, n - 1, 0), [Admit], Attempts(st, n, 0), a, b, 0, 0);
      moves := before + [Admit];
    }
  }

  function Counted(now: Time, n: nat, expires: Time): State { State(now, Some(Cell(n, Some(expires)))) }

  /** One of the attempts under way fails and is counted. */
  lemma OneFails(cfg: Config, st: State, n: nat, width: nat, a: Time, b: Time) returns (moves: seq<Move>)
    requires 1 <= n <= width
    ensures Leads(cfg, Attempts(st, n, 0), moves, width, Attempts(st.Increment(cfg.window), n - 1, 0), a, b,
                  if a <= st.now < b then 1 else 0)
  {
    var s0, s1 := Attempts(st, n, 0), Attempts(st, n - 1, 1);
    LeadsOne(cfg, s0, Fail, width, a, b);
    LeadsOne(cfg, s1, Record, width, a, b);
    LeadsOn(cfg, s0, [Fail], width, s1, [Record], Act(cfg, s1, Record), a, b, if a <= st.now < b then 1 else 0, 0);
    moves := [Fail] + [Record];
  }

  /** In a running window with room for n, and width - 1 attempts under way: n more come and fail, one after the other,
      and then those under way fail too. */
  lemma {:induction false} FillWindow(cfg: Config, now: Time, count: nat, expires: Time, n: nat, width: nat, a: Time, b: Time)
    returns (moves: seq<Move>)
    requires now < expires && count + n == cfg.maxAttempts && width >= 1 && a <= now < b
    ensures Leads(cfg, Attempts(Counted(now, count, expires), width - 1, 0), moves, width,
                  Attempts(Counted(now, cfg.maxAttempts + width - 1, expires), 0, 0), a, b, n + width - 1)
    decreases n
  {
    var st := Counted(now, count, expires);
    if n == 0 {
      moves := AllFail(cfg, now, count, expires, width - 1, width, a, b);
    } else {
      var st' := Counted(now, count + 1, expires);
      LeadsOne(cfg, Attempts(st, width - 1, 0), Admit, width, a, b);
      var one := OneFails(cfg, st, width, width, a, b);
      LeadsOn(cfg, Attempts(st, width - 1, 0), [Admit], width, Attempts(st, width, 0), one, Attempts(st', width - 1, 0), a, b, 0, 1);
      var more := FillWindow(cfg, now, count + 1, expires, n - 1, width, a, b);
      var end := Attempts(Counted(now, cfg.maxAttempts + width - 1, expires), 0, 0);
      LeadsOn(cfg, Attempts(st, width - 1, 0), [Admit] + one, width, Attempts(st', width - 1, 0), more, end, a, b, 1, n + width - 2);
      moves := [Admit] + one + more;
    }
  }

  lemma {:induction false} AllFail(cfg: Config, now: Time, count: nat, expires: Time, n: nat, width: nat, a: Time, b: Time)
    returns (moves: seq<Move>)
    requires now < expires && n <= width && a <= now < b
    ensures Leads(cfg, Attempts(Counted(now, count, expires), n, 0), moves, width,
                  Attempts(Counted(now, count + n, expires), 0, 0), a, b, n)
    decreases n
  {
    if n == 0 {
      moves := [];
    } else {
      var st, st' := Counted(now, count, expires), Counted(now, count + 1, expires);
      var one := OneFails(cfg, st, n, width, a, b);
      var more := AllFail(cfg, now, count + 1, expires, n - 1, width, a, b);
      LeadsOn(cfg, Attempts(st, n, 0), one, width, Attempts(st', n - 1, 0), more, Attempts(Counted(now, count + n, expires), 0, 0), a, b, 1, n - 1);
      moves := one + more;
    }
  }

  /** Let in as many as may be under way, and have the first of them open a window. */
  lemma OpenWindow(cfg: Config, st: State, width: nat, a: Time, b: Time) returns (moves: seq<Move>)
    requires !st.Live() && cfg.maxAttempts >= 1 && width >= 1
    ensures Leads(cfg, Attempts(st, 0, 0), moves, width, Attempts(Counted(st.now, 1, st.now + cfg.window), width - 1, 0), a, b,
                  if a <= st.now < b then 1 else 0)
  {
    var enter := LetIn(cfg, st, width, width, a, b);
    var one := OneFails(cfg, st, width, width, a, b);
    LeadsOn(cfg, Attempts(st, 0, 0), enter, width, Attempts(st, width, 0), one, Attempts(st.Increment(cfg.window), width - 1, 0), a, b, 0,
            if a <= st.now < b then 1 else 0);
    moves := enter + one;
  }

  /** No smaller bound holds, for any limit and any width. */
  lemma OverlapBoundIsMet(cfg: Config, width: nat) returns (moves: seq<Move>)
    requires cfg.maxAttempts >= 1 && cfg.window >= 2 && width >= 1
    ensures CanRun(cfg, Idle(0), moves, width)
    ensures FailedIn(cfg, Idle(0), moves, width, 1, 1 + cfg.window) == 2 * (cfg.maxAttempts + width) - 3
  {
    var max, w := cfg.maxAttempts, cfg.window;
    var a, b := 1, 1 + w;
    hide Can, Act, CanRun, Run, FailedIn, Leads;
    var m1 := OpenWindow(cfg, State(0, None), width, a, b);
    var s1 := Attempts(Counted(0, 1, w), width - 1, 0);
    var s2 := Attempts(Counted(w - 1, 1, w), width - 1, 0);
    WaitLeads(cfg, s1, w - 1, width, a, b);
    var m3 := FillWindow(cfg, w - 1, 1, w, max - 1, width, a, b);
    var s3 := Attempts(Counted(w - 1, max + width - 1, w), 0, 0);
    var s4 := Attempts(Counted(w, max + width - 1, w), 0, 0);
    WaitLeads(cfg, s3, 1, width, a, b);
    var m5 := OpenWindow(cfg, s4.st, width, a, b);
    var s5 := Attempts(Counted(w, 1, 2 * w), width - 1, 0);
    var m6 := FillWindow(cfg, w, 1, 2 * w, max - 1, width, a, b);
    var s6 := Attempts(Counted(w, max + width - 1, 2 * w), 0, 0);
    LeadsOn(cfg, Idle(0), m1, width, s1, [Wait(w - 1)], s2, a, b, 0, 0);
    LeadsOn(cfg, Idle(0), m1 + [Wait(w - 1)], width, s2, m3, s3, a, b, 0, max + width - 2);
    LeadsOn(cfg, Idle(0), m1 + [Wait(w - 1)] + m3, width, s3, [Wait(1)], s4, a, b, max + width - 2, 0);
    LeadsOn(cfg, Idle(0), m1 + [Wait(w - 1)] + m3 + [Wait(1)], width, s4, m5, s5, a, b, max + width - 2, 1);
    LeadsOn(cfg, Idle(0), m1 + [Wait(w - 1)] + m3 + [Wait(1)] + m5, width, s5, m6, s6, a, b, max + width - 1, max + width - 2);
    moves := m1 + [Wait(w - 1)] + m3 + [Wait(1)] + m5 + m6;
    LeadsMeans(cfg, Idle(0), moves, width, s6, a, b, 2 * (max + width) - 3);
  }

  lemma WaitLeads(cfg: Config, s: Attempts, elapsed: nat, width: nat, a: Time, b: Time)
    requires s.Width() <= width
    ensures Leads(cfg, s, [Wait(elapsed)], width, s.(st := s.st.(now := s.st.now + elapsed)), a, b, 0)
  {
    LeadsOne(cfg, s, Wait(elapsed), width, a, b);
  }

  lemma LeadsMeans(cfg: Config, s: Attempts, moves: seq<Move>, width: nat, s': Attempts, a: Time, b: Time, count: nat)
    requires Leads(cfg, s, moves, width, s', a, b, count)
    ensures CanRun(cfg, s, moves, width) && FailedIn(cfg, s, moves, width, a, b) == count
  {
  }
}

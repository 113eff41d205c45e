/** The per-account login throttle: one Redis counter in a window that starts at the first failure. */
module LoginLimiter {
  import opened Prelude

  const DEFAULT_ATTEMPTS := 10
  const DEFAULT_WINDOW: Time := 15 * MINUTE

  datatype Config = Config(maxAttempts: nat, window: nat)

  datatype Cell = Cell(count: nat, expires: Option<Time>)

  /** The counter of one email, and the clock. */
  datatype State = State(now: Time, cell: Option<Cell>) {
    predicate Live() { cell.Some? && (cell.value.expires.Some? ==> now < cell.value.expires.value) }

    function Counter(): nat { if Live() then cell.value.count else 0 }

    /** INCR, then EXPIRE NX: a running window is never extended. */
    function Increment(ttl: nat): State {
      if !Live() then this.(cell := Some(Cell(1, Some(now + ttl))))
      else
        var c := cell.value;
        this.(cell := Some(Cell(c.count + 1, if c.expires.Some? then c.expires else Some(now + ttl))))
    }

    function Delete(): State { this.(cell := None) }
  }

  // ---- attempts ----

  /** What the credentials of an attempt are worth. */
  datatype Credentials = UnknownEmail | WrongPassword | Inactive | Correct

  datatype LoginResult = TooManyAttempts | InvalidCredentials | AccountInactive | Accepted

  /** `up` says whether the cache answers; the throttle fails open. */
  datatype Step = Tick(elapsed: nat) | Login(credentials: Credentials, up: bool)

  predicate Blocked(cfg: Config, s: State, up: bool) { up && s.Counter() >= cfg.maxAttempts }

  /** The attempt fails on its credentials, so they were checked. */
  predicate FailsCheck(cfg: Config, s: State, step: Step) {
    step.Login? && !Blocked(cfg, s, step.up) && (step.credentials.UnknownEmail? || step.credentials.WrongPassword?)
  }

  function Apply(cfg: Config, s: State, step: Step): State {
    match step
    case Tick(elapsed) => s.(now := s.now + elapsed)
    case Login(credentials, up) =>
      if !up || Blocked(cfg, s, up) then s
      else if FailsCheck(cfg, s, step) then s.Increment(cfg.window)
      else if credentials.Correct? then s.Delete()
      else s
  }

  function Run(cfg: Config, s: State, steps: seq<Step>): State
    decreases |steps|
  {
    if steps == [] then s else Run(cfg, Apply(cfg, s, steps[0]), steps[1..])
  }

  /** How many credential checks fail in [a, b). */
  function FailedChecks(cfg: Config, s: State, steps: seq<Step>, a: Time, b: Time): nat
    decreases |steps|
  {
    if steps == [] then 0
    else (if FailsCheck(cfg, s, steps[0]) && a <= s.now < b then 1 else 0)
         + FailedChecks(cfg, Apply(cfg, s, steps[0]), steps[1..], a, b)
  }

  // ---- the rate bound ----

  /** The cache is up throughout and no attempt resets the counter. */
  predicate Guessing(steps: seq<Step>) {
    forall i :: 0 <= i < |steps| && steps[i].Login? ==> steps[i].up && !steps[i].credentials.Correct?
  }

  predicate Ok(cfg: Config, s: State) {
    && cfg.maxAttempts >= 1 && cfg.window >= 1
    && (s.cell.Some? ==> 1 <= s.cell.value.count <= cfg.maxAttempts && s.cell.value.expires.Some?)
  }

  /** The failures [a, a + W) may still see. A window that starts inside the interval outlasts it. */
  function Budget(cfg: Config, s: State, a: Time): int {
    var b := a + cfg.window;
    if s.now >= b then 0
    else if s.now < a then 2 * cfg.maxAttempts - 1
    else if !s.Live() then cfg.maxAttempts
    else cfg.maxAttempts - s.cell.value.count
         + (if s.cell.value.expires.Some? && s.cell.value.expires.value < b then cfg.maxAttempts else 0)
  }

  lemma StepSpendsBudget(cfg: Config, s: State, step: Step, a: Time)
    requires Ok(cfg, s) && Guessing([step])
    ensures Ok(cfg, Apply(cfg, s, step))
    ensures Budget(cfg, Apply(cfg, s, step), a) + FailedChecks(cfg, s, [step], a, a + cfg.window) <= Budget(cfg, s, a)
  {
    assert [step][0] == step && [step][1..] == [];
  }

  lemma {:induction false} RunSpendsBudget(cfg: Config, s: State, steps: seq<Step>, a: Time)
    requires Ok(cfg, s) && Guessing(steps)
    ensures FailedChecks(cfg, s, steps, a, a + cfg.window) <= Budget(cfg, s, a)
    decreases |steps|
  {
    if steps != [] {
      var step := steps[0];
      StepSpendsBudget(cfg, s, step, a);
      assert [step][0] == step && [step][1..] == [];
      assert FailedChecks(cfg, Apply(cfg, s, step), [], a, a + cfg.window) == 0;
      RunSpendsBudget(cfg, Apply(cfg, s, step), steps[1..], a);
    }
  }

  /** With the cache up and no reset, any half-open interval of one window's length sees at most 2 * max - 1 failed
      credential checks of one email. */
  lemma RateBound(cfg: Config, start: Time, steps: seq<Step>, a: Time)
    requires cfg.maxAttempts >= 1 && cfg.window >= 1 && Guessing(steps)
    ensures FailedChecks(cfg, State(start, None), steps, a, a + cfg.window) <= 2 * cfg.maxAttempts - 1
  {
    RunSpendsBudget(cfg, State(start, None), steps, a);
  }

  // ---- the bound is met ----

  function Wrong(n: nat): seq<Step> { seq(n, _ => Login(WrongPassword, true)) }

  /** One failure opens the window; the rest of its allowance comes at its last instant, and a full new one right after. */
  function WorstRun(cfg: Config): seq<Step>
    requires cfg.maxAttempts >= 1 && cfg.window >= 1
  {
    Wrong(1) + ([Tick(cfg.window - 1)] + (Wrong(cfg.maxAttempts - 1) + ([Tick(1)] + Wrong(cfg.maxAttempts))))
  }

  lemma {:induction false} FailedAppend(cfg: Config, s: State, steps: seq<Step>, more: seq<Step>, a: Time, b: Time)
    ensures FailedChecks(cfg, s, steps + more, a, b) ==
      FailedChecks(cfg, s, steps, a, b) + FailedChecks(cfg, Run(cfg, s, steps), more, a, b)
    decreases |steps|
  {
    if steps == [] {
      assert steps + more == more;
    } else {
      assert (steps + more)[1..] == steps[1..] + more;
      FailedAppend(cfg, Apply(cfg, s, steps[0]), steps[1..], more, a, b);
    }
  }

  /** n wrong passwords that the counter still allows all count, at one instant. */
  lemma {:induction false} WrongCounts(cfg: Config, s: State, n: nat, a: Time, b: Time)
    requires n <= cfg.maxAttempts && s.Counter() + n <= cfg.maxAttempts && cfg.window >= 1
    ensures FailedChecks(cfg, s, Wrong(n), a, b) == if a <= s.now < b then n else 0
    ensures n > 0 && !s.Live() ==> Run(cfg, s, Wrong(n)) == State(s.now, Some(Cell(n, Some(s.now + cfg.window))))
    ensures s.Live() && s.cell.value.expires.Some? ==>
      Run(cfg, s, Wrong(n)) == State(s.now, Some(s.cell.value.(count := s.cell.value.count + n)))
    decreases n
  {
    if n > 0 {
      assert Wrong(n)[1..] == Wrong(n - 1) && Wrong(n)[0] == Login(WrongPassword, true);
      WrongCounts(cfg, Apply(cfg, s, Wrong(n)[0]), n - 1, a, b);
    }
  }

  lemma TickCountsNone(cfg: Config, s: State, elapsed: nat, a: Time, b: Time)
    ensures FailedChecks(cfg, s, [Tick(elapsed)], a, b) == 0
    ensures Run(cfg, s, [Tick(elapsed)]) == s.(now := s.now + elapsed)
  {
    assert [Tick(elapsed)][1..] == [];
    assert Run(cfg, s.(now := s.now + elapsed), []) == s.(now := s.now + elapsed);
  }

  /** No smaller bound holds: this run meets it. */
  lemma RateBoundIsMet(cfg: Config)
    requires cfg.maxAttempts >= 1 && cfg.window >= 2
    ensures Guessing(WorstRun(cfg))
    ensures FailedChecks(cfg, State(0, None), WorstRun(cfg), 1, 1 + cfg.window) == 2 * cfg.maxAttempts - 1
  {
    WorstIsGuessing(cfg);
    hide Apply, FailedChecks, Run, FailsCheck, Wrong, Guessing;
    var w := cfg.window;
    var s0, s1, s2 := State(0, None), State(0, Some(Cell(1, Some(w)))), State(w - 1, Some(Cell(1, Some(w))));
    WrongCounts(cfg, s0, 1, 1, 1 + w);
    TickCountsNone(cfg, s1, w - 1, 1, 1 + w);
    var c := Wrong(cfg.maxAttempts - 1) + ([Tick(1)] + Wrong(cfg.maxAttempts));
    SecondHalf(cfg);
    FailedAppend(cfg, s1, [Tick(w - 1)], c, 1, 1 + w);
    FailedAppend(cfg, s0, Wrong(1), [Tick(w - 1)] + c, 1, 1 + w);
  }

  lemma WorstIsGuessing(cfg: Config)
    requires cfg.maxAttempts >= 1 && cfg.window >= 1
    ensures Guessing(WorstRun(cfg))
  {
  }

  /** From the last instant of the first window on. */
  lemma SecondHalf(cfg: Config)
    requires cfg.maxAttempts >= 1 && cfg.window >= 2
    ensures var w, max := cfg.window, cfg.maxAttempts;
      FailedChecks(cfg, State(w - 1, Some(Cell(1, Some(w)))), Wrong(max - 1) + ([Tick(1)] + Wrong(max)), 1, 1 + w) == 2 * max - 1
  {
    var max, w := cfg.maxAttempts, cfg.window;
    hide Apply, FailedChecks, Run, FailsCheck, Wrong;
    var s2 := State(w - 1, Some(Cell(1, Some(w))));
    var s3, s4 := State(w - 1, Some(Cell(max, Some(w)))), State(w, Some(Cell(max, Some(w))));
    WrongCounts(cfg, s2, max - 1, 1, 1 + w);
    TickCountsNone(cfg, s3, 1, 1, 1 + w);
    WrongCounts(cfg, s4, max, 1, 1 + w);
    FailedAppend(cfg, s3, [Tick(1)], Wrong(max), 1, 1 + w);
    FailedAppend(cfg, s2, Wrong(max - 1), [Tick(1)] + Wrong(max), 1, 1 + w);
  }

  /** A blocked account stays blocked until its window ends, whatever is tried. */
  lemma {:induction false} BlockedUntilWindowEnds(cfg: Config, s: State, steps: seq<Step>)
    requires s.Live() && s.cell.value.expires.Some? && s.cell.value.count >= cfg.maxAttempts
    requires forall i :: 0 <= i < |steps| && steps[i].Login? ==> steps[i].up
    ensures Run(cfg, s, steps).now < s.cell.value.expires.value ==> Blocked(cfg, Run(cfg, s, steps), true)
    ensures Run(cfg, s, steps).now >= s.now
    decreases |steps|
  {
    if steps != [] {
      var s' := Apply(cfg, s, steps[0]);
      if s'.Live() {
        BlockedUntilWindowEnds(cfg, s', steps[1..]);
      } else {
        ClockAdvances(cfg, s', steps[1..]);
      }
    }
  }

  /** While a window runs the counter goes up by one with each failed check, and with nothing else. */
  lemma {:induction false} CounterGrowsByFailures(cfg: Config, s: State, steps: seq<Step>, a: Time)
    requires s.Live() && s.cell.value.expires.Some? && Guessing(steps) && a <= s.now
    requires Run(cfg, s, steps).now < s.cell.value.expires.value
    ensures Run(cfg, s, steps).Live() && Run(cfg, s, steps).cell.value.expires == s.cell.value.expires
    ensures Run(cfg, s, steps).Counter() == s.Counter() + FailedChecks(cfg, s, steps, a, s.cell.value.expires.value)
    decreases |steps|
  {
    if steps != [] {
      var s' := Apply(cfg, s, steps[0]);
      ClockAdvances(cfg, s', steps[1..]);
      CounterGrowsByFailures(cfg, s', steps[1..], a);
    }
  }

  /** From the failure that opens a window until the window ends, an email is blocked exactly when the checks that failed
      since then, that one included, have reached the limit. */
  lemma BlockedIffFailuresReachLimit(cfg: Config, s: State, steps: seq<Step>)
    requires !s.Live() && steps != [] && FailsCheck(cfg, s, steps[0]) && Guessing(steps) && cfg.window >= 1
    requires Run(cfg, s, steps).now < s.now + cfg.window
    ensures Run(cfg, s, steps).Counter() == FailedChecks(cfg, s, steps, s.now, s.now + cfg.window)
    ensures Blocked(cfg, Run(cfg, s, steps), true) <==> FailedChecks(cfg, s, steps, s.now, s.now + cfg.window) >= cfg.maxAttempts
  {
    CounterGrowsByFailures(cfg, Apply(cfg, s, steps[0]), steps[1..], s.now);
  }

  lemma {:induction false} ClockAdvances(cfg: Config, s: State, steps: seq<Step>)
    ensures Run(cfg, s, steps).now >= s.now
    decreases |steps|
  {
    if steps != [] { ClockAdvances(cfg, Apply(cfg, s, steps[0]), steps[1..]); }
  }

  // ---- runs with successes ----

  /** The cache is up throughout. */
  predicate CacheUp(steps: seq<Step>) {
    forall i :: 0 <= i < |steps| && steps[i].Login? ==> steps[i].up
  }

  /** One step adds the failure of a check, and an accepted login forgets them all. */
  function FailuresAfter(cfg: Config, s: State, step: Step, earlier: seq<Time>): seq<Time> {
    if FailsCheck(cfg, s, step) then earlier + [s.now]
    else if step.Login? && step.credentials.Correct? && !Blocked(cfg, s, step.up) then []
    else earlier
  }

  /** When the checks failed that came after the latest accepted login, `earlier` being those from before the run. */
  function FailuresSinceAccepted(cfg: Config, s: State, steps: seq<Step>, earlier: seq<Time>): seq<Time>
    decreases |steps|
  {
    if steps == [] then earlier
    else FailuresSinceAccepted(cfg, Apply(cfg, s, steps[0]), steps[1..], FailuresAfter(cfg, s, steps[0], earlier))
  }

  /** The last of these times together with the earlier ones of its window: a window is opened by a failure that finds none
      open, and takes the failures of the time `window` from there. */
  function LastWindow(times: seq<Time>, window: nat): (last: seq<Time>)
    ensures |last| <= |times| && last == times[|times| - |last|..] && (times != [] ==> last != [])
    ensures forall k :: 0 < k < |last| ==> last[k] < last[0] + window
    decreases |times|
  {
    if times == [] then []
    else
      var t, before := times[|times| - 1], LastWindow(times[..|times| - 1], window);
      if before != [] && t < before[0] + window then before + [t] else [t]
  }

  /** The failures of the window that is open now. */
  function OpenWindow(times: seq<Time>, now: Time, window: nat): seq<Time> {
    var last := LastWindow(times, window);
    if last != [] && now < last[0] + window then last else []
  }

  ghost predicate Tracks(cfg: Config, s: State, times: seq<Time>) {
    if times == [] then s.cell.None?
    else
      var last := LastWindow(times, cfg.window);
      s.cell == Some(Cell(|last|, Some(last[0] + cfg.window)))
  }

  lemma OneMoreFailure(times: seq<Time>, t: Time, window: nat)
    ensures LastWindow(times + [t], window) ==
      if OpenWindow(times, t, window) != [] then LastWindow(times, window) + [t] else [t]
  {
    assert (times + [t])[..|times|] == times;
  }

  lemma StepTracks(cfg: Config, s: State, step: Step, earlier: seq<Time>)
    requires (step.Login? ==> step.up) && Tracks(cfg, s, earlier)
    ensures Tracks(cfg, Apply(cfg, s, step), FailuresAfter(cfg, s, step, earlier))
  {
    hide LastWindow, Tracks;
    FailureTracks(cfg, s, earlier);
    assert Tracks(cfg, s.(cell := None), []) by { NothingTracks(cfg, s); }
    TickTracks(cfg, s, step, earlier);
    hide State.Increment, Blocked;
  }

  lemma NothingTracks(cfg: Config, s: State)
    ensures Tracks(cfg, s.(cell := None), [])
  {
  }

  lemma TickTracks(cfg: Config, s: State, step: Step, earlier: seq<Time>)
    requires Tracks(cfg, s, earlier)
    ensures step.Tick? ==> Tracks(cfg, s.(now := s.now + step.elapsed), earlier)
  {
  }

  lemma FailureTracks(cfg: Config, s: State, earlier: seq<Time>)
    requires Tracks(cfg, s, earlier)
    ensures Tracks(cfg, s.Increment(cfg.window), earlier + [s.now])
  {
    OneMoreFailure(earlier, s.now, cfg.window);
    hide LastWindow;
  }

  lemma {:induction false} RunTracks(cfg: Config, s: State, steps: seq<Step>, earlier: seq<Time>)
    requires CacheUp(steps) && Tracks(cfg, s, earlier)
    ensures Tracks(cfg, Run(cfg, s, steps), FailuresSinceAccepted(cfg, s, steps, earlier))
    decreases |steps|
  {
    hide Apply, FailuresAfter, Tracks;
    if steps != [] {
      StepTracks(cfg, s, steps[0], earlier);
      RunTracks(cfg, Apply(cfg, s, steps[0]), steps[1..], FailuresAfter(cfg, s, steps[0], earlier));
    }
  }

  /** With the cache up, whatever logins succeed on the way: an email is blocked exactly when the checks that failed since its
      latest accepted login and since the failure that opened the running window have reached the limit. */
  lemma BlockedIff(cfg: Config, start: Time, steps: seq<Step>)
    requires CacheUp(steps)
    ensures
      var end := Run(cfg, State(start, None), steps);
      var failures := OpenWindow(FailuresSinceAccepted(cfg, State(start, None), steps, []), end.now, cfg.window);
      end.Counter() == |failures| && (Blocked(cfg, end, true) <==> |failures| >= cfg.maxAttempts)
  {
    RunTracks(cfg, State(start, None), steps, []);
  }

  predicate OnlyWrong(steps: seq<Step>) {
    forall i :: 0 <= i < |steps| ==> steps[i].Tick? || steps[i] == Login(WrongPassword, true)
  }

  function Logins(steps: seq<Step>): nat {
    if steps == [] then 0 else (if steps[0].Login? then 1 else 0) + Logins(steps[1..])
  }

  function Elapsed(steps: seq<Step>): nat {
    if steps == [] then 0 else (if steps[0].Tick? then steps[0].elapsed else 0) + Elapsed(steps[1..])
  }

  lemma {:induction false} WrongOnlyCounts(cfg: Config, s: State, steps: seq<Step>)
    requires OnlyWrong(steps) && s.Counter() <= cfg.maxAttempts
    requires s.Live() ==> s.cell.value.expires.Some? && s.now + Elapsed(steps) < s.cell.value.expires.value
    requires !s.Live() ==> Elapsed(steps) < cfg.window
    ensures Run(cfg, s, steps).Counter() ==
      if s.Counter() + Logins(steps) <= cfg.maxAttempts then s.Counter() + Logins(steps) else cfg.maxAttempts
    decreases |steps|
  {
    if steps != [] {
      WrongOnlyCounts(cfg, Apply(cfg, s, steps[0]), steps[1..]);
    }
  }

  /** An accepted login gives the email its whole allowance back: n wrong passwords in the window after it leave the email
      unblocked exactly when n is below the limit. */
  lemma AcceptedLoginRestoresTheAllowance(cfg: Config, s: State, steps: seq<Step>)
    requires !Blocked(cfg, s, true) && OnlyWrong(steps) && Elapsed(steps) < cfg.window
    ensures var end := Run(cfg, s, [Login(Correct, true)] + steps);
      !Blocked(cfg, end, true) <==> Logins(steps) < cfg.maxAttempts
  {
    assert ([Login(Correct, true)] + steps)[1..] == steps;
    WrongOnlyCounts(cfg, Apply(cfg, s, Login(Correct, true)), steps);
  }

  // ---- the limiter ----

  class Limiter {
    const cfg: Config
    var st: State

    /** Settings that make no sense fall back to the defaults, so the rate bound's premises always hold. */
    constructor (maxAttempts: int, window: int, now: Time)
      ensures cfg.maxAttempts == (if maxAttempts <= 0 then 10 else maxAttempts) >= 1
      ensures cfg.window == (if window <= 0 then 900_000_000 else window) >= 1
      ensures st == State(now, None)
    {
      cfg := Config(if maxAttempts <= 0 then DEFAULT_ATTEMPTS else maxAttempts, if window <= 0 then DEFAULT_WINDOW else window);
      st := State(now, None);
    }

    method IsBlocked(up: bool) returns (blocked: bool)
      ensures blocked == Blocked(cfg, st, up)
    {
      if !up { return false; }
      var n := st.Counter();
      blocked := n >= cfg.maxAttempts;
    }

    method RecordFailure(up: bool)
      modifies this
      ensures st == if up then old(st).Increment(cfg.window) else old(st)
    {
      if up { st := st.Increment(cfg.window); }
    }

    method Reset(up: bool)
      modifies this
      ensures st == if up then old(st).Delete() else old(st)
    {
      if up { st := st.Delete(); }
    }

    /** The login's order of checks: a blocked email learns nothing of its credentials, an unknown one is told
        the same as a wrong password. */
    method Login(credentials: Credentials, up: bool) returns (r: LoginResult, checked: bool)
      modifies this
      ensures st == Apply(cfg, old(st), Step.Login(credentials, up))
      ensures r.TooManyAttempts? <==> up && old(st).Counter() >= cfg.maxAttempts
      ensures checked <==> !r.TooManyAttempts?
      ensures r.InvalidCredentials? <==> checked && (credentials.UnknownEmail? || credentials.WrongPassword?)
      ensures up && r.Accepted? ==> st.Counter() == 0
      ensures up && r.InvalidCredentials? && cfg.window >= 1 ==> st.Counter() == old(st).Counter() + 1
      ensures r.TooManyAttempts? || r.AccountInactive? || !up ==> st == old(st)
      ensures r.Accepted? <==> checked && credentials.Correct?
      ensures r.AccountInactive? <==> checked && credentials.Inactive?
    {
      var blocked := IsBlocked(up);
      if blocked { return TooManyAttempts, false; }
      checked := true;
      if credentials.UnknownEmail? || credentials.WrongPassword? {
        RecordFailure(up);
        return InvalidCredentials, checked;
      }
      if credentials.Inactive? { return AccountInactive, checked; }
      Reset(up);
      r := Accepted;
    }
  }
}

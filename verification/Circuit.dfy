/** The circuit breaker in front of the broker's worker pool. Calls that time out while running
    are abandoned but keep occupying a worker; when abandoned calls fill the pool the breaker
    opens for a cooldown. The pool, the callers and the callbacks interleave freely. */
module Circuit {
  import opened Common

  type Call = int

  // ---------------------------------------------------------------- the breaker's own state

  datatype Breaker = Breaker(abandoned: set<Call>, openUntil: real)

  datatype Settings = Settings(workers: nat, cooldown: real)

  function WorkerCount(maxConcurrentSymbols: int): (w: nat)
    ensures 2 <= w <= 8
    ensures 2 <= maxConcurrentSymbols <= 8 ==> w == maxConcurrentSymbols
    ensures maxConcurrentSymbols < 2 ==> w == 2
    ensures maxConcurrentSymbols > 8 ==> w == 8
  {
    var wanted := if maxConcurrentSymbols == 0 then 1 else maxConcurrentSymbols;
    MaxInt(2, MinInt(8, wanted))
  }

  function CooldownSeconds(fetchTimeout: real, symbolCooldown: real): (c: real)
    ensures c > 0.0 <==> fetchTimeout > 0.0 || symbolCooldown > 0.0
    ensures fetchTimeout <= c && (symbolCooldown <= 30.0 ==> symbolCooldown <= c) && (symbolCooldown > 30.0 ==> 30.0 <= c)
    ensures c == fetchTimeout || (c == symbolCooldown && symbolCooldown <= 30.0) || (c == 30.0 && symbolCooldown > 30.0)
  {
    MaxReal(fetchTimeout, MinReal(symbolCooldown, 30.0))
  }

  function Configured(maxConcurrentSymbols: int, fetchTimeout: real, symbolCooldown: real): Settings {
    Settings(WorkerCount(maxConcurrentSymbols), CooldownSeconds(fetchTimeout, symbolCooldown))
  }

  function Extend(b: Breaker, g: Settings, active: nat, now: real): Breaker {
    if active >= g.workers then b.(openUntil := MaxReal(b.openUntil, now + g.cooldown)) else b
  }

  /** Registering an abandoned call. */
  function Track(b: Breaker, g: Settings, call: Call, done: set<Call>, now: real): Breaker {
    var added := b.(abandoned := b.abandoned + {call});
    Extend(added, g, |added.abandoned - done|, now)
  }

  /** The check made before every call: prune finished calls, extend when saturated. */
  function Prune(b: Breaker, g: Settings, done: set<Call>, now: real): Breaker {
    var pruned := b.(abandoned := b.abandoned - done);
    Extend(pruned, g, |pruned.abandoned|, now)
  }

  /** The breaker object; `done` is what the pool reports as finished at the moment of the call. */
  class Mt5Circuit {
    const settings: Settings
    var abandoned: set<Call>
    var openUntil: real

    constructor (settings: Settings)
      ensures this.settings == settings && State() == Breaker({}, 0.0)
    {
      this.settings := settings;
      abandoned, openUntil := {}, 0.0;
    }

    function State(): Breaker
      reads this
    {
      Breaker(abandoned, openUntil)
    }

    method TrackAbandonedCall(call: Call, done: set<Call>, now: real)
      modifies this
      ensures State() == Track(old(State()), settings, call, done, now)
    {
      abandoned := abandoned + {call};
      if |abandoned - done| >= settings.workers {
        openUntil := MaxReal(openUntil, now + settings.cooldown);
      }
    }

    method Forget(call: Call)
      modifies this`abandoned
      ensures abandoned == old(abandoned) - {call}
    {
      abandoned := abandoned - {call};
    }

    method CircuitIsOpen(done: set<Call>, now: real) returns (open: bool)
      modifies this
      ensures State() == Prune(old(State()), settings, done, now)
      ensures open <==> now < State().openUntil
    {
      abandoned := abandoned - done;
      if |abandoned| >= settings.workers {
        openUntil := MaxReal(openUntil, now + settings.cooldown);
      }
      open := now < openUntil;
    }
  }

  // ---------------------------------------------------------------- pool and breaker together

  /** `saturations` records the clock readings at which the breaker saw a full pool. */
  datatype State = State(
    breaker: Breaker,
    queued: set<Call>,
    running: set<Call>,
    done: set<Call>,
    timedOut: set<Call>,
    saturations: seq<real>)

  datatype Step =
    | Submit(call: Call)
    | Begin(call: Call)
    | Finish(call: Call)
    | TimeOut(call: Call)
    | TrackCall(call: Call, now: real)
    | ForgetCall(call: Call)
    | Check(now: real)

  predicate Enabled(g: Settings, s: State, step: Step) {
    match step
    case Submit(c) => c !in s.queued + s.running + s.done + s.timedOut + s.breaker.abandoned
    case Begin(c) => c in s.queued && |s.running| < g.workers
    case Finish(c) => c in s.running
    case TimeOut(c) => c in s.queued + s.running + s.done
    case TrackCall(c, _) => c in s.timedOut
    case ForgetCall(c) => c in s.done
    case Check(_) => true
  }

  predicate Saturated(g: Settings, s: State) {
    |s.breaker.abandoned - s.done| >= g.workers
  }

  function Noted(s: State, b: Breaker, saturated: bool, now: real): State {
    s.(breaker := b, saturations := if saturated then s.saturations + [now] else s.saturations)
  }

  /** A queued call that times out is cancelled; a running or finished one goes on to be tracked. */
  function Next(g: Settings, s: State, step: Step): State
    requires Enabled(g, s, step)
  {
    match step
    case Submit(c) => s.(queued := s.queued + {c})
    case Begin(c) => s.(queued := s.queued - {c}, running := s.running + {c})
    case Finish(c) => s.(running := s.running - {c}, done := s.done + {c})
    case TimeOut(c) =>
      if c in s.queued then s.(queued := s.queued - {c}) else s.(timedOut := s.timedOut + {c})
    case TrackCall(c, now) =>
      var added := s.(breaker := s.breaker.(abandoned := s.breaker.abandoned + {c}), timedOut := s.timedOut - {c});
      Noted(added, Track(s.breaker, g, c, s.done, now), Saturated(g, added), now)
    case ForgetCall(c) => s.(breaker := s.breaker.(abandoned := s.breaker.abandoned - {c}))
    case Check(now) => Noted(s, Prune(s.breaker, g, s.done, now), Saturated(g, s), now)
  }

  predicate Admits(g: Settings, s: State, now: real) {
    !(now < Prune(s.breaker, g, s.done, now).openUntil)
  }

  const Initial := State(Breaker({}, 0.0), {}, {}, {}, {}, [])

  ghost predicate IsRun(g: Settings, states: seq<State>, steps: seq<Step>) {
    && |states| == |steps| + 1
    && states[0] == Initial
    && forall i :: 0 <= i < |steps| ==>
         Enabled(g, states[i], steps[i]) && states[i + 1] == Next(g, states[i], steps[i])
  }

  // ---------------------------------------------------------------- invariants

  ghost predicate PoolConsistent(g: Settings, s: State) {
    && |s.running| <= g.workers
    && s.breaker.abandoned - s.done <= s.running
    && s.timedOut - s.done <= s.running
    && s.running !! s.done && s.queued !! s.running && s.queued !! s.done
  }

  /** The deadline is the latest saturation plus the cooldown, and nothing else. */
  ghost predicate DeadlineExplained(g: Settings, s: State) {
    && s.breaker.openUntil >= 0.0
    && (forall t :: t in s.saturations ==> t + g.cooldown <= s.breaker.openUntil)
    && (s.breaker.openUntil == 0.0 || exists t :: t in s.saturations && s.breaker.openUntil == t + g.cooldown)
  }

  lemma PoolStep(g: Settings, s: State, step: Step)
    requires PoolConsistent(g, s) && Enabled(g, s, step)
    ensures PoolConsistent(g, Next(g, s, step))
  {
    match step
    case Begin(c) => assert |s.running + {c}| == |s.running| + 1;
    case Finish(c) => SubsetSize(s.running - {c}, s.running);
    case _ =>
  }

  lemma DeadlineStep(g: Settings, s: State, step: Step)
    requires DeadlineExplained(g, s) && Enabled(g, s, step)
    ensures DeadlineExplained(g, Next(g, s, step))
    ensures s.breaker.openUntil <= Next(g, s, step).breaker.openUntil
  {
    var s' := Next(g, s, step);
    match step
    case TrackCall(c, now) => DeadlineExtends(g, s, s', now);
    case Check(now) => DeadlineExtends(g, s, s', now);
    case _ =>
  }

  lemma DeadlineExtends(g: Settings, s: State, s': State, now: real)
    requires DeadlineExplained(g, s)
    requires
      || (s'.saturations == s.saturations && s'.breaker.openUntil == s.breaker.openUntil)
      || (s'.saturations == s.saturations + [now]
          && s'.breaker.openUntil == MaxReal(s.breaker.openUntil, now + g.cooldown))
    ensures DeadlineExplained(g, s')
    ensures s.breaker.openUntil <= s'.breaker.openUntil
  {
    if s'.saturations == s.saturations + [now] {
      assert now in s'.saturations;
      if s'.breaker.openUntil == s.breaker.openUntil && s.breaker.openUntil != 0.0 {
        var t :| t in s.saturations && s.breaker.openUntil == t + g.cooldown;
        assert t in s'.saturations;
      }
    }
  }

  lemma {:induction false} RunInvariant(g: Settings, states: seq<State>, steps: seq<Step>, i: nat)
    requires IsRun(g, states, steps) && i < |states|
    ensures PoolConsistent(g, states[i]) && DeadlineExplained(g, states[i])
  {
    if i > 0 {
      RunInvariant(g, states, steps, i - 1);
      assert states[i - 1 + 1] == Next(g, states[i - 1], steps[i - 1]);
      PoolStep(g, states[i - 1], steps[i - 1]);
      DeadlineStep(g, states[i - 1], steps[i - 1]);
    }
  }

  /** Unfinished abandoned calls never exceed the workers, and a saturated breaker means that every
      worker is stuck on an abandoned call. */
  lemma AbandonedFitThePool(g: Settings, states: seq<State>, steps: seq<Step>, i: nat)
    requires IsRun(g, states, steps) && i < |states|
    ensures var s := states[i];
      && |s.breaker.abandoned - s.done| <= g.workers
      && (Saturated(g, s) <==> |s.running| == g.workers && s.running <= s.breaker.abandoned)
  {
    RunInvariant(g, states, steps, i);
    var s := states[i];
    SubsetSize(s.breaker.abandoned - s.done, s.running);
    if |s.running| == g.workers && s.running <= s.breaker.abandoned {
      SubsetSize(s.running, s.breaker.abandoned - s.done);
    }
  }

  lemma {:induction false} DeadlineNeverDecreases(g: Settings, states: seq<State>, steps: seq<Step>, i: nat, j: nat)
    requires IsRun(g, states, steps) && i <= j < |states|
    ensures states[i].breaker.openUntil <= states[j].breaker.openUntil
    decreases j - i
  {
    if i < j {
      DeadlineNeverDecreases(g, states, steps, i, j - 1);
      RunStepKeepsDeadline(g, states, steps, j - 1);
    }
  }

  lemma RunStepKeepsDeadline(g: Settings, states: seq<State>, steps: seq<Step>, k: nat)
    requires IsRun(g, states, steps) && k < |steps|
    ensures states[k].breaker.openUntil <= states[k + 1].breaker.openUntil
  {
    RunInvariant(g, states, steps, k);
    DeadlineStep(g, states[k], steps[k]);
  }

  /** Every saturation seen earlier in the run is still on record later. */
  lemma {:induction false} SaturationsAccumulate(g: Settings, states: seq<State>, steps: seq<Step>, i: nat, j: nat)
    requires IsRun(g, states, steps) && i <= j < |states|
    ensures states[i].saturations <= states[j].saturations
    decreases j - i
  {
    if i < j {
      SaturationsAccumulate(g, states, steps, i, j - 1);
      assert states[j - 1 + 1] == Next(g, states[j - 1], steps[j - 1]);
    }
  }

  /** A call is admitted exactly when a full cooldown has passed since every saturation seen so far,
      this very check included. */
  lemma AdmittedIff(g: Settings, states: seq<State>, steps: seq<Step>, i: nat, now: real)
    requires IsRun(g, states, steps) && i < |states| && now >= 0.0
    ensures Admits(g, states[i], now) <==>
              && (forall t :: t in states[i].saturations ==> t + g.cooldown <= now)
              && (Saturated(g, states[i]) ==> g.cooldown <= 0.0)
  {
    RunInvariant(g, states, steps, i);
    var s := states[i];
    assert Prune(s.breaker, g, s.done, now)
        == Extend(s.breaker.(abandoned := s.breaker.abandoned - s.done), g, |s.breaker.abandoned - s.done|, now);
  }

  /** The trace form: if the check at step j admits a call, then it saw free capacity, and every check
      or registration before it that saw a full pool lies at least one cooldown back. */
  lemma AdmissionRespectsCooldown(g: Settings, states: seq<State>, steps: seq<Step>, i: nat, j: nat)
    requires IsRun(g, states, steps) && i < j < |steps|
    requires steps[j].Check? && steps[j].now >= 0.0 && Admits(g, states[j], steps[j].now)
    ensures g.cooldown > 0.0 ==> |states[j].breaker.abandoned - states[j].done| < g.workers
    ensures steps[i].Check? && Saturated(g, states[i]) ==> steps[i].now + g.cooldown <= steps[j].now
    ensures steps[i].TrackCall? && Saturated(g, states[i + 1]) ==> steps[i].now + g.cooldown <= steps[j].now
  {
    AdmittedIff(g, states, steps, j, steps[j].now);
    SaturationsAccumulate(g, states, steps, i + 1, j);
    assert states[i + 1] == Next(g, states[i], steps[i]);
    if steps[i].Check? && Saturated(g, states[i]) {
      var n := |states[i].saturations|;
      assert states[i + 1].saturations[n] == steps[i].now;
      assert states[j].saturations[n] == steps[i].now;
      assert steps[i].now in states[j].saturations;
    }
    if steps[i].TrackCall? && Saturated(g, states[i + 1]) {
      var n := |states[i].saturations|;
      assert states[i + 1].saturations[n] == steps[i].now;
      assert states[j].saturations[n] == steps[i].now;
      assert steps[i].now in states[j].saturations;
    }
  }

  /** With any positive timeout or symbol cooldown configured, an admitting check always saw fewer stuck
      calls than the pool has workers, and came at least as long after every saturation as a call may
      take, and as the symbol cooldown up to half a minute. */
  lemma ConfiguredAdmission(maxConcurrentSymbols: int, fetchTimeout: real, symbolCooldown: real,
                            states: seq<State>, steps: seq<Step>, j: nat)
    requires fetchTimeout > 0.0 || symbolCooldown > 0.0
    requires IsRun(Configured(maxConcurrentSymbols, fetchTimeout, symbolCooldown), states, steps) && j < |steps|
    requires steps[j].Check? && steps[j].now >= 0.0
    requires Admits(Configured(maxConcurrentSymbols, fetchTimeout, symbolCooldown), states[j], steps[j].now)
    ensures |states[j].breaker.abandoned - states[j].done| < MaxInt(2, MinInt(8, maxConcurrentSymbols))
    ensures forall t :: t in states[j].saturations ==>
      t + fetchTimeout <= steps[j].now && t + MinReal(symbolCooldown, 30.0) <= steps[j].now
  {
    AdmittedIff(Configured(maxConcurrentSymbols, fetchTimeout, symbolCooldown), states, steps, j, steps[j].now);
    forall t | t in states[j].saturations
      ensures t + fetchTimeout <= steps[j].now && t + MinReal(symbolCooldown, 30.0) <= steps[j].now
    {
      assert t + CooldownSeconds(fetchTimeout, symbolCooldown) <= steps[j].now;
    }
  }
}

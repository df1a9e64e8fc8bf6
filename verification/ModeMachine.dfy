/** The runtime mode machine: operator calls and end-of-day monitor ticks over a guarded mode. */
module ModeMachine {
  import opened Common
  import opened Lifecycle

  // ---------------------------------------------------------------- policy

  /** What one guard read sees: no trading module, a failing query, or open positions and orders. */
  datatype Book = NoTradingModule | QueryFailed | Open(positions: nat, orders: nat)

  predicate SeesNothingOpen(b: Book) {
    b.NoTradingModule? || b == Open(0, 0)
  }

  predicate CanEnter(mode: Mode, b: Book) {
    mode != IngestOnly || SeesNothingOpen(b)
  }

  datatype EodAction = EodDisabled | EodRiskOff | EodIngestOnly

  datatype ModePolicy = ModePolicy(initial: Mode, action: EodAction)

  function ResolveAfterEod(action: EodAction, current: Option<Mode>, afterEod: bool, canIngestOnly: bool): Option<Mode> {
    if current != Some(Full) && current != Some(Observe) then None
    else if !afterEod then None
    else
      var target := if action.EodRiskOff? then RiskOff else IngestOnly;
      if target == IngestOnly && !canIngestOnly then Some(RiskOff) else Some(target)
  }

  function ResolveSessionStart(current: Option<Mode>, afterEod: bool, wasAuto: bool, initial: Mode): Option<Mode> {
    if !wasAuto || afterEod || current == Some(initial) then None else Some(initial)
  }

  // ---------------------------------------------------------------- steps

  /** The world at the moment a transition is applied: the guard's own read, whether a registry is
      configured, and how its calls turn out. */
  datatype World = World(book: Book, hasRegistry: bool, faults: Faults)

  datatype State = State(current: Option<Mode>, auto: bool, running: set<string>)

  datatype Step =
    | Operate(target: Mode, world: World)
    | Tick(afterEod: bool, firstRead: Book, world: World)

  datatype Setup = Setup(policy: ModePolicy, components: seq<Component>)

  predicate Accepted(target: Mode, w: World) {
    CanEnter(target, w.book) && w.hasRegistry
  }

  /** The guarded transition; a rejected one raises and changes nothing. */
  function Apply(g: Setup, s: State, target: Mode, w: World): State {
    if !Accepted(target, w) then s
    else State(Some(target), s.auto, AfterCalls(s.running, Plan(g.components, target), w.faults))
  }

  function Restore(g: Setup, s: State, step: Step): Option<Mode>
    requires step.Tick?
  {
    ResolveSessionStart(s.current, step.afterEod, s.auto, g.policy.initial)
  }

  function Degrade(g: Setup, s: State, step: Step): Option<Mode>
    requires step.Tick?
  {
    ResolveAfterEod(g.policy.action, s.current, step.afterEod, SeesNothingOpen(step.firstRead))
  }

  /** The automatic flag is written before the guard may still reject. */
  function Next(g: Setup, s: State, step: Step): State {
    match step
    case Operate(target, w) => Apply(g, s.(auto := false), target, w)
    case Tick(_, _, w) =>
      if Restore(g, s, step).Some? then Apply(g, s.(auto := false), Restore(g, s, step).value, w)
      else if Degrade(g, s, step).None? then s
      else Apply(g, s.(auto := true), Degrade(g, s, step).value, w)
  }

  const Initial := State(None, false, {})

  ghost predicate IsRun(g: Setup, states: seq<State>, steps: seq<Step>) {
    && |states| == |steps| + 1
    && states[0] == Initial
    && forall i :: 0 <= i < |steps| ==> states[i + 1] == Next(g, states[i], steps[i])
  }

  // ---------------------------------------------------------------- guarded entry

  /** The mode that a step tries to apply, if any. */
  function Target(g: Setup, s: State, step: Step): Option<Mode> {
    match step
    case Operate(target, _) => Some(target)
    case Tick(_, _, _) => if Restore(g, s, step).Some? then Restore(g, s, step) else Degrade(g, s, step)
  }

  /** The reading that ingest-only demands, field by field: the query worked, or there is no trading
      module at all, and there is neither a position nor an order. */
  ghost predicate EmptyBook(b: Book) {
    !b.QueryFailed? && (b.Open? ==> b.positions == 0 && b.orders == 0)
  }

  /** Ingest-only is entered only in a step whose guard read could be made and saw no position and no
      pending order. */
  lemma IngestOnlyNeedsEmptyBook(g: Setup, states: seq<State>, steps: seq<Step>, i: nat)
    requires IsRun(g, states, steps) && i < |steps|
    requires states[i].current != Some(IngestOnly) && states[i + 1].current == Some(IngestOnly)
    ensures var b := steps[i].world.book;
      !b.QueryFailed? && (b.Open? ==> b.positions == 0 && b.orders == 0)
  {
    assert states[i + 1] == Next(g, states[i], steps[i]);
  }

  /** The converse: with a registry, every attempt succeeds unless it aims at ingest-only while a
      query fails or a single position or order is open. */
  lemma AttemptSucceedsIff(g: Setup, states: seq<State>, steps: seq<Step>, i: nat, target: Mode)
    requires IsRun(g, states, steps) && i < |steps| && Target(g, states[i], steps[i]) == Some(target)
    ensures var w := steps[i].world;
      var refused := target == IngestOnly
        && (w.book.QueryFailed? || (w.book.Open? && (w.book.positions > 0 || w.book.orders > 0)));
      if w.hasRegistry && !refused then states[i + 1].current == Some(target)
      else states[i + 1].current == states[i].current && states[i + 1].running == states[i].running
  {
    assert states[i + 1] == Next(g, states[i], steps[i]);
  }

  /** A rejected transition leaves the mode and the components as they were; an accepted one sets the
      mode and leaves every component that did not fail running exactly if it supports that mode. */
  lemma TransitionOutcome(g: Setup, states: seq<State>, steps: seq<Step>, i: nat)
    requires IsRun(g, states, steps) && i < |steps| && DistinctNames(g.components)
    ensures var s, s', target := states[i], states[i + 1], Target(g, states[i], steps[i]);
      if target.Some? && Accepted(target.value, steps[i].world) then
        && s'.current == target
        && forall k :: 0 <= k < |g.components| && g.components[k].name !in steps[i].world.faults.failing ==>
             (g.components[k].name in s'.running <==> target.value in g.components[k].supported)
      else s'.current == s.current && s'.running == s.running
  {
    assert states[i + 1] == Next(g, states[i], steps[i]);
    var target := Target(g, states[i], steps[i]);
    if target.Some? {
      RunsIffSupported(states[i].running, g.components, target.value, steps[i].world.faults);
    }
  }

  // ---------------------------------------------------------------- stretches without an operator

  /** Steps lo..hi are monitor ticks that all see the same side of the end of day. */
  ghost predicate Stretch(steps: seq<Step>, lo: int, hi: int, afterEod: bool) {
    0 <= lo <= hi <= |steps| && forall k :: lo <= k < hi ==> steps[k].Tick? && steps[k].afterEod == afterEod
  }

  predicate Degraded(m: Option<Mode>) { m == Some(RiskOff) || m == Some(IngestOnly) }

  predicate Changes(states: seq<State>, k: int)
    requires 0 <= k < |states| - 1
  {
    states[k + 1].current != states[k].current
  }

  lemma {:induction false} DegradedStays(g: Setup, states: seq<State>, steps: seq<Step>, lo: nat, hi: nat)
    requires IsRun(g, states, steps) && Stretch(steps, lo, hi, true) && Degraded(states[lo].current)
    ensures states[hi].current == states[lo].current
  {
    if lo < hi {
      DegradedStays(g, states, steps, lo, hi - 1);
      assert states[hi - 1 + 1] == Next(g, states[hi - 1], steps[hi - 1]);
    }
  }

  /** An unbroken after-EOD stretch has at most one automatic change, into risk-off or ingest-only. */
  lemma AfterEodStretch(g: Setup, states: seq<State>, steps: seq<Step>, lo: nat, hi: nat, k: nat, l: nat)
    requires IsRun(g, states, steps) && Stretch(steps, lo, hi, true)
    requires lo <= k < hi && Changes(states, k)
    requires lo <= l < hi && Changes(states, l)
    ensures k == l && Degraded(states[k + 1].current)
  {
    var a, b := MinInt(k, l), MaxInt(k, l);
    assert states[a + 1] == Next(g, states[a], steps[a]);
    assert states[b + 1] == Next(g, states[b], steps[b]);
    if a < b {
      DegradedStays(g, states, steps, a + 1, b);
    }
  }

  /** After the close a tick always leaves a trading mode if a registry is there, unless it aims at
      ingest-only and the guard's second read is not of an empty book. It lands in risk-off exactly
      if that is the configured action or the first read is not of an empty book. */
  lemma AfterEodDegradesIff(g: Setup, states: seq<State>, steps: seq<Step>, i: nat)
    requires IsRun(g, states, steps) && i < |steps| && steps[i].Tick? && steps[i].afterEod
    requires states[i].current == Some(Full) || states[i].current == Some(Observe)
    ensures var toRiskOff := g.policy.action.EodRiskOff? || !EmptyBook(steps[i].firstRead);
      && (Changes(states, i) <==>
            steps[i].world.hasRegistry && (toRiskOff || EmptyBook(steps[i].world.book)))
      && (Changes(states, i) ==> states[i + 1].current == Some(if toRiskOff then RiskOff else IngestOnly))
      && states[i + 1].auto
  {
    assert states[i + 1] == Next(g, states[i], steps[i]);
  }

  /** After the close a tick does nothing at all in any other mode, or before a first mode was set. */
  lemma AfterEodLeavesOthers(g: Setup, states: seq<State>, steps: seq<Step>, i: nat)
    requires IsRun(g, states, steps) && i < |steps| && steps[i].Tick? && steps[i].afterEod
    requires states[i].current.None? || states[i].current == Some(RiskOff) || states[i].current == Some(IngestOnly)
    ensures states[i + 1] == states[i]
  {
    assert states[i + 1] == Next(g, states[i], steps[i]);
  }

  /** Before the close a tick changes the mode exactly when the last automatic step is still to be
      undone and the initial mode may be entered, and it then enters that mode. */
  lemma BeforeEodRestoresIff(g: Setup, states: seq<State>, steps: seq<Step>, i: nat)
    requires IsRun(g, states, steps) && i < |steps| && steps[i].Tick? && !steps[i].afterEod
    ensures Changes(states, i) <==>
      && states[i].auto && states[i].current != Some(g.policy.initial) && steps[i].world.hasRegistry
      && (g.policy.initial == IngestOnly ==> EmptyBook(steps[i].world.book))
    ensures Changes(states, i) ==> states[i + 1].current == Some(g.policy.initial)
  {
    assert states[i + 1] == Next(g, states[i], steps[i]);
  }

  /** The flag is down, so nothing is left to restore in this pre-EOD stretch. */
  lemma {:induction false} SettledStays(g: Setup, states: seq<State>, steps: seq<Step>, lo: nat, hi: nat)
    requires IsRun(g, states, steps) && Stretch(steps, lo, hi, false) && !states[lo].auto
    ensures states[hi].current == states[lo].current && !states[hi].auto
  {
    if lo < hi {
      SettledStays(g, states, steps, lo, hi - 1);
      assert states[hi - 1 + 1] == Next(g, states[hi - 1], steps[hi - 1]);
    }
  }

  /** An unbroken pre-EOD stretch has at most one automatic change, always to the initial mode. */
  lemma PreEodStretch(g: Setup, states: seq<State>, steps: seq<Step>, lo: nat, hi: nat, k: nat, l: nat)
    requires IsRun(g, states, steps) && Stretch(steps, lo, hi, false)
    requires lo <= k < hi && Changes(states, k)
    requires lo <= l < hi && Changes(states, l)
    ensures k == l && states[k + 1].current == Some(g.policy.initial)
  {
    var a, b := MinInt(k, l), MaxInt(k, l);
    assert states[a + 1] == Next(g, states[a], steps[a]);
    assert states[b + 1] == Next(g, states[b], steps[b]);
    if a < b {
      SettledStays(g, states, steps, a + 1, b);
    }
  }

  // ---------------------------------------------------------------- restoring

  predicate AttemptsDegrade(g: Setup, s: State, step: Step) {
    step.Tick? && Restore(g, s, step).None? && Degrade(g, s, step).Some?
  }

  predicate AttemptsRestore(g: Setup, s: State, step: Step) {
    step.Tick? && Restore(g, s, step).Some?
  }

  /** Step m attempted an after-EOD degradation, and since then up to n no operator call was made and
      no restore was attempted. */
  ghost predicate PendingSince(g: Setup, states: seq<State>, steps: seq<Step>, m: int, n: int) {
    && |states| == |steps| + 1
    && 0 <= m < n <= |steps|
    && AttemptsDegrade(g, states[m], steps[m])
    && forall k :: m < k < n ==> steps[k].Tick? && !AttemptsRestore(g, states[k], steps[k])
  }

  lemma {:induction false} FlagHasCause(g: Setup, states: seq<State>, steps: seq<Step>, n: nat)
    requires IsRun(g, states, steps) && n <= |steps| && states[n].auto
    ensures exists m :: PendingSince(g, states, steps, m, n)
  {
    var k := n - 1;
    assert states[k + 1] == Next(g, states[k], steps[k]);
    if AttemptsDegrade(g, states[k], steps[k]) {
      assert PendingSince(g, states, steps, k, n);
    } else {
      FlagHasCause(g, states, steps, k);
      var m :| PendingSince(g, states, steps, m, k);
      assert PendingSince(g, states, steps, m, n);
    }
  }

  /** A restore is attempted only if an after-EOD attempt occurred since the latest operator call. */
  lemma RestoreHasCause(g: Setup, states: seq<State>, steps: seq<Step>, n: nat)
    requires IsRun(g, states, steps) && n < |steps| && AttemptsRestore(g, states[n], steps[n])
    ensures exists m :: PendingSince(g, states, steps, m, n)
  {
    FlagHasCause(g, states, steps, n);
  }

  /** The first pre-EOD tick after an automatic degradation restores the initial mode exactly when the
      guard admits that mode; if it does not, no later tick of the same session tries again. */
  lemma SessionStartRestoresIff(g: Setup, states: seq<State>, steps: seq<Step>, n: nat, hi: nat)
    requires IsRun(g, states, steps) && Stretch(steps, n, hi, false) && n < hi
    requires states[n].auto && states[n].current != Some(g.policy.initial)
    ensures var w := steps[n].world;
      var enters := w.hasRegistry && (g.policy.initial == IngestOnly ==> EmptyBook(w.book));
      states[hi].current == if enters then Some(g.policy.initial) else states[n].current
  {
    assert states[n + 1] == Next(g, states[n], steps[n]);
    SettledStays(g, states, steps, n + 1, hi);
  }

  /** A concrete loss: configured ingest-only, switched to full by the operator, degraded after the
      close, rejected once at the next open because a position was still open. Later ticks see an
      empty book and still leave the session in risk-off. */
  lemma RestoreCanBeLost(components: seq<Component>) returns (states: seq<State>, steps: seq<Step>)
    ensures var g := Setup(ModePolicy(IngestOnly, EodRiskOff), components);
      && IsRun(g, states, steps) && |steps| == 4
      && steps[3] == Tick(false, Open(0, 0), World(Open(0, 0), true, Faults({}, {})))
      && states[2].current == states[4].current == Some(RiskOff)
  {
    var g := Setup(ModePolicy(IngestOnly, EodRiskOff), components);
    var empty, held := World(Open(0, 0), true, Faults({}, {})), World(Open(1, 0), true, Faults({}, {}));
    steps := [Operate(Full, held), Tick(true, Open(1, 0), held), Tick(false, Open(1, 0), held),
              Tick(false, Open(0, 0), empty)];
    var s1 := Next(g, Initial, steps[0]);
    var s2 := Next(g, s1, steps[1]);
    var s3 := Next(g, s2, steps[2]);
    states := [Initial, s1, s2, s3, Next(g, s3, steps[3])];
  }

  // ---------------------------------------------------------------- the controller object

  class RuntimeModeController {
    const policy: ModePolicy
    const registry: RuntimeComponentRegistry?
    var currentMode: Option<Mode>
    var isAutoTransitioned: bool
    var lastErrors: seq<Call>

    constructor (policy: ModePolicy, registry: RuntimeComponentRegistry?)
      ensures this.policy == policy && this.registry == registry
      ensures currentMode == None && !isAutoTransitioned && lastErrors == []
    {
      this.policy, this.registry := policy, registry;
      currentMode, isAutoTransitioned, lastErrors := None, false, [];
    }

    function Components(): seq<Component>
      reads this, registry
    {
      if registry == null then [] else registry.components
    }

    function View(): State
      reads this, registry
    {
      State(currentMode, isAutoTransitioned, if registry == null then {} else registry.running)
    }

    function Wiring(): Setup
      reads this, registry
    {
      Setup(policy, Components())
    }

    /** Guard, run the registry, record the mode; a rejection is reported and changes nothing. */
    method ApplyModeLocked(target: Mode, book: Book, faults: Faults) returns (ok: bool)
      modifies this`currentMode, this`lastErrors, registry
      ensures View() == Apply(Wiring(), old(View()), target, World(book, registry != null, faults))
      ensures ok ==> registry != null
      ensures ok && target == IngestOnly ==> !book.QueryFailed? && (book.Open? ==> book.positions == 0 && book.orders == 0)
      ensures !ok && registry != null ==>
        && target == IngestOnly
        && (book.QueryFailed? || (book.Open? && (book.positions > 0 || book.orders > 0)))
      ensures ok ==> lastErrors == FailedCalls(Plan(Components(), target), faults)
      ensures Components() == old(Components())
    {
      if !CanEnter(target, book) { return false; }
      if registry == null { return false; }
      var _, errors := registry.ApplyMode(target, faults);
      currentMode, lastErrors := Some(target), errors;
      ok := true;
    }

    /** The operator's call. */
    method ApplyMode(target: Mode, book: Book, faults: Faults) returns (ok: bool)
      modifies this, registry
      ensures View() == Next(Wiring(), old(View()), Operate(target, World(book, registry != null, faults)))
      ensures Components() == old(Components())
    {
      isAutoTransitioned := false;
      ok := ApplyModeLocked(target, book, faults);
    }

    /** One tick of the monitor. */
    method EvaluateAutoTransition(afterEod: bool, firstRead: Book, book: Book, faults: Faults)
      modifies this, registry
      ensures View() == Next(Wiring(), old(View()), Tick(afterEod, firstRead, World(book, registry != null, faults)))
      ensures Components() == old(Components())
    {
      var restore := ResolveSessionStart(currentMode, afterEod, isAutoTransitioned, policy.initial);
      if restore.Some? {
        isAutoTransitioned := false;
        var _ := ApplyModeLocked(restore.value, book, faults);
        return;
      }
      var target := ResolveAfterEod(policy.action, currentMode, afterEod, SeesNothingOpen(firstRead));
      if target.None? { return; }
      isAutoTransitioned := true;
      var _ := ApplyModeLocked(target.value, book, faults);
    }
  }
}

/** The process supervisor of a topology group: gated start-up, restart after exits with growing
    delays, retry of workers skipped at start-up, and shutdown. */
module Supervision {
  import opened Common
  import opened Runs

  // ---------------------------------------------------------------- exit classes and delays

  datatype ExitClass = Unknown | Normal | Fatal | Transient

  /** Zero is a normal exit, 1 to 127 is transient, a negative code or one from 128 on is fatal. */
  function ClassifyExitCode(code: Option<int>): (class_: ExitClass)
    ensures class_.Unknown? <==> code == None
    ensures class_.Normal? <==> code == Some(0)
    ensures class_.Transient? <==> code.Some? && 1 <= code.value <= 127
    ensures class_.Fatal? <==> code.Some? && (code.value <= -1 || 128 <= code.value)
  {
    match code
    case None => Unknown
    case Some(c) => if c == 0 then Normal else if c < 0 || c >= 128 then Fatal else Transient
  }

  function TwoTo(k: nat): nat { if k == 0 then 1 else 2 * TwoTo(k - 1) }

  /** Seconds to sleep before a restart; a normal exit counts as unexpected and is not fatal. */
  function RestartDelay(class_: ExitClass, restarts: nat): int {
    if class_.Fatal? then MinInt(60, MaxInt(5, TwoTo(MinInt(restarts + 1, 5))))
    else MinInt(30, MaxInt(1, TwoTo(MinInt(restarts, 4))))
  }

  lemma {:induction false} TwoToGrows(i: nat, j: nat)
    requires i <= j
    ensures 1 <= TwoTo(i) <= TwoTo(j)
    decreases j
  {
    if i < j { TwoToGrows(i, j - 1); } else if i > 0 { TwoToGrows(i - 1, j - 1); }
  }

  /** Delays never shrink with the restart count and stay in [5, 32] after a fatal exit, in [1, 16]
      after any other. */
  lemma DelaysGrowWithinBounds(class_: ExitClass, i: nat, j: nat)
    requires i <= j
    ensures RestartDelay(class_, i) <= RestartDelay(class_, j)
    ensures if class_.Fatal? then 5 <= RestartDelay(class_, j) <= 32 else 1 <= RestartDelay(class_, j) <= 16
  {
    TwoToGrows(MinInt(i + 1, 5), MinInt(j + 1, 5));
    TwoToGrows(MinInt(i, 4), MinInt(j, 4));
    TwoToGrows(MinInt(j + 1, 5), 5);
    TwoToGrows(MinInt(j, 4), 4);
    assert TwoTo(1) == 2 && TwoTo(2) == 4 && TwoTo(3) == 8 && TwoTo(4) == 16 && TwoTo(5) == 32;
  }

  /** The n-th entry of a schedule that stays at its fifth. */
  function Fifth(n: nat, a: int, b: int, c: int, d: int, e: int): int {
    if n == 0 then a else if n == 1 then b else if n == 2 then c else if n == 3 then d else e
  }

  /** The delays in seconds: 5, 5, 8, 16 and then 32 after a fatal exit, 1, 2, 4, 8 and then 16 after
      any other. */
  lemma DelayTable(class_: ExitClass, restarts: nat)
    ensures RestartDelay(class_, restarts)
         == if class_.Fatal? then Fifth(restarts, 5, 5, 8, 16, 32) else Fifth(restarts, 1, 2, 4, 8, 16)
  {
    assert TwoTo(1) == 2 && TwoTo(2) == 4 && TwoTo(3) == 8 && TwoTo(4) == 16 && TwoTo(5) == 32;
  }

  // ---------------------------------------------------------------- the machine

  datatype Group = Group(main: string, workers: seq<string>)

  function Instances(g: Group): seq<string> { [g.main] + g.workers }

  ghost predicate DistinctInstances(g: Group) {
    forall i, j :: 0 <= i < j < |Instances(g)| ==> Instances(g)[i] != Instances(g)[j]
  }

  datatype Managed = Managed(pid: nat, restarts: nat)

  datatype Event =
    | Gate(instance: string, ok: bool)
    | Spawned(instance: string, pid: nat)
    | Slept(instance: string, class_: ExitClass, seconds: int)

  datatype Phase = Starting(next: nat) | Monitoring | Stopped

  /** `alive` maps each live process to its instance, tracked by the supervisor or not. */
  datatype State = State(
    phase: Phase,
    managed: map<string, Managed>,
    pending: set<string>,
    alive: map<nat, string>,
    exits: map<nat, int>,
    nextPid: nat,
    log: seq<Event>)

  datatype Step =
    | StartNext(gate: bool, spawn: bool)
    | ProcessExits(pid: nat, code: int)
    | Restart(instance: string, gate: bool, spawn: bool)
    | RetryPending(worker: string, gate: bool, spawn: bool)
    | Shutdown

  predicate Enabled(g: Group, s: State, step: Step) {
    match step
    case StartNext(_, _) => s.phase.Starting? && s.phase.next < |Instances(g)|
    case ProcessExits(pid, _) => pid in s.alive
    case Restart(i, _, _) => s.phase.Monitoring? && i in s.managed && s.managed[i].pid in s.exits
    case RetryPending(w, _, _) => s.phase.Monitoring? && w in s.pending
    case Shutdown => !s.phase.Stopped?
  }

  function Logged(s: State, e: Event): State { s.(log := s.log + [e]) }

  /** A passed gate followed by process creation. */
  function Launch(s: State, i: string, restarts: nat): State {
    s.(managed := s.managed[i := Managed(s.nextPid, restarts)],
       alive := s.alive[s.nextPid := i],
       nextPid := s.nextPid + 1,
       log := s.log + [Gate(i, true)] + [Spawned(i, s.nextPid)])
  }

  /** Terminate or kill every tracked process and forget them all. */
  function Stop(s: State): State {
    s.(phase := Stopped,
       managed := map[],
       alive := map p | p in s.alive && !(exists i :: i in s.managed && s.managed[i].pid == p) :: s.alive[p])
  }

  function Advance(g: Group, s: State, next: nat): State {
    s.(phase := if next >= |Instances(g)| then Monitoring else Starting(next))
  }

  function Next(g: Group, s: State, step: Step): State
    requires Enabled(g, s, step)
  {
    match step
    case StartNext(gate, spawn) =>
      var k := s.phase.next;
      var i := Instances(g)[k];
      if gate && spawn then Advance(g, Launch(s, i, 0), k + 1)
      else if gate || k == 0 then Stop(Logged(s, Gate(i, gate)))
      else Advance(g, Logged(s.(pending := s.pending + {i}), Gate(i, false)), k + 1)
    case ProcessExits(pid, code) => s.(alive := s.alive - {pid}, exits := s.exits[pid := code])
    case Restart(i, gate, spawn) =>
      var m := s.managed[i];
      var class_ := ClassifyExitCode(Some(s.exits[m.pid]));
      var rested := Logged(s, Slept(i, class_, RestartDelay(class_, m.restarts)));
      if gate && spawn then Launch(rested, i, m.restarts + 1)
      else if gate || i == g.main then Stop(Logged(rested, Gate(i, gate)))
      else Logged(rested.(managed := s.managed[i := Managed(m.pid, m.restarts + 1)]), Gate(i, false))
    case RetryPending(w, gate, spawn) =>
      if gate && spawn then Launch(s.(pending := s.pending - {w}), w, 0) else Logged(s, Gate(w, gate))
    case Shutdown => Stop(s)
  }

  const Initial := State(Starting(0), map[], {}, map[], map[], 0, [])

  ghost predicate IsRun(g: Group, states: seq<State>, steps: seq<Step>) {
    && |states| == |steps| + 1
    && states[0] == Initial
    && forall i :: 0 <= i < |steps| ==>
         Enabled(g, states[i], steps[i]) && states[i + 1] == Next(g, states[i], steps[i])
  }

  // ---------------------------------------------------------------- tracking

  /** Every live process is the one that the supervisor tracks for its instance. */
  ghost predicate Tracked(s: State) {
    forall p :: p in s.alive ==> s.alive[p] in s.managed && s.managed[s.alive[p]].pid == p
  }

  ghost predicate PidsInOrder(s: State) {
    && (forall p :: p in s.alive ==> p < s.nextPid && p !in s.exits)
    && (forall p :: p in s.exits ==> p < s.nextPid)
    && (forall i :: i in s.managed ==> s.managed[i].pid < s.nextPid)
  }

  /** Instances handled so far are split between managed and pending, without overlap. */
  ghost predicate Split(g: Group, s: State) {
    s.phase.Stopped? ||
    var done := if s.phase.Starting? then s.phase.next else |Instances(g)|;
    && done <= |Instances(g)|
    && (forall k :: 0 <= k < done ==> (Instances(g)[k] in s.managed) != (Instances(g)[k] in s.pending))
    && (forall i :: i in s.managed || i in s.pending ==> exists k :: 0 <= k < done && Instances(g)[k] == i)
    && g.main !in s.pending
  }

  ghost predicate Sound(g: Group, s: State) {
    Tracked(s) && PidsInOrder(s) && Split(g, s)
  }

  lemma StartStep(g: Group, s: State, gate: bool, spawn: bool)
    requires DistinctInstances(g) && Sound(g, s) && Enabled(g, s, StartNext(gate, spawn))
    ensures Sound(g, Next(g, s, StartNext(gate, spawn)))
  {
    var k := s.phase.next;
    var i := Instances(g)[k];
    assert i !in s.managed && i !in s.pending;
    assert forall j :: 0 <= j < k ==> Instances(g)[j] != i;
    assert g.main == Instances(g)[0];
  }

  lemma RestartStep(g: Group, s: State, i: string, gate: bool, spawn: bool)
    requires Sound(g, s) && Enabled(g, s, Restart(i, gate, spawn))
    ensures Sound(g, Next(g, s, Restart(i, gate, spawn)))
  {
  }

  lemma RetryStep(g: Group, s: State, w: string, gate: bool, spawn: bool)
    requires Sound(g, s) && Enabled(g, s, RetryPending(w, gate, spawn))
    ensures Sound(g, Next(g, s, RetryPending(w, gate, spawn)))
  {
  }

  lemma SoundStep(g: Group, s: State, step: Step)
    requires DistinctInstances(g) && Sound(g, s) && Enabled(g, s, step)
    ensures Sound(g, Next(g, s, step))
  {
    match step
    case StartNext(gate, spawn) => StartStep(g, s, gate, spawn);
    case ProcessExits(_, _) =>
    case Restart(i, gate, spawn) => RestartStep(g, s, i, gate, spawn);
    case RetryPending(w, gate, spawn) => RetryStep(g, s, w, gate, spawn);
    case Shutdown =>
  }

  lemma {:induction false} RunSound(g: Group, states: seq<State>, steps: seq<Step>, n: nat)
    requires DistinctInstances(g) && IsRun(g, states, steps) && n < |states|
    ensures Sound(g, states[n])
  {
    if n > 0 {
      RunSound(g, states, steps, n - 1);
      assert states[n - 1 + 1] == Next(g, states[n - 1], steps[n - 1]);
      SoundStep(g, states[n - 1], steps[n - 1]);
    }
  }

  /** In every reachable state of a group with distinct instances: at most one live process per
      instance, stopping now leaves none alive, and once start-up is over every worker is either
      managed or pending, never both. */
  lemma SupervisorIsSafe(g: Group, states: seq<State>, steps: seq<Step>, n: nat)
    requires DistinctInstances(g) && IsRun(g, states, steps) && n < |states|
    ensures var s := states[n];
      && (forall p, q :: p in s.alive && q in s.alive && s.alive[p] == s.alive[q] ==> p == q)
      && Stop(s).alive == map[]
      && (s.phase.Monitoring? ==> forall w :: w in g.workers ==> (w in s.managed) != (w in s.pending))
      && (s.phase.Stopped? ==> s.alive == map[])
  {
    RunSound(g, states, steps, n);
    var s := states[n];
    if s.phase.Monitoring? {
      forall w | w in g.workers ensures (w in s.managed) != (w in s.pending) {
        var k :| 0 <= k < |g.workers| && g.workers[k] == w;
        assert Instances(g)[k + 1] == w;
      }
    }
    if s.phase.Stopped? { StoppedIsEmpty(g, states, steps, n); }
  }

  lemma {:induction false} StoppedIsEmpty(g: Group, states: seq<State>, steps: seq<Step>, n: nat)
    requires IsRun(g, states, steps) && n < |states| && states[n].phase.Stopped?
    ensures states[n].managed == map[]
  {
    assert states[n - 1 + 1] == Next(g, states[n - 1], steps[n - 1]);
    if states[n - 1].phase.Stopped? { StoppedIsEmpty(g, states, steps, n - 1); }
  }

  // ---------------------------------------------------------------- repeated instance names

  /** Everything passes and nothing exits: the state after k start-ups. */
  ghost function Smooth(g: Group, k: nat): (s: State)
    requires k <= |Instances(g)|
    ensures s.phase == (if k < |Instances(g)| then Starting(k) else Monitoring)
  {
    if k == 0 then Initial else Next(g, Smooth(g, k - 1), StartNext(true, true))
  }

  /** The first k instances were spawned with pids 0..k-1, and each is managed under its latest pid. */
  ghost predicate SmoothlyStarted(g: Group, s: State, k: nat) {
    && k <= |Instances(g)|
    && s.nextPid == k
    && (forall p: nat :: p < k ==> p in s.alive && s.alive[p] == Instances(g)[p])
    && (forall p: nat :: p < k ==> Instances(g)[p] in s.managed && s.managed[Instances(g)[p]].pid >= p)
  }

  lemma LaunchContinues(g: Group, s: State, k: nat)
    requires SmoothlyStarted(g, s, k) && k < |Instances(g)|
    ensures SmoothlyStarted(g, Advance(g, Launch(s, Instances(g)[k], 0), k + 1), k + 1)
  {
  }

  lemma SmoothNext(g: Group, k: nat)
    requires k < |Instances(g)|
    ensures Enabled(g, Smooth(g, k), StartNext(true, true))
    ensures Smooth(g, k + 1) == Next(g, Smooth(g, k), StartNext(true, true))
    ensures Smooth(g, k + 1) == Advance(g, Launch(Smooth(g, k), Instances(g)[k], 0), k + 1)
  {
  }

  lemma SmoothShapeStep(g: Group, s: State, k: nat)
    requires k < |Instances(g)| && s == Smooth(g, k) && SmoothlyStarted(g, s, k)
    ensures SmoothlyStarted(g, Smooth(g, k + 1), k + 1)
  {
    SmoothNext(g, k);
    LaunchContinues(g, s, k);
  }

  lemma NothingStarted(g: Group)
    ensures SmoothlyStarted(g, Smooth(g, 0), 0)
  {
  }

  lemma {:induction false} SmoothShape(g: Group, k: nat)
    requires k <= |Instances(g)|
    ensures SmoothlyStarted(g, Smooth(g, k), k)
  {
    if k == 0 {
      NothingStarted(g);
    } else {
      SmoothShape(g, k - 1);
      SmoothShapeStep(g, Smooth(g, k - 1), k - 1);
    }
  }

  /** The smooth start-up as a run. */
  lemma SmoothRun(g: Group, k: nat) returns (states: seq<State>, steps: seq<Step>)
    requires k <= |Instances(g)|
    ensures IsRun(g, states, steps) && |steps| == k && states[k] == Smooth(g, k)
  {
    states := seq(k + 1, i requires 0 <= i < k + 1 => Smooth(g, i));
    steps := seq(k, i requires 0 <= i < k => StartNext(true, true));
    forall i | 0 <= i < k ensures Enabled(g, states[i], steps[i]) && states[i + 1] == Next(g, states[i], steps[i]) {
      SmoothNext(g, i);
    }
  }

  lemma RepetitionUntracks(g: Group, s: State, a: nat, b: nat)
    requires a < b < |Instances(g)| && Instances(g)[a] == Instances(g)[b] && SmoothlyStarted(g, s, b + 1)
    ensures !Tracked(s)
  {
    assert a in s.alive && s.managed[s.alive[a]].pid >= b;
  }

  lemma FindRepetition(g: Group) returns (a: nat, b: nat)
    requires !DistinctInstances(g)
    ensures a < b < |Instances(g)| && Instances(g)[a] == Instances(g)[b]
  {
    a, b :| 0 <= a < b < |Instances(g)| && Instances(g)[a] == Instances(g)[b];
  }

  lemma RepetitionLeaks(g: Group) returns (states: seq<State>, steps: seq<Step>)
    requires !DistinctInstances(g)
    ensures IsRun(g, states, steps) && !Tracked(states[|steps|])
  {
    var a, b := FindRepetition(g);
    SmoothShape(g, b + 1);
    RepetitionUntracks(g, Smooth(g, b + 1), a, b);
    states, steps := SmoothRun(g, b + 1);
  }

  ghost predicate AlwaysTracked(g: Group) {
    forall states, steps :: IsRun(g, states, steps) ==> Tracked(states[|steps|])
  }

  /** Live processes are always tracked exactly when no instance is listed twice: nothing else in the
      configuration rules a repetition out, and a repeated name loses its first process. */
  lemma TrackedIffDistinct(g: Group)
    ensures AlwaysTracked(g) <==> DistinctInstances(g)
  {
    if DistinctInstances(g) {
      forall states, steps | IsRun(g, states, steps) ensures Tracked(states[|steps|]) {
        RunSound(g, states, steps, |steps|);
      }
    } else {
      var states, steps := RepetitionLeaks(g);
    }
  }

  /** A concrete leak: a group that lists one worker twice reaches an untracked live process. */
  lemma RepeatedWorkerLeaks(main: string, w: string) returns (states: seq<State>, steps: seq<Step>)
    ensures IsRun(Group(main, [w, w]), states, steps) && !Tracked(states[|steps|])
  {
    assert Instances(Group(main, [w, w]))[1] == Instances(Group(main, [w, w]))[2];
    states, steps := RepetitionLeaks(Group(main, [w, w]));
  }

  // ---------------------------------------------------------------- gates and restart counts

  ghost predicate SpawnsGated(log: seq<Event>) {
    forall k :: 0 <= k < |log| && log[k].Spawned? ==> k > 0 && log[k - 1] == Gate(log[k].instance, true)
  }

  lemma GatedOther(log: seq<Event>, e: Event)
    requires SpawnsGated(log) && !e.Spawned?
    ensures SpawnsGated(log + [e])
  {
  }

  lemma GatedLaunch(s: State, i: string, restarts: nat)
    requires SpawnsGated(s.log)
    ensures SpawnsGated(Launch(s, i, restarts).log)
  {
    GatedOther(s.log, Gate(i, true));
  }

  lemma GatedStep(g: Group, s: State, step: Step)
    requires SpawnsGated(s.log) && Enabled(g, s, step)
    ensures SpawnsGated(Next(g, s, step).log)
  {
    match step
    case StartNext(gate, spawn) =>
      var i := Instances(g)[s.phase.next];
      GatedLaunch(s, i, 0);
      GatedOther(s.log, Gate(i, gate));
    case Restart(i, gate, spawn) =>
      var m := s.managed[i];
      var class_ := ClassifyExitCode(Some(s.exits[m.pid]));
      var rested := Logged(s, Slept(i, class_, RestartDelay(class_, m.restarts)));
      GatedOther(s.log, Slept(i, class_, RestartDelay(class_, m.restarts)));
      GatedLaunch(rested, i, m.restarts + 1);
      GatedOther(rested.log, Gate(i, gate));
    case RetryPending(w, gate, spawn) =>
      GatedLaunch(s.(pending := s.pending - {w}), w, 0);
      GatedOther(s.log, Gate(w, gate));
    case ProcessExits(_, _) =>
    case Shutdown =>
  }

  /** Every spawn directly follows a passing gate check of the same instance. */
  lemma {:induction false} SpawnsFollowGates(g: Group, states: seq<State>, steps: seq<Step>, n: nat)
    requires IsRun(g, states, steps) && n < |states|
    ensures SpawnsGated(states[n].log)
  {
    if n > 0 {
      SpawnsFollowGates(g, states, steps, n - 1);
      assert states[n - 1 + 1] == Next(g, states[n - 1], steps[n - 1]);
      GatedStep(g, states[n - 1], steps[n - 1]);
    }
  }

  /** While an instance stays managed its restart count never goes back, so its delays never shrink. */
  lemma {:induction false} RestartCountsGrow(g: Group, states: seq<State>, steps: seq<Step>, m: nat, n: nat, i: string)
    requires DistinctInstances(g) && IsRun(g, states, steps) && m <= n < |states|
    requires i in states[m].managed && !states[n].phase.Stopped?
    ensures i in states[n].managed && states[m].managed[i].restarts <= states[n].managed[i].restarts
    decreases n - m
  {
    if m < n {
      RunSound(g, states, steps, n - 1);
      StepKeepsRestarts(g, states[n - 1], steps[n - 1], i);
      RestartCountsGrow(g, states, steps, m, n - 1, i);
    }
  }

  lemma StepKeepsRestarts(g: Group, s: State, step: Step, i: string)
    requires DistinctInstances(g) && Sound(g, s) && Enabled(g, s, step)
    ensures var s' := Next(g, s, step);
      && (s.phase.Stopped? ==> s'.phase.Stopped?)
      && (!s'.phase.Stopped? && i in s.managed ==>
            i in s'.managed && s.managed[i].restarts <= s'.managed[i].restarts)
  {
    if step.StartNext? {
      assert i in s.managed ==> Instances(g)[s.phase.next] != i;
    }
  }

  /** How often the steps restart the instance, or try to. */
  ghost function RestartSteps(steps: seq<Step>, i: string): nat {
    if steps == [] then 0
    else
      var n := |steps| - 1;
      RestartSteps(steps[..n], i) + (if steps[n].Restart? && steps[n].instance == i then 1 else 0)
  }

  lemma RestartStepsSnoc(steps: seq<Step>, step: Step, i: string)
    ensures RestartSteps(steps + [step], i)
         == RestartSteps(steps, i) + (if step.Restart? && step.instance == i then 1 else 0)
  {
    assert (steps + [step])[..|steps|] == steps;
  }

  /** The count of a managed instance is `n`; an instance that is not managed has none. */
  ghost predicate Counted(s: State, i: string, n: nat) {
    s.phase.Stopped? || (if i in s.managed then s.managed[i].restarts == n else n == 0)
  }

  lemma StepCounts(g: Group, s: State, step: Step, i: string, n: nat)
    requires DistinctInstances(g) && Sound(g, s) && Enabled(g, s, step) && Counted(s, i, n)
    ensures Counted(Next(g, s, step), i, n + (if step.Restart? && step.instance == i then 1 else 0))
  {
    if step.StartNext? {
      assert i in s.managed ==> Instances(g)[s.phase.next] != i;
    }
  }

  lemma RunStepCounts(g: Group, states: seq<State>, steps: seq<Step>, n: nat, i: string)
    requires DistinctInstances(g) && IsRun(g, states, steps) && n < |steps|
    requires Counted(states[n], i, RestartSteps(steps[..n], i))
    ensures Counted(states[n + 1], i, RestartSteps(steps[..n + 1], i))
  {
    RunSound(g, states, steps, n);
    StepCounts(g, states[n], steps[n], i, RestartSteps(steps[..n], i));
    RestartStepsSnoc(steps[..n], steps[n], i);
    assert steps[..n + 1] == steps[..n] + [steps[n]];
  }

  /** The restart count of a managed instance is exactly the number of restarts and refused restarts. */
  lemma {:induction false} RestartsAreCounted(g: Group, states: seq<State>, steps: seq<Step>, n: nat, i: string)
    requires DistinctInstances(g) && IsRun(g, states, steps) && n < |states|
    ensures Counted(states[n], i, RestartSteps(steps[..n], i))
  {
    if n > 0 {
      RestartsAreCounted(g, states, steps, n - 1, i);
      RunStepCounts(g, states, steps, n - 1, i);
    }
  }

  /** Every restart begins with the sleep that the exit code and the number of earlier restarts of the
      instance demand. */
  lemma RestartSleeps(g: Group, states: seq<State>, steps: seq<Step>, n: nat)
    requires DistinctInstances(g) && IsRun(g, states, steps) && n < |steps| && steps[n].Restart?
    ensures var i := steps[n].instance;
      && i in states[n].managed && states[n].managed[i].pid in states[n].exits
      && |states[n].log| < |states[n + 1].log|
      && var code, earlier := states[n].exits[states[n].managed[i].pid], RestartSteps(steps[..n], i);
         states[n + 1].log[|states[n].log|] ==
           if code < 0 || code >= 128 then Slept(i, Fatal, Fifth(earlier, 5, 5, 8, 16, 32))
           else if code == 0 then Slept(i, Normal, Fifth(earlier, 1, 2, 4, 8, 16))
           else Slept(i, Transient, Fifth(earlier, 1, 2, 4, 8, 16))
  {
    var i := steps[n].instance;
    assert states[n + 1] == Next(g, states[n], steps[n]);
    var code := states[n].exits[states[n].managed[i].pid];
    RestartsAreCounted(g, states, steps, n, i);
    DelayTable(ClassifyExitCode(Some(code)), states[n].managed[i].restarts);
    SleepComesFirst(g, states[n], steps[n]);
  }

  lemma SleepComesFirst(g: Group, s: State, step: Step)
    requires Enabled(g, s, step) && step.Restart?
    ensures var m := s.managed[step.instance];
      var class_ := ClassifyExitCode(Some(s.exits[m.pid]));
      && |s.log| < |Next(g, s, step).log|
      && Next(g, s, step).log[|s.log|] == Slept(step.instance, class_, RestartDelay(class_, m.restarts))
  {
  }

  // ---------------------------------------------------------------- what gate and spawn decide

  /** The instance has a new live process, tracked under its next pid with this restart count. */
  ghost predicate Started(s: State, t: State, i: string, restarts: nat) {
    && t.managed == s.managed[i := Managed(s.nextPid, restarts)]
    && t.alive == s.alive[s.nextPid := i]
    && t.nextPid == s.nextPid + 1
  }

  /** Nothing is started or stopped. */
  ghost predicate Untouched(s: State, t: State) {
    t.managed.Keys == s.managed.Keys && t.alive == s.alive && t.nextPid == s.nextPid
  }

  /** Start-up: a passed gate and a spawned process start the instance. A refused main or any failed
      process creation ends the group; a refused worker is parked and start-up goes on. */
  lemma StartOutcome(g: Group, states: seq<State>, steps: seq<Step>, n: nat)
    requires IsRun(g, states, steps) && n < |steps| && steps[n].StartNext?
    ensures var s, t, step := states[n], states[n + 1], steps[n];
      var i := Instances(g)[s.phase.next];
      && (step.gate && step.spawn ==> Started(s, t, i, 0) && t.pending == s.pending)
      && (t.phase.Stopped? <==> !(step.gate && step.spawn) && (step.gate || s.phase.next == 0))
      && (!step.gate && s.phase.next > 0 ==> Untouched(s, t) && t.pending == s.pending + {i})
      && (!t.phase.Stopped? ==>
            t.phase == if s.phase.next + 1 == |Instances(g)| then Monitoring else Starting(s.phase.next + 1))
  {
    assert states[n + 1] == Next(g, states[n], steps[n]);
  }

  /** Restart: a passed gate and a spawned process replace the exited one and count one more restart. A
      refused main or any failed process creation ends the group; a refused worker keeps its exited
      process and counts one more. */
  lemma RestartOutcome(g: Group, states: seq<State>, steps: seq<Step>, n: nat)
    requires IsRun(g, states, steps) && n < |steps| && steps[n].Restart?
    ensures var s, t, step, i := states[n], states[n + 1], steps[n], steps[n].instance;
      && i in s.managed && t.pending == s.pending
      && (step.gate && step.spawn ==> t.phase.Monitoring? && Started(s, t, i, s.managed[i].restarts + 1))
      && (t.phase.Stopped? <==> !(step.gate && step.spawn) && (step.gate || i == g.main))
      && (!step.gate && i != g.main ==>
            Untouched(s, t) && t.managed == s.managed[i := Managed(s.managed[i].pid, s.managed[i].restarts + 1)])
  {
    assert states[n + 1] == Next(g, states[n], steps[n]);
  }

  /** Retry of a parked worker: started if gate and spawn succeed, otherwise everything stays. */
  lemma RetryOutcome(g: Group, states: seq<State>, steps: seq<Step>, n: nat)
    requires IsRun(g, states, steps) && n < |steps| && steps[n].RetryPending?
    ensures var s, t, step, w := states[n], states[n + 1], steps[n], steps[n].worker;
      && t.phase.Monitoring?
      && (if step.gate && step.spawn then Started(s, t, w, 0) && t.pending == s.pending - {w}
          else t.managed == s.managed && Untouched(s, t) && t.pending == s.pending)
  {
    assert states[n + 1] == Next(g, states[n], steps[n]);
  }

  // ---------------------------------------------------------------- the supervisor object

  /** What a step makes of a state in which it is enabled. */
  ghost function Moves(g: Group): (State, Step) -> Option<State> {
    (s, step) => if Enabled(g, s, step) then Some(Next(g, s, step)) else None
  }

  /** A poll that does not stop the supervisor keeps the set of managed instances. */
  lemma PolledKeys(g: Group, s: State, i: string, gate: bool, spawn: bool, ready: bool, steps: seq<Step>, t: State)
    requires i in s.managed && s.phase.Monitoring? && Path(Moves(g), s, steps, t) && !t.phase.Stopped?
    requires steps == [] || steps == [Restart(i, gate, spawn)] || steps == [Restart(i, gate, spawn), Shutdown]
    ensures t.managed.Keys == s.managed.Keys && t.phase.Monitoring?
  {
    if steps != [] {
      assert steps[..0] == [];
      assert AfterSteps(Moves(g), s, [Restart(i, gate, spawn)][..0]) == Some(s);
    }
  }

  /** What the methods below do from the start is a run, so every result about runs applies to them. */
  lemma {:induction false} PathIsRun(g: Group, steps: seq<Step>, t: State) returns (states: seq<State>)
    requires Path(Moves(g), Initial, steps, t)
    ensures IsRun(g, states, steps) && states[|steps|] == t
    decreases |steps|
  {
    if steps == [] {
      states := [Initial];
    } else {
      var front, step, u := PathUnsnoc(Moves(g), Initial, steps, t);
      var before := PathIsRun(g, front, u);
      RunSnoc(g, before, front, step, t);
      states := before + [t];
    }
  }

  lemma RunSnoc(g: Group, states: seq<State>, steps: seq<Step>, step: Step, t: State)
    requires IsRun(g, states, steps) && Enabled(g, states[|steps|], step) && t == Next(g, states[|steps|], step)
    ensures IsRun(g, states + [t], steps + [step])
  {
    forall i | 0 <= i < |steps| + 1
      ensures Enabled(g, (states + [t])[i], (steps + [step])[i])
      ensures (states + [t])[i + 1] == Next(g, (states + [t])[i], (steps + [step])[i])
    {
      if i < |steps| {
        assert (states + [t])[i] == states[i] && (steps + [step])[i] == steps[i];
      }
    }
  }

  /** Each step starts the instance at its own position, counted from `from`. */
  ghost predicate StartSteps(steps: seq<Step>, from: nat, gate: nat -> bool, spawn: nat -> bool) {
    forall k :: 0 <= k < |steps| ==> steps[k] == StartNext(gate(from + k), spawn(from + k))
  }

  lemma StartStepsConcat(a: seq<Step>, b: seq<Step>, from: nat, gate: nat -> bool, spawn: nat -> bool)
    requires StartSteps(a, from, gate, spawn) && StartSteps(b, from + |a|, gate, spawn)
    ensures StartSteps(a + b, from, gate, spawn)
  {
  }

  class Supervisor {
    const group: Group
    var state: State
    var lastPendingRetryAt: real
    var unexpectedNormalExits: map<string, nat>

    constructor (group: Group)
      ensures this.group == group && state == Initial && lastPendingRetryAt == 0.0
      ensures unexpectedNormalExits == map[]
    {
      this.group, state, lastPendingRetryAt, unexpectedNormalExits := group, Initial, 0.0, map[];
    }

    function NormalExits(i: string): nat
      reads this
    {
      if i in unexpectedNormalExits then unexpectedNormalExits[i] else 0
    }

    /** Start one instance: a refused worker is parked, a refused main or a failed spawn ends it all. */
    method StartInstance(k: nat, gate: bool, spawn: bool)
      requires k < |Instances(group)| && state.phase == Starting(k)
      modifies this`state
      ensures state == Next(group, old(state), StartNext(gate, spawn))
    {
      var i := Instances(group)[k];
      if !gate {
        if k == 0 {
          state := Stop(Logged(state, Gate(i, false)));
        } else {
          state := Advance(group, Logged(state.(pending := state.pending + {i}), Gate(i, false)), k + 1);
        }
      } else if !spawn {
        state := Stop(Logged(state, Gate(i, true)));
      } else {
        state := Advance(group, Launch(state, i, 0), k + 1);
      }
    }

    /** Start-up: main first, which must become ready, then the workers in order. */
    method StartInitial(gate: nat -> bool, spawn: nat -> bool, ready: bool) returns (ghost steps: seq<Step>)
      requires state == Initial
      modifies this`state
      ensures Path(Moves(group), Initial, steps, state)
      ensures StartSteps(steps, 0, gate, spawn) || (!ready && steps == [StartNext(gate(0), spawn(0)), Shutdown])
      ensures state.phase.Stopped? || (ready && state.phase.Monitoring? && |steps| == |Instances(group)|)
      ensures !gate(0) || !spawn(0) || !ready ==> state.phase.Stopped?
    {
      steps := StartMain(gate(0), spawn(0), ready);
      if state.phase.Stopped? { return; }
      ghost var started := state;
      ghost var rest := StartWorkers(gate, spawn);
      PathConcat(Moves(group), Initial, steps, started, rest, state);
      StartStepsConcat(steps, rest, 0, gate, spawn);
      steps := steps + rest;
    }

    method StartWorkers(gate: nat -> bool, spawn: nat -> bool) returns (ghost steps: seq<Step>)
      requires if 1 < |Instances(group)| then state.phase == Starting(1) else state.phase.Monitoring?
      modifies this`state
      ensures Path(Moves(group), old(state), steps, state)
      ensures StartSteps(steps, 1, gate, spawn)
      ensures state.phase.Stopped? || (state.phase.Monitoring? && |steps| + 1 == |Instances(group)|)
    {
      steps := [];
      var k := 1;
      while k < |Instances(group)|
        invariant 1 <= k <= |Instances(group)| && |steps| + 1 == k
        invariant Path(Moves(group), old(state), steps, state)
        invariant StartSteps(steps, 1, gate, spawn)
        invariant if k < |Instances(group)| then state.phase == Starting(k) else state.phase.Monitoring?
      {
        PathSnoc(Moves(group), old(state), steps, state, StartNext(gate(k), spawn(k)));
        StartStepsConcat(steps, [StartNext(gate(k), spawn(k))], 1, gate, spawn);
        steps := steps + [StartNext(gate(k), spawn(k))];
        StartInstance(k, gate(k), spawn(k));
        if state.phase.Stopped? { return; }
        k := k + 1;
      }
    }

    method StartMain(gate: bool, spawn: bool, ready: bool) returns (ghost steps: seq<Step>)
      requires state == Initial
      modifies this`state
      ensures Path(Moves(group), Initial, steps, state)
      ensures steps == [StartNext(gate, spawn)] || (steps == [StartNext(gate, spawn), Shutdown] && !ready)
      ensures state.phase.Stopped? <==> !(gate && spawn && ready)
      ensures !state.phase.Stopped? ==> steps == [StartNext(gate, spawn)]
      ensures !state.phase.Stopped? ==> if 1 < |Instances(group)| then state.phase == Starting(1) else state.phase.Monitoring?
    {
      PathOne(Moves(group), state, StartNext(gate, spawn), Next(group, state, StartNext(gate, spawn)));
      steps := [StartNext(gate, spawn)];
      StartInstance(0, gate, spawn);
      if !state.phase.Stopped? && !ready {
        PathSnoc(Moves(group), Initial, steps, state, Shutdown);
        steps := steps + [Shutdown];
        StopAll();
      }
    }

    /** One instance of the monitor sweep: nothing while it lives, otherwise sleep, gate, restart, and
        for main wait until it is ready. */
    method PollInstance(i: string, gate: bool, spawn: bool, ready: bool) returns (ghost steps: seq<Step>)
      requires state.phase.Monitoring? && i in state.managed
      modifies this`state, this`unexpectedNormalExits
      ensures var m := old(state).managed[i];
        && steps == (if m.pid !in old(state).exits then []
                     else if i == group.main && gate && spawn && !ready then [Restart(i, gate, spawn), Shutdown]
                     else [Restart(i, gate, spawn)])
        && NormalExits(i) == old(NormalExits(i)) + (if m.pid in old(state).exits && old(state).exits[m.pid] == 0 then 1 else 0)
      ensures Path(Moves(group), old(state), steps, state)
      ensures forall other :: other != i ==> NormalExits(other) == old(NormalExits(other))
    {
      steps := [];
      var m := state.managed[i];
      if m.pid !in state.exits { return; }
      var class_ := ClassifyExitCode(Some(state.exits[m.pid]));
      if class_.Normal? { unexpectedNormalExits := unexpectedNormalExits[i := NormalExits(i) + 1]; }
      PathOne(Moves(group), state, Restart(i, gate, spawn), Next(group, state, Restart(i, gate, spawn)));
      steps := [Restart(i, gate, spawn)];
      RestartInstance(i, class_, gate, spawn);
      if i == group.main && gate && spawn && !ready {
        PathSnoc(Moves(group), old(state), steps, state, Shutdown);
        steps := steps + [Shutdown];
        StopAll();
      }
    }

    method RestartInstance(i: string, class_: ExitClass, gate: bool, spawn: bool)
      requires state.phase.Monitoring? && i in state.managed && state.managed[i].pid in state.exits
      requires class_ == ClassifyExitCode(Some(state.exits[state.managed[i].pid]))
      modifies this`state
      ensures state == Next(group, old(state), Restart(i, gate, spawn))
    {
      var m := state.managed[i];
      state := Logged(state, Slept(i, class_, RestartDelay(class_, m.restarts)));
      if !gate {
        if i == group.main {
          state := Stop(Logged(state, Gate(i, false)));
        } else {
          state := Logged(state.(managed := state.managed[i := Managed(m.pid, m.restarts + 1)]), Gate(i, false));
        }
      } else if !spawn {
        state := Stop(Logged(state, Gate(i, true)));
      } else {
        state := Launch(state, i, m.restarts + 1);
      }
    }

    /** What the world does between two polls: the named processes that are alive exit. */
    method ObserveExits(exits: seq<(nat, int)>) returns (ghost steps: seq<Step>)
      requires state.phase.Monitoring?
      modifies this`state
      ensures Path(Moves(group), old(state), steps, state)
      ensures state.phase.Monitoring? && state.managed == old(state).managed
      ensures forall k :: 0 <= k < |steps| ==> steps[k].ProcessExits?
    {
      steps := [];
      for n := 0 to |exits|
        invariant Path(Moves(group), old(state), steps, state)
        invariant state.phase.Monitoring? && state.managed == old(state).managed
        invariant forall k :: 0 <= k < |steps| ==> steps[k].ProcessExits?
      {
        var (pid, code) := exits[n];
        if pid in state.alive {
          PathSnoc(Moves(group), old(state), steps, state, ProcessExits(pid, code));
          steps := steps + [ProcessExits(pid, code)];
          state := state.(alive := state.alive - {pid}, exits := state.exits[pid := code]);
        }
      }
    }

    /** One sweep of the monitor over a snapshot of the managed instances; processes may exit before
        every poll. */
    method MonitorSweep(
        snapshot: seq<string>, exits: nat -> seq<(nat, int)>, gate: nat -> bool, spawn: nat -> bool, ready: nat -> bool)
      returns (ghost steps: seq<Step>)
      requires state.phase.Monitoring? && forall i :: i in snapshot ==> i in state.managed
      modifies this`state, this`unexpectedNormalExits
      ensures Path(Moves(group), old(state), steps, state)
      ensures forall k :: 0 <= k < |steps| ==>
        || steps[k].ProcessExits?
        || (steps[k].Restart? && steps[k].instance in snapshot)
        || (steps[k].Shutdown? && group.main in snapshot)
      ensures state.phase.Stopped? || (state.phase.Monitoring? && state.managed.Keys == old(state.managed.Keys))
    {
      steps := [];
      for n := 0 to |snapshot|
        invariant Path(Moves(group), old(state), steps, state)
        invariant state.phase.Monitoring? && state.managed.Keys == old(state.managed.Keys)
        invariant forall k :: 0 <= k < |steps| ==>
          || steps[k].ProcessExits?
          || (steps[k].Restart? && steps[k].instance in snapshot)
          || (steps[k].Shutdown? && group.main in snapshot)
      {
        ghost var before := state;
        ghost var seen := ObserveExits(exits(n));
        PathConcat(Moves(group), old(state), steps, before, seen, state);
        steps := steps + seen;
        ghost var between := state;
        ghost var taken := PollInstance(snapshot[n], gate(n), spawn(n), ready(n));
        PathConcat(Moves(group), old(state), steps, between, taken, state);
        steps := steps + taken;
        if state.phase.Stopped? { return; }
        PolledKeys(group, between, snapshot[n], gate(n), spawn(n), ready(n), taken, state);
      }
    }

    method RetryWorker(w: string, gate: bool, spawn: bool)
      requires state.phase.Monitoring? && w in state.pending
      modifies this`state
      ensures state == Next(group, old(state), RetryPending(w, gate, spawn))
    {
      if !gate || !spawn {
        state := Logged(state, Gate(w, gate));
        return;
      }
      state := Launch(state.(pending := state.pending - {w}), w, 0);
    }

    /** Periodic retry of the parked workers, at most once per interval; a stop request ends it early. */
    method RetryPendingWorkers(
        now: real, interval: real, gate: string -> bool, spawn: string -> bool, stopping: string -> bool)
      returns (ghost steps: seq<Step>, stopped: bool)
      requires state.phase.Monitoring?
      modifies this`state, this`lastPendingRetryAt
      ensures Path(Moves(group), old(state), steps, state)
      ensures state.phase.Monitoring?
      ensures old(state).pending == {} || now - old(lastPendingRetryAt) < interval ==>
        state == old(state) && !stopped && lastPendingRetryAt == old(lastPendingRetryAt)
      ensures old(state).pending != {} && now - old(lastPendingRetryAt) >= interval ==>
        && lastPendingRetryAt == now
        && state.pending <= old(state).pending
        && (forall w :: w in old(state).pending && w !in state.pending ==> gate(w) && spawn(w))
        && (!stopped ==> forall w :: w in state.pending ==> !(gate(w) && spawn(w)))
        && (stopped ==> exists w :: w in state.pending && stopping(w))
      ensures forall k :: 0 <= k < |steps| ==> steps[k].RetryPending?
    {
      steps, stopped := [], false;
      if state.pending == {} { return; }
      if now - lastPendingRetryAt < interval { return; }
      lastPendingRetryAt := now;
      ghost var parked := state.pending;
      var rest := state.pending;
      while rest != {}
        invariant rest <= state.pending <= parked && state.phase.Monitoring? && lastPendingRetryAt == now
        invariant forall w :: w in parked && w !in state.pending ==> gate(w) && spawn(w)
        invariant forall w :: w in state.pending && w !in rest ==> !(gate(w) && spawn(w))
        invariant Path(Moves(group), old(state), steps, state)
        invariant forall k :: 0 <= k < |steps| ==> steps[k].RetryPending?
        decreases rest
      {
        var w :| w in rest;
        if stopping(w) {
          stopped := true;
          return;
        }
        PathSnoc(Moves(group), old(state), steps, state, RetryPending(w, gate(w), spawn(w)));
        steps := steps + [RetryPending(w, gate(w), spawn(w))];
        RetryWorker(w, gate(w), spawn(w));
        rest := rest - {w};
      }
    }

    /** Shutdown: terminate or kill every managed process, then forget them. */
    method StopAll()
      modifies this`state
      ensures state == Stop(old(state))
    {
      var rest, alive := state.managed.Keys, state.alive;
      while rest != {}
        invariant rest <= state.managed.Keys && state == old(state)
        invariant forall p :: p in alive <==>
          p in state.alive && !(exists i :: i in state.managed && i !in rest && state.managed[i].pid == p)
        invariant forall p :: p in alive ==> alive[p] == state.alive[p]
        decreases rest
      {
        var i :| i in rest;
        alive := alive - {state.managed[i].pid};
        rest := rest - {i};
      }
      state := state.(phase := Stopped, managed := map[], alive := alive);
    }
  }
}

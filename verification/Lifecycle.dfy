/** The registry that starts and stops runtime components on a mode change, under arbitrary
    partial failures. */
module Lifecycle {
  import opened Common

  datatype Mode = Full | Observe | RiskOff | IngestOnly

  datatype Component = Component(name: string, supported: set<Mode>)

  datatype Call = StartOf(name: string) | StopOf(name: string)

  /** How the calls of one application turn out: `failing` components raise, and whether such a
      component ends up running is anyone's guess, recorded in `leftover`. */
  datatype Faults = Faults(failing: set<string>, leftover: set<string>)

  ghost predicate DistinctNames(cs: seq<Component>) {
    forall i, j :: 0 <= i < j < |cs| ==> cs[i].name != cs[j].name
  }

  // ---------------------------------------------------------------- the call plan

  /** Start every supporting component, in registration order. */
  function Starts(cs: seq<Component>, mode: Mode): seq<Call> {
    if cs == [] then []
    else
      var n := |cs| - 1;
      if mode in cs[n].supported then Starts(cs[..n], mode) + [StartOf(cs[n].name)] else Starts(cs[..n], mode)
  }

  /** Stop every other component, in reverse registration order. */
  function Stops(cs: seq<Component>, mode: Mode): seq<Call> {
    if cs == [] then []
    else
      var n := |cs| - 1;
      if mode in cs[n].supported then Stops(cs[..n], mode) else [StopOf(cs[n].name)] + Stops(cs[..n], mode)
  }

  function Plan(cs: seq<Component>, mode: Mode): seq<Call> {
    Starts(cs, mode) + Stops(cs, mode)
  }

  function AfterCall(running: set<string>, call: Call, faults: Faults): set<string> {
    if call.name in faults.failing then
      (if call.name in faults.leftover then running + {call.name} else running - {call.name})
    else if call.StartOf? then running + {call.name}
    else running - {call.name}
  }

  function AfterCalls(running: set<string>, calls: seq<Call>, faults: Faults): set<string> {
    if calls == [] then running
    else AfterCall(AfterCalls(running, calls[..|calls| - 1], faults), calls[|calls| - 1], faults)
  }

  function FailedCalls(calls: seq<Call>, faults: Faults): seq<Call> {
    if calls == [] then []
    else
      var n := |calls| - 1;
      if calls[n].name in faults.failing then FailedCalls(calls[..n], faults) + [calls[n]]
      else FailedCalls(calls[..n], faults)
  }

  // ---------------------------------------------------------------- what the plan guarantees

  ghost function Names(calls: seq<Call>): seq<string> {
    seq(|calls|, i requires 0 <= i < |calls| => calls[i].name)
  }

  ghost function ComponentNames(cs: seq<Component>): seq<string> {
    seq(|cs|, i requires 0 <= i < |cs| => cs[i].name)
  }

  lemma NamesConcat(a: seq<Call>, b: seq<Call>)
    ensures Names(a + b) == Names(a) + Names(b)
  {
  }

  lemma NamesOfOne(call: Call)
    ensures Names([call]) == [call.name]
  {
  }

  lemma ComponentNamesSnoc(cs: seq<Component>, c: Component)
    ensures ComponentNames(cs + [c]) == ComponentNames(cs) + [c.name]
  {
  }

  /** One more component adds one call: a start at the end or a stop at the front. */
  lemma PlanSnoc(cs: seq<Component>, c: Component, mode: Mode)
    ensures mode in c.supported ==>
      Starts(cs + [c], mode) == Starts(cs, mode) + [StartOf(c.name)] && Stops(cs + [c], mode) == Stops(cs, mode)
    ensures mode !in c.supported ==>
      Starts(cs + [c], mode) == Starts(cs, mode) && Stops(cs + [c], mode) == [StopOf(c.name)] + Stops(cs, mode)
  {
    assert (cs + [c])[..|cs|] == cs;
  }

  ghost predicate CallsAll(cs: seq<Component>, mode: Mode) {
    multiset(Names(Starts(cs, mode))) + multiset(Names(Stops(cs, mode))) == multiset(ComponentNames(cs))
  }

  lemma {:induction false} PlanNames(cs: seq<Component>, mode: Mode)
    ensures CallsAll(cs, mode)
    decreases |cs|
  {
    if cs != [] {
      var front, c := Unsnoc(cs);
      PlanNames(front, mode);
      PlanNamesStep(front, c, mode);
    }
  }

  lemma PlanNamesStep(front: seq<Component>, c: Component, mode: Mode)
    requires CallsAll(front, mode)
    ensures CallsAll(front + [c], mode)
  {
    PlanSnoc(front, c, mode);
    ComponentNamesSnoc(front, c);
    if mode in c.supported {
      NamesConcat(Starts(front, mode), [StartOf(c.name)]);
      NamesOfOne(StartOf(c.name));
    } else {
      NamesConcat([StopOf(c.name)], Stops(front, mode));
      NamesOfOne(StopOf(c.name));
    }
  }

  /** Each registered component is called exactly once, whatever fails. */
  lemma EachCalledOnce(cs: seq<Component>, mode: Mode)
    ensures multiset(Names(Plan(cs, mode))) == multiset(ComponentNames(cs))
  {
    PlanNames(cs, mode);
    NamesConcat(Starts(cs, mode), Stops(cs, mode));
  }

  /** The call concerns the component registered at position a. */
  ghost predicate Concerns(cs: seq<Component>, a: int, call: Call) {
    0 <= a < |cs| && cs[a].name == call.name
  }

  /** Starts come in registration order. */
  lemma {:induction false} StartsInOrder(cs: seq<Component>, mode: Mode, i: nat, j: nat)
    requires i <= j < |Starts(cs, mode)|
    ensures exists a, b ::
      Concerns(cs, a, Starts(cs, mode)[i]) && Concerns(cs, b, Starts(cs, mode)[j]) && (if i < j then a < b else a == b)
  {
    var n := |cs| - 1;
    var front := Starts(cs[..n], mode);
    if j < |front| {
      StartsInOrder(cs[..n], mode, i, j);
      var a, b :| Concerns(cs[..n], a, front[i]) && Concerns(cs[..n], b, front[j]) && (if i < j then a < b else a == b);
      assert Concerns(cs, a, Starts(cs, mode)[i]) && Concerns(cs, b, Starts(cs, mode)[j]);
    } else if i < |front| {
      StartsInOrder(cs[..n], mode, i, i);
      var a, b :| Concerns(cs[..n], a, front[i]) && Concerns(cs[..n], b, front[i]) && a == b;
      assert Concerns(cs, a, Starts(cs, mode)[i]) && Concerns(cs, n, Starts(cs, mode)[j]);
    } else {
      assert Concerns(cs, n, Starts(cs, mode)[i]) && Concerns(cs, n, Starts(cs, mode)[j]);
    }
  }

  /** Stops come in reverse registration order. */
  lemma {:induction false} StopsReversed(cs: seq<Component>, mode: Mode, i: nat, j: nat)
    requires i <= j < |Stops(cs, mode)|
    ensures exists a, b ::
      Concerns(cs, a, Stops(cs, mode)[i]) && Concerns(cs, b, Stops(cs, mode)[j]) && (if i < j then a > b else a == b)
  {
    var n := |cs| - 1;
    var front := Stops(cs[..n], mode);
    if mode in cs[n].supported {
      StopsReversed(cs[..n], mode, i, j);
      var a, b :| Concerns(cs[..n], a, front[i]) && Concerns(cs[..n], b, front[j]) && (if i < j then a > b else a == b);
      assert Concerns(cs, a, Stops(cs, mode)[i]) && Concerns(cs, b, Stops(cs, mode)[j]);
    } else if i > 0 {
      StopsReversed(cs[..n], mode, i - 1, j - 1);
      var a, b :| Concerns(cs[..n], a, front[i - 1]) && Concerns(cs[..n], b, front[j - 1])
        && (if i < j then a > b else a == b);
      assert Concerns(cs, a, Stops(cs, mode)[i]) && Concerns(cs, b, Stops(cs, mode)[j]);
    } else if j > 0 {
      StopsReversed(cs[..n], mode, j - 1, j - 1);
      var a, b :| Concerns(cs[..n], a, front[j - 1]) && Concerns(cs[..n], b, front[j - 1]) && a == b;
      assert Concerns(cs, n, Stops(cs, mode)[i]) && Concerns(cs, b, Stops(cs, mode)[j]);
    } else {
      assert Concerns(cs, n, Stops(cs, mode)[i]) && Concerns(cs, n, Stops(cs, mode)[j]);
    }
  }

  lemma {:induction false} KindsOf(cs: seq<Component>, mode: Mode)
    ensures forall c :: c in Starts(cs, mode) ==> c.StartOf?
    ensures forall c :: c in Stops(cs, mode) ==> c.StopOf?
  {
    if cs != [] { KindsOf(cs[..|cs| - 1], mode); }
  }

  /** All starts, in registration order, precede all stops, in reverse registration order. */
  lemma PlanOrder(cs: seq<Component>, mode: Mode, i: nat, j: nat)
    requires i < j < |Plan(cs, mode)|
    ensures Plan(cs, mode)[j].StartOf? ==> Plan(cs, mode)[i].StartOf?
    ensures Plan(cs, mode)[i].StartOf? == Plan(cs, mode)[j].StartOf? ==>
      exists a, b :: Concerns(cs, a, Plan(cs, mode)[i]) && Concerns(cs, b, Plan(cs, mode)[j])
        && (if Plan(cs, mode)[i].StartOf? then a < b else a > b)
  {
    KindsOf(cs, mode);
    var k := |Starts(cs, mode)|;
    if j < k { StartsInOrder(cs, mode, i, j); }
    if i >= k { StopsReversed(cs, mode, i - k, j - k); }
    assert i < k ==> Plan(cs, mode)[i] in Starts(cs, mode);
    assert j < k ==> Plan(cs, mode)[j] in Starts(cs, mode);
    assert i >= k ==> Plan(cs, mode)[i] in Stops(cs, mode);
    assert j >= k ==> Plan(cs, mode)[j] in Stops(cs, mode);
  }

  lemma {:induction false} AfterCallsConcat(running: set<string>, a: seq<Call>, b: seq<Call>, faults: Faults)
    ensures AfterCalls(running, a + b, faults) == AfterCalls(AfterCalls(running, a, faults), b, faults)
  {
    if b == [] {
      assert a + b == a;
    } else {
      var n := |b| - 1;
      assert (a + b)[..|a| + n] == a + b[..n];
      AfterCallsConcat(running, a, b[..n], faults);
    }
  }

  /** Starting: a component that did not fail runs iff it was running before or was started. */
  lemma {:induction false} StartsEffect(running: set<string>, cs: seq<Component>, mode: Mode, faults: Faults)
    requires DistinctNames(cs)
    ensures var r := AfterCalls(running, Starts(cs, mode), faults);
      && (forall i :: 0 <= i < |cs| && cs[i].name !in faults.failing ==>
            (cs[i].name in r <==> mode in cs[i].supported || cs[i].name in running))
      && (forall x :: (forall i :: 0 <= i < |cs| ==> cs[i].name != x) ==> (x in r <==> x in running))
  {
    if cs != [] {
      var n := |cs| - 1;
      StartsEffect(running, cs[..n], mode, faults);
      if mode in cs[n].supported {
        var front := Starts(cs[..n], mode);
        assert (front + [StartOf(cs[n].name)])[..|front|] == front;
      }
      assert forall i :: 0 <= i < n ==> cs[..n][i] == cs[i];
    }
  }

  /** Calls that stop what does not support the mode, among components with the given names. */
  ghost predicate Stopped(before: set<string>, after: set<string>, cs: seq<Component>, mode: Mode, faults: Faults) {
    && (forall i :: 0 <= i < |cs| && cs[i].name !in faults.failing ==>
          (cs[i].name in after <==> mode in cs[i].supported && cs[i].name in before))
    && (forall x :: (forall i :: 0 <= i < |cs| ==> cs[i].name != x) ==> (x in after <==> x in before))
  }

  lemma StoppedSkips(before: set<string>, after: set<string>, front: seq<Component>, c: Component, mode: Mode, faults: Faults)
    requires DistinctNames(front + [c]) && mode in c.supported
    requires Stopped(before, after, front, mode, faults)
    ensures Stopped(before, after, front + [c], mode, faults)
  {
    NewNameIsApart(front, c);
    forall x | forall i :: 0 <= i < |front + [c]| ==> (front + [c])[i].name != x ensures x in after <==> x in before {
      assert forall i :: 0 <= i < |front| ==> front[i].name == (front + [c])[i].name;
    }
  }

  lemma StoppedExtends(before: set<string>, middle: set<string>, after: set<string>, front: seq<Component>, c: Component,
                       mode: Mode, faults: Faults)
    requires DistinctNames(front + [c]) && mode !in c.supported
    requires middle == AfterCall(before, StopOf(c.name), faults) && Stopped(middle, after, front, mode, faults)
    ensures Stopped(before, after, front + [c], mode, faults)
  {
    NewNameIsApart(front, c);
    forall x | forall i :: 0 <= i < |front + [c]| ==> (front + [c])[i].name != x ensures x in after <==> x in before {
      assert (front + [c])[|front|].name != x;
      assert forall i :: 0 <= i < |front| ==> front[i].name == (front + [c])[i].name;
    }
  }

  lemma NewNameIsApart(front: seq<Component>, c: Component)
    requires DistinctNames(front + [c])
    ensures DistinctNames(front) && forall i :: 0 <= i < |front| ==> front[i].name != c.name
  {
    assert forall i :: 0 <= i < |front| ==> (front + [c])[i] == front[i];
    assert (front + [c])[|front|] == c;
  }

  lemma OneCall(running: set<string>, call: Call, faults: Faults)
    ensures AfterCalls(running, [call], faults) == AfterCall(running, call, faults)
  {
    assert [call][..0] == [];
  }

  lemma {:induction false} StopsEffect(running: set<string>, cs: seq<Component>, mode: Mode, faults: Faults)
    requires DistinctNames(cs)
    ensures Stopped(running, AfterCalls(running, Stops(cs, mode), faults), cs, mode, faults)
    decreases |cs|
  {
    if cs != [] {
      var front, c := Unsnoc(cs);
      var rest := Stops(front, mode);
      PlanSnoc(front, c, mode);
      if mode in c.supported {
        StopsEffect(running, front, mode, faults);
        StoppedSkips(running, AfterCalls(running, rest, faults), front, c, mode, faults);
      } else {
        var middle := AfterCall(running, StopOf(c.name), faults);
        StopsEffect(middle, front, mode, faults);
        OneCall(running, StopOf(c.name), faults);
        AfterCallsConcat(running, [StopOf(c.name)], rest, faults);
        StoppedExtends(running, middle, AfterCalls(middle, rest, faults), front, c, mode, faults);
      }
    }
  }

  /** After the calls, every component whose call did not fail runs exactly if it supports the mode;
      what is not registered is untouched. */
  lemma RunsIffSupported(running: set<string>, cs: seq<Component>, mode: Mode, faults: Faults)
    requires DistinctNames(cs)
    ensures var r := AfterCalls(running, Plan(cs, mode), faults);
      && (forall i :: 0 <= i < |cs| && cs[i].name !in faults.failing ==>
            (cs[i].name in r <==> mode in cs[i].supported))
      && (forall x :: (forall i :: 0 <= i < |cs| ==> cs[i].name != x) ==> (x in r <==> x in running))
  {
    StartsEffect(running, cs, mode, faults);
    StopsEffect(AfterCalls(running, Starts(cs, mode), faults), cs, mode, faults);
    AfterCallsConcat(running, Starts(cs, mode), Stops(cs, mode), faults);
  }

  function AfterModes(running: set<string>, cs: seq<Component>, modes: seq<Mode>): set<string> {
    if modes == [] then running
    else AfterCalls(AfterModes(running, cs, modes[..|modes| - 1]), Plan(cs, modes[|modes| - 1]), Faults({}, {}))
  }

  /** After any failure-free sequence of modes, what runs depends on the last mode alone. */
  lemma LastModeDecides(cs: seq<Component>, before: seq<Mode>, before': seq<Mode>, mode: Mode,
                        running: set<string>, running': set<string>)
    requires DistinctNames(cs)
    ensures forall i :: 0 <= i < |cs| ==>
      (cs[i].name in AfterModes(running, cs, before + [mode]) <==>
       cs[i].name in AfterModes(running', cs, before' + [mode]))
  {
    assert (before + [mode])[..|before|] == before && (before' + [mode])[..|before'|] == before';
    RunsIffSupported(AfterModes(running, cs, before), cs, mode, Faults({}, {}));
    RunsIffSupported(AfterModes(running', cs, before'), cs, mode, Faults({}, {}));
  }

  lemma {:induction false} FailedCallsAreFailures(calls: seq<Call>, faults: Faults)
    ensures forall c :: c in FailedCalls(calls, faults) <==> c in calls && c.name in faults.failing
  {
    if calls != [] {
      var n := |calls| - 1;
      assert calls == calls[..n] + [calls[n]];
      FailedCallsAreFailures(calls[..n], faults);
    }
  }

  lemma {:induction false} FailedCallsConcat(a: seq<Call>, b: seq<Call>, faults: Faults)
    ensures FailedCalls(a + b, faults) == FailedCalls(a, faults) + FailedCalls(b, faults)
  {
    if b == [] {
      assert a + b == a;
    } else {
      var n := |b| - 1;
      assert (a + b)[..|a| + n] == a + b[..n];
      FailedCallsConcat(a, b[..n], faults);
    }
  }

  // ---------------------------------------------------------------- the registry object

  class RuntimeComponentRegistry {
    var components: seq<Component>
    var running: set<string>

    constructor ()
      ensures components == [] && running == {} && Valid()
    {
      components, running := [], {};
    }

    ghost predicate Valid()
      reads this
    {
      DistinctNames(components)
    }

    /** A new name goes to the end; a known name is replaced in its place. */
    method Register(c: Component)
      requires Valid()
      modifies this`components
      ensures Valid()
      ensures (exists i :: 0 <= i < |old(components)| && old(components)[i].name == c.name
                 && components == old(components)[i := c])
           || ((forall i :: 0 <= i < |old(components)| ==> old(components)[i].name != c.name)
                 && components == old(components) + [c])
    {
      for i := 0 to |components|
        invariant components == old(components)
        invariant forall k :: 0 <= k < i ==> components[k].name != c.name
      {
        if components[i].name == c.name {
          components := components[i := c];
          return;
        }
      }
      components := components + [c];
    }

    method StartPass(mode: Mode, faults: Faults) returns (calls: seq<Call>, errors: seq<Call>)
      modifies this`running
      ensures calls == Starts(components, mode)
      ensures errors == FailedCalls(calls, faults)
      ensures running == AfterCalls(old(running), calls, faults)
    {
      calls, errors := [], [];
      for i := 0 to |components|
        invariant calls == Starts(components[..i], mode)
        invariant errors == FailedCalls(calls, faults)
        invariant running == AfterCalls(old(running), calls, faults)
      {
        assert components[..i + 1][..i] == components[..i];
        if mode in components[i].supported {
          var call := StartOf(components[i].name);
          assert (calls + [call])[..|calls|] == calls;
          calls := calls + [call];
          running := AfterCall(running, call, faults);
          if call.name in faults.failing { errors := errors + [call]; }
        }
      }
      assert components[..|components|] == components;
    }

    method StopPass(mode: Mode, faults: Faults) returns (calls: seq<Call>, errors: seq<Call>)
      modifies this`running
      ensures calls == Stops(components, mode)
      ensures errors == FailedCalls(calls, faults)
      ensures running == AfterCalls(old(running), calls, faults)
    {
      calls, errors := [], [];
      var i := |components|;
      assert components[..i] == components;
      while i > 0
        invariant 0 <= i <= |components|
        invariant calls + Stops(components[..i], mode) == Stops(components, mode)
        invariant errors == FailedCalls(calls, faults)
        invariant running == AfterCalls(old(running), calls, faults)
      {
        i := i - 1;
        assert components[..i + 1][..i] == components[..i];
        if mode !in components[i].supported {
          var call := StopOf(components[i].name);
          assert (calls + [call])[..|calls|] == calls;
          ConcatAssociates(calls, [call], Stops(components[..i], mode));
          calls := calls + [call];
          running := AfterCall(running, call, faults);
          if call.name in faults.failing { errors := errors + [call]; }
        }
      }
      assert calls + [] == calls;
    }

    /** Two passes over the registered components; a failing call is recorded and the pass goes on. */
    method ApplyMode(mode: Mode, faults: Faults) returns (calls: seq<Call>, errors: seq<Call>)
      modifies this`running
      ensures calls == Plan(components, mode)
      ensures errors == FailedCalls(calls, faults)
      ensures running == AfterCalls(old(running), calls, faults)
    {
      var started, startErrors := StartPass(mode, faults);
      var stopped, stopErrors := StopPass(mode, faults);
      AfterCallsConcat(old(running), started, stopped, faults);
      FailedCallsConcat(started, stopped, faults);
      calls, errors := started + stopped, startErrors + stopErrors;
    }
  }
}

/** Sequences of steps of a machine, given by what each step makes of a state, if it is enabled there. */
module Runs {
  import opened Common

  /** The state that the steps lead to from s, if each is enabled in turn. */
  ghost function AfterSteps<S, T>(move: (S, T) -> Option<S>, s: S, steps: seq<T>): Option<S> {
    if steps == [] then Some(s)
    else
      var n := |steps| - 1;
      var u := AfterSteps(move, s, steps[..n]);
      if u.None? then None else move(u.value, steps[n])
  }

  /** The steps lead from s to t. */
  ghost predicate Path<S, T>(move: (S, T) -> Option<S>, s: S, steps: seq<T>, t: S) {
    AfterSteps(move, s, steps) == Some(t)
  }

  lemma PathEmpty<S, T>(move: (S, T) -> Option<S>, s: S)
    ensures Path(move, s, [], s)
  {
  }

  lemma PathSnoc<S, T>(move: (S, T) -> Option<S>, s: S, steps: seq<T>, u: S, step: T)
    requires Path(move, s, steps, u) && move(u, step).Some?
    ensures Path(move, s, steps + [step], move(u, step).value)
  {
    assert (steps + [step])[..|steps|] == steps;
  }

  lemma PathOne<S, T>(move: (S, T) -> Option<S>, s: S, step: T, t: S)
    requires move(s, step) == Some(t)
    ensures Path(move, s, [step], t)
  {
    PathEmpty(move, s);
    PathSnoc(move, s, [], s, step);
    assert [] + [step] == [step];
  }

  /** A non-empty path ends with one enabled step. */
  lemma PathUnsnoc<S, T>(move: (S, T) -> Option<S>, s: S, steps: seq<T>, t: S) returns (front: seq<T>, step: T, u: S)
    requires Path(move, s, steps, t) && steps != []
    ensures steps == front + [step] && |front| < |steps|
    ensures Path(move, s, front, u) && move(u, step) == Some(t)
  {
    front, step := Unsnoc(steps);
    u := AfterSteps(move, s, front).value;
  }

  lemma {:induction false} PathConcat<S, T>(move: (S, T) -> Option<S>, s: S, a: seq<T>, u: S, b: seq<T>, t: S)
    requires Path(move, s, a, u) && Path(move, u, b, t)
    ensures Path(move, s, a + b, t)
    decreases |b|
  {
    if b == [] {
      assert a + b == a;
    } else {
      var front, step, v := PathUnsnoc(move, u, b, t);
      PathConcat(move, s, a, u, front, v);
      PathSnoc(move, s, a + front, v, step);
      ConcatAssociates(a, front, [step]);
    }
  }
}

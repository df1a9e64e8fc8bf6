/** The ingestor's methods against the step system: one turn of the live thread, and the whole
    backfill loop of a key, are sequences of protocol steps with the effect their contracts state. */
module IngestionTurns {
  import opened Common
  import opened Ingestion
  import opened Runs

  /** What a protocol step makes of a state in which it is enabled. */
  ghost function Moves(c: Config): (State, Step) -> Option<State> {
    (s, step) => if Enabled(c, s, step) then Some(Next(c, s, step)) else None
  }

  /** Sequences from the start are runs, so the results about runs apply to them. */
  lemma {:induction false} PathIsRun(c: Config, stored: Option<int>, steps: seq<Step>, t: State)
      returns (states: seq<State>)
    requires Path(Moves(c), Start(stored), steps, t)
    ensures IsRun(c, stored, states, steps) && states[|steps|] == t
    decreases |steps|
  {
    if steps == [] {
      states := [Start(stored)];
    } else {
      var front, step, u := PathUnsnoc(Moves(c), Start(stored), steps, t);
      var before := PathIsRun(c, stored, front, u);
      RunSnoc(c, stored, before, front, step, t);
      states := before + [t];
    }
  }

  lemma RunSnoc(c: Config, stored: Option<int>, states: seq<State>, steps: seq<Step>, step: Step, t: State)
    requires IsRun(c, stored, states, steps) && Enabled(c, states[|steps|], step) && t == Next(c, states[|steps|], step)
    ensures IsRun(c, stored, states + [t], steps + [step])
  {
    forall i | 0 <= i < |steps| + 1
      ensures Enabled(c, (states + [t])[i], (steps + [step])[i])
      ensures (states + [t])[i + 1] == Next(c, (states + [t])[i], (steps + [step])[i])
    {
      if i < |steps| {
        assert (states + [t])[i] == states[i] && (steps + [step])[i] == steps[i];
      }
    }
  }

  // ---------------------------------------------------------------- the live thread

  lemma {:induction false} LiveAnnounceAll(c: Config, s: State) returns (steps: seq<Step>)
    requires s.live.LiveAnnounce?
    ensures Path(Moves(c), s, steps, s.(liveLog := s.liveLog + s.live.pending, live := LiveAnnounce([], s.live.newest)))
    decreases |s.live.pending|
  {
    var pending := s.live.pending;
    if pending == [] {
      steps := [];
      assert s.liveLog + [] == s.liveLog;
    } else {
      var u := Next(c, s, LiveAnnounceOne);
      PathEmpty(Moves(c), s);
      PathSnoc(Moves(c), s, [], s, LiveAnnounceOne);
      var rest := LiveAnnounceAll(c, u);
      assert pending == [pending[0]] + pending[1..];
      ConcatAssociates(s.liveLog, [pending[0]], pending[1..]);
      PathConcat(Moves(c), s, [] + [LiveAnnounceOne], u, rest,
           s.(liveLog := s.liveLog + pending, live := LiveAnnounce([], s.live.newest)));
      steps := [] + [LiveAnnounceOne] + rest;
    }
  }

  /** What one undisturbed live turn leaves behind. */
  ghost function LiveResult(s: State, bars: seq<int>, cutoff: int): State {
    var closed := ClosedOf(bars, cutoff);
    if closed == [] then s
    else s.(cached := s.cached + Members(closed),
            origin := if s.origin.None? then Some(closed[0]) else s.origin,
            liveLog := s.liveLog + After(closed, s.mark),
            mark := NewerMark(s.mark, Last(closed)))
  }

  lemma LiveReads(c: Config, s: State)
    requires s.live.LiveIdle?
    ensures Path(Moves(c), s, [LiveRead], s.(live := LiveFetching(s.mark)))
  {
    PathOfStep(c, s, LiveRead, s.(live := LiveFetching(s.mark)));
  }

  lemma MovesIsNext(c: Config, s: State, step: Step)
    ensures Moves(c)(s, step) == if Enabled(c, s, step) then Some(Next(c, s, step)) else None
  {
  }

  lemma PathOfStep(c: Config, s: State, step: Step, t: State)
    requires Enabled(c, s, step) && Next(c, s, step) == t
    ensures Path(Moves(c), s, [step], t)
  {
    MovesIsNext(c, s, step);
    PathOne(Moves(c), s, step, t);
  }

  lemma LiveFetches(c: Config, s: State, bars: seq<int>, cutoff: int, closed: seq<int>)
    requires s.live.LiveFetching? && closed == ClosedOf(bars, cutoff)
    ensures Path(Moves(c), s, [LiveFetch(bars, cutoff)], WithLiveBatch(s, closed))
  {
    PathOfStep(c, s, LiveFetch(bars, cutoff), WithLiveBatch(s, closed));
  }

  /** The state once a batch is cached and its new closes are about to be announced. */
  ghost function LiveCached(s: State, closed: seq<int>, events: seq<int>): State
    requires closed != []
  {
    s.(cached := s.cached + Members(closed),
       origin := if s.origin.None? then Some(closed[0]) else s.origin,
       live := LiveAnnounce(events, Last(closed)))
  }

  lemma LiveCaches(c: Config, s: State, closed: seq<int>, events: seq<int>)
    requires closed != [] && s.live == LiveCommit(closed, events)
    ensures Path(Moves(c), s, [LiveCache], LiveCached(s, closed, events))
  {
    PathOfStep(c, s, LiveCache, LiveCached(s, closed, events));
  }

  /** Announcing what is pending and moving the mark ends the turn. */
  lemma LivePublishes(c: Config, s: State) returns (steps: seq<Step>)
    requires s.live.LiveAnnounce?
    ensures Path(Moves(c), s, steps,
                 s.(liveLog := s.liveLog + s.live.pending, mark := NewerMark(s.mark, s.live.newest), live := LiveIdle))
  {
    var announce := LiveAnnounceAll(c, s);
    var u := s.(liveLog := s.liveLog + s.live.pending, live := LiveAnnounce([], s.live.newest));
    PathSnoc(Moves(c), s, announce, u, LiveMark);
    steps := announce + [LiveMark];
  }

  /** Reading, fetching, caching, announcing and marking without interruption has exactly the effect
      of handling one answer: the new closes announced, the mark moved to the newest. */
  lemma LiveTurn(c: Config, s: State, bars: seq<int>, cutoff: int) returns (steps: seq<Step>)
    requires s.live.LiveIdle?
    ensures Path(Moves(c), s, steps, LiveResult(s, bars, cutoff))
  {
    var closed := ClosedOf(bars, cutoff);
    var s1 := s.(live := LiveFetching(s.mark));
    LiveReads(c, s);
    LiveFetches(c, s1, bars, cutoff, closed);
    if closed == [] {
      PathConcat(Moves(c), s, [LiveRead], s1, [LiveFetch(bars, cutoff)], s);
      steps := [LiveRead] + [LiveFetch(bars, cutoff)];
    } else {
      var s2 := s1.(live := LiveCommit(closed, After(closed, s.mark)));
      PathConcat(Moves(c), s, [LiveRead], s1, [LiveFetch(bars, cutoff)], s2);
      steps := [LiveRead] + [LiveFetch(bars, cutoff)];
      var rest := LiveCommits(c, s2);
      PathConcat(Moves(c), s, steps, s2, rest, LiveResult(s, bars, cutoff));
      steps := steps + rest;
    }
  }

  lemma LiveCommits(c: Config, s: State) returns (steps: seq<Step>)
    requires s.live.LiveCommit? && s.live.closed != []
    ensures Path(Moves(c), s, steps,
                 LiveCached(s, s.live.closed, s.live.events).(
                   liveLog := s.liveLog + s.live.events,
                   mark := NewerMark(s.mark, Last(s.live.closed)),
                   live := LiveIdle))
  {
    var u := LiveCached(s, s.live.closed, s.live.events);
    LiveCaches(c, s, s.live.closed, s.live.events);
    var publish := LivePublishes(c, u);
    PathConcat(Moves(c), s, [LiveCache], u, publish,
               u.(liveLog := u.liveLog + u.live.pending, mark := NewerMark(u.mark, u.live.newest), live := LiveIdle));
    steps := [LiveCache] + publish;
  }

  // ---------------------------------------------------------------- the backfill thread

  lemma {:induction false} BackAnnounceAll(c: Config, s: State) returns (steps: seq<Step>)
    requires s.back.BackAnnounce?
    ensures Path(Moves(c), s, steps, s.(backLog := s.backLog + s.back.pending, back := BackAnnounce([], s.back.newest)))
    decreases |s.back.pending|
  {
    var pending := s.back.pending;
    if pending == [] {
      steps := [];
      assert s.backLog + [] == s.backLog;
    } else {
      var u := Next(c, s, BackAnnounceOne);
      PathEmpty(Moves(c), s);
      PathSnoc(Moves(c), s, [], s, BackAnnounceOne);
      var rest := BackAnnounceAll(c, u);
      assert pending == [pending[0]] + pending[1..];
      ConcatAssociates(s.backLog, [pending[0]], pending[1..]);
      PathConcat(Moves(c), s, [] + [BackAnnounceOne], u, rest,
           s.(backLog := s.backLog + pending, back := BackAnnounce([], s.back.newest)));
      steps := [] + [BackAnnounceOne] + rest;
    }
  }

  /** One iteration that found closed bars. */
  ghost function BackResult(s: State, closed: seq<int>): State
    requires closed != []
  {
    var newest := Last(closed);
    s.(cached := s.cached + Members(closed),
       backLog := s.backLog + closed,
       mark := NewerMark(s.mark, newest),
       progress := if newest <= s.progress then s.progress else newest,
       back := if newest <= s.progress then BackDone else BackIdle)
  }

  lemma BackFetched(c: Config, s: State, bars: seq<int>, closed: seq<int>)
    requires s.back.BackIdle? && s.progress < c.backCutoff && closed == ClosedOf(bars, c.backCutoff)
    ensures Path(Moves(c), s, [BackFetch(bars)], WithBackBatch(s, closed))
  {
    PathOfStep(c, s, BackFetch(bars), WithBackBatch(s, closed));
  }

  /** The state once a batch is cached and about to be announced. */
  ghost function BackCached(s: State, closed: seq<int>): State
    requires closed != []
  {
    s.(cached := s.cached + Members(closed), back := BackAnnounce(closed, Last(closed)))
  }

  lemma BackCaches(c: Config, s: State, closed: seq<int>)
    requires closed != [] && s.back == BackCommit(closed)
    ensures Path(Moves(c), s, [BackCache], BackCached(s, closed))
  {
    PathOfStep(c, s, BackCache, BackCached(s, closed));
  }

  /** Moving the mark ends the iteration, and the loop if there was no progress. */
  lemma BackMarks(c: Config, s: State, newest: int)
    requires s.back == BackAnnounce([], newest)
    ensures Path(Moves(c), s, [BackMark],
                 s.(mark := NewerMark(s.mark, newest),
                    progress := if newest <= s.progress then s.progress else newest,
                    back := if newest <= s.progress then BackDone else BackIdle))
  {
    PathOfStep(c, s, BackMark,
               s.(mark := NewerMark(s.mark, newest),
                  progress := if newest <= s.progress then s.progress else newest,
                  back := if newest <= s.progress then BackDone else BackIdle));
  }

  /** Caching, announcing and marking a batch. */
  lemma BackCommits(c: Config, s: State, closed: seq<int>) returns (steps: seq<Step>)
    requires closed != [] && s.back == BackCommit(closed)
    ensures Path(Moves(c), s, steps, BackResult(s, closed))
  {
    var u := BackCached(s, closed);
    BackCaches(c, s, closed);
    var announce := BackAnnounceAll(c, u);
    var v := u.(backLog := s.backLog + closed, back := BackAnnounce([], Last(closed)));
    PathConcat(Moves(c), s, [BackCache], u, announce, v);
    BackMarks(c, v, Last(closed));
    PathConcat(Moves(c), s, [BackCache] + announce, v, [BackMark], BackResult(s, closed));
    steps := [BackCache] + announce + [BackMark];
  }

  lemma BackTurn(c: Config, s: State, bars: seq<int>, closed: seq<int>) returns (steps: seq<Step>)
    requires s.back.BackIdle? && s.progress < c.backCutoff && closed == ClosedOf(bars, c.backCutoff) && closed != []
    ensures Path(Moves(c), s, steps, BackResult(s, closed))
  {
    BackFetched(c, s, bars, closed);
    var rest := BackCommits(c, WithBackBatch(s, closed), closed);
    PathConcat(Moves(c), s, [BackFetch(bars)], WithBackBatch(s, closed), rest, BackResult(s, closed));
    steps := [BackFetch(bars)] + rest;
  }

  /** The state agrees with what the loop function says of mark, progress and announcements. */
  ghost predicate Reflects(t: State, before: seq<int>, r: Backfilled) {
    t.mark == r.mark && t.progress == r.progress && t.backLog == before + r.announced
  }

  ghost predicate CachesAnnounced(t: State, before: set<int>, r: Backfilled) {
    t.cached == before + Members(r.announced)
  }

  lemma BackStop(c: Config, s: State, step: Step)
    requires s.back.BackIdle? && s.progress < c.backCutoff
    requires step.BackFetchFails? || (step.BackFetch? && ClosedOf(step.bars, c.backCutoff) == [])
    ensures Path(Moves(c), s, [step], s.(back := BackDone))
  {
    if step.BackFetch? {
      BackFetched(c, s, step.bars, []);
    } else {
      PathOfStep(c, s, step, s.(back := BackDone));
    }
  }

  /** The loop function is a sequence of protocol steps: whatever the broker answers, the backfill
      thread alone reaches the mark, the progress and the announcements that the function gives. */
  lemma {:induction false} BackfillIsSteps(c: Config, s: State, answer: Broker, n: nat)
      returns (steps: seq<Step>, t: State)
    requires s.back.BackIdle?
    ensures Path(Moves(c), s, steps, t)
    ensures Reflects(t, s.backLog, Backfill(answer, n, c.tf, c.backCutoff, s.progress, s.mark))
    ensures CachesAnnounced(t, s.cached, Backfill(answer, n, c.tf, c.backCutoff, s.progress, s.mark))
    ensures t.live == s.live && t.liveLog == s.liveLog
    decreases c.backCutoff - s.progress
  {
    if s.progress >= c.backCutoff {
      steps, t := [], s;
      assert s.backLog + [] == s.backLog;
      return;
    }
    var reply := answer(n, s.progress + c.tf);
    var closed := BatchOf(reply, c.backCutoff);
    BackfillTurn(answer, n, c.tf, c.backCutoff, s.progress, s.mark, closed);
    if closed == [] {
      var step := if reply.None? then BackFetchFails else BackFetch(reply.value);
      BackStop(c, s, step);
      steps, t := [step], s.(back := BackDone);
      assert s.backLog + [] == s.backLog;
    } else {
      var u := BackResult(s, closed);
      steps := BackTurn(c, s, reply.value, closed);
      t := u;
      if Last(closed) > s.progress {
        var rest, end := BackfillIsSteps(c, u, answer, n + 1);
        PathConcat(Moves(c), s, steps, u, rest, end);
        MembersConcat(closed, Backfill(answer, n + 1, c.tf, c.backCutoff, Last(closed), u.mark).announced);
        ConcatAssociates(s.backLog, closed,
                         Backfill(answer, n + 1, c.tf, c.backCutoff, Last(closed), u.mark).announced);
        steps, t := steps + rest, end;
      }
    }
  }
}

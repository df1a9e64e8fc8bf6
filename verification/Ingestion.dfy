/** The high-water-mark protocol for one (symbol, timeframe) key. The live thread and the
    backfill thread each read, fetch, write the cache, announce closes and advance a shared
    mark; every one of those actions is a separate step, so every interleaving is a run. */
module Ingestion {
  import opened Common

  // ---------------------------------------------------------------- batches

  function InsertTime(s: seq<int>, t: int): seq<int> {
    if s == [] || s[|s| - 1] <= t then s + [t]
    else InsertTime(s[..|s| - 1], t) + [s[|s| - 1]]
  }

  /** The batch in time order. */
  function SortTimes(ts: seq<int>): seq<int> {
    if ts == [] then [] else InsertTime(SortTimes(ts[..|ts| - 1]), ts[|ts| - 1])
  }

  /** The bars of the batch that have closed by the cutoff. */
  function UpTo(ts: seq<int>, cutoff: int): seq<int> {
    if ts == [] then []
    else
      var n := |ts| - 1;
      if ts[n] <= cutoff then UpTo(ts[..n], cutoff) + [ts[n]] else UpTo(ts[..n], cutoff)
  }

  /** The bars of the batch that lie beyond the mark read before the fetch. */
  function After(ts: seq<int>, last: Option<int>): seq<int> {
    if ts == [] then []
    else
      var n := |ts| - 1;
      if last.None? || ts[n] > last.value then After(ts[..n], last) + [ts[n]] else After(ts[..n], last)
  }

  function ClosedOf(bars: seq<int>, cutoff: int): seq<int> { UpTo(SortTimes(bars), cutoff) }

  /** The only write to the shared mark: it advances or stays. */
  function NewerMark(mark: Option<int>, t: int): (r: Option<int>)
    ensures r.Some? && t <= r.value && MarkLeq(mark, r)
    ensures r == mark || r == Some(t)
  {
    if mark.None? || t > mark.value then Some(t) else mark
  }

  predicate MarkLeq(a: Option<int>, b: Option<int>) {
    a.None? || (b.Some? && a.value <= b.value)
  }

  ghost predicate Nondecreasing(s: seq<int>) {
    forall i, j :: 0 <= i < j < |s| ==> s[i] <= s[j]
  }

  ghost predicate Distinct(s: seq<int>) {
    forall i, j :: 0 <= i < j < |s| ==> s[i] != s[j]
  }

  lemma SnocOrder(s: seq<int>, t: int)
    ensures Nondecreasing(s) && (forall x :: x in s ==> x <= t) ==> Nondecreasing(s + [t])
    ensures Distinct(s) && t !in s ==> Distinct(s + [t])
    ensures StrictlyIncreasing(s) && (forall x :: x in s ==> x < t) ==> StrictlyIncreasing(s + [t])
  {
    assert forall i :: 0 <= i < |s| ==> s[i] in s;
  }

  lemma FrontOrder(s: seq<int>, front: seq<int>)
    requires s != [] && front == s[..|s| - 1]
    ensures Nondecreasing(s) ==> Nondecreasing(front) && forall x :: x in front ==> x <= s[|s| - 1]
    ensures Distinct(s) ==> Distinct(front) && s[|s| - 1] !in front
    ensures forall x :: x in s <==> x in front || x == s[|s| - 1]
  {
    assert s == front + [s[|s| - 1]];
  }

  lemma {:induction false} InsertTimeFacts(s: seq<int>, t: int)
    requires Nondecreasing(s)
    ensures Nondecreasing(InsertTime(s, t))
    ensures forall x :: x in InsertTime(s, t) <==> x in s || x == t
    ensures Distinct(s) && t !in s ==> Distinct(InsertTime(s, t))
  {
    if s == [] || s[|s| - 1] <= t {
      if s != [] { FrontOrder(s, s[..|s| - 1]); }
      SnocOrder(s, t);
    } else {
      var n := |s| - 1;
      FrontOrder(s, s[..|s| - 1]);
      InsertTimeFacts(s[..n], t);
      SnocOrder(InsertTime(s[..n], t), s[n]);
    }
  }

  lemma {:induction false} SortTimesFacts(ts: seq<int>)
    ensures Nondecreasing(SortTimes(ts))
    ensures forall x :: x in SortTimes(ts) <==> x in ts
    ensures Distinct(ts) ==> Distinct(SortTimes(ts))
  {
    if ts != [] {
      var n := |ts| - 1;
      FrontOrder(ts, ts[..n]);
      SortTimesFacts(ts[..n]);
      InsertTimeFacts(SortTimes(ts[..n]), ts[n]);
    }
  }

  lemma {:induction false} UpToFacts(ts: seq<int>, cutoff: int)
    ensures forall x :: x in UpTo(ts, cutoff) <==> x in ts && x <= cutoff
    ensures Nondecreasing(ts) ==> Nondecreasing(UpTo(ts, cutoff))
    ensures Distinct(ts) ==> Distinct(UpTo(ts, cutoff))
  {
    if ts != [] {
      var n := |ts| - 1;
      FrontOrder(ts, ts[..n]);
      UpToFacts(ts[..n], cutoff);
      SnocOrder(UpTo(ts[..n], cutoff), ts[n]);
    }
  }

  lemma {:induction false} AfterFacts(ts: seq<int>, last: Option<int>)
    ensures forall x :: x in After(ts, last) <==> x in ts && (last.None? || x > last.value)
    ensures Nondecreasing(ts) ==> Nondecreasing(After(ts, last))
    ensures Distinct(ts) ==> Distinct(After(ts, last))
  {
    if ts != [] {
      var n := |ts| - 1;
      FrontOrder(ts, ts[..n]);
      AfterFacts(ts[..n], last);
      SnocOrder(After(ts[..n], last), ts[n]);
    }
  }

  lemma UpToSnoc(ts: seq<int>, t: int, cutoff: int)
    ensures UpTo(ts + [t], cutoff) == if t <= cutoff then UpTo(ts, cutoff) + [t] else UpTo(ts, cutoff)
  {
    assert (ts + [t])[..|ts|] == ts;
  }

  lemma AfterSnoc(ts: seq<int>, t: int, last: Option<int>)
    ensures After(ts + [t], last) == if last.None? || t > last.value then After(ts, last) + [t] else After(ts, last)
  {
    assert (ts + [t])[..|ts|] == ts;
  }

  /** What a closed batch holds: exactly the returned bars up to the cutoff, in time order. */
  lemma ClosedFacts(bars: seq<int>, cutoff: int)
    ensures Nondecreasing(ClosedOf(bars, cutoff))
    ensures forall x :: x in ClosedOf(bars, cutoff) <==> x in bars && x <= cutoff
    ensures Distinct(bars) ==> StrictlyIncreasing(ClosedOf(bars, cutoff))
  {
    SortTimesFacts(bars);
    UpToFacts(SortTimes(bars), cutoff);
  }

  // ---------------------------------------------------------------- the step system

  datatype LivePc =
    | LiveIdle
    | LiveFetching(last: Option<int>)
    | LiveCommit(closed: seq<int>, events: seq<int>)
    | LiveAnnounce(pending: seq<int>, newest: int)

  datatype BackPc =
    | BackIdle
    | BackCommit(closed: seq<int>)
    | BackAnnounce(pending: seq<int>, newest: int)
    | BackDone

  /** `mark` is the shared high-water mark; `origin` is the first time the key answers for. */
  datatype State = State(
    mark: Option<int>,
    origin: Option<int>,
    live: LivePc,
    back: BackPc,
    progress: int,
    cached: set<int>,
    liveLog: seq<int>,
    backLog: seq<int>)

  datatype Step =
    | LiveRead
    | LiveFetchFails
    | LiveFetch(bars: seq<int>, cutoff: int)
    | LiveCache
    | LiveAnnounceOne
    | LiveMark
    | BackFetchFails
    | BackFetch(bars: seq<int>)
    | BackCache
    | BackAnnounceOne
    | BackMark

  /** Constants of a run: the timeframe and the backfill cutoff taken at start-up. */
  datatype Config = Config(tf: int, backCutoff: int)

  predicate Enabled(c: Config, s: State, step: Step) {
    match step
    case LiveRead => s.live.LiveIdle?
    case LiveFetchFails => s.live.LiveFetching?
    case LiveFetch(_, _) => s.live.LiveFetching?
    case LiveCache => s.live.LiveCommit? && s.live.closed != []
    case LiveAnnounceOne => s.live.LiveAnnounce? && s.live.pending != []
    case LiveMark => s.live.LiveAnnounce? && s.live.pending == []
    case BackFetchFails => s.back.BackIdle? && s.progress < c.backCutoff
    case BackFetch(_) => s.back.BackIdle? && s.progress < c.backCutoff
    case BackCache => s.back.BackCommit? && s.back.closed != []
    case BackAnnounceOne => s.back.BackAnnounce? && s.back.pending != []
    case BackMark => s.back.BackAnnounce? && s.back.pending == []
  }

  function Members(ts: seq<int>): set<int> { set t | t in ts }

  /** An answer without closed bars ends the live turn; otherwise they are to be committed. */
  function WithLiveBatch(s: State, closed: seq<int>): State
    requires s.live.LiveFetching?
  {
    s.(live := if closed == [] then LiveIdle else LiveCommit(closed, After(closed, s.live.last)))
  }

  /** An answer without closed bars ends the backfill; otherwise they are to be committed. */
  function WithBackBatch(s: State, closed: seq<int>): State {
    s.(back := if closed == [] then BackDone else BackCommit(closed))
  }

  function Next(c: Config, s: State, step: Step): State
    requires Enabled(c, s, step)
  {
    match step
    case LiveRead => s.(live := LiveFetching(s.mark))
    case LiveFetchFails => s.(live := LiveIdle)
    case LiveFetch(bars, cutoff) => WithLiveBatch(s, ClosedOf(bars, cutoff))
    case LiveCache =>
      var closed := s.live.closed;
      s.(cached := s.cached + Members(closed),
         origin := if s.origin.None? then Some(closed[0]) else s.origin,
         live := LiveAnnounce(s.live.events, closed[|closed| - 1]))
    case LiveAnnounceOne =>
      s.(liveLog := s.liveLog + [s.live.pending[0]], live := LiveAnnounce(s.live.pending[1..], s.live.newest))
    case LiveMark => s.(mark := NewerMark(s.mark, s.live.newest), live := LiveIdle)
    case BackFetchFails => s.(back := BackDone)
    case BackFetch(bars) => WithBackBatch(s, ClosedOf(bars, c.backCutoff))
    case BackCache =>
      var closed := s.back.closed;
      s.(cached := s.cached + Members(closed), back := BackAnnounce(closed, closed[|closed| - 1]))
    case BackAnnounceOne =>
      s.(backLog := s.backLog + [s.back.pending[0]], back := BackAnnounce(s.back.pending[1..], s.back.newest))
    case BackMark =>
      var newest := s.back.newest;
      if newest <= s.progress then s.(mark := NewerMark(s.mark, newest), back := BackDone)
      else s.(mark := NewerMark(s.mark, newest), progress := newest, back := BackIdle)
  }

  /** Start-up: with a stored last bar both threads start from it, otherwise only the live thread runs. */
  function Start(stored: Option<int>): State {
    match stored
    case Some(t) => State(Some(t), Some(t + 1), LiveIdle, BackIdle, t, {}, [], [])
    case None => State(None, None, LiveIdle, BackDone, 0, {}, [], [])
  }

  ghost predicate IsRun(c: Config, stored: Option<int>, states: seq<State>, steps: seq<Step>) {
    && |states| == |steps| + 1
    && states[0] == Start(stored)
    && forall i :: 0 <= i < |steps| ==>
         Enabled(c, states[i], steps[i]) && states[i + 1] == Next(c, states[i], steps[i])
  }

  lemma RunPrefix(c: Config, stored: Option<int>, states: seq<State>, steps: seq<Step>)
    requires IsRun(c, stored, states, steps) && steps != []
    ensures IsRun(c, stored, states[..|steps|], steps[..|steps| - 1])
  {
  }

  // ---------------------------------------------------------------- the mark never goes back

  lemma StepKeepsMark(c: Config, s: State, step: Step)
    requires Enabled(c, s, step)
    ensures MarkLeq(s.mark, Next(c, s, step).mark)
  {
  }

  /** In every run, whatever the broker answers, the mark never decreases. */
  lemma {:induction false} MarkNeverDecreases(
      c: Config, stored: Option<int>, states: seq<State>, steps: seq<Step>, i: nat, j: nat)
    requires IsRun(c, stored, states, steps) && i <= j < |states|
    ensures MarkLeq(states[i].mark, states[j].mark)
    decreases j - i
  {
    if i < j {
      MarkNeverDecreases(c, stored, states, steps, i, j - 1);
      RunStepKeepsMark(c, stored, states, steps, j - 1);
    }
  }

  lemma RunStepKeepsMark(c: Config, stored: Option<int>, states: seq<State>, steps: seq<Step>, k: nat)
    requires IsRun(c, stored, states, steps) && k < |steps|
    ensures MarkLeq(states[k].mark, states[k + 1].mark)
  {
    StepKeepsMark(c, states[k], steps[k]);
  }

  // ---------------------------------------------------------------- live announcements

  ghost predicate Bounded(log: seq<int>, mark: Option<int>) {
    forall t :: t in log ==> mark.Some? && t <= mark.value
  }

  ghost predicate AllBelow(log: seq<int>, later: seq<int>) {
    forall t, u :: t in log && u in later ==> t < u
  }

  /** The announced times increase strictly, and everything still to be announced lies beyond them. */
  ghost predicate LiveOrdered(s: State) {
    && StrictlyIncreasing(s.liveLog)
    && match s.live
       case LiveIdle => Bounded(s.liveLog, s.mark)
       case LiveFetching(last) => Bounded(s.liveLog, last) && MarkLeq(last, s.mark)
       case LiveCommit(closed, events) =>
         && Bounded(s.liveLog, s.mark)
         && closed != []
         && StrictlyIncreasing(events)
         && AllBelow(s.liveLog, events)
         && forall t :: t in events ==> t <= closed[|closed| - 1]
       case LiveAnnounce(pending, newest) =>
         && StrictlyIncreasing(pending)
         && AllBelow(s.liveLog, pending)
         && (forall t :: t in pending ==> t <= newest)
         && Bounded(s.liveLog, NewerMark(s.mark, newest))
  }

  ghost predicate DistinctBatch(step: Step) {
    step.LiveFetch? ==> Distinct(step.bars)
  }

  lemma LiveFetchOrdered(c: Config, s: State, step: Step)
    requires LiveOrdered(s) && step.LiveFetch? && Enabled(c, s, step) && Distinct(step.bars)
    ensures LiveOrdered(Next(c, s, step))
  {
    ClosedFacts(step.bars, step.cutoff);
    var closed := ClosedOf(step.bars, step.cutoff);
    AfterFacts(closed, s.live.last);
    if closed != [] {
      forall t | t in After(closed, s.live.last) ensures t <= closed[|closed| - 1] {
        var i :| 0 <= i < |closed| && closed[i] == t;
      }
    }
  }

  lemma LiveOrderedStep(c: Config, s: State, step: Step)
    requires LiveOrdered(s) && Enabled(c, s, step) && DistinctBatch(step)
    ensures LiveOrdered(Next(c, s, step))
  {
    match step
    case LiveFetch(_, _) => LiveFetchOrdered(c, s, step);
    case LiveAnnounceOne => LiveAnnounceOrdered(c, s, step);
    case _ =>
  }

  lemma LiveAnnounceOrdered(c: Config, s: State, step: Step)
    requires LiveOrdered(s) && step.LiveAnnounceOne? && Enabled(c, s, step)
    ensures LiveOrdered(Next(c, s, step))
  {
    var pending := s.live.pending;
    assert pending[0] in pending;
    SnocOrder(s.liveLog, pending[0]);
    forall t | t in pending[1..] ensures t in pending && pending[0] < t {
      var i :| 0 <= i < |pending[1..]| && pending[1..][i] == t;
      assert pending[i + 1] == t;
    }
  }

  /** Over the whole run the live thread announces strictly increasing times, however the broker
      re-sends old bars and however backfill interleaves. */
  lemma {:induction false} LiveAnnouncementsIncrease(
      c: Config, stored: Option<int>, states: seq<State>, steps: seq<Step>)
    requires IsRun(c, stored, states, steps)
    requires forall i :: 0 <= i < |steps| ==> DistinctBatch(steps[i])
    ensures LiveOrdered(states[|steps|])
    ensures StrictlyIncreasing(states[|steps|].liveLog)
  {
    if steps != [] {
      var n := |steps| - 1;
      RunPrefix(c, stored, states, steps);
      LiveAnnouncementsIncrease(c, stored, states[..n + 1], steps[..n]);
      assert states[n + 1] == Next(c, states[n], steps[n]);
      LiveOrderedStep(c, states[n], steps[n]);
    }
  }

  // ---------------------------------------------------------------- coverage

  /** Successive broker bars, and the stored starting bar, lie at least one timeframe apart. */
  ghost predicate Gridded(broker: iset<int>, stored: Option<int>, tf: int) {
    forall a, b :: OnGrid(broker, stored, a) && b in broker && a < b ==> a + tf <= b
  }

  ghost predicate OnGrid(broker: iset<int>, stored: Option<int>, t: int) {
    t in broker || stored == Some(t)
  }

  /** The answer is a gapless run of the broker's bars beginning at `start`. */
  ghost predicate Gapless(broker: iset<int>, bars: seq<int>, start: int) {
    && (forall t :: t in bars ==> t in broker)
    && forall t, u :: t in broker && u in bars && start <= t <= u ==> t in bars
  }

  /** With no mark to start from, the answer begins wherever its oldest bar is. */
  ghost predicate GaplessAnywhere(broker: iset<int>, bars: seq<int>) {
    && (forall t :: t in bars ==> t in broker)
    && forall t, u, v :: t in broker && u in bars && v in bars && u <= t <= v ==> t in bars
  }

  ghost predicate FaithfulFetch(c: Config, broker: iset<int>, s: State, step: Step) {
    match step
    case LiveFetch(bars, _) =>
      s.live.LiveFetching? &&
      (if s.live.last.Some? then Gapless(broker, bars, s.live.last.value + c.tf) else GaplessAnywhere(broker, bars))
    case BackFetch(bars) => Gapless(broker, bars, s.progress + c.tf)
    case _ => true
  }

  predicate Delivered(s: State, t: int) {
    t in s.cached && (t in s.liveLog || t in s.backLog)
  }

  /** Every broker bar from the origin up to `hi` has been cached and announced. */
  ghost predicate CoveredTo(broker: iset<int>, s: State, hi: int) {
    s.origin.Some? && forall t :: t in broker && s.origin.value <= t <= hi ==> Delivered(s, t)
  }

  ghost predicate LiveCovers(broker: iset<int>, stored: Option<int>, s: State) {
    match s.live
    case LiveIdle => s.mark.None? ==> s.origin.None?
    case LiveFetching(last) =>
      if last.Some? then s.mark.Some? && last.value <= s.mark.value && OnGrid(broker, stored, last.value)
      else s.mark.None? && s.origin.None?
    case LiveCommit(closed, events) =>
      && closed != []
      && (s.mark.None? ==> s.origin.None?)
      && OnGrid(broker, stored, closed[|closed| - 1])
      && var lo := if s.origin.Some? then s.origin.value else closed[0];
         forall t :: t in broker && lo <= t <= closed[|closed| - 1] ==>
           Delivered(s, t) || (t in closed && t in events)
    case LiveAnnounce(pending, newest) =>
      && s.origin.Some?
      && OnGrid(broker, stored, newest)
      && forall t :: t in broker && s.origin.value <= t <= newest ==>
           t in s.cached && (t in pending || t in s.liveLog || t in s.backLog)
  }

  ghost predicate BackCovers(broker: iset<int>, stored: Option<int>, s: State) {
    match s.back
    case BackDone => true
    case BackIdle => s.mark.Some? && CoveredTo(broker, s, s.progress) && OnGrid(broker, stored, s.progress)
    case BackCommit(closed) =>
      && s.mark.Some? && s.origin.Some? && closed != []
      && OnGrid(broker, stored, closed[|closed| - 1])
      && forall t :: t in broker && s.origin.value <= t <= closed[|closed| - 1] ==> Delivered(s, t) || t in closed
    case BackAnnounce(pending, newest) =>
      && s.mark.Some? && s.origin.Some?
      && OnGrid(broker, stored, newest)
      && forall t :: t in broker && s.origin.value <= t <= newest ==>
           t in s.cached && (t in pending || t in s.liveLog || t in s.backLog)
  }

  ghost predicate Covering(broker: iset<int>, stored: Option<int>, s: State) {
    && (s.mark.Some? ==> CoveredTo(broker, s, s.mark.value) && OnGrid(broker, stored, s.mark.value))
    && (s.mark.None? ==> s.back.BackDone?)
    && LiveCovers(broker, stored, s)
    && BackCovers(broker, stored, s)
  }

  /** Every broker bar between the mark read before the fetch and the newest closed bar is a new close. */
  lemma BatchAfterMark(
      broker: iset<int>, stored: Option<int>, tf: int, bars: seq<int>, cutoff: int, last: int, t: int)
    requires Gridded(broker, stored, tf) && OnGrid(broker, stored, last) && Gapless(broker, bars, last + tf)
    requires var closed := ClosedOf(bars, cutoff);
      closed != [] && t in broker && last < t <= closed[|closed| - 1]
    ensures t in ClosedOf(bars, cutoff) && t in After(ClosedOf(bars, cutoff), Some(last))
  {
    var closed := ClosedOf(bars, cutoff);
    ClosedFacts(bars, cutoff);
    AfterFacts(closed, Some(last));
    assert closed[|closed| - 1] in closed;
  }

  /** Without a mark, every broker bar between the oldest and the newest closed bar is a new close. */
  lemma BatchWithoutMark(broker: iset<int>, bars: seq<int>, cutoff: int, t: int)
    requires GaplessAnywhere(broker, bars)
    requires var closed := ClosedOf(bars, cutoff);
      closed != [] && t in broker && closed[0] <= t <= closed[|closed| - 1]
    ensures t in ClosedOf(bars, cutoff) && t in After(ClosedOf(bars, cutoff), None)
  {
    var closed := ClosedOf(bars, cutoff);
    ClosedFacts(bars, cutoff);
    AfterFacts(closed, None);
    assert closed[0] in closed && closed[|closed| - 1] in closed;
  }

  lemma NewestOnGrid(broker: iset<int>, stored: Option<int>, bars: seq<int>, cutoff: int)
    requires ClosedOf(bars, cutoff) != [] && forall t :: t in bars ==> t in broker
    ensures OnGrid(broker, stored, ClosedOf(bars, cutoff)[|ClosedOf(bars, cutoff)| - 1])
  {
    ClosedFacts(bars, cutoff);
    assert ClosedOf(bars, cutoff)[|ClosedOf(bars, cutoff)| - 1] in ClosedOf(bars, cutoff);
  }

  /** Where the starting point of coverage lies once this batch is written. */
  function Lowest(s: State, closed: seq<int>): int
    requires closed != []
  {
    if s.origin.Some? then s.origin.value else closed[0]
  }

  lemma BatchDelivers(c: Config, broker: iset<int>, stored: Option<int>, s: State, bars: seq<int>, cutoff: int, t: int)
    requires Gridded(broker, stored, c.tf) && Covering(broker, stored, s)
    requires s.live.LiveFetching? && FaithfulFetch(c, broker, s, LiveFetch(bars, cutoff))
    requires var closed := ClosedOf(bars, cutoff);
      closed != [] && t in broker && Lowest(s, closed) <= t <= closed[|closed| - 1]
    requires s.live.last.None? || t > s.live.last.value
    ensures t in ClosedOf(bars, cutoff) && t in After(ClosedOf(bars, cutoff), s.live.last)
  {
    if s.live.last.None? {
      BatchWithoutMark(broker, bars, cutoff, t);
    } else {
      BatchAfterMark(broker, stored, c.tf, bars, cutoff, s.live.last.value, t);
    }
  }

  lemma LiveCommitCovers(broker: iset<int>, stored: Option<int>, s: State, closed: seq<int>, events: seq<int>)
    requires Covering(broker, stored, s) && s.live.LiveFetching?
    requires closed != [] && OnGrid(broker, stored, closed[|closed| - 1])
    requires forall t :: t in broker && Lowest(s, closed) <= t <= closed[|closed| - 1] ==>
      (s.live.last.Some? && t <= s.live.last.value) || (t in closed && t in events)
    ensures Covering(broker, stored, s.(live := LiveCommit(closed, events)))
  {
  }

  lemma LiveIdleCovers(broker: iset<int>, stored: Option<int>, s: State)
    requires Covering(broker, stored, s) && s.live.LiveFetching?
    ensures Covering(broker, stored, s.(live := LiveIdle))
  {
  }

  lemma LiveFetchCovers(c: Config, broker: iset<int>, stored: Option<int>, s: State, step: Step)
    requires Gridded(broker, stored, c.tf) && Covering(broker, stored, s)
    requires step.LiveFetch? && Enabled(c, s, step) && FaithfulFetch(c, broker, s, step)
    ensures Covering(broker, stored, Next(c, s, step))
  {
    var closed, last := ClosedOf(step.bars, step.cutoff), s.live.last;
    if closed == [] {
      LiveIdleCovers(broker, stored, s);
    } else {
      NewestOnGrid(broker, stored, step.bars, step.cutoff);
      forall t | t in broker && Lowest(s, closed) <= t <= closed[|closed| - 1] && (last.None? || t > last.value)
        ensures t in closed && t in After(closed, last)
      {
        BatchDelivers(c, broker, stored, s, step.bars, step.cutoff, t);
      }
      LiveCommitCovers(broker, stored, s, closed, After(closed, last));
    }
  }

  lemma BackDoneCovers(broker: iset<int>, stored: Option<int>, s: State)
    requires Covering(broker, stored, s)
    ensures Covering(broker, stored, s.(back := BackDone))
  {
  }

  lemma BackCommitCovers(broker: iset<int>, stored: Option<int>, s: State, closed: seq<int>)
    requires Covering(broker, stored, s) && s.back.BackIdle?
    requires closed != [] && OnGrid(broker, stored, closed[|closed| - 1])
    requires forall t :: t in broker && s.progress < t <= closed[|closed| - 1] ==> t in closed
    ensures Covering(broker, stored, s.(back := BackCommit(closed)))
  {
  }

  lemma BackFetchCovers(c: Config, broker: iset<int>, stored: Option<int>, s: State, step: Step)
    requires Gridded(broker, stored, c.tf) && Covering(broker, stored, s)
    requires step.BackFetch? && Enabled(c, s, step) && FaithfulFetch(c, broker, s, step)
    ensures Covering(broker, stored, Next(c, s, step))
  {
    var closed := ClosedOf(step.bars, c.backCutoff);
    if closed == [] {
      BackDoneCovers(broker, stored, s);
    } else {
      NewestOnGrid(broker, stored, step.bars, c.backCutoff);
      forall t | t in broker && s.progress < t <= closed[|closed| - 1] ensures t in closed {
        BatchAfterMark(broker, stored, c.tf, step.bars, c.backCutoff, s.progress, t);
      }
      BackCommitCovers(broker, stored, s, closed);
    }
  }

  /** A step that only adds deliveries keeps what the other thread relies on. */
  lemma DeliveriesGrow(c: Config, s: State, step: Step)
    requires Enabled(c, s, step)
    ensures var s' := Next(c, s, step);
      && s.cached <= s'.cached
      && (forall t :: t in s.liveLog ==> t in s'.liveLog)
      && (forall t :: t in s.backLog ==> t in s'.backLog)
      && (s.origin.Some? ==> s'.origin == s.origin)
  {
  }

  lemma LiveStepCovers(c: Config, broker: iset<int>, stored: Option<int>, s: State, step: Step)
    requires Gridded(broker, stored, c.tf) && Covering(broker, stored, s)
    requires Enabled(c, s, step) && FaithfulFetch(c, broker, s, step)
    requires step.LiveRead? || step.LiveFetchFails? || step.LiveCache? || step.LiveAnnounceOne? || step.LiveMark?
    ensures Covering(broker, stored, Next(c, s, step))
  {
    DeliveriesGrow(c, s, step);
    if step.LiveAnnounceOne? {
      var pending := s.live.pending;
      assert pending == [pending[0]] + pending[1..];
    }
  }

  lemma BackStepCovers(c: Config, broker: iset<int>, stored: Option<int>, s: State, step: Step)
    requires Gridded(broker, stored, c.tf) && Covering(broker, stored, s)
    requires Enabled(c, s, step) && FaithfulFetch(c, broker, s, step)
    requires step.BackFetchFails? || step.BackCache? || step.BackAnnounceOne? || step.BackMark?
    ensures Covering(broker, stored, Next(c, s, step))
  {
    DeliveriesGrow(c, s, step);
    if step.BackAnnounceOne? {
      var pending := s.back.pending;
      assert pending == [pending[0]] + pending[1..];
    }
  }

  lemma CoveringStep(c: Config, broker: iset<int>, stored: Option<int>, s: State, step: Step)
    requires Gridded(broker, stored, c.tf) && Covering(broker, stored, s)
    requires Enabled(c, s, step) && FaithfulFetch(c, broker, s, step)
    ensures Covering(broker, stored, Next(c, s, step))
  {
    if step.LiveFetch? {
      LiveFetchCovers(c, broker, stored, s, step);
    } else if step.BackFetch? {
      BackFetchCovers(c, broker, stored, s, step);
    } else if step.BackFetchFails? || step.BackCache? || step.BackAnnounceOne? || step.BackMark? {
      BackStepCovers(c, broker, stored, s, step);
    } else {
      LiveStepCovers(c, broker, stored, s, step);
    }
  }

  ghost predicate FaithfulRun(c: Config, broker: iset<int>, states: seq<State>, steps: seq<Step>) {
    |states| == |steps| + 1 &&
    forall i :: 0 <= i < |steps| ==> FaithfulFetch(c, broker, states[i], steps[i])
  }

  lemma {:induction false} RunCovers(
      c: Config, broker: iset<int>, stored: Option<int>, states: seq<State>, steps: seq<Step>)
    requires IsRun(c, stored, states, steps) && FaithfulRun(c, broker, states, steps)
    requires Gridded(broker, stored, c.tf) && c.tf > 0
    ensures Covering(broker, stored, states[|steps|])
    ensures stored.Some? ==> states[|steps|].origin == Some(stored.value + 1)
  {
    if steps != [] {
      var n := |steps| - 1;
      RunPrefix(c, stored, states, steps);
      assert states[..n + 1][n] == states[n];
      RunCovers(c, broker, stored, states[..n + 1], steps[..n]);
      assert states[n + 1] == Next(c, states[n], steps[n]);
      CoveringStep(c, broker, stored, states[n], steps[n]);
      DeliveriesGrow(c, states[n], steps[n]);
    }
  }

  /** In every interleaving with gapless answers, every broker bar from the starting point up to the
      mark has been cached and announced by at least one of the two threads. The starting point is
      the instant after the stored bar, or the oldest bar of the first batch when nothing was stored. */
  lemma EveryBarUpToMarkIsDelivered(
      c: Config, broker: iset<int>, stored: Option<int>, states: seq<State>, steps: seq<Step>, t: int)
    requires IsRun(c, stored, states, steps) && FaithfulRun(c, broker, states, steps)
    requires Gridded(broker, stored, c.tf) && c.tf > 0
    requires t in broker
    ensures var s := states[|steps|];
      && (s.mark.Some? ==> s.origin.Some? && (s.origin.value <= t <= s.mark.value ==> Delivered(s, t)))
      && (stored.Some? ==> s.mark.Some? && s.origin == Some(stored.value + 1))
  {
    RunCovers(c, broker, stored, states, steps);
    MarkNeverDecreases(c, stored, states, steps, 0, |steps|);
  }

  // ---------------------------------------------------------------- the backfill loop

  /** The n-th answer of the broker to a request from `start`; None is a failed call. */
  type Broker = (nat, int) -> Option<seq<int>>

  datatype Backfilled = Backfilled(announced: seq<int>, progress: int, fetches: nat, mark: Option<int>)

  function Last(s: seq<int>): (r: int)
    requires s != []
    ensures r in s
  {
    s[|s| - 1]
  }

  /** The bars of a reply that backfill may write; none when the call failed. */
  function BatchOf(reply: Option<seq<int>>, cutoff: int): (closed: seq<int>)
    ensures forall t :: t in closed <==> reply.Some? && t in reply.value && t <= cutoff
  {
    match reply
    case None => []
    case Some(bars) => ClosedFacts(bars, cutoff); ClosedOf(bars, cutoff)
  }

  /** A turn that continues, followed by the rest of the loop. */
  ghost function Resume(closed: seq<int>, rest: Backfilled): Backfilled {
    Backfilled(closed + rest.announced, rest.progress, 1 + rest.fetches, rest.mark)
  }

  /** What the backfill loop does for one key from `progress` on, when its n-th fetch is next. */
  ghost function Backfill(answer: Broker, n: nat, tf: int, cutoff: int, progress: int, mark: Option<int>): Backfilled
    decreases cutoff - progress
  {
    if progress >= cutoff then Backfilled([], progress, 0, mark)
    else
      var closed := BatchOf(answer(n, progress + tf), cutoff);
      if closed == [] then Backfilled([], progress, 1, mark)
      else
        var newest := Last(closed);
        if newest <= progress then Backfilled(closed, progress, 1, NewerMark(mark, newest))
        else Resume(closed, Backfill(answer, n + 1, tf, cutoff, newest, NewerMark(mark, newest)))
  }

  ghost predicate HonoursStart(answer: Broker) {
    forall n: nat, start: int ::
      answer(n, start).Some? ==> forall t :: t in answer(n, start).value ==> t >= start
  }

  /** Progress stays between its start and the cutoff, and so does everything announced; the mark
      covers whatever progress was made. */
  ghost predicate Contained(r: Backfilled, cutoff: int, progress: int, mark: Option<int>) {
    && progress <= r.progress
    && r.progress <= MaxInt(progress, cutoff)
    && (forall t :: t in r.announced ==> t <= cutoff)
    && MarkLeq(mark, r.mark)
    && (r.progress > progress ==> MarkLeq(Some(r.progress), r.mark))
  }

  /** One turn of the loop: it ends without progress, or continues from the newest closed bar. */
  lemma BackfillTurn(
      answer: Broker, n: nat, tf: int, cutoff: int, progress: int, mark: Option<int>, closed: seq<int>)
    requires progress < cutoff && closed == BatchOf(answer(n, progress + tf), cutoff)
    ensures closed == [] ==> Backfill(answer, n, tf, cutoff, progress, mark) == Backfilled([], progress, 1, mark)
    ensures closed != [] && Last(closed) <= progress ==>
      Backfill(answer, n, tf, cutoff, progress, mark) == Backfilled(closed, progress, 1, NewerMark(mark, Last(closed)))
    ensures closed != [] && Last(closed) > progress ==>
      Backfill(answer, n, tf, cutoff, progress, mark)
      == Resume(closed, Backfill(answer, n + 1, tf, cutoff, Last(closed), NewerMark(mark, Last(closed))))
  {
  }

  lemma ResumeContained(closed: seq<int>, rest: Backfilled, cutoff: int, progress: int, mark: Option<int>)
    requires closed != [] && forall t :: t in closed ==> t <= cutoff
    requires progress < Last(closed) <= cutoff
    requires Contained(rest, cutoff, Last(closed), NewerMark(mark, Last(closed)))
    ensures Contained(Resume(closed, rest), cutoff, progress, mark)
  {
  }

  /** Whatever the broker answers, progress never moves back, never passes the cutoff, and only
      bars up to the cutoff are announced. */
  lemma {:induction false} BackfillStaysBelowCutoff(
      answer: Broker, n: nat, tf: int, cutoff: int, progress: int, mark: Option<int>)
    ensures Contained(Backfill(answer, n, tf, cutoff, progress, mark), cutoff, progress, mark)
    decreases cutoff - progress
  {
    if progress < cutoff {
      var closed := BatchOf(answer(n, progress + tf), cutoff);
      BackfillTurn(answer, n, tf, cutoff, progress, mark, closed);
      if closed != [] && Last(closed) > progress {
        var newest := Last(closed);
        BackfillStaysBelowCutoff(answer, n + 1, tf, cutoff, newest, NewerMark(mark, newest));
        ResumeContained(closed, Backfill(answer, n + 1, tf, cutoff, newest, NewerMark(mark, newest)), cutoff, progress, mark);
      }
    }
  }

  ghost predicate Spans(fetches: int, tf: int, d: int) {
    (fetches - 1) * tf <= d
  }

  lemma SpansStep(fetches: int, tf: int, d: int, gap: int)
    requires tf <= gap && Spans(fetches, tf, d - gap)
    ensures Spans(fetches + 1, tf, d)
  {
    assert fetches * tf == (fetches - 1) * tf + tf;
  }

  /** When every answer honours its start, each fetch that continues covers at least a timeframe. */
  lemma {:induction false} BackfillFetchSpan(
      answer: Broker, n: nat, tf: int, cutoff: int, progress: int, mark: Option<int>)
    requires tf > 0 && HonoursStart(answer) && progress < cutoff
    ensures Spans(Backfill(answer, n, tf, cutoff, progress, mark).fetches, tf, cutoff - progress)
    decreases cutoff - progress
  {
    var closed := BatchOf(answer(n, progress + tf), cutoff);
    BackfillTurn(answer, n, tf, cutoff, progress, mark, closed);
    if closed != [] {
      var newest := Last(closed);
      assert newest in closed && newest >= progress + tf;
      if newest < cutoff {
        BackfillFetchSpan(answer, n + 1, tf, cutoff, newest, NewerMark(mark, newest));
        SpansStep(Backfill(answer, n + 1, tf, cutoff, newest, NewerMark(mark, newest)).fetches, tf,
                  cutoff - progress, newest - progress);
      }
    }
  }

  lemma QuotientBound(k: int, tf: int, d: int)
    requires tf > 0 && k * tf <= d
    ensures k <= d / tf
  {
    var q := d / tf;
    assert d == q * tf + d % tf;
    assert (k - q) * tf == k * tf - q * tf;
    if k > q { MulAtLeast(k - q, tf); }
  }

  /** So the loop makes at most floor((cutoff - progress) / tf) + 1 fetches, and none past the cutoff. */
  lemma BackfillFetchBound(answer: Broker, tf: int, cutoff: int, progress: int, mark: Option<int>)
    requires tf > 0 && HonoursStart(answer)
    ensures var fetches := Backfill(answer, 0, tf, cutoff, progress, mark).fetches;
      if progress >= cutoff then fetches == 0 else fetches <= (cutoff - progress) / tf + 1
  {
    if progress < cutoff {
      BackfillFetchSpan(answer, 0, tf, cutoff, progress, mark);
      QuotientBound(Backfill(answer, 0, tf, cutoff, progress, mark).fetches - 1, tf, cutoff - progress);
    }
  }

  lemma GridFrom(broker: iset<int>, progress: int, newest: int, tf: int)
    requires Gridded(broker, Some(progress), tf) && newest in broker
    ensures Gridded(broker, Some(newest), tf)
  {
    forall a, b | OnGrid(broker, Some(newest), a) && b in broker && a < b ensures a + tf <= b {
      assert OnGrid(broker, Some(progress), a);
    }
  }

  /** A gapless answer holds every broker bar after `progress` up to its newest closed bar. */
  lemma BatchLeavesNoGap(broker: iset<int>, reply: Option<seq<int>>, tf: int, cutoff: int, progress: int, t: int)
    requires Gridded(broker, Some(progress), tf)
    requires reply.Some? ==> Gapless(broker, reply.value, progress + tf)
    requires BatchOf(reply, cutoff) != [] && t in broker && progress < t
    ensures Last(BatchOf(reply, cutoff)) in broker
    ensures t <= Last(BatchOf(reply, cutoff)) ==> t in BatchOf(reply, cutoff)
  {
    assert OnGrid(broker, Some(progress), progress);
  }

  ghost predicate GaplessAnswers(broker: iset<int>, answer: Broker) {
    forall k: nat, start: int :: answer(k, start).Some? ==> Gapless(broker, answer(k, start).value, start)
  }

  /** With gapless answers the loop announces every broker bar from its start to its final progress. */
  lemma {:induction false} BackfillLeavesNoGap(
      broker: iset<int>, answer: Broker, n: nat, tf: int, cutoff: int, progress: int, mark: Option<int>, t: int)
    requires tf > 0 && Gridded(broker, Some(progress), tf) && GaplessAnswers(broker, answer)
    requires t in broker && progress < t <= Backfill(answer, n, tf, cutoff, progress, mark).progress
    ensures t in Backfill(answer, n, tf, cutoff, progress, mark).announced
    decreases cutoff - progress
  {
    var closed := BatchOf(answer(n, progress + tf), cutoff);
    BackfillTurn(answer, n, tf, cutoff, progress, mark, closed);
    BatchLeavesNoGap(broker, answer(n, progress + tf), tf, cutoff, progress, t);
    var newest := Last(closed);
    if t > newest {
      GridFrom(broker, progress, newest, tf);
      BackfillLeavesNoGap(broker, answer, n + 1, tf, cutoff, newest, NewerMark(mark, newest), t);
    }
  }

  /** `goal` is what was sent so far, in n fetches, followed by the rest of the loop. */
  ghost predicate SoFar(goal: Backfilled, sent: seq<int>, n: nat, rest: Backfilled) {
    goal == Backfilled(sent + rest.announced, rest.progress, n + rest.fetches, rest.mark)
  }

  /** The loop is over: everything was sent. */
  function Nothing(progress: int, mark: Option<int>): Backfilled { Backfilled([], progress, 0, mark) }

  lemma SoFarStops(goal: Backfilled, sent: seq<int>, n: nat, closed: seq<int>, progress: int, mark: Option<int>)
    requires SoFar(goal, sent, n, Backfilled(closed, progress, 1, mark))
    ensures SoFar(goal, sent + closed, n + 1, Nothing(progress, mark))
  {
    NothingSent(sent + closed);
  }

  lemma SoFarContinues(goal: Backfilled, sent: seq<int>, n: nat, closed: seq<int>, later: Backfilled)
    requires SoFar(goal, sent, n, Resume(closed, later))
    ensures SoFar(goal, sent + closed, n + 1, later)
  {
    ConcatAssociates(sent, closed, later.announced);
  }

  /** What one turn makes of the rest: nothing more to do, or the loop from the newest closed bar. */
  lemma SoFarTurn(goal: Backfilled, sent: seq<int>, answer: Broker, n: nat, tf: int, cutoff: int, progress: int,
                  mark: Option<int>, closed: seq<int>)
    requires progress < cutoff && closed == BatchOf(answer(n, progress + tf), cutoff)
    requires SoFar(goal, sent, n, Backfill(answer, n, tf, cutoff, progress, mark))
    ensures closed == [] ==> SoFar(goal, sent, n + 1, Nothing(progress, mark))
    ensures closed != [] && Last(closed) <= progress ==>
      SoFar(goal, sent + closed, n + 1, Nothing(progress, NewerMark(mark, Last(closed))))
    ensures closed != [] && Last(closed) > progress ==>
      SoFar(goal, sent + closed, n + 1, Backfill(answer, n + 1, tf, cutoff, Last(closed), NewerMark(mark, Last(closed))))
  {
    BackfillTurn(answer, n, tf, cutoff, progress, mark, closed);
    if closed == [] {
      SoFarStops(goal, sent, n, [], progress, mark);
      NothingSent(sent);
    } else if Last(closed) <= progress {
      SoFarStops(goal, sent, n, closed, progress, NewerMark(mark, Last(closed)));
    } else {
      SoFarContinues(goal, sent, n, closed,
                     Backfill(answer, n + 1, tf, cutoff, Last(closed), NewerMark(mark, Last(closed))));
    }
  }

  lemma SoFarEnds(goal: Backfilled, sent: seq<int>, n: nat, progress: int, mark: Option<int>)
    requires SoFar(goal, sent, n, Nothing(progress, mark))
    ensures goal == Backfilled(sent, progress, n, mark)
  {
    NothingSent(sent);
  }

  lemma PlanReplaced(plan: map<string, int>, key: string, a: int, b: int)
    ensures plan[key := a][key := b] == plan[key := b]
  {
  }

  lemma NothingSent(s: seq<int>)
    ensures s + [] == s && [] + s == s
  {
  }

  lemma MembersConcat(a: seq<int>, b: seq<int>)
    ensures Members(a + b) == Members(a) + Members(b)
  {
  }

  // ---------------------------------------------------------------- the ingestor

  /** What a backfill starts from: the goal it is to reach, and what was published and planned before. */
  datatype Launch = Launch(
    goal: Backfilled,
    log: seq<int>,
    seen: set<int>,
    others: (map<string, int>, map<string, seq<int>>, map<string, set<int>>),
    plan: map<string, int>)

  class BackgroundIngestor {
    var lastOhlcTime: map<string, int>
    var backfillProgress: map<string, int>
    var backfillCutoff: map<string, int>
    var announced: map<string, seq<int>>
    var cached: map<string, set<int>>

    constructor ()
      ensures lastOhlcTime == map[] && backfillProgress == map[] && backfillCutoff == map[]
      ensures announced == map[] && cached == map[]
    {
      lastOhlcTime, backfillProgress, backfillCutoff := map[], map[], map[];
      announced, cached := map[], map[];
    }

    function Mark(key: string): Option<int>
      reads this`lastOhlcTime
    {
      if key in lastOhlcTime then Some(lastOhlcTime[key]) else None
    }

    function Announced(key: string): seq<int>
      reads this`announced
    {
      if key in announced then announced[key] else []
    }

    /** The times of the closed bars handed to the cache. */
    function Cached(key: string): set<int>
      reads this`cached
    {
      if key in cached then cached[key] else {}
    }

    /** What is stored for all other keys. */
    function Others(key: string): (map<string, int>, map<string, seq<int>>, map<string, set<int>>)
      reads this`lastOhlcTime, this`announced, this`cached
    {
      (lastOhlcTime - {key}, announced - {key}, cached - {key})
    }

    method SetLastOhlcTimeIfNewer(key: string, t: int)
      modifies this`lastOhlcTime
      ensures Mark(key) == NewerMark(old(Mark(key)), t)
      ensures lastOhlcTime - {key} == old(lastOhlcTime - {key})
    {
      if key !in lastOhlcTime || t > lastOhlcTime[key] {
        lastOhlcTime := lastOhlcTime[key := t];
      }
    }

    method Announce(key: string, times: seq<int>)
      modifies this`announced
      ensures Announced(key) == old(Announced(key)) + times
      ensures announced - {key} == old(announced - {key})
    {
      announced := announced[key := Announced(key) + times];
    }

    method CacheBars(key: string, times: seq<int>)
      modifies this`cached
      ensures Cached(key) == old(Cached(key)) + Members(times)
      ensures cached - {key} == old(cached - {key})
    {
      cached := cached[key := Cached(key) + Members(times)];
    }

    /** Start-up for one key: adopt the stored bar unless the gap is longer than a full fetch window. */
    method InitBackfillProgress(key: string, tf: int, limit: int, stored: Option<int>, now: int)
      modifies this`lastOhlcTime, this`backfillProgress, this`backfillCutoff
      ensures var adopted := stored.Some? && now - stored.value <= tf * limit;
        && Mark(key) == (if adopted then NewerMark(old(Mark(key)), stored.value) else old(Mark(key)))
        && backfillProgress == (if adopted then old(backfillProgress)[key := stored.value] else old(backfillProgress))
        && backfillCutoff == (if adopted then old(backfillCutoff)[key := now - tf] else old(backfillCutoff))
      ensures lastOhlcTime - {key} == old(lastOhlcTime - {key})
    {
      if stored.None? { return; }
      if now - stored.value > tf * limit { return; }
      SetLastOhlcTimeIfNewer(key, stored.value);
      backfillProgress := backfillProgress[key := stored.value];
      backfillCutoff := backfillCutoff[key := now - tf];
    }

    /** The live thread's handling of one answer: split, cache, announce the new closes, advance the mark. */
    method IngestBatch(key: string, last: Option<int>, bars: seq<int>, cutoff: int) returns (closed: seq<int>)
      modifies this`lastOhlcTime, this`announced, this`cached
      ensures closed == ClosedOf(bars, cutoff)
      ensures Cached(key) == old(Cached(key)) + Members(closed)
      ensures Announced(key) == old(Announced(key)) + After(closed, last)
      ensures Mark(key) == if closed == [] then old(Mark(key)) else NewerMark(old(Mark(key)), Last(closed))
      ensures Others(key) == old(Others(key))
    {
      var events;
      closed, events := Classify(SortTimes(bars), last, cutoff);
      if closed != [] { Publish(key, closed, events); }
    }

    /** The classification loop: closed bars, and among them those beyond the mark read before. */
    static method Classify(sorted: seq<int>, last: Option<int>, cutoff: int) returns (closed: seq<int>, events: seq<int>)
      ensures closed == UpTo(sorted, cutoff) && events == After(closed, last)
    {
      closed, events := [], [];
      for i := 0 to |sorted|
        invariant closed == UpTo(sorted[..i], cutoff) && events == After(closed, last)
      {
        assert sorted[..i + 1] == sorted[..i] + [sorted[i]];
        UpToSnoc(sorted[..i], sorted[i], cutoff);
        if sorted[i] <= cutoff {
          AfterSnoc(closed, sorted[i], last);
          closed := closed + [sorted[i]];
          if last.None? || sorted[i] > last.value {
            events := events + [sorted[i]];
          }
        }
      }
      assert sorted[..|sorted|] == sorted;
    }

    /** Cache a batch, announce the given closes of it, then advance the mark to its newest bar. */
    method Publish(key: string, batch: seq<int>, events: seq<int>)
      requires batch != []
      modifies this`lastOhlcTime, this`announced, this`cached
      ensures Cached(key) == old(Cached(key)) + Members(batch)
      ensures Announced(key) == old(Announced(key)) + events
      ensures Mark(key) == NewerMark(old(Mark(key)), Last(batch))
      ensures Others(key) == old(Others(key))
    {
      CacheBars(key, batch);
      Announce(key, events);
      SetLastOhlcTimeIfNewer(key, Last(batch));
    }

    /** The backfill of one key, for arbitrary broker answers; a key without a plan is skipped. */
    method BackfillKey(key: string, tf: int, answer: Broker) returns (fetches: nat)
      modifies this`lastOhlcTime, this`announced, this`backfillProgress, this`cached
      ensures key !in old(backfillProgress) || key !in backfillCutoff ==>
        fetches == 0 && backfillProgress == old(backfillProgress) && Mark(key) == old(Mark(key))
        && Announced(key) == old(Announced(key)) && Cached(key) == old(Cached(key))
      ensures key in old(backfillProgress) && key in backfillCutoff ==>
        var r := Backfill(answer, 0, tf, backfillCutoff[key], old(backfillProgress)[key], old(Mark(key)));
        && fetches == r.fetches
        && backfillProgress == old(backfillProgress)[key := r.progress]
        && Mark(key) == r.mark
        && Announced(key) == old(Announced(key)) + r.announced
        && Cached(key) == old(Cached(key)) + Members(r.announced)
      ensures Others(key) == old(Others(key))
    {
      fetches := 0;
      if key !in backfillProgress || key !in backfillCutoff { return; }
      var progress;
      ghost var sent, start;
      fetches, progress, sent, start := RunBackfill(key, tf, answer, backfillProgress[key], backfillCutoff[key]);
      SoFarEnds(start.goal, sent, fetches, progress, Mark(key));
    }

    /** From `start` on, n fetches have brought the progress to `lastTs` and published `sent`, and `rest`
        is what remains to be done; no other key has changed. */
    ghost predicate Reached(key: string, start: Launch, rest: Backfilled, n: nat, lastTs: int, sent: seq<int>)
      reads this
    {
      && backfillProgress == start.plan[key := lastTs]
      && SoFar(start.goal, sent, n, rest)
      && Announced(key) == start.log + sent
      && Cached(key) == start.seen + Members(sent)
      && Others(key) == start.others
    }

    /** The loop: fetch from the progress on, publish what is closed, go on while progress is made. */
    method RunBackfill(key: string, tf: int, answer: Broker, from: int, cutoff: int)
      returns (fetches: nat, lastTs: int, ghost sent: seq<int>, ghost start: Launch)
      requires key in backfillProgress && backfillProgress[key] == from
      modifies this`lastOhlcTime, this`announced, this`backfillProgress, this`cached
      ensures start == Launch(Backfill(answer, 0, tf, cutoff, from, old(Mark(key))), old(Announced(key)),
                              old(Cached(key)), old(Others(key)), old(backfillProgress))
      ensures Reached(key, start, Nothing(lastTs, Mark(key)), fetches, lastTs, sent)
    {
      fetches, lastTs, sent := 0, from, [];
      start := Launch(Backfill(answer, 0, tf, cutoff, from, Mark(key)), Announced(key), Cached(key), Others(key), backfillProgress);
      NothingSent(start.log);
      NothingSent(start.goal.announced);
      while lastTs < cutoff
        invariant Reached(key, start, Backfill(answer, fetches, tf, cutoff, lastTs, Mark(key)), fetches, lastTs, sent)
        decreases cutoff - lastTs
      {
        var more, next;
        more, next, sent := BackfillOnce(key, tf, answer, fetches, lastTs, cutoff, start, sent);
        fetches := fetches + 1;
        if !more { return; }
        lastTs := next;
      }
    }

    /** One turn of the loop: fetch, publish what is closed, and say whether progress was made. */
    method BackfillOnce(key: string, tf: int, answer: Broker, n: nat, lastTs: int, cutoff: int,
                        ghost start: Launch, ghost sent: seq<int>)
      returns (more: bool, next: int, ghost sent': seq<int>)
      requires lastTs < cutoff
      requires Reached(key, start, Backfill(answer, n, tf, cutoff, lastTs, Mark(key)), n, lastTs, sent)
      modifies this`lastOhlcTime, this`announced, this`backfillProgress, this`cached
      ensures !more ==> Reached(key, start, Nothing(lastTs, Mark(key)), n + 1, lastTs, sent')
      ensures more ==> lastTs < next
      ensures more ==> Reached(key, start, Backfill(answer, n + 1, tf, cutoff, next, Mark(key)), n + 1, next, sent')
    {
      var closed := BatchOf(answer(n, lastTs + tf), cutoff);
      SoFarTurn(start.goal, sent, answer, n, tf, cutoff, lastTs, Mark(key), closed);
      sent' := sent + closed;
      if closed == [] {
        NothingSent(sent);
        return false, lastTs, sent;
      }
      next := Last(closed);
      more := next > lastTs;
      PublishMore(key, closed, start, sent);
      if more {
        PlanReplaced(start.plan, key, lastTs, next);
        backfillProgress := backfillProgress[key := next];
      }
    }

    /** Publish a batch in which every bar is announced, on top of what was published since `start`. */
    method PublishMore(key: string, closed: seq<int>, ghost start: Launch, ghost sent: seq<int>)
      requires closed != []
      requires Announced(key) == start.log + sent && Cached(key) == start.seen + Members(sent)
      modifies this`lastOhlcTime, this`announced, this`cached
      ensures Announced(key) == start.log + (sent + closed) && Cached(key) == start.seen + Members(sent + closed)
      ensures Mark(key) == NewerMark(old(Mark(key)), Last(closed))
      ensures Others(key) == old(Others(key))
    {
      Publish(key, closed, closed);
      ConcatAssociates(start.log, sent, closed);
      MembersConcat(sent, closed);
    }
  }
}

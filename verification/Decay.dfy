/** Economic-event confidence decay: a piecewise-linear function of the distance to the nearest
    event, served through a short-lived cache. Times and distances are reals in minutes. */
module Decay {
  import opened Common
  import CalendarLifecycle

  // ---------------------------------------------------------------- policy

  datatype EventWindow = EventWindow(lookahead: int, lookback: int, importanceMin: int)

  datatype Policy = Policy(
    enabled: bool,
    filterWindow: EventWindow,
    queryWindow: EventWindow,
    hardPre: int,
    hardPost: int,
    decayPre: int,
    decayPost: int)

  datatype Settings = Settings(
    enabled: bool,
    highImportance: int,
    preBuffer: int,
    postBuffer: int,
    approaching: int,
    postEvent: int)

  predicate WellBuilt(p: Policy) {
    && 0 <= p.hardPre <= p.decayPre
    && 0 <= p.hardPost <= p.decayPost
    && p.queryWindow.lookahead == p.decayPre
    && p.queryWindow.lookback == p.decayPost
    && p.filterWindow.lookahead == p.hardPre
    && p.filterWindow.lookback == p.hardPost
  }

  function BuildPolicy(s: Settings): (p: Policy)
    ensures WellBuilt(p) && p.enabled == s.enabled
    ensures p.queryWindow.importanceMin == p.filterWindow.importanceMin >= 1
    ensures s.highImportance >= 1 ==> p.filterWindow.importanceMin == s.highImportance
    ensures s.highImportance < 1 ==> p.filterWindow.importanceMin == 1
    ensures s.preBuffer >= 0 ==> p.hardPre == s.preBuffer
    ensures s.postBuffer >= 0 ==> p.hardPost == s.postBuffer
    ensures s.preBuffer < 0 ==> p.hardPre == 0
    ensures s.postBuffer < 0 ==> p.hardPost == 0
    ensures p.decayPre == (if s.approaching >= p.hardPre then s.approaching else p.hardPre)
    ensures p.decayPost == (if s.postEvent >= p.hardPost then s.postEvent else p.hardPost)
  {
    var importance := MaxInt(1, s.highImportance);
    var hardPre, hardPost := MaxInt(0, s.preBuffer), MaxInt(0, s.postBuffer);
    var decayPre, decayPost := MaxInt(hardPre, s.approaching), MaxInt(hardPost, s.postEvent);
    Policy(s.enabled, EventWindow(hardPre, hardPost, importance), EventWindow(decayPre, decayPost, importance),
           hardPre, hardPost, decayPre, decayPost)
  }

  /** Confidence for an event `delta` minutes ahead (negative: already past). */
  function DecayForDelta(p: Policy, delta: real): (r: real)
    ensures 0.0 <= r <= 1.0
  {
    if !p.enabled then 1.0
    else if delta > p.decayPre as real then 1.0
    else if delta > p.hardPre as real then
      var span := (p.decayPre - p.hardPre) as real;
      if span <= 0.0 then 0.0
      else MaxReal(0.0, MinReal(1.0, (delta - p.hardPre as real) / span))
    else if delta >= 0.0 then 0.0
    else if delta >= -(p.hardPost as real) then 0.0
    else if delta >= -(p.decayPost as real) then
      var span := (p.decayPost - p.hardPost) as real;
      if span <= 0.0 then 1.0
      else MaxReal(0.0, MinReal(1.0, (AbsReal(delta) - p.hardPost as real) / span))
    else 1.0
  }

  /** The decay at every distance, without reference to the ramp's formula: nothing outside the decay
      window, everything inside the block, and in between the distance gained on the block is the same
      share of the span. A disabled policy never acts. */
  lemma DecayShape(p: Policy, delta: real)
    requires WellBuilt(p)
    ensures var r, hPre, hPost := DecayForDelta(p, delta), p.hardPre as real, p.hardPost as real;
      && (!p.enabled ==> r == 1.0)
      && (p.enabled ==>
            && (r == 0.0 <==> -hPost <= delta <= hPre)
            && (delta >= p.decayPre as real && delta > hPre ==> r == 1.0)
            && (delta <= -(p.decayPost as real) && delta < -hPost ==> r == 1.0)
            && (hPre < delta <= p.decayPre as real ==> r * (p.decayPre as real - hPre) == delta - hPre)
            && (-(p.decayPost as real) <= delta < -hPost ==> r * (p.decayPost as real - hPost) == -delta - hPost))
  {
    if p.enabled && p.hardPre as real < delta <= p.decayPre as real {
      ShareOf(delta - p.hardPre as real, (p.decayPre - p.hardPre) as real);
    }
    if p.enabled && -(p.decayPost as real) <= delta < -(p.hardPost as real) {
      ShareOf(-delta - p.hardPost as real, (p.decayPost - p.hardPost) as real);
    }
  }

  lemma ShareOf(gained: real, span: real)
    requires 0.0 < gained <= span
    ensures 0.0 < gained / span <= 1.0 && (gained / span) * span == gained
    ensures gained == span ==> gained / span == 1.0
  {
    assert (gained / span) * span == gained;
  }

  predicate PositiveSpans(p: Policy) {
    p.decayPre > p.hardPre && p.decayPost > p.hardPost
  }

  predicate Symmetric(p: Policy) {
    p.hardPre == p.hardPost && p.decayPre == p.decayPost
  }

  function MinSpan(p: Policy): real {
    MinInt(p.decayPre - p.hardPre, p.decayPost - p.hardPost) as real
  }

  // ---------------------------------------------------------------- the ramp

  /** Decay at distance d on one side: 0 up to the block, linear, 1 beyond. */
  ghost function Ramp(d: real, h: real, span: real): real
    requires span > 0.0
  {
    MaxReal(0.0, MinReal(1.0, (d - h) / span))
  }

  lemma QuotientOrder(a: real, b: real, span: real)
    requires span > 0.0 && a <= b
    ensures a / span <= b / span
    ensures (b / span - a / span) * span == b - a
  {
    assert (a / span) * span == a && (b / span) * span == b;
  }

  lemma RampSlope(d: real, e: real, h: real, span: real)
    requires span > 0.0 && d <= e
    ensures Ramp(d, h, span) <= Ramp(e, h, span)
    ensures (Ramp(e, h, span) - Ramp(d, h, span)) * span <= e - d
  {
    QuotientOrder(d - h, e - h, span);
    var x, y := (d - h) / span, (e - h) / span;
    assert Ramp(e, h, span) - Ramp(d, h, span) <= y - x;
    Scale(Ramp(e, h, span) - Ramp(d, h, span), y - x, span);
  }

  lemma Scale(a: real, b: real, span: real)
    requires span >= 0.0 && a <= b
    ensures a * span <= b * span
  {
  }

  lemma RampEnds(d: real, h: real, span: real)
    requires span > 0.0
    ensures d <= h ==> Ramp(d, h, span) == 0.0
    ensures d >= h + span ==> Ramp(d, h, span) == 1.0
  {
    if d <= h { QuotientOrder(d - h, 0.0, span); }
    if d >= h + span {
      QuotientOrder(span, d - h, span);
      assert span / span == 1.0;
    }
  }

  /** A side of the event with a positive span is a ramp of the distance. */
  lemma DecayIsRamp(p: Policy, delta: real)
    requires WellBuilt(p) && p.enabled
    ensures p.decayPre > p.hardPre && delta >= 0.0 ==>
      DecayForDelta(p, delta) == Ramp(delta, p.hardPre as real, (p.decayPre - p.hardPre) as real)
    ensures p.decayPost > p.hardPost && delta <= 0.0 ==>
      DecayForDelta(p, delta) == Ramp(-delta, p.hardPost as real, (p.decayPost - p.hardPost) as real)
  {
    if p.decayPre > p.hardPre { RampEnds(delta, p.hardPre as real, (p.decayPre - p.hardPre) as real); }
    if p.decayPost > p.hardPost { RampEnds(-delta, p.hardPost as real, (p.decayPost - p.hardPost) as real); }
  }

  /** a and b differ by at most gap / m. */
  ghost predicate Close(a: real, b: real, m: real, gap: real) {
    AbsReal(a - b) * m <= gap
  }

  lemma CloseWeaken(a: real, b: real, c: real, d: real, m: real, gap: real)
    requires m > 0.0 && Close(a, b, m, gap) && AbsReal(c - d) <= AbsReal(a - b)
    ensures Close(c, d, m, gap)
  {
    Scale(AbsReal(c - d), AbsReal(a - b), m);
  }

  /** On one side, the ramp's slope is at most 1 / m for any m up to its span. */
  lemma OneSide(d: real, e: real, h: real, span: real, m: real)
    requires 0.0 < m <= span
    ensures Close(Ramp(d, h, span), Ramp(e, h, span), m, AbsReal(d - e))
  {
    var lo, hi := MinReal(d, e), MaxReal(d, e);
    RampSlope(lo, hi, h, span);
    var rise := Ramp(hi, h, span) - Ramp(lo, h, span);
    SlackScale(rise, m, span, hi - lo);
    assert AbsReal(Ramp(d, h, span) - Ramp(e, h, span)) == rise;
  }

  lemma SlackScale(rise: real, m: real, span: real, gap: real)
    requires rise >= 0.0 && m <= span && rise * span <= gap
    ensures rise * m <= gap
  {
    Scale(m, span, rise);
  }

  /** m is no larger than any positive span, so 1 / m bounds the slope of every ramp. */
  predicate SlopeFits(p: Policy, m: real) {
    && m > 0.0
    && (p.decayPre > p.hardPre ==> m <= (p.decayPre - p.hardPre) as real)
    && (p.decayPost > p.hardPost ==> m <= (p.decayPost - p.hardPost) as real)
  }

  /** Between x and y lies the edge of a block that has no ramp: the decay jumps there. */
  predicate CrossesJump(p: Policy, x: real, y: real) {
    var lo, hi := MinReal(x, y), MaxReal(x, y);
    || (p.decayPre == p.hardPre && lo <= p.hardPre as real < hi)
    || (p.decayPost == p.hardPost && lo < -(p.hardPost as real) <= hi)
  }

  lemma BeforeEvent(p: Policy, x: real, y: real, m: real)
    requires WellBuilt(p) && p.enabled && SlopeFits(p, m) && !CrossesJump(p, x, y) && x >= 0.0 && y >= 0.0
    ensures Close(DecayForDelta(p, x), DecayForDelta(p, y), m, AbsReal(x - y))
  {
    if p.decayPre > p.hardPre {
      DecayIsRamp(p, x);
      DecayIsRamp(p, y);
      OneSide(x, y, p.hardPre as real, (p.decayPre - p.hardPre) as real, m);
    } else {
      assert DecayForDelta(p, x) == DecayForDelta(p, y);
    }
  }

  lemma AfterEvent(p: Policy, x: real, y: real, m: real)
    requires WellBuilt(p) && p.enabled && SlopeFits(p, m) && !CrossesJump(p, x, y) && x <= 0.0 && y <= 0.0
    ensures Close(DecayForDelta(p, x), DecayForDelta(p, y), m, AbsReal(x - y))
  {
    if p.decayPost > p.hardPost {
      DecayIsRamp(p, x);
      DecayIsRamp(p, y);
      OneSide(-x, -y, p.hardPost as real, (p.decayPost - p.hardPost) as real, m);
    } else {
      assert DecayForDelta(p, x) == DecayForDelta(p, y);
    }
  }

  /** Across the event both distances are measured against the zero decay at the event itself. */
  lemma AcrossEvent(p: Policy, x: real, y: real, m: real)
    requires WellBuilt(p) && p.enabled && SlopeFits(p, m) && !CrossesJump(p, x, y) && x >= 0.0 >= y
    ensures Close(DecayForDelta(p, x), DecayForDelta(p, y), m, AbsReal(x - y))
  {
    var a, b := DecayForDelta(p, x), DecayForDelta(p, y);
    BeforeEvent(p, x, 0.0, m);
    AfterEvent(p, y, 0.0, m);
    assert DecayForDelta(p, 0.0) == 0.0;
    if a >= b { CloseWeaken(a, 0.0, a, b, m, x); } else { CloseWeaken(b, 0.0, a, b, m, -y); }
  }

  lemma CloseSymmetric(a: real, b: real, m: real, gap: real)
    requires Close(a, b, m, gap)
    ensures Close(b, a, m, gap)
  {
  }

  /** Away from the jumps, moving the evaluation time by x minutes changes the decay by at most x / m. */
  lemma DecayIsPiecewiseLipschitz(p: Policy, x: real, y: real, m: real)
    requires WellBuilt(p) && p.enabled && SlopeFits(p, m) && !CrossesJump(p, x, y)
    ensures Close(DecayForDelta(p, x), DecayForDelta(p, y), m, AbsReal(x - y))
  {
    if x >= 0.0 && y >= 0.0 {
      BeforeEvent(p, x, y, m);
    } else if x <= 0.0 && y <= 0.0 {
      AfterEvent(p, x, y, m);
    } else if x > 0.0 {
      AcrossEvent(p, x, y, m);
    } else {
      AcrossEvent(p, y, x, m);
      CloseSymmetric(DecayForDelta(p, y), DecayForDelta(p, x), m, AbsReal(y - x));
      assert AbsReal(y - x) == AbsReal(x - y);
    }
  }

  /** For moves too short to climb a ramp or to leave both blocks, the bound holds exactly unless the
      move crosses a jump. */
  lemma ShortMovesAreCloseIff(p: Policy, x: real, y: real, m: real)
    requires WellBuilt(p) && p.enabled && SlopeFits(p, m)
    requires AbsReal(x - y) < m && AbsReal(x - y) <= (p.hardPre + p.hardPost) as real
    ensures Close(DecayForDelta(p, x), DecayForDelta(p, y), m, AbsReal(x - y)) <==> !CrossesJump(p, x, y)
  {
    if CrossesJump(p, x, y) {
      var lo, hi := MinReal(x, y), MaxReal(x, y);
      assert AbsReal(DecayForDelta(p, lo) - DecayForDelta(p, hi)) == 1.0;
    } else {
      DecayIsPiecewiseLipschitz(p, x, y, m);
    }
  }

  /** With a ramp on both sides the bound holds everywhere, with the shorter span. */
  lemma DecayIsLipschitz(p: Policy, x: real, y: real)
    requires WellBuilt(p) && p.enabled && PositiveSpans(p)
    ensures Close(DecayForDelta(p, x), DecayForDelta(p, y), MinSpan(p), AbsReal(x - y))
  {
    DecayIsPiecewiseLipschitz(p, x, y, MinSpan(p));
  }

  /** The decay curve has slope at most 1 / m. */
  ghost predicate HasSlope(p: Policy, m: real) {
    m > 0.0 && forall x, y :: Close(DecayForDelta(p, x), DecayForDelta(p, y), m, AbsReal(x - y))
  }

  /** Some bound on the slope exists exactly when both spans are positive: a zero span is a jump. */
  lemma LipschitzNeedsSpans(p: Policy)
    requires WellBuilt(p) && p.enabled
    ensures PositiveSpans(p) <==> exists m :: HasSlope(p, m)
  {
    if PositiveSpans(p) {
      forall x, y { DecayIsLipschitz(p, x, y); }
      assert HasSlope(p, MinSpan(p));
    } else {
      forall m ensures !HasSlope(p, m) {
        if m > 0.0 { JumpBeatsSlope(p, m); }
      }
    }
  }

  lemma JumpBeatsSlope(p: Policy, m: real)
    requires WellBuilt(p) && p.enabled && !PositiveSpans(p) && m > 0.0
    ensures !HasSlope(p, m)
  {
    var e := m / 2.0;
    var y := if p.decayPre == p.hardPre then p.hardPre as real else -(p.hardPost as real);
    var x := if p.decayPre == p.hardPre then y + e else y - e;
    assert DecayForDelta(p, x) == 1.0 && DecayForDelta(p, y) == 0.0;
    assert AbsReal(x - y) == e;
    assert !Close(DecayForDelta(p, x), DecayForDelta(p, y), m, AbsReal(x - y));
  }

  /** 30-minute blocks, 120 minutes of approach, 15 after the event. */
  function ShippedPolicy(importance: int): Policy { BuildPolicy(Settings(true, importance, 30, 30, 120, 15)) }

  /** The shipped settings give the post-event side a zero span, so no bound on the slope holds for
      them everywhere. */
  lemma ShippedSettingsHaveNoSlope(importance: int, m: real)
    ensures !HasSlope(ShippedPolicy(importance), m)
  {
    LipschitzNeedsSpans(ShippedPolicy(importance));
  }

  /** What does hold for them: moves of at most an hour change the decay by at most a ninetieth per
      minute, exactly unless they cross the instant half an hour after the event. */
  lemma ShippedSettingsJumpOnce(importance: int, x: real, y: real)
    requires AbsReal(x - y) <= 60.0
    ensures Close(DecayForDelta(ShippedPolicy(importance), x), DecayForDelta(ShippedPolicy(importance), y), 90.0, AbsReal(x - y))
       <==> !(MinReal(x, y) < -30.0 <= MaxReal(x, y))
  {
    ShortMovesAreCloseIff(ShippedPolicy(importance), x, y, 90.0);
  }

  // ---------------------------------------------------------------- the query

  /** A calendar event. The provider selects by the scheduled time; the query reads the same instant
      from an `event_time` attribute that an event may or may not have, and skips events without it. */
  datatype Event = Event(scheduledAt: real, hasEventTime: bool)

  function TimedAt(t: real): Event { Event(t, true) }

  const Limit := 5

  predicate InWindow(p: Policy, e: Event, at: real) {
    -(p.queryWindow.lookback as real) <= e.scheduledAt - at <= p.queryWindow.lookahead as real
  }

  /** The provider's answer before its limit applies. */
  function Nearby(p: Policy, events: seq<Event>, at: real): seq<Event> {
    if events == [] then []
    else
      var n := |events| - 1;
      if InWindow(p, events[n], at) then Nearby(p, events[..n], at) + [events[n]] else Nearby(p, events[..n], at)
  }

  function GetEvents(p: Policy, events: seq<Event>, at: real): seq<Event> {
    var near := Nearby(p, events, at);
    if |near| <= Limit then near else near[..Limit]
  }

  function Closer(best: Option<real>, delta: real): Option<real> {
    if best.None? || AbsReal(delta) < AbsReal(best.value) then Some(delta) else best
  }

  /** The delta of smallest size, the first one on a tie. */
  function BestDelta(events: seq<Event>, at: real): Option<real> {
    if events == [] then None
    else
      var n := |events| - 1;
      var best := BestDelta(events[..n], at);
      if !events[n].hasEventTime then best else Closer(best, events[n].scheduledAt - at)
  }

  function Query(p: Policy, events: seq<Event>, at: real): (r: real)
    ensures 0.0 <= r <= 1.0
  {
    var best := BestDelta(GetEvents(p, events, at), at);
    if best.None? then 1.0 else DecayForDelta(p, best.value)
  }

  /** The scan for the nearest event. */
  method QueryProvider(p: Policy, events: seq<Event>, at: real) returns (r: real)
    ensures r == Query(p, events, at)
  {
    var got := GetEvents(p, events, at);
    if got == [] { return 1.0; }
    var best: Option<real> := None;
    for i := 0 to |got|
      invariant best == BestDelta(got[..i], at)
    {
      assert got[..i + 1][..i] == got[..i];
      if !got[i].hasEventTime { continue; }
      var delta := got[i].scheduledAt - at;
      if best.None? || AbsReal(delta) < AbsReal(best.value) {
        best := Some(delta);
      }
    }
    assert got[..|got|] == got;
    if best.None? { return 1.0; }
    r := DecayForDelta(p, best.value);
  }

  // ---------------------------------------------------------------- nearest event = lowest decay

  /** Reference definition: the lowest decay over all events, near or far. */
  ghost function LowestDecay(p: Policy, events: seq<Event>, at: real): real {
    if events == [] then 1.0
    else
      var n := |events| - 1;
      var before := LowestDecay(p, events[..n], at);
      if !events[n].hasEventTime then before else MinReal(before, DecayForDelta(p, events[n].scheduledAt - at))
  }

  ghost predicate AtMostOneTimed(events: seq<Event>) {
    forall i, j :: 0 <= i < j < |events| ==> !events[i].hasEventTime || !events[j].hasEventTime
  }

  /** The conditions under which the nearest event is the one that matters. */
  ghost predicate NearestDecides(p: Policy, events: seq<Event>) {
    Symmetric(p) || AtMostOneTimed(events)
  }

  lemma FartherIsMilder(p: Policy, x: real, y: real)
    requires WellBuilt(p) && p.enabled && Symmetric(p)
    requires AbsReal(x) <= AbsReal(y)
    ensures DecayForDelta(p, x) <= DecayForDelta(p, y)
  {
    if p.decayPre > p.hardPre {
      DecayIsRamp(p, x);
      DecayIsRamp(p, y);
      RampSlope(AbsReal(x), AbsReal(y), p.hardPre as real, (p.decayPre - p.hardPre) as real);
    }
  }

  /** What the provider is asked for: the events scheduled from the look-back to the look-ahead, the
      first five of them in its own order. */
  lemma GetEventsIff(p: Policy, events: seq<Event>, at: real, e: Event)
    requires WellBuilt(p)
    ensures e in Nearby(p, events, at) <==>
              e in events && at - p.decayPost as real <= e.scheduledAt <= at + p.decayPre as real
    ensures |GetEvents(p, events, at)| == MinInt(5, |Nearby(p, events, at)|)
    ensures GetEvents(p, events, at) == Nearby(p, events, at)[..|GetEvents(p, events, at)|]
  {
    NearbyMembers(p, events, at);
    if e in Nearby(p, events, at) { NearbyInWindow(p, events, at, e); }
    if e in events && InWindow(p, e, at) { NearbyKeeps(p, events, at, e); }
  }

  lemma OutsideWindowIsHarmless(p: Policy, e: Event, at: real)
    requires WellBuilt(p) && !InWindow(p, e, at)
    ensures DecayForDelta(p, e.scheduledAt - at) == 1.0
  {
  }

  ghost function DecayOf(p: Policy, best: Option<real>): real {
    if best.None? then 1.0 else DecayForDelta(p, best.value)
  }

  lemma {:induction false} NoneTimed(events: seq<Event>, at: real)
    requires forall i :: 0 <= i < |events| ==> !events[i].hasEventTime
    ensures BestDelta(events, at) == None
  {
    if events != [] { NoneTimed(events[..|events| - 1], at); }
  }

  lemma {:induction false} NearbyMembers(p: Policy, events: seq<Event>, at: real)
    ensures forall e :: e in Nearby(p, events, at) ==> e in events
  {
    if events != [] {
      var n := |events| - 1;
      NearbyMembers(p, events[..n], at);
    }
  }

  lemma NearbySnoc(p: Policy, events: seq<Event>, e: Event, at: real)
    ensures Nearby(p, events + [e], at) == if InWindow(p, e, at) then Nearby(p, events, at) + [e] else Nearby(p, events, at)
  {
    assert (events + [e])[..|events|] == events;
  }

  lemma BestSnoc(events: seq<Event>, e: Event, at: real)
    ensures BestDelta(events + [e], at)
         == if e.hasEventTime then Closer(BestDelta(events, at), e.scheduledAt - at) else BestDelta(events, at)
  {
    assert (events + [e])[..|events|] == events;
  }

  lemma LowestSnoc(p: Policy, events: seq<Event>, e: Event, at: real)
    ensures LowestDecay(p, events + [e], at)
         == if e.hasEventTime then MinReal(LowestDecay(p, events, at), DecayForDelta(p, e.scheduledAt - at))
            else LowestDecay(p, events, at)
  {
    assert (events + [e])[..|events|] == events;
  }

  /** The decay of the nearest event in the window is the lowest decay of any event. */
  ghost predicate NearestCounts(p: Policy, events: seq<Event>, at: real) {
    DecayOf(p, BestDelta(Nearby(p, events, at), at)) == LowestDecay(p, events, at)
  }

  lemma {:induction false} NearestIsLowest(p: Policy, events: seq<Event>, at: real)
    requires WellBuilt(p) && p.enabled && NearestDecides(p, events)
    ensures NearestCounts(p, events, at)
    decreases |events|
  {
    if events != [] {
      var front, e := Unsnoc(events);
      NearestIsLowest(p, front, at);
      NearestStep(p, front, e, at);
    }
  }

  lemma NearestStep(p: Policy, front: seq<Event>, e: Event, at: real)
    requires WellBuilt(p) && p.enabled && NearestDecides(p, front + [e]) && NearestCounts(p, front, at)
    ensures NearestCounts(p, front + [e], at)
  {
    NearbySnoc(p, front, e, at);
    LowestSnoc(p, front, e, at);
    if !InWindow(p, e, at) {
      OutsideWindowIsHarmless(p, e, at);
      LowestInRange(p, front, at);
    } else {
      BestSnoc(Nearby(p, front, at), e, at);
      if e.hasEventTime { CloserIsLower(p, front, e, at); }
    }
  }

  /** Taking the closer of the old nearest and the new event is taking the lower of their decays. */
  lemma CloserIsLower(p: Policy, front: seq<Event>, e: Event, at: real)
    requires WellBuilt(p) && p.enabled && NearestDecides(p, front + [e]) && e.hasEventTime
    ensures var best, delta := BestDelta(Nearby(p, front, at), at), e.scheduledAt - at;
      DecayOf(p, Closer(best, delta)) == MinReal(DecayOf(p, best), DecayForDelta(p, delta))
  {
    var best, delta := BestDelta(Nearby(p, front, at), at), e.scheduledAt - at;
    if Symmetric(p) {
      if best.Some? {
        if AbsReal(delta) < AbsReal(best.value) { FartherIsMilder(p, delta, best.value); }
        else { FartherIsMilder(p, best.value, delta); }
      }
    } else {
      OnlyTimedIsLast(front, e);
      NoneTimedNearby(p, front, at);
    }
  }

  lemma OnlyTimedIsLast(front: seq<Event>, e: Event)
    requires AtMostOneTimed(front + [e]) && e.hasEventTime
    ensures forall x :: x in front ==> !x.hasEventTime
  {
    forall i | 0 <= i < |front| ensures !front[i].hasEventTime {
      assert (front + [e])[i] == front[i] && (front + [e])[|front|] == e;
    }
  }

  lemma NoneTimedNearby(p: Policy, events: seq<Event>, at: real)
    requires forall e :: e in events ==> !e.hasEventTime
    ensures BestDelta(Nearby(p, events, at), at) == None
  {
    var near := Nearby(p, events, at);
    NearbyMembers(p, events, at);
    forall i | 0 <= i < |near| ensures !near[i].hasEventTime {
      assert near[i] in near;
    }
    NoneTimed(near, at);
  }

  lemma {:induction false} LowestInRange(p: Policy, events: seq<Event>, at: real)
    ensures 0.0 <= LowestDecay(p, events, at) <= 1.0
  {
    if events != [] { LowestInRange(p, events[..|events| - 1], at); }
  }

  ghost predicate WithinLimit(p: Policy, events: seq<Event>, at: real) {
    |Nearby(p, events, at)| <= Limit
  }

  /** Within the provider limit the query returns the lowest decay of any event. */
  lemma QueryIsLowest(p: Policy, events: seq<Event>, at: real)
    requires WellBuilt(p) && p.enabled && NearestDecides(p, events)
    requires WithinLimit(p, events, at)
    ensures Query(p, events, at) == LowestDecay(p, events, at)
  {
    NearestIsLowest(p, events, at);
  }

  lemma MinIsLipschitz(a: real, b: real, c: real, d: real, m: real, gap: real)
    requires m > 0.0 && Close(a, c, m, gap) && Close(b, d, m, gap)
    ensures Close(MinReal(a, b), MinReal(c, d), m, gap)
  {
    var x, y := MinReal(a, b), MinReal(c, d);
    if AbsReal(a - c) >= AbsReal(b - d) { CloseWeaken(a, c, x, y, m, gap); } else { CloseWeaken(b, d, x, y, m, gap); }
  }

  /** Between the two evaluation times no event's distance crosses a jump. */
  ghost predicate NoJump(p: Policy, events: seq<Event>, a: real, c: real) {
    forall e :: e in events && e.hasEventTime ==> !CrossesJump(p, e.scheduledAt - a, e.scheduledAt - c)
  }

  lemma {:induction false} LowestIsLipschitz(p: Policy, events: seq<Event>, a: real, c: real, m: real)
    requires WellBuilt(p) && p.enabled && SlopeFits(p, m) && NoJump(p, events, a, c)
    ensures Close(LowestDecay(p, events, a), LowestDecay(p, events, c), m, AbsReal(a - c))
    decreases |events|
  {
    if events != [] {
      var front, e := Unsnoc(events);
      LowestIsLipschitz(p, front, a, c, m);
      LowestSnoc(p, front, e, a);
      LowestSnoc(p, front, e, c);
      if e.hasEventTime {
        assert e in events;
        LowestMoves(p, LowestDecay(p, front, a), LowestDecay(p, front, c), e.scheduledAt, a, c, m);
      }
    }
  }

  lemma LowestMoves(p: Policy, x: real, y: real, t: real, a: real, c: real, m: real)
    requires WellBuilt(p) && p.enabled && SlopeFits(p, m) && !CrossesJump(p, t - a, t - c)
    requires Close(x, y, m, AbsReal(a - c))
    ensures Close(MinReal(x, DecayForDelta(p, t - a)), MinReal(y, DecayForDelta(p, t - c)), m, AbsReal(a - c))
  {
    DecayIsPiecewiseLipschitz(p, t - a, t - c, m);
    assert AbsReal((t - a) - (t - c)) == AbsReal(a - c);
    MinIsLipschitz(x, DecayForDelta(p, t - a), y, DecayForDelta(p, t - c), m, AbsReal(a - c));
  }

  /** Two queries x minutes apart, with no jump between them, differ by at most x / m. */
  lemma QueryIsPiecewiseLipschitz(p: Policy, events: seq<Event>, a: real, c: real, m: real)
    requires WellBuilt(p) && p.enabled && SlopeFits(p, m) && NearestDecides(p, events) && NoJump(p, events, a, c)
    requires WithinLimit(p, events, a) && WithinLimit(p, events, c)
    ensures Close(Query(p, events, a), Query(p, events, c), m, AbsReal(a - c))
  {
    QueryIsLowest(p, events, a);
    QueryIsLowest(p, events, c);
    LowestIsLipschitz(p, events, a, c, m);
  }

  /** With a ramp on both sides, any two queries x minutes apart differ by at most x / MinSpan. */
  lemma QueryIsLipschitz(p: Policy, events: seq<Event>, a: real, c: real)
    requires WellBuilt(p) && p.enabled && PositiveSpans(p) && NearestDecides(p, events)
    requires WithinLimit(p, events, a) && WithinLimit(p, events, c)
    ensures Close(Query(p, events, a), Query(p, events, c), MinSpan(p), AbsReal(a - c))
  {
    QueryIsPiecewiseLipschitz(p, events, a, c, MinSpan(p));
  }

  // ---------------------------------------------------------------- events without the attribute

  lemma NearbyUntimed(p: Policy, events: seq<Event>, at: real)
    requires forall e :: e in events ==> !e.hasEventTime
    ensures BestDelta(GetEvents(p, events, at), at) == None
  {
    var got := GetEvents(p, events, at);
    NearbyMembers(p, events, at);
    forall i | 0 <= i < |got| ensures !got[i].hasEventTime {
      assert got[i] in Nearby(p, events, at);
    }
    NoneTimed(got, at);
  }

  /** The query reacts to an event list at some time exactly when some event of it has the attribute. */
  lemma QueryReactsIff(p: Policy, events: seq<Event>)
    requires WellBuilt(p) && p.enabled && forall at :: WithinLimit(p, events, at)
    ensures (exists at :: Query(p, events, at) < 1.0) <==> (exists e :: e in events && e.hasEventTime)
  {
    if e :| e in events && e.hasEventTime {
      var at := e.scheduledAt;
      NearbyKeeps(p, events, at, e);
      var best := BestIsNearest(Nearby(p, events, at), at, e);
      assert WithinLimit(p, events, at);
      assert best.scheduledAt - at == 0.0;
      assert Query(p, events, at) < 1.0;
    } else {
      forall at ensures Query(p, events, at) == 1.0 {
        NearbyUntimed(p, events, at);
      }
    }
  }

  /** The events that both calendar providers hand out: a scheduled time, and no `event_time`. */
  function CalendarEvents(reports: seq<CalendarLifecycle.Report>): (events: seq<Event>)
    ensures |events| == |reports|
    ensures forall i :: 0 <= i < |events| ==> events[i] == Event(reports[i].scheduledAt as real / 60.0, false)
  {
    seq(|reports|, i requires 0 <= i < |reports| => Event(reports[i].scheduledAt as real / 60.0, false))
  }

  /** For them the decay never acts, under any policy, at any time, with any number of events, even at
      the very instant at which the hard filter reports a blocking event. */
  lemma CalendarEventsNeverDecay(p: Policy, reports: seq<CalendarLifecycle.Report>, at: real)
    ensures Query(p, CalendarEvents(reports), at) == 1.0
    ensures WellBuilt(p) && p.enabled ==> forall r :: r in reports ==>
      HasBlockingEvent(p, CalendarEvents(reports), r.scheduledAt as real / 60.0)
      && Query(p, CalendarEvents(reports), r.scheduledAt as real / 60.0) == 1.0
  {
    NearbyUntimed(p, CalendarEvents(reports), at);
    forall r | WellBuilt(p) && p.enabled && r in reports
      ensures HasBlockingEvent(p, CalendarEvents(reports), r.scheduledAt as real / 60.0)
      ensures Query(p, CalendarEvents(reports), r.scheduledAt as real / 60.0) == 1.0
    {
      var i :| 0 <= i < |reports| && reports[i] == r;
      BlocksAtItsInstant(p, CalendarEvents(reports), i);
      NearbyUntimed(p, CalendarEvents(reports), r.scheduledAt as real / 60.0);
    }
  }

  lemma BlocksAtItsInstant(p: Policy, events: seq<Event>, i: nat)
    requires WellBuilt(p) && p.enabled && i < |events|
    ensures HasBlockingEvent(p, events, events[i].scheduledAt)
  {
    BlockedIff(p, events, events[i].scheduledAt);
    assert events[i] in events && InFilter(p, events[i].scheduledAt - events[i].scheduledAt);
  }

  // ---------------------------------------------------------------- unequal windows

  ghost predicate QueriesLipschitz(p: Policy) {
    forall events, a, c :: WithinLimit(p, events, a) && WithinLimit(p, events, c) ==>
      Close(Query(p, events, a), Query(p, events, c), MinSpan(p), AbsReal(a - c))
  }

  /** Two events around the evaluation time 0, x minutes away on either side, `first` listed first. */
  function Pair(first: real, second: real): seq<Event> {
    [TimedAt(first), TimedAt(second)]
  }

  lemma OneEvent(p: Policy, e: Event, at: real)
    ensures Nearby(p, [e], at) == if InWindow(p, e, at) then [e] else []
    ensures BestDelta([e], at) == if e.hasEventTime then Some(e.scheduledAt - at) else None
  {
    assert [] + [e] == [e];
    NearbySnoc(p, [], e, at);
    BestSnoc([], e, at);
  }

  lemma TwoEvents(p: Policy, d: Event, e: Event, at: real)
    requires InWindow(p, e, at)
    ensures Nearby(p, [d, e], at) == if InWindow(p, d, at) then [d, e] else [e]
    ensures BestDelta([d, e], at) == BestDelta([d] + [e], at)
  {
    assert [d, e] == [d] + [e];
    NearbySnoc(p, [d], e, at);
    OneEvent(p, d, at);
    assert [] + [e] == [e];
  }

  lemma PairQuery(p: Policy, first: real, second: real, at: real)
    requires InWindow(p, TimedAt(second), at)
    ensures WithinLimit(p, Pair(first, second), at)
    ensures AbsReal(second - at) < AbsReal(first - at) ==>
      Query(p, Pair(first, second), at) == DecayForDelta(p, second - at)
    ensures AbsReal(first - at) <= AbsReal(second - at) && InWindow(p, TimedAt(first), at) ==>
      Query(p, Pair(first, second), at) == DecayForDelta(p, first - at)
  {
    var d, e := TimedAt(first), TimedAt(second);
    TwoEvents(p, d, e, at);
    OneEvent(p, d, at);
    OneEvent(p, e, at);
    BestSnoc([d], e, at);
  }

  /** With one event before and one after, equally far, the next moment decides which one counts: a
      difference between the two sides there breaks the bound. */
  lemma SwitchBreaksBound(p: Policy, x: real, y: real, at: real)
    requires y == -x && (if y > 0.0 then 0.0 < at < y else y < at < 0.0)
    requires InWindow(p, TimedAt(x), 0.0) && InWindow(p, TimedAt(y), 0.0)
    requires InWindow(p, TimedAt(y), at)
    requires !Close(DecayForDelta(p, x), DecayForDelta(p, y - at), MinSpan(p), AbsReal(0.0 - at))
    ensures !QueriesLipschitz(p)
  {
    PairQuery(p, x, y, 0.0);
    PairQuery(p, x, y, at);
    assert AbsReal(y - at) < AbsReal(x - at);
  }

  /** A jump of this size is not covered by a gap of e. */
  ghost predicate Exceeds(jump: real, m: real, e: real) {
    jump * m > e
  }

  lemma JumpNotClose(a: real, b: real, m: real, jump: real, e: real)
    requires m > 0.0 && AbsReal(a - b) >= jump && Exceeds(jump, m, e)
    ensures !Close(a, b, m, e)
  {
    Scale(jump, AbsReal(a - b), m);
  }

  lemma HalfGap(jump: real, m: real, d: real) returns (e: real)
    requires jump > 0.0 && m > 0.0 && Close(jump, 0.0, m, d)
    ensures 0.0 < e < d && Exceeds(jump, m, e)
  {
    assert jump * m > 0.0;
    e := jump * m / 2.0;
  }

  /** If the far side differs from D(x) by at least `jump` throughout, the pair around 0 is a witness. */
  lemma BreaksFrom(p: Policy, x: real, jump: real, e: real)
    requires WellBuilt(p) && PositiveSpans(p)
    requires 0.0 < e < AbsReal(x) && Exceeds(jump, MinSpan(p), e)
    requires AbsReal(x) <= p.decayPre as real && AbsReal(x) <= p.decayPost as real
    requires forall z :: (if x > 0.0 then -x < z < 0.0 else 0.0 < z < -x) ==>
      AbsReal(DecayForDelta(p, x) - DecayForDelta(p, z)) >= jump
    ensures !QueriesLipschitz(p)
  {
    var at := if x > 0.0 then -e else e;
    JumpNotClose(DecayForDelta(p, x), DecayForDelta(p, -x - at), MinSpan(p), jump, e);
    assert AbsReal(0.0 - at) == e;
    SwitchBreaksBound(p, x, -x, at);
  }

  /** Unequal block windows: at the smaller distance one side still blocks and the other has recovered. */
  lemma UnequalBlocks(p: Policy, x: real)
    requires WellBuilt(p) && p.enabled && PositiveSpans(p)
    requires x > 0.0 ==> p.hardPre as real < x <= MinReal(p.hardPost as real, p.decayPre as real)
    requires x < 0.0 ==> p.hardPost as real < -x <= MinReal(p.hardPre as real, p.decayPost as real)
    requires x != 0.0
    ensures !QueriesLipschitz(p)
  {
    var jump := DecayForDelta(p, x);
    assert jump > 0.0 by {
      DecayIsRamp(p, x);
      RampIsPositive(AbsReal(x), if x > 0.0 then p.hardPre as real else p.hardPost as real,
                     (if x > 0.0 then p.decayPre - p.hardPre else p.decayPost - p.hardPost) as real);
    }
    DecayIsLipschitz(p, x, 0.0);
    assert DecayForDelta(p, 0.0) == 0.0;
    var e := HalfGap(jump, MinSpan(p), AbsReal(x));
    BreaksFrom(p, x, jump, e);
  }

  lemma RampIsPositive(d: real, h: real, span: real)
    requires span > 0.0 && d > h
    ensures Ramp(d, h, span) > 0.0
  {
    assert ((d - h) / span) * span == d - h;
  }

  lemma RampIsPartial(d: real, h: real, span: real)
    requires span > 0.0 && d < h + span
    ensures Ramp(d, h, span) < 1.0
  {
    assert ((d - h) / span) * span == d - h;
  }

  /** Unequal decay windows behind equal blocks: where one side has recovered the other has not. */
  lemma UnequalDecays(p: Policy, x: real)
    requires WellBuilt(p) && p.enabled && PositiveSpans(p) && p.hardPre == p.hardPost
    requires x > 0.0 ==> x == p.decayPre as real < p.decayPost as real
    requires x < 0.0 ==> -x == p.decayPost as real < p.decayPre as real
    requires x != 0.0
    ensures !QueriesLipschitz(p)
  {
    var d, v := AbsReal(x), DecayForDelta(p, -x);
    RecoveredSide(p, x);
    forall z | if x > 0.0 then -x < z < 0.0 else 0.0 < z < -x
      ensures AbsReal(DecayForDelta(p, x) - DecayForDelta(p, z)) >= 1.0 - v
    {
      SameSideIsMonotone(p, z, -x);
    }
    UnitClose(1.0 - v, MinSpan(p), d);
    var e := HalfGap(1.0 - v, MinSpan(p), d);
    BreaksFrom(p, x, 1.0 - v, e);
  }

  lemma UnitClose(a: real, m: real, d: real)
    requires 0.0 <= a <= 1.0 && 0.0 < m <= d
    ensures Close(a, 0.0, m, d)
  {
    Scale(a, 1.0, m);
  }

  /** At the edge of the shorter decay window its own side has recovered, the other has not. */
  lemma RecoveredSide(p: Policy, x: real)
    requires WellBuilt(p) && p.enabled && PositiveSpans(p) && p.hardPre == p.hardPost
    requires x > 0.0 ==> x == p.decayPre as real < p.decayPost as real
    requires x < 0.0 ==> -x == p.decayPost as real < p.decayPre as real
    requires x != 0.0
    ensures DecayForDelta(p, x) == 1.0 && DecayForDelta(p, -x) < 1.0
  {
    var d, h := AbsReal(x), p.hardPre as real;
    DecayIsRamp(p, x);
    DecayIsRamp(p, -x);
    RampEnds(d, h, d - h);
    RampIsPartial(d, h, (if x > 0.0 then p.decayPost - p.hardPost else p.decayPre - p.hardPre) as real);
  }

  lemma SameSideIsMonotone(p: Policy, z: real, w: real)
    requires WellBuilt(p) && p.enabled && PositiveSpans(p)
    requires 0.0 < z < w || w < z < 0.0
    ensures DecayForDelta(p, z) <= DecayForDelta(p, w)
  {
    DecayIsRamp(p, z);
    DecayIsRamp(p, w);
    if z > 0.0 { RampSlope(z, w, p.hardPre as real, (p.decayPre - p.hardPre) as real); }
    else { RampSlope(-z, -w, p.hardPost as real, (p.decayPost - p.hardPost) as real); }
  }

  /** For a working policy the bound holds for every event list exactly when the windows before and
      after an event are equal. */
  lemma LipschitzIffSymmetric(p: Policy)
    requires WellBuilt(p) && p.enabled && PositiveSpans(p)
    ensures QueriesLipschitz(p) <==> Symmetric(p)
  {
    if Symmetric(p) {
      forall events, a, c | WithinLimit(p, events, a) && WithinLimit(p, events, c)
        ensures Close(Query(p, events, a), Query(p, events, c), MinSpan(p), AbsReal(a - c))
      {
        QueryIsLipschitz(p, events, a, c);
      }
    } else if p.hardPre < p.hardPost {
      UnequalBlocks(p, MinReal(p.hardPost as real, p.decayPre as real));
    } else if p.hardPost < p.hardPre {
      UnequalBlocks(p, -MinReal(p.hardPre as real, p.decayPost as real));
    } else if p.decayPre < p.decayPost {
      UnequalDecays(p, p.decayPre as real);
    } else {
      UnequalDecays(p, -(p.decayPost as real));
    }
  }

  /** A concrete failure: blocks of 30 minutes before and 15 after, decay windows of 60 on both sides. */
  lemma UnequalWindowsBreakBound(importance: int)
    ensures !QueriesLipschitz(BuildPolicy(Settings(true, importance, 30, 15, 60, 60)))
  {
    LipschitzIffSymmetric(BuildPolicy(Settings(true, importance, 30, 15, 60, 60)));
  }

  // ---------------------------------------------------------------- hard block and decay

  predicate InFilter(p: Policy, delta: real) {
    -(p.filterWindow.lookback as real) <= delta <= p.filterWindow.lookahead as real
  }

  /** The provider's answer to the hard filter, before its limit of fifty. */
  function InFilterEvents(p: Policy, events: seq<Event>, at: real): seq<Event> {
    if events == [] then []
    else
      var n := |events| - 1;
      var front := InFilterEvents(p, events[..n], at);
      if InFilter(p, events[n].scheduledAt - at) then front + [events[n]] else front
  }

  /** The hard filter: the provider returns anything at all. */
  predicate HasBlockingEvent(p: Policy, events: seq<Event>, at: real) {
    var found := InFilterEvents(p, events, at);
    p.enabled && (if |found| <= 50 then found else found[..50]) != []
  }

  lemma {:induction false} InFilterMembers(p: Policy, events: seq<Event>, at: real)
    ensures InFilterEvents(p, events, at) != [] <==> exists e :: e in events && InFilter(p, e.scheduledAt - at)
  {
    if events != [] {
      var n := |events| - 1;
      assert events == events[..n] + [events[n]];
      InFilterMembers(p, events[..n], at);
    }
  }

  /** It blocks exactly when some event, with or without the attribute, lies in the filter window. */
  lemma BlockedIff(p: Policy, events: seq<Event>, at: real)
    ensures HasBlockingEvent(p, events, at) <==> p.enabled && exists e :: e in events && InFilter(p, e.scheduledAt - at)
    ensures WellBuilt(p) ==> forall e :: e in events ==>
      (InFilter(p, e.scheduledAt - at) <==> at - p.hardPost as real <= e.scheduledAt <= at + p.hardPre as real)
  {
    InFilterMembers(p, events, at);
  }

  /** Some event that blocks can be seen by the query. */
  ghost predicate BlockIsTimed(p: Policy, events: seq<Event>, at: real) {
    exists e :: e in events && e.hasEventTime && InFilter(p, e.scheduledAt - at)
  }

  /** Whenever the hard filter blocks on an event that the query can see, the decay is zero as well. */
  ghost predicate BlockMeansZero(p: Policy) {
    forall events, at ::
      HasBlockingEvent(p, events, at) && BlockIsTimed(p, events, at) && WithinLimit(p, events, at) ==>
        Query(p, events, at) == 0.0
  }

  /** The longer block reaches no further than the ramp on the other side allows. */
  predicate BlocksAgree(p: Policy) {
    && (p.hardPre <= p.hardPost || p.decayPost == p.hardPost)
    && (p.hardPost <= p.hardPre || p.decayPre == p.hardPre)
  }

  lemma {:induction false} NearbyKeeps(p: Policy, events: seq<Event>, at: real, e: Event)
    requires e in events && InWindow(p, e, at)
    ensures e in Nearby(p, events, at)
  {
    var n := |events| - 1;
    if events[n] != e { NearbyKeeps(p, events[..n], at, e); }
  }

  lemma {:induction false} NearbyInWindow(p: Policy, events: seq<Event>, at: real, e: Event)
    requires e in Nearby(p, events, at)
    ensures InWindow(p, e, at)
  {
    var n := |events| - 1;
    if e in Nearby(p, events[..n], at) { NearbyInWindow(p, events[..n], at, e); }
  }

  /** The scan's result is the distance to one of the events, and none is nearer. */
  lemma {:induction false} BestIsNearest(events: seq<Event>, at: real, e: Event) returns (best: Event)
    requires e in events && e.hasEventTime
    ensures best in events && best.hasEventTime && BestDelta(events, at) == Some(best.scheduledAt - at)
    ensures AbsReal(best.scheduledAt - at) <= AbsReal(e.scheduledAt - at)
  {
    var n := |events| - 1;
    var front, z := events[..n], events[n];
    assert events == front + [z];
    if e in front {
      best := BestIsNearest(front, at, e);
      if z.hasEventTime && AbsReal(z.scheduledAt - at) < AbsReal(best.scheduledAt - at) { best := z; }
    } else if BestDelta(front, at).None? {
      best := e;
    } else {
      var other := TimedMember(front, at);
      best := BestIsNearest(front, at, other);
      if AbsReal(z.scheduledAt - at) < AbsReal(best.scheduledAt - at) { best := z; }
    }
  }

  lemma {:induction false} TimedMember(events: seq<Event>, at: real) returns (e: Event)
    requires BestDelta(events, at).Some?
    ensures e in events && e.hasEventTime
  {
    var n := |events| - 1;
    if events[n].hasEventTime { e := events[n]; } else { e := TimedMember(events[..n], at); }
  }

  lemma NearestIsBlocked(p: Policy, near: real, blocked: real)
    requires WellBuilt(p) && BlocksAgree(p) && InFilter(p, blocked) && AbsReal(near) <= AbsReal(blocked)
    requires -(p.decayPost as real) <= near <= p.decayPre as real
    ensures DecayForDelta(p, near) == 0.0 || !p.enabled
  {
  }

  lemma BlockedDecaysToZero(p: Policy, events: seq<Event>, at: real)
    requires WellBuilt(p) && p.enabled && BlocksAgree(p) && BlockIsTimed(p, events, at) && WithinLimit(p, events, at)
    ensures Query(p, events, at) == 0.0
  {
    var e :| e in events && e.hasEventTime && InFilter(p, e.scheduledAt - at);
    NearbyKeeps(p, events, at, e);
    var best := BestIsNearest(Nearby(p, events, at), at, e);
    NearbyInWindow(p, events, at, best);
    NearestIsBlocked(p, best.scheduledAt - at, e.scheduledAt - at);
  }

  /** A blocked event, and a nearer one on the other side that is already on its ramp. */
  lemma BlockedYetPositive(p: Policy, blocked: real, near: real)
    requires WellBuilt(p) && p.enabled && InFilter(p, blocked) && AbsReal(near) < AbsReal(blocked)
    requires InWindow(p, TimedAt(near), 0.0) && DecayForDelta(p, near) > 0.0
    ensures !BlockMeansZero(p)
  {
    PairQuery(p, blocked, near, 0.0);
    var events := Pair(blocked, near);
    assert events[0] in events;
    BlockedIff(p, events, 0.0);
  }

  /** The hard filter and the decay agree for every event list exactly when the blocks agree; with
      working ramps that means exactly when both blocks have the same length. */
  lemma BlockMeansZeroIff(p: Policy)
    requires WellBuilt(p) && p.enabled
    ensures BlockMeansZero(p) <==> BlocksAgree(p)
    ensures PositiveSpans(p) ==> (BlocksAgree(p) <==> p.hardPre == p.hardPost)
  {
    if BlocksAgree(p) {
      forall events, at | HasBlockingEvent(p, events, at) && BlockIsTimed(p, events, at) && WithinLimit(p, events, at)
        ensures Query(p, events, at) == 0.0
      {
        BlockedDecaysToZero(p, events, at);
      }
    } else if p.hardPre > p.hardPost && p.decayPost > p.hardPost {
      RampIsPositive(p.hardPost as real + 0.5, p.hardPost as real, (p.decayPost - p.hardPost) as real);
      BlockedYetPositive(p, p.hardPre as real, -(p.hardPost as real) - 0.5);
    } else {
      RampIsPositive(p.hardPre as real + 0.5, p.hardPre as real, (p.decayPre - p.hardPre) as real);
      BlockedYetPositive(p, -(p.hardPost as real), p.hardPre as real + 0.5);
    }
  }

  /** A concrete failure: blocks of 30 and 15 minutes, windows of 60. One event is 25 minutes ahead and
      blocks; another is 20 minutes past, nearer and already a ninth of the way up its ramp. */
  lemma BlockWithoutZeroDecay(importance: int)
    ensures var p, events := BuildPolicy(Settings(true, importance, 30, 15, 60, 60)), Pair(25.0, -20.0);
      && HasBlockingEvent(p, events, 0.0) && BlockIsTimed(p, events, 0.0) && WithinLimit(p, events, 0.0)
      && Query(p, events, 0.0) == 1.0 / 9.0
  {
    var p, events := BuildPolicy(Settings(true, importance, 30, 15, 60, 60)), Pair(25.0, -20.0);
    PairQuery(p, 25.0, -20.0, 0.0);
    assert events[0] in events;
    BlockedIff(p, events, 0.0);
  }

  // ---------------------------------------------------------------- the cached service

  datatype Entry = Entry(decay: real, at: real)

  lemma {:induction false} HasOldest(m: map<string, Entry>)
    requires m != map[]
    ensures exists k :: k in m && forall j :: j in m ==> m[k].at <= m[j].at
    decreases |m|
  {
    assert m.Keys != {};
    var k := SomeMember(m.Keys);
    var rest := m - {k};
    assert rest.Keys == m.Keys - {k};
    if rest == map[] {
      assert rest.Keys == {};
      assert forall j :: j in m ==> j == k || j in rest.Keys;
      assert k in m && forall j :: j in m ==> m[k].at <= m[j].at;
    } else {
      HasOldest(rest);
      var o :| o in rest && forall j :: j in rest ==> rest[o].at <= rest[j].at;
      var w := if m[k].at <= m[o].at then k else o;
      assert forall j :: j in m ==> j == k || j in rest;
      assert w in m && forall j :: j in m ==> m[w].at <= m[j].at;
    }
  }

  ghost predicate Submap(a: map<string, Entry>, b: map<string, Entry>) {
    forall k :: k in a ==> k in b && a[k] == b[k]
  }

  /** Whatever was dropped had expired, or is no newer than anything kept. */
  ghost predicate OldestFirst(m: map<string, Entry>, kept: map<string, Entry>, at: real, ttl: real) {
    forall k, j :: k in m && k !in kept && j in kept ==> AbsReal(at - m[k].at) >= ttl || m[k].at <= kept[j].at
  }

  function Unexpired(m: map<string, Entry>, at: real, ttl: real): (r: map<string, Entry>)
    ensures Submap(r, m)
    ensures forall k :: k in m && k !in r ==> AbsReal(at - m[k].at) >= ttl
  {
    map k | k in m && AbsReal(at - m[k].at) < ttl :: m[k]
  }

  /** What inserting an answer leaves in the cache: everything if it fits; otherwise only unexpired
      entries, as many as fit, and no dropped one of them newer than a kept one. */
  ghost predicate Inserted(
    before: map<string, Entry>, after: map<string, Entry>, symbol: string, e: Entry, max: int, ttl: real)
  {
    var written := before[symbol := e];
    if |written| <= max then after == written
    else
      && Submap(after, written)
      && (forall k :: k in after ==> AbsReal(e.at - written[k].at) < ttl)
      && |after| == MinInt(|Unexpired(written, e.at, ttl)|, MaxInt(0, max))
      && OldestFirst(written, after, e.at, ttl)
  }

  /** Dropping what has expired and then the oldest of the rest. */
  lemma EvictionInserts(
      before: map<string, Entry>, written: map<string, Entry>, live: map<string, Entry>, kept: map<string, Entry>,
      symbol: string, e: Entry, max: int, ttl: real)
    requires written == before[symbol := e] && |written| > max && live == Unexpired(written, e.at, ttl)
    requires Submap(kept, live) && |kept| == MinInt(|live|, MaxInt(0, max))
    requires forall k, j :: k in live && k !in kept && j in kept ==> live[k].at <= kept[j].at
    ensures Inserted(before, kept, symbol, e, max, ttl) && Submap(kept, written)
  {
  }

  /** Drop entries, oldest first, until at most `max` are left. */
  method EvictOldest(m: map<string, Entry>, max: int) returns (kept: map<string, Entry>)
    ensures Submap(kept, m)
    ensures |kept| == MinInt(|m|, MaxInt(0, max)) && (|m| <= max ==> kept == m)
    ensures forall k, j :: k in m && k !in kept && j in kept ==> m[k].at <= kept[j].at
  {
    kept := m;
    while |kept| > max && kept != map[]
      invariant Submap(kept, m) && (|m| <= max ==> kept == m) && MinInt(|m|, MaxInt(0, max)) <= |kept|
      invariant forall k, j :: k in m && k !in kept && j in kept ==> m[k].at <= kept[j].at
      decreases |kept|
    {
      HasOldest(kept);
      var k :| k in kept && forall j :: j in kept ==> kept[k].at <= kept[j].at;
      assert (kept - {k}).Keys == kept.Keys - {k};
      kept := kept - {k};
    }
  }

  /** A cached and a fresh answer differ by less than ttl / m. */
  ghost predicate FresherThan(cached: real, now: real, m: real, ttl: real) {
    AbsReal(cached - now) * m < ttl
  }

  /** The conditions under which an answer stored at one time still serves at another. */
  ghost predicate BoundApplies(p: Policy, events: seq<Event>, stored: real, at: real, m: real) {
    && WellBuilt(p) && p.enabled && SlopeFits(p, m)
    && NearestDecides(p, events) && NoJump(p, events, stored, at)
    && WithinLimit(p, events, stored) && WithinLimit(p, events, at)
  }

  /** With a ramp on both sides there is no jump, and m may be the shorter span. */
  lemma RampsHaveNoJump(p: Policy, events: seq<Event>, stored: real, at: real)
    requires WellBuilt(p) && p.enabled && PositiveSpans(p) && NearestDecides(p, events)
    requires WithinLimit(p, events, stored) && WithinLimit(p, events, at)
    ensures BoundApplies(p, events, stored, at, MinSpan(p))
  {
  }

  /** An answer computed less than `ttl` minutes away is off by less than ttl / m. */
  lemma StalenessBound(p: Policy, events: seq<Event>, stored: real, at: real, ttl: real, m: real)
    requires BoundApplies(p, events, stored, at, m) && AbsReal(at - stored) < ttl
    ensures FresherThan(Query(p, events, stored), Query(p, events, at), m, ttl)
  {
    QueryIsPiecewiseLipschitz(p, events, stored, at, m);
    CloseThenFresher(Query(p, events, stored), Query(p, events, at), m, AbsReal(stored - at), ttl);
  }

  /** Under the shipped settings a cached answer about one timed event is off by less than a ninetieth
      of the ttl unless the event turned half an hour old between the two times. */
  lemma ShippedStaleness(importance: int, events: seq<Event>, stored: real, at: real, ttl: real)
    requires AtMostOneTimed(events) && AbsReal(at - stored) < ttl
    requires forall e :: e in events && e.hasEventTime ==>
      !(MinReal(e.scheduledAt - stored, e.scheduledAt - at) < -30.0 <= MaxReal(e.scheduledAt - stored, e.scheduledAt - at))
    requires WithinLimit(ShippedPolicy(importance), events, stored) && WithinLimit(ShippedPolicy(importance), events, at)
    ensures FresherThan(Query(ShippedPolicy(importance), events, stored),
                        Query(ShippedPolicy(importance), events, at), 90.0, ttl)
  {
    StalenessBound(ShippedPolicy(importance), events, stored, at, ttl, 90.0);
  }

  lemma CloseThenFresher(a: real, b: real, m: real, gap: real, ttl: real)
    requires Close(a, b, m, gap) && gap < ttl
    ensures FresherThan(a, b, m, ttl)
  {
  }

  class EconomicDecayService {
    const policy: Policy
    const provider: Option<string -> seq<Event>>
    const ttl: real
    const maxEntries: int
    var cache: map<string, Entry>

    constructor (policy: Policy, provider: Option<string -> seq<Event>>, ttl: real, maxEntries: int)
      ensures this.policy == policy && this.provider == provider && this.ttl == ttl && this.maxEntries == maxEntries
      ensures cache == map[] && Genuine()
    {
      this.policy, this.provider, this.ttl, this.maxEntries := policy, provider, ttl, maxEntries;
      cache := map[];
    }

    ghost function Fresh(symbol: string, at: real): real
      requires provider.Some?
    {
      Query(policy, provider.value(symbol), at)
    }

    /** Every entry is a genuine query result for its symbol at its stored time. */
    ghost predicate Genuine()
      reads this
    {
      provider.Some? ==> forall s :: s in cache ==> cache[s].decay == Fresh(s, cache[s].at)
    }

    method ReadCache(symbol: string, at: real) returns (r: Option<real>)
      ensures r.Some? <==> symbol in cache && AbsReal(at - cache[symbol].at) < ttl
      ensures r.Some? ==> r.value == cache[symbol].decay
    {
      if symbol !in cache { return None; }
      if AbsReal(at - cache[symbol].at) < ttl { return Some(cache[symbol].decay); }
      r := None;
    }

    /** Insert, then evict expired entries and after them the oldest until the cache fits. */
    method WriteCache(symbol: string, decay: real, at: real)
      requires Genuine() && provider.Some? && decay == Fresh(symbol, at)
      modifies this
      ensures Genuine()
      ensures Inserted(old(cache), cache, symbol, Entry(decay, at), maxEntries, ttl)
    {
      cache := cache[symbol := Entry(decay, at)];
      if |cache| > maxEntries {
        ghost var written := cache;
        var live := Unexpired(cache, at, ttl);
        cache := EvictOldest(live, maxEntries);
        EvictionInserts(old(cache), written, live, cache, symbol, Entry(decay, at), maxEntries, ttl);
      }
    }

    /** The service call. A cached answer differs from the fresh one by less than ttl / m. */
    method DecayFactor(symbol: string, at: real, reachable: bool) returns (r: real)
      requires Genuine()
      modifies this
      ensures Genuine()
      ensures 0.0 <= r <= 1.0
      ensures !policy.enabled || provider.None? ==> r == 1.0 && cache == old(cache)
      ensures policy.enabled && provider.Some? ==>
        var young := symbol in old(cache) && AbsReal(at - old(cache)[symbol].at) < ttl;
        && (young ==> r == old(cache)[symbol].decay && cache == old(cache))
        && (!young && !reachable ==> r == 1.0 && cache == old(cache))
        && (!young && reachable ==>
              && r == Fresh(symbol, at)
              && Inserted(old(cache), cache, symbol, Entry(r, at), maxEntries, ttl))
      ensures policy.enabled && provider.Some? && symbol in old(cache) && AbsReal(at - old(cache)[symbol].at) < ttl ==>
        forall m :: BoundApplies(policy, provider.value(symbol), old(cache)[symbol].at, at, m) ==>
          FresherThan(r, Fresh(symbol, at), m, ttl)
    {
      if !policy.enabled || provider.None? { return 1.0; }
      var cached := ReadCache(symbol, at);
      if cached.Some? {
        forall m | BoundApplies(policy, provider.value(symbol), cache[symbol].at, at, m)
          ensures FresherThan(cached.value, Fresh(symbol, at), m, ttl)
        {
          StalenessBound(policy, provider.value(symbol), cache[symbol].at, at, ttl, m);
        }
        return cached.value;
      }
      if !reachable { return 1.0; }
      r := QueryProvider(policy, provider.value(symbol), at);
      WriteCache(symbol, r, at);
    }
  }
}

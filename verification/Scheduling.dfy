/** The ingest loop's scheduling: a round-robin window over the configured symbols, and
    per-symbol failure counting with exponential backoff. */
module Scheduling {
  import opened Common

  // ---------------------------------------------------------------- round robin

  /** Positions picked by one cycle of window `w` over `n` symbols. */
  function Window(cursor: int, n: nat, w: nat): (r: seq<int>)
    requires n > 0
    ensures |r| == w && forall o :: 0 <= o < w ==> r[o] == (cursor % n + o) % n
  {
    seq(w, o => (cursor % n + o) % n)
  }

  function Advance(cursor: int, n: nat, w: nat): int
    requires n > 0
  {
    (cursor % n + w) % n
  }

  /** The cursor after `cycles` cycles, and all positions picked on the way. */
  function CursorAfter(cursor: int, n: nat, w: nat, cycles: nat): int
    requires n > 0
  {
    if cycles == 0 then cursor else Advance(CursorAfter(cursor, n, w, cycles - 1), n, w)
  }

  function Picks(cursor: int, n: nat, w: nat, cycles: nat): seq<int>
    requires n > 0
  {
    if cycles == 0 then []
    else Picks(cursor, n, w, cycles - 1) + Window(CursorAfter(cursor, n, w, cycles - 1), n, w)
  }

  lemma ModOfMod(x: int, y: int, n: int)
    requires n > 0
    ensures (x % n + y) % n == (x + y) % n
  {
    var q := x / n;
    assert x + y == (x % n + y) + q * n;
    ModShift(x % n + y, q, n);
  }

  /** Advancing a cursor by w keeps it congruent to a count that grows by w. */
  lemma AdvanceFollows(before: int, x: int, n: nat, w: nat)
    requires n > 0 && before % n == x % n
    ensures Advance(before, n, w) % n == (x + w) % n
  {
    ModOfMod(before, w, n);
    ModOfMod(before % n + w, 0, n);
    ModOfMod(x, w, n);
  }

  lemma {:induction false} CursorIsLinear(cursor: int, n: nat, w: nat, cycles: nat)
    requires n > 0
    ensures CursorAfter(cursor, n, w, cycles) % n == (cursor + cycles * w) % n
  {
    if cycles > 0 {
      CursorIsLinear(cursor, n, w, cycles - 1);
      AdvanceFollows(CursorAfter(cursor, n, w, cycles - 1), cursor + (cycles - 1) * w, n, w);
      assert cursor + (cycles - 1) * w + w == cursor + cycles * w;
    }
  }

  /** Laid end to end, the cycles walk the positions one by one without a gap. */
  lemma {:induction false} PicksWalk(cursor: int, n: nat, w: nat, cycles: nat)
    requires n > 0
    ensures |Picks(cursor, n, w, cycles)| == cycles * w
    ensures forall j :: 0 <= j < cycles * w ==> Picks(cursor, n, w, cycles)[j] == (cursor + j) % n
  {
    if cycles > 0 {
      var before := (cycles - 1) * w;
      assert cycles * w == before + w;
      PicksWalk(cursor, n, w, cycles - 1);
      var last := CursorAfter(cursor, n, w, cycles - 1);
      assert forall o :: 0 <= o < w ==> Window(last, n, w)[o] == (cursor + (before + o)) % n by {
        CursorIsLinear(cursor, n, w, cycles - 1);
        WindowWalks(last, cursor + before, n, w);
      }
      WalkConcat(Picks(cursor, n, w, cycles - 1), Window(last, n, w), cursor, n);
    }
  }

  lemma WindowWalks(last: int, start: int, n: nat, w: nat)
    requires n > 0 && last % n == start % n
    ensures forall o :: 0 <= o < w ==> Window(last, n, w)[o] == (start + o) % n
  {
    forall o | 0 <= o < w ensures Window(last, n, w)[o] == (start + o) % n {
      ModOfMod(start, o, n);
    }
  }

  lemma WalkConcat(a: seq<int>, b: seq<int>, cursor: int, n: nat)
    requires n > 0
    requires forall j :: 0 <= j < |a| ==> a[j] == (cursor + j) % n
    requires forall o :: 0 <= o < |b| ==> b[o] == (cursor + (|a| + o)) % n
    ensures forall j :: 0 <= j < |a| + |b| ==> (a + b)[j] == (cursor + j) % n
  {
    forall j | |a| <= j < |a| + |b| ensures (a + b)[j] == (cursor + j) % n {
      assert (a + b)[j] == b[j - |a|];
    }
  }

  /** How often position p occurs among (cursor + j) mod n for j < len. */
  ghost function Hits(cursor: int, n: nat, p: int, len: nat): nat
    requires n > 0
  {
    if len == 0 then 0
    else Hits(cursor, n, p, len - 1) + (if (cursor + (len - 1)) % n == p then 1 else 0)
  }

  lemma OffsetUnique(cursor: int, n: nat, p: int, j: int)
    requires n > 0 && 0 <= p < n && 0 <= j < n
    ensures (cursor + j) % n == p <==> j == (p - cursor) % n
  {
    var o := (p - cursor) % n;
    var q := (p - cursor) / n;
    assert p - cursor == q * n + o;
    assert cursor + o == p + (-q) * n;
    ModShift(p, -q, n);
    ModIs(p, 0, p, n);
    if (cursor + j) % n == p {
      var d := (cursor + j) / n;
      assert cursor + j == d * n + p;
      assert (d + q) * n == j - o;
      SmallMultiple(d + q, n);
    }
  }

  lemma {:induction false} HitsWithinOneLap(cursor: int, n: nat, p: int, len: nat)
    requires n > 0 && 0 <= p < n && len <= n
    ensures Hits(cursor, n, p, len) == if len > (p - cursor) % n then 1 else 0
  {
    if len > 0 {
      HitsWithinOneLap(cursor, n, p, len - 1);
      OffsetUnique(cursor, n, p, len - 1);
    }
  }

  lemma {:induction false} HitsPerLap(cursor: int, n: nat, p: int, len: nat)
    requires n > 0 && 0 <= p < n
    ensures Hits(cursor, n, p, len + n) == Hits(cursor, n, p, len) + 1
  {
    if len == 0 {
      HitsWithinOneLap(cursor, n, p, n);
    } else {
      HitsPerLap(cursor, n, p, len - 1);
      var x := cursor + (len - 1);
      assert cursor + (len + n - 1) == x + 1 * n;
      ModShift(x, 1, n);
    }
  }

  lemma {:induction false} HitsOfLaps(cursor: int, n: nat, p: int, laps: nat, extra: nat)
    requires n > 0 && 0 <= p < n && extra < n
    ensures laps <= Hits(cursor, n, p, laps * n + extra) <= laps + 1
    ensures extra == 0 ==> Hits(cursor, n, p, laps * n + extra) == laps
  {
    if laps == 0 {
      HitsWithinOneLap(cursor, n, p, extra);
    } else {
      HitsOfLaps(cursor, n, p, laps - 1, extra);
      assert laps * n + extra == ((laps - 1) * n + extra) + n;
      HitsPerLap(cursor, n, p, (laps - 1) * n + extra);
    }
  }

  /** Occurrences of a position in a list of picks. */
  ghost function Count(s: seq<int>, p: int): nat {
    if s == [] then 0 else Count(s[..|s| - 1], p) + (if s[|s| - 1] == p then 1 else 0)
  }

  lemma {:induction false} CountIsHits(s: seq<int>, cursor: int, n: nat, p: int)
    requires n > 0
    requires forall j :: 0 <= j < |s| ==> s[j] == (cursor + j) % n
    ensures Count(s, p) == Hits(cursor, n, p, |s|)
  {
    if s != [] { CountIsHits(s[..|s| - 1], cursor, n, p); }
  }

  /** One cycle never picks a position twice when the window is narrower than the list. */
  lemma CyclePicksDistinct(cursor: int, n: nat, w: nat, i: nat, j: nat)
    requires 0 < w < n && i < j < w
    ensures Window(cursor, n, w)[i] != Window(cursor, n, w)[j]
  {
    var p := (cursor % n + i) % n;
    OffsetUnique(cursor % n, n, p, i);
    OffsetUnique(cursor % n, n, p, j);
  }

  /** After any number of cycles every position has been picked floor or ceiling of its even share,
      so no two positions ever differ by more than one. */
  lemma EvenShares(cursor: int, n: nat, w: nat, cycles: nat, p: int)
    requires n > 0 && 0 <= p < n
    ensures var share := cycles * w / n;
      share <= Count(Picks(cursor, n, w, cycles), p) <= share + 1
    ensures cycles * w % n == 0 ==> Count(Picks(cursor, n, w, cycles), p) == cycles * w / n
  {
    PicksWalk(cursor, n, w, cycles);
    CountIsHits(Picks(cursor, n, w, cycles), cursor, n, p);
    SharesOf(cursor, n, p, cycles * w);
  }

  lemma SharesOf(cursor: int, n: nat, p: int, total: nat)
    requires n > 0 && 0 <= p < n
    ensures total / n <= Hits(cursor, n, p, total) <= total / n + 1
    ensures total % n == 0 ==> Hits(cursor, n, p, total) == total / n
  {
    var laps, extra := Division(total, n);
    HitsOfLaps(cursor, n, p, laps, extra);
  }

  lemma Division(total: nat, n: nat) returns (laps: nat, extra: nat)
    requires n > 0
    ensures laps == total / n && extra == total % n && extra < n && laps * n + extra == total
  {
    laps, extra := total / n, total % n;
  }

  /** Any n consecutive cycles pick each position exactly w times. */
  lemma FullRotationIsFair(cursor: int, n: nat, w: nat, p: int)
    requires n > 0 && 0 <= p < n
    ensures Count(Picks(cursor, n, w, n), p) == w
  {
    MultipleMod(w, n);
    assert n * w == w * n;
    var d := n * w / n;
    assert n * w == d * n;
    assert (w - d) * n == 0;
    SmallMultiple(w - d, n);
    EvenShares(cursor, n, w, n, p);
  }

  /** Every position is reached exactly when the cycles offer at least n picks, that is from
      ceil(n / w) cycles on. */
  lemma AllReachedIff(cursor: int, n: nat, w: nat, cycles: nat)
    requires 0 < w < n
    ensures (forall p :: 0 <= p < n ==> p in Picks(cursor, n, w, cycles)) <==> cycles * w >= n
  {
    var picks := Picks(cursor, n, w, cycles);
    PicksWalk(cursor, n, w, cycles);
    if cycles * w >= n {
      forall p | 0 <= p < n ensures p in picks {
        var j := (p - cursor) % n;
        OffsetUnique(cursor, n, p, j);
        assert picks[j] == p;
      }
    } else {
      var p := (cursor + cycles * w) % n;
      OffsetUnique(cursor, n, p, cycles * w);
      forall j | 0 <= j < |picks| ensures picks[j] != p {
        OffsetUnique(cursor, n, p, j);
      }
      assert p !in picks;
    }
  }

  lemma CeilingOffersAll(n: nat, w: nat, cycles: nat)
    requires 0 < w
    ensures cycles * w >= n <==> cycles >= (n + w - 1) / w
  {
    var c, extra := Division(n + w - 1, w);
    if cycles >= c {
      Multiples(cycles - c, c, w);
    } else {
      Multiples(c - 1 - cycles, cycles + 1, w);
      assert (cycles + 1) * w == cycles * w + w;
    }
  }

  lemma Multiples(k: nat, c: nat, w: nat)
    ensures (k + c) * w == k * w + c * w && k * w >= 0
  {
  }

  // ---------------------------------------------------------------- failure accounting

  datatype Policy = Policy(threshold: int, base: real, cap: real)

  /** Consecutive errors, completed backoff rounds, and the end of the current cooldown. */
  datatype Tally = Tally(errors: nat, rounds: nat, until: real)

  datatype Outcome = Success | Mt5Error | Unexpected

  datatype Visit = Visit(now: real, outcome: Outcome)

  function Pow2(k: nat): (r: real)
    ensures r >= 1.0
  {
    if k == 0 then 1.0 else 2.0 * Pow2(k - 1)
  }

  function Cooldown(g: Policy, round: nat): real {
    MinReal(g.base * Pow2(round), g.cap)
  }

  predicate Attempted(t: Tally, v: Visit) {
    !(v.now < t.until)
  }

  /** One symbol in one cycle; `now` is the start time of the cycle. */
  function AfterVisit(g: Policy, t: Tally, v: Visit): Tally {
    if !Attempted(t, v) then t
    else
      match v.outcome
      case Success => Tally(0, 0, t.until)
      case Unexpected => t
      case Mt5Error =>
        if t.errors + 1 >= g.threshold then Tally(0, t.rounds + 1, v.now + Cooldown(g, t.rounds))
        else Tally(t.errors + 1, t.rounds, t.until)
  }

  function TallyAfter(g: Policy, visits: seq<Visit>): Tally {
    if visits == [] then Tally(0, 0, 0.0)
    else AfterVisit(g, TallyAfter(g, visits[..|visits| - 1]), visits[|visits| - 1])
  }

  /** Reference count: broker errors on attempted visits since the last attempted success. */
  ghost function FailuresSinceSuccess(g: Policy, visits: seq<Visit>): nat {
    if visits == [] then 0
    else
      var n := |visits| - 1;
      var before, v := FailuresSinceSuccess(g, visits[..n]), visits[n];
      if !Attempted(TallyAfter(g, visits[..n]), v) || v.outcome.Unexpected? then before
      else if v.outcome.Success? then 0
      else before + 1
  }

  /** The visit starts a cooldown. */
  predicate Opens(g: Policy, t: Tally, v: Visit) {
    Attempted(t, v) && v.outcome.Mt5Error? && t.errors + 1 >= g.threshold
  }

  /** Lengths of the cooldowns started since the last success, oldest first. */
  ghost function CooldownsSinceSuccess(g: Policy, visits: seq<Visit>): seq<real> {
    if visits == [] then []
    else
      var n := |visits| - 1;
      var before, t, v := CooldownsSinceSuccess(g, visits[..n]), TallyAfter(g, visits[..n]), visits[n];
      if Attempted(t, v) && v.outcome.Success? then []
      else if Opens(g, t, v) then before + [AfterVisit(g, t, v).until - v.now]
      else before
  }

  /** In every reachable state the errors since the last success are rounds times the threshold plus
      the open count, which stays below the threshold. A threshold below one acts as one. */
  lemma {:induction false} FailureAccounting(g: Policy, visits: seq<Visit>)
    ensures var t, limit := TallyAfter(g, visits), MaxInt(1, g.threshold);
      && FailuresSinceSuccess(g, visits) == t.rounds * limit + t.errors
      && t.errors < limit
  {
    if visits != [] {
      var n := |visits| - 1;
      FailureAccounting(g, visits[..n]);
      var t, limit := TallyAfter(g, visits[..n]), MaxInt(1, g.threshold);
      assert (t.rounds + 1) * limit == t.rounds * limit + limit;
    }
  }

  lemma {:induction false} CooldownsNeverShrink(g: Policy, i: nat, j: nat)
    requires g.base >= 0.0 && i <= j
    ensures Cooldown(g, i) <= Cooldown(g, j)
    decreases j - i
  {
    if i < j {
      CooldownsNeverShrink(g, i, j - 1);
      DoublingGrows(g.base, Pow2(j - 1));
    }
  }

  lemma DoublingGrows(base: real, x: real)
    requires base >= 0.0 && x >= 0.0
    ensures 0.0 <= base * x <= base * (2.0 * x)
  {
  }

  /** The first powers of two, described by their first value and by doubling. */
  ghost predicate PowersOfTwo(pow: seq<real>) {
    && (pow != [] ==> pow[0] == 1.0)
    && forall k :: 0 <= k < |pow| - 1 ==> pow[k + 1] == 2.0 * pow[k]
  }

  lemma {:induction false} PowIsPow2(pow: seq<real>, k: nat)
    requires PowersOfTwo(pow) && k < |pow|
    ensures pow[k] == Pow2(k)
  {
    if k > 0 {
      PowIsPow2(pow, k - 1);
      assert pow[k - 1 + 1] == 2.0 * pow[k - 1];
    }
  }

  lemma DoublingCapped(base: real, x: real, cap: real)
    requires base >= 0.0 && cap >= 0.0 && x >= 1.0
    ensures MinReal(base * (2.0 * x), cap) == MinReal(2.0 * MinReal(base * x, cap), cap)
  {
    assert base * (2.0 * x) == 2.0 * (base * x);
    DoublingGrows(base, x);
  }

  /** The k-th cooldown since the last success is the k-th of the schedule. */
  lemma {:induction false} CooldownsFollow(g: Policy, visits: seq<Visit>)
    ensures var cs := CooldownsSinceSuccess(g, visits);
      |cs| == TallyAfter(g, visits).rounds && forall k :: 0 <= k < |cs| ==> cs[k] == Cooldown(g, k)
  {
    if visits != [] {
      CooldownsFollow(g, visits[..|visits| - 1]);
    }
  }

  /** The k-th cooldown since the last success lasts min(base * 2^k, cap), the first min(base, cap), and
      there are as many of them as rounds. */
  lemma CooldownsAreExponential(g: Policy, visits: seq<Visit>, pow: seq<real>, k: nat)
    requires PowersOfTwo(pow) && k < |CooldownsSinceSuccess(g, visits)| && k < |pow|
    ensures CooldownsSinceSuccess(g, visits)[k] == MinReal(g.base * pow[k], g.cap)
    ensures CooldownsSinceSuccess(g, visits)[0] == MinReal(g.base, g.cap)
    ensures |CooldownsSinceSuccess(g, visits)| == TallyAfter(g, visits).rounds
  {
    CooldownsFollow(g, visits);
    FirstCooldown(g);
    CooldownByPower(g, pow, k);
  }

  lemma CooldownByPower(g: Policy, pow: seq<real>, k: nat)
    requires PowersOfTwo(pow) && k < |pow|
    ensures Cooldown(g, k) == MinReal(g.base * pow[k], g.cap)
  {
    PowIsPow2(pow, k);
  }

  lemma CooldownByAnyPowers(g: Policy, k: nat)
    ensures forall pow :: PowersOfTwo(pow) && k < |pow| ==> Cooldown(g, k) == MinReal(g.base * pow[k], g.cap)
  {
    forall pow | PowersOfTwo(pow) && k < |pow| ensures Cooldown(g, k) == MinReal(g.base * pow[k], g.cap) {
      CooldownByPower(g, pow, k);
    }
  }

  lemma FirstCooldown(g: Policy)
    ensures Cooldown(g, 0) == MinReal(g.base, g.cap)
  {
    assert g.base * 1.0 == g.base;
  }

  lemma NextCooldown(g: Policy, k: nat)
    requires g.base >= 0.0 && g.cap >= 0.0
    ensures Cooldown(g, k + 1) == MinReal(2.0 * Cooldown(g, k), g.cap) && Cooldown(g, k) <= Cooldown(g, k + 1)
  {
    DoublingCapped(g.base, Pow2(k), g.cap);
    CooldownsNeverShrink(g, k, k + 1);
  }

  /** For a non-negative base and cap each next cooldown since the last success is twice the one before,
      up to the cap, and none is shorter. */
  lemma CooldownsDouble(g: Policy, visits: seq<Visit>, k: nat)
    requires g.base >= 0.0 && g.cap >= 0.0 && k + 1 < |CooldownsSinceSuccess(g, visits)|
    ensures var cs := CooldownsSinceSuccess(g, visits);
      cs[k + 1] == MinReal(2.0 * cs[k], g.cap) && cs[k] <= cs[k + 1]
  {
    CooldownsFollow(g, visits);
    NextCooldown(g, k);
  }

  /** Under the shipped settings (60 seconds, capped at 300) the cooldowns last 60, 120, 240 and then
      always 300 seconds. */
  lemma ShippedCooldowns(threshold: int, visits: seq<Visit>, k: nat)
    requires k < |CooldownsSinceSuccess(Policy(threshold, 60.0, 300.0), visits)|
    ensures CooldownsSinceSuccess(Policy(threshold, 60.0, 300.0), visits)[k]
         == if k == 0 then 60.0 else if k == 1 then 120.0 else if k == 2 then 240.0 else 300.0
  {
    CooldownsFollow(Policy(threshold, 60.0, 300.0), visits);
    assert Pow2(1) == 2.0 && Pow2(2) == 4.0 && Pow2(3) == 8.0;
    if k > 3 { CooldownsNeverShrink(Policy(threshold, 60.0, 300.0), 3, k); }
  }

  lemma TallySnoc(g: Policy, visits: seq<Visit>, v: Visit)
    ensures TallyAfter(g, visits + [v]) == AfterVisit(g, TallyAfter(g, visits), v)
  {
    assert (visits + [v])[..|visits|] == visits;
  }

  lemma VisitExtends(g: Policy, t: Tally, v: Visit)
    requires g.base >= 0.0 && g.cap >= 0.0
    ensures t.until <= AfterVisit(g, t, v).until
  {
    CooldownNotNegative(g, t.rounds);
  }

  lemma CooldownNotNegative(g: Policy, round: nat)
    requires g.base >= 0.0 && g.cap >= 0.0
    ensures Cooldown(g, round) >= 0.0
  {
    DoublingGrows(g.base, Pow2(round));
  }

  lemma {:induction false} DeadlineGrows(g: Policy, visits: seq<Visit>, more: seq<Visit>)
    requires g.base >= 0.0 && g.cap >= 0.0
    ensures TallyAfter(g, visits).until <= TallyAfter(g, visits + more).until
    decreases |more|
  {
    if more == [] {
      assert visits + more == visits;
    } else {
      var front, v := Unsnoc(more);
      DeadlineGrows(g, visits, front);
      ConcatAssociates(visits, front, [v]);
      TallySnoc(g, visits + front, v);
      VisitExtends(g, TallyAfter(g, visits + front), v);
    }
  }

  /** No attempt is made in a cycle whose start time lies inside any earlier cooldown, even when the
      wall clock jumps back. */
  lemma NoAttemptInsideCooldown(g: Policy, visits: seq<Visit>, i: nat, j: nat)
    requires g.base >= 0.0 && g.cap >= 0.0 && i < j < |visits|
    requires Opens(g, TallyAfter(g, visits[..i]), visits[i])
    requires Attempted(TallyAfter(g, visits[..j]), visits[j])
    ensures visits[j].now >= visits[i].now + Cooldown(g, TallyAfter(g, visits[..i]).rounds)
  {
    assert visits[..j] == visits[..i + 1] + visits[i + 1..j];
    assert visits[..i + 1] == visits[..i] + [visits[i]];
    DeadlineGrows(g, visits[..i + 1], visits[i + 1..j]);
    TallySnoc(g, visits[..i], visits[i]);
  }

  /** The end of the latest cooldown that the visits opened, 0 if they opened none. */
  ghost function LatestDeadline(g: Policy, visits: seq<Visit>): real {
    if visits == [] then 0.0
    else
      var n := |visits| - 1;
      if Opens(g, TallyAfter(g, visits[..n]), visits[n])
      then visits[n].now + Cooldown(g, TallyAfter(g, visits[..n]).rounds)
      else LatestDeadline(g, visits[..n])
  }

  lemma LatestSnoc(g: Policy, visits: seq<Visit>, v: Visit)
    ensures LatestDeadline(g, visits + [v])
         == if Opens(g, TallyAfter(g, visits), v) then v.now + Cooldown(g, TallyAfter(g, visits).rounds)
            else LatestDeadline(g, visits)
  {
    assert (visits + [v])[..|visits|] == visits;
  }

  lemma {:induction false} UntilIsLatest(g: Policy, visits: seq<Visit>)
    ensures TallyAfter(g, visits).until == LatestDeadline(g, visits)
    decreases |visits|
  {
    if visits != [] {
      var front, v := Unsnoc(visits);
      UntilIsLatest(g, front);
      TallySnoc(g, front, v);
      LatestSnoc(g, front, v);
    }
  }

  /** A visit is attempted exactly when its cycle starts no earlier than the latest cooldown ends. */
  lemma AttemptedIff(g: Policy, visits: seq<Visit>, v: Visit)
    ensures Attempted(TallyAfter(g, visits), v) <==> LatestDeadline(g, visits) <= v.now
  {
    UntilIsLatest(g, visits);
  }

  /** What one cycle over `selected` does to the tally of one symbol; `outcome(k)` is what the k-th
      visit of the cycle would meet. */
  ghost function AfterCycle(
    g: Policy, t: Tally, symbol: string, selected: seq<string>, now: real, outcome: nat -> Outcome): Tally
  {
    if selected == [] then t
    else
      var n := |selected| - 1;
      var before := AfterCycle(g, t, symbol, selected[..n], now, outcome);
      if selected[n] == symbol then AfterVisit(g, before, Visit(now, outcome(n))) else before
  }

  /** The visits that one cycle adds to a symbol's history. */
  ghost function VisitsIn(symbol: string, selected: seq<string>, now: real, outcome: nat -> Outcome): seq<Visit> {
    if selected == [] then []
    else
      var n := |selected| - 1;
      var before := VisitsIn(symbol, selected[..n], now, outcome);
      if selected[n] == symbol then before + [Visit(now, outcome(n))] else before
  }

  /** A cycle takes the tally of a history to the tally of the longer history, so that the accounting
      of whole histories holds of the loop after any number of cycles. */
  lemma {:induction false} CycleExtendsHistory(
      g: Policy, history: seq<Visit>, symbol: string, selected: seq<string>, now: real, outcome: nat -> Outcome)
    ensures AfterCycle(g, TallyAfter(g, history), symbol, selected, now, outcome)
         == TallyAfter(g, history + VisitsIn(symbol, selected, now, outcome))
  {
    if selected == [] {
      assert history + [] == history;
    } else {
      var n := |selected| - 1;
      var before := VisitsIn(symbol, selected[..n], now, outcome);
      CycleExtendsHistory(g, history, symbol, selected[..n], now, outcome);
      if selected[n] == symbol {
        var v := Visit(now, outcome(n));
        ConcatAssociates(history, before, [v]);
        assert (history + before + [v])[..|history + before|] == history + before;
      }
    }
  }

  // ---------------------------------------------------------------- the loop object

  class IngestLoop {
    const symbols: seq<string>
    const maxConcurrentSymbols: int
    const policy: Policy
    var symbolCursor: int
    var errorCounts: map<string, nat>
    var backoffUntil: map<string, real>
    var backoffCount: map<string, nat>

    constructor (symbols: seq<string>, maxConcurrentSymbols: int, policy: Policy)
      ensures this.symbols == symbols && this.maxConcurrentSymbols == maxConcurrentSymbols && this.policy == policy
      ensures symbolCursor == 0 && forall s :: TallyOf(s) == TallyAfter(policy, [])
    {
      this.symbols, this.maxConcurrentSymbols, this.policy := symbols, maxConcurrentSymbols, policy;
      symbolCursor, errorCounts, backoffUntil, backoffCount := 0, map[], map[], map[];
    }

    function TallyOf(symbol: string): Tally
      reads this
    {
      Tally(if symbol in errorCounts then errorCounts[symbol] else 0,
            if symbol in backoffCount then backoffCount[symbol] else 0,
            if symbol in backoffUntil then backoffUntil[symbol] else 0.0)
    }

    /** What a cycle selects from `cursor`, and where it leaves the cursor. */
    ghost predicate FillsWindow(cursor: int, selected: seq<string>, cursor': int) {
      var n, w := |symbols|, MaxInt(1, maxConcurrentSymbols);
      if n == 0 || w >= n then selected == symbols && cursor' == cursor
      else
        && cursor' == Advance(cursor, n, w)
        && |selected| == w
        && forall o :: 0 <= o < w ==> selected[o] == symbols[Window(cursor, n, w)[o]]
    }

    /** All symbols when they fit the window, otherwise the next window and a moved cursor. */
    method SymbolsForCycle() returns (selected: seq<string>)
      modifies this`symbolCursor
      ensures FillsWindow(old(symbolCursor), selected, symbolCursor)
    {
      if symbols == [] { return []; }
      var window := MaxInt(1, maxConcurrentSymbols);
      if window >= |symbols| { return symbols; }
      var start := symbolCursor % |symbols|;
      selected := [];
      for o := 0 to window
        invariant |selected| == o && symbolCursor == old(symbolCursor)
        invariant forall k :: 0 <= k < o ==> selected[k] == symbols[Window(symbolCursor, |symbols|, window)[k]]
      {
        selected := selected + [symbols[(start + o) % |symbols|]];
      }
      symbolCursor := (start + window) % |symbols|;
    }

    /** One symbol of one cycle. */
    method VisitSymbol(symbol: string, v: Visit) returns (attempted: bool)
      modifies this`errorCounts, this`backoffUntil, this`backoffCount
      ensures attempted <==> old(TallyOf(symbol)).until <= v.now
      ensures TallyOf(symbol) == AfterVisit(policy, old(TallyOf(symbol)), v)
      ensures var t, u := old(TallyOf(symbol)), TallyOf(symbol);
        && (!attempted || v.outcome.Unexpected? ==> u == t)
        && (attempted && v.outcome.Success? ==> u == Tally(0, 0, t.until))
        && (attempted && v.outcome.Mt5Error? && t.errors + 1 < policy.threshold ==> u == t.(errors := t.errors + 1))
        && (attempted && v.outcome.Mt5Error? && t.errors + 1 >= policy.threshold ==>
              && u.errors == 0 && u.rounds == t.rounds + 1
              && forall pow :: PowersOfTwo(pow) && t.rounds < |pow| ==>
                   u.until == v.now + MinReal(policy.base * pow[t.rounds], policy.cap))
      ensures forall other :: other != symbol ==> TallyOf(other) == old(TallyOf(other))
    {
      var t := TallyOf(symbol);
      if v.now < t.until { return false; }
      attempted := true;
      match v.outcome
      case Success =>
        errorCounts := errorCounts - {symbol};
        backoffCount := backoffCount - {symbol};
      case Unexpected =>
      case Mt5Error =>
        var count := t.errors + 1;
        errorCounts := errorCounts[symbol := count];
        if count >= policy.threshold {
          var cooldown := Cooldown(policy, t.rounds);
          CooldownByAnyPowers(policy, t.rounds);
          backoffUntil := backoffUntil[symbol := v.now + cooldown];
          errorCounts := errorCounts - {symbol};
          backoffCount := backoffCount[symbol := t.rounds + 1];
        }
    }

    /** One turn of the run loop: every visit of the cycle is judged against the cycle's start time. */
    method RunCycle(now: real, outcome: nat -> Outcome) returns (selected: seq<string>)
      modifies this
      ensures FillsWindow(old(symbolCursor), selected, symbolCursor)
      ensures forall s :: TallyOf(s) == AfterCycle(policy, old(TallyOf(s)), s, selected, now, outcome)
    {
      selected := SymbolsForCycle();
      for i := 0 to |selected|
        invariant FillsWindow(old(symbolCursor), selected, symbolCursor)
        invariant forall s :: TallyOf(s) == AfterCycle(policy, old(TallyOf(s)), s, selected[..i], now, outcome)
      {
        assert selected[..i + 1][..i] == selected[..i];
        var _ := VisitSymbol(selected[i], Visit(now, outcome(i)));
      }
      assert selected[..|selected|] == selected;
    }
  }
}

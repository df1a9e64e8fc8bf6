/** The closed-bar cache of the market data service: a trimmed list per key that merges
    indicators on every write, compared with the same calls on an unbounded map. */
module BarCache {
  import opened Common

  // ---------------------------------------------------------------- merging rules

  predicate HasIndicators(held: Option<Indicators>) {
    held.Some? && held.value != map[]
  }

  /** The bar that a write leaves under its time, given what was held there. */
  function Combined(existing: Option<Ohlc>, bar: Ohlc): Ohlc {
    var held := if existing.Some? then existing.value.indicators else None;
    if bar.indicators.None? && HasIndicators(held) then bar.(indicators := held)
    else if bar.indicators.None? then bar.(indicators := Some(map[]))
    else if HasIndicators(held) then bar.(indicators := Some(held.value + bar.indicators.value))
    else bar
  }

  /** Per name: nested dictionaries are merged, anything else is replaced. */
  function MergePayload(existing: Indicators, name: string, payload: Payload): Payload {
    if payload.Dict? && name in existing && existing[name].Dict?
    then Dict(existing[name].entries + payload.entries)
    else payload
  }

  function MergePayloads(existing: Indicators, incoming: Indicators): (r: Indicators)
    ensures r.Keys == existing.Keys + incoming.Keys
  {
    map n | n in existing.Keys + incoming.Keys ::
      if n in incoming then MergePayload(existing, n, incoming[n]) else existing[n]
  }

  /** The bar that an indicator update leaves behind. */
  function WithIndicators(bar: Ohlc, incoming: Indicators): Ohlc {
    var existing := if bar.indicators.Some? then bar.indicators.value else map[];
    if incoming != map[] then bar.(indicators := Some(MergePayloads(existing, incoming)))
    else if bar.indicators.None? then bar.(indicators := Some(map[]))
    else bar
  }

  ghost function NamesOf(bar: Ohlc): set<string> {
    if bar.indicators.Some? then bar.indicators.value.Keys else {}
  }

  /** The indicators of a bar; absent ones count as none. */
  function IndicatorsOf(bar: Ohlc): Indicators {
    if bar.indicators.Some? then bar.indicators.value else map[]
  }

  /** A write takes the new prices; by name the new indicators win, the held ones fill in, and no
      other name appears. Afterwards the bar always has an indicator dictionary. */
  lemma WriteWinsByName(existing: Option<Ohlc>, bar: Ohlc)
    ensures var r := Combined(existing, bar);
      && r.(indicators := None) == bar.(indicators := None) && r.indicators.Some?
      && var held, given := if existing.Some? then IndicatorsOf(existing.value) else map[], IndicatorsOf(bar);
         && IndicatorsOf(r).Keys == held.Keys + given.Keys
         && forall n :: n in IndicatorsOf(r) ==> IndicatorsOf(r)[n] == if n in given then given[n] else held[n]
  {
    if existing.Some? && !HasIndicators(existing.value.indicators) {
      assert IndicatorsOf(existing.value) == map[];
    }
  }

  /** An update touches no price; a name keeps its payload unless the update gives one, and inside a
      nested dictionary the same holds entry by entry. */
  lemma UpdateWinsByEntry(bar: Ohlc, incoming: Indicators, n: string)
    ensures var r := WithIndicators(bar, incoming);
      && r.(indicators := None) == bar.(indicators := None) && r.indicators.Some?
      && IndicatorsOf(r).Keys == IndicatorsOf(bar).Keys + incoming.Keys
      && (n in IndicatorsOf(bar) && n !in incoming ==> IndicatorsOf(r)[n] == IndicatorsOf(bar)[n])
      && (n in incoming && incoming[n].Scalar? ==> IndicatorsOf(r)[n] == incoming[n])
      && (n in incoming && incoming[n].Dict? ==>
            && IndicatorsOf(r)[n].Dict?
            && (forall k :: k in incoming[n].entries ==>
                  k in IndicatorsOf(r)[n].entries && IndicatorsOf(r)[n].entries[k] == incoming[n].entries[k])
            && (n in IndicatorsOf(bar) && IndicatorsOf(bar)[n].Dict? ==>
                  forall k :: k in IndicatorsOf(bar)[n].entries && k !in incoming[n].entries ==>
                    k in IndicatorsOf(r)[n].entries
                    && IndicatorsOf(r)[n].entries[k] == IndicatorsOf(bar)[n].entries[k]))
  {
    var existing := if bar.indicators.Some? then bar.indicators.value else map[];
    if incoming != map[] && n in existing.Keys + incoming.Keys {
      assert MergePayloads(existing, incoming)[n]
          == if n in incoming then MergePayload(existing, n, incoming[n]) else existing[n];
    }
  }

  // ---------------------------------------------------------------- the unbounded map

  function Lookup(m: map<int, Ohlc>, t: int): Option<Ohlc> {
    if t in m then Some(m[t]) else None
  }

  function MergeOne(m: map<int, Ohlc>, bar: Ohlc): map<int, Ohlc> {
    m[bar.time := Combined(Lookup(m, bar.time), bar)]
  }

  function MergeAll(m: map<int, Ohlc>, bars: seq<Ohlc>): map<int, Ohlc> {
    if bars == [] then m else MergeOne(MergeAll(m, bars[..|bars| - 1]), bars[|bars| - 1])
  }

  function UpdateAt(m: map<int, Ohlc>, t: int, incoming: Indicators): map<int, Ohlc> {
    if t in m then m[t := WithIndicators(m[t], incoming)] else m
  }

  ghost predicate WellKeyed(m: map<int, Ohlc>) {
    forall t :: t in m ==> m[t].time == t
  }

  // ---------------------------------------------------------------- sorting by time

  lemma {:induction false} HasNewest(s: set<int>)
    requires s != {}
    ensures exists t :: t in s && forall u :: u in s ==> u <= t
  {
    var t := SomeMember(s);
    var rest := s - {t};
    assert forall u :: u in s <==> u == t || u in rest;
    if rest == {} {
      assert t in s && forall u :: u in s ==> u <= t;
    } else {
      HasNewest(rest);
      var m :| m in rest && forall u :: u in rest ==> u <= m;
      var w := MaxInt(m, t);
      assert w in s && forall u :: u in s ==> u <= w;
    }
  }

  function Newest(s: set<int>): (t: int)
    requires s != {}
    ensures t in s && forall u :: u in s ==> u <= t
  {
    HasNewest(s);
    var t :| t in s && forall u :: u in s ==> u <= t;
    t
  }

  /** The map's bars in ascending time order. */
  function Sorted(m: map<int, Ohlc>): (r: seq<Ohlc>)
    ensures |r| == |m|
    decreases |m|
  {
    if m == map[] then []
    else
      assert m.Keys != {};
      var t := Newest(m.Keys);
      assert (m - {t}).Keys == m.Keys - {t};
      Sorted(m - {t}) + [m[t]]
  }

  function ByTime(bars: seq<Ohlc>): map<int, Ohlc> {
    if bars == [] then map[] else ByTime(bars[..|bars| - 1])[bars[|bars| - 1].time := bars[|bars| - 1]]
  }

  /** Taking out the newest key takes off the last element. */
  lemma SortedSnoc(m: map<int, Ohlc>, t: int)
    requires t in m && forall u :: u in m ==> u <= t
    ensures Sorted(m) == Sorted(m - {t}) + [m[t]]
  {
    assert t == Newest(m.Keys);
  }

  lemma {:induction false} SortedMembers(m: map<int, Ohlc>)
    requires WellKeyed(m)
    ensures forall b :: b in Sorted(m) <==> b.time in m && m[b.time] == b
    decreases |m|
  {
    if m != map[] {
      var t := NewestKey(m);
      SortedMembers(m - {t});
      assert forall b :: b in Sorted(m) <==> b in Sorted(m - {t}) || b == m[t];
    }
  }

  ghost predicate Ascends(bars: seq<Ohlc>) {
    forall i, j :: 0 <= i < j < |bars| ==> bars[i].time < bars[j].time
  }

  lemma AscendsSnoc(bars: seq<Ohlc>, b: Ohlc)
    requires Ascends(bars) && forall x :: x in bars ==> x.time < b.time
    ensures Ascends(bars + [b])
  {
    assert forall i :: 0 <= i < |bars| ==> bars[i] in bars;
  }

  lemma SortedBelow(m: map<int, Ohlc>, t: int)
    requires WellKeyed(m) && forall u :: u in m ==> u < t
    ensures forall b :: b in Sorted(m) ==> b.time < t
  {
    SortedMembers(m);
  }

  /** No two bars of the sorted list share a time. */
  lemma {:induction false} SortedAscends(m: map<int, Ohlc>)
    requires WellKeyed(m)
    ensures Ascends(Sorted(m))
    decreases |m|
  {
    if m != map[] {
      var t := NewestKey(m);
      SortedAscends(m - {t});
      SortedAscendsStep(m, t);
    }
  }

  lemma SortedAscendsStep(m: map<int, Ohlc>, t: int)
    requires WellKeyed(m) && t in m && forall u :: u in m ==> u <= t
    requires Ascends(Sorted(m - {t})) && Sorted(m) == Sorted(m - {t}) + [m[t]]
    ensures Ascends(Sorted(m))
  {
    SortedBelow(m - {t}, t);
    AscendsSnoc(Sorted(m - {t}), m[t]);
  }

  lemma {:induction false} SortedRoundTrip(m: map<int, Ohlc>)
    requires WellKeyed(m)
    ensures ByTime(Sorted(m)) == m
    decreases |m|
  {
    if m != map[] {
      var t := NewestKey(m);
      SortedRoundTrip(m - {t});
      ByTimeSnoc(Sorted(m - {t}), m[t]);
      PutBack(m, t);
    }
  }

  lemma ByTimeSnoc(bars: seq<Ohlc>, b: Ohlc)
    ensures ByTime(bars + [b]) == ByTime(bars)[b.time := b]
  {
    assert (bars + [b])[..|bars|] == bars;
  }

  lemma PutBack(m: map<int, Ohlc>, t: int)
    requires t in m
    ensures (m - {t})[t := m[t]] == m
  {
  }

  /** The newest key of a non-empty map, with the facts that inductions on the map need. */
  lemma NewestKey(m: map<int, Ohlc>) returns (t: int)
    requires m != map[]
    ensures t in m && forall u :: u in m ==> u <= t
    ensures (m - {t}).Keys == m.Keys - {t} && |m - {t}| < |m|
    ensures Sorted(m) == Sorted(m - {t}) + [m[t]]
  {
    assert m.Keys != {};
    t := Newest(m.Keys);
    assert (m - {t}).Keys == m.Keys - {t};
  }

  // ---------------------------------------------------------------- the newest k entries

  ghost function Above(s: set<int>, t: int): set<int> {
    set u | u in s && u > t
  }

  /** The entries that fewer than `k` others are newer than. */
  ghost function Top(m: map<int, Ohlc>, k: nat): map<int, Ohlc> {
    map t | t in m && |Above(m.Keys, t)| < k :: m[t]
  }

  lemma AboveWithoutNewest(s: set<int>, t: int, u: int)
    requires t in s && u in s && u < t
    ensures |Above(s, u)| == |Above(s - {t}, u)| + 1
  {
    assert Above(s, u) == Above(s - {t}, u) + {t};
  }

  lemma TopWithoutNewest(m: map<int, Ohlc>, t: int, k: nat)
    requires k > 0 && t in m && forall u :: u in m ==> u <= t
    ensures t in Top(m, k) && Top(m, k) - {t} == Top(m - {t}, k - 1)
  {
    assert Above(m.Keys, t) == {};
    assert (m - {t}).Keys == m.Keys - {t};
    forall u | u in m && u != t ensures |Above(m.Keys, u)| == |Above((m - {t}).Keys, u)| + 1 {
      AboveWithoutNewest(m.Keys, t, u);
    }
  }

  /** `top`, sorted, is the last k of `m`, sorted. */
  ghost predicate Slices(m: map<int, Ohlc>, top: map<int, Ohlc>, k: nat) {
    Sorted(top) == LastN(Sorted(m), k)
  }

  lemma NewestIn(m: map<int, Ohlc>) returns (t: int)
    requires m != map[]
    ensures t in m && (forall u :: u in m ==> u <= t) && |m - {t}| < |m|
  {
    t := NewestKey(m);
  }

  /** Slicing the sorted list keeps precisely the newest k entries. */
  lemma {:induction false} SliceIsTop(m: map<int, Ohlc>, k: nat)
    ensures Slices(m, Top(m, k), k)
    decreases |m|
  {
    if m == map[] || k == 0 {
      SliceOfNothing(m, k);
    } else {
      var t := NewestIn(m);
      SliceIsTop(m - {t}, k - 1);
      SliceStep(m, t, k);
    }
  }

  lemma SliceOfNothing(m: map<int, Ohlc>, k: nat)
    requires m == map[] || k == 0
    ensures Slices(m, Top(m, k), k)
  {
    assert Top(m, k) == map[];
  }

  lemma SliceStep(m: map<int, Ohlc>, t: int, k: nat)
    requires k > 0 && t in m && forall u :: u in m ==> u <= t
    requires Slices(m - {t}, Top(m - {t}, k - 1), k - 1)
    ensures Slices(m, Top(m, k), k)
  {
    TopWithoutNewest(m, t, k);
    SliceGlue(m, t, Top(m, k), k);
  }

  lemma SliceGlue(m: map<int, Ohlc>, t: int, top: map<int, Ohlc>, k: nat)
    requires k > 0 && t in m && t in top && top[t] == m[t]
    requires forall u :: u in m ==> u <= t
    requires forall u :: u in top ==> u <= t
    requires Slices(m - {t}, top - {t}, k - 1)
    ensures Slices(m, top, k)
  {
    SortedSnoc(m, t);
    SortedSnoc(top, t);
    LastNSnoc(Sorted(m - {t}), m[t], k);
  }

  lemma LastNSnoc(s: seq<Ohlc>, b: Ohlc, k: nat)
    requires k > 0
    ensures LastN(s + [b], k) == LastN(s, k - 1) + [b]
  {
  }

  lemma {:induction false} OldestOf(s: set<int>) returns (t: int)
    requires s != {}
    ensures t in s && forall u :: u in s ==> t <= u
  {
    t := SomeMember(s);
    var rest := s - {t};
    assert forall u :: u in s <==> u == t || u in rest;
    if rest != {} {
      var o := OldestOf(rest);
      t := MinInt(t, o);
    }
  }

  ghost function TopAbove(s: set<int>, t: int, k: nat): set<int> {
    set u | u in Above(s, t) && |Above(s, u)| < k
  }

  /** If at least k keys are newer than t, then k of them are among the newest k. */
  lemma {:induction false} ManyNewerAreTop(s: set<int>, t: int, k: nat)
    requires |Above(s, t)| >= k
    ensures |TopAbove(s, t, k)| >= k
    decreases |Above(s, t)|
  {
    var newer := Above(s, t);
    var top := TopAbove(s, t, k);
    if |newer| == k {
      forall u | u in newer ensures u in top {
        SubsetSize(Above(s, u), newer - {u});
      }
      assert top == newer;
    } else {
      assert newer != {};
      var o := OldestOf(newer);
      assert Above(s, o) == newer - {o};
      ManyNewerAreTop(s, o, k);
      SubsetSize(TopAbove(s, o, k), top);
    }
  }

  // ---------------------------------------------------------------- simulation

  /** `a` holds all of the newest k entries of `m`, with the same values, and no foreign key. */
  ghost predicate Mirrors(a: map<int, Ohlc>, m: map<int, Ohlc>, k: nat) {
    && a.Keys <= m.Keys
    && forall t :: t in m && |Above(m.Keys, t)| < k ==> t in a && a[t] == m[t]
  }

  lemma TopMirrors(m: map<int, Ohlc>, k: nat)
    ensures Mirrors(Top(m, k), m, k)
  {
  }

  /** One merged bar keeps the relation: a key that newly belongs to the newest k is either new to
      both sides or was already in the newest k. */
  lemma MirrorsMergeOne(a: map<int, Ohlc>, m: map<int, Ohlc>, bar: Ohlc, k: nat)
    requires Mirrors(a, m, k)
    ensures Mirrors(MergeOne(a, bar), MergeOne(m, bar), k)
  {
    var a', m' := MergeOne(a, bar), MergeOne(m, bar);
    forall t | t in m' && |Above(m'.Keys, t)| < k ensures t in a' && a'[t] == m'[t] {
      SubsetSize(Above(m.Keys, t), Above(m'.Keys, t));
    }
  }

  lemma {:induction false} MirrorsMergeAll(a: map<int, Ohlc>, m: map<int, Ohlc>, bars: seq<Ohlc>, k: nat)
    requires Mirrors(a, m, k)
    ensures Mirrors(MergeAll(a, bars), MergeAll(m, bars), k)
  {
    if bars != [] {
      var n := |bars| - 1;
      MirrorsMergeAll(a, m, bars[..n], k);
      MirrorsMergeOne(MergeAll(a, bars[..n]), MergeAll(m, bars[..n]), bars[n], k);
    }
  }

  lemma MirrorsSameTop(a: map<int, Ohlc>, m: map<int, Ohlc>, k: nat)
    requires Mirrors(a, m, k)
    ensures Top(a, k) == Top(m, k)
  {
    forall t | t in m && |Above(m.Keys, t)| < k ensures |Above(a.Keys, t)| < k {
      SubsetSize(Above(a.Keys, t), Above(m.Keys, t));
    }
    forall t | t in a && |Above(a.Keys, t)| < k ensures |Above(m.Keys, t)| < k {
      if |Above(m.Keys, t)| >= k {
        ManyNewerAreTop(m.Keys, t, k);
        SubsetSize(TopAbove(m.Keys, t, k), Above(a.Keys, t));
      }
    }
  }

  // ---------------------------------------------------------------- the trimmed list

  /** Python's `s[-n:]`: the last n for positive n, everything for 0, and for negative n
      everything but the first |n|. */
  function TailSlice<T>(s: seq<T>, n: int): (r: seq<T>)
    ensures |r| == if n > 0 then MinInt(n, |s|) else MaxInt(0, |s| + n)
    ensures r == s[|s| - |r|..]
  {
    if n > 0 then LastN(s, n)
    else if -n >= |s| then (if n == 0 then s else [])
    else s[-n..]
  }

  function SetClosed(cache: seq<Ohlc>, bars: seq<Ohlc>, keep: int): seq<Ohlc> {
    if bars == [] then cache else TailSlice(Sorted(MergeAll(ByTime(cache), bars)), keep)
  }

  /** Update the newest bar at time t, if any. */
  function UpdateIn(cache: seq<Ohlc>, t: int, incoming: Indicators): (r: seq<Ohlc>)
    ensures |r| == |cache|
  {
    if cache == [] then []
    else
      var n := |cache| - 1;
      if cache[n].time == t then cache[..n] + [WithIndicators(cache[n], incoming)]
      else UpdateIn(cache[..n], t, incoming) + [cache[n]]
  }

  lemma {:induction false} UpdateInMiss(cache: seq<Ohlc>, t: int, incoming: Indicators)
    requires forall j :: 0 <= j < |cache| ==> cache[j].time != t
    ensures UpdateIn(cache, t, incoming) == cache
  {
    if cache != [] { UpdateInMiss(cache[..|cache| - 1], t, incoming); }
  }

  lemma {:induction false} UpdateInHit(cache: seq<Ohlc>, t: int, incoming: Indicators, i: nat)
    requires i < |cache| && cache[i].time == t
    requires forall j :: i < j < |cache| ==> cache[j].time != t
    ensures UpdateIn(cache, t, incoming) == cache[i := WithIndicators(cache[i], incoming)]
  {
    if i < |cache| - 1 { UpdateInHit(cache[..|cache| - 1], t, incoming, i); }
  }

  datatype Op = Write(bars: seq<Ohlc>) | Update(time: int, incoming: Indicators)

  function StepTrimmed(cache: seq<Ohlc>, op: Op, keep: int): seq<Ohlc> {
    match op
    case Write(bars) => SetClosed(cache, bars, keep)
    case Update(t, incoming) => UpdateIn(cache, t, incoming)
  }

  function StepUnbounded(m: map<int, Ohlc>, op: Op): map<int, Ohlc> {
    match op
    case Write(bars) => MergeAll(m, bars)
    case Update(t, incoming) => UpdateAt(m, t, incoming)
  }

  function RunTrimmed(ops: seq<Op>, keep: int): seq<Ohlc> {
    if ops == [] then [] else StepTrimmed(RunTrimmed(ops[..|ops| - 1], keep), ops[|ops| - 1], keep)
  }

  function RunUnbounded(ops: seq<Op>): map<int, Ohlc> {
    if ops == [] then map[] else StepUnbounded(RunUnbounded(ops[..|ops| - 1]), ops[|ops| - 1])
  }

  lemma {:induction false} MergeAllWellKeyed(m: map<int, Ohlc>, bars: seq<Ohlc>)
    requires WellKeyed(m)
    ensures WellKeyed(MergeAll(m, bars))
  {
    if bars != [] { MergeAllWellKeyed(m, bars[..|bars| - 1]); }
  }

  lemma {:induction false} RunWellKeyed(ops: seq<Op>)
    ensures WellKeyed(RunUnbounded(ops))
  {
    if ops != [] {
      var n := |ops| - 1;
      RunWellKeyed(ops[..n]);
      if ops[n].Write? { MergeAllWellKeyed(RunUnbounded(ops[..n]), ops[n].bars); }
    }
  }

  ghost predicate Mentions(bars: seq<Ohlc>, t: int) {
    exists j :: 0 <= j < |bars| && bars[j].time == t
  }

  ghost predicate Writes(ops: seq<Op>, t: int) {
    exists i :: 0 <= i < |ops| && ops[i].Write? && Mentions(ops[i].bars, t)
  }

  lemma {:induction false} MergeAllKeys(m: map<int, Ohlc>, bars: seq<Ohlc>, t: int)
    ensures t in MergeAll(m, bars) <==> t in m || Mentions(bars, t)
  {
    if bars != [] {
      var n := |bars| - 1;
      MergeAllKeys(m, bars[..n], t);
      assert forall j :: 0 <= j < n ==> bars[..n][j] == bars[j];
    }
  }

  /** The unbounded run holds exactly the times that were written. */
  lemma {:induction false} HeldIffWritten(ops: seq<Op>, t: int)
    ensures t in RunUnbounded(ops) <==> Writes(ops, t)
  {
    if ops != [] {
      var n := |ops| - 1;
      HeldIffWritten(ops[..n], t);
      assert forall i :: 0 <= i < n ==> ops[..n][i] == ops[i];
      if ops[n].Write? { MergeAllKeys(RunUnbounded(ops[..n]), ops[n].bars, t); }
    }
  }

  lemma UpdateInSnoc(cache: seq<Ohlc>, b: Ohlc, t: int, incoming: Indicators)
    ensures UpdateIn(cache + [b], t, incoming)
         == if b.time == t then cache + [WithIndicators(b, incoming)] else UpdateIn(cache, t, incoming) + [b]
  {
    assert (cache + [b])[..|cache|] == cache;
  }

  /** Updating a map and then taking its newest key out, by whether that is the key updated. */
  lemma UpdateThenTakeOut(m: map<int, Ohlc>, w: int, t: int, incoming: Indicators)
    requires w in m
    ensures UpdateAt(m, t, incoming).Keys == m.Keys
    ensures UpdateAt(m, t, incoming) - {w} == if w == t then m - {w} else UpdateAt(m - {w}, t, incoming)
    ensures UpdateAt(m, t, incoming)[w] == if w == t then WithIndicators(m[w], incoming) else m[w]
  {
  }

  lemma {:induction false} UpdateSorted(m: map<int, Ohlc>, t: int, incoming: Indicators)
    requires WellKeyed(m)
    ensures UpdateIn(Sorted(m), t, incoming) == Sorted(UpdateAt(m, t, incoming))
    decreases |m|
  {
    if m != map[] {
      var w := NewestKey(m);
      if w != t { UpdateSorted(m - {w}, t, incoming); }
      UpdateSortedStep(m, w, t, incoming);
    }
  }

  lemma UpdateSortedStep(m: map<int, Ohlc>, w: int, t: int, incoming: Indicators)
    requires WellKeyed(m) && w in m && forall u :: u in m ==> u <= w
    requires Sorted(m) == Sorted(m - {w}) + [m[w]]
    requires w != t ==> UpdateIn(Sorted(m - {w}), t, incoming) == Sorted(UpdateAt(m - {w}, t, incoming))
    ensures UpdateIn(Sorted(m), t, incoming) == Sorted(UpdateAt(m, t, incoming))
  {
    UpdateThenTakeOut(m, w, t, incoming);
    UpdateInSnoc(Sorted(m - {w}), m[w], t, incoming);
    SortedSnoc(UpdateAt(m, t, incoming), w);
  }

  lemma TopUpdate(m: map<int, Ohlc>, t: int, incoming: Indicators, k: nat)
    ensures Top(UpdateAt(m, t, incoming), k) == UpdateAt(Top(m, k), t, incoming)
  {
    assert UpdateAt(m, t, incoming).Keys == m.Keys;
  }

  lemma RunSnoc(ops: seq<Op>, op: Op, keep: int)
    ensures RunTrimmed(ops + [op], keep) == StepTrimmed(RunTrimmed(ops, keep), op, keep)
    ensures RunUnbounded(ops + [op]) == StepUnbounded(RunUnbounded(ops), op)
  {
    assert (ops + [op])[..|ops|] == ops;
  }

  /** After any calls, the trimmed cache is the newest `keep` entries of the same calls on an
      unbounded map, so trimming never changes a retained bar or its merged indicators. */
  lemma {:induction false} TrimmedIsNewestOfUnbounded(ops: seq<Op>, keep: int)
    requires keep >= 1
    ensures RunTrimmed(ops, keep) == LastN(Sorted(RunUnbounded(ops)), keep)
    decreases |ops|
  {
    if ops == [] {
      assert Sorted(map[]) == [];
    } else {
      var front, op := Unsnoc(ops);
      TrimmedIsNewestOfUnbounded(front, keep);
      RunWellKeyed(front);
      RunSnoc(front, op, keep);
      StepSimulates(RunTrimmed(front, keep), RunUnbounded(front), op, keep);
    }
  }

  /** One call on the newest entries is the same call on the map, followed by taking the newest. */
  lemma StepSimulates(cache: seq<Ohlc>, m: map<int, Ohlc>, op: Op, keep: int)
    requires keep >= 1 && WellKeyed(m) && cache == LastN(Sorted(m), keep)
    ensures StepTrimmed(cache, op, keep) == LastN(Sorted(StepUnbounded(m, op)), keep)
  {
    match op
    case Write(bars) => WriteStep(cache, m, bars, keep);
    case Update(t, incoming) => UpdateStep(cache, m, t, incoming, keep);
  }

  lemma WriteStep(cache: seq<Ohlc>, m: map<int, Ohlc>, bars: seq<Ohlc>, keep: int)
    requires keep >= 1 && WellKeyed(m) && cache == LastN(Sorted(m), keep)
    ensures SetClosed(cache, bars, keep) == LastN(Sorted(MergeAll(m, bars)), keep)
  {
    if bars != [] {
      SliceIsTop(m, keep);
      WriteSimulates(m, bars, keep);
      SetClosedMerges(cache, bars, keep);
    }
  }

  lemma SetClosedMerges(cache: seq<Ohlc>, bars: seq<Ohlc>, keep: int)
    requires keep >= 1 && bars != []
    ensures SetClosed(cache, bars, keep) == LastN(Sorted(MergeAll(ByTime(cache), bars)), keep)
  {
  }

  lemma UpdateStep(cache: seq<Ohlc>, m: map<int, Ohlc>, t: int, incoming: Indicators, keep: int)
    requires keep >= 1 && WellKeyed(m) && cache == LastN(Sorted(m), keep)
    ensures UpdateIn(cache, t, incoming) == LastN(Sorted(UpdateAt(m, t, incoming)), keep)
  {
    SliceIsTop(m, keep);
    UpdateSimulates(m, t, incoming, keep);
  }

  lemma WriteSimulates(m: map<int, Ohlc>, bars: seq<Ohlc>, keep: int)
    requires keep >= 1 && WellKeyed(m)
    ensures LastN(Sorted(MergeAll(ByTime(Sorted(Top(m, keep))), bars)), keep) == LastN(Sorted(MergeAll(m, bars)), keep)
  {
    var top := Top(m, keep);
    SortedRoundTrip(top);
    TopMirrors(m, keep);
    MirrorsMergeAll(top, m, bars, keep);
    MirrorsSameTop(MergeAll(top, bars), MergeAll(m, bars), keep);
    SliceIsTop(MergeAll(top, bars), keep);
    SliceIsTop(MergeAll(m, bars), keep);
  }

  lemma UpdateSimulates(m: map<int, Ohlc>, t: int, incoming: Indicators, keep: int)
    requires keep >= 1 && WellKeyed(m)
    ensures UpdateIn(Sorted(Top(m, keep)), t, incoming) == LastN(Sorted(UpdateAt(m, t, incoming)), keep)
  {
    UpdateSorted(Top(m, keep), t, incoming);
    TopUpdate(m, t, incoming, keep);
    SliceIsTop(UpdateAt(m, t, incoming), keep);
  }

  // ---------------------------------------------------------------- degenerate limits

  function Flat(n: nat): seq<Ohlc> {
    seq(n, i => Ohlc("", "", i, 0.0, 0.0, 0.0, 0.0, 0.0, None))
  }

  lemma {:induction false} FlatMerged(n: nat)
    ensures forall t :: t in MergeAll(map[], Flat(n)) ==> t < n
    ensures |MergeAll(map[], Flat(n))| == n
  {
    if n > 0 {
      FlatMerged(n - 1);
      assert Flat(n)[..n - 1] == Flat(n - 1);
      var before, after := MergeAll(map[], Flat(n - 1)), MergeAll(map[], Flat(n));
      assert after.Keys == before.Keys + {n - 1};
      assert |after.Keys| == |before.Keys| + 1;
    }
  }

  /** The trimmed cache is the newest `keep` entries for every list of calls exactly when the
      limit is positive: a zero limit keeps everything and a negative one drops from the front. */
  lemma TrimmingNeedsPositiveLimit(keep: int)
    ensures (forall ops :: RunTrimmed(ops, keep) == LastN(Sorted(RunUnbounded(ops)), MaxInt(keep, 0))) <==> keep >= 1
  {
    if keep >= 1 {
      forall ops { TrimmedIsNewestOfUnbounded(ops, keep); }
    } else {
      var n := 1 - keep;
      var ops := [Write(Flat(n))];
      FlatMerged(n);
      assert ops[..0] == [];
      assert RunUnbounded(ops) == StepUnbounded(RunUnbounded([]), ops[0]);
      assert RunTrimmed(ops, keep) == StepTrimmed(RunTrimmed([], keep), ops[0], keep);
      assert |Sorted(MergeAll(map[], Flat(n)))| == n;
      assert |RunTrimmed(ops, keep)| >= 1;
      assert |LastN(Sorted(RunUnbounded(ops)), MaxInt(keep, 0))| == 0;
    }
  }

  /** A concrete failure: with limit 0 one written bar stays, where the newest 0 entries are none. */
  lemma ZeroLimitKeepsBars(b: Ohlc)
    ensures |RunTrimmed([Write([b])], 0)| == 1 && LastN(Sorted(RunUnbounded([Write([b])])), 0) == []
  {
    assert [Write([b])][..0] == [] && [b][..0] == [];
    assert RunTrimmed([Write([b])], 0) == StepTrimmed(RunTrimmed([], 0), Write([b]), 0);
    assert MergeAll(map[], [b]) == MergeOne(map[], b);
    assert |MergeOne(map[], b)| == 1;
  }

  // ---------------------------------------------------------------- what a retained bar keeps

  lemma {:induction false} MergeAllKeepsNames(m: map<int, Ohlc>, bars: seq<Ohlc>, t: int)
    requires t in m
    ensures t in MergeAll(m, bars) && NamesOf(m[t]) <= NamesOf(MergeAll(m, bars)[t])
  {
    if bars != [] { MergeAllKeepsNames(m, bars[..|bars| - 1], t); }
  }

  lemma {:induction false} UnboundedKeepsNames(before: seq<Op>, after: seq<Op>, t: int)
    requires t in RunUnbounded(before)
    ensures t in RunUnbounded(before + after)
    ensures NamesOf(RunUnbounded(before)[t]) <= NamesOf(RunUnbounded(before + after)[t])
    ensures RunUnbounded(before).Keys <= RunUnbounded(before + after).Keys
  {
    if after == [] {
      assert before + after == before;
    } else {
      var n := |after| - 1;
      UnboundedKeepsNames(before, after[..n], t);
      assert (before + after)[..|before| + n] == before + after[..n];
      var m := RunUnbounded(before + after[..n]);
      if after[n].Write? {
        forall u | u in m { MergeAllKeepsNames(m, after[n].bars, u); }
      }
    }
  }

  ghost predicate Holds(cache: seq<Ohlc>, t: int) {
    exists b :: b in cache && b.time == t
  }

  /** Membership in the trimmed cache, read off the unbounded run. */
  lemma HeldIsTop(ops: seq<Op>, keep: int)
    requires keep >= 1
    ensures forall b :: b in RunTrimmed(ops, keep) ==>
              b.time in RunUnbounded(ops) && RunUnbounded(ops)[b.time] == b
    ensures forall t :: Holds(RunTrimmed(ops, keep), t) <==>
              t in RunUnbounded(ops) && |Above(RunUnbounded(ops).Keys, t)| < keep
  {
    var m := RunUnbounded(ops);
    TrimmedIsNewestOfUnbounded(ops, keep);
    SliceIsTop(m, keep);
    RunWellKeyed(ops);
    SortedMembers(Top(m, keep));
    forall t | t in m && |Above(m.Keys, t)| < keep ensures Holds(RunTrimmed(ops, keep), t) {
      assert Top(m, keep)[t] in Sorted(Top(m, keep));
    }
  }

  /** No indicator name of a bar that stays in the cache is ever lost. */
  lemma RetainedBarKeepsNames(before: seq<Op>, after: seq<Op>, keep: int, b: Ohlc, c: Ohlc)
    requires keep >= 1
    requires b in RunTrimmed(before, keep) && c in RunTrimmed(before + after, keep) && b.time == c.time
    ensures NamesOf(b) <= NamesOf(c)
  {
    HeldIsTop(before, keep);
    HeldIsTop(before + after, keep);
    UnboundedKeepsNames(before, after, b.time);
  }

  /** A bar that was written and is no longer held is never held again. */
  lemma EvictedNeverReturns(before: seq<Op>, after: seq<Op>, keep: int, t: int)
    requires keep >= 1
    requires t in RunUnbounded(before) && !Holds(RunTrimmed(before, keep), t)
    ensures !Holds(RunTrimmed(before + after, keep), t)
  {
    HeldIsTop(before, keep);
    HeldIsTop(before + after, keep);
    UnboundedKeepsNames(before, after, t);
    SubsetSize(Above(RunUnbounded(before).Keys, t), Above(RunUnbounded(before + after).Keys, t));
  }

  // ---------------------------------------------------------------- what a held bar shows

  /** The last of the bars that carries this time. */
  function LastAt(bars: seq<Ohlc>, t: int): Option<Ohlc> {
    if bars == [] then None
    else
      var n := |bars| - 1;
      if bars[n].time == t then Some(bars[n]) else LastAt(bars[..n], t)
  }

  /** The bar that was written last for this time: the last write that mentions it, its last mention. */
  function LastWritten(ops: seq<Op>, t: int): Option<Ohlc> {
    if ops == [] then None
    else
      var n := |ops| - 1;
      if ops[n].Write? && LastAt(ops[n].bars, t).Some? then LastAt(ops[n].bars, t) else LastWritten(ops[..n], t)
  }

  /** Everything but the indicators. */
  ghost predicate SameQuote(b: Ohlc, w: Ohlc) {
    && b.symbol == w.symbol && b.timeframe == w.timeframe && b.time == w.time
    && b.open == w.open && b.high == w.high && b.low == w.low && b.close == w.close && b.volume == w.volume
  }

  lemma MergeAllSnoc(m: map<int, Ohlc>, bars: seq<Ohlc>, b: Ohlc)
    ensures MergeAll(m, bars + [b]) == MergeOne(MergeAll(m, bars), b)
  {
    assert (bars + [b])[..|bars|] == bars;
  }

  lemma LastAtSnoc(bars: seq<Ohlc>, b: Ohlc, t: int)
    ensures LastAt(bars + [b], t) == if b.time == t then Some(b) else LastAt(bars, t)
  {
    assert (bars + [b])[..|bars|] == bars;
  }

  lemma LastWrittenSnoc(ops: seq<Op>, op: Op, t: int)
    ensures LastWritten(ops + [op], t)
         == if op.Write? && LastAt(op.bars, t).Some? then LastAt(op.bars, t) else LastWritten(ops, t)
  {
    assert (ops + [op])[..|ops|] == ops;
  }

  /** A batch leaves under a time the quote of its last bar for that time, or what was there. */
  lemma {:induction false} MergedQuote(m: map<int, Ohlc>, bars: seq<Ohlc>, t: int)
    ensures t in MergeAll(m, bars) <==> t in m || LastAt(bars, t).Some?
    ensures LastAt(bars, t).Some? ==> SameQuote(MergeAll(m, bars)[t], LastAt(bars, t).value)
    ensures LastAt(bars, t).None? && t in m ==> MergeAll(m, bars)[t] == m[t]
    decreases |bars|
  {
    if bars != [] {
      var front, b := Unsnoc(bars);
      MergedQuote(m, front, t);
      MergeAllSnoc(m, front, b);
      LastAtSnoc(front, b, t);
    }
  }

  /** On the unbounded map every bar shows the quote that was written last for its time. */
  ghost predicate ShowsQuote(ops: seq<Op>, t: int) {
    && (t in RunUnbounded(ops) <==> LastWritten(ops, t).Some?)
    && (t in RunUnbounded(ops) ==> SameQuote(RunUnbounded(ops)[t], LastWritten(ops, t).value))
  }

  lemma {:induction false} UnboundedShowsQuote(ops: seq<Op>, t: int)
    ensures ShowsQuote(ops, t)
    decreases |ops|
  {
    if ops != [] {
      var front, op := Unsnoc(ops);
      UnboundedShowsQuote(front, t);
      RunSnoc(front, op, 1);
      LastWrittenSnoc(front, op, t);
      if op.Write? { MergedQuote(RunUnbounded(front), op.bars, t); }
    }
  }

  /** After any calls every held bar shows open, high, low, close and volume of the bar that was written
      last for its time, whatever updates followed. */
  lemma HeldBarShowsLastWritten(ops: seq<Op>, keep: int, b: Ohlc)
    requires keep >= 1 && b in RunTrimmed(ops, keep)
    ensures LastWritten(ops, b.time).Some? && SameQuote(b, LastWritten(ops, b.time).value)
  {
    HeldIsTop(ops, keep);
    UnboundedShowsQuote(ops, b.time);
  }

  /** A payload given for a name that has one: nested dictionaries are merged, entry by entry. */
  function Given(before: Option<Payload>, payload: Payload): Payload {
    if before.Some? && before.value.Dict? && payload.Dict? then Dict(before.value.entries + payload.entries) else payload
  }

  /** The payload of a name after the bars of one write: the last bar of that time that names it. */
  function NamedByBars(bars: seq<Ohlc>, t: int, name: string): Option<Payload> {
    if bars == [] then None
    else
      var n := |bars| - 1;
      if bars[n].time == t && bars[n].indicators.Some? && name in bars[n].indicators.value
      then Some(bars[n].indicators.value[name])
      else NamedByBars(bars[..n], t, name)
  }

  /** The payload of a name of the bar at time t, told call by call: a write that names it replaces it,
      an update that names it after the bar was first written adds to it, nothing else touches it. */
  function NamedBy(ops: seq<Op>, t: int, name: string): Option<Payload> {
    if ops == [] then None
    else
      var n := |ops| - 1;
      var before := NamedBy(ops[..n], t, name);
      match ops[n]
      case Write(bars) => if NamedByBars(bars, t, name).Some? then NamedByBars(bars, t, name) else before
      case Update(u, incoming) =>
        if u == t && name in incoming && LastWritten(ops[..n], t).Some? then Some(Given(before, incoming[name])) else before
  }

  function PayloadOf(bar: Ohlc, name: string): Option<Payload> {
    if bar.indicators.Some? && name in bar.indicators.value then Some(bar.indicators.value[name]) else None
  }

  function PayloadAt(m: map<int, Ohlc>, t: int, name: string): Option<Payload> {
    if t in m then PayloadOf(m[t], name) else None
  }

  lemma CombinedPayload(existing: Option<Ohlc>, bar: Ohlc, name: string)
    ensures PayloadOf(Combined(existing, bar), name)
         == if PayloadOf(bar, name).Some? then PayloadOf(bar, name)
            else if existing.Some? then PayloadOf(existing.value, name) else None
  {
  }

  lemma NamedByBarsSnoc(bars: seq<Ohlc>, b: Ohlc, t: int, name: string)
    ensures NamedByBars(bars + [b], t, name)
         == if b.time == t && PayloadOf(b, name).Some? then PayloadOf(b, name) else NamedByBars(bars, t, name)
  {
    assert (bars + [b])[..|bars|] == bars;
  }

  lemma {:induction false} MergedPayload(m: map<int, Ohlc>, bars: seq<Ohlc>, t: int, name: string)
    ensures PayloadAt(MergeAll(m, bars), t, name)
         == if NamedByBars(bars, t, name).Some? then NamedByBars(bars, t, name) else PayloadAt(m, t, name)
    decreases |bars|
  {
    if bars != [] {
      var front, b := Unsnoc(bars);
      MergedPayload(m, front, t, name);
      MergeAllSnoc(m, front, b);
      NamedByBarsSnoc(front, b, t, name);
      CombinedPayload(Lookup(MergeAll(m, front), b.time), b, name);
    }
  }

  lemma UpdatedPayload(m: map<int, Ohlc>, u: int, incoming: Indicators, t: int, name: string)
    ensures PayloadAt(UpdateAt(m, u, incoming), t, name)
         == if u == t && t in m && name in incoming then Some(Given(PayloadAt(m, t, name), incoming[name]))
            else PayloadAt(m, t, name)
  {
    if u == t && t in m {
      var existing := if m[t].indicators.Some? then m[t].indicators.value else map[];
      if incoming != map[] && name in existing.Keys + incoming.Keys {
        assert MergePayloads(existing, incoming)[name]
            == if name in incoming then MergePayload(existing, name, incoming[name]) else existing[name];
      }
    }
  }

  lemma NamedBySnoc(ops: seq<Op>, op: Op, t: int, name: string)
    ensures NamedBy(ops + [op], t, name)
         == if op.Write? && NamedByBars(op.bars, t, name).Some? then NamedByBars(op.bars, t, name)
            else if op.Update? && op.time == t && name in op.incoming && LastWritten(ops, t).Some?
            then Some(Given(NamedBy(ops, t, name), op.incoming[name]))
            else NamedBy(ops, t, name)
  {
    assert (ops + [op])[..|ops|] == ops;
  }

  lemma {:induction false} UnboundedShowsPayload(ops: seq<Op>, t: int, name: string)
    ensures PayloadAt(RunUnbounded(ops), t, name) == NamedBy(ops, t, name)
    decreases |ops|
  {
    if ops != [] {
      var front, op := Unsnoc(ops);
      UnboundedShowsPayload(front, t, name);
      RunSnoc(front, op, 1);
      NamedBySnoc(front, op, t, name);
      if op.Write? {
        MergedPayload(RunUnbounded(front), op.bars, t, name);
      } else {
        UnboundedShowsQuote(front, t);
        UpdatedPayload(RunUnbounded(front), op.time, op.incoming, t, name);
      }
    }
  }

  /** After any calls every held bar has, name by name, exactly the payload that the calls amount to. */
  lemma HeldBarShowsLatestPayload(ops: seq<Op>, keep: int, b: Ohlc, name: string)
    requires keep >= 1 && b in RunTrimmed(ops, keep)
    ensures PayloadOf(b, name) == NamedBy(ops, b.time, name)
  {
    HeldIsTop(ops, keep);
    UnboundedShowsPayload(ops, b.time, name);
  }

  /** In particular a scalar shows the latest call that named it. */
  lemma LatestScalarShows(ops: seq<Op>, op: Op, after: seq<Op>, keep: int, b: Ohlc, name: string, x: real)
    requires keep >= 1 && b in RunTrimmed(ops + [op] + after, keep)
    requires op.Write? ==> NamedByBars(op.bars, b.time, name) == Some(Scalar(x))
    requires op.Update? ==>
      && op.time == b.time && LastWritten(ops, b.time).Some?
      && name in op.incoming && op.incoming[name] == Scalar(x)
    requires forall i :: 0 <= i < |after| ==> !Names(after[i], b.time, name)
    ensures PayloadOf(b, name) == Some(Scalar(x))
  {
    NamedBySnoc(ops, op, b.time, name);
    UnnamedStays(ops + [op], after, b.time, name);
    HeldBarShowsLatestPayload(ops + [op] + after, keep, b, name);
  }

  ghost predicate Names(op: Op, t: int, name: string) {
    match op
    case Write(bars) => NamedByBars(bars, t, name).Some?
    case Update(u, incoming) => u == t && name in incoming
  }

  lemma {:induction false} UnnamedStays(ops: seq<Op>, after: seq<Op>, t: int, name: string)
    requires forall i :: 0 <= i < |after| ==> !Names(after[i], t, name)
    ensures NamedBy(ops + after, t, name) == NamedBy(ops, t, name)
    decreases |after|
  {
    if after == [] {
      assert ops + after == ops;
    } else {
      var front, op := Unsnoc(after);
      assert !Names(after[|after| - 1], t, name);
      UnnamedStays(ops, front, t, name);
      ConcatAssociates(ops, front, [op]);
      NamedBySnoc(ops + front, op, t, name);
    }
  }

  // ---------------------------------------------------------------- the service

  class MarketDataService {
    const ohlcLimit: int
    const ohlcCacheLimit: int
    var closed: map<string, seq<Ohlc>>

    constructor (ohlcLimit: int, ohlcCacheLimit: int)
      ensures closed == map[] && this.ohlcLimit == ohlcLimit && this.ohlcCacheLimit == ohlcCacheLimit
    {
      this.ohlcLimit := ohlcLimit;
      this.ohlcCacheLimit := ohlcCacheLimit;
      closed := map[];
    }

    /** The larger of the two configured limits. */
    function KeepLimit(): (keep: int)
      ensures ohlcLimit <= keep && ohlcCacheLimit <= keep && (keep == ohlcLimit || keep == ohlcCacheLimit)
    {
      MaxInt(ohlcLimit, ohlcCacheLimit)
    }

    function Held(key: string): seq<Ohlc>
      reads this
    {
      if key in closed then closed[key] else []
    }

    /** Merge the batch into the key's bars, sort, keep the newest. */
    method SetOhlcClosed(key: string, bars: seq<Ohlc>)
      modifies this
      ensures Held(key) == StepTrimmed(old(Held(key)), Write(bars), KeepLimit())
      ensures forall other :: other != key ==> Held(other) == old(Held(other))
    {
      if bars == [] { return; }
      var merged := ByTime(Held(key));
      for i := 0 to |bars|
        invariant merged == MergeAll(ByTime(Held(key)), bars[..i])
        invariant closed == old(closed)
      {
        var bar := bars[i];
        var incoming := bar.indicators;
        var held := if bar.time in merged then merged[bar.time].indicators else None;
        if incoming.None? && HasIndicators(held) {
          bar := bar.(indicators := held);
        } else if incoming.None? {
          bar := bar.(indicators := Some(map[]));
        } else if HasIndicators(held) {
          bar := bar.(indicators := Some(held.value + incoming.value));
        }
        assert bars[..i + 1][..i] == bars[..i];
        merged := merged[bar.time := bar];
      }
      assert bars[..|bars|] == bars;
      closed := closed[key := TailSlice(Sorted(merged), KeepLimit())];
    }

    /** Scan from the newest bar; merge name by name into the first match. */
    method UpdateOhlcIndicators(key: string, t: int, incoming: Indicators)
      modifies this
      ensures Held(key) == StepTrimmed(old(Held(key)), Update(t, incoming), KeepLimit())
      ensures forall other :: other != key ==> Held(other) == old(Held(other))
    {
      var cached := Held(key);
      var i := |cached| - 1;
      while i >= 0 && cached[i].time != t
        invariant -1 <= i < |cached|
        invariant forall j :: i < j < |cached| ==> cached[j].time != t
      {
        i := i - 1;
      }
      if i < 0 {
        UpdateInMiss(cached, t, incoming);
        return;
      }
      UpdateInHit(cached, t, incoming, i);
      var bar := cached[i];
      var existing := if bar.indicators.Some? then bar.indicators.value else map[];
      if incoming != map[] {
        var merged := MergeNames(existing, incoming);
        bar := bar.(indicators := Some(merged));
      } else if bar.indicators.None? {
        bar := bar.(indicators := Some(map[]));
      }
      closed := closed[key := cached[i := bar]];
    }

    static method MergeNames(existing: Indicators, incoming: Indicators) returns (merged: Indicators)
      ensures merged == MergePayloads(existing, incoming)
    {
      merged := existing;
      var rest := incoming.Keys;
      while rest != {}
        invariant rest <= incoming.Keys
        invariant merged.Keys == existing.Keys + (incoming.Keys - rest)
        invariant forall n :: n in merged ==>
          merged[n] == if n in incoming && n !in rest then MergePayload(existing, n, incoming[n]) else existing[n]
        decreases rest
      {
        var name :| name in rest;
        var payload := incoming[name];
        if payload.Dict? && name in merged && merged[name].Dict? {
          merged := merged[name := Dict(merged[name].entries + payload.entries)];
        } else {
          merged := merged[name := payload];
        }
        rest := rest - {name};
      }
    }
  }
}

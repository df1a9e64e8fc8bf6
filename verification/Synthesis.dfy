/** Building a parent-timeframe bar from child-timeframe bars: alignment, grouping,
    folding, and the windowed read that the live path performs on its cache. */
module Synthesis {
  import opened Common

  // ---------------------------------------------------------------- alignment

  function UpperChar(c: char): char {
    if 'a' <= c <= 'z' then (c as int - 32) as char else c
  }

  function Upper(s: string): string {
    seq(|s|, i requires 0 <= i < |s| => UpperChar(s[i]))
  }

  const Minute := 60
  const Hour := 60 * Minute
  const Day := 24 * Hour

  function SecondsByName(name: string): (s: int)
    ensures s in [60, 300, 900, 1800, 3600, 14400, 86400, 604800]
    ensures s == Hour <==> name == "H1"
    ensures s == 4 * Hour <==> name == "H4"
    ensures s == Day <==> name == "D1"
    ensures s == 7 * Day <==> name == "W1"
    ensures s == 5 * Minute <==> name == "M5"
    ensures s == 15 * Minute <==> name == "M15"
    ensures s == 30 * Minute <==> name == "M30"
  {
    match name
    case "M1" => 60
    case "M5" => 300
    case "M15" => 900
    case "M30" => 1800
    case "H1" => 3600
    case "H4" => 14400
    case "D1" => 86400
    case "W1" => 604800
    case _ => 60
  }

  /** Seconds of a timeframe name in any case; unknown names fall back to a minute. */
  function TimeframeSeconds(tf: string): (s: int)
    ensures s >= 60
  {
    SecondsByName(Upper(tf))
  }

  /** A letter of the unit and a count: what a supported name says, in either case, it lasts. */
  lemma TimeframesLastAsNamed()
    ensures TimeframeSeconds("M1") == TimeframeSeconds("m1") == Minute
    ensures TimeframeSeconds("M5") == TimeframeSeconds("m5") == 5 * Minute
    ensures TimeframeSeconds("M15") == TimeframeSeconds("m15") == 15 * Minute
    ensures TimeframeSeconds("M30") == TimeframeSeconds("m30") == 30 * Minute
    ensures TimeframeSeconds("H1") == TimeframeSeconds("h1") == Hour
    ensures TimeframeSeconds("H4") == TimeframeSeconds("h4") == 4 * Hour
    ensures TimeframeSeconds("D1") == TimeframeSeconds("d1") == Day
    ensures TimeframeSeconds("W1") == TimeframeSeconds("w1") == 7 * Day
  {
    UpperPairs();
  }

  lemma UpperPairs()
    ensures Upper("M1") == Upper("m1") == "M1" && Upper("M5") == Upper("m5") == "M5"
    ensures Upper("M15") == Upper("m15") == "M15" && Upper("M30") == Upper("m30") == "M30"
    ensures Upper("H1") == Upper("h1") == "H1" && Upper("H4") == Upper("h4") == "H4"
    ensures Upper("D1") == Upper("d1") == "D1" && Upper("W1") == Upper("w1") == "W1"
  {
  }

  /** The opening time of the parent bar that contains `t`. */
  function AlignTime(t: int, secs: int): (a: int)
    requires secs > 0
    ensures a <= t < a + secs && a % secs == 0
  {
    AlignIsMultiple(t, secs);
    t - t % secs
  }

  lemma AlignIsMultiple(t: int, secs: int)
    requires secs > 0
    ensures (t - t % secs) % secs == 0
  {
    var q := t / secs;
    assert t - t % secs == q * secs;
    MultipleMod(q, secs);
  }

  /** A time lies in exactly one aligned interval. */
  lemma AlignUnique(t: int, a: int, secs: int)
    requires secs > 0
    requires a % secs == 0 && a <= t < a + secs
    ensures AlignTime(t, secs) == a
  {
    var b := AlignTime(t, secs);
    var p, q := a / secs, b / secs;
    assert a == p * secs && b == q * secs;
    assert (p - q) * secs == a - b;
    SmallMultiple(p - q, secs);
  }

  lemma AlignMonotone(t: int, u: int, secs: int)
    requires secs > 0 && t <= u
    ensures AlignTime(t, secs) <= AlignTime(u, secs)
  {
    var a, b := AlignTime(t, secs), AlignTime(u, secs);
    if b < a {
      AlignUnique(u, a, secs);
    }
  }

  /** Aligning to a middle timeframe first does not change the parent, when the middle divides it. */
  lemma AlignComposes(t: int, mid: int, parent: int)
    requires mid > 0 && parent > 0 && parent % mid == 0
    ensures AlignTime(AlignTime(t, mid), parent) == AlignTime(t, parent)
  {
    var a := AlignTime(t, parent);
    var c, p := parent / mid, a / parent;
    assert parent == c * mid && a == p * parent;
    assert a == (p * c) * mid;
    MultipleMod(p * c, mid);
    AlignUnique(a, a, mid);
    AlignMonotone(a, t, mid);
    AlignUnique(AlignTime(t, mid), a, parent);
  }

  lemma LengthsNest(m: int, p: int)
    requires m in [60, 300, 900, 1800, 3600, 14400, 86400, 604800]
    requires p in [60, 300, 900, 1800, 3600, 14400, 86400, 604800] && m <= p
    ensures p % m == 0
  {
  }

  /** Every pair of supported timeframes nests: the shorter divides the longer. */
  lemma SupportedTimeframesNest(mid: string, parent: string)
    requires TimeframeSeconds(mid) <= TimeframeSeconds(parent)
    ensures TimeframeSeconds(parent) % TimeframeSeconds(mid) == 0
  {
    LengthsNest(SecondsByName(Upper(mid)), SecondsByName(Upper(parent)));
  }

  // ---------------------------------------------------------------- folding

  function MaxHigh(bars: seq<Ohlc>): real
    requires bars != []
  {
    var n := |bars| - 1;
    if n == 0 then bars[0].high else MaxReal(MaxHigh(bars[..n]), bars[n].high)
  }

  function MinLow(bars: seq<Ohlc>): real
    requires bars != []
  {
    var n := |bars| - 1;
    if n == 0 then bars[0].low else MinReal(MinLow(bars[..n]), bars[n].low)
  }

  lemma {:induction false} ExtremesBound(bars: seq<Ohlc>, k: nat)
    requires k < |bars|
    ensures MinLow(bars) <= bars[k].low && bars[k].high <= MaxHigh(bars)
  {
    var n := |bars| - 1;
    if k < n { ExtremesBound(bars[..n], k); }
  }

  /** The extremes of a parent bar are attained by children, and no child lies outside them. */
  lemma {:induction false} ExtremesAttained(bars: seq<Ohlc>) returns (h: nat, l: nat)
    requires bars != []
    ensures h < |bars| && l < |bars|
    ensures bars[h].high == MaxHigh(bars) && bars[l].low == MinLow(bars)
    ensures forall k :: 0 <= k < |bars| ==> bars[l].low <= bars[k].low && bars[k].high <= bars[h].high
  {
    var n := |bars| - 1;
    h, l := n, n;
    if n > 0 {
      var h', l' := ExtremesAttained(bars[..n]);
      if bars[h'].high >= bars[n].high { h := h'; }
      if bars[l'].low <= bars[n].low { l := l'; }
    }
    forall k | 0 <= k < |bars| ensures MinLow(bars) <= bars[k].low && bars[k].high <= MaxHigh(bars) {
      ExtremesBound(bars, k);
    }
  }

  function SumVolume(bars: seq<Ohlc>): real {
    if bars == [] then 0.0 else SumVolume(bars[..|bars| - 1]) + bars[|bars| - 1].volume
  }

  function Synthesize(bars: seq<Ohlc>, symbol: string, parentTf: string, time: int): Ohlc
    requires bars != []
  {
    Ohlc(symbol, parentTf, time, bars[0].open, MaxHigh(bars), MinLow(bars),
         bars[|bars| - 1].close, SumVolume(bars), None)
  }

  /** The caller-facing form: an empty group is an error. */
  function SynthesizeParentBar(bars: seq<Ohlc>, symbol: string, parentTf: string, time: int): (r: Result<Ohlc>)
    ensures r.Ok? <==> bars != []
    ensures r.Ok? ==> r.value.symbol == symbol && r.value.timeframe == parentTf && r.value.time == time
    ensures r.Ok? ==> r.value.open == bars[0].open && r.value.close == bars[|bars| - 1].close
    ensures r.Ok? ==> Spans(r.value, bars) && r.value.volume == SumVolume(bars)
  {
    if bars == [] then Err("child_bars must not be empty")
    else
      ExtremesExist(bars);
      Ok(Synthesize(bars, symbol, parentTf, time))
  }

  /** The bar's extremes are reached by a child and exceeded by none. */
  ghost predicate Spans(bar: Ohlc, bars: seq<Ohlc>) {
    && (forall k :: 0 <= k < |bars| ==> bar.low <= bars[k].low && bars[k].high <= bar.high)
    && (exists k :: 0 <= k < |bars| && bars[k].high == bar.high)
    && (exists k :: 0 <= k < |bars| && bars[k].low == bar.low)
  }

  lemma ExtremesExist(bars: seq<Ohlc>)
    requires bars != []
    ensures (forall k :: 0 <= k < |bars| ==> MinLow(bars) <= bars[k].low && bars[k].high <= MaxHigh(bars))
    ensures (exists k :: 0 <= k < |bars| && bars[k].high == MaxHigh(bars))
    ensures (exists k :: 0 <= k < |bars| && bars[k].low == MinLow(bars))
  {
    var h, l := ExtremesAttained(bars);
  }

  /** What one further child does to a synthesized bar. */
  function Absorb(m: Ohlc, b: Ohlc): Ohlc {
    m.(high := MaxReal(m.high, b.high), low := MinReal(m.low, b.low), close := b.close, volume := m.volume + b.volume)
  }

  lemma SynthesizeSnoc(bars: seq<Ohlc>, b: Ohlc, symbol: string, tf: string, time: int)
    requires bars != []
    ensures Synthesize(bars + [b], symbol, tf, time) == Absorb(Synthesize(bars, symbol, tf, time), b)
  {
    assert (bars + [b])[..|bars|] == bars;
  }

  lemma SynthesizeOne(b: Ohlc, symbol: string, tf: string, time: int)
    ensures Synthesize([b], symbol, tf, time)
         == Ohlc(symbol, tf, time, b.open, b.high, b.low, b.close, b.volume, None)
  {
    assert [b][..0] == [];
    assert SumVolume([b]) == SumVolume([]) + b.volume;
  }

  /** Replacing the last bar by its absorbed form equals absorbing into the whole. */
  lemma SynthesizeAbsorbLast(pre: seq<Ohlc>, m: Ohlc, b: Ohlc, symbol: string, tf: string, time: int)
    ensures Synthesize(pre + [Absorb(m, b)], symbol, tf, time)
         == Absorb(Synthesize(pre + [m], symbol, tf, time), b)
  {
    if pre == [] {
      assert pre + [m] == [m] && pre + [Absorb(m, b)] == [Absorb(m, b)];
      SynthesizeOne(m, symbol, tf, time);
      SynthesizeOne(Absorb(m, b), symbol, tf, time);
    } else {
      SynthesizeSnoc(pre, m, symbol, tf, time);
      SynthesizeSnoc(pre, Absorb(m, b), symbol, tf, time);
    }
  }

  // ---------------------------------------------------------------- grouping

  ghost predicate Ascending(bars: seq<Ohlc>) {
    forall i, j :: 0 <= i < j < |bars| ==> bars[i].time <= bars[j].time
  }

  /** Reference definition of a group: the children of `bars` that align to `key`, in input order. */
  function Group(bars: seq<Ohlc>, secs: int, key: int): seq<Ohlc>
    requires secs > 0
  {
    if bars == [] then []
    else
      var n := |bars| - 1;
      var front := Group(bars[..n], secs, key);
      if AlignTime(bars[n].time, secs) == key then front + [bars[n]] else front
  }

  /** Parent times in the order in which the input first mentions them. */
  function Keys(bars: seq<Ohlc>, secs: int): seq<int>
    requires secs > 0
  {
    if bars == [] then []
    else
      var n := |bars| - 1;
      var front := Keys(bars[..n], secs);
      var a := AlignTime(bars[n].time, secs);
      if a in front then front else front + [a]
  }

  lemma {:induction false} KeysSound(bars: seq<Ohlc>, secs: int)
    requires secs > 0
    ensures forall k :: k in Keys(bars, secs) <==> Group(bars, secs, k) != []
    ensures forall i, j :: 0 <= i < j < |Keys(bars, secs)| ==> Keys(bars, secs)[i] != Keys(bars, secs)[j]
  {
    if bars != [] {
      KeysSound(bars[..|bars| - 1], secs);
    }
  }

  /** Every member of a group came from the input and lies inside the parent bar. */
  lemma {:induction false} GroupMembers(bars: seq<Ohlc>, secs: int, key: int)
    requires secs > 0
    ensures forall b :: b in Group(bars, secs, key) <==> b in bars && AlignTime(b.time, secs) == key
    ensures forall b :: b in Group(bars, secs, key) ==> key <= b.time < key + secs
    ensures Ascending(bars) ==> Ascending(Group(bars, secs, key))
  {
    if bars != [] {
      var n := |bars| - 1;
      assert bars == bars[..n] + [bars[n]];
      GroupMembers(bars[..n], secs, key);
    }
  }

  lemma GroupSnoc(bars: seq<Ohlc>, b: Ohlc, secs: int, key: int)
    requires secs > 0
    ensures Group(bars + [b], secs, key)
         == if AlignTime(b.time, secs) == key then Group(bars, secs, key) + [b] else Group(bars, secs, key)
  {
    assert (bars + [b])[..|bars|] == bars;
  }

  lemma KeysSnoc(bars: seq<Ohlc>, b: Ohlc, secs: int)
    requires secs > 0
    ensures Keys(bars + [b], secs)
         == var a := AlignTime(b.time, secs);
            if a in Keys(bars, secs) then Keys(bars, secs) else Keys(bars, secs) + [a]
  {
    assert (bars + [b])[..|bars|] == bars;
  }

  /** The insertion-ordered dictionary that the grouping loop fills. */
  datatype Index = Index(order: seq<int>, groups: map<int, seq<Ohlc>>)

  /** Keys in first-mention order, and under each exactly the group of that parent. */
  ghost predicate Indexes(index: Index, bars: seq<Ohlc>, secs: int)
    requires secs > 0
  {
    && index.order == Keys(bars, secs)
    && (forall k :: k in index.groups <==> k in index.order)
    && (forall k :: k in index.groups ==> index.groups[k] == Group(bars, secs, k))
  }

  /** `index.setdefault(key, []).append(bar)`. */
  function Append(index: Index, key: int, bar: Ohlc): Index {
    if key in index.groups then index.(groups := index.groups[key := index.groups[key] + [bar]])
    else Index(index.order + [key], index.groups[key := [bar]])
  }

  lemma AppendIndexes(index: Index, bars: seq<Ohlc>, b: Ohlc, all: seq<Ohlc>, secs: int)
    requires secs > 0 && Indexes(index, bars, secs) && all == bars + [b]
    ensures Indexes(Append(index, AlignTime(b.time, secs), b), all, secs)
  {
    KeysSound(bars, secs);
    KeysSnoc(bars, b, secs);
    forall k { GroupSnoc(bars, b, secs, k); }
  }

  /** The grouping loop: append each child to the list of its parent, creating the list when absent. */
  method BuildChildBarIndex(bars: seq<Ohlc>, secs: int) returns (index: Index)
    requires secs > 0
    ensures Indexes(index, bars, secs)
  {
    index := Index([], map[]);
    for i := 0 to |bars|
      invariant Indexes(index, bars[..i], secs)
    {
      assert bars[..i + 1] == bars[..i] + [bars[i]];
      AppendIndexes(index, bars[..i], bars[i], bars[..i + 1], secs);
      index := Append(index, AlignTime(bars[i].time, secs), bars[i]);
    }
    assert bars[..|bars|] == bars;
  }

  /** The groups laid end to end, in the given key order. */
  ghost function Concatenated(keys: seq<int>, bars: seq<Ohlc>, secs: int): seq<Ohlc>
    requires secs > 0
  {
    if keys == [] then []
    else
      var n := |keys| - 1;
      Concatenated(keys[..n], bars, secs) + Group(bars, secs, keys[n])
  }

  lemma {:induction false} ConcatenatedSnocBar(keys: seq<int>, bars: seq<Ohlc>, b: Ohlc, secs: int)
    requires secs > 0
    requires forall i, j :: 0 <= i < j < |keys| ==> keys[i] != keys[j]
    ensures multiset(Concatenated(keys, bars + [b], secs))
         == multiset(Concatenated(keys, bars, secs))
            + (if AlignTime(b.time, secs) in keys then multiset{b} else multiset{})
  {
    if keys != [] {
      var n := |keys| - 1;
      assert keys == keys[..n] + [keys[n]];
      ConcatenatedSnocBar(keys[..n], bars, b, secs);
      GroupSnoc(bars, b, secs, keys[n]);
    }
  }

  /** Grouping loses and duplicates nothing, whatever the input order: the groups of the
      distinct keys together hold exactly the input bars. */
  lemma {:induction false} GroupsPartition(bars: seq<Ohlc>, secs: int)
    requires secs > 0
    ensures multiset(Concatenated(Keys(bars, secs), bars, secs)) == multiset(bars)
  {
    if bars != [] {
      var n := |bars| - 1;
      var front, b := bars[..n], bars[n];
      var ks, a := Keys(front, secs), AlignTime(b.time, secs);
      assert bars == front + [b];
      GroupsPartition(front, secs);
      KeysSound(front, secs);
      KeysSnoc(front, b, secs);
      ConcatenatedSnocBar(ks, front, b, secs);
      if a !in ks {
        GroupSnoc(front, b, secs, a);
        assert (ks + [a])[..|ks|] == ks;
        assert Concatenated(ks + [a], bars, secs) == Concatenated(ks, bars, secs) + Group(bars, secs, a);
      }
    }
  }

  /** For ascending input the keys come out strictly ascending, and only the last group is still open. */
  lemma {:induction false} KeysAscend(bars: seq<Ohlc>, secs: int)
    requires secs > 0 && Ascending(bars)
    ensures StrictlyIncreasing(Keys(bars, secs))
    ensures bars != [] ==>
              && Keys(bars, secs) != []
              && Keys(bars, secs)[|Keys(bars, secs)| - 1] == AlignTime(bars[|bars| - 1].time, secs)
  {
    if |bars| > 1 {
      var n := |bars| - 1;
      KeysAscend(bars[..n], secs);
      AlignMonotone(bars[n - 1].time, bars[n].time, secs);
      var ks, a := Keys(bars[..n], secs), AlignTime(bars[n].time, secs);
      if a in ks {
        var i :| 0 <= i < |ks| && ks[i] == a;
        assert i == |ks| - 1;
      }
    } else if |bars| == 1 {
      assert Keys(bars[..0], secs) == [];
    }
  }

  /** For ascending input, reading the groups back in key order is the input itself. */
  lemma {:induction false} GroupsRoundTrip(bars: seq<Ohlc>, secs: int)
    requires secs > 0 && Ascending(bars)
    ensures Concatenated(Keys(bars, secs), bars, secs) == bars
    ensures StrictlyIncreasing(Keys(bars, secs))
  {
    KeysAscend(bars, secs);
    if bars != [] {
      var n := |bars| - 1;
      assert bars == bars[..n] + [bars[n]];
      GroupsRoundTrip(bars[..n], secs);
      RoundTripSnoc(bars[..n], bars[n], secs);
    }
  }

  lemma RoundTripSnoc(front: seq<Ohlc>, b: Ohlc, secs: int)
    requires secs > 0 && Ascending(front + [b])
    requires Concatenated(Keys(front, secs), front, secs) == front
    ensures Concatenated(Keys(front + [b], secs), front + [b], secs) == front + [b]
  {
    KeysSnoc(front, b, secs);
    KeysSound(front, secs);
    if AlignTime(b.time, secs) in Keys(front, secs) {
      RoundTripSameKey(front, b, secs);
    } else {
      RoundTripNewKey(Keys(front, secs), front, b, secs);
    }
  }

  /** In ascending input a parent that is still open is the last key. */
  lemma OpenKeyIsLast(front: seq<Ohlc>, b: Ohlc, secs: int)
    requires secs > 0 && Ascending(front + [b]) && AlignTime(b.time, secs) in Keys(front, secs)
    ensures var ks, a := Keys(front, secs), AlignTime(b.time, secs);
      && ks != [] && ks[|ks| - 1] == a && a !in ks[..|ks| - 1]
      && Keys(front + [b], secs) == ks
  {
    KeysSnoc(front, b, secs);
    KeysAscend(front + [b], secs);
  }

  lemma ConcatenatedLast(ks: seq<int>, bars: seq<Ohlc>, secs: int)
    requires secs > 0 && ks != []
    ensures Concatenated(ks, bars, secs)
         == Concatenated(ks[..|ks| - 1], bars, secs) + Group(bars, secs, ks[|ks| - 1])
  {
  }

  lemma {:induction false} ConcatenatedFrame(keys: seq<int>, bars: seq<Ohlc>, b: Ohlc, secs: int)
    requires secs > 0 && AlignTime(b.time, secs) !in keys
    ensures Concatenated(keys, bars + [b], secs) == Concatenated(keys, bars, secs)
  {
    if keys != [] {
      var n := |keys| - 1;
      assert keys[n] in keys;
      ConcatenatedFrame(keys[..n], bars, b, secs);
      GroupSnoc(bars, b, secs, keys[n]);
    }
  }

  lemma RoundTripSameKey(front: seq<Ohlc>, b: Ohlc, secs: int)
    requires secs > 0 && Ascending(front + [b]) && AlignTime(b.time, secs) in Keys(front, secs)
    ensures Concatenated(Keys(front, secs), front + [b], secs) == Concatenated(Keys(front, secs), front, secs) + [b]
  {
    var ks, a := Keys(front, secs), AlignTime(b.time, secs);
    OpenKeyIsLast(front, b, secs);
    var closed := ks[..|ks| - 1];
    ConcatenatedLast(ks, front, secs);
    ConcatenatedLast(ks, front + [b], secs);
    ConcatenatedFrame(closed, front, b, secs);
    GroupSnoc(front, b, secs, a);
    ConcatAssociates(Concatenated(closed, front, secs), Group(front, secs, a), [b]);
  }

  lemma RoundTripNewKey(ks: seq<int>, front: seq<Ohlc>, b: Ohlc, secs: int)
    requires secs > 0 && AlignTime(b.time, secs) !in ks && Group(front, secs, AlignTime(b.time, secs)) == []
    requires forall i, j :: 0 <= i < j < |ks| ==> ks[i] != ks[j]
    ensures Concatenated(ks + [AlignTime(b.time, secs)], front + [b], secs) == Concatenated(ks, front, secs) + [b]
  {
    var a := AlignTime(b.time, secs);
    ConcatenatedFrame(ks, front, b, secs);
    GroupSnoc(front, b, secs, a);
    assert (ks + [a])[..|ks|] == ks;
  }

  // ---------------------------------------------------------------- two-level synthesis

  function SynthesizeKeys(keys: seq<int>, bars: seq<Ohlc>, secs: int, symbol: string, tf: string): (r: seq<Ohlc>)
    requires secs > 0
    requires forall k :: k in keys ==> Group(bars, secs, k) != []
    ensures |r| == |keys|
  {
    if keys == [] then []
    else
      var n := |keys| - 1;
      SynthesizeKeys(keys[..n], bars, secs, symbol, tf)
      + [Synthesize(Group(bars, secs, keys[n]), symbol, tf, keys[n])]
  }

  /** One synthesized bar per group, in key order. */
  function SynthesizeAll(bars: seq<Ohlc>, secs: int, symbol: string, tf: string): (r: seq<Ohlc>)
    requires secs > 0
    ensures |r| == |Keys(bars, secs)|
  {
    KeysSound(bars, secs);
    SynthesizeKeys(Keys(bars, secs), bars, secs, symbol, tf)
  }

  /** A bar of another parent leaves the synthesized bars of these keys alone. */
  lemma {:induction false} SynthesizeKeysFrame(
      keys: seq<int>, bars: seq<Ohlc>, b: Ohlc, secs: int, symbol: string, tf: string)
    requires secs > 0 && AlignTime(b.time, secs) !in keys
    requires forall k :: k in keys ==> Group(bars, secs, k) != []
    ensures forall k :: k in keys ==> Group(bars + [b], secs, k) != []
    ensures SynthesizeKeys(keys, bars + [b], secs, symbol, tf) == SynthesizeKeys(keys, bars, secs, symbol, tf)
  {
    if keys != [] {
      var n := |keys| - 1;
      assert keys == keys[..n] + [keys[n]];
      SynthesizeKeysFrame(keys[..n], bars, b, secs, symbol, tf);
      GroupSnoc(bars, b, secs, keys[n]);
    }
  }

  /** A further child of the parent that is still open is absorbed by the last synthesized bar. */
  lemma SynthesizeAllSameKey(bars: seq<Ohlc>, b: Ohlc, secs: int, symbol: string, tf: string)
    requires secs > 0 && Ascending(bars + [b]) && AlignTime(b.time, secs) in Keys(bars, secs)
    ensures var mids := SynthesizeAll(bars, secs, symbol, tf);
      && mids != []
      && mids[|mids| - 1].time == AlignTime(b.time, secs)
      && SynthesizeAll(bars + [b], secs, symbol, tf) == mids[..|mids| - 1] + [Absorb(mids[|mids| - 1], b)]
  {
    var all, a, ks := bars + [b], AlignTime(b.time, secs), Keys(bars, secs);
    var n := |ks| - 1;
    KeysSound(bars, secs);
    KeysSound(all, secs);
    OpenKeyIsLast(bars, b, secs);
    SynthesizeKeysFrame(ks[..n], bars, b, secs, symbol, tf);
    GroupSnoc(bars, b, secs, a);
    SynthesizeSnoc(Group(bars, secs, a), b, symbol, tf, a);
  }

  lemma SynthesizeKeysSnoc(keys: seq<int>, a: int, bars: seq<Ohlc>, secs: int, symbol: string, tf: string)
    requires secs > 0 && Group(bars, secs, a) != []
    requires forall k :: k in keys ==> Group(bars, secs, k) != []
    ensures forall k :: k in keys + [a] ==> Group(bars, secs, k) != []
    ensures SynthesizeKeys(keys + [a], bars, secs, symbol, tf)
         == SynthesizeKeys(keys, bars, secs, symbol, tf) + [Synthesize(Group(bars, secs, a), symbol, tf, a)]
  {
    assert (keys + [a])[..|keys|] == keys;
  }

  /** The first child of a new parent starts a new synthesized bar. */
  lemma SynthesizeAllNewKey(bars: seq<Ohlc>, b: Ohlc, secs: int, symbol: string, tf: string)
    requires secs > 0 && AlignTime(b.time, secs) !in Keys(bars, secs)
    ensures SynthesizeAll(bars + [b], secs, symbol, tf)
         == SynthesizeAll(bars, secs, symbol, tf) + [Synthesize([b], symbol, tf, AlignTime(b.time, secs))]
  {
    var a, ks := AlignTime(b.time, secs), Keys(bars, secs);
    KeysSound(bars, secs);
    KeysSound(bars + [b], secs);
    KeysSnoc(bars, b, secs);
    SynthesizeKeysFrame(ks, bars, b, secs, symbol, tf);
    GroupSnoc(bars, b, secs, a);
    SynthesizeKeysSnoc(ks, a, bars + [b], secs, symbol, tf);
  }

  lemma {:induction false} VolumeConcat(a: seq<Ohlc>, b: seq<Ohlc>)
    ensures SumVolume(a + b) == SumVolume(a) + SumVolume(b)
  {
    if b == [] {
      assert a + b == a;
    } else {
      VolumeConcat(a, b[..|b| - 1]);
      assert (a + b)[..|a| + |b| - 1] == a + b[..|b| - 1];
    }
  }

  lemma {:induction false} VolumeOfKeys(keys: seq<int>, bars: seq<Ohlc>, secs: int, symbol: string, tf: string)
    requires secs > 0 && forall k :: k in keys ==> Group(bars, secs, k) != []
    ensures SumVolume(SynthesizeKeys(keys, bars, secs, symbol, tf)) == SumVolume(Concatenated(keys, bars, secs))
  {
    if keys != [] {
      var n := |keys| - 1;
      VolumeOfKeys(keys[..n], bars, secs, symbol, tf);
      VolumeConcat(Concatenated(keys[..n], bars, secs), Group(bars, secs, keys[n]));
    }
  }

  lemma GroupVolumeSnoc(bars: seq<Ohlc>, b: Ohlc, secs: int, key: int)
    requires secs > 0
    ensures SumVolume(Group(bars + [b], secs, key))
         == SumVolume(Group(bars, secs, key)) + (if AlignTime(b.time, secs) == key then b.volume else 0.0)
  {
    GroupSnoc(bars, b, secs, key);
    VolumeSnoc(Group(bars, secs, key), b);
  }

  lemma VolumeOfLast(ks: seq<int>, key: int, bars: seq<Ohlc>, secs: int)
    requires secs > 0
    ensures SumVolume(Concatenated(ks + [key], bars, secs))
         == SumVolume(Concatenated(ks, bars, secs)) + SumVolume(Group(bars, secs, key))
  {
    ConcatenatedLast(ks + [key], bars, secs);
    assert (ks + [key])[..|ks|] == ks;
    VolumeConcat(Concatenated(ks, bars, secs), Group(bars, secs, key));
  }

  lemma {:induction false} VolumeSnocBar(keys: seq<int>, bars: seq<Ohlc>, b: Ohlc, secs: int)
    requires secs > 0 && forall i, j :: 0 <= i < j < |keys| ==> keys[i] != keys[j]
    ensures SumVolume(Concatenated(keys, bars + [b], secs))
         == SumVolume(Concatenated(keys, bars, secs)) + (if AlignTime(b.time, secs) in keys then b.volume else 0.0)
    decreases |keys|
  {
    if keys != [] {
      var ks, key := Unsnoc(keys);
      VolumeSnocBar(ks, bars, b, secs);
      VolumeOfLast(ks, key, bars, secs);
      VolumeOfLast(ks, key, bars + [b], secs);
      GroupVolumeSnoc(bars, b, secs, key);
      assert key !in ks;
    }
  }

  /** A key whose group is empty adds nothing. */
  lemma EmptyGroupAddsNothing(ks: seq<int>, a: int, bars: seq<Ohlc>, secs: int)
    requires secs > 0 && Group(bars, secs, a) == []
    ensures Concatenated(ks + [a], bars, secs) == Concatenated(ks, bars, secs)
  {
    ConcatenatedLast(ks + [a], bars, secs);
    assert (ks + [a])[..|ks|] == ks;
    assert Concatenated(ks, bars, secs) + [] == Concatenated(ks, bars, secs);
  }

  lemma KeysCover(front: seq<Ohlc>, b: Ohlc, secs: int)
    requires secs > 0
    ensures AlignTime(b.time, secs) in Keys(front + [b], secs)
    ensures AlignTime(b.time, secs) !in Keys(front, secs) ==> Group(front, secs, AlignTime(b.time, secs)) == []
    ensures forall i, j :: 0 <= i < j < |Keys(front + [b], secs)| ==> Keys(front + [b], secs)[i] != Keys(front + [b], secs)[j]
  {
    KeysSnoc(front, b, secs);
    KeysSound(front, secs);
    KeysSound(front + [b], secs);
  }

  /** The keys of one more bar name the groups of the bars before. */
  lemma OneMoreKey(front: seq<Ohlc>, b: Ohlc, secs: int)
    requires secs > 0
    ensures Concatenated(Keys(front + [b], secs), front, secs) == Concatenated(Keys(front, secs), front, secs)
  {
    var a := AlignTime(b.time, secs);
    KeysSnoc(front, b, secs);
    if a !in Keys(front, secs) {
      KeysCover(front, b, secs);
      EmptyGroupAddsNothing(Keys(front, secs), a, front, secs);
    }
  }

  lemma VolumeSnoc(bars: seq<Ohlc>, b: Ohlc)
    ensures SumVolume(bars + [b]) == SumVolume(bars) + b.volume
  {
    assert (bars + [b])[..|bars|] == bars;
  }

  /** The groups together carry the volume of all bars. */
  ghost predicate KeepsVolume(bars: seq<Ohlc>, secs: int)
    requires secs > 0
  {
    SumVolume(Concatenated(Keys(bars, secs), bars, secs)) == SumVolume(bars)
  }

  lemma VolumeStep(front: seq<Ohlc>, b: Ohlc, secs: int)
    requires secs > 0 && KeepsVolume(front, secs)
    ensures KeepsVolume(front + [b], secs)
  {
    KeysCover(front, b, secs);
    OneMoreKey(front, b, secs);
    VolumeSnocBar(Keys(front + [b], secs), front, b, secs);
    VolumeSnoc(front, b);
  }

  lemma {:induction false} VolumeOfGroups(bars: seq<Ohlc>, secs: int)
    requires secs > 0
    ensures KeepsVolume(bars, secs)
    decreases |bars|
  {
    if bars != [] {
      var front, b := Unsnoc(bars);
      VolumeOfGroups(front, secs);
      VolumeStep(front, b, secs);
    }
  }

  /** Synthesis conserves volume: whatever the order of the children, the parent bars together carry
      exactly the volume of all children. */
  lemma SynthesisConservesVolume(bars: seq<Ohlc>, secs: int, symbol: string, tf: string)
    requires secs > 0
    ensures SumVolume(SynthesizeAll(bars, secs, symbol, tf)) == SumVolume(bars)
  {
    KeysSound(bars, secs);
    VolumeOfKeys(Keys(bars, secs), bars, secs, symbol, tf);
    VolumeOfGroups(bars, secs);
  }

  /** `mids` stands for `bars` at the parent level: same groups, same synthesized parent bar. */
  ghost predicate SameParent(
    mids: seq<Ohlc>, bars: seq<Ohlc>, parent: int, key: int, symbol: string, parentTf: string)
    requires parent > 0
  {
    var g, h := Group(mids, parent, key), Group(bars, parent, key);
    && (g == [] <==> h == [])
    && (g != [] && h != [] ==> Synthesize(g, symbol, parentTf, key) == Synthesize(h, symbol, parentTf, key))
  }

  lemma SameParentAbsorb(
      pre: seq<Ohlc>, m: Ohlc, bars: seq<Ohlc>, b: Ohlc, parent: int, key: int, symbol: string, parentTf: string)
    requires parent > 0
    requires AlignTime(m.time, parent) == AlignTime(b.time, parent)
    requires SameParent(pre + [m], bars, parent, key, symbol, parentTf)
    ensures SameParent(pre + [Absorb(m, b)], bars + [b], parent, key, symbol, parentTf)
  {
    GroupSnoc(pre, m, parent, key);
    GroupSnoc(pre, Absorb(m, b), parent, key);
    GroupSnoc(bars, b, parent, key);
    if AlignTime(b.time, parent) == key {
      SynthesizeAbsorbLast(Group(pre, parent, key), m, b, symbol, parentTf, key);
      SynthesizeSnoc(Group(bars, parent, key), b, symbol, parentTf, key);
    }
  }

  lemma SameParentAppend(
      mids: seq<Ohlc>, m: Ohlc, bars: seq<Ohlc>, b: Ohlc, parent: int, key: int, symbol: string, parentTf: string)
    requires parent > 0
    requires AlignTime(m.time, parent) == AlignTime(b.time, parent)
    requires (m.open, m.high, m.low, m.close, m.volume) == (b.open, b.high, b.low, b.close, b.volume)
    requires SameParent(mids, bars, parent, key, symbol, parentTf)
    ensures SameParent(mids + [m], bars + [b], parent, key, symbol, parentTf)
  {
    GroupSnoc(mids, m, parent, key);
    GroupSnoc(bars, b, parent, key);
    if AlignTime(b.time, parent) == key {
      var g, h := Group(mids, parent, key), Group(bars, parent, key);
      if h == [] {
        assert g + [m] == [m] && h + [b] == [b];
        SynthesizeOne(m, symbol, parentTf, key);
        SynthesizeOne(b, symbol, parentTf, key);
      } else {
        SynthesizeSnoc(g, m, symbol, parentTf, key);
        SynthesizeSnoc(h, b, symbol, parentTf, key);
      }
    }
  }

  /** Synthesizing the parent from synthesized middle bars gives the very bar that the raw
      children give, for every parent key. */
  lemma {:induction false} TwoLevelSynthesis(
      bars: seq<Ohlc>, mid: int, parent: int, key: int, symbol: string, midTf: string, parentTf: string)
    requires mid > 0 && parent > 0 && parent % mid == 0
    requires Ascending(bars)
    ensures SameParent(SynthesizeAll(bars, mid, symbol, midTf), bars, parent, key, symbol, parentTf)
  {
    if bars != [] {
      var n := |bars| - 1;
      var front, b := bars[..n], bars[n];
      assert bars == front + [b];
      TwoLevelSynthesis(front, mid, parent, key, symbol, midTf, parentTf);
      AlignComposes(b.time, mid, parent);
      var mids, a := SynthesizeAll(front, mid, symbol, midTf), AlignTime(b.time, mid);
      if a in Keys(front, mid) {
        SynthesizeAllSameKey(front, b, mid, symbol, midTf);
        var m := |mids| - 1;
        assert mids == mids[..m] + [mids[m]];
        SameParentAbsorb(mids[..m], mids[m], front, b, parent, key, symbol, parentTf);
      } else {
        SynthesizeAllNewKey(front, b, mid, symbol, midTf);
        SynthesizeOne(b, symbol, midTf, a);
        SameParentAppend(mids, Synthesize([b], symbol, midTf, a), front, b, parent, key, symbol, parentTf);
      }
    }
  }

  // ---------------------------------------------------------------- live read

  /** Consecutive bars lie at least one trigger period apart, as aligned distinct bars do. */
  ghost predicate Spaced(bars: seq<Ohlc>, gap: int) {
    forall i :: 0 <= i < |bars| - 1 ==> bars[i].time + gap <= bars[i + 1].time
  }

  lemma AlignedIsSpaced(bars: seq<Ohlc>, gap: int)
    requires gap > 0
    requires forall i :: 0 <= i < |bars| ==> bars[i].time % gap == 0
    requires forall i :: 0 <= i < |bars| - 1 ==> bars[i].time < bars[i + 1].time
    ensures Spaced(bars, gap)
  {
    forall i | 0 <= i < |bars| - 1 ensures bars[i].time + gap <= bars[i + 1].time {
      var t, u := bars[i].time, bars[i + 1].time;
      if u < t + gap { AlignUnique(u, t, gap); AlignUnique(u, u, gap); }
    }
  }

  lemma {:induction false} SpacedDistance(bars: seq<Ohlc>, gap: int, i: nat, j: nat)
    requires gap > 0 && Spaced(bars, gap) && i <= j < |bars|
    ensures bars[i].time + (j - i) * gap <= bars[j].time
    decreases j - i
  {
    if i < j {
      SpacedDistance(bars, gap, i, j - 1);
      assert (j - i) * gap == (j - 1 - i) * gap + gap;
    }
  }

  function FromTime(bars: seq<Ohlc>, t: int): seq<Ohlc> {
    if bars == [] then []
    else
      var n := |bars| - 1;
      if bars[n].time >= t then FromTime(bars[..n], t) + [bars[n]] else FromTime(bars[..n], t)
  }

  /** How many of the newest bars the live path reads. */
  function ReadWindow(parent: int, trigger: int): (n: nat)
    requires parent > 0 && trigger > 0
    ensures n >= 2 && (n - 2) * trigger <= parent < (n - 1) * trigger
  {
    WholeTriggers(parent, trigger);
    parent / trigger + 2
  }

  lemma WholeTriggers(parent: int, trigger: int)
    requires parent > 0 && trigger > 0
    ensures parent / trigger >= 0 && parent / trigger * trigger <= parent < (parent / trigger + 1) * trigger
  {
    var q := parent / trigger;
    assert parent == q * trigger + parent % trigger;
    assert (q + 1) * trigger == q * trigger + trigger;
  }

  /** What the live path feeds to synthesis: the newest `parent / trigger + 2` stored bars,
      filtered by the parent's opening time only. */
  function LiveChildren(store: seq<Ohlc>, parent: int, trigger: int, triggerTime: int): seq<Ohlc>
    requires parent > 0 && trigger > 0
  {
    FromTime(LastN(store, ReadWindow(parent, trigger)), AlignTime(triggerTime, parent))
  }

  lemma {:induction false} FromTimeConcat(a: seq<Ohlc>, b: seq<Ohlc>, t: int)
    ensures FromTime(a + b, t) == FromTime(a, t) + FromTime(b, t)
  {
    if b == [] {
      assert a + b == a;
    } else {
      var n := |b| - 1;
      FromTimeConcat(a, b[..n], t);
      assert (a + b)[..|a| + n] == a + b[..n];
    }
  }

  lemma {:induction false} FromTimeAllOld(bars: seq<Ohlc>, t: int)
    requires forall b :: b in bars ==> b.time < t
    ensures FromTime(bars, t) == []
  {
    if bars != [] { FromTimeAllOld(bars[..|bars| - 1], t); }
  }

  lemma {:induction false} FromTimeIsGroup(bars: seq<Ohlc>, secs: int, key: int)
    requires secs > 0 && key % secs == 0
    requires forall b :: b in bars ==> b.time < key + secs
    ensures FromTime(bars, key) == Group(bars, secs, key)
  {
    if bars != [] {
      var n := |bars| - 1;
      FromTimeIsGroup(bars[..n], secs, key);
      assert bars[n] in bars;
      if bars[n].time >= key { AlignUnique(bars[n].time, key, secs); }
    }
  }

  lemma WindowSpansParent(parent: int, trigger: int, d: int)
    requires parent > 0 && trigger > 0 && d >= ReadWindow(parent, trigger)
    ensures d * trigger > parent
  {
    var q := parent / trigger;
    assert parent == q * trigger + parent % trigger;
    MulAtLeast(d - q - 1, trigger);
    assert d * trigger == (d - q - 1) * trigger + q * trigger + trigger;
  }

  lemma DroppedIsOld(store: seq<Ohlc>, parent: int, trigger: int, key: int, i: nat)
    requires parent > 0 && trigger > 0 && Spaced(store, trigger)
    requires i + ReadWindow(parent, trigger) < |store| && store[|store| - 1].time < key + parent
    ensures store[i].time < key
  {
    SpacedDistance(store, trigger, i, |store| - 1);
    WindowSpansParent(parent, trigger, |store| - 1 - i);
  }

  lemma DroppedAreOld(store: seq<Ohlc>, parent: int, trigger: int, key: int, dropped: seq<Ohlc>)
    requires parent > 0 && trigger > 0 && Spaced(store, trigger)
    requires |dropped| + ReadWindow(parent, trigger) == |store| && dropped == store[..|dropped|]
    requires store != [] && store[|store| - 1].time < key + parent
    ensures forall b :: b in dropped ==> b.time < key
  {
    forall i | 0 <= i < |dropped| ensures dropped[i].time < key {
      DroppedIsOld(store, parent, trigger, key, i);
    }
  }

  lemma SplitLast(s: seq<Ohlc>, n: nat) returns (dropped: seq<Ohlc>)
    requires |s| > n
    ensures s == dropped + LastN(s, n) && dropped == s[..|dropped|] && |dropped| + n == |s|
  {
    dropped := s[..|s| - n];
  }

  /** No bar older than the window can belong to the parent. */
  lemma WindowLosesNothing(store: seq<Ohlc>, parent: int, trigger: int, key: int)
    requires parent > 0 && trigger > 0 && Spaced(store, trigger)
    requires forall b :: b in store ==> b.time < key + parent
    ensures FromTime(LastN(store, ReadWindow(parent, trigger)), key) == FromTime(store, key)
  {
    var n := ReadWindow(parent, trigger);
    if |store| > n {
      var dropped := SplitLast(store, n);
      assert store[|store| - 1] in store;
      DroppedAreOld(store, parent, trigger, key, dropped);
      FromTimeAllOld(dropped, key);
      FromTimeConcat(dropped, LastN(store, n), key);
    }
  }

  /** The newest bar always survives the read. */
  lemma LiveKeepsNewest(store: seq<Ohlc>, parent: int, trigger: int, triggerTime: int)
    requires parent > 0 && trigger > 0 && store != []
    requires store[|store| - 1].time >= AlignTime(triggerTime, parent)
    ensures store[|store| - 1] in LiveChildren(store, parent, trigger, triggerTime)
  {
    var tail := LastN(store, ReadWindow(parent, trigger));
    assert tail[|tail| - 1] == store[|store| - 1];
  }

  /** The live read equals the group that the offline index gives for the same parent exactly
      when the store holds no bar beyond that parent: the filter has no upper bound. */
  lemma LiveEqualsIndexedGroup(store: seq<Ohlc>, parent: int, trigger: int, triggerTime: int, key: int)
    requires parent > 0 && trigger > 0 && Spaced(store, trigger)
    requires key == AlignTime(triggerTime, parent)
    ensures LiveChildren(store, parent, trigger, triggerTime) == Group(store, parent, key)
       <==> (forall b :: b in store ==> b.time < key + parent)
  {
    if forall b :: b in store ==> b.time < key + parent {
      WindowLosesNothing(store, parent, trigger, key);
      FromTimeIsGroup(store, parent, key);
    } else {
      var i :| 0 <= i < |store| && store[i].time >= key + parent;
      var n := |store| - 1;
      SpacedOrder(store, trigger, i, n);
      LiveKeepsNewest(store, parent, trigger, triggerTime);
      GroupMembers(store, parent, key);
    }
  }

  lemma SpacedOrder(bars: seq<Ohlc>, gap: int, i: nat, j: nat)
    requires gap > 0 && Spaced(bars, gap) && i <= j < |bars|
    ensures bars[i].time <= bars[j].time
  {
    SpacedDistance(bars, gap, i, j);
    assert (j - i) * gap >= 0;
  }

  /** A concrete mix-up: a late hourly trigger at time 0 while the five-minute store already holds a
      bar of the next hour. The live read takes both bars, the index only the first. */
  lemma LiveReadCanMixParents(b: Ohlc, next: Ohlc)
    requires b.time == 0 && next.time == 3600
    ensures LiveChildren([b, next], 3600, 300, 0) != Group([b, next], 3600, 0)
  {
    assert [b, next][1] in [b, next];
    AlignUnique(0, 0, 3600);
    LiveEqualsIndexedGroup([b, next], 3600, 300, 0, 0);
  }

  /** In particular when the store ends at the bar whose close triggered the synthesis: the bar
      that the live path injects is the one that the offline index yields. */
  lemma LiveBarEqualsIndexedBar(store: seq<Ohlc>, parent: int, trigger: int, symbol: string, parentTf: string)
    requires parent > 0 && trigger > 0 && Spaced(store, trigger) && store != []
    ensures var last := store[|store| - 1].time;
      var key := AlignTime(last, parent);
      && Group(store, parent, key) != []
      && SynthesizeParentBar(LiveChildren(store, parent, trigger, last), symbol, parentTf, key)
      == SynthesizeParentBar(Group(store, parent, key), symbol, parentTf, key)
  {
    var n := |store| - 1;
    var key := AlignTime(store[n].time, parent);
    forall i | 0 <= i < |store| ensures store[i].time < key + parent {
      SpacedOrder(store, trigger, i, n);
    }
    LiveEqualsIndexedGroup(store, parent, trigger, store[n].time, key);
    GroupMembers(store, parent, key);
    assert store[n] in Group(store, parent, key);
  }
}

/** The live path end to end: bars written to the trimmed cache, the newest few read back, and the
    parent bar synthesized from them, compared with the full history of the same writes. */
module LiveSynthesis {
  import opened Common
  import BarCache
  import Synthesis

  lemma LastOfLast(s: seq<Ohlc>, keep: nat, n: nat)
    requires n <= keep
    ensures LastN(LastN(s, keep), n) == LastN(s, n)
  {
  }

  /** A tail that is at least as long as the read window gives the live path what the whole list gives. */
  lemma TailReadIsFullRead(
      cache: seq<Ohlc>, history: seq<Ohlc>, keep: nat, parent: int, trigger: int, triggerTime: int)
    requires parent > 0 && trigger > 0 && keep >= Synthesis.ReadWindow(parent, trigger)
    requires cache == LastN(history, keep)
    ensures Synthesis.LiveChildren(cache, parent, trigger, triggerTime)
         == Synthesis.LiveChildren(history, parent, trigger, triggerTime)
  {
    LastOfLast(history, keep, Synthesis.ReadWindow(parent, trigger));
  }

  /** All bars ever written for the key, in time order. */
  function History(ops: seq<BarCache.Op>): seq<Ohlc> { BarCache.Sorted(BarCache.RunUnbounded(ops)) }

  /** A cache that keeps at least the read window gives the live path what the full history would. */
  lemma CacheReadIsHistoryRead(ops: seq<BarCache.Op>, keep: nat, parent: int, trigger: int, triggerTime: int)
    requires parent > 0 && trigger > 0 && keep >= Synthesis.ReadWindow(parent, trigger)
    ensures Synthesis.LiveChildren(BarCache.RunTrimmed(ops, keep), parent, trigger, triggerTime)
         == Synthesis.LiveChildren(History(ops), parent, trigger, triggerTime)
  {
    BarCache.TrimmedIsNewestOfUnbounded(ops, keep);
    TailReadIsFullRead(BarCache.RunTrimmed(ops, keep), History(ops), keep, parent, trigger, triggerTime);
  }

  /** Every bar that was written opens at a multiple of the trigger timeframe. */
  ghost predicate AlignedWrites(ops: seq<BarCache.Op>, trigger: int)
    requires trigger > 0
  {
    forall i :: 0 <= i < |ops| && ops[i].Write? ==>
      forall j :: 0 <= j < |ops[i].bars| ==> ops[i].bars[j].time % trigger == 0
  }

  ghost predicate SomeBarWritten(ops: seq<BarCache.Op>) {
    exists i :: 0 <= i < |ops| && ops[i].Write? && ops[i].bars != []
  }

  lemma HistoryHoldsWrites(ops: seq<BarCache.Op>, b: Ohlc)
    requires b in History(ops)
    ensures BarCache.Writes(ops, b.time)
  {
    BarCache.RunWellKeyed(ops);
    BarCache.SortedMembers(BarCache.RunUnbounded(ops));
    BarCache.HeldIffWritten(ops, b.time);
  }

  lemma HistoryIsAligned(ops: seq<BarCache.Op>, trigger: int, b: Ohlc)
    requires trigger > 0 && AlignedWrites(ops, trigger) && b in History(ops)
    ensures b.time % trigger == 0
  {
    HistoryHoldsWrites(ops, b);
  }

  /** The history of aligned writes is spaced: a map keyed by time has no two bars at one time. */
  lemma HistoryIsSpaced(ops: seq<BarCache.Op>, trigger: int)
    requires trigger > 0 && AlignedWrites(ops, trigger)
    ensures Synthesis.Spaced(History(ops), trigger)
  {
    var history := History(ops);
    BarCache.RunWellKeyed(ops);
    BarCache.SortedAscends(BarCache.RunUnbounded(ops));
    forall i | 0 <= i < |history| ensures history[i].time % trigger == 0 {
      HistoryIsAligned(ops, trigger, history[i]);
    }
    Synthesis.AlignedIsSpaced(history, trigger);
  }

  lemma HistoryIsNotEmpty(ops: seq<BarCache.Op>)
    requires SomeBarWritten(ops)
    ensures History(ops) != []
  {
    var i :| 0 <= i < |ops| && ops[i].Write? && ops[i].bars != [];
    var t := ops[i].bars[0].time;
    assert BarCache.Mentions(ops[i].bars, t);
    BarCache.HeldIffWritten(ops, t);
    assert BarCache.RunUnbounded(ops) != map[];
  }

  /** After any aligned writes and any indicator updates, the parent bar that the live path builds from
      its cache at the newest close is the bar that an offline index over the full history yields. */
  lemma LiveBarEqualsOfflineBar(
      ops: seq<BarCache.Op>, keep: nat, parent: int, trigger: int, symbol: string, parentTf: string)
    requires parent > 0 && trigger > 0 && keep >= Synthesis.ReadWindow(parent, trigger)
    requires AlignedWrites(ops, trigger) && SomeBarWritten(ops)
    ensures var history := History(ops);
      && history != []
      && var last := history[|history| - 1].time;
         var key := Synthesis.AlignTime(last, parent);
         var live := Synthesis.LiveChildren(BarCache.RunTrimmed(ops, keep), parent, trigger, last);
         && Synthesis.Group(history, parent, key) != []
         && Synthesis.SynthesizeParentBar(live, symbol, parentTf, key)
         == Synthesis.SynthesizeParentBar(Synthesis.Group(history, parent, key), symbol, parentTf, key)
  {
    var history := History(ops);
    HistoryIsNotEmpty(ops);
    HistoryIsSpaced(ops, trigger);
    CacheReadIsHistoryRead(ops, keep, parent, trigger, history[|history| - 1].time);
    Synthesis.LiveBarEqualsIndexedBar(history, parent, trigger, symbol, parentTf);
  }
}

/** Ticks to candles: over any run of ticks and REST polls, the bars closed so far followed by the
    forming bar are the resample of every tick received. */
module FeedBars {
  import opened Common
  import opened DataFeed
  import opened FeedHistory

  // ------------------------------------------------------------- the plain resample

  /** The ticks that belong to bar b, when tick i belongs to stamps[i]. */
  function InBar(ticks: seq<Tick>, stamps: seq<nat>, b: nat): seq<Tick>
    requires |ticks| == |stamps|
  {
    if ticks == [] then []
    else
      var n := |ticks| - 1;
      InBar(ticks[..n], stamps[..n], b) + if stamps[n] == b then [ticks[n]] else []
  }

  /** Volume traded since the bar opened, by the last tick that says. */
  function Traded(ticks: seq<Tick>): real {
    if ticks == [] then 0.0
    else
      var last := ticks[|ticks| - 1].vtt;
      if last.Some? && last.value >= StartVolume(ticks) then last.value - StartVolume(ticks)
      else Traded(ticks[..|ticks| - 1])
  }

  function StartVolume(ticks: seq<Tick>): real
    requires ticks != []
  {
    if ticks[0].vtt.Some? then ticks[0].vtt.value else 0.0
  }

  /** First, max, min and last of the ticks. */
  predicate IsBar(c: Candle, ticks: seq<Tick>) {
    && ticks != []
    && c.open == ticks[0].price
    && c.close == ticks[|ticks| - 1].price
    && (forall i :: 0 <= i < |ticks| ==> c.low <= ticks[i].price <= c.high)
    && (exists i :: 0 <= i < |ticks| && ticks[i].price == c.high)
    && (exists i :: 0 <= i < |ticks| && ticks[i].price == c.low)
    && c.volume == Traded(ticks)
  }

  /** One bar for each stamp that occurs, oldest first, each made of its own ticks. */
  predicate Resamples(bars: seq<Candle>, ticks: seq<Tick>, stamps: seq<nat>)
    requires |ticks| == |stamps|
  {
    && Ascending(bars)
    && (forall i :: 0 <= i < |stamps| ==> HasTime(bars, stamps[i]))
    && (forall k :: 0 <= k < |bars| ==> IsBar(bars[k], InBar(ticks, stamps, bars[k].ts)))
  }

  /** A tick stream has only one resample. */
  lemma ResampleIsUnique(a: seq<Candle>, b: seq<Candle>, ticks: seq<Tick>, stamps: seq<nat>)
    requires |ticks| == |stamps| && Resamples(a, ticks, stamps) && Resamples(b, ticks, stamps)
    ensures a == b
  {
    forall r ensures r in a <==> r in b {
      if r in a { RowInOther(a, b, ticks, stamps, r); }
      if r in b { RowInOther(b, a, ticks, stamps, r); }
    }
    hide Resamples, IsBar;
    AscendingBars(a, ticks, stamps);
    AscendingBars(b, ticks, stamps);
    SameRows(a, b);
  }

  lemma AscendingBars(a: seq<Candle>, ticks: seq<Tick>, stamps: seq<nat>)
    requires |ticks| == |stamps| && Resamples(a, ticks, stamps)
    ensures Ascending(a)
  {
  }

  lemma RowInOther(a: seq<Candle>, b: seq<Candle>, ticks: seq<Tick>, stamps: seq<nat>, r: Candle)
    requires |ticks| == |stamps| && Resamples(a, ticks, stamps) && Resamples(b, ticks, stamps) && r in a
    ensures r in b
  {
    hide Ascending;
    var mine := InBar(ticks, stamps, r.ts);
    assert IsBar(r, mine);
    InBarIsStamped(ticks, stamps, r.ts);
    assert r.ts in stamps;
    var i :| 0 <= i < |stamps| && stamps[i] == r.ts;
    assert HasTime(b, stamps[i]);
    var k :| 0 <= k < |b| && b[k].ts == r.ts;
    SameBar(r, b[k], mine);
  }

  lemma SameBar(c: Candle, d: Candle, ticks: seq<Tick>)
    requires IsBar(c, ticks) && IsBar(d, ticks) && c.ts == d.ts
    ensures c == d
  {
    hide Traded;
  }

  lemma {:induction false} InBarIsStamped(ticks: seq<Tick>, stamps: seq<nat>, b: nat)
    requires |ticks| == |stamps|
    ensures InBar(ticks, stamps, b) != [] <==> b in stamps
  {
    if ticks != [] {
      var n := |ticks| - 1;
      InBarIsStamped(ticks[..n], stamps[..n], b);
      assert stamps == stamps[..n] + [stamps[n]];
    }
  }

  // ------------------------------------------------------------- runs of the feed

  function TicksOf(es: seq<Event>): seq<Tick> {
    if es == [] then []
    else
      var e := es[|es| - 1];
      TicksOf(es[..|es| - 1]) + if e.OnTick? then [e.tick] else []
  }

  function Buckets(ticks: seq<Tick>, m: Mode): (s: seq<nat>)
    ensures |s| == |ticks|
  {
    if ticks == [] then [] else Buckets(ticks[..|ticks| - 1], m) + [Bucket(ticks[|ticks| - 1].ts, m)]
  }

  /** The bar each tick goes into: its own bucket, or the forming one when it arrives late. */
  function Stamps(ticks: seq<Tick>, m: Mode): (s: seq<nat>)
    ensures |s| == |ticks|
  {
    if ticks == [] then []
    else
      var s := Stamps(ticks[..|ticks| - 1], m);
      var b := Bucket(ticks[|ticks| - 1].ts, m);
      s + [if s != [] && b < s[|s| - 1] then s[|s| - 1] else b]
  }

  predicate NonDecreasing(s: seq<nat>) { forall i, j :: 0 <= i < j < |s| ==> s[i] <= s[j] }

  function Run(l: Live, es: seq<Event>, m: Mode): Live {
    if es == [] then l else Next(Run(l, es[..|es| - 1], m), es[|es| - 1], m)
  }

  /** The bars closed over a run. */
  function ClosedBy(l: Live, es: seq<Event>, m: Mode): seq<Candle> {
    if es == [] then [] else ClosedBy(l, es[..|es| - 1], m) + Closed(Run(l, es[..|es| - 1], m), es[|es| - 1], m)
  }

  /** Every row written to the history over a run, in order. */
  function DeliveredBy(l: Live, es: seq<Event>, m: Mode): seq<Candle> {
    if es == [] then [] else DeliveredBy(l, es[..|es| - 1], m) + Delivered(Run(l, es[..|es| - 1], m), es[|es| - 1], m)
  }

  function Bars(l: Live, es: seq<Event>, m: Mode): seq<Candle> {
    ClosedBy(l, es, m) + if Run(l, es, m).forming.Some? then [Run(l, es, m).forming.value.bar] else []
  }

  /** The forming bar is the last stamp's, and remembers the volume its first tick reported. */
  predicate Building(f: Option<Forming>, ticks: seq<Tick>, stamps: seq<nat>)
    requires |ticks| == |stamps|
  {
    && (f.None? <==> ticks == [])
    && (f.Some? ==>
          var mine := InBar(ticks, stamps, f.value.bar.ts);
          && f.value.bar.ts == stamps[|stamps| - 1]
          && IsBar(f.value.bar, mine)
          && f.value.vttStart == StartVolume(mine))
  }

  /** Any tick stream, late ticks included, interleaved with any REST polls. */
  lemma {:induction false} AggregatesByStamp(l: Live, es: seq<Event>, m: Mode)
    requires l.forming.None?
    ensures var ticks := TicksOf(es);
            && Resamples(Bars(l, es, m), ticks, Stamps(ticks, m))
            && Building(Run(l, es, m).forming, ticks, Stamps(ticks, m))
    decreases |es|
  {
    if es != [] {
      AggregatesByStamp(l, es[..|es| - 1], m);
      if es[|es| - 1].OnTick? { TickKeeps(l, es, m); } else { RestKeeps(l, es, m); }
    } else {
      hide IsBar, InBar, Bucket;
    }
  }

  lemma TickKeeps(l: Live, es: seq<Event>, m: Mode)
    requires es != [] && es[|es| - 1].OnTick?
    requires var init := es[..|es| - 1];
             var ticks := TicksOf(init);
             Resamples(Bars(l, init, m), ticks, Stamps(ticks, m))
                 && Building(Run(l, init, m).forming, ticks, Stamps(ticks, m))
    ensures var ticks := TicksOf(es);
            Resamples(Bars(l, es, m), ticks, Stamps(ticks, m))
                && Building(Run(l, es, m).forming, ticks, Stamps(ticks, m))
  {
    var n := |es| - 1;
    var init, t := es[..n], es[n].tick;
    var ticks := TicksOf(init);
    assert TicksOf(es) == ticks + [t];
    hide TicksOf, Resamples, Building, Stamps, Run, ClosedBy, Bars, Bucket, Closed, NextForming;
    StampsSnoc(ticks, t, m);
    BarsStep(l, es, m);
    TickStep(ClosedBy(l, init, m), Run(l, init, m), ticks, Stamps(ticks, m), t, m);
  }

  lemma RestKeeps(l: Live, es: seq<Event>, m: Mode)
    requires es != [] && es[|es| - 1].OnRest?
    ensures TicksOf(es) == TicksOf(es[..|es| - 1])
    ensures Bars(l, es, m) == Bars(l, es[..|es| - 1], m)
    ensures Run(l, es, m).forming == Run(l, es[..|es| - 1], m).forming
  {
    hide Merge, Delivered;
  }

  lemma BarsStep(l: Live, es: seq<Event>, m: Mode)
    requires es != [] && es[|es| - 1].OnTick?
    ensures var n := |es| - 1;
            var was := Run(l, es[..n], m);
            && Run(l, es, m) == Next(was, es[n], m)
            && Bars(l, es, m)
               == ClosedBy(l, es[..n], m) + Closed(was, es[n], m) + [NextForming(was.forming, es[n].tick, m).bar]
            && Bars(l, es[..n], m)
               == ClosedBy(l, es[..n], m) + if was.forming.Some? then [was.forming.value.bar] else []
  {
    hide NextForming, Merge, Delivered, Closed;
  }

  lemma StampsSnoc(ticks: seq<Tick>, t: Tick, m: Mode)
    ensures var s := Stamps(ticks, m);
            var b := Bucket(t.ts, m);
            Stamps(ticks + [t], m) == s + [if s != [] && b < s[|s| - 1] then s[|s| - 1] else b]
  {
    assert (ticks + [t])[..|ticks|] == ticks;
  }

  /** One tick: the forming bar grows by it, or closes and a new one opens with it alone. */
  lemma TickStep(closed: seq<Candle>, was: Live, ticks: seq<Tick>, stamps: seq<nat>, t: Tick, m: Mode)
    requires |ticks| == |stamps|
    requires Building(was.forming, ticks, stamps)
    requires Resamples(closed + if was.forming.Some? then [was.forming.value.bar] else [], ticks, stamps)
    ensures var b := Bucket(t.ts, m);
            var stamps' := stamps + [if stamps != [] && b < stamps[|stamps| - 1] then stamps[|stamps| - 1] else b];
            var f := NextForming(was.forming, t, m);
            && Resamples(closed + Closed(was, OnTick(t), m) + [f.bar], ticks + [t], stamps')
            && Building(Some(f), ticks + [t], stamps')
  {
    hide Bucket, Traded;
    var b := Bucket(t.ts, m);
    var f := NextForming(was.forming, t, m);
    if was.forming.None? {
      assert ticks == [] && stamps == [] && closed + [] == closed;
      NothingStamped(closed);
      OpenStep([], ticks, stamps, t, m);
      assert closed + Closed(was, OnTick(t), m) + [f.bar] == [] + [f.bar];
    } else {
      var g := was.forming.value;
      if b > g.bar.ts {
        var old_ := closed + [g.bar];
        assert old_[|old_| - 1] == g.bar;
        OpenStep(old_, ticks, stamps, t, m);
      } else {
        assert closed + [] == closed;
        WidenStep(closed, g, ticks, stamps, t);
      }
    }
  }

  lemma NothingStamped(bars: seq<Candle>)
    requires Resamples(bars, [], [])
    ensures bars == []
  {
    assert |bars| > 0 ==> IsBar(bars[0], InBar([], [], bars[0].ts));
  }

  lemma InBarSnoc(ticks: seq<Tick>, stamps: seq<nat>, t: Tick, s: nat, b: nat)
    requires |ticks| == |stamps|
    ensures InBar(ticks + [t], stamps + [s], b) == InBar(ticks, stamps, b) + if s == b then [t] else []
  {
    assert (ticks + [t])[..|ticks|] == ticks && (stamps + [s])[..|stamps|] == stamps;
  }

  lemma OpenStep(bars: seq<Candle>, ticks: seq<Tick>, stamps: seq<nat>, t: Tick, m: Mode)
    requires |ticks| == |stamps| && Resamples(bars, ticks, stamps)
    requires bars != [] ==> Bucket(t.ts, m) > bars[|bars| - 1].ts
    ensures var b := Bucket(t.ts, m);
            var f := WithVolume(OpenBar(b, t), t.vtt);
            Resamples(bars + [f.bar], ticks + [t], stamps + [b]) && Building(Some(f), ticks + [t], stamps + [b])
  {
    hide Bucket;
    var b := Bucket(t.ts, m);
    var f := WithVolume(OpenBar(b, t), t.vtt);
    var bars', stamps', ticks' := bars + [f.bar], stamps + [b], ticks + [t];
    NewStamp(bars, ticks, stamps, b);
    InBarIsStamped(ticks, stamps, b);
    forall c: nat ensures InBar(ticks', stamps', c) == InBar(ticks, stamps, c) + if b == c then [t] else [] {
      InBarSnoc(ticks, stamps, t, b, c);
    }
    hide InBar;
    FirstBar(b, t);
    hide IsBar, OpenBar, WithVolume, StartVolume, Resamples;
    assert InBar(ticks', stamps', b) == [t];
    assert bars'[|bars|].ts == b;
    assert HasTime(bars', b);
    AscendSnoc(bars, f.bar);
    hide Ascending, HasTime;
    forall k | 0 <= k < |bars'| ensures IsBar(bars'[k], InBar(ticks', stamps', bars'[k].ts)) {
      if k < |bars| {
        assert bars'[k] == bars[k] && bars[k].ts != b;
        assert InBar(ticks, stamps, bars[k].ts) + [] == InBar(ticks, stamps, bars[k].ts);
      }
    }
    TimesKept(bars, bars', stamps, b);
    MakeResample(bars', ticks', stamps');
  }

  lemma AscendSnoc(bars: seq<Candle>, c: Candle)
    requires Ascending(bars) && forall k :: 0 <= k < |bars| ==> bars[k].ts < c.ts
    ensures Ascending(bars + [c])
  {
  }

  lemma MakeResample(bars: seq<Candle>, ticks: seq<Tick>, stamps: seq<nat>)
    requires |ticks| == |stamps| && Ascending(bars)
    requires forall i :: 0 <= i < |stamps| ==> HasTime(bars, stamps[i])
    requires forall k :: 0 <= k < |bars| ==> IsBar(bars[k], InBar(ticks, stamps, bars[k].ts))
    ensures Resamples(bars, ticks, stamps)
  {
  }

  lemma NewStamp(bars: seq<Candle>, ticks: seq<Tick>, stamps: seq<nat>, b: nat)
    requires |ticks| == |stamps| && Resamples(bars, ticks, stamps)
    requires bars != [] ==> b > bars[|bars| - 1].ts
    ensures b !in stamps && Ascending(bars) && (forall k :: 0 <= k < |bars| ==> bars[k].ts < b)
    ensures forall i :: 0 <= i < |stamps| ==> HasTime(bars, stamps[i])
    ensures forall k :: 0 <= k < |bars| ==> IsBar(bars[k], InBar(ticks, stamps, bars[k].ts))
  {
    hide IsBar, InBar;
    forall i | 0 <= i < |stamps| ensures stamps[i] < b { assert HasTime(bars, stamps[i]); }
  }

  /** A bar's first tick is all of it. */
  lemma FirstBar(b: nat, t: Tick)
    ensures var f := WithVolume(OpenBar(b, t), t.vtt);
            f.bar.ts == b && IsBar(f.bar, [t]) && f.vttStart == StartVolume([t])
  {
  }

  lemma TimesKept(bars: seq<Candle>, bars': seq<Candle>, stamps: seq<nat>, b: nat)
    requires |bars'| >= |bars| && forall k :: 0 <= k < |bars| ==> bars'[k].ts == bars[k].ts
    requires forall i :: 0 <= i < |stamps| ==> HasTime(bars, stamps[i])
    requires HasTime(bars', b)
    ensures forall i :: 0 <= i < |stamps + [b]| ==> HasTime(bars', (stamps + [b])[i])
  {
  }

  lemma WidenStep(closed: seq<Candle>, g: Forming, ticks: seq<Tick>, stamps: seq<nat>, t: Tick)
    requires |ticks| == |stamps| && Building(Some(g), ticks, stamps) && Resamples(closed + [g.bar], ticks, stamps)
    ensures var f := WithVolume(Widen(g, t.price), t.vtt);
            Resamples(closed + [f.bar], ticks + [t], stamps + [g.bar.ts])
                && Building(Some(f), ticks + [t], stamps + [g.bar.ts])
  {
    var b := g.bar.ts;
    var f := WithVolume(Widen(g, t.price), t.vtt);
    var bars, bars', stamps', ticks' := closed + [g.bar], closed + [f.bar], stamps + [b], ticks + [t];
    var mine := InBar(ticks, stamps, b);
    forall c: nat ensures InBar(ticks', stamps', c) == InBar(ticks, stamps, c) + if b == c then [t] else [] {
      InBarSnoc(ticks, stamps, t, b, c);
    }
    hide InBar;
    WidenBar(g, mine, t);
    assert bars'[|closed|] == f.bar && bars[|closed|] == g.bar;
    forall k | 0 <= k < |bars'| ensures IsBar(bars'[k], InBar(ticks', stamps', bars'[k].ts)) {
      hide IsBar;
      if k < |closed| {
        assert bars'[k] == bars[k] && bars[k].ts != b;
        assert InBar(ticks, stamps, bars[k].ts) + [] == InBar(ticks, stamps, bars[k].ts);
      }
    }
    TimesKept(bars, bars', stamps, b);
  }

  lemma WidenBar(g: Forming, mine: seq<Tick>, t: Tick)
    requires IsBar(g.bar, mine) && g.vttStart == StartVolume(mine)
    ensures var f := WithVolume(Widen(g, t.price), t.vtt);
            f.bar.ts == g.bar.ts && IsBar(f.bar, mine + [t]) && f.vttStart == StartVolume(mine + [t])
  {
    var f := WithVolume(Widen(g, t.price), t.vtt);
    var all, n := mine + [t], |mine|;
    assert all[..n] == mine && all[n] == t && all[0] == mine[0];
    assert f.bar.volume == Traded(all);
    hide Traded;
    var i :| 0 <= i < n && mine[i].price == g.bar.high;
    var j :| 0 <= j < n && mine[j].price == g.bar.low;
    assert all[i].price == g.bar.high && all[j].price == g.bar.low;
  }
}

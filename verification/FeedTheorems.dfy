/** What the live feed promises: bars that are the resample of the ticks, a REST poll that corrects
    the history only, a history that is one merge of everything written to it. */
module FeedTheorems {
  import opened Common
  import opened DataFeed
  import opened FeedHistory
  import opened FeedBars

  /** Daily, 15-minute and 1-minute buckets are the plain floor to the timeframe. */
  lemma BucketIsFloor(ts: nat, m: Mode)
    ensures Bucket(ts, m) == ts - ts % (TfMinutes(m) * MINUTE)
    ensures Bucket(ts, m) <= ts < Bucket(ts, m) + TfMinutes(m) * MINUTE
    ensures TfMinutes(m) * MINUTE == match m
                                     case Scalper => 60_000_000_000
                                     case Intraday => 900_000_000_000
                                     case Swing => 86_400_000_000_000
  {
    if !m.Swing? {
      var width := TfMinutes(m) * MINUTE;
      var h, r := ts / HOUR, ts % HOUR;
      var minute := r / MINUTE;
      var k := minute / TfMinutes(m);
      var rest := r - k * width;
      assert 0 <= rest < width;
      var perHour := 60 / TfMinutes(m);
      assert ts == (h * perHour + k) * width + rest by {
        assert perHour * width == HOUR;
      }
      FloorIs(ts, h * perHour + k, width, rest);
    }
  }

  lemma FloorIs(ts: nat, q: nat, width: nat, rest: nat)
    requires rest < width && ts == q * width + rest
    ensures ts % width == rest
  {
    var k := ts / width;
    var d: int := q - k;
    Multiple(d, width);
    assert d * width == ts % width - rest;
  }

  lemma Multiple(d: int, width: nat)
    ensures d >= 1 ==> d * width >= width
    ensures d <= -1 ==> d * width + width <= 0
  {
  }

  lemma OrderedSnoc(s: seq<nat>, x: nat)
    ensures NonDecreasing(s + [x]) <==> NonDecreasing(s) && (s == [] || s[|s| - 1] <= x)
  {
    var t := s + [x];
    assert forall i :: 0 <= i < |s| ==> t[i] == s[i];
    assert t[|s|] == x;
    if NonDecreasing(t) {
      assert forall i, j :: 0 <= i < j < |s| ==> t[i] <= t[j];
      assert s != [] ==> t[|s| - 1] <= t[|s|];
    }
  }

  lemma {:induction false} StampsAtLeast(ticks: seq<Tick>, m: Mode)
    ensures var s, b := Stamps(ticks, m), Buckets(ticks, m);
            && NonDecreasing(s)
            && (forall i :: 0 <= i < |ticks| ==> b[i] <= s[i])
            && (NonDecreasing(b) <==> s == b)
  {
    if ticks != [] {
      hide Bucket, NonDecreasing, Stamps, Buckets;
      var init, t := ticks[..|ticks| - 1], ticks[|ticks| - 1];
      assert ticks == init + [t];
      StampsAtLeast(init, m);
      StampsSnoc(init, t, m);
      BucketsSnoc(init, t, m);
      var s, b := Stamps(init, m), Buckets(init, m);
      var x, y := Stamps(ticks, m)[|init|], Buckets(ticks, m)[|init|];
      OrderedSnoc(s, x);
      OrderedSnoc(b, y);
      assert s + [x] == b + [y] <==> s == b && x == y;
    }
  }

  /** Tick aggregation is resampling: for ticks whose buckets never go back, over any run with REST
      polls in between, the closed bars and the forming bar are the one resample of the ticks. */
  lemma RefinesResample(l: Live, es: seq<Event>, m: Mode)
    requires l.forming.None? && NonDecreasing(Buckets(TicksOf(es), m))
    ensures Resamples(Bars(l, es, m), TicksOf(es), Buckets(TicksOf(es), m))
  {
    AggregatesByStamp(l, es, m);
    StampsAtLeast(TicksOf(es), m);
  }

  /** Exactly one kind of tick breaks that: one whose bucket is older than the forming bar's. A
      caller can tell before the call. */
  lemma TickFiledExactly(l: Live, es: seq<Event>, t: Tick, m: Mode)
    requires l.forming.None? && NonDecreasing(Buckets(TicksOf(es), m))
    ensures var now := Run(l, es, m).forming;
            (now.None? || Bucket(t.ts, m) >= now.value.bar.ts) <==>
            forall p: real :: FiledRight(l, es + [OnTick(t.(price := p))], m)
  {
    var ticks := TicksOf(es);
    var now := Run(l, es, m).forming;
    AggregatesByStamp(l, es, m);
    StampsAtLeast(ticks, m);
    if now.None? || Bucket(t.ts, m) >= now.value.bar.ts {
      forall p: real ensures FiledRight(l, es + [OnTick(t.(price := p))], m) {
        var t' := t.(price := p);
        InTimeStaysOrdered(ticks, t', m);
        TicksSnoc(es, t');
        RefinesResample(l, es + [OnTick(t')], m);
      }
    } else {
      LateTickMisfiled(l, es, t.(price := now.value.bar.high + 1.0), m);
    }
  }

  predicate FiledRight(l: Live, es: seq<Event>, m: Mode) {
    Resamples(Bars(l, es, m), TicksOf(es), Buckets(TicksOf(es), m))
  }

  lemma TicksSnoc(es: seq<Event>, t: Tick)
    ensures TicksOf(es + [OnTick(t)]) == TicksOf(es) + [t]
  {
    assert (es + [OnTick(t)])[..|es|] == es;
  }

  lemma InTimeStaysOrdered(ticks: seq<Tick>, t: Tick, m: Mode)
    requires NonDecreasing(Buckets(ticks, m))
    requires ticks != [] ==> Bucket(t.ts, m) >= Buckets(ticks, m)[|ticks| - 1]
    ensures NonDecreasing(Buckets(ticks + [t], m))
  {
    assert (ticks + [t])[..|ticks|] == ticks;
  }

  /** A late tick above the forming bar's high becomes its high, though no tick of its bucket was
      ever there. */
  lemma LateTickMisfiled(l: Live, es: seq<Event>, t: Tick, m: Mode)
    requires l.forming.None? && NonDecreasing(Buckets(TicksOf(es), m))
    requires var now := Run(l, es, m).forming;
             now.Some? && Bucket(t.ts, m) < now.value.bar.ts && t.price > now.value.bar.high
    ensures !FiledRight(l, es + [OnTick(t)], m)
  {
    var ticks := TicksOf(es);
    var es' := es + [OnTick(t)];
    var g := Run(l, es, m).forming.value;
    var b := Buckets(ticks, m);
    var f := WithVolume(Widen(g, t.price), t.vtt).bar;
    LateBar(l, es, t, m);
    FormingIsBar(l, es, m);
    TicksSnoc(es, t);
    hide Traded, InBar, Bars, Run, TicksOf, Stamps, IsBar, Resamples, NonDecreasing, ClosedBy, Buckets, Bucket;
    InBarSnoc(ticks, b, t, Bucket(t.ts, m), g.bar.ts);
    BucketsSnoc(ticks, t, m);
    var mine := InBar(ticks, b, g.bar.ts);
    assert mine + [] == mine;
    NotBoth(g.bar, f, mine);
    NotResampled(Bars(l, es', m), f, ticks + [t], Buckets(ticks + [t], m));
  }

  lemma FormingIsBar(l: Live, es: seq<Event>, m: Mode)
    requires l.forming.None? && NonDecreasing(Buckets(TicksOf(es), m)) && Run(l, es, m).forming.Some?
    ensures var g := Run(l, es, m).forming.value;
            IsBar(g.bar, InBar(TicksOf(es), Buckets(TicksOf(es), m), g.bar.ts))
  {
    AggregatesByStamp(l, es, m);
    StampsAtLeast(TicksOf(es), m);
    hide Stamps, Buckets, TicksOf, Run, Bars, IsBar, InBar, Resamples;
  }

  lemma BucketsSnoc(ticks: seq<Tick>, t: Tick, m: Mode)
    ensures Buckets(ticks + [t], m) == Buckets(ticks, m) + [Bucket(t.ts, m)]
  {
    assert (ticks + [t])[..|ticks|] == ticks;
  }

  /** A late tick widens the forming bar. */
  lemma LateBar(l: Live, es: seq<Event>, t: Tick, m: Mode)
    requires var now := Run(l, es, m).forming;
             now.Some? && Bucket(t.ts, m) < now.value.bar.ts
    ensures var g := Run(l, es, m).forming.value;
            Bars(l, es + [OnTick(t)], m) == ClosedBy(l, es, m) + [WithVolume(Widen(g, t.price), t.vtt).bar]
  {
  }

  lemma NotResampled(bars: seq<Candle>, f: Candle, ticks: seq<Tick>, stamps: seq<nat>)
    requires |ticks| == |stamps| && f in bars && !IsBar(f, InBar(ticks, stamps, f.ts))
    ensures !Resamples(bars, ticks, stamps)
  {
  }

  lemma NotBoth(c: Candle, d: Candle, ticks: seq<Tick>)
    requires IsBar(c, ticks) && c.high < d.high
    ensures !IsBar(d, ticks)
  {
    hide Traded;
  }

  /** REST rows never touch the forming bar, nor any time from its own on. */
  lemma RestCorrectsHistoryOnly(l: Live, rows: seq<Candle>, m: Mode)
    ensures Next(l, OnRest(rows), m).forming == l.forming
    ensures l.forming.Some? ==>
              forall r :: r in Delivered(l, OnRest(rows), m) <==> r in rows && r.ts < l.forming.value.bar.ts
  {
    if l.forming.Some? { BeforeMeaning(rows, l.forming.value.bar.ts); }
  }

  lemma {:induction false} BeforeMeaning(rows: seq<Candle>, ts: nat)
    ensures forall r :: r in Before(rows, ts) <==> r in rows && r.ts < ts
  {
    if rows != [] {
      BeforeMeaning(rows[1..], ts);
      assert rows == [rows[0]] + rows[1..];
    }
  }

  lemma MergeNothing(h: seq<Candle>)
    requires Ascending(h) && |h| <= KEPT
    ensures Merge(h, []) == h
  {
    MergeIsPuts(h, []);
  }

  /** However the run mixed ticks, closes and polls, its history is one merge of every row it ever
      wrote: batches and forgetting in between lose nothing. */
  lemma {:induction false} HistoryIsOneMerge(l: Live, es: seq<Event>, m: Mode)
    requires Ascending(l.seed) && |l.seed| <= KEPT
    ensures Run(l, es, m).seed == Merge(l.seed, DeliveredBy(l, es, m))
    decreases |es|
  {
    hide Merge, Delivered;
    if es == [] {
      MergeNothing(l.seed);
    } else {
      var init, e := es[..|es| - 1], es[|es| - 1];
      HistoryIsOneMerge(l, init, m);
      var was, now := DeliveredBy(l, init, m), Delivered(Run(l, init, m), e, m);
      MergeTwice(l.seed, was, now);
      assert was + [] == was;
    }
  }

  /** So the history is ascending, at most 600 rows, each the last row written for its time; and a
      row missing from it was overwritten or is older than 600 others. */
  lemma HistoryOfRun(l: Live, es: seq<Event>, m: Mode)
    requires Ascending(l.seed) && |l.seed| <= KEPT
    ensures var h, all := Run(l, es, m).seed, l.seed + DeliveredBy(l, es, m);
            && Ascending(h) && |h| <= 600
            && (forall r :: r in h ==> IsLast(all, r))
            && (forall r :: IsLast(all, r) && r !in h ==> |h| == 600 && r.ts < h[0].ts)
  {
    HistoryIsOneMerge(l, es, m);
    MergeMeaning(l.seed, DeliveredBy(l, es, m));
  }

  /** A bar that closes on a tick is the history's row for its time, unless 600 rows are newer. */
  lemma ClosedBarLands(l: Live, t: Tick, m: Mode)
    requires Ascending(l.seed) && |l.seed| <= KEPT
    requires l.forming.Some? && Bucket(t.ts, m) > l.forming.value.bar.ts
    ensures var h, bar := Next(l, OnTick(t), m).seed, l.forming.value.bar;
            bar in h || (|h| == 600 && bar.ts < h[0].ts)
  {
    var bar := l.forming.value.bar;
    MergeMeaning(l.seed, [bar]);
    assert (l.seed + [bar])[|l.seed|] == bar;
    assert IsLast(l.seed + [bar], bar);
  }

  /** What a reader gets: the history with the forming bar written over it, newest rows only. */
  lemma CandlesAreNewest(l: Live, lookback: nat)
    requires Ascending(l.seed)
    ensures Ascending(Candles(l, lookback)) && |Candles(l, lookback)| <= lookback
    ensures l.forming.Some? ==> Candles(l, lookback) == Newest(Put(l.seed, l.forming.value.bar), lookback)
    ensures forall r :: r in Candles(l, lookback) ==> Shown(l, r)
    ensures forall r :: Shown(l, r) && r !in Candles(l, lookback) ==>
              |Candles(l, lookback)| == lookback && forall x :: x in Candles(l, lookback) ==> r.ts < x.ts
  {
    var all := AllCandles(l);
    AllAreShown(l);
    hide AllCandles, Shown, Put, Newest;
    NewestAreLast(all, lookback);
  }

  /** A row of the history of another time than the forming bar's, or the forming bar itself. */
  predicate Shown(l: Live, r: Candle) {
    match l.forming
    case None => r in l.seed
    case Some(f) => r == f.bar || (r in l.seed && r.ts != f.bar.ts)
  }

  function AllCandles(l: Live): seq<Candle> {
    if l.forming.None? then l.seed
    else SortIndex(Without(l.seed, l.forming.value.bar.ts) + [l.forming.value.bar])
  }

  lemma OlderThanTail(h: seq<Candle>, k: nat, x: Candle, y: Candle)
    requires Ascending(h) && k <= |h| && x in h && x !in h[k..] && y in h[k..]
    ensures x.ts < y.ts
  {
    var i :| 0 <= i < |h| && h[i] == x;
    var j :| 0 <= j < |h[k..]| && h[k..][j] == y;
    assert forall q :: k <= q < |h| ==> h[k..][q - k] == h[q];
    assert h[j + k] == y;
  }

  lemma NewestAreLast(h: seq<Candle>, n: nat)
    requires Ascending(h)
    ensures var r := Newest(h, n);
            && Ascending(r) && (forall x :: x in r ==> x in h)
            && (forall x :: x in h && x !in r ==> |r| == n && forall y :: y in r ==> x.ts < y.ts)
  {
    if |h| > n {
      var k := |h| - n;
      forall x, y | x in h && x !in h[k..] && y in h[k..] ensures x.ts < y.ts { OlderThanTail(h, k, x, y); }
    }
  }

  lemma AllAreShown(l: Live)
    requires Ascending(l.seed)
    ensures Ascending(AllCandles(l)) && forall r :: r in AllCandles(l) <==> Shown(l, r)
    ensures l.forming.Some? ==> AllCandles(l) == Put(l.seed, l.forming.value.bar)
  {
    if l.forming.Some? {
      var bar := l.forming.value.bar;
      var kept := Without(l.seed, bar.ts);
      WithoutMeaning(l.seed, bar.ts);
      assert !HasTime(kept, bar.ts) by { assert forall i :: 0 <= i < |kept| ==> kept[i] in kept; }
      SortMeaning(kept + [bar]);
      PutMeaning(l.seed, bar);
      hide Put, Without, SortIndex, HasTime;
      SameRows(SortIndex(kept + [bar]), Put(l.seed, bar));
    }
  }

  lemma {:induction false} WithoutMeaning(h: seq<Candle>, ts: nat)
    requires Ascending(h)
    ensures Ascending(Without(h, ts))
    ensures forall r :: r in Without(h, ts) <==> r in h && r.ts != ts
  {
    if h != [] {
      Uncons(h);
      WithoutMeaning(h[1..], ts);
      var rest := Without(h[1..], ts);
      assert rest != [] ==> rest[0] in rest;
      hide Ascending;
      if h[0].ts != ts { Cons(h[0], rest); }
    }
  }

  /** With the day's volume on every tick and never falling, a bar's volume is what was traded
      between its first tick and its last. */
  lemma VolumeIsTraded(ticks: seq<Tick>)
    requires ticks != [] && forall i :: 0 <= i < |ticks| ==> ticks[i].vtt.Some?
    requires forall i, j :: 0 <= i < j < |ticks| ==> ticks[i].vtt.value <= ticks[j].vtt.value
    ensures Traded(ticks) == ticks[|ticks| - 1].vtt.value - ticks[0].vtt.value
  {
  }

  /** A bar whose first tick carries no volume reports the whole day's traded volume instead. */
  lemma VolumeWithoutStart(ticks: seq<Tick>, v: real)
    requires |ticks| > 1 && ticks[0].vtt.None? && ticks[|ticks| - 1].vtt == Some(v) && v >= 0.0
    ensures Traded(ticks) == v
  {
  }
}

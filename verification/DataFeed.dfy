/** Live candles from ticks (data_feed.py): one forming bar per symbol, a capped history of
    completed bars, and REST rows that correct the history only. Times are nanoseconds since some
    midnight of the exchange's wall clock. */
module DataFeed {
  import opened Common

  datatype Mode = Swing | Intraday | Scalper

  datatype Candle = Candle(ts: nat, open: real, high: real, low: real, close: real, volume: real)

  datatype Tick = Tick(ts: nat, price: real, vtt: Option<real>)

  /** The bar being built; vttStart is the day's traded volume when it opened. */
  datatype Forming = Forming(bar: Candle, vttStart: real)

  /** One symbol: completed bars, and the bar being built. */
  datatype Live = Live(seed: seq<Candle>, forming: Option<Forming>)

  datatype Event = OnTick(tick: Tick) | OnRest(rows: seq<Candle>)

  const MINUTE: nat := 60_000_000_000
  const HOUR: nat := 60 * MINUTE
  const DAY: nat := 24 * HOUR
  const KEPT: nat := 600

  function TfMinutes(m: Mode): nat { match m case Scalper => 1 case Intraday => 15 case Swing => 24 * 60 }

  /** _bucket: midnight for daily bars, else the minute of the hour floored to the timeframe. */
  function Bucket(ts: nat, m: Mode): nat {
    if m.Swing? then ts - ts % DAY
    else
      var hour := ts - ts % HOUR;
      var minute := ts % HOUR / MINUTE;
      hour + minute / TfMinutes(m) * TfMinutes(m) * MINUTE
  }

  // ------------------------------------------------------------- the history

  predicate Ascending(h: seq<Candle>) { forall i, j :: 0 <= i < j < |h| ==> h[i].ts < h[j].ts }

  predicate HasTime(xs: seq<Candle>, ts: nat) { exists i :: 0 <= i < |xs| && xs[i].ts == ts }

  /** index.duplicated(keep="last"), negated. */
  function KeepLast(xs: seq<Candle>): seq<Candle> {
    if xs == [] then []
    else if HasTime(xs[1..], xs[0].ts) then KeepLast(xs[1..])
    else [xs[0]] + KeepLast(xs[1..])
  }

  function Insert(x: Candle, h: seq<Candle>): seq<Candle> {
    if h == [] || x.ts <= h[0].ts then [x] + h else [h[0]] + Insert(x, h[1..])
  }

  function SortIndex(xs: seq<Candle>): seq<Candle> {
    if xs == [] then [] else Insert(xs[0], SortIndex(xs[1..]))
  }

  function Newest(h: seq<Candle>, n: nat): (r: seq<Candle>)
    ensures |r| <= n && |r| <= |h|
  {
    if |h| <= n then h else h[|h| - n..]
  }

  /** concat, drop all but the last row of each time, sort, keep the newest 600. */
  function Merge(base: seq<Candle>, rows: seq<Candle>): seq<Candle> {
    Newest(SortIndex(KeepLast(base + rows)), KEPT)
  }

  /** df[df.index < ts] */
  function Before(rows: seq<Candle>, ts: nat): seq<Candle> {
    if rows == [] then []
    else if rows[0].ts < ts then [rows[0]] + Before(rows[1..], ts)
    else Before(rows[1..], ts)
  }

  /** base[base.index != ts] */
  function Without(rows: seq<Candle>, ts: nat): seq<Candle> {
    if rows == [] then []
    else if rows[0].ts != ts then [rows[0]] + Without(rows[1..], ts)
    else Without(rows[1..], ts)
  }

  // ------------------------------------------------------------- one event

  function OpenBar(b: nat, t: Tick): Forming {
    Forming(Candle(b, t.price, t.price, t.price, t.price, 0.0), if t.vtt.Some? then t.vtt.value else 0.0)
  }

  function Widen(f: Forming, price: real): Forming {
    f.(bar := f.bar.(high := if price > f.bar.high then price else f.bar.high,
                     low := if price < f.bar.low then price else f.bar.low,
                     close := price))
  }

  function WithVolume(f: Forming, vtt: Option<real>): Forming {
    if vtt.Some? && vtt.value >= f.vttStart then f.(bar := f.bar.(volume := vtt.value - f.vttStart)) else f
  }

  /** The bar this event closes. */
  function Closed(l: Live, e: Event, m: Mode): seq<Candle> {
    if e.OnTick? && l.forming.Some? && Bucket(e.tick.ts, m) > l.forming.value.bar.ts then [l.forming.value.bar] else []
  }

  /** The rows this event writes to the history. */
  function Delivered(l: Live, e: Event, m: Mode): seq<Candle> {
    match e
    case OnTick(_) => Closed(l, e, m)
    case OnRest(rows) => if l.forming.Some? then Before(rows, l.forming.value.bar.ts) else rows
  }

  function NextForming(f: Option<Forming>, t: Tick, m: Mode): Forming {
    var b := Bucket(t.ts, m);
    WithVolume(if f.None? || b > f.value.bar.ts then OpenBar(b, t) else Widen(f.value, t.price), t.vtt)
  }

  function Next(l: Live, e: Event, m: Mode): Live {
    Live(if Delivered(l, e, m) == [] then l.seed else Merge(l.seed, Delivered(l, e, m)),
         if e.OnTick? then Some(NextForming(l.forming, e.tick, m)) else l.forming)
  }

  /** get_candles: the history with the forming bar's row replaced, newest `lookback` rows. */
  function Candles(l: Live, lookback: nat): seq<Candle> {
    var all := if l.forming.None? then l.seed
               else SortIndex(Without(l.seed, l.forming.value.bar.ts) + [l.forming.value.bar]);
    Newest(all, lookback)
  }

  // ------------------------------------------------------------- the feed's object

  class UpstoxFeed {
    const mode: Mode
    var seed: map<string, seq<Candle>>
    var forming: map<string, Forming>

    constructor (mode: Mode)
      ensures this.mode == mode && seed == map[] && forming == map[]
    {
      this.mode := mode;
      seed, forming := map[], map[];
    }

    /** What the feed knows of one symbol; no history and an empty one read the same. */
    function Of(sym: string): Live
      reads this
    {
      Live(if sym in seed then seed[sym] else [], if sym in forming then Some(forming[sym]) else None)
    }

    twostate predicate OthersUnchanged(sym: string)
      reads this
    {
      forall x :: x != sym ==> Of(x) == old(Of(x))
    }

    method CommitForming(sym: string, bar: Candle)
      modifies this`seed
      ensures Of(sym) == old(Of(sym)).(seed := Merge(old(Of(sym)).seed, [bar]))
      ensures OthersUnchanged(sym)
    {
      if sym in seed {
        seed := seed[sym := Newest(SortIndex(KeepLast(seed[sym] + [bar])), KEPT)];
      } else {
        assert [] + [bar] == [bar];
        seed := seed[sym := Newest(SortIndex(KeepLast([bar])), KEPT)];
      }
    }

    /** The forming bar grown by one price, in place. */
    method WidenForming(sym: string, price: real) returns (f: Forming)
      requires sym in forming
      modifies this`forming
      ensures f == Widen(old(forming)[sym], price) && forming == old(forming)[sym := f]
    {
      f := forming[sym];
      if price > f.bar.high { f := f.(bar := f.bar.(high := price)); }
      if price < f.bar.low { f := f.(bar := f.bar.(low := price)); }
      f := f.(bar := f.bar.(close := price));
      forming := forming[sym := f];
    }

    method ApplyTick(sym: string, t: Tick)
      modifies this`seed, this`forming
      ensures Of(sym) == Next(old(Of(sym)), OnTick(t), mode)
      ensures OthersUnchanged(sym)
    {
      var b := Bucket(t.ts, mode);
      var f: Forming;
      if sym !in forming || b > forming[sym].bar.ts {
        if sym in forming {
          CommitForming(sym, forming[sym].bar);
        }
        f := OpenBar(b, t);
        forming := forming[sym := f];
      } else {
        f := WidenForming(sym, t.price);
      }
      if t.vtt.Some? && t.vtt.value >= f.vttStart {
        forming := forming[sym := f.(bar := f.bar.(volume := t.vtt.value - f.vttStart))];
      }
    }

    /** One symbol's turn of the maintenance loop, with the rows the broker returned. */
    method Reseed(sym: string, fetched: seq<Candle>)
      modifies this`seed
      ensures Of(sym) == Next(old(Of(sym)), OnRest(fetched), mode)
      ensures OthersUnchanged(sym)
    {
      if fetched == [] { return; }
      var df := fetched;
      if sym in forming { df := Before(df, forming[sym].bar.ts); }
      if df == [] { return; }
      if sym in seed {
        seed := seed[sym := Newest(SortIndex(KeepLast(seed[sym] + df)), KEPT)];
      } else {
        assert [] + df == df;
        seed := seed[sym := Newest(SortIndex(KeepLast(df)), KEPT)];
      }
    }

    method GetCandles(sym: string, lookback: nat) returns (r: seq<Candle>)
      ensures r == Candles(Of(sym), lookback)
    {
      var rows := if sym in seed then seed[sym] else [];
      if sym in forming {
        var bar := forming[sym].bar;
        rows := SortIndex(Without(rows, bar.ts) + [bar]);
      }
      r := Newest(rows, lookback);
    }
  }
}

/** The stored trade log, a broker sync that replaces one day of it, and the overlay every
    reader sees (db_manager.py, broker_sync.py).

    Times are seconds; a stored row carries UTC, a fill carries IST, five and a half hours ahead. */
module BrokerOverlay {
  import opened Common
  import opened Money
  import opened BrokerSync
  import opened BrokerTrips
  import opened BrokerCompose

  const IST_OFFSET := 19800

  function DayOf(ts: int): int { ts / DAY }

  datatype Source = Bot | Broker

  /** Broker rows have ids that only depend on the account, the day and the trip. */
  datatype Id = BotId(n: nat) | DocId(user: string, day: int, key: Key, n: nat)

  datatype Row = Row(
    id: Id, owner: Option<string>, timestamp: int, broker: string, closed: bool, ticker: string,
    source: Source, brokerDay: Option<int>, pnl: int)

  datatype Covered = Covered(user: string, day: int, broker: string)

  datatype Record = Record(unresolved: set<string>, syncedTotal: int, ledgerTotal: int, trades: nat)

  type Tickers = (string, string) -> string

  function Owner(r: Row): string { match r.owner case None => "admin" case Some(u) => u }

  function TradeDay(r: Row): int { DayOf(r.timestamp) }

  // ----------------------------------------------------------- specification

  predicate Keeps(r: Row, syncs: map<Covered, Record>) {
    var c := Covered(Owner(r), TradeDay(r), r.broker);
    r.source.Broker? || !r.closed || c !in syncs || r.ticker in syncs[c].unresolved
  }

  function Visible(rows: seq<Row>, syncs: map<Covered, Record>): seq<Row> {
    if rows == [] then []
    else
      var r := rows[|rows| - 1];
      Visible(rows[..|rows| - 1], syncs) + (if Keeps(r, syncs) then [r] else [])
  }

  predicate Replaced(r: Row, c: Covered) {
    r.source.Broker? && r.owner == Some(c.user) && r.brokerDay == Some(c.day) && r.broker == c.broker
  }

  function WithoutDay(rows: seq<Row>, c: Covered): seq<Row> {
    if rows == [] then []
    else
      var r := rows[|rows| - 1];
      WithoutDay(rows[..|rows| - 1], c) + (if Replaced(r, c) then [] else [r])
  }

  function Doc(c: Covered, t: RoundTrip, n: nat, tickers: Tickers): Row {
    Row(DocId(c.user, c.day, t.key, n), Some(c.user), t.start - IST_OFFSET, c.broker, true,
        tickers(t.key.symbol, t.key.exchange), Broker, Some(c.day), Hundredths(t.realizedPnl))
  }

  function Docs(c: Covered, trips: seq<RoundTrip>, tickers: Tickers): (r: seq<Row>)
    ensures |r| == |trips| && forall i :: 0 <= i < |r| ==> r[i] == Doc(c, trips[i], i, tickers)
  {
    seq(|trips|, i requires 0 <= i < |trips| => Doc(c, trips[i], i, tickers))
  }

  function Total(rows: seq<Row>): int {
    if rows == [] then 0 else Total(rows[..|rows| - 1]) + rows[|rows| - 1].pnl
  }

  /** The bot's own rows of the account, day and broker. */
  predicate BotRow(r: Row, c: Covered) {
    r.source.Bot? && Owner(r) == c.user && r.broker == c.broker && TradeDay(r) == c.day
  }

  predicate KeptBot(r: Row, c: Covered, unresolved: set<string>) { BotRow(r, c) && r.closed && r.ticker in unresolved }

  function KeptTotal(rows: seq<Row>, c: Covered, unresolved: set<string>): int {
    if rows == [] then 0
    else
      var r := rows[|rows| - 1];
      KeptTotal(rows[..|rows| - 1], c, unresolved) + (if KeptBot(r, c, unresolved) then r.pnl else 0)
  }

  function TickersOf(keys: set<Key>, tickers: Tickers): set<string> {
    set k | k in keys :: tickers(k.symbol, k.exchange)
  }

  function RecordOf(rows: seq<Row>, c: Covered, docs: seq<Row>, unresolved: set<string>): Record {
    Record(unresolved, Total(docs), Total(docs) + KeptTotal(rows, c, unresolved), |docs|)
  }

  datatype Store = Store(rows: seq<Row>, syncs: map<Covered, Record>)

  /** One account's day synced: nothing changes on an empty tradebook. */
  function Synced(s: Store, c: Covered, fills: seq<Fill>, opening: map<Key, int>, mults: map<string, real>,
                  tickers: Tickers): Store
  {
    if fills == [] then s
    else
      var docs := Docs(c, RoundTrips(fills, opening, mults), tickers);
      var unresolved := TickersOf(UnresolvedKeys(fills, opening, KeysOf(fills)), tickers);
      Store(WithoutDay(s.rows, c) + docs, s.syncs[c := RecordOf(s.rows, c, docs, unresolved)])
  }

  // -------------------------------------------------------------- the store

  class TradeLog {
    var rows: seq<Row>
    var syncs: map<Covered, Record>

    function View(): Store
      reads this
    {
      Store(rows, syncs)
    }

    constructor ()
      ensures View() == Store([], map[])
    {
      rows, syncs := [], map[];
    }

    /** The overlay: a keep mask over the rows. */
    method Overlay() returns (kept: seq<Row>)
      ensures kept == Visible(rows, syncs)
    {
      kept := [];
      for i := 0 to |rows|
        invariant kept == Visible(rows[..i], syncs)
      {
        assert rows[..i + 1][..i] == rows[..i];
        if Keeps(rows[i], syncs) { kept := kept + [rows[i]]; }
      }
      assert rows[..|rows|] == rows;
    }

    method ReplaceBrokerDay(c: Covered, docs: seq<Row>, record: Record)
      modifies this
      ensures rows == WithoutDay(old(rows), c) + docs
      ensures syncs == old(syncs)[c := record]
    {
      var keep: seq<Row> := [];
      for i := 0 to |rows|
        invariant rows == old(rows) && syncs == old(syncs)
        invariant keep == WithoutDay(rows[..i], c)
      {
        assert rows[..i + 1][..i] == rows[..i];
        if !Replaced(rows[i], c) { keep := keep + [rows[i]]; }
      }
      assert rows[..|rows|] == rows;
      rows := keep + docs;
      syncs := syncs[c := record];
    }

    method KeptBotTotal(c: Covered, unresolved: set<string>) returns (total: int)
      ensures total == KeptTotal(rows, c, unresolved)
    {
      total := 0;
      for i := 0 to |rows|
        invariant total == KeptTotal(rows[..i], c, unresolved)
      {
        assert rows[..i + 1][..i] == rows[..i];
        if KeptBot(rows[i], c, unresolved) { total := total + rows[i].pnl; }
      }
      assert rows[..|rows|] == rows;
    }

    method SyncUser(c: Covered, fills: seq<Fill>, opening: map<Key, int>, mults: map<string, real>, tickers: Tickers)
      modifies this
      ensures View() == Synced(old(View()), c, fills, opening, mults, tickers)
    {
      hide WithoutDay, RoundTrips, KeptTotal, Total, UnresolvedKeys, KeysOf;
      if fills == [] { return; }
      var trips, unresolved := RebuildRoundTrips(fills, opening, mults);
      var docs := Docs(c, trips, tickers);
      var names := TickersOf(unresolved, tickers);
      var total := SumOf(docs);
      var kept := KeptBotTotal(c, names);
      ReplaceBrokerDay(c, docs, Record(names, total, total + kept, |docs|));
    }
  }

  method SumOf(docs: seq<Row>) returns (total: int)
    ensures total == Total(docs)
  {
    total := 0;
    for i := 0 to |docs|
      invariant total == Total(docs[..i])
    {
      assert docs[..i + 1][..i] == docs[..i];
      total := total + docs[i].pnl;
    }
    assert docs[..|docs|] == docs;
  }

  // ------------------------------------------------------- what a reader sees

  predicate CountsFor(r: Row, c: Covered) {
    r.closed && Owner(r) == c.user && TradeDay(r) == c.day && r.broker == c.broker
  }

  /** Closed profit a reader sums for one account, day and broker. */
  function SeenTotal(rows: seq<Row>, c: Covered): int {
    if rows == [] then 0
    else
      var r := rows[|rows| - 1];
      SeenTotal(rows[..|rows| - 1], c) + (if CountsFor(r, c) then r.pnl else 0)
  }

  lemma {:induction false} SeenConcat(a: seq<Row>, b: seq<Row>, c: Covered)
    ensures SeenTotal(a + b, c) == SeenTotal(a, c) + SeenTotal(b, c)
    decreases |b|
  {
    if b == [] {
      assert a + b == a;
    } else {
      var n := |b| - 1;
      assert (a + b)[..|a| + n] == a + b[..n];
      SeenConcat(a, b[..n], c);
    }
  }

  lemma {:induction false} VisibleConcat(a: seq<Row>, b: seq<Row>, syncs: map<Covered, Record>)
    ensures Visible(a + b, syncs) == Visible(a, syncs) + Visible(b, syncs)
    decreases |b|
  {
    if b == [] {
      assert a + b == a;
    } else {
      var n := |b| - 1;
      assert (a + b)[..|a| + n] == a + b[..n];
      VisibleConcat(a, b[..n], syncs);
    }
  }

  /** A broker row is filed under the trading day it was rebuilt for. */
  predicate FiledOnDay(r: Row) { r.source.Broker? ==> r.brokerDay == Some(TradeDay(r)) && r.owner.Some? }

  predicate Filed(rows: seq<Row>) { forall i :: 0 <= i < |rows| ==> FiledOnDay(rows[i]) }

  lemma RowSeen(r: Row, c: Covered, syncs: map<Covered, Record>)
    requires FiledOnDay(r) && c in syncs
    ensures Replaced(r, c) ==> !KeptBot(r, c, syncs[c].unresolved)
    ensures !Replaced(r, c) ==> (Keeps(r, syncs) && CountsFor(r, c) <==> KeptBot(r, c, syncs[c].unresolved))
  {
  }

  /** Of what stays after the day is replaced, a reader sees for that day exactly the closed bot
      rows of the unresolved tickers. */
  lemma {:induction false} SeenOfKept(rows: seq<Row>, c: Covered, syncs: map<Covered, Record>)
    requires Filed(rows) && c in syncs
    ensures SeenTotal(Visible(WithoutDay(rows, c), syncs), c) == KeptTotal(rows, c, syncs[c].unresolved)
    decreases |rows|
  {
    hide Keeps, CountsFor, KeptBot, Replaced, FiledOnDay;
    if rows != [] {
      var n := |rows| - 1;
      var r := rows[n];
      var init := WithoutDay(rows[..n], c);
      RowSeen(r, c, syncs);
      assert init + [] == init;
      SeenOfKept(rows[..n], c, syncs);
      if !Replaced(r, c) {
        VisibleConcat(init, [r], syncs);
        VisibleOne(r, syncs);
        SeenConcat(Visible(init, syncs), Visible([r], syncs), c);
        SeenOne(r, c);
      }
    }
  }

  lemma VisibleOne(r: Row, syncs: map<Covered, Record>)
    ensures Visible([r], syncs) == if Keeps(r, syncs) then [r] else []
  {
    assert [r][..0] == [];
  }

  lemma SeenOne(r: Row, c: Covered)
    ensures SeenTotal([r], c) == (if CountsFor(r, c) then r.pnl else 0) && SeenTotal([], c) == 0
  {
    assert [r][..0] == [];
  }

  /** Broker rows are never hidden. */
  lemma {:induction false} DocsVisible(docs: seq<Row>, syncs: map<Covered, Record>)
    requires forall i :: 0 <= i < |docs| ==> docs[i].source.Broker?
    ensures Visible(docs, syncs) == docs
    decreases |docs|
  {
    if docs != [] {
      DocsVisible(docs[..|docs| - 1], syncs);
      assert docs == docs[..|docs| - 1] + [docs[|docs| - 1]];
    }
  }

  /** Profit of the rebuilt trips whose UTC stamp falls outside the day: those that started
      before 05:30 IST. */
  function StrayTotal(docs: seq<Row>, day: int): int {
    if docs == [] then 0
    else
      var r := docs[|docs| - 1];
      StrayTotal(docs[..|docs| - 1], day) + (if TradeDay(r) == day then 0 else r.pnl)
  }

  lemma {:induction false} SeenOfDocs(docs: seq<Row>, c: Covered)
    requires forall i :: 0 <= i < |docs| ==>
               docs[i].closed && docs[i].owner == Some(c.user) && docs[i].broker == c.broker
    ensures SeenTotal(docs, c) == Total(docs) - StrayTotal(docs, c.day)
    decreases |docs|
  {
    if docs != [] { SeenOfDocs(docs[..|docs| - 1], c); }
  }

  /** The read agrees with the record.  After a sync, what a reader sums through the overlay for
      the account, day and broker is the recorded ledger total, less exactly the trips that
      started before 05:30 IST, which the log files under the day before. */
  lemma OverlayAgrees(s: Store, c: Covered, fills: seq<Fill>, opening: map<Key, int>, mults: map<string, real>,
                      tickers: Tickers)
    requires fills != [] && Filed(s.rows)
    ensures var s' := Synced(s, c, fills, opening, mults, tickers);
            var docs := Docs(c, RoundTrips(fills, opening, mults), tickers);
            SeenTotal(Visible(s'.rows, s'.syncs), c) == s'.syncs[c].ledgerTotal - StrayTotal(docs, c.day)
  {
    hide RoundTrips, WithoutDay, Visible, SeenTotal, StrayTotal, KeptTotal, Total, UnresolvedKeys, KeysOf, Hundredths;
    var s' := Synced(s, c, fills, opening, mults, tickers);
    var docs := Docs(c, RoundTrips(fills, opening, mults), tickers);
    var kept := WithoutDay(s.rows, c);
    VisibleConcat(kept, docs, s'.syncs);
    SeenConcat(Visible(kept, s'.syncs), Visible(docs, s'.syncs), c);
    SeenOfKept(s.rows, c, s'.syncs);
    DocsVisible(docs, s'.syncs);
    SeenOfDocs(docs, c);
  }

  predicate AfterDawn(t: RoundTrip, day: int) { day * DAY + IST_OFFSET <= t.start < (day + 1) * DAY }

  lemma DawnDay(t: RoundTrip, day: int)
    requires AfterDawn(t, day)
    ensures DayOf(t.start - IST_OFFSET) == day
  {
    assert day * DAY <= t.start - IST_OFFSET < day * DAY + DAY;
  }

  lemma {:induction false} NoStrays(docs: seq<Row>, day: int)
    requires forall i :: 0 <= i < |docs| ==> TradeDay(docs[i]) == day
    ensures StrayTotal(docs, day) == 0
    decreases |docs|
  {
    if docs != [] { NoStrays(docs[..|docs| - 1], day); }
  }

  /** For fills at or after 05:30 IST the two agree exactly, and the log stays filed by day, so
      the next sync can rely on it. */
  lemma DayAgrees(s: Store, c: Covered, fills: seq<Fill>, opening: map<Key, int>, mults: map<string, real>,
                  tickers: Tickers)
    requires fills != [] && Filed(s.rows)
    requires forall t | t in RoundTrips(fills, opening, mults) :: AfterDawn(t, c.day)
    ensures var s' := Synced(s, c, fills, opening, mults, tickers);
            && SeenTotal(Visible(s'.rows, s'.syncs), c) == s'.syncs[c].ledgerTotal
            && Filed(s'.rows)
  {
    hide RoundTrips, WithoutDay, Visible, SeenTotal, StrayTotal, KeptTotal, Total, UnresolvedKeys, KeysOf, Hundredths,
         DayOf, AfterDawn;
    var trips := RoundTrips(fills, opening, mults);
    var docs := Docs(c, trips, tickers);
    forall i | 0 <= i < |docs| ensures TradeDay(docs[i]) == c.day {
      assert trips[i] in trips;
      DawnDay(trips[i], c.day);
    }
    NoStrays(docs, c.day);
    WithoutKeepsFiled(s.rows, c);
    OverlayAgrees(s, c, fills, opening, mults, tickers);
  }

  lemma {:induction false} WithoutKeepsFiled(rows: seq<Row>, c: Covered)
    requires Filed(rows)
    ensures Filed(WithoutDay(rows, c))
    ensures forall i :: 0 <= i < |WithoutDay(rows, c)| ==> !Replaced(WithoutDay(rows, c)[i], c)
    decreases |rows|
  {
    hide FiledOnDay, Replaced;
    if rows != [] { WithoutKeepsFiled(rows[..|rows| - 1], c); }
  }

  /** One account, day and broker per record: syncing another one, its trips starting at or after
      05:30 IST of its own day, leaves this one's record and what a reader sums for it as they were. */
  lemma OtherSyncKeeps(s: Store, c: Covered, other: Covered, fills: seq<Fill>, opening: map<Key, int>,
                       mults: map<string, real>, tickers: Tickers)
    requires Filed(s.rows) && c != other
    requires forall t | t in RoundTrips(fills, opening, mults) :: AfterDawn(t, other.day)
    ensures var s' := Synced(s, other, fills, opening, mults, tickers);
            && (c in s.syncs <==> c in s'.syncs) && (c in s.syncs ==> s'.syncs[c] == s.syncs[c])
            && SeenTotal(Visible(s'.rows, s'.syncs), c) == SeenTotal(Visible(s.rows, s.syncs), c)
            && Filed(s'.rows)
  {
    hide RoundTrips, WithoutDay, Visible, SeenTotal, KeptTotal, Total, UnresolvedKeys, KeysOf, Hundredths, DayOf,
         AfterDawn;
    if fills != [] {
      var s' := Synced(s, other, fills, opening, mults, tickers);
      var trips := RoundTrips(fills, opening, mults);
      var docs := Docs(other, trips, tickers);
      var kept := WithoutDay(s.rows, other);
      forall i | 0 <= i < |docs| ensures TradeDay(docs[i]) == other.day {
        assert trips[i] in trips;
        DawnDay(trips[i], other.day);
      }
      WithoutKeepsFiled(s.rows, other);
      VisibleConcat(kept, docs, s'.syncs);
      DocsVisible(docs, s'.syncs);
      SeenConcat(Visible(kept, s'.syncs), docs, c);
      OthersUncounted(docs, c, other);
      OthersKept(s.rows, c, other, s.syncs, s'.syncs);
    }
  }

  /** Rows of another account, day or broker count for nothing here. */
  lemma {:induction false} OthersUncounted(docs: seq<Row>, c: Covered, other: Covered)
    requires c != other
    requires forall i :: 0 <= i < |docs| ==>
               Owner(docs[i]) == other.user && TradeDay(docs[i]) == other.day && docs[i].broker == other.broker
    ensures SeenTotal(docs, c) == 0
    decreases |docs|
  {
    if docs != [] { OthersUncounted(docs[..|docs| - 1], c, other); }
  }

  /** Replacing another day's broker rows and record hides and shows nothing of this day's. */
  lemma {:induction false} OthersKept(rows: seq<Row>, c: Covered, other: Covered, syncs: map<Covered, Record>,
                                      syncs': map<Covered, Record>)
    requires Filed(rows) && c != other && other in syncs' && syncs' == syncs[other := syncs'[other]]
    ensures SeenTotal(Visible(WithoutDay(rows, other), syncs'), c) == SeenTotal(Visible(rows, syncs), c)
    decreases |rows|
  {
    if rows != [] {
      var init, r := rows[..|rows| - 1], rows[|rows| - 1];
      var kept := WithoutDay(init, other);
      assert rows == init + [r] && FiledOnDay(r);
      assert WithoutDay(rows, other) == if Replaced(r, other) then kept else kept + [r] by { assert kept + [] == kept; }
      OtherRow(r, c, other, syncs, syncs');
      OthersKept(init, c, other, syncs, syncs');
      SeenSnoc(init, r, syncs, c);
      SeenSnoc(kept, r, syncs', c);
      hide Keeps, CountsFor, Replaced, Visible, SeenTotal, WithoutDay;
    }
  }

  lemma SeenSnoc(rows: seq<Row>, r: Row, syncs: map<Covered, Record>, c: Covered)
    ensures SeenTotal(Visible(rows + [r], syncs), c)
            == SeenTotal(Visible(rows, syncs), c) + if Keeps(r, syncs) && CountsFor(r, c) then r.pnl else 0
  {
    hide Keeps, CountsFor;
    var was := Visible(rows, syncs);
    assert (rows + [r])[..|rows|] == rows;
    if Keeps(r, syncs) { assert (was + [r])[..|was|] == was; } else { assert was + [] == was; }
  }

  lemma OtherRow(r: Row, c: Covered, other: Covered, syncs: map<Covered, Record>, syncs': map<Covered, Record>)
    requires FiledOnDay(r) && c != other && other in syncs' && syncs' == syncs[other := syncs'[other]]
    ensures Replaced(r, other) ==> !CountsFor(r, c)
    ensures CountsFor(r, c) ==> (Keeps(r, syncs) <==> Keeps(r, syncs'))
  {
  }

  /** One unit bought, or sold, at one in the morning of a day. */
  function EarlyFill(day: int, key: Key, side: Side, price: real): Fill
    requires price > 0.0
  {
    RawFill.Fill(key, side, 1, price, day * DAY + 3600, "")
  }

  /** A trip before 05:30 IST: bought and sold at one in the morning of the day, for a profit of one, it
      is filed under the day before, so the day's read shows nothing of the recorded total. */
  lemma EarlyTripIsMissed(c: Covered, key: Key, tickers: Tickers)
    ensures var fills := [EarlyFill(c.day, key, Buy, 100.0), EarlyFill(c.day, key, Sell, 101.0)];
            var s' := Synced(Store([], map[]), c, fills, map[], map[], tickers);
            s'.syncs[c].ledgerTotal == 100 && SeenTotal(Visible(s'.rows, s'.syncs), c) == 0
  {
    var y, z := EarlyFill(c.day, key, Buy, 100.0), EarlyFill(c.day, key, Sell, 101.0);
    var fills := [y, z];
    var trips := RoundTrips(fills, map[], map[]);
    var docs := Docs(c, trips, tickers);
    var empty := Store([], map[]);
    OneTrip(y, z);
    OverlayAgrees(empty, c, fills, map[], map[], tickers);
    hide RoundTrips, Visible, SeenTotal, UnresolvedKeys, KeysOf, DayOf;
    assert docs == [Doc(c, trips[0], 0, tickers)];
    assert Hundredths(1.0) == 100;
    NightBefore(c.day);
    hide Hundredths;
    OneDoc(docs[0], c.day);
  }

  lemma OneDoc(r: Row, day: int)
    ensures Total([r]) == r.pnl && StrayTotal([r], day) == if TradeDay(r) == day then 0 else r.pnl
  {
    assert [r][..0] == [];
  }

  lemma NightBefore(day: int)
    ensures DayOf(day * DAY + 3600 - IST_OFFSET) == day - 1
  {
    assert (day - 1) * DAY <= day * DAY + 3600 - IST_OFFSET < (day - 1) * DAY + DAY;
  }

  lemma AllOfOne(fills: seq<Fill>, key: Key)
    ensures AllTrips(fills, map[], map[], [key]) == KeyTrips(fills, map[], map[], key)
  {
    hide KeyTrips;
    assert [key][..0] == [];
  }

  /** One unit bought and sold is one trip with the difference as its profit. */
  lemma OneTrip(y: Fill, z: Fill)
    requires y.key == z.key && y.side.Buy? && z.side.Sell? && y.qty == z.qty == 1
    ensures var trips := RoundTrips([y, z], map[], map[]);
            |trips| == 1 && trips[0].start == y.ts && trips[0].realizedPnl == z.price - y.price
  {
    hide *;
    var fills := [y, z];
    PairRows(y, z);
    BuyThenSell(y, z);
    FlatKeyTrips(fills, y.key);
    SingleTrip(y.key, Net(fills).done, 1.0);
    OneKeyOneTrip(fills, y.key);
  }

  lemma PairRows(y: Fill, z: Fill)
    requires y.key == z.key
    ensures RowsOf([y, z], y.key) == [y, z] && KeysOf([y, z]) == [y.key]
  {
    assert [y, z][..1] == [y] && [y][..0] == [];
    assert RowsOf([y], y.key) == [y] && KeysOf([y]) == [y.key];
  }

  lemma FlatKeyTrips(fills: seq<Fill>, key: Key)
    requires RowsOf(fills, key) == fills && Net(fills).pos == 0
    ensures KeyTrips(fills, map[], map[], key) == ToTrips(key, Net(fills).done, 1.0)
  {
    hide RowsOf, Net, ToTrips;
  }

  lemma OneKeyOneTrip(fills: seq<Fill>, key: Key)
    requires KeysOf(fills) == [key] && |KeyTrips(fills, map[], map[], key)| == 1
    ensures RoundTrips(fills, map[], map[]) == KeyTrips(fills, map[], map[], key)
  {
    hide KeysOf, KeyTrips, AllTrips;
    var trips := KeyTrips(fills, map[], map[], key);
    AllOfOne(fills, key);
    assert ByStart(trips) == trips by { assert trips[..0] == []; }
  }

  lemma BuyThenSell(y: Fill, z: Fill)
    requires y.key == z.key && y.side.Buy? && z.side.Sell? && y.qty == z.qty == 1
    ensures var w := Net([y, z]);
            && w.pos == 0 && |w.done| == 1 && w.done[0].start == y.ts && w.done[0].side.Buy?
            && w.done[0].entries == [(y.price, 1)] && w.done[0].exits == [(z.price, 1)]
  {
    assert [y, z][..1] == [y] && [y][..0] == [];
    hide AddOrder;
    assert Net([]) == FLAT;
    assert Net([y]) == Consume(FLAT, 1, y);
    assert Net([y, z]) == Consume(Net([y]), -1, z);
  }

  lemma SingleTrip(key: Key, done: seq<Building>, mult: real)
    requires |done| == 1 && done[0].side.Buy? && |done[0].entries| == 1 && |done[0].exits| == 1
    requires done[0].entries[0].1 == 1 && done[0].exits[0].1 == 1 && mult == 1.0
    ensures var trips := ToTrips(key, done, mult);
            && |trips| == 1 && trips[0].start == done[0].start
            && trips[0].realizedPnl == done[0].exits[0].0 - done[0].entries[0].0
  {
    assert done[..0] == [];
    OneLeg(done[0].entries);
    OneLeg(done[0].exits);
    assert ToTrips(key, done, mult) == [] + [ToTrip(key, done[0], mult)];
  }

  lemma OneLeg(legs: seq<(real, int)>)
    requires |legs| == 1 && legs[0].1 == 1
    ensures Vwap(legs) == legs[0].0 && SumQty(legs) == 1
  {
    assert legs[..0] == [];
    assert SumQty(legs) == 1 && SumCash(legs) == legs[0].0;
    assert legs[0].0 / 1.0 == legs[0].0;
  }

  // ------------------------------------------------------- re-sync and double count

  lemma {:induction false} WithoutConcat(a: seq<Row>, b: seq<Row>, c: Covered)
    ensures WithoutDay(a + b, c) == WithoutDay(a, c) + WithoutDay(b, c)
    decreases |b|
  {
    hide Replaced;
    if b == [] {
      assert a + b == a;
    } else {
      var n := |b| - 1;
      assert (a + b)[..|a| + n] == a + b[..n];
      WithoutConcat(a, b[..n], c);
    }
  }

  lemma {:induction false} KeptConcat(a: seq<Row>, b: seq<Row>, c: Covered, u: set<string>)
    ensures KeptTotal(a + b, c, u) == KeptTotal(a, c, u) + KeptTotal(b, c, u)
    decreases |b|
  {
    hide KeptBot;
    if b == [] {
      assert a + b == a;
    } else {
      var n := |b| - 1;
      assert (a + b)[..|a| + n] == a + b[..n];
      KeptConcat(a, b[..n], c, u);
    }
  }

  lemma OneRow(r: Row, c: Covered, u: set<string>)
    ensures WithoutDay([r], c) == if Replaced(r, c) then [] else [r]
    ensures KeptTotal([r], c, u) == (if KeptBot(r, c, u) then r.pnl else 0)
    ensures Replaced(r, c) ==> !KeptBot(r, c, u)
  {
    assert [r][..0] == [];
  }

  lemma {:induction false} WithoutTwice(rows: seq<Row>, c: Covered, u: set<string>)
    ensures WithoutDay(WithoutDay(rows, c), c) == WithoutDay(rows, c)
    ensures KeptTotal(WithoutDay(rows, c), c, u) == KeptTotal(rows, c, u)
    decreases |rows|
  {
    hide KeptBot, Replaced;
    if rows != [] {
      var n := |rows| - 1;
      var r, init := rows[n], WithoutDay(rows[..n], c);
      WithoutTwice(rows[..n], c, u);
      OneRow(r, c, u);
      assert init + [] == init;
      WithoutConcat(init, [r], c);
      KeptConcat(init, [r], c, u);
    }
  }

  lemma {:induction false} DocsAllReplaced(docs: seq<Row>, c: Covered, u: set<string>)
    requires forall i :: 0 <= i < |docs| ==> Replaced(docs[i], c)
    ensures WithoutDay(docs, c) == [] && KeptTotal(docs, c, u) == 0
    decreases |docs|
  {
    hide Replaced, KeptBot;
    if docs != [] {
      DocsAllReplaced(docs[..|docs| - 1], c, u);
      OneRow(docs[|docs| - 1], c, u);
    }
  }

  /** Syncing the same day's fills again changes nothing. */
  lemma ResyncIsIdempotent(s: Store, c: Covered, fills: seq<Fill>, opening: map<Key, int>, mults: map<string, real>,
                           tickers: Tickers)
    ensures var s' := Synced(s, c, fills, opening, mults, tickers);
            Synced(s', c, fills, opening, mults, tickers) == s'
  {
    hide RoundTrips, WithoutDay, KeptTotal, Total, UnresolvedKeys, KeysOf, Hundredths;
    if fills != [] {
      var docs := Docs(c, RoundTrips(fills, opening, mults), tickers);
      var kept := WithoutDay(s.rows, c);
      var u := TickersOf(UnresolvedKeys(fills, opening, KeysOf(fills)), tickers);
      WithoutConcat(kept, docs, c);
      WithoutTwice(s.rows, c, u);
      KeptConcat(kept, docs, c, u);
      DocsAllReplaced(docs, c, u);
      assert kept + [] == kept;
    }
  }

  /** Among the keys that traded, each ticker stands for one. */
  predicate OneProductPerTicker(keys: seq<Key>, tickers: Tickers) {
    forall j, k | j in keys && k in keys && tickers(j.symbol, j.exchange) == tickers(k.symbol, k.exchange) :: j == k
  }

  /** With one product per ticker no ticker of the synced day is counted from both the broker's
      rows and the bot's. */
  lemma NoDoubleCount(s: Store, c: Covered, fills: seq<Fill>, opening: map<Key, int>, mults: map<string, real>,
                      tickers: Tickers, bot: Row, doc: Row)
    requires fills != [] && OneProductPerTicker(KeysOf(fills), tickers)
    ensures var s' := Synced(s, c, fills, opening, mults, tickers);
            BotRow(bot, c) && bot.closed && Keeps(bot, s'.syncs)
            && doc in Docs(c, RoundTrips(fills, opening, mults), tickers)
            ==> bot.ticker != doc.ticker
  {
    hide RoundTrips, WithoutDay, KeptTotal, Total, KeysOf, Hundredths, Unresolved;
    var trips := RoundTrips(fills, opening, mults);
    if doc in Docs(c, trips, tickers) {
      var n :| 0 <= n < |trips| && doc == Doc(c, trips[n], n, tickers);
      assert trips[n] in trips;
      CashIdentity(fills, opening, mults, trips[n].key);
      forall k | k in UnresolvedKeys(fills, opening, KeysOf(fills))
        ensures tickers(k.symbol, k.exchange) != doc.ticker
      {
        CashIdentity(fills, opening, mults, k);
      }
    }
  }

  /** No two traded keys share a ticker, one of them flat and the other not. */
  ghost predicate TickersSettleTogether(fills: seq<Fill>, opening: map<Key, int>, tickers: Tickers) {
    forall j, k :: j in KeysOf(fills) && k in KeysOf(fills)
                   && tickers(j.symbol, j.exchange) == tickers(k.symbol, k.exchange)
      ==> (FlatKey(fills, opening, j) ==> FlatKey(fills, opening, k))
  }

  /** The rebuilt trips are of the flat keys that traded, each of which has one. */
  lemma TripsAreOfFlatKeys(fills: seq<Fill>, opening: map<Key, int>, mults: map<string, real>)
    ensures var trips := RoundTrips(fills, opening, mults);
            && (forall t | t in trips :: t.key in KeysOf(fills) && FlatKey(fills, opening, t.key))
            && (forall k :: k in KeysOf(fills) && FlatKey(fills, opening, k) ==> exists t :: t in trips && t.key == k)
  {
    var trips := RoundTrips(fills, opening, mults);
    hide RoundTrips, KeysOf, FlatKey, KeyTrips;
    forall t | t in trips ensures t.key in KeysOf(fills) && FlatKey(fills, opening, t.key) {
      KeyOfTrip(fills, opening, mults, t);
    }
    forall k | k in KeysOf(fills) && FlatKey(fills, opening, k) ensures exists t :: t in trips && t.key == k {
      TripOfKey(fills, opening, mults, k);
    }
  }

  lemma KeyOfTrip(fills: seq<Fill>, opening: map<Key, int>, mults: map<string, real>, t: RoundTrip)
    requires t in RoundTrips(fills, opening, mults)
    ensures t.key in KeysOf(fills) && FlatKey(fills, opening, t.key)
  {
    RebuiltOfKey(fills, opening, mults, t.key);
    OfKeyElements(RoundTrips(fills, opening, mults), t.key);
    SortKeepsTrips(KeyTrips(fills, opening, mults, t.key));
    FlatKeyTrades(fills, opening, mults, t.key);
    hide RoundTrips, KeyTrips, OfKey, FlatKey;
  }

  lemma TripOfKey(fills: seq<Fill>, opening: map<Key, int>, mults: map<string, real>, k: Key)
    requires k in KeysOf(fills) && FlatKey(fills, opening, k)
    ensures exists t :: t in RoundTrips(fills, opening, mults) && t.key == k
  {
    var mine := KeyTrips(fills, opening, mults, k);
    RebuiltOfKey(fills, opening, mults, k);
    OfKeyElements(RoundTrips(fills, opening, mults), k);
    SortKeepsTrips(mine);
    FlatKeyTrades(fills, opening, mults, k);
    hide RoundTrips, KeyTrips, OfKey, FlatKey;
    assert mine[0] in mine;
  }

  /** A bot row and a broker row of the same ticker, both read and both counted for the day. */
  ghost predicate CountedTwice(s: Store, c: Covered, bot: Row, doc: Row) {
    var seen := Visible(s.rows, s.syncs);
    bot in seen && doc in seen && BotRow(bot, c) && CountsFor(bot, c) && doc.source.Broker? && bot.ticker == doc.ticker
  }

  /** A flat key that shares its ticker with one that is not is counted from the broker's row, and the
      bot's closed rows of that ticker stay counted beside it. */
  lemma SharedTickerCountsTwice(s: Store, c: Covered, fills: seq<Fill>, opening: map<Key, int>,
                                mults: map<string, real>, tickers: Tickers, j: Key, k: Key, bot: Row)
    requires j in KeysOf(fills) && k in KeysOf(fills) && tickers(j.symbol, j.exchange) == tickers(k.symbol, k.exchange)
    requires FlatKey(fills, opening, j) && !FlatKey(fills, opening, k)
    requires bot in s.rows && BotRow(bot, c) && bot.closed && bot.ticker == tickers(j.symbol, j.exchange)
    ensures var s' := Synced(s, c, fills, opening, mults, tickers);
            exists doc :: doc in Docs(c, RoundTrips(fills, opening, mults), tickers) && CountedTwice(s', c, bot, doc)
  {
    var trips := RoundTrips(fills, opening, mults);
    var docs := Docs(c, trips, tickers);
    TripOfKey(fills, opening, mults, j);
    TickerUnresolved(fills, opening, tickers, k);
    hide RoundTrips, KeysOf, FlatKey, UnresolvedKeys, Hundredths, Synced;
    var t :| t in trips && t.key == j;
    var n :| 0 <= n < |trips| && trips[n] == t;
    BotStaysSeen(s, c, fills, opening, mults, tickers, bot);
    DocIsSeen(s, c, fills, opening, mults, tickers, docs[n]);
  }

  lemma TickerUnresolved(fills: seq<Fill>, opening: map<Key, int>, tickers: Tickers, k: Key)
    requires k in KeysOf(fills) && !FlatKey(fills, opening, k)
    ensures tickers(k.symbol, k.exchange) in TickersOf(UnresolvedKeys(fills, opening, KeysOf(fills)), tickers)
  {
    FlatIsResolved(fills, opening, k);
    hide FlatKey, Unresolved, KeysOf;
    assert k in UnresolvedKeys(fills, opening, KeysOf(fills));
  }

  /** A closed bot row of an unresolved ticker is still read after the day is synced. */
  lemma BotStaysSeen(s: Store, c: Covered, fills: seq<Fill>, opening: map<Key, int>, mults: map<string, real>,
                     tickers: Tickers, bot: Row)
    requires fills != [] && bot in s.rows && BotRow(bot, c) && bot.closed
    requires bot.ticker in TickersOf(UnresolvedKeys(fills, opening, KeysOf(fills)), tickers)
    ensures var s' := Synced(s, c, fills, opening, mults, tickers);
            bot in Visible(s'.rows, s'.syncs) && CountsFor(bot, c)
  {
    var s' := Synced(s, c, fills, opening, mults, tickers);
    hide RoundTrips, KeysOf, UnresolvedKeys, TickersOf, Total, KeptTotal, Visible, WithoutDay, Hundredths;
    WithoutDayElements(s.rows, c);
    VisibleElements(s'.rows, s'.syncs);
  }

  /** So is every broker row of the sync. */
  lemma DocIsSeen(s: Store, c: Covered, fills: seq<Fill>, opening: map<Key, int>, mults: map<string, real>,
                  tickers: Tickers, doc: Row)
    requires fills != [] && doc in Docs(c, RoundTrips(fills, opening, mults), tickers)
    ensures var s' := Synced(s, c, fills, opening, mults, tickers); doc in Visible(s'.rows, s'.syncs)
    ensures doc.source.Broker?
  {
    var s' := Synced(s, c, fills, opening, mults, tickers);
    hide RoundTrips, KeysOf, UnresolvedKeys, TickersOf, Total, KeptTotal, Visible, WithoutDay, Hundredths;
    VisibleElements(s'.rows, s'.syncs);
  }

  lemma {:induction false} WithoutDayElements(rows: seq<Row>, c: Covered)
    ensures forall r :: r in WithoutDay(rows, c) <==> r in rows && !Replaced(r, c)
    decreases |rows|
  {
    if rows != [] {
      var init := rows[..|rows| - 1];
      assert rows == init + [rows[|rows| - 1]];
      WithoutDayElements(init, c);
    }
  }

  lemma {:induction false} VisibleElements(rows: seq<Row>, syncs: map<Covered, Record>)
    ensures forall r :: r in Visible(rows, syncs) <==> r in rows && Keeps(r, syncs)
    decreases |rows|
  {
    hide Keeps;
    if rows != [] {
      var init := rows[..|rows| - 1];
      assert rows == init + [rows[|rows| - 1]];
      VisibleElements(init, syncs);
    }
  }

  /** Two products of one symbol, one still open: the closed one's broker row and any closed bot row
      of the ticker are then both counted. */
  lemma TwoProductsCanDoubleCount(s: Store, c: Covered, x: Fill, y: Fill, z: Fill, tickers: Tickers, bot: Row)
    requires y.key == z.key != x.key && y.side.Buy? && z.side.Sell? && y.qty == z.qty
    requires tickers(x.key.symbol, x.key.exchange) == tickers(y.key.symbol, y.key.exchange)
    requires bot in s.rows && BotRow(bot, c) && bot.closed && bot.ticker == tickers(y.key.symbol, y.key.exchange)
    ensures var fills := [x, y, z];
            exists doc :: doc in Docs(c, RoundTrips(fills, map[], map[]), tickers) &&
                          CountedTwice(Synced(s, c, fills, map[], map[], tickers), c, bot, doc)
  {
    var fills := [x, y, z];
    ThreeFills(x, y, z);
    NetOfOne(x);
    NetOfTwo(y, z);
    hide RowsOf, KeysOf, NetQty, CountedTwice, Docs, Synced;
    SharedTickerCountsTwice(s, c, fills, map[], map[], tickers, y.key, x.key, bot);
  }

  lemma ThreeFills(x: Fill, y: Fill, z: Fill)
    requires y.key == z.key != x.key
    ensures var fills := [x, y, z];
            && RowsOf(fills, x.key) == [x] && RowsOf(fills, y.key) == [y, z]
            && x.key in KeysOf(fills) && y.key in KeysOf(fills)
  {
    var fills := [x, y, z];
    assert fills[..2] == [x, y] && [x, y][..1] == [x] && [x][..0] == [];
    assert RowsOf([x], x.key) == [x] && RowsOf([x], y.key) == [];
    assert RowsOf([x, y], x.key) == [x] && RowsOf([x, y], y.key) == [y];
    KeysDistinct(fills);
  }

  lemma NetOfOne(x: Fill)
    ensures NetQty([x]) == Signed(x)
  {
    assert [x][..0] == [];
  }

  lemma NetOfTwo(y: Fill, z: Fill)
    ensures NetQty([y, z]) == Signed(y) + Signed(z)
  {
    assert [y, z][..1] == [y];
    NetOfOne(y);
  }

  /** Exactly when a synced day is safe from double counting, whatever the log holds, told from the
      fills and the opening quantities: no two traded keys share a ticker, one flat and one not. */
  lemma DoubleCountExactly(c: Covered, fills: seq<Fill>, opening: map<Key, int>, mults: map<string, real>,
                           tickers: Tickers)
    requires fills != []
    ensures var docs := Docs(c, RoundTrips(fills, opening, mults), tickers);
            (forall s: Store, bot: Row, doc: Row | doc in docs ::
               !CountedTwice(Synced(s, c, fills, opening, mults, tickers), c, bot, doc))
            <==> TickersSettleTogether(fills, opening, tickers)
  {
    var docs := Docs(c, RoundTrips(fills, opening, mults), tickers);
    hide RoundTrips, KeysOf, FlatKey, CountedTwice, Synced;
    if TickersSettleTogether(fills, opening, tickers) {
      forall s: Store, bot: Row, doc: Row | doc in docs
        ensures !CountedTwice(Synced(s, c, fills, opening, mults, tickers), c, bot, doc)
      {
        SettledCountsOnce(s, c, fills, opening, mults, tickers, bot, doc);
      }
    } else {
      var j, k :| j in KeysOf(fills) && k in KeysOf(fills)
          && tickers(j.symbol, j.exchange) == tickers(k.symbol, k.exchange)
                  && FlatKey(fills, opening, j) && !FlatKey(fills, opening, k);
      var bot := Row(BotId(0), Some(c.user), c.day * DAY, c.broker, true, tickers(j.symbol, j.exchange), Bot, None, 0);
      DayOfMidnight(c.day);
      var s := Store([bot], map[]);
      SharedTickerCountsTwice(s, c, fills, opening, mults, tickers, j, k, bot);
      var doc :| doc in docs && CountedTwice(Synced(s, c, fills, opening, mults, tickers), c, bot, doc);
    }
  }

  lemma SettledCountsOnce(s: Store, c: Covered, fills: seq<Fill>, opening: map<Key, int>, mults: map<string, real>,
                          tickers: Tickers, bot: Row, doc: Row)
    requires fills != [] && TickersSettleTogether(fills, opening, tickers)
    requires doc in Docs(c, RoundTrips(fills, opening, mults), tickers)
    ensures !CountedTwice(Synced(s, c, fills, opening, mults, tickers), c, bot, doc)
  {
    var trips := RoundTrips(fills, opening, mults);
    var s' := Synced(s, c, fills, opening, mults, tickers);
    var n :| 0 <= n < |trips| && doc == Doc(c, trips[n], n, tickers);
    assert trips[n] in trips;
    KeyOfTrip(fills, opening, mults, trips[n]);
    VisibleElements(s'.rows, s'.syncs);
    hide RoundTrips, KeysOf, FlatKey, Total, KeptTotal, Hundredths, Unresolved, Visible, WithoutDay;
    forall k | k in UnresolvedKeys(fills, opening, KeysOf(fills)) ensures tickers(k.symbol, k.exchange) != doc.ticker {
      FlatIsResolved(fills, opening, k);
    }
  }

  lemma DayOfMidnight(day: int)
    ensures DayOf(day * DAY) == day
  {
  }
}

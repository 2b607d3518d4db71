/** What a sync writes down, against the fills it was given: every stored row is a rebuilt trip, and a day
    with nothing unresolved records the cash its fills took in. */
module BrokerRecord {
  import opened Common
  import opened Money
  import opened BrokerSync
  import opened BrokerTrips
  import opened BrokerOverlay

  // ------------------------------------------------------------- the fills by themselves

  /** Units bought less units sold in a key. */
  function Held(fills: seq<Fill>, key: Key): int {
    if fills == [] then 0
    else
      var f := fills[|fills| - 1];
      Held(fills[..|fills| - 1], key) + if f.key != key then 0 else if f.side.Buy? then f.qty else -f.qty
  }

  /** Cash taken in by a key: price times quantity of what was sold, less of what was bought. */
  function Taken(fills: seq<Fill>, key: Key): real {
    if fills == [] then 0.0
    else
      var f := fills[|fills| - 1];
      Taken(fills[..|fills| - 1], key)
      + if f.key != key then 0.0 else if f.side.Sell? then f.price * f.qty as real else -(f.price * f.qty as real)
  }

  /** The broker's multiplier for a symbol, if it named a positive or negative one. */
  predicate IsMultiplier(m: real, mults: map<string, real>, symbol: string) {
    if symbol in mults && mults[symbol] != 0.0 then m == mults[symbol] else m == 1.0
  }

  predicate OpenedFlat(opening: map<Key, int>, key: Key) { key in opening ==> opening[key] == 0 }

  lemma {:induction false} HeldIsNet(fills: seq<Fill>, key: Key)
    ensures Held(fills, key) == NetQty(RowsOf(fills, key)) && Taken(fills, key) == Cash(RowsOf(fills, key))
  {
    if fills != [] {
      var init, f := fills[..|fills| - 1], fills[|fills| - 1];
      var rows := RowsOf(init, key);
      HeldIsNet(init, key);
      if f.key == key {
        assert (rows + [f])[..|rows|] == rows;
      } else {
        assert rows + [] == rows;
      }
    }
  }

  // ------------------------------------------------------------- what the trips earn

  /** What the trips of a key earn. */
  function Earned(trips: seq<RoundTrip>, key: Key): real {
    if trips == [] then 0.0
    else
      var t := trips[|trips| - 1];
      Earned(trips[..|trips| - 1], key) + if t.key == key then t.realizedPnl else 0.0
  }

  lemma {:induction false} EarnedIsPnl(trips: seq<RoundTrip>, key: Key)
    ensures Earned(trips, key) == PnlOf(trips, key)
  {
    if trips != [] { EarnedIsPnl(trips[..|trips| - 1], key); }
  }

  lemma {:induction false} NothingEarned(trips: seq<RoundTrip>, key: Key)
    requires forall t | t in trips :: t.key != key
    ensures Earned(trips, key) == 0.0
  {
    if trips != [] { NothingEarned(trips[..|trips| - 1], key); }
  }

  lemma UnresolvedIsHeld(fills: seq<Fill>, opening: map<Key, int>, key: Key)
    ensures Unresolved(fills, opening, key) <==> !OpenedFlat(opening, key) || Held(fills, key) != 0
  {
    HeldIsNet(fills, key);
    hide NetQty, RowsOf, Held, Net;
    FlatIsResolved(fills, opening, key);
    hide Unresolved;
  }

  lemma MultiplierIs(m: real, mults: map<string, real>, symbol: string)
    requires IsMultiplier(m, mults, symbol)
    ensures m == Multiplier(mults, symbol)
  {
  }

  /** The trips of a key that opened flat and ended flat earn its multiplier times the cash its fills took
      in; any other key has none. */
  lemma TripsEarnCash(fills: seq<Fill>, opening: map<Key, int>, mults: map<string, real>, key: Key, m: real)
    requires IsMultiplier(m, mults, key.symbol)
    ensures Earned(RoundTrips(fills, opening, mults), key)
            == if OpenedFlat(opening, key) && Held(fills, key) == 0 then m * Taken(fills, key) else 0.0
  {
    hide *;
    var trips := RoundTrips(fills, opening, mults);
    MultiplierIs(m, mults, key.symbol);
    CashIdentity(fills, opening, mults, key);
    HeldIsNet(fills, key);
    UnresolvedIsHeld(fills, opening, key);
    EarnedIsPnl(trips, key);
    if Unresolved(fills, opening, key) { NothingEarned(trips, key); }
  }

  // ------------------------------------------------------------- the stored rows

  /** A broker row of the account, day and broker. */
  predicate OfTheDay(r: Row, c: Covered) {
    r.source == Broker && r.owner == Some(c.user) && r.brokerDay == Some(c.day) && r.broker == c.broker
  }

  function DayRows(rows: seq<Row>, c: Covered): seq<Row> {
    if rows == [] then []
    else
      var r := rows[|rows| - 1];
      DayRows(rows[..|rows| - 1], c) + if OfTheDay(r, c) then [r] else []
  }

  function OtherRows(rows: seq<Row>, c: Covered): seq<Row> {
    if rows == [] then []
    else
      var r := rows[|rows| - 1];
      OtherRows(rows[..|rows| - 1], c) + if OfTheDay(r, c) then [] else [r]
  }

  /** A closed row stands for a trip: five and a half hours back to UTC, the ticker of its key, and its
      profit to the nearest hundredth. */
  predicate Stands(r: Row, t: RoundTrip, c: Covered, tickers: Tickers) {
    && r.closed && OfTheDay(r, c) && r.timestamp == t.start - 19800
    && r.ticker == tickers(t.key.symbol, t.key.exchange)
    && IsRounded(r.pnl, 100.0 * t.realizedPnl)
  }

  lemma {:induction false} RowsConcat(a: seq<Row>, b: seq<Row>, c: Covered)
    ensures DayRows(a + b, c) == DayRows(a, c) + DayRows(b, c)
    ensures OtherRows(a + b, c) == OtherRows(a, c) + OtherRows(b, c)
  {
    hide OfTheDay;
    if b == [] {
      assert a + b == a;
    } else {
      assert (a + b)[..|a + b| - 1] == a + b[..|b| - 1];
      RowsConcat(a, b[..|b| - 1], c);
    }
  }

  lemma {:induction false} WithoutIsOther(rows: seq<Row>, c: Covered)
    ensures WithoutDay(rows, c) == OtherRows(rows, c)
    ensures DayRows(WithoutDay(rows, c), c) == [] && OtherRows(WithoutDay(rows, c), c) == WithoutDay(rows, c)
  {
    if rows != [] {
      var init, r := rows[..|rows| - 1], rows[|rows| - 1];
      WithoutIsOther(init, c);
      var kept := WithoutDay(init, c);
      RowsConcat(kept, [r], c);
      assert Replaced(r, c) <==> OfTheDay(r, c);
      hide Replaced, OfTheDay;
      RowsOne(r, c);
      assert kept + [] == kept;
    }
  }

  lemma RowsOne(r: Row, c: Covered)
    ensures DayRows([r], c) == if OfTheDay(r, c) then [r] else []
    ensures OtherRows([r], c) == if OfTheDay(r, c) then [] else [r]
  {
    assert [r][..0] == [];
  }

  lemma {:induction false} AllOfTheDay(docs: seq<Row>, c: Covered)
    requires forall i :: 0 <= i < |docs| ==> OfTheDay(docs[i], c)
    ensures DayRows(docs, c) == docs && OtherRows(docs, c) == []
  {
    hide OfTheDay;
    if docs != [] {
      AllOfTheDay(docs[..|docs| - 1], c);
      assert docs == docs[..|docs| - 1] + [docs[|docs| - 1]];
    }
  }

  lemma DocStands(c: Covered, t: RoundTrip, n: nat, tickers: Tickers)
    ensures Stands(Doc(c, t, n, tickers), t, c, tickers)
  {
  }

  lemma DayRowsAreDocs(s: Store, c: Covered, fills: seq<Fill>, opening: map<Key, int>, mults: map<string, real>,
                       tickers: Tickers)
    requires fills != []
    ensures var s' := Synced(s, c, fills, opening, mults, tickers);
            && DayRows(s'.rows, c) == Docs(c, RoundTrips(fills, opening, mults), tickers)
            && OtherRows(s'.rows, c) == OtherRows(s.rows, c)
  {
    var trips := RoundTrips(fills, opening, mults);
    var docs := Docs(c, trips, tickers);
    forall i | 0 <= i < |docs| ensures OfTheDay(docs[i], c) {
      DocStands(c, trips[i], i, tickers);
    }
    hide RoundTrips, Doc, Stands, OfTheDay, WithoutDay, DayRows, OtherRows, RecordOf;
    AllOfTheDay(docs, c);
    WithoutIsOther(s.rows, c);
    RowsConcat(WithoutDay(s.rows, c), docs, c);
    assert [] + docs == docs && OtherRows(s.rows, c) + [] == OtherRows(s.rows, c);
  }

  /** After a sync the day's broker rows are the rebuilt trips, one row each and in their order, whatever was
      stored for the day before; every other row is as it was. */
  lemma DayRowsAreTrips(s: Store, c: Covered, fills: seq<Fill>, opening: map<Key, int>, mults: map<string, real>,
                        tickers: Tickers)
    requires fills != []
    ensures var s', trips := Synced(s, c, fills, opening, mults, tickers), RoundTrips(fills, opening, mults);
            && |DayRows(s'.rows, c)| == |trips|
            && (forall i :: 0 <= i < |trips| ==> Stands(DayRows(s'.rows, c)[i], trips[i], c, tickers))
            && OtherRows(s'.rows, c) == OtherRows(s.rows, c)
  {
    var trips := RoundTrips(fills, opening, mults);
    DayRowsAreDocs(s, c, fills, opening, mults, tickers);
    forall i | 0 <= i < |trips| ensures Stands(Doc(c, trips[i], i, tickers), trips[i], c, tickers) {
      DocStands(c, trips[i], i, tickers);
    }
    hide RoundTrips, Doc, Stands, Synced, DayRows, OtherRows;
  }

  /** No two broker rows that syncs of any days write have the same id, unless they are the same account, day and
      place in the day's trips. */
  lemma RowIdsDiffer(s: Store, c: Covered, fills: seq<Fill>, s2: Store, c2: Covered, fills2: seq<Fill>,
                     opening: map<Key, int>, mults: map<string, real>, tickers: Tickers, i: nat, j: nat)
    requires fills != [] && fills2 != []
    requires i < |DayRows(Synced(s, c, fills, opening, mults, tickers).rows, c)|
    requires j < |DayRows(Synced(s2, c2, fills2, opening, mults, tickers).rows, c2)|
    ensures var a := DayRows(Synced(s, c, fills, opening, mults, tickers).rows, c)[i];
            var b := DayRows(Synced(s2, c2, fills2, opening, mults, tickers).rows, c2)[j];
            a.id == b.id ==> c.user == c2.user && c.day == c2.day && i == j && a.ticker == b.ticker
  {
    DayRowsAreDocs(s, c, fills, opening, mults, tickers);
    DayRowsAreDocs(s2, c2, fills2, opening, mults, tickers);
    hide Synced, DayRows, RoundTrips;
  }

  // ------------------------------------------------------------- the recorded total

  function EarnedAll(trips: seq<RoundTrip>): real {
    if trips == [] then 0.0 else EarnedAll(trips[..|trips| - 1]) + trips[|trips| - 1].realizedPnl
  }

  /** What a key's fills earn: the multiplier times their cash, once the key opened flat and ended flat. */
  function Earns(fills: seq<Fill>, opening: map<Key, int>, mults: map<string, real>, key: Key): real {
    if OpenedFlat(opening, key) && Held(fills, key) == 0 then
      (if key.symbol in mults && mults[key.symbol] != 0.0 then mults[key.symbol] else 1.0) * Taken(fills, key)
    else 0.0
  }

  function EarnsAll(fills: seq<Fill>, opening: map<Key, int>, mults: map<string, real>, keys: seq<Key>): real {
    if keys == [] then 0.0
    else EarnsAll(fills, opening, mults, keys[..|keys| - 1]) + Earns(fills, opening, mults, keys[|keys| - 1])
  }

  /** These keys, each once, are all the keys traded. */
  predicate Traded(fills: seq<Fill>, keys: seq<Key>) {
    (forall i, j :: 0 <= i < j < |keys| ==> keys[i] != keys[j]) && (forall f :: f in fills ==> f.key in keys)
  }

  function SumEarned(trips: seq<RoundTrip>, keys: seq<Key>): real {
    if keys == [] then 0.0 else SumEarned(trips, keys[..|keys| - 1]) + Earned(trips, keys[|keys| - 1])
  }

  lemma {:induction false} SumEarnedSnoc(trips: seq<RoundTrip>, keys: seq<Key>)
    requires trips != [] && forall i, j :: 0 <= i < j < |keys| ==> keys[i] != keys[j]
    ensures var init, t := trips[..|trips| - 1], trips[|trips| - 1];
            SumEarned(trips, keys) == SumEarned(init, keys) + if t.key in keys then t.realizedPnl else 0.0
    decreases |keys|
  {
    if keys != [] {
      var n := |keys| - 1;
      SumEarnedSnoc(trips, keys[..n]);
      assert keys == keys[..n] + [keys[n]];
    }
  }

  lemma {:induction false} NoTripsNothing(keys: seq<Key>)
    ensures SumEarned([], keys) == 0.0
    decreases |keys|
  {
    if keys != [] { NoTripsNothing(keys[..|keys| - 1]); }
  }

  lemma {:induction false} EarnedByKeys(trips: seq<RoundTrip>, keys: seq<Key>)
    requires forall i, j :: 0 <= i < j < |keys| ==> keys[i] != keys[j]
    requires forall t | t in trips :: t.key in keys
    ensures EarnedAll(trips) == SumEarned(trips, keys)
    decreases |trips|
  {
    hide SumEarned;
    if trips == [] {
      NoTripsNothing(keys);
    } else {
      var n := |trips| - 1;
      EarnedByKeys(trips[..n], keys);
      SumEarnedSnoc(trips, keys);
    }
  }

  /** Rounding row by row is off by at most half a hundredth for each. */
  lemma {:induction false} RoundedTotal(docs: seq<Row>, trips: seq<RoundTrip>)
    requires |docs| == |trips| && forall i :: 0 <= i < |docs| ==> IsRounded(docs[i].pnl, 100.0 * trips[i].realizedPnl)
    ensures -(|docs| as real) <= 2.0 * (Total(docs) as real - 100.0 * EarnedAll(trips)) <= |docs| as real
    decreases |docs|
  {
    if docs != [] {
      var n := |docs| - 1;
      assert IsRounded(docs[n].pnl, 100.0 * trips[n].realizedPnl);
      RoundedTotal(docs[..n], trips[..n]);
      assert |docs| as real == n as real + 1.0;
    }
  }

  lemma KeyEarns(fills: seq<Fill>, opening: map<Key, int>, mults: map<string, real>, key: Key)
    ensures Earned(RoundTrips(fills, opening, mults), key) == Earns(fills, opening, mults, key)
  {
    hide RoundTrips, Held, Taken, OpenedFlat;
    TripsEarnCash(fills, opening, mults, key,
                  if key.symbol in mults && mults[key.symbol] != 0.0 then mults[key.symbol] else 1.0);
  }

  lemma {:induction false} KeysEarn(fills: seq<Fill>, opening: map<Key, int>, mults: map<string, real>, keys: seq<Key>)
    ensures SumEarned(RoundTrips(fills, opening, mults), keys) == EarnsAll(fills, opening, mults, keys)
    decreases |keys|
  {
    hide RoundTrips, Earned, Earns;
    if keys != [] {
      var n := |keys| - 1;
      KeysEarn(fills, opening, mults, keys[..n]);
      KeyEarns(fills, opening, mults, keys[n]);
    }
  }

  lemma {:induction false} KeysAreTraded(fills: seq<Fill>, keys: seq<Key>)
    requires forall f :: f in fills ==> f.key in keys
    ensures forall k :: k in KeysOf(fills) ==> k in keys
  {
    if fills != [] {
      assert fills[|fills| - 1] in fills;
      KeysAreTraded(fills[..|fills| - 1], keys);
    }
  }

  lemma {:induction false} NothingKept(rows: seq<Row>, c: Covered)
    ensures KeptTotal(rows, c, {}) == 0
  {
    if rows != [] { NothingKept(rows[..|rows| - 1], c); }
  }

  /** The recorded total of a sync is what its fills say: over all the keys that opened flat and ended flat,
      multiplier times cash taken in, to half a hundredth for each trip. */
  lemma SyncedIsCash(s: Store, c: Covered, fills: seq<Fill>, opening: map<Key, int>, mults: map<string, real>,
                     tickers: Tickers, keys: seq<Key>)
    requires fills != [] && Traded(fills, keys)
    ensures var record := Synced(s, c, fills, opening, mults, tickers).syncs[c];
            var off := record.syncedTotal as real - 100.0 * EarnsAll(fills, opening, mults, keys);
            && record.trades == |RoundTrips(fills, opening, mults)|
            && -(record.trades as real) <= 2.0 * off <= record.trades as real
  {
    var trips := RoundTrips(fills, opening, mults);
    var docs := Docs(c, trips, tickers);
    forall i | 0 <= i < |docs| ensures IsRounded(docs[i].pnl, 100.0 * trips[i].realizedPnl) {
      DocStands(c, trips[i], i, tickers);
    }
    RoundedTotal(docs, trips);
    KeysEarn(fills, opening, mults, keys);
    KeysAreTraded(fills, keys);
    hide RoundTrips, Doc, WithoutDay, Held, Taken, Earns, EarnsAll, OpenedFlat;
    hide KeptTotal, Total, KeysOf, UnresolvedKeys;
    forall t | t in trips ensures t.key in keys { CashIdentity(fills, opening, mults, t.key); }
    EarnedByKeys(trips, keys);
  }

  /** The record names as unresolved exactly the tickers of the fills whose key opened or ended holding something,
      and its ledger total differs from the synced one only if there are any. */
  lemma UnresolvedAreHeld(s: Store, c: Covered, fills: seq<Fill>, opening: map<Key, int>, mults: map<string, real>,
                          tickers: Tickers)
    requires fills != []
    ensures var record := Synced(s, c, fills, opening, mults, tickers).syncs[c];
            && (forall x :: x in record.unresolved <==>
                  exists i :: 0 <= i < |fills| && tickers(fills[i].key.symbol, fills[i].key.exchange) == x
                              && !(OpenedFlat(opening, fills[i].key) && Held(fills, fills[i].key) == 0))
            && (record.unresolved == {} ==> record.ledgerTotal == record.syncedTotal)
  {
    var keys := KeysOf(fills);
    var record := Synced(s, c, fills, opening, mults, tickers).syncs[c];
    KeysOfFills(fills);
    NothingKept(s.rows, c);
    hide RoundTrips, Docs, WithoutDay, KeptTotal, Total, KeysOf, Held, OpenedFlat, Unresolved;
    forall k ensures Unresolved(fills, opening, k) <==> !(OpenedFlat(opening, k) && Held(fills, k) == 0) {
      UnresolvedIsHeld(fills, opening, k);
    }
    forall x | x in record.unresolved
      ensures exists i :: 0 <= i < |fills| && tickers(fills[i].key.symbol, fills[i].key.exchange) == x
                          && !(OpenedFlat(opening, fills[i].key) && Held(fills, fills[i].key) == 0)
    {
      var k :| k in UnresolvedKeys(fills, opening, keys) && tickers(k.symbol, k.exchange) == x;
      var i :| 0 <= i < |fills| && fills[i].key == k;
    }
    forall i | 0 <= i < |fills| && !(OpenedFlat(opening, fills[i].key) && Held(fills, fills[i].key) == 0)
      ensures tickers(fills[i].key.symbol, fills[i].key.exchange) in record.unresolved
    {
      assert fills[i].key in UnresolvedKeys(fills, opening, keys);
    }
  }

  lemma {:induction false} KeysOfFills(fills: seq<Fill>)
    ensures forall k :: k in KeysOf(fills) <==> exists i :: 0 <= i < |fills| && fills[i].key == k
  {
    if fills != [] {
      var n := |fills| - 1;
      KeysOfFills(fills[..n]);
      forall k ensures k in KeysOf(fills) <==> exists i :: 0 <= i < |fills| && fills[i].key == k {
        if k in KeysOf(fills[..n]) {
          var i :| 0 <= i < n && fills[..n][i].key == k;
          assert fills[i].key == k;
        } else if k in KeysOf(fills) {
          assert fills[n].key == k;
        } else {
          forall i | 0 <= i < |fills| ensures fills[i].key != k {
            if i < n { assert fills[..n][i].key != k; }
          }
        }
      }
    }
  }

  // ------------------------------------------------------------- what is hidden

  /** A reader misses a stored row exactly when it is a closed bot row of an account (the admin's, if it names
      none), UTC day and broker that was synced, and its ticker was resolved. */
  lemma HiddenExactly(rows: seq<Row>, syncs: map<Covered, Record>, r: Row)
    ensures r in Visible(rows, syncs) <==>
              && r in rows
              && var c := Covered(if r.owner == None then "admin" else r.owner.value, r.timestamp / 86400, r.broker);
                 !(r.source == Bot && r.closed && c in syncs && r.ticker !in syncs[c].unresolved)
  {
    VisibleElements(rows, syncs);
  }

  /** For a day on which every key traded opened flat and ended flat nothing is unresolved, and the ledger total
      is what the fills say. */
  lemma LedgerIsCash(s: Store, c: Covered, fills: seq<Fill>, opening: map<Key, int>, mults: map<string, real>,
                     tickers: Tickers, keys: seq<Key>)
    requires fills != [] && Traded(fills, keys)
    requires forall k :: k in keys ==> OpenedFlat(opening, k) && Held(fills, k) == 0
    ensures var record := Synced(s, c, fills, opening, mults, tickers).syncs[c];
            var off := record.ledgerTotal as real - 100.0 * EarnsAll(fills, opening, mults, keys);
            record.unresolved == {} && -(record.trades as real) <= 2.0 * off <= record.trades as real
  {
    SyncedIsCash(s, c, fills, opening, mults, tickers, keys);
    UnresolvedAreHeld(s, c, fills, opening, mults, tickers);
    var record := Synced(s, c, fills, opening, mults, tickers).syncs[c];
    hide Synced, EarnsAll, Held, OpenedFlat;
    assert forall i :: 0 <= i < |fills| ==> fills[i] in fills && fills[i].key in keys;
    assert forall x :: x !in record.unresolved;
  }
}

/** What the rebuilt round trips promise: cash, quantities, and independence from how the broker
    happened to cut its fills. */
module BrokerTrips {
  import opened Common
  import opened BrokerSync

  // --------------------------------------- netting on totals, as a reference

  /** A trip by its totals only. */
  datatype Totals = Totals(
    side: Side, entryQty: int, entryCash: real, exitQty: int, exitCash: real, start: int, end: int,
    entryOrders: seq<string>, exitOrders: seq<string>)

  datatype Ledger = Ledger(pos: int, cur: Option<Totals>, done: seq<Totals>)

  function View(c: Building): Totals {
    Totals(c.side, SumQty(c.entries), SumCash(c.entries), SumQty(c.exits), SumCash(c.exits), c.start, c.end,
           c.entryOrders, c.exitOrders)
  }

  function ViewAll(done: seq<Building>): (r: seq<Totals>)
    ensures |r| == |done| && forall i :: 0 <= i < |r| ==> r[i] == View(done[i])
  {
    seq(|done|, i requires 0 <= i < |done| => View(done[i]))
  }

  function ViewNetting(w: Netting): Ledger {
    Ledger(w.pos, match w.cur case None => None case Some(c) => Some(View(c)), ViewAll(w.done))
  }

  function Opened(n: int, price: real, ts: int, oid: string): Totals {
    Totals(if n > 0 then Buy else Sell, AbsInt(n), Worth(price, AbsInt(n)), 0, 0.0, ts, ts, AddOrder([], oid), [])
  }

  function Extended(t: Totals, n: int, price: real, ts: int, oid: string): Totals {
    t.(entryQty := t.entryQty + AbsInt(n), entryCash := t.entryCash + Worth(price, AbsInt(n)), end := ts,
       entryOrders := AddOrder(t.entryOrders, oid))
  }

  function Reduced(t: Totals, n: int, price: real, ts: int, oid: string): Totals {
    t.(exitQty := t.exitQty + AbsInt(n), exitCash := t.exitCash + Worth(price, AbsInt(n)), end := ts,
       exitOrders := AddOrder(t.exitOrders, oid))
  }

  /** Post a signed quantity in one go: open, extend, reduce, close, or close and reopen. */
  function Post(b: Ledger, n: int, price: real, ts: int, oid: string): Ledger
    requires b.pos != 0 <==> b.cur.Some?
  {
    if n == 0 then b
    else if b.pos == 0 then Ledger(n, Some(Opened(n, price, ts, oid)), b.done)
    else if (b.pos > 0) == (n > 0) then Ledger(b.pos + n, Some(Extended(b.cur.value, n, price, ts, oid)), b.done)
    else if AbsInt(n) < AbsInt(b.pos) then Ledger(b.pos + n, Some(Reduced(b.cur.value, n, price, ts, oid)), b.done)
    else
      var closed := b.done + [Reduced(b.cur.value, b.pos, price, ts, oid)];
      var rest := b.pos + n;
      if rest == 0 then Ledger(0, None, closed) else Ledger(rest, Some(Opened(rest, price, ts, oid)), closed)
  }

  lemma SumAppend(legs: seq<(real, int)>, leg: (real, int))
    ensures SumQty(legs + [leg]) == SumQty(legs) + leg.1
    ensures SumCash(legs + [leg]) == SumCash(legs) + Worth(leg.0, leg.1)
  {
    assert (legs + [leg])[..|legs|] == legs;
  }

  lemma RoundRefines(w: Netting, n: int, f: Fill)
    requires Consistent(w) && n != 0
    ensures var (w', left) := Round(w, n, f);
            var b := ViewNetting(w);
            var crossing := w.pos != 0 && (w.pos > 0) != (n > 0) && AbsInt(n) > AbsInt(w.pos);
            && left == (if crossing then w.pos + n else 0)
            && ViewNetting(w')
               == (if crossing then Ledger(0, None, b.done + [Reduced(b.cur.value, w.pos, f.price, f.ts, f.orderId)])
                   else Post(b, n, f.price, f.ts, f.orderId))
  {
    hide AddOrder, SumQty, SumCash, Worth;
    var c := Current(w, n, f);
    EmptySums();
    SumAppend(c.entries, (f.price, AbsInt(n)));
    SumAppend(c.exits, (f.price, AbsInt(n)));
    SumAppend(c.exits, (f.price, AbsInt(w.pos)));
    var w' := Round(w, n, f).0;
    if w'.pos == 0 {
      var c' := w'.done[|w.done|];
      assert ViewAll(w'.done) == ViewAll(w.done) + [View(c')];
    }
  }

  lemma EmptySums()
    ensures SumQty([]) == 0 && SumCash([]) == 0.0
  {
  }

  /** The inner loop computes the one-shot posting: splitting a fill at flat loses nothing. */
  lemma ConsumeRefines(w: Netting, n: int, f: Fill)
    requires Consistent(w)
    ensures ViewNetting(Consume(w, n, f)) == Post(ViewNetting(w), n, f.price, f.ts, f.orderId)
  {
    hide Round, ViewAll, AddOrder, Reduced, Extended, View;
    if n != 0 {
      RoundRefines(w, n, f);
      var (w', left) := Round(w, n, f);
      assert Consume(w, n, f) == Consume(w', left, f);
      if left != 0 {
        RoundRefines(w', left, f);
        var (w'', left') := Round(w', left, f);
        assert Consume(w', left, f) == Consume(w'', left', f) == w'';
      }
    }
  }

  function PostAll(rows: seq<Fill>): (r: Ledger)
    ensures r.pos != 0 <==> r.cur.Some?
    decreases |rows|
  {
    if rows == [] then Ledger(0, None, [])
    else
      var f := rows[|rows| - 1];
      Post(PostAll(rows[..|rows| - 1]), Signed(f), f.price, f.ts, f.orderId)
  }

  lemma {:induction false} NetRefines(rows: seq<Fill>)
    ensures ViewNetting(Net(rows)) == PostAll(rows)
    decreases |rows|
  {
    hide Consume, Post, View;
    if rows != [] {
      var f := rows[|rows| - 1];
      NetRefines(rows[..|rows| - 1]);
      ConsumeRefines(Net(rows[..|rows| - 1]), Signed(f), f);
    }
  }

  // -------------------------------------------------------- quantity and cash

  function Direction(side: Side): int { if side.Buy? then 1 else -1 }

  predicate Balanced(t: Totals) { t.entryQty == t.exitQty > 0 }

  /** The open trip holds the position, and every finished trip bought what it sold. */
  predicate Accounts(b: Ledger) {
    && (b.pos == 0 <==> b.cur.None?)
    && (b.cur.Some? ==>
          var t := b.cur.value;
          b.pos == Direction(t.side) * (t.entryQty - t.exitQty) && t.entryQty > t.exitQty >= 0)
    && (forall k :: 0 <= k < |b.done| ==> Balanced(b.done[k]))
  }

  function Profit(t: Totals): real { if t.side.Buy? then t.exitCash - t.entryCash else t.entryCash - t.exitCash }

  function ProfitOf(done: seq<Totals>): real {
    if done == [] then 0.0 else ProfitOf(done[..|done| - 1]) + Profit(done[|done| - 1])
  }

  function Flow(b: Ledger): real { ProfitOf(b.done) + (if b.cur.Some? then Profit(b.cur.value) else 0.0) }

  lemma WorthAdds(price: real, m: int, n: int)
    ensures Worth(price, m + n) == Worth(price, m) + Worth(price, n)
    ensures Worth(price, -n) == -Worth(price, n)
  {
  }

  lemma ProfitAppend(done: seq<Totals>, t: Totals)
    ensures ProfitOf(done + [t]) == ProfitOf(done) + Profit(t)
  {
    assert (done + [t])[..|done|] == done;
  }

  /** Posting moves exactly the fill's cash, and keeps the quantities in balance. */
  lemma PostAccounts(b: Ledger, n: int, price: real, ts: int, oid: string)
    requires Accounts(b)
    ensures var b' := Post(b, n, price, ts, oid);
            Accounts(b') && b'.pos == b.pos + n && Flow(b') == Flow(b) - Worth(price, n)
  {
    hide Worth, ProfitOf, AddOrder;
    WorthAdds(price, 0, n);
    WorthAdds(price, b.pos, n);
    WorthAdds(price, 0, b.pos);
    WorthAdds(price, 0, b.pos + n);
    NothingWorth(price);
    if b.cur.Some? { ProfitAppend(b.done, Reduced(b.cur.value, b.pos, price, ts, oid)); }
  }

  lemma NothingWorth(price: real)
    ensures Worth(price, 0) == 0.0
  {
  }

  /** Cash taken in by a sequence of fills: sales less purchases. */
  function Cash(rows: seq<Fill>): real {
    if rows == [] then 0.0
    else
      var f := rows[|rows| - 1];
      Cash(rows[..|rows| - 1]) + (if f.side.Sell? then Worth(f.price, f.qty) else -Worth(f.price, f.qty))
  }

  function NetQty(rows: seq<Fill>): int {
    if rows == [] then 0 else NetQty(rows[..|rows| - 1]) + Signed(rows[|rows| - 1])
  }

  lemma {:induction false} PostAllAccounts(rows: seq<Fill>)
    ensures Accounts(PostAll(rows)) && PostAll(rows).pos == NetQty(rows) && Flow(PostAll(rows)) == Cash(rows)
    decreases |rows|
  {
    hide Post, Worth, Accounts;
    if rows == [] {
      StartAccounts();
    } else {
      var f := rows[|rows| - 1];
      PostAllAccounts(rows[..|rows| - 1]);
      PostAccounts(PostAll(rows[..|rows| - 1]), Signed(f), f.price, f.ts, f.orderId);
      WorthAdds(f.price, 0, f.qty);
    }
  }

  lemma StartAccounts()
    ensures Accounts(Ledger(0, None, [])) && Flow(Ledger(0, None, [])) == 0.0
  {
  }

  // ------------------------------------------------------------- finished trips

  /** A finished trip books its cash, and sells what it bought. */
  lemma TripCash(key: Key, c: Building, mult: real)
    requires Balanced(View(c))
    ensures ToTrip(key, c, mult).realizedPnl == mult * Profit(View(c))
    ensures ToTrip(key, c, mult).quantity == SumQty(c.entries) == SumQty(c.exits) > 0
  {
  }

  function PnlOf(trips: seq<RoundTrip>, key: Key): real {
    if trips == [] then 0.0
    else PnlOf(trips[..|trips| - 1], key) + (var t := trips[|trips| - 1]; if t.key == key then t.realizedPnl else 0.0)
  }

  lemma TripsCash(key: Key, done: seq<Building>, mult: real)
    requires forall k :: 0 <= k < |done| ==> Balanced(View(done[k]))
    ensures PnlOf(ToTrips(key, done, mult), key) == mult * ProfitOf(ViewAll(done))
    ensures forall t | t in ToTrips(key, done, mult) :: t.key == key && t.quantity > 0
  {
    hide View, ViewAll, ToTrips, PnlOf, ProfitOf;
    TripsTimes(key, done, mult);
    TripsOfKey(key, done, mult);
  }

  function Times(m: real, a: real): real { m * a }

  lemma {:induction false} TripsTimes(key: Key, done: seq<Building>, mult: real)
    requires forall k :: 0 <= k < |done| ==> Balanced(View(done[k]))
    ensures PnlOf(ToTrips(key, done, mult), key) == Times(mult, ProfitOf(ViewAll(done)))
    decreases |done|
  {
    hide Times, View, ToTrip, Profit;
    if done == [] {
      TimesAdds(mult, 0.0, 0.0);
    } else {
      hide ToTrips, PnlOf, ProfitOf, ViewAll;
      var n := |done| - 1;
      TripsTimes(key, done[..n], mult);
      LastCash(key, done, mult);
      TripRow(key, done[n], mult);
      TimesAdds(mult, ProfitOf(ViewAll(done[..n])), Profit(View(done[n])));
    }
  }

  lemma {:induction false} TripsOfKey(key: Key, done: seq<Building>, mult: real)
    requires forall k :: 0 <= k < |done| ==> Balanced(View(done[k]))
    ensures forall t | t in ToTrips(key, done, mult) :: t.key == key && t.quantity > 0
    decreases |done|
  {
    hide View, ToTrip;
    if done != [] {
      var n := |done| - 1;
      TripsOfKey(key, done[..n], mult);
      TripRow(key, done[n], mult);
    }
  }

  lemma TripRow(key: Key, c: Building, mult: real)
    requires Balanced(View(c))
    ensures var t := ToTrip(key, c, mult);
            t.key == key && t.quantity > 0 && t.realizedPnl == Times(mult, Profit(View(c)))
  {
  }

  lemma LastCash(key: Key, done: seq<Building>, mult: real)
    requires done != []
    ensures var init, t := done[..|done| - 1], ToTrip(key, done[|done| - 1], mult);
            && ToTrips(key, done, mult) == ToTrips(key, init, mult) + [t]
            && PnlOf(ToTrips(key, done, mult), key)
               == PnlOf(ToTrips(key, init, mult), key) + (if t.key == key then t.realizedPnl else 0.0)
            && ProfitOf(ViewAll(done)) == ProfitOf(ViewAll(init)) + Profit(View(done[|done| - 1]))
  {
    hide ToTrip, Profit, View;
    assert ViewAll(done)[..|done| - 1] == ViewAll(done[..|done| - 1]);
    LastPnl(ToTrips(key, done[..|done| - 1], mult), ToTrip(key, done[|done| - 1], mult), key);
  }

  lemma LastPnl(trips: seq<RoundTrip>, t: RoundTrip, key: Key)
    ensures PnlOf(trips + [t], key) == PnlOf(trips, key) + if t.key == key then t.realizedPnl else 0.0
  {
    assert (trips + [t])[..|trips|] == trips;
  }

  lemma TimesAdds(m: real, a: real, b: real)
    ensures Times(m, a + b) == Times(m, a) + Times(m, b)
  {
  }

  lemma {:induction false} PnlConcat(a: seq<RoundTrip>, b: seq<RoundTrip>, key: Key)
    ensures PnlOf(a + b, key) == PnlOf(a, key) + PnlOf(b, key)
    decreases |b|
  {
    if b == [] {
      assert a + b == a;
    } else {
      assert (a + b)[..|a + b| - 1] == a + b[..|b| - 1];
      PnlConcat(a, b[..|b| - 1], key);
    }
  }

  lemma {:induction false} OtherKeys(trips: seq<RoundTrip>, key: Key)
    requires forall t | t in trips :: t.key != key
    ensures PnlOf(trips, key) == 0.0
    decreases |trips|
  {
    if trips != [] { OtherKeys(trips[..|trips| - 1], key); }
  }

  lemma KeyTripsCash(fills: seq<Fill>, opening: map<Key, int>, mults: map<string, real>, key: Key)
    ensures forall t | t in KeyTrips(fills, opening, mults, key) :: t.key == key && t.quantity > 0
    ensures !Unresolved(fills, opening, key) ==>
              PnlOf(KeyTrips(fills, opening, mults, key), key)
              == Multiplier(mults, key.symbol) * Cash(RowsOf(fills, key))
  {
    hide RowsOf, Net, NetQty, Cash, ToTrips, PnlOf, Multiplier;
    var rows := RowsOf(fills, key);
    DoneCash(rows);
    if !Unresolved(fills, opening, key) {
      TripsCash(key, Net(rows).done, Multiplier(mults, key.symbol));
    }
  }

  /** What is finished when the rows net to nothing is balanced and made of all their cash. */
  lemma DoneCash(rows: seq<Fill>)
    ensures forall k :: 0 <= k < |Net(rows).done| ==> Balanced(View(Net(rows).done[k]))
    ensures Net(rows).pos == 0 ==> ProfitOf(ViewAll(Net(rows).done)) == Cash(rows)
  {
    hide Net, PostAll, Cash, NetQty, Profit, View, ProfitOf, Balanced;
    NetRefines(rows);
    PostAllAccounts(rows);
    assert forall k :: 0 <= k < |Net(rows).done| ==> ViewNetting(Net(rows)).done[k] == View(Net(rows).done[k]);
  }

  predicate Distinct(keys: seq<Key>) { forall i, j :: 0 <= i < j < |keys| ==> keys[i] != keys[j] }

  lemma {:induction false} KeysDistinct(fills: seq<Fill>)
    ensures Distinct(KeysOf(fills))
    ensures forall k :: k in KeysOf(fills) <==> RowsOf(fills, k) != []
    decreases |fills|
  {
    if fills != [] { KeysDistinct(fills[..|fills| - 1]); }
  }

  lemma NoTripsNoPnl(key: Key)
    ensures PnlOf([], key) == 0.0
  {
  }

  lemma {:induction false} AllTripsCash(fills: seq<Fill>, opening: map<Key, int>, mults: map<string, real>,
                                        keys: seq<Key>, key: Key)
    requires Distinct(keys)
    ensures PnlOf(AllTrips(fills, opening, mults, keys), key)
            == if key in keys then PnlOf(KeyTrips(fills, opening, mults, key), key) else 0.0
    ensures forall t | t in AllTrips(fills, opening, mults, keys) ::
              t.key in keys && t in KeyTrips(fills, opening, mults, t.key)
    decreases |keys|
  {
    hide KeyTrips, PnlOf, Unresolved, Multiplier, Cash, RowsOf;
    if keys == [] {
      NoTripsNoPnl(key);
    } else {
      var n := |keys| - 1;
      var init := keys[..n];
      AllTripsCash(fills, opening, mults, init, key);
      KeyTripsCash(fills, opening, mults, keys[n]);
      PnlConcat(AllTrips(fills, opening, mults, init), KeyTrips(fills, opening, mults, keys[n]), key);
      if keys[n] != key { OtherKeys(KeyTrips(fills, opening, mults, keys[n]), key); }
    }
  }

  // ------------------------------------------------------------- the stable sort

  predicate Sorted(trips: seq<RoundTrip>) { forall i, j :: 0 <= i < j < |trips| ==> trips[i].start <= trips[j].start }

  lemma {:induction false} InsertPnl(sorted: seq<RoundTrip>, t: RoundTrip, key: Key)
    ensures PnlOf(Insert(sorted, t), key) == PnlOf(sorted, key) + (if t.key == key then t.realizedPnl else 0.0)
    decreases |sorted|
  {
    if sorted == [] || sorted[|sorted| - 1].start <= t.start {
      assert (sorted + [t])[..|sorted|] == sorted;
    } else {
      var init, last := sorted[..|sorted| - 1], sorted[|sorted| - 1];
      InsertPnl(init, t, key);
      assert (Insert(init, t) + [last])[..|Insert(init, t)|] == Insert(init, t);
    }
  }

  lemma {:induction false} InsertContents(sorted: seq<RoundTrip>, t: RoundTrip)
    ensures multiset(Insert(sorted, t)) == multiset(sorted) + multiset{t}
    decreases |sorted|
  {
    if sorted != [] && sorted[|sorted| - 1].start > t.start {
      InsertContents(sorted[..|sorted| - 1], t);
      assert sorted == sorted[..|sorted| - 1] + [sorted[|sorted| - 1]];
    }
  }

  /** Insertion leaves the list sorted, and below any bound both met. */
  lemma {:induction false} InsertSorted(sorted: seq<RoundTrip>, t: RoundTrip)
    requires Sorted(sorted)
    ensures Sorted(Insert(sorted, t))
    ensures forall bound {:trigger Below(sorted, bound)} ::
              Below(sorted, bound) && t.start <= bound ==> Below(Insert(sorted, t), bound)
    decreases |sorted|
  {
    if sorted != [] && sorted[|sorted| - 1].start > t.start {
      var init, last := sorted[..|sorted| - 1], sorted[|sorted| - 1];
      InsertSorted(init, t);
      assert Below(init, last.start);
      forall bound | Below(sorted, bound) && t.start <= bound ensures Below(Insert(sorted, t), bound) {
        assert Below(init, bound);
      }
    }
  }

  predicate Below(trips: seq<RoundTrip>, bound: int) { forall i :: 0 <= i < |trips| ==> trips[i].start <= bound }

  /** Sorting by start keeps the trips, and so every sum over them. */
  lemma {:induction false} ByStartKeeps(trips: seq<RoundTrip>, key: Key)
    ensures Sorted(ByStart(trips)) && multiset(ByStart(trips)) == multiset(trips)
    ensures PnlOf(ByStart(trips), key) == PnlOf(trips, key)
    decreases |trips|
  {
    if trips != [] {
      var n := |trips| - 1;
      assert trips == trips[..n] + [trips[n]];
      ByStartKeeps(trips[..n], key);
      InsertPnl(ByStart(trips[..n]), trips[n], key);
      InsertContents(ByStart(trips[..n]), trips[n]);
      InsertSorted(ByStart(trips[..n]), trips[n]);
    }
  }

  /** Every finished trip, crossing fills included, took out exactly what it put in. */
  lemma TripsBalance(rows: seq<Fill>)
    ensures forall k :: 0 <= k < |Net(rows).done| ==>
              SumQty(Net(rows).done[k].entries) == SumQty(Net(rows).done[k].exits) > 0
  {
    hide Net, PostAll, SumQty, SumCash, NetQty;
    NetRefines(rows);
    PostAllAccounts(rows);
    forall k | 0 <= k < |Net(rows).done| ensures Balanced(View(Net(rows).done[k])) {
      assert ViewNetting(Net(rows)).done[k] == View(Net(rows).done[k]);
    }
  }

  /** A key is unresolved exactly when it did not open flat or its fills do not net to nothing. */
  lemma UnresolvedExactly(fills: seq<Fill>, opening: map<Key, int>, key: Key)
    ensures key in UnresolvedKeys(fills, opening, KeysOf(fills))
            <==> key in KeysOf(fills) && (Opening(opening, key) != 0 || NetQty(RowsOf(fills, key)) != 0)
  {
    hide RowsOf, KeysOf, PostAll, Net, NetQty, ViewAll;
    NetRefines(RowsOf(fills, key));
    PostAllAccounts(RowsOf(fills, key));
  }

  /** A key that opened flat and whose fills net to nothing. */
  predicate FlatKey(fills: seq<Fill>, opening: map<Key, int>, key: Key) {
    Opening(opening, key) == 0 && NetQty(RowsOf(fills, key)) == 0
  }

  lemma FlatIsResolved(fills: seq<Fill>, opening: map<Key, int>, key: Key)
    ensures FlatKey(fills, opening, key) <==> !Unresolved(fills, opening, key)
  {
    hide RowsOf, PostAll, Net, NetQty, ViewAll;
    NetRefines(RowsOf(fills, key));
    PostAllAccounts(RowsOf(fills, key));
  }

  /** Any fill leaves a position or a finished trip behind. */
  lemma {:induction false} PostAllLeaves(rows: seq<Fill>)
    ensures rows != [] ==> PostAll(rows).pos != 0 || PostAll(rows).done != []
    decreases |rows|
  {
    hide Worth, AddOrder;
    if rows != [] { PostAllLeaves(rows[..|rows| - 1]); }
  }

  /** A flat key that traded has a trip, and a trip's key traded and is flat. */
  lemma FlatKeyTrades(fills: seq<Fill>, opening: map<Key, int>, mults: map<string, real>, key: Key)
    ensures key in KeysOf(fills) && FlatKey(fills, opening, key) <==> KeyTrips(fills, opening, mults, key) != []
  {
    var rows := RowsOf(fills, key);
    hide RowsOf, KeysOf, PostAll, Net, NetQty, ToTrip, ViewAll;
    KeysDistinct(fills);
    FlatIsResolved(fills, opening, key);
    NetRefines(rows);
    PostAllLeaves(rows);
    NothingPosted();
  }

  lemma NothingPosted()
    ensures Net([]).done == []
  {
  }

  /** The cash identity: for every key that is not unresolved, the realized profit of its trips
      is the multiplier times the cash its own fills took in; an unresolved key has no trips;
      the trips come sorted by start, each of a key that traded and of positive quantity. */
  lemma CashIdentity(fills: seq<Fill>, opening: map<Key, int>, mults: map<string, real>, key: Key)
    ensures var trips := RoundTrips(fills, opening, mults);
            && (!Unresolved(fills, opening, key) ==>
                  PnlOf(trips, key) == Multiplier(mults, key.symbol) * Cash(RowsOf(fills, key)))
            && (Unresolved(fills, opening, key) ==> forall t | t in trips :: t.key != key)
            && Sorted(trips)
            && (forall t | t in trips :: t.key in KeysOf(fills) && t.quantity > 0)
  {
    var keys := KeysOf(fills);
    var all := AllTrips(fills, opening, mults, keys);
    KeysDistinct(fills);
    AllTripsCash(fills, opening, mults, keys, key);
    KeyTripsCash(fills, opening, mults, key);
    ByStartKeeps(all, key);
    hide KeyTrips, AllTrips, ByStart, Insert, RowsOf, KeysOf, PnlOf, Unresolved, Sorted;
    var trips := RoundTrips(fills, opening, mults);
    forall t | t in trips ensures t.key in keys && t.quantity > 0 && !Unresolved(fills, opening, t.key) {
      assert t in multiset(trips) && t in multiset(all);
      assert t in all;
      KeyTripsCash(fills, opening, mults, t.key);
      ResolvedTrip(fills, opening, mults, t);
    }
    if key !in keys && !Unresolved(fills, opening, key) { NoRowsNoCash(fills, key, mults); }
  }

  lemma ResolvedTrip(fills: seq<Fill>, opening: map<Key, int>, mults: map<string, real>, t: RoundTrip)
    requires t in KeyTrips(fills, opening, mults, t.key)
    ensures !Unresolved(fills, opening, t.key)
  {
  }

  lemma NoRowsNoCash(fills: seq<Fill>, key: Key, mults: map<string, real>)
    requires key !in KeysOf(fills)
    ensures Multiplier(mults, key.symbol) * Cash(RowsOf(fills, key)) == 0.0
  {
    hide Multiplier, Worth;
    KeysDistinct(fills);
    assert RowsOf(fills, key) == [];
    var m := Multiplier(mults, key.symbol);
    assert m * 0.0 == 0.0;
  }
}

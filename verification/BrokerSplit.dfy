/** The round trips do not depend on how the broker cut its fills, nor on where a flat day is cut. */
module BrokerSplit {
  import opened BrokerSync
  import opened BrokerTrips

  // ------------------------------------------------------------------- splitting

  /** Two adjacent pieces of one fill: same key, side, price, time and order. */
  predicate Pieces(f: Fill, g: Fill, h: Fill) {
    && g == f.(qty := g.qty) && h == f.(qty := h.qty) && g.qty + h.qty == f.qty
  }

  lemma AddOrderTwice(ids: seq<string>, oid: string)
    ensures AddOrder(AddOrder(ids, oid), oid) == AddOrder(ids, oid)
  {
  }

  /** Posting two quantities of one sign at one price is posting their sum. */
  lemma PostSplit(b: Ledger, m: int, n: int, price: real, ts: int, oid: string)
    requires b.pos != 0 <==> b.cur.Some?
    requires m * n > 0 && (m > 0 <==> n > 0)
    ensures Post(Post(b, m, price, ts, oid), n, price, ts, oid) == Post(b, m + n, price, ts, oid)
  {
    if b.pos == 0 || (b.pos > 0) == (m > 0) {
      PostMore(b, m, n, price, ts, oid);
    } else {
      PostAgainst(b, m, n, price, ts, oid);
    }
  }

  /** Two pieces that open or extend the position. */
  lemma PostMore(b: Ledger, m: int, n: int, price: real, ts: int, oid: string)
    requires (b.pos != 0 <==> b.cur.Some?) && m != 0 && n != 0 && (m > 0 <==> n > 0)
    requires b.pos == 0 || (b.pos > 0) == (m > 0)
    ensures Post(Post(b, m, price, ts, oid), n, price, ts, oid) == Post(b, m + n, price, ts, oid)
  {
    hide AddOrder, Worth;
    WorthAdds(price, AbsInt(m), AbsInt(n));
    AddOrderTwice(if b.pos == 0 then [] else b.cur.value.entryOrders, oid);
  }

  /** Two pieces that reduce, close or turn it. */
  lemma PostAgainst(b: Ledger, m: int, n: int, price: real, ts: int, oid: string)
    requires (b.pos != 0 <==> b.cur.Some?) && m != 0 && n != 0 && (m > 0 <==> n > 0)
    requires b.pos != 0 && (b.pos > 0) != (m > 0)
    ensures Post(Post(b, m, price, ts, oid), n, price, ts, oid) == Post(b, m + n, price, ts, oid)
  {
    hide AddOrder, Worth;
    WorthAdds(price, AbsInt(m), AbsInt(n));
    WorthAdds(price, AbsInt(b.pos + m), AbsInt(n));
    WorthAdds(price, AbsInt(m), AbsInt(b.pos + m));
    AddOrderTwice(b.cur.value.exitOrders, oid);
    AddOrderTwice([], oid);
  }

  lemma PostAllSplit(rows: seq<Fill>, f: Fill, g: Fill, h: Fill)
    requires Pieces(f, g, h)
    ensures PostAll(rows + [g, h]) == PostAll(rows + [f])
  {
    hide Post;
    assert (rows + [g, h])[..|rows| + 1] == rows + [g];
    assert (rows + [g])[..|rows|] == rows && (rows + [f])[..|rows|] == rows;
    assert Signed(g) * Signed(h) > 0 by { assert g.qty * h.qty > 0; }
    PostSplit(PostAll(rows), Signed(g), Signed(h), f.price, f.ts, f.orderId);
  }

  lemma {:induction false} PostAllTail(x: seq<Fill>, y: seq<Fill>, tail: seq<Fill>)
    requires PostAll(x) == PostAll(y)
    ensures PostAll(x + tail) == PostAll(y + tail)
    decreases |tail|
  {
    hide Post;
    if tail == [] {
      assert x + tail == x && y + tail == y;
    } else {
      var n := |tail| - 1;
      PostAllTail(x, y, tail[..n]);
      assert (x + tail)[..|x| + n] == x + tail[..n] && (y + tail)[..|y| + n] == y + tail[..n];
    }
  }

  lemma {:induction false} RowsConcat(a: seq<Fill>, b: seq<Fill>, key: Key)
    ensures RowsOf(a + b, key) == RowsOf(a, key) + RowsOf(b, key)
    decreases |b|
  {
    if b == [] {
      assert a + b == a;
    } else {
      var n := |b| - 1;
      assert (a + b)[..|a| + n] == a + b[..n];
      RowsConcat(a, b[..n], key);
    }
  }

  lemma {:induction false} KeysTail(x: seq<Fill>, y: seq<Fill>, tail: seq<Fill>)
    requires KeysOf(x) == KeysOf(y)
    ensures KeysOf(x + tail) == KeysOf(y + tail)
    decreases |tail|
  {
    if tail == [] {
      assert x + tail == x && y + tail == y;
    } else {
      var n := |tail| - 1;
      KeysTail(x, y, tail[..n]);
      assert x + tail == (x + tail[..n]) + [tail[n]] && y + tail == (y + tail[..n]) + [tail[n]];
      KeysSnoc(x + tail[..n], tail[n]);
      KeysSnoc(y + tail[..n], tail[n]);
      hide KeysOf;
    }
  }

  lemma KeysSnoc(fills: seq<Fill>, f: Fill)
    ensures KeysOf(fills + [f]) == if f.key in KeysOf(fills) then KeysOf(fills) else KeysOf(fills) + [f.key]
  {
    assert (fills + [f])[..|fills|] == fills;
  }

  lemma KeysSplit(a: seq<Fill>, f: Fill, g: Fill, h: Fill)
    requires Pieces(f, g, h)
    ensures KeysOf(a + [g, h]) == KeysOf(a + [f])
  {
    assert (a + [g, h])[..|a| + 1] == a + [g];
    assert (a + [g])[..|a|] == a && (a + [f])[..|a|] == a;
  }

  lemma RowsSplit(a: seq<Fill>, f: Fill, g: Fill, h: Fill, b: seq<Fill>, key: Key)
    requires Pieces(f, g, h)
    ensures PostAll(RowsOf(a + [g, h] + b, key)) == PostAll(RowsOf(a + [f] + b, key))
  {
    hide PostAll, RowsOf;
    RowsConcat(a + [g, h], b, key);
    RowsConcat(a, [g, h], key);
    RowsConcat(a + [f], b, key);
    RowsConcat(a, [f], key);
    RowsOfPieces(f, g, h, key);
    var rows := RowsOf(a, key);
    if f.key == key {
      PostAllSplit(rows, f, g, h);
      PostAllTail(rows + [g, h], rows + [f], RowsOf(b, key));
    }
  }

  lemma RowsOfPieces(f: Fill, g: Fill, h: Fill, key: Key)
    requires Pieces(f, g, h)
    ensures RowsOf([g, h], key) == (if f.key == key then [g, h] else [])
    ensures RowsOf([f], key) == (if f.key == key then [f] else [])
  {
    RowsOne(f, key);
    RowsOne(g, key);
    RowsOne(h, key);
    RowsConcat([g], [h], key);
    assert [g] + [h] == [g, h];
  }

  lemma RowsOne(f: Fill, key: Key)
    ensures RowsOf([f], key) == if f.key == key then [f] else []
  {
    assert [f][..0] == [];
  }

  // --------------------------------------------- trips up to their fill count

  /** A trip without the number of fills it was cut into. */
  function Strip(t: RoundTrip): RoundTrip { t.(fills := 0) }

  function StripAll(trips: seq<RoundTrip>): (r: seq<RoundTrip>)
    ensures |r| == |trips| && forall i :: 0 <= i < |r| ==> r[i] == Strip(trips[i])
  {
    seq(|trips|, i requires 0 <= i < |trips| => Strip(trips[i]))
  }

  lemma SameViewSameTrip(key: Key, c: Building, c': Building, mult: real)
    requires View(c) == View(c')
    ensures Strip(ToTrip(key, c, mult)) == Strip(ToTrip(key, c', mult))
  {
  }

  lemma {:induction false} SameViewsSameTrips(key: Key, done: seq<Building>, done': seq<Building>, mult: real)
    requires ViewAll(done) == ViewAll(done')
    ensures StripAll(ToTrips(key, done, mult)) == StripAll(ToTrips(key, done', mult))
    decreases |done|
  {
    hide ToTrip, View;
    assert |done| == |done'|;
    if done != [] {
      var n := |done| - 1;
      assert ViewAll(done[..n]) == ViewAll(done)[..n] == ViewAll(done')[..n] == ViewAll(done'[..n]);
      assert ViewAll(done)[n] == ViewAll(done')[n];
      SameViewsSameTrips(key, done[..n], done'[..n], mult);
      SameViewSameTrip(key, done[n], done'[n], mult);
    }
  }

  lemma KeyTripsSame(fills: seq<Fill>, fills': seq<Fill>, opening: map<Key, int>, mults: map<string, real>, key: Key)
    requires PostAll(RowsOf(fills, key)) == PostAll(RowsOf(fills', key))
    ensures StripAll(KeyTrips(fills, opening, mults, key)) == StripAll(KeyTrips(fills', opening, mults, key))
    ensures Unresolved(fills, opening, key) == Unresolved(fills', opening, key)
  {
    hide PostAll, RowsOf, Net, ToTrips;
    NetRefines(RowsOf(fills, key));
    NetRefines(RowsOf(fills', key));
    SameViewsSameTrips(key, Net(RowsOf(fills, key)).done, Net(RowsOf(fills', key)).done, Multiplier(mults, key.symbol));
  }

  lemma {:induction false} AllTripsSame(fills: seq<Fill>, fills': seq<Fill>, opening: map<Key, int>,
                                        mults: map<string, real>, keys: seq<Key>)
    requires forall key :: PostAll(RowsOf(fills, key)) == PostAll(RowsOf(fills', key))
    ensures StripAll(AllTrips(fills, opening, mults, keys)) == StripAll(AllTrips(fills', opening, mults, keys))
    decreases |keys|
  {
    hide KeyTrips, PostAll, RowsOf, Strip;
    if keys != [] {
      var n := |keys| - 1;
      AllTripsSame(fills, fills', opening, mults, keys[..n]);
      KeyTripsSame(fills, fills', opening, mults, keys[n]);
      StripConcat(AllTrips(fills, opening, mults, keys[..n]), KeyTrips(fills, opening, mults, keys[n]));
      StripConcat(AllTrips(fills', opening, mults, keys[..n]), KeyTrips(fills', opening, mults, keys[n]));
    }
  }

  lemma StripConcat(a: seq<RoundTrip>, b: seq<RoundTrip>)
    ensures StripAll(a + b) == StripAll(a) + StripAll(b)
  {
  }

  lemma {:induction false} InsertStrip(sorted: seq<RoundTrip>, t: RoundTrip)
    ensures StripAll(Insert(sorted, t)) == Insert(StripAll(sorted), Strip(t))
    decreases |sorted|
  {
    if sorted != [] && sorted[|sorted| - 1].start > t.start {
      var n := |sorted| - 1;
      InsertStrip(sorted[..n], t);
      assert StripAll(sorted)[..n] == StripAll(sorted[..n]);
    }
  }

  lemma {:induction false} ByStartStrip(trips: seq<RoundTrip>)
    ensures StripAll(ByStart(trips)) == ByStart(StripAll(trips))
    decreases |trips|
  {
    if trips != [] {
      var n := |trips| - 1;
      ByStartStrip(trips[..n]);
      InsertStrip(ByStart(trips[..n]), trips[n]);
      assert StripAll(trips)[..n] == StripAll(trips[..n]);
    }
  }

  /** Replacing a fill anywhere in the day by two adjacent pieces of it changes no trip's key,
      side, quantity, prices, profit, times or orders, nor which keys are unresolved. */
  lemma SplitInvariance(a: seq<Fill>, f: Fill, g: Fill, h: Fill, b: seq<Fill>, opening: map<Key, int>,
                        mults: map<string, real>)
    requires Pieces(f, g, h)
    ensures var whole, cut := a + [f] + b, a + [g, h] + b;
            && StripAll(RoundTrips(cut, opening, mults)) == StripAll(RoundTrips(whole, opening, mults))
            && UnresolvedKeys(cut, opening, KeysOf(cut)) == UnresolvedKeys(whole, opening, KeysOf(whole))
  {
    hide PostAll, RowsOf, AllTrips, ByStart, KeysOf, Unresolved;
    var whole, cut := a + [f] + b, a + [g, h] + b;
    forall key ensures PostAll(RowsOf(whole, key)) == PostAll(RowsOf(cut, key))
               ensures Unresolved(whole, opening, key) == Unresolved(cut, opening, key)
    {
      RowsSplit(a, f, g, h, b, key);
      KeyTripsSame(whole, cut, opening, mults, key);
    }
    KeysSplit(a, f, g, h);
    KeysTail(a + [g, h], a + [f], b);
    AllTripsSame(whole, cut, opening, mults, KeysOf(whole));
    ByStartStrip(AllTrips(whole, opening, mults, KeysOf(whole)));
    ByStartStrip(AllTrips(cut, opening, mults, KeysOf(cut)));
  }

  // ----------------------------------------------------------------- composition

  function After(done: seq<Building>, w: Netting): Netting { w.(done := done + w.done) }

  lemma RoundAfter(done: seq<Building>, w: Netting, n: int, f: Fill)
    requires Consistent(w) && n != 0
    ensures Round(After(done, w), n, f) == (After(done, Round(w, n, f).0), Round(w, n, f).1)
  {
    hide AddOrder;
    var c := Round(w, n, f).0;
    if c.pos == 0 { assert done + w.done + [c.done[|w.done|]] == done + (w.done + [c.done[|w.done|]]); }
  }

  lemma {:induction false} ConsumeAfter(done: seq<Building>, w: Netting, n: int, f: Fill)
    requires Consistent(w)
    ensures Consume(After(done, w), n, f) == After(done, Consume(w, n, f))
    decreases AbsInt(n)
  {
    hide Round;
    if n != 0 {
      RoundAfter(done, w, n, f);
      var (w', left) := Round(w, n, f);
      ConsumeAfter(done, w', left, f);
    }
  }

  lemma {:induction false} NetAfterFlat(a: seq<Fill>, b: seq<Fill>)
    requires Net(a).pos == 0
    ensures Net(a + b) == After(Net(a).done, Net(b))
    decreases |b|
  {
    hide Consume;
    if b == [] {
      assert a + b == a;
    } else {
      var n := |b| - 1;
      assert (a + b)[..|a| + n] == a + b[..n];
      NetAfterFlat(a, b[..n]);
      ConsumeAfter(Net(a).done, Net(b[..n]), Signed(b[n]), b[n]);
    }
  }

  lemma {:induction false} ToTripsConcat(key: Key, x: seq<Building>, y: seq<Building>, mult: real)
    ensures ToTrips(key, x + y, mult) == ToTrips(key, x, mult) + ToTrips(key, y, mult)
    decreases |y|
  {
    hide ToTrip;
    if y == [] {
      assert x + y == x;
    } else {
      var n := |y| - 1;
      assert (x + y)[..|x| + n] == x + y[..n];
      ToTripsConcat(key, x, y[..n], mult);
    }
  }

  /** Rebuilding two flat-to-flat stretches of one key together gives the trips of the first
      followed by the trips of the second. */
  lemma Composition(a: seq<Fill>, b: seq<Fill>, key: Key, mult: real)
    requires NetQty(a) == 0 && NetQty(b) == 0
    ensures ToTrips(key, Net(a + b).done, mult) == ToTrips(key, Net(a).done, mult) + ToTrips(key, Net(b).done, mult)
    ensures Net(a + b).pos == 0
  {
    hide PostAll, NetQty, ToTrips, Net;
    NetRefines(a);
    PostAllAccounts(a);
    NetRefines(b);
    PostAllAccounts(b);
    NetAfterFlat(a, b);
    ToTripsConcat(key, Net(a).done, Net(b).done, mult);
  }
}

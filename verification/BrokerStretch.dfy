/** One flat-to-flat stretch of a key's fills is one round trip, field by field.  Every list of fills is
    such stretches one after the other once the fills that cross flat are cut there. */
module BrokerStretch {
  import opened Common
  import opened BrokerSync

  function Opposite(side: Side): Side { if side.Buy? then Sell else Buy }

  // ------------------------------------------------------------- one side of the fills

  function QtyOn(rows: seq<Fill>, side: Side): int {
    if rows == [] then 0
    else
      var f := rows[|rows| - 1];
      QtyOn(rows[..|rows| - 1], side) + if f.side == side then f.qty else 0
  }

  function CashOn(rows: seq<Fill>, side: Side): real {
    if rows == [] then 0.0
    else
      var f := rows[|rows| - 1];
      CashOn(rows[..|rows| - 1], side) + if f.side == side then f.price * f.qty as real else 0.0
  }

  /** The order ids of one side, each once, as they first appear; an empty id is none. */
  function OrdersOn(rows: seq<Fill>, side: Side): seq<string> {
    if rows == [] then []
    else
      var f := rows[|rows| - 1];
      var ids := OrdersOn(rows[..|rows| - 1], side);
      ids + if f.side == side && f.orderId != "" && f.orderId !in ids then [f.orderId] else []
  }

  function LegsOn(rows: seq<Fill>, side: Side): seq<(real, int)> {
    if rows == [] then []
    else
      var f := rows[|rows| - 1];
      LegsOn(rows[..|rows| - 1], side) + if f.side == side then [(f.price, f.qty)] else []
  }

  predicate OrderOf(rows: seq<Fill>, side: Side, id: string) {
    id != "" && exists i :: 0 <= i < |rows| && rows[i].side == side && rows[i].orderId == id
  }

  lemma OrderOfSnoc(rows: seq<Fill>, f: Fill, side: Side, id: string)
    ensures OrderOf(rows + [f], side, id)
            <==> OrderOf(rows, side, id) || (id != "" && f.side == side && f.orderId == id)
  {
    var all := rows + [f];
    assert all[|rows|] == f && forall i :: 0 <= i < |rows| ==> all[i] == rows[i];
    if OrderOf(rows, side, id) {
      var i :| 0 <= i < |rows| && rows[i].side == side && rows[i].orderId == id;
      assert all[i].side == side && all[i].orderId == id;
    }
  }

  /** Exactly the non-empty order ids of that side, each once. */
  lemma {:induction false} OrdersAreDistinct(rows: seq<Fill>, side: Side, id: string)
    ensures var ids := OrdersOn(rows, side);
            && (forall i, j :: 0 <= i < j < |ids| ==> ids[i] != ids[j])
            && (id in ids <==> OrderOf(rows, side, id))
  {
    if rows != [] {
      var init, f := rows[..|rows| - 1], rows[|rows| - 1];
      var was := OrdersOn(init, side);
      OrdersAreDistinct(init, side, id);
      assert rows == init + [f] && was + [] == was;
      OrderOfSnoc(init, f, side, id);
      hide OrderOf;
      assert OrdersOn(rows, side) == was || OrdersOn(rows, side) == was + [f.orderId];
    }
  }

  lemma SingleOn(f: Fill, side: Side)
    ensures QtyOn([f], side) == if f.side == side then f.qty else 0
    ensures LegsOn([f], side) == if f.side == side then [(f.price, f.qty)] else []
    ensures OrdersOn([f], side) == if f.side == side && f.orderId != "" then [f.orderId] else []
  {
    assert [f][..0] == [];
    assert QtyOn([], side) == 0 && LegsOn([], side) == [] && OrdersOn([], side) == [];
  }

  lemma {:induction false} LegsTotal(rows: seq<Fill>, side: Side)
    ensures SumQty(LegsOn(rows, side)) == QtyOn(rows, side) && SumCash(LegsOn(rows, side)) == CashOn(rows, side)
  {
    if rows != [] {
      var init, f := rows[..|rows| - 1], rows[|rows| - 1];
      var legs := LegsOn(init, side);
      LegsTotal(init, side);
      if f.side == side {
        assert (legs + [(f.price, f.qty)])[..|legs|] == legs;
      } else {
        assert legs + [] == legs;
      }
    }
  }

  lemma {:induction false} SomethingEntered(rows: seq<Fill>, side: Side)
    ensures QtyOn(rows, side) >= 0
    ensures rows != [] && rows[0].side == side ==> QtyOn(rows, side) > 0
  {
    if rows != [] {
      var init := rows[..|rows| - 1];
      SomethingEntered(init, side);
      if init != [] { assert init[0] == rows[0]; }
    }
  }

  // ------------------------------------------------------------- a stretch

  /** Fills that open on this side, are never flat again until the end, and are flat there. */
  predicate Stretch(rows: seq<Fill>, side: Side) {
    && rows != []
    && (forall k :: 0 < k < |rows| ==> QtyOn(rows[..k], side) > QtyOn(rows[..k], Opposite(side)))
    && QtyOn(rows, side) == QtyOn(rows, Opposite(side))
  }

  /** The trip being built once these fills are in. */
  function Built(rows: seq<Fill>, side: Side): Building
    requires rows != []
  {
    Building(side, LegsOn(rows, side), LegsOn(rows, Opposite(side)), rows[0].ts, rows[|rows| - 1].ts,
             OrdersOn(rows, side), OrdersOn(rows, Opposite(side)), |rows|)
  }

  function Toward(side: Side): int { if side.Buy? then 1 else -1 }

  function NetOn(rows: seq<Fill>, side: Side): int {
    Toward(side) * (QtyOn(rows, side) - QtyOn(rows, Opposite(side)))
  }

  /** One more fill that does not pass flat. */
  lemma OneFill(w: Netting, f: Fill)
    requires Consistent(w) && (w.pos != 0 && (w.pos > 0) != (Signed(f) > 0) ==> AbsInt(Signed(f)) <= AbsInt(w.pos))
    ensures Consume(w, Signed(f), f) == Round(w, Signed(f), f).0
  {
    var (w', left) := Round(w, Signed(f), f);
    assert left == 0;
    assert Consume(w', 0, f) == w';
    hide Round;
  }

  /** The trip being built, one fill later. */
  function Grown(c: Building, f: Fill): Building {
    var c' := c.(fills := c.fills + 1, end := f.ts);
    if f.side == c.side then
      c'.(entries := c.entries + [(f.price, f.qty)], entryOrders := AddOrder(c.entryOrders, f.orderId))
    else
      c'.(exits := c.exits + [(f.price, f.qty)], exitOrders := AddOrder(c.exitOrders, f.orderId))
  }

  lemma BuiltGrows(was: seq<Fill>, f: Fill, side: Side)
    requires was != []
    ensures Built(was + [f], side) == Grown(Built(was, side), f)
    ensures NetOn(was + [f], side) == NetOn(was, side) + Signed(f)
  {
    var now := was + [f];
    assert now[..|now| - 1] == was;
    Unchanged(LegsOn(was, side), OrdersOn(was, side));
    Unchanged(LegsOn(was, Opposite(side)), OrdersOn(was, Opposite(side)));
  }

  lemma Unchanged(legs: seq<(real, int)>, ids: seq<string>)
    ensures legs + [] == legs && ids + [] == ids
  {
  }

  lemma BuiltFirst(f: Fill)
    ensures Built([f], f.side) == Grown(Building(f.side, [], [], f.ts, f.ts, [], [], 0), f)
    ensures NetOn([f], f.side) == Signed(f)
  {
    SingleOn(f, Buy);
    SingleOn(f, Sell);
    assert [] + [(f.price, f.qty)] == [(f.price, f.qty)] && [] + [f.orderId] == [f.orderId];
  }

  function Holder(w: Netting, f: Fill): Building
    requires Consistent(w)
  {
    if w.pos == 0 then Building(f.side, [], [], f.ts, f.ts, [], [], 0) else w.cur.value
  }

  lemma RoundGrows(w: Netting, f: Fill)
    requires Consistent(w)
    requires w.pos != 0 ==> (w.pos > 0 <==> w.cur.value.side.Buy?)
    requires w.pos != 0 && f.side != w.cur.value.side ==> f.qty <= AbsInt(w.pos)
    ensures Round(w, Signed(f), f).0
            == if w.pos + Signed(f) == 0 then Netting(0, None, w.done + [Grown(Holder(w, f), f)])
               else Netting(w.pos + Signed(f), Some(Grown(Holder(w, f), f)), w.done)
  {
    hide AddOrder;
    if w.pos == 0 {
    } else if f.side == w.cur.value.side {
    } else {
      assert Signed(f) == -w.pos || AbsInt(Signed(f)) < AbsInt(w.pos);
    }
  }

  /** A fill that opens a trip, or adds to it, or takes out less than it holds, or all of it. */
  lemma FillGrows(w: Netting, f: Fill)
    requires Consistent(w)
    requires w.pos != 0 ==> (w.pos > 0 <==> w.cur.value.side.Buy?)
    requires w.pos != 0 && f.side != w.cur.value.side ==> f.qty <= AbsInt(w.pos)
    ensures Consume(w, Signed(f), f)
            == if w.pos + Signed(f) == 0 then Netting(0, None, w.done + [Grown(Holder(w, f), f)])
               else Netting(w.pos + Signed(f), Some(Grown(Holder(w, f), f)), w.done)
  {
    hide Consume, Round, Grown, Holder;
    OneFill(w, f);
    RoundGrows(w, f);
  }

  lemma {:induction false} NetOfPrefix(rows: seq<Fill>, side: Side, k: nat)
    requires Stretch(rows, side) && 0 < k < |rows|
    ensures Net(rows[..k]) == Netting(NetOn(rows[..k], side), Some(Built(rows[..k], side)), [])
    ensures rows[0].side == side
    decreases k
  {
    var now, was, f := rows[..k], rows[..k - 1], rows[k - 1];
    assert now == was + [f] && now[..|now| - 1] == was;
    hide QtyOn, Built, Grown, Consume;
    if k == 1 {
      FirstSide(f, side);
      BuiltFirst(f);
      assert was == [] && now == [f];
      FillGrows(FLAT, f);
    } else {
      NetOfPrefix(rows, side, k - 1);
      BuiltGrows(was, f, side);
      BuiltSide(was, side);
      FillGrows(Net(was), f);
    }
  }

  lemma FirstSide(f: Fill, side: Side)
    ensures QtyOn([f], side) > QtyOn([f], Opposite(side)) <==> f.side == side
  {
    assert [f][..0] == [];
  }

  lemma BuiltSide(rows: seq<Fill>, side: Side)
    requires rows != []
    ensures Built(rows, side).side == side
  {
  }

  /** A whole stretch leaves one finished trip and nothing else. */
  lemma NetOfStretch(rows: seq<Fill>, side: Side)
    requires Stretch(rows, side)
    ensures Net(rows) == Netting(0, None, [Built(rows, side)]) && rows[0].side == side
  {
    var n := |rows|;
    var was, f := rows[..n - 1], rows[n - 1];
    assert rows == was + [f];
    hide *;
    StretchIs(rows, side);
    if n == 1 {
      assert rows == [f];
      FlatAlone(f, side);
    } else {
      NetOfPrefix(rows, side, n - 1);
      BuiltGrows(was, f, side);
      BuiltSide(was, side);
      LastCloses(rows, side);
      PrefixHolds(rows, side, n - 1);
      ClosingFill(NetOn(was, side), Built(was, side), f);
      NetSnoc(was, f);
    }
  }

  lemma PrefixHolds(rows: seq<Fill>, side: Side, k: nat)
    requires Stretch(rows, side) && 0 < k < |rows|
    ensures NetOn(rows[..k], side) != 0 && (NetOn(rows[..k], side) > 0 <==> side.Buy?)
  {
  }

  /** The fill that closes what is held. */
  lemma ClosingFill(pos: int, b: Building, f: Fill)
    requires pos != 0 && (pos > 0 <==> b.side.Buy?) && f.side != b.side && pos + Signed(f) == 0
    ensures Consume(Netting(pos, Some(b), []), Signed(f), f) == Netting(0, None, [Grown(b, f)])
  {
    hide Consume, Grown;
    FillGrows(Netting(pos, Some(b), []), f);
  }

  lemma StretchIs(rows: seq<Fill>, side: Side)
    requires Stretch(rows, side)
    ensures rows != [] && QtyOn(rows, side) == QtyOn(rows, Opposite(side))
  {
  }

  lemma NetSnoc(was: seq<Fill>, f: Fill)
    ensures Net(was + [f]) == Consume(Net(was), Signed(f), f)
  {
    hide Consume;
    assert (was + [f])[..|was|] == was;
  }

  /** One fill alone is not flat. */
  lemma FlatAlone(f: Fill, side: Side)
    ensures QtyOn([f], side) != QtyOn([f], Opposite(side))
  {
    assert [f][..0] == [];
  }

  lemma LastCloses(rows: seq<Fill>, side: Side)
    requires Stretch(rows, side) && |rows| > 1
    ensures NetOn(rows, side) == 0
    ensures var was, f := rows[..|rows| - 1], rows[|rows| - 1]; f.side != side && f.qty <= AbsInt(NetOn(was, side))
  {
  }

  lemma FirstIsEntry(rows: seq<Fill>, side: Side)
    requires Stretch(rows, side)
    ensures QtyOn(rows, side) == QtyOn(rows, Opposite(side)) > 0
  {
    hide QtyOn, Net, Built;
    NetOfStretch(rows, side);
    SomethingEntered(rows, side);
  }

  lemma PriceTimesQty(legs: seq<(real, int)>)
    requires SumQty(legs) > 0
    ensures Vwap(legs) * SumQty(legs) as real == SumCash(legs)
  {
    hide SumQty, SumCash;
  }

  /** What one stretch's trip says: its side, the quantity that came in, prices that times the quantity
      are the cash of the fills on either side, the profit as the cash taken in times the multiplier, the
      times of the first and the last fill, and the order ids of either side. */
  lemma StretchIsTrip(key: Key, rows: seq<Fill>, side: Side, mult: real)
    requires rows != [] && Stretch(rows, side)
    ensures var trips := ToTrips(key, Net(rows).done, mult);
            |trips| == 1 &&
            var t := trips[0];
            && t.key == key && t.side == side && t.multiplier == mult && t.fills == |rows|
            && t.quantity == QtyOn(rows, side) == QtyOn(rows, Opposite(side)) > 0
            && t.entryPrice * t.quantity as real == CashOn(rows, side)
            && t.exitPrice * t.quantity as real == CashOn(rows, Opposite(side))
            && t.realizedPnl == mult * (CashOn(rows, Sell) - CashOn(rows, Buy))
            && t.start == rows[0].ts && t.end == rows[|rows| - 1].ts
            && t.entryOrderIds == OrdersOn(rows, side) && t.exitOrderIds == OrdersOn(rows, Opposite(side))
  {
    hide *;
    var c := Built(rows, side);
    NetOfStretch(rows, side);
    FirstIsEntry(rows, side);
    LegsTotal(rows, side);
    LegsTotal(rows, Opposite(side));
    BuiltParts(rows, side);
    TripOf(key, c, mult);
    OneTrip(key, c, mult);
    SignedCash(rows, side);
  }

  lemma BuiltParts(rows: seq<Fill>, side: Side)
    requires rows != []
    ensures var c := Built(rows, side);
            && c.side == side && c.entries == LegsOn(rows, side) && c.exits == LegsOn(rows, Opposite(side))
            && c.start == rows[0].ts && c.end == rows[|rows| - 1].ts && c.fills == |rows|
            && c.entryOrders == OrdersOn(rows, side) && c.exitOrders == OrdersOn(rows, Opposite(side))
  {
  }

  lemma SignedCash(rows: seq<Fill>, side: Side)
    ensures (if side.Buy? then 1.0 else -1.0) * (CashOn(rows, Opposite(side)) - CashOn(rows, side))
            == CashOn(rows, Sell) - CashOn(rows, Buy)
  {
    hide CashOn;
  }

  lemma OneTrip(key: Key, c: Building, mult: real)
    ensures ToTrips(key, [c], mult) == [ToTrip(key, c, mult)]
  {
    assert [c][..0] == [];
  }

  /** A balanced building's trip. */
  lemma TripOf(key: Key, c: Building, mult: real)
    requires SumQty(c.entries) == SumQty(c.exits) > 0
    ensures var t := ToTrip(key, c, mult);
            && t.key == key && t.side == c.side && t.multiplier == mult && t.fills == c.fills
            && t.quantity == SumQty(c.entries)
            && t.entryPrice * t.quantity as real == SumCash(c.entries)
            && t.exitPrice * t.quantity as real == SumCash(c.exits)
            && t.realizedPnl == mult * ((if c.side.Buy? then 1.0 else -1.0) * (SumCash(c.exits) - SumCash(c.entries)))
            && t.start == c.start && t.end == c.end
            && t.entryOrderIds == c.entryOrders && t.exitOrderIds == c.exitOrders
  {
    PriceTimesQty(c.entries);
    PriceTimesQty(c.exits);
    hide SumQty, SumCash, Vwap;
    SignedProfit(Vwap(c.entries), Vwap(c.exits), SumQty(c.entries) as real, if c.side.Buy? then 1.0 else -1.0, mult);
  }

  lemma SignedProfit(entry: real, exit: real, qty: real, dir: real, mult: real)
    ensures (exit - entry) * qty * dir * mult == mult * (dir * (exit * qty - entry * qty))
  {
    assert (exit - entry) * qty == exit * qty - entry * qty;
  }
}

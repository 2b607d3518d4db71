/** A day's broker fills netted into flat-to-flat round trips (broker_sync.py).

    `RebuildRoundTrips` is the source's nested loop over keys and fills; `Consume` specifies its
    inner loop and `RoundTrips` the whole result. */
module BrokerSync {
  import opened Common

  const DAY := 86400

  datatype Key = Key(symbol: string, exchange: string, product: string)

  /** A normalised fill: dropped by normalize_fills unless its price and quantity are positive. */
  datatype RawFill = Fill(key: Key, side: Side, qty: int, price: real, ts: int, orderId: string)

  type Fill = f: RawFill | f.qty > 0 && f.price > 0.0
    witness RawFill.Fill(Key("", "", ""), Buy, 1, 1.0, 0, "")

  /** A trip being built: legs as (price, quantity). */
  datatype Building = Building(
    side: Side,
    entries: seq<(real, int)>,
    exits: seq<(real, int)>,
    start: int,
    end: int,
    entryOrders: seq<string>,
    exitOrders: seq<string>,
    fills: nat)

  datatype RoundTrip = RoundTrip(
    key: Key, side: Side, quantity: int, entryPrice: real, exitPrice: real, multiplier: real,
    realizedPnl: real, start: int, end: int, entryOrderIds: seq<string>, exitOrderIds: seq<string>, fills: nat)

  // ----------------------------------------------------------- specification

  function SumQty(legs: seq<(real, int)>): int {
    if legs == [] then 0 else SumQty(legs[..|legs| - 1]) + legs[|legs| - 1].1
  }

  function Worth(price: real, qty: int): real { price * qty as real }

  function SumCash(legs: seq<(real, int)>): real {
    if legs == [] then 0.0
    else SumCash(legs[..|legs| - 1]) + Worth(legs[|legs| - 1].0, legs[|legs| - 1].1)
  }

  function Vwap(legs: seq<(real, int)>): real {
    if SumQty(legs) != 0 then SumCash(legs) / SumQty(legs) as real else 0.0
  }

  function AddOrder(ids: seq<string>, oid: string): seq<string> {
    if oid != "" && oid !in ids then ids + [oid] else ids
  }

  function AbsInt(n: int): nat { if n >= 0 then n else -n }

  function Signed(f: Fill): int { if f.side.Buy? then f.qty else -f.qty }

  datatype Netting = Netting(pos: int, cur: Option<Building>, done: seq<Building>)

  const FLAT := Netting(0, None, [])

  predicate Consistent(w: Netting) { w.pos != 0 <==> w.cur.Some? }

  /** The trip a fill is booked into: a new one when flat. */
  function Current(w: Netting, remaining: int, f: Fill): Building
    requires Consistent(w)
  {
    if w.pos == 0 then Building(if remaining > 0 then Buy else Sell, [], [], f.ts, f.ts, [], [], 0) else w.cur.value
  }

  /** One round of the inner loop: what is left of the fill, and the netting after it. */
  function Round(w: Netting, remaining: int, f: Fill): (Netting, int)
    requires Consistent(w) && remaining != 0
    ensures Consistent(Round(w, remaining, f).0)
    ensures AbsInt(Round(w, remaining, f).1) < AbsInt(remaining)
  {
    var c := Current(w, remaining, f);
    var (c', pos, left) :=
      if w.pos == 0 || (w.pos > 0) == (remaining > 0) then
        (c.(entries := c.entries + [(f.price, AbsInt(remaining))], entryOrders := AddOrder(c.entryOrders, f.orderId)),
         w.pos + remaining, 0)
      else
        var close := if AbsInt(remaining) <= AbsInt(w.pos) then AbsInt(remaining) else AbsInt(w.pos);
        var step := if remaining > 0 then close else -close;
        (c.(exits := c.exits + [(f.price, close)], exitOrders := AddOrder(c.exitOrders, f.orderId)),
         w.pos + step, remaining - step);
    var c'' := c'.(fills := c'.fills + 1, end := f.ts);
    (if pos == 0 then Netting(0, None, w.done + [c'']) else Netting(pos, Some(c''), w.done), left)
  }

  function Consume(w: Netting, remaining: int, f: Fill): (r: Netting)
    requires Consistent(w)
    ensures Consistent(r)
    decreases AbsInt(remaining)
  {
    if remaining == 0 then w
    else var (w', left) := Round(w, remaining, f); Consume(w', left, f)
  }

  /** The rows of one key, netted in order from flat. */
  function Net(rows: seq<Fill>): (r: Netting)
    ensures Consistent(r)
    decreases |rows|
  {
    if rows == [] then FLAT
    else
      var f := rows[|rows| - 1];
      Consume(Net(rows[..|rows| - 1]), Signed(f), f)
  }

  function RowsOf(fills: seq<Fill>, key: Key): seq<Fill> {
    if fills == [] then []
    else
      var f := fills[|fills| - 1];
      RowsOf(fills[..|fills| - 1], key) + (if f.key == key then [f] else [])
  }

  /** The keys in order of first appearance. */
  function KeysOf(fills: seq<Fill>): seq<Key> {
    if fills == [] then []
    else
      var f := fills[|fills| - 1];
      var init := KeysOf(fills[..|fills| - 1]);
      if f.key in init then init else init + [f.key]
  }

  function Opening(opening: map<Key, int>, key: Key): int { if key in opening then opening[key] else 0 }

  function Multiplier(mults: map<string, real>, symbol: string): real {
    if symbol in mults && mults[symbol] != 0.0 then mults[symbol] else 1.0
  }

  predicate Unresolved(fills: seq<Fill>, opening: map<Key, int>, key: Key) {
    Opening(opening, key) != 0 || Net(RowsOf(fills, key)).pos != 0
  }

  function ToTrip(key: Key, c: Building, mult: real): RoundTrip {
    var qty := SumQty(c.entries);
    var entry, exit := Vwap(c.entries), Vwap(c.exits);
    RoundTrip(key, c.side, qty, entry, exit, mult,
              (exit - entry) * qty as real * (if c.side.Buy? then 1.0 else -1.0) * mult,
              c.start, c.end, c.entryOrders, c.exitOrders, c.fills)
  }

  function ToTrips(key: Key, done: seq<Building>, mult: real): seq<RoundTrip> {
    if done == [] then [] else ToTrips(key, done[..|done| - 1], mult) + [ToTrip(key, done[|done| - 1], mult)]
  }

  function KeyTrips(fills: seq<Fill>, opening: map<Key, int>, mults: map<string, real>, key: Key): seq<RoundTrip> {
    if Unresolved(fills, opening, key) then []
    else ToTrips(key, Net(RowsOf(fills, key)).done, Multiplier(mults, key.symbol))
  }

  function AllTrips(fills: seq<Fill>, opening: map<Key, int>, mults: map<string, real>, keys: seq<Key>): seq<RoundTrip>
  {
    if keys == [] then []
    else AllTrips(fills, opening, mults, keys[..|keys| - 1]) + KeyTrips(fills, opening, mults, keys[|keys| - 1])
  }

  /** Insertion after every trip that starts no later: the stable order by start. */
  function Insert(sorted: seq<RoundTrip>, t: RoundTrip): seq<RoundTrip> {
    if sorted == [] || sorted[|sorted| - 1].start <= t.start then sorted + [t]
    else Insert(sorted[..|sorted| - 1], t) + [sorted[|sorted| - 1]]
  }

  function ByStart(trips: seq<RoundTrip>): seq<RoundTrip> {
    if trips == [] then [] else Insert(ByStart(trips[..|trips| - 1]), trips[|trips| - 1])
  }

  function RoundTrips(fills: seq<Fill>, opening: map<Key, int>, mults: map<string, real>): seq<RoundTrip> {
    ByStart(AllTrips(fills, opening, mults, KeysOf(fills)))
  }

  function UnresolvedKeys(fills: seq<Fill>, opening: map<Key, int>, keys: seq<Key>): set<Key> {
    set k | k in keys && Unresolved(fills, opening, k)
  }

  // ------------------------------------------------------------ the loops

  method SortByStart(trips: seq<RoundTrip>) returns (sorted: seq<RoundTrip>)
    ensures sorted == ByStart(trips)
  {
    sorted := [];
    for i := 0 to |trips|
      invariant sorted == ByStart(trips[..i])
    {
      assert trips[..i + 1][..i] == trips[..i];
      sorted := Insert(sorted, trips[i]);
    }
    assert trips[..|trips|] == trips;
  }

  lemma NoRows()
    ensures KeysOf([]) == [] && forall k :: RowsOf([], k) == []
  {
  }

  lemma RowsSnoc(fills: seq<Fill>, i: nat)
    requires i < |fills|
    ensures var f := fills[i];
            && KeysOf(fills[..i + 1])
               == (if f.key in KeysOf(fills[..i]) then KeysOf(fills[..i]) else KeysOf(fills[..i]) + [f.key])
            && RowsOf(fills[..i + 1], f.key) == RowsOf(fills[..i], f.key) + [f]
            && (forall k :: k != f.key ==> RowsOf(fills[..i + 1], k) == RowsOf(fills[..i], k))
  {
    assert fills[..i + 1][..i] == fills[..i];
  }

  method GroupByKey(fills: seq<Fill>) returns (keys: seq<Key>, byKey: map<Key, seq<Fill>>)
    ensures keys == KeysOf(fills)
    ensures forall k :: k in byKey <==> k in keys
    ensures forall k :: k in byKey ==> byKey[k] == RowsOf(fills, k)
  {
    hide *;
    keys, byKey := [], map[];
    assert fills[..0] == [];
    NoRows();
    for i := 0 to |fills|
      invariant keys == KeysOf(fills[..i])
      invariant forall k :: k in byKey <==> k in keys
      invariant forall k :: k in byKey ==> byKey[k] == RowsOf(fills[..i], k)
      invariant forall k :: k !in byKey ==> RowsOf(fills[..i], k) == []
    {
      var f := fills[i];
      RowsSnoc(fills, i);
      if f.key !in byKey {
        keys := keys + [f.key];
        byKey := byKey[f.key := []];
      }
      byKey := byKey[f.key := byKey[f.key] + [f]];
    }
    assert fills[..|fills|] == fills;
  }

  /** The inner loop: one fill, split where it crosses flat. */
  method NetFill(w: Netting, f: Fill) returns (r: Netting)
    requires Consistent(w)
    ensures r == Consume(w, Signed(f), f)
  {
    hide AddOrder, Consume;
    var pos, cur, done := w.pos, w.cur, w.done;
    var remaining := if f.side.Buy? then f.qty else -f.qty;
    while remaining != 0
      invariant Consistent(Netting(pos, cur, done))
      invariant Consume(Netting(pos, cur, done), remaining, f) == Consume(w, Signed(f), f)
      decreases AbsInt(remaining)
    {
      ConsumeRound(Netting(pos, cur, done), remaining, f);
      if pos == 0 {
        cur := Some(Building(if remaining > 0 then Buy else Sell, [], [], f.ts, f.ts, [], [], 0));
      }
      var c := cur.value;
      if pos == 0 || (pos > 0) == (remaining > 0) {
        c := c.(entries := c.entries + [(f.price, AbsInt(remaining))],
                entryOrders := AddOrder(c.entryOrders, f.orderId));
        pos := pos + remaining;
        remaining := 0;
      } else {
        var close := if AbsInt(remaining) <= AbsInt(pos) then AbsInt(remaining) else AbsInt(pos);
        var step := if remaining > 0 then close else -close;
        c := c.(exits := c.exits + [(f.price, close)], exitOrders := AddOrder(c.exitOrders, f.orderId));
        pos := pos + step;
        remaining := remaining - step;
      }
      c := c.(fills := c.fills + 1, end := f.ts);
      cur := Some(c);
      if pos == 0 {
        done := done + [c];
        cur := None;
      }
    }
    r := Netting(pos, cur, done);
    ConsumeNothing(r, f);
  }

  lemma ConsumeRound(w: Netting, remaining: int, f: Fill)
    requires Consistent(w) && remaining != 0
    ensures Consume(w, remaining, f) == Consume(Round(w, remaining, f).0, Round(w, remaining, f).1, f)
  {
  }

  lemma ConsumeNothing(w: Netting, f: Fill)
    requires Consistent(w)
    ensures Consume(w, 0, f) == w
  {
  }

  method NetRows(rows: seq<Fill>) returns (w: Netting)
    ensures w == Net(rows)
  {
    hide Consume;
    w := FLAT;
    for i := 0 to |rows|
      invariant w == Net(rows[..i])
    {
      assert rows[..i + 1][..i] == rows[..i];
      w := NetFill(w, rows[i]);
    }
    assert rows[..|rows|] == rows;
  }

  method BookTrips(trips: seq<RoundTrip>, key: Key, done: seq<Building>, mult: real) returns (all: seq<RoundTrip>)
    ensures all == trips + ToTrips(key, done, mult)
  {
    hide ToTrip;
    all := trips;
    for j := 0 to |done|
      invariant all == trips + ToTrips(key, done[..j], mult)
    {
      assert done[..j + 1][..j] == done[..j];
      all := all + [ToTrip(key, done[j], mult)];
    }
    assert done[..|done|] == done;
  }

  lemma NoKeys(fills: seq<Fill>, opening: map<Key, int>, mults: map<string, real>)
    ensures AllTrips(fills, opening, mults, []) == [] && UnresolvedKeys(fills, opening, []) == {}
  {
  }

  lemma KeyAdds(fills: seq<Fill>, opening: map<Key, int>, mults: map<string, real>, keys: seq<Key>, i: nat)
    requires i < |keys|
    ensures AllTrips(fills, opening, mults, keys[..i + 1])
            == AllTrips(fills, opening, mults, keys[..i]) + KeyTrips(fills, opening, mults, keys[i])
    ensures UnresolvedKeys(fills, opening, keys[..i + 1])
            == UnresolvedKeys(fills, opening, keys[..i]) + if Unresolved(fills, opening, keys[i]) then {keys[i]} else {}
  {
    hide KeyTrips, Unresolved;
    assert keys[..i + 1][..i] == keys[..i];
    assert forall k :: k in keys[..i + 1] <==> k in keys[..i] || k == keys[i];
  }

  method RebuildRoundTrips(fills: seq<Fill>, opening: map<Key, int>, mults: map<string, real>)
    returns (trips: seq<RoundTrip>, unresolved: set<Key>)
    ensures trips == RoundTrips(fills, opening, mults)
    ensures unresolved == UnresolvedKeys(fills, opening, KeysOf(fills))
  {
    var keys, byKey := GroupByKey(fills);
    trips, unresolved := [], {};
    assert keys[..0] == [];
    hide Net, RowsOf, KeysOf, ToTrips, Multiplier, AllTrips, UnresolvedKeys;
    NoKeys(fills, opening, mults);
    for i := 0 to |keys|
      invariant trips == AllTrips(fills, opening, mults, keys[..i])
      invariant unresolved == UnresolvedKeys(fills, opening, keys[..i])
    {
      KeyAdds(fills, opening, mults, keys, i);
      var key := keys[i];
      if Opening(opening, key) != 0 {
        unresolved := unresolved + {key};
      } else {
        var w := NetRows(byKey[key]);
        if w.pos != 0 {
          unresolved := unresolved + {key};
        } else {
          trips := BookTrips(trips, key, w.done, Multiplier(mults, key.symbol));
        }
      }
    }
    assert keys[..|keys|] == keys;
    trips := SortByStart(trips);
  }
}

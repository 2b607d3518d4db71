/** Reading a broker's day (broker_sync.py): its trade rows become fills in a stable time order,
    its positions become opening quantities and multipliers. */
module BrokerInput {
  import opened Common
  import opened Money
  import opened BrokerSync

  /** A trade row; None where the field is missing or cannot be read. */
  datatype TradeRow = TradeRow(
    key: Key, side: Option<Side>, qty: Option<int>, price: Option<real>, ts: Option<int>,
    orderId: string, tradeId: string)

  /** A kept row: the fill, and the id that breaks ties of time. */
  datatype Normal = Normal(fill: Fill, tradeId: string)

  predicate Usable(r: TradeRow, day: int) {
    && r.ts.Some? && r.ts.value / DAY == day && r.side.Some?
    && r.price.Some? && r.price.value > 0.0 && r.qty.Some? && r.qty.value > 0
  }

  function ToNormal(r: TradeRow, day: int): Normal
    requires Usable(r, day)
  {
    Normal(RawFill.Fill(r.key, r.side.value, r.qty.value, r.price.value, r.ts.value, r.orderId), r.tradeId)
  }

  function Kept(raw: seq<TradeRow>, day: int): seq<Normal> {
    if raw == [] then []
    else
      var r := raw[|raw| - 1];
      Kept(raw[..|raw| - 1], day) + if Usable(r, day) then [ToNormal(r, day)] else []
  }

  // ------------------------------------------------------------- the order

  /** Strings compare character by character, a prefix first. */
  predicate TextLe(a: string, b: string) {
    a == [] || (b != [] && (a[0] < b[0] || (a[0] == b[0] && TextLe(a[1..], b[1..]))))
  }

  lemma {:induction false} TextTotal(a: string, b: string)
    ensures TextLe(a, b) || TextLe(b, a)
    ensures TextLe(a, b) && TextLe(b, a) ==> a == b
  {
    if a != [] && b != [] && a[0] == b[0] {
      TextTotal(a[1..], b[1..]);
      assert a == [a[0]] + a[1..] && b == [b[0]] + b[1..];
    }
  }

  lemma {:induction false} TextTransitive(a: string, b: string, c: string)
    requires TextLe(a, b) && TextLe(b, c)
    ensures TextLe(a, c)
  {
    if a != [] && a[0] == b[0] == c[0] { TextTransitive(a[1..], b[1..], c[1..]); }
  }

  predicate NotAfter(x: Normal, y: Normal) {
    x.fill.ts < y.fill.ts || (x.fill.ts == y.fill.ts && TextLe(x.tradeId, y.tradeId))
  }

  predicate SameMoment(x: Normal, y: Normal) { x.fill.ts == y.fill.ts && x.tradeId == y.tradeId }

  lemma OrderIsTotal(x: Normal, y: Normal)
    ensures NotAfter(x, y) || NotAfter(y, x)
    ensures NotAfter(x, y) && NotAfter(y, x) ==> SameMoment(x, y)
  {
    TextTotal(x.tradeId, y.tradeId);
  }

  lemma OrderIsTransitive(x: Normal, y: Normal, z: Normal)
    requires NotAfter(x, y) && NotAfter(y, z)
    ensures NotAfter(x, z)
  {
    if x.fill.ts == y.fill.ts == z.fill.ts { TextTransitive(x.tradeId, y.tradeId, z.tradeId); }
  }

  /** Behind every row it does not precede, so equal rows keep their order. */
  function Place(sorted: seq<Normal>, x: Normal): seq<Normal> {
    if sorted == [] || NotAfter(sorted[|sorted| - 1], x) then sorted + [x]
    else Place(sorted[..|sorted| - 1], x) + [sorted[|sorted| - 1]]
  }

  function InTimeOrder(xs: seq<Normal>): seq<Normal> {
    if xs == [] then [] else Place(InTimeOrder(xs[..|xs| - 1]), xs[|xs| - 1])
  }

  function FillsOf(xs: seq<Normal>): (r: seq<Fill>)
    ensures |r| == |xs| && forall i :: 0 <= i < |r| ==> r[i] == xs[i].fill
  {
    seq(|xs|, i requires 0 <= i < |xs| => xs[i].fill)
  }

  function Normalized(raw: seq<TradeRow>, day: int): seq<Fill> { FillsOf(InTimeOrder(Kept(raw, day))) }

  // ------------------------------------------------------------- the loops

  method NormalizeFills(raw: seq<TradeRow>, day: int) returns (fills: seq<Fill>)
    ensures fills == Normalized(raw, day)
  {
    var out := KeepUsable(raw, day);
    out := SortByTime(out);
    fills := FillsOf(out);
  }

  method KeepUsable(raw: seq<TradeRow>, day: int) returns (out: seq<Normal>)
    ensures out == Kept(raw, day)
  {
    out := [];
    for i := 0 to |raw|
      invariant out == Kept(raw[..i], day)
    {
      assert raw[..i + 1][..i] == raw[..i];
      if Usable(raw[i], day) { out := out + [ToNormal(raw[i], day)]; }
    }
    assert raw[..|raw|] == raw;
  }

  method SortByTime(xs: seq<Normal>) returns (sorted: seq<Normal>)
    ensures sorted == InTimeOrder(xs)
  {
    hide Place;
    sorted := [];
    for i := 0 to |xs|
      invariant sorted == InTimeOrder(xs[..i])
    {
      assert xs[..i + 1][..i] == xs[..i];
      sorted := Place(sorted, xs[i]);
    }
    assert xs[..|xs|] == xs;
  }

  /** A row of the positions response. */
  datatype Position = Position(key: Key, overnight: Option<int>, multiplier: Option<real>, realised: Option<real>)

  function Number(x: Option<real>): real { if x.Some? then x.value else 0.0 }

  function RealisedOf(day: seq<Position>): real {
    if day == [] then 0.0 else RealisedOf(day[..|day| - 1]) + Number(day[|day| - 1].realised)
  }

  /** The first positive multiplier among a symbol's rows. */
  function Named(rows: seq<Position>, x: string): Option<real> {
    if rows == [] then None
    else
      var r := rows[|rows| - 1];
      var before := Named(rows[..|rows| - 1], x);
      if before.None? && r.key.symbol == x && Number(r.multiplier) > 0.0 then Some(Number(r.multiplier)) else before
  }

  /** The opening quantity of each key is that of its last net row; the multiplier of a symbol is
      the first positive one, day rows before net rows. */
  method PositionMaps(net: seq<Position>, day: seq<Position>)
    returns (opening: map<Key, int>, mults: map<string, real>, realised: int)
    ensures forall k :: k in opening <==> exists i :: 0 <= i < |net| && net[i].key == k
    ensures forall i :: 0 <= i < |net| && (forall j :: i < j < |net| ==> net[j].key != net[i].key) ==>
              opening[net[i].key] == if net[i].overnight.Some? then net[i].overnight.value else 0
    ensures forall x :: x in mults <==> Named(day + net, x).Some?
    ensures forall x :: x in mults ==> mults[x] == Named(day + net, x).value
    ensures realised == Hundredths(RealisedOf(day))
  {
    opening := map[];
    for i := 0 to |net|
      invariant forall k :: k in opening <==> exists j :: 0 <= j < i && net[j].key == k
      invariant forall j :: 0 <= j < i && (forall h :: j < h < i ==> net[h].key != net[j].key) ==>
                  opening[net[j].key] == if net[j].overnight.Some? then net[j].overnight.value else 0
    {
      opening := opening[net[i].key := if net[i].overnight.Some? then net[i].overnight.value else 0];
    }
    mults := Multipliers(day + net);
    var total := 0.0;
    for i := 0 to |day|
      invariant total == RealisedOf(day[..i])
    {
      assert day[..i + 1][..i] == day[..i];
      total := total + Number(day[i].realised);
    }
    assert day[..|day|] == day;
    realised := Hundredths(total);
  }

  method Multipliers(rows: seq<Position>) returns (mults: map<string, real>)
    ensures forall x :: x in mults <==> Named(rows, x).Some?
    ensures forall x :: x in mults ==> mults[x] == Named(rows, x).value
  {
    mults := map[];
    for i := 0 to |rows|
      invariant forall x :: x in mults <==> Named(rows[..i], x).Some?
      invariant forall x :: x in mults ==> mults[x] == Named(rows[..i], x).value
    {
      assert rows[..i + 1][..i] == rows[..i];
      var m := Number(rows[i].multiplier);
      if m > 0.0 && rows[i].key.symbol !in mults { mults := mults[rows[i].key.symbol := m]; }
    }
    assert rows[..|rows|] == rows;
  }

  /** The row gives a positive multiplier. */
  predicate Multiplies(r: Position) { r.multiplier.Some? && r.multiplier.value > 0.0 }

  /** Row i names its symbol's multiplier: it has one, and no earlier row of the symbol does. */
  predicate Names(rows: seq<Position>, i: nat) {
    && i < |rows| && Multiplies(rows[i])
    && forall j :: 0 <= j < i && rows[j].key.symbol == rows[i].key.symbol ==> !Multiplies(rows[j])
  }

  lemma NamesLater(rows: seq<Position>, i: nat)
    requires rows != [] && Names(rows[..|rows| - 1], i)
    ensures Names(rows, i) && rows[..|rows| - 1][i] == rows[i]
  {
    hide Multiplies;
    assert forall j :: 0 <= j < |rows| - 1 ==> rows[..|rows| - 1][j] == rows[j];
  }

  /** A symbol has a multiplier when some row of it has, and then it is the first such row's. */
  lemma {:induction false} NamedIsFirst(rows: seq<Position>, x: string)
    ensures Named(rows, x).None? ==>
              forall i :: 0 <= i < |rows| && rows[i].key.symbol == x ==> !Multiplies(rows[i])
    ensures Named(rows, x).Some? ==>
              exists i :: 0 <= i < |rows| && Names(rows, i) && rows[i].key.symbol == x
                          && rows[i].multiplier == Named(rows, x)
  {
    if rows != [] {
      var n := |rows| - 1;
      var init := rows[..n];
      NamedIsFirst(init, x);
      if Named(init, x).Some? {
        var i :| 0 <= i < n && Names(init, i) && init[i].key.symbol == x && init[i].multiplier == Named(init, x);
        NamesLater(rows, i);
      } else if Named(rows, x).Some? {
        assert Names(rows, n);
      }
    }
  }

  // ------------------------------------------------------------- what it promises

  predicate Ordered(xs: seq<Normal>) { forall i, j :: 0 <= i < j < |xs| ==> NotAfter(xs[i], xs[j]) }

  lemma {:induction false} PlaceKeeps(sorted: seq<Normal>, x: Normal)
    requires Ordered(sorted)
    ensures Ordered(Place(sorted, x)) && multiset(Place(sorted, x)) == multiset(sorted) + multiset{x}
  {
    if sorted != [] {
      var init, last := sorted[..|sorted| - 1], sorted[|sorted| - 1];
      assert sorted == init + [last];
      OrderIsTotal(last, x);
      if NotAfter(last, x) {
        forall i | 0 <= i < |sorted| ensures NotAfter(sorted[i], x) {
          if i < |init| { OrderIsTransitive(sorted[i], last, x); }
        }
      } else {
        PlaceKeeps(init, x);
        var p := Place(init, x);
        forall i | 0 <= i < |p| ensures NotAfter(p[i], last) {
          assert p[i] in multiset(p);
          assert p[i] == x || p[i] in init;
        }
      }
    }
  }

  /** The fills are exactly the usable rows, in order of time and then trade id. */
  lemma {:induction false} TimeOrderKeeps(xs: seq<Normal>)
    ensures Ordered(InTimeOrder(xs)) && multiset(InTimeOrder(xs)) == multiset(xs)
  {
    if xs != [] {
      var n := |xs| - 1;
      assert xs == xs[..n] + [xs[n]];
      TimeOrderKeeps(xs[..n]);
      PlaceKeeps(InTimeOrder(xs[..n]), xs[n]);
    }
  }

  /** The realised total is the sum of what the rows report; a missing figure is nothing. */
  lemma RealisedSnoc(day: seq<Position>, r: Position)
    ensures RealisedOf([]) == 0.0
    ensures RealisedOf(day + [r]) == RealisedOf(day) + if r.realised.Some? then r.realised.value else 0.0
  {
    assert (day + [r])[..|day|] == day;
  }

  // ------------------------------------------------------------- rows and fills

  /** The row reports this very fill, on this day: nothing missing, nothing changed. */
  predicate Reports(r: TradeRow, f: Fill, day: int) {
    && r.key == f.key && r.orderId == f.orderId
    && r.side == Some(f.side) && r.qty == Some(f.qty) && r.price == Some(f.price) && r.ts == Some(f.ts)
    && 86400 * day <= f.ts < 86400 * (day + 1)
  }

  /** How many rows report the fill. */
  function Reporting(raw: seq<TradeRow>, f: Fill, day: int): nat {
    if raw == [] then 0
    else Reporting(raw[..|raw| - 1], f, day) + if Reports(raw[|raw| - 1], f, day) then 1 else 0
  }

  /** A row with everything present, a positive price, a positive quantity and a time within the day. */
  predicate Complete(r: TradeRow, day: int) {
    && r.side.Some? && r.price.Some? && r.qty.Some? && r.ts.Some?
    && r.price.value > 0.0 && r.qty.value > 0 && 86400 * day <= r.ts.value < 86400 * (day + 1)
  }

  function CompleteRows(raw: seq<TradeRow>, day: int): nat {
    if raw == [] then 0
    else CompleteRows(raw[..|raw| - 1], day) + if Complete(raw[|raw| - 1], day) then 1 else 0
  }

  function CountOf(xs: seq<Normal>, f: Fill): nat {
    if xs == [] then 0 else CountOf(xs[..|xs| - 1], f) + if xs[|xs| - 1].fill == f then 1 else 0
  }

  lemma UsableIsComplete(r: TradeRow, day: int)
    ensures Usable(r, day) <==> Complete(r, day)
    ensures forall f: Fill :: Reports(r, f, day) <==> Usable(r, day) && ToNormal(r, day).fill == f
  {
  }

  lemma {:induction false} KeptCounts(raw: seq<TradeRow>, f: Fill, day: int)
    ensures CountOf(Kept(raw, day), f) == Reporting(raw, f, day) && |Kept(raw, day)| == CompleteRows(raw, day)
  {
    if raw != [] {
      var init, r := raw[..|raw| - 1], raw[|raw| - 1];
      KeptCounts(init, f, day);
      UsableIsComplete(r, day);
      var kept := Kept(init, day);
      hide Usable, ToNormal, Reports, Complete;
      if Usable(r, day) {
        assert (kept + [ToNormal(r, day)])[..|kept|] == kept;
      } else {
        assert kept + [] == kept;
      }
    }
  }

  lemma {:induction false} CountsAgree(xs: seq<Normal>, f: Fill)
    ensures multiset(FillsOf(xs))[f] == CountOf(xs, f)
  {
    if xs != [] {
      var init, x := xs[..|xs| - 1], xs[|xs| - 1];
      CountsAgree(init, f);
      assert FillsOf(xs) == FillsOf(init) + [x.fill];
    }
  }

  lemma {:induction false} CountAppend(a: seq<Normal>, b: seq<Normal>, f: Fill)
    ensures CountOf(a + b, f) == CountOf(a, f) + CountOf(b, f)
  {
    if b == [] {
      assert a + b == a;
    } else {
      assert (a + b)[..|a + b| - 1] == a + b[..|b| - 1];
      CountAppend(a, b[..|b| - 1], f);
    }
  }

  lemma {:induction false} PlaceCounts(sorted: seq<Normal>, x: Normal, f: Fill)
    ensures CountOf(Place(sorted, x), f) == CountOf(sorted + [x], f) && |Place(sorted, x)| == |sorted| + 1
  {
    hide NotAfter;
    if sorted != [] {
      var init, last := sorted[..|sorted| - 1], sorted[|sorted| - 1];
      PlaceCounts(init, x, f);
      assert sorted == init + [last];
      CountAppend(init, [x], f);
      CountAppend(init, [last], f);
      CountAppend(sorted, [x], f);
      CountAppend(Place(init, x), [last], f);
    }
  }

  lemma {:induction false} OrderCounts(xs: seq<Normal>, f: Fill)
    ensures CountOf(InTimeOrder(xs), f) == CountOf(xs, f) && |InTimeOrder(xs)| == |xs|
  {
    if xs != [] {
      var init, x := xs[..|xs| - 1], xs[|xs| - 1];
      hide Place;
      OrderCounts(init, f);
      PlaceCounts(InTimeOrder(init), x, f);
      CountAppend(InTimeOrder(init), [x], f);
      CountAppend(init, [x], f);
      assert xs == init + [x];
    }
  }

  /** A day's fills, against the rows the broker returned: each fill occurs as often as rows report it,
      field by field; there are as many as complete rows of the day; and they ascend in time. */
  lemma FillsAreRows(raw: seq<TradeRow>, day: int, f: Fill)
    ensures var fills := Normalized(raw, day);
            && multiset(fills)[f] == Reporting(raw, f, day)
            && |fills| == CompleteRows(raw, day)
            && forall i, j :: 0 <= i < j < |fills| ==> fills[i].ts <= fills[j].ts
  {
    var kept := Kept(raw, day);
    KeptCounts(raw, f, day);
    OrderCounts(kept, f);
    CountsAgree(InTimeOrder(kept), f);
    TimeOrderKeeps(kept);
  }

  /** In dictionary order: a proper prefix of the other, or smaller at the first difference. */
  predicate Precedes(a: string, b: string) {
    exists k :: 0 <= k <= |a| && k < |b| && a[..k] == b[..k] && (k == |a| || a[k] < b[k])
  }

  lemma {:induction false} TextIsDictionary(a: string, b: string)
    requires TextLe(a, b)
    ensures a == b || Precedes(a, b)
  {
    if a == [] {
      if b != [] { assert a[..0] == b[..0]; }
    } else if a[0] < b[0] {
      assert a[..0] == b[..0];
    } else {
      TextIsDictionary(a[1..], b[1..]);
      assert a == [a[0]] + a[1..] && b == [b[0]] + b[1..];
      if a != b {
        var k :| 0 <= k <= |a[1..]| && k < |b[1..]| && a[1..][..k] == b[1..][..k]
                 && (k == |a[1..]| || a[1..][k] < b[1..][k]);
        assert a[..k + 1] == [a[0]] + a[1..][..k] && b[..k + 1] == [b[0]] + b[1..][..k];
      }
    }
  }

  /** The rows of one time and trade id. */
  function AtMoment(xs: seq<Normal>, ts: int, id: string): seq<Normal> {
    if xs == [] then []
    else
      var x := xs[|xs| - 1];
      AtMoment(xs[..|xs| - 1], ts, id) + if x.fill.ts == ts && x.tradeId == id then [x] else []
  }

  lemma MomentSnoc(xs: seq<Normal>, x: Normal, ts: int, id: string)
    ensures AtMoment(xs + [x], ts, id) == AtMoment(xs, ts, id) + if x.fill.ts == ts && x.tradeId == id then [x] else []
  {
    assert (xs + [x])[..|xs|] == xs;
  }

  lemma {:induction false} PlaceIsStable(sorted: seq<Normal>, x: Normal, ts: int, id: string)
    requires Ordered(sorted)
    ensures AtMoment(Place(sorted, x), ts, id) == AtMoment(sorted + [x], ts, id)
  {
    hide NotAfter, Ordered, AtMoment, SameMoment;
    if sorted != [] && !NotAfter(sorted[|sorted| - 1], x) {
      var init, last := sorted[..|sorted| - 1], sorted[|sorted| - 1];
      assert sorted == init + [last];
      OrderedInit(sorted);
      PlaceIsStable(init, x, ts, id);
      DifferentMoment(last, x, ts, id);
      MomentSnoc(Place(init, x), last, ts, id);
      MomentSnoc(init, x, ts, id);
      MomentSnoc(init, last, ts, id);
      MomentSnoc(sorted, x, ts, id);
    }
  }

  lemma DifferentMoment(x: Normal, y: Normal, ts: int, id: string)
    requires !NotAfter(x, y)
    ensures !(x.fill.ts == ts && x.tradeId == id) || !(y.fill.ts == ts && y.tradeId == id)
  {
    hide NotAfter;
    SameMomentNotAfter(x, y);
  }

  lemma SameMomentNotAfter(x: Normal, y: Normal)
    ensures SameMoment(x, y) ==> NotAfter(x, y)
  {
    OrderIsTotal(x, y);
    if SameMoment(x, y) { TextTotal(x.tradeId, y.tradeId); }
  }

  /** Fills of one time are in the dictionary order of their trade ids, and those of one trade id as the
      broker returned them. */
  lemma TiesByTradeId(raw: seq<TradeRow>, day: int, ts: int, id: string)
    ensures var xs := InTimeOrder(Kept(raw, day));
            && Normalized(raw, day) == FillsOf(xs)
            && (forall i, j :: 0 <= i < j < |xs| && xs[i].fill.ts == xs[j].fill.ts ==>
                  xs[i].tradeId == xs[j].tradeId || Precedes(xs[i].tradeId, xs[j].tradeId))
            && AtMoment(xs, ts, id) == AtMoment(Kept(raw, day), ts, id)
  {
    var xs := InTimeOrder(Kept(raw, day));
    TimeOrderKeeps(Kept(raw, day));
    StableOrder(Kept(raw, day), ts, id);
    forall i, j | 0 <= i < j < |xs| && xs[i].fill.ts == xs[j].fill.ts
      ensures xs[i].tradeId == xs[j].tradeId || Precedes(xs[i].tradeId, xs[j].tradeId)
    {
      assert NotAfter(xs[i], xs[j]);
      TextIsDictionary(xs[i].tradeId, xs[j].tradeId);
    }
  }

  lemma InOrderSnoc(init: seq<Normal>, x: Normal)
    ensures InTimeOrder(init + [x]) == Place(InTimeOrder(init), x)
  {
    assert (init + [x])[..|init|] == init;
  }

  lemma {:induction false} StableOrder(xs: seq<Normal>, ts: int, id: string)
    ensures AtMoment(InTimeOrder(xs), ts, id) == AtMoment(xs, ts, id)
  {
    if xs != [] {
      hide *;
      var init, x := xs[..|xs| - 1], xs[|xs| - 1];
      assert xs == init + [x];
      StableOrder(init, ts, id);
      TimeOrderKeeps(init);
      InOrderSnoc(init, x);
      PlaceIsStable(InTimeOrder(init), x, ts, id);
      MomentSnoc(InTimeOrder(init), x, ts, id);
      MomentSnoc(init, x, ts, id);
    }
  }

  /** No two usable rows share both time and trade id. */
  predicate Distinguished(xs: seq<Normal>) {
    forall i, j :: 0 <= i < |xs| && 0 <= j < |xs| && SameMoment(xs[i], xs[j]) ==> xs[i] == xs[j]
  }

  lemma {:induction false} OrderDetermines(a: seq<Normal>, b: seq<Normal>)
    requires Ordered(a) && Ordered(b) && multiset(a) == multiset(b) && Distinguished(a)
    ensures a == b
  {
    SameSize(a, b);
    if a != [] {
      SameLast(a, b);
      DropBoth(a, b);
      OrderedInit(a);
      OrderedInit(b);
      DistinguishedInit(a);
      hide Ordered, Distinguished;
      OrderDetermines(a[..|a| - 1], b[..|b| - 1]);
      LastAndInit(a, b);
    }
  }

  lemma SameSize<T>(a: seq<T>, b: seq<T>)
    requires multiset(a) == multiset(b)
    ensures |a| == |b|
  {
    assert |a| == |multiset(a)| == |multiset(b)| == |b|;
  }

  lemma LastAndInit<T>(a: seq<T>, b: seq<T>)
    requires a != [] && b != [] && a[..|a| - 1] == b[..|b| - 1] && a[|a| - 1] == b[|b| - 1]
    ensures a == b
  {
    assert a == a[..|a| - 1] + [a[|a| - 1]] && b == b[..|b| - 1] + [b[|b| - 1]];
  }

  lemma DropBoth<T>(a: seq<T>, b: seq<T>)
    requires a != [] && b != [] && multiset(a) == multiset(b) && a[|a| - 1] == b[|b| - 1]
    ensures multiset(a[..|a| - 1]) == multiset(b[..|b| - 1])
  {
    DropLast(a);
    DropLast(b);
  }

  lemma OrderedInit(a: seq<Normal>)
    requires Ordered(a) && a != []
    ensures Ordered(a[..|a| - 1])
  {
  }

  lemma DistinguishedInit(a: seq<Normal>)
    requires Distinguished(a) && a != []
    ensures Distinguished(a[..|a| - 1])
  {
    hide SameMoment;
  }

  lemma DropLast<T>(a: seq<T>)
    requires a != []
    ensures multiset(a[..|a| - 1]) == multiset(a) - multiset{a[|a| - 1]}
  {
    assert a == a[..|a| - 1] + [a[|a| - 1]];
  }

  lemma SameLast(a: seq<Normal>, b: seq<Normal>)
    requires Ordered(a) && Ordered(b) && multiset(a) == multiset(b) && Distinguished(a) && a != [] && |a| == |b|
    ensures a[|a| - 1] == b[|b| - 1]
  {
    hide NotAfter, SameMoment;
    var n := |a| - 1;
    var x, y := a[n], b[n];
    assert x in multiset(b) && y in multiset(a);
    var i :| 0 <= i < |b| && b[i] == x;
    var j :| 0 <= j < |a| && a[j] == y;
    OrderIsTotal(x, y);
    OrderIsTotal(x, x);
    assert NotAfter(b[i], b[n]) && NotAfter(a[j], a[n]);
  }

  lemma {:induction false} KeptConcat(a: seq<TradeRow>, b: seq<TradeRow>, day: int)
    ensures Kept(a + b, day) == Kept(a, day) + Kept(b, day)
  {
    if b == [] {
      assert a + b == a;
    } else {
      var n := |b| - 1;
      assert (a + b)[..|a + b| - 1] == a + b[..n];
      KeptConcat(a, b[..n], day);
    }
  }

  lemma KeptMiddle(a: seq<TradeRow>, r: TradeRow, b: seq<TradeRow>, day: int)
    ensures multiset(Kept(a + [r] + b, day)) == multiset(Kept(a + b, day)) + multiset(Kept([r], day))
  {
    KeptConcat(a, b, day);
    KeptConcat(a + [r], b, day);
    KeptConcat(a, [r], day);
  }

  lemma TakeOut<T>(xs: seq<T>, i: nat)
    requires i < |xs|
    ensures xs == xs[..i] + [xs[i]] + xs[i + 1..]
    ensures multiset(xs[..i] + xs[i + 1..]) == multiset(xs) - multiset{xs[i]}
  {
    assert xs == xs[..i] + [xs[i]] + xs[i + 1..];
  }

  lemma {:induction false} KeptPermutes(raw: seq<TradeRow>, other: seq<TradeRow>, day: int)
    requires multiset(raw) == multiset(other)
    ensures multiset(Kept(raw, day)) == multiset(Kept(other, day))
    decreases |raw|
  {
    if raw == [] {
      assert |multiset(other)| == 0;
    } else {
      var n := |raw| - 1;
      var init, r := raw[..n], raw[n];
      assert raw == init + [r];
      assert r in multiset(other);
      var i :| 0 <= i < |other| && other[i] == r;
      var a, b := other[..i], other[i + 1..];
      TakeOut(other, i);
      DropLast(raw);
      hide Kept;
      KeptPermutes(init, a + b, day);
      KeptMiddle(init, r, [], day);
      KeptMiddle(a, r, b, day);
      assert init + [r] + [] == raw && init + [] == init;
    }
  }

  /** Whatever order the broker returns its rows in, the fills are the same, as long as no two
      different usable rows share their time and trade id. */
  lemma NormalizeIsOrderFree(raw: seq<TradeRow>, other: seq<TradeRow>, day: int)
    requires multiset(raw) == multiset(other) && Distinguished(Kept(raw, day))
    ensures Normalized(raw, day) == Normalized(other, day)
  {
    var xs, ys := Kept(raw, day), Kept(other, day);
    KeptPermutes(raw, other, day);
    TimeOrderKeeps(xs);
    TimeOrderKeeps(ys);
    var a, b := InTimeOrder(xs), InTimeOrder(ys);
    forall i, j | 0 <= i < |a| && 0 <= j < |a| && SameMoment(a[i], a[j]) ensures a[i] == a[j] {
      assert a[i] in multiset(xs) && a[j] in multiset(xs);
      var h :| 0 <= h < |xs| && xs[h] == a[i];
      var k :| 0 <= k < |xs| && xs[k] == a[j];
      assert SameMoment(xs[h], xs[k]);
    }
    OrderDetermines(a, b);
  }
}

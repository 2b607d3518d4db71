/** Rebuilding two stretches of fills together, through the grouping by key and the sort: for every key
    that is flat after each, the trips of the first stretch followed by those of the second. */
module BrokerCompose {
  import opened BrokerSync
  import opened BrokerTrips
  import opened BrokerSplit

  /** The trips of one key, in order. */
  function OfKey(trips: seq<RoundTrip>, key: Key): seq<RoundTrip> {
    if trips == [] then []
    else
      var t := trips[|trips| - 1];
      OfKey(trips[..|trips| - 1], key) + if t.key == key then [t] else []
  }

  lemma {:induction false} OfKeyConcat(a: seq<RoundTrip>, b: seq<RoundTrip>, key: Key)
    ensures OfKey(a + b, key) == OfKey(a, key) + OfKey(b, key)
    decreases |b|
  {
    if b == [] {
      assert a + b == a;
    } else {
      var n := |b| - 1;
      assert (a + b)[..|a| + n] == a + b[..n];
      OfKeyConcat(a, b[..n], key);
    }
  }

  lemma {:induction false} OfKeyElements(trips: seq<RoundTrip>, key: Key)
    ensures forall t :: t in OfKey(trips, key) <==> t in trips && t.key == key
    ensures (forall t | t in trips :: t.key == key) ==> OfKey(trips, key) == trips
    ensures (forall t | t in trips :: t.key != key) ==> OfKey(trips, key) == []
    decreases |trips|
  {
    if trips != [] {
      var init := trips[..|trips| - 1];
      assert trips == init + [trips[|trips| - 1]];
      OfKeyElements(init, key);
    }
  }

  // ------------------------------------------------------------- the sort, key by key

  predicate NoneAfter(trips: seq<RoundTrip>, start: int) { forall t | t in trips :: t.start <= start }

  lemma InsertLast(sorted: seq<RoundTrip>, t: RoundTrip)
    requires NoneAfter(sorted, t.start)
    ensures Insert(sorted, t) == sorted + [t]
  {
    if sorted != [] { assert sorted[|sorted| - 1] in sorted; }
  }

  lemma InsertBefore(init: seq<RoundTrip>, last: RoundTrip, t: RoundTrip)
    requires last.start > t.start
    ensures Insert(init + [last], t) == Insert(init, t) + [last]
  {
    assert (init + [last])[..|init|] == init;
  }

  lemma OfKeySnoc(trips: seq<RoundTrip>, t: RoundTrip, key: Key)
    ensures t.key == key ==> OfKey(trips + [t], key) == OfKey(trips, key) + [t]
    ensures t.key != key ==> OfKey(trips + [t], key) == OfKey(trips, key)
  {
    assert (trips + [t])[..|trips|] == trips;
  }

  lemma {:induction false} InsertOther(sorted: seq<RoundTrip>, t: RoundTrip, key: Key)
    requires t.key != key
    ensures OfKey(Insert(sorted, t), key) == OfKey(sorted, key)
    decreases |sorted|
  {
    OfKeySnoc(sorted, t, key);
    if sorted != [] && sorted[|sorted| - 1].start > t.start {
      var init, last := sorted[..|sorted| - 1], sorted[|sorted| - 1];
      assert sorted == init + [last];
      InsertOther(init, t, key);
      OfKeySnoc(init, last, key);
      OfKeySnoc(Insert(init, t), last, key);
      hide OfKey;
    }
  }

  lemma {:induction false} InsertMine(sorted: seq<RoundTrip>, t: RoundTrip, key: Key)
    requires Sorted(sorted) && t.key == key
    ensures OfKey(Insert(sorted, t), key) == Insert(OfKey(sorted, key), t)
    decreases |sorted|
  {
    if sorted == [] || sorted[|sorted| - 1].start <= t.start {
      OfKeyElements(sorted, key);
      assert NoneAfter(sorted, t.start);
      hide OfKey, Insert, Sorted;
      InsertLast(sorted, t);
      InsertLast(OfKey(sorted, key), t);
      OfKeySnoc(sorted, t, key);
    } else {
      var init, last := sorted[..|sorted| - 1], sorted[|sorted| - 1];
      assert sorted == init + [last];
      InsertMine(init, t, key);
      InsertBefore(init, last, t);
      InsertBefore(OfKey(init, key), last, t);
      OfKeySnoc(init, last, key);
      OfKeySnoc(Insert(init, t), last, key);
      hide OfKey, Insert, Sorted;
    }
  }

  lemma {:induction false} ByStartOfKey(trips: seq<RoundTrip>, key: Key)
    ensures OfKey(ByStart(trips), key) == ByStart(OfKey(trips, key))
    decreases |trips|
  {
    if trips != [] {
      var init, t := trips[..|trips| - 1], trips[|trips| - 1];
      assert trips == init + [t];
      ByStartOfKey(init, key);
      ByStartKeeps(init, key);
      OfKeySnoc(init, t, key);
      ByStartSnoc(init, t);
      ByStartSnoc(OfKey(init, key), t);
      if t.key == key { InsertMine(ByStart(init), t, key); } else { InsertOther(ByStart(init), t, key); }
      hide Insert, OfKey, ByStart;
    }
  }

  lemma ByStartSnoc(trips: seq<RoundTrip>, t: RoundTrip)
    ensures ByStart(trips + [t]) == Insert(ByStart(trips), t)
  {
    assert (trips + [t])[..|trips|] == trips;
  }

  /** A trip no earlier than all of p is inserted behind p. */
  lemma {:induction false} InsertPast(p: seq<RoundTrip>, q: seq<RoundTrip>, t: RoundTrip)
    requires NoneAfter(p, t.start)
    ensures Insert(p + q, t) == p + Insert(q, t)
    decreases |q|
  {
    if q == [] {
      assert p + q == p;
      InsertLast(p, t);
    } else {
      var init, last := q[..|q| - 1], q[|q| - 1];
      assert p + q == (p + init) + [last];
      if last.start > t.start {
        InsertPast(p, init, t);
        InsertBefore(p + init, last, t);
      }
    }
  }

  /** Sorting two stretches together, the first starting no later than the second. */
  lemma {:induction false} ByStartConcat(x: seq<RoundTrip>, y: seq<RoundTrip>)
    requires forall t | t in y :: NoneAfter(x, t.start)
    ensures ByStart(x + y) == ByStart(x) + ByStart(y)
    decreases |y|
  {
    if y == [] {
      assert x + y == x;
    } else {
      var init, t := y[..|y| - 1], y[|y| - 1];
      assert (x + y)[..|x + y| - 1] == x + init;
      ByStartConcat(x, init);
      SortKeepsTrips(x);
      assert t in y && NoneAfter(x, t.start);
      InsertPast(ByStart(x), ByStart(init), t);
    }
  }

  lemma SortKeepsTrips(x: seq<RoundTrip>)
    ensures Sorted(ByStart(x)) && forall t :: t in ByStart(x) <==> t in x
  {
    ByStartKeeps(x, Key("", "", ""));
    forall t ensures t in ByStart(x) <==> t in x {
      assert t in ByStart(x) <==> t in multiset(ByStart(x));
      assert t in x <==> t in multiset(x);
    }
  }

  // ------------------------------------------------------------- one key of a rebuild

  lemma {:induction false} AllTripsOfKey(fills: seq<Fill>, opening: map<Key, int>, mults: map<string, real>,
                                         keys: seq<Key>, key: Key)
    requires Distinct(keys)
    ensures OfKey(AllTrips(fills, opening, mults, keys), key)
            == if key in keys then KeyTrips(fills, opening, mults, key) else []
    decreases |keys|
  {
    if keys != [] {
      var n := |keys| - 1;
      var init := keys[..n];
      var before, last := AllTrips(fills, opening, mults, init), KeyTrips(fills, opening, mults, keys[n]);
      assert Distinct(init) && AllTrips(fills, opening, mults, keys) == before + last;
      assert keys == init + [keys[n]];
      hide KeyTrips, AllTrips;
      AllTripsOfKey(fills, opening, mults, init, key);
      KeyTripsCash(fills, opening, mults, keys[n]);
      OfKeyConcat(before, last, key);
      OfKeyElements(last, key);
      hide OfKey;
      if key == keys[n] { LastKeyIsNew(keys); } else { assert OfKey(last, key) == []; }
    }
  }

  lemma LastKeyIsNew(keys: seq<Key>)
    requires Distinct(keys) && keys != []
    ensures keys[|keys| - 1] !in keys[..|keys| - 1]
  {
  }

  /** One key's trips in a rebuild are its own, sorted. */
  lemma RebuiltOfKey(fills: seq<Fill>, opening: map<Key, int>, mults: map<string, real>, key: Key)
    ensures OfKey(RoundTrips(fills, opening, mults), key) == ByStart(KeyTrips(fills, opening, mults, key))
  {
    KeysDistinct(fills);
    AllTripsOfKey(fills, opening, mults, KeysOf(fills), key);
    ByStartOfKey(AllTrips(fills, opening, mults, KeysOf(fills)), key);
  }

  /** A trip starts with one of its key's fills. */
  predicate StartsIn(rows: seq<Fill>, start: int) { exists i :: 0 <= i < |rows| && rows[i].ts == start }

  lemma {:induction false} StartsAreFills(rows: seq<Fill>)
    ensures var b := PostAll(rows);
            && (forall k :: 0 <= k < |b.done| ==> StartsIn(rows, b.done[k].start))
            && (b.cur.Some? ==> StartsIn(rows, b.cur.value.start))
    decreases |rows|
  {
    if rows != [] {
      var init, f := rows[..|rows| - 1], rows[|rows| - 1];
      StartsAreFills(init);
      forall s | StartsIn(init, s) ensures StartsIn(rows, s) {
        var i :| 0 <= i < |init| && init[i].ts == s;
        assert rows[i].ts == s;
      }
      assert rows[|rows| - 1].ts == f.ts;
      hide Worth, AddOrder, PostAll;
      assert StartsIn(rows, f.ts);
      PostStarts(PostAll(init), Signed(f), f.price, f.ts, f.orderId, rows);
      LastPosted(rows);
    }
  }

  lemma LastPosted(rows: seq<Fill>)
    requires rows != []
    ensures var f := rows[|rows| - 1];
            PostAll(rows) == Post(PostAll(rows[..|rows| - 1]), Signed(f), f.price, f.ts, f.orderId)
  {
  }

  lemma PostStarts(b: Ledger, n: int, price: real, ts: int, oid: string, rows: seq<Fill>)
    requires b.pos != 0 <==> b.cur.Some?
    requires StartsIn(rows, ts) && (b.cur.Some? ==> StartsIn(rows, b.cur.value.start))
    requires forall k :: 0 <= k < |b.done| ==> StartsIn(rows, b.done[k].start)
    ensures var b' := Post(b, n, price, ts, oid);
            && (forall k :: 0 <= k < |b'.done| ==> StartsIn(rows, b'.done[k].start))
            && (b'.cur.Some? ==> StartsIn(rows, b'.cur.value.start))
  {
    hide StartsIn;
  }

  lemma {:induction false} RowsAreFills(fills: seq<Fill>, key: Key)
    ensures forall f :: f in RowsOf(fills, key) <==> f in fills && f.key == key
    decreases |fills|
  {
    if fills != [] {
      assert fills == fills[..|fills| - 1] + [fills[|fills| - 1]];
      RowsAreFills(fills[..|fills| - 1], key);
    }
  }

  lemma {:induction false} ToTripsElements(key: Key, done: seq<Building>, mult: real)
    ensures forall t :: t in ToTrips(key, done, mult) ==> exists k :: 0 <= k < |done| && t == ToTrip(key, done[k], mult)
    decreases |done|
  {
    hide ToTrip;
    if done != [] {
      var n := |done| - 1;
      ToTripsElements(key, done[..n], mult);
      forall t | t in ToTrips(key, done, mult) ensures exists k :: 0 <= k < |done| && t == ToTrip(key, done[k], mult) {
        if t in ToTrips(key, done[..n], mult) {
          var k :| 0 <= k < n && t == ToTrip(key, done[..n][k], mult);
          assert t == ToTrip(key, done[k], mult);
        } else {
          assert t == ToTrip(key, done[n], mult);
        }
      }
    }
  }

  /** Every trip of a key starts at one of the key's fills. */
  lemma TripStart(fills: seq<Fill>, opening: map<Key, int>, mults: map<string, real>, key: Key, t: RoundTrip)
    requires t in KeyTrips(fills, opening, mults, key)
    ensures exists f :: f in fills && f.key == key && f.ts == t.start
  {
    var rows := RowsOf(fills, key);
    hide RowsOf, Net, ToTrips, PostAll;
    NetRefines(rows);
    StartsAreFills(rows);
    ToTripsElements(key, Net(rows).done, Multiplier(mults, key.symbol));
    var k :| 0 <= k < |Net(rows).done| && t == ToTrip(key, Net(rows).done[k], Multiplier(mults, key.symbol));
    assert ViewNetting(Net(rows)).done[k].start == t.start;
    var i :| 0 <= i < |rows| && rows[i].ts == t.start;
    RowsAreFills(fills, key);
    assert rows[i] in rows;
  }

  // ------------------------------------------------------------- composition

  predicate Earlier(a: seq<Fill>, b: seq<Fill>) { forall f, g :: f in a && g in b ==> f.ts <= g.ts }

  lemma KeyTripsCompose(a: seq<Fill>, b: seq<Fill>, opening: map<Key, int>, mults: map<string, real>, key: Key)
    requires FlatKey(a, opening, key) && FlatKey(b, opening, key)
    ensures FlatKey(a + b, opening, key)
    ensures KeyTrips(a + b, opening, mults, key) == KeyTrips(a, opening, mults, key) + KeyTrips(b, opening, mults, key)
  {
    hide Net, NetQty, ToTrips, RowsOf;
    RowsConcat(a, b, key);
    NetQtyConcat(RowsOf(a, key), RowsOf(b, key));
    FlatIsResolved(a, opening, key);
    FlatIsResolved(b, opening, key);
    FlatIsResolved(a + b, opening, key);
    Composition(RowsOf(a, key), RowsOf(b, key), key, Multiplier(mults, key.symbol));
  }

  lemma {:induction false} NetQtyConcat(a: seq<Fill>, b: seq<Fill>)
    ensures NetQty(a + b) == NetQty(a) + NetQty(b)
    decreases |b|
  {
    if b == [] {
      assert a + b == a;
    } else {
      var n := |b| - 1;
      assert (a + b)[..|a| + n] == a + b[..n];
      NetQtyConcat(a, b[..n]);
    }
  }

  /** For a key that is flat after each stretch, the rebuild of both together has its trips of the
      first and then its trips of the second, whatever the other keys do. */
  lemma RebuildComposesByKey(a: seq<Fill>, b: seq<Fill>, opening: map<Key, int>, mults: map<string, real>, key: Key)
    requires FlatKey(a, opening, key) && FlatKey(b, opening, key) && Earlier(a, b)
    ensures OfKey(RoundTrips(a + b, opening, mults), key)
            == OfKey(RoundTrips(a, opening, mults), key) + OfKey(RoundTrips(b, opening, mults), key)
  {
    RebuiltOfKey(a, opening, mults, key);
    RebuiltOfKey(b, opening, mults, key);
    RebuiltOfKey(a + b, opening, mults, key);
    KeyTripsCompose(a, b, opening, mults, key);
    hide RoundTrips, KeyTrips, FlatKey, ByStart;
    var x, y := KeyTrips(a, opening, mults, key), KeyTrips(b, opening, mults, key);
    forall t, u | t in y && u in x ensures u.start <= t.start {
      TripStart(b, opening, mults, key, t);
      TripStart(a, opening, mults, key, u);
    }
    ByStartConcat(x, y);
  }

  /** Fills of different keys never share a time. */
  predicate OneKeyAtATime(fills: seq<Fill>) {
    forall f, g :: f in fills && g in fills && f.ts == g.ts ==> f.key == g.key
  }

  predicate NoTies(trips: seq<RoundTrip>) {
    forall t, u :: t in trips && u in trips && t.start == u.start ==> t.key == u.key
  }

  ghost predicate SameByKey(x: seq<RoundTrip>, y: seq<RoundTrip>) { forall key :: OfKey(x, key) == OfKey(y, key) }

  /** Sorted trips without ties between keys are determined by each key's own list. */
  lemma {:induction false} SortedByKeys(x: seq<RoundTrip>, y: seq<RoundTrip>)
    requires Sorted(x) && Sorted(y) && NoTies(x) && SameByKey(x, y)
    ensures x == y
    decreases |x|
  {
    hide OfKey, Sorted, NoTies, SameByKey;
    SameMembers(x, y);
    assert |y| > 0 ==> y[0] in x;
    if x != [] {
      assert x[|x| - 1] in y;
      SameEnd(x, y);
      SameInit(x, y);
      InitKeeps(x);
      InitKeeps(y);
      SortedByKeys(x[..|x| - 1], y[..|y| - 1]);
      Rejoin(x, y);
    }
  }

  lemma Rejoin<T>(x: seq<T>, y: seq<T>)
    requires x != [] && y != [] && x[..|x| - 1] == y[..|y| - 1] && x[|x| - 1] == y[|y| - 1]
    ensures x == y
  {
    assert x == x[..|x| - 1] + [x[|x| - 1]] && y == y[..|y| - 1] + [y[|y| - 1]];
  }

  lemma Unsnoc<T>(a: seq<T>, b: seq<T>, t: T)
    requires a + [t] == b + [t]
    ensures a == b
  {
    assert (a + [t])[..|a|] == a && (b + [t])[..|b|] == b && |a + [t]| == |b + [t]|;
  }

  lemma SameMembers(x: seq<RoundTrip>, y: seq<RoundTrip>)
    requires SameByKey(x, y)
    ensures forall t :: t in x <==> t in y
  {
    forall t ensures t in x <==> t in y {
      OfKeyElements(x, t.key);
      OfKeyElements(y, t.key);
      assert OfKey(x, t.key) == OfKey(y, t.key);
    }
  }

  lemma SameInit(x: seq<RoundTrip>, y: seq<RoundTrip>)
    requires x != [] && y != [] && x[|x| - 1] == y[|y| - 1] && SameByKey(x, y)
    ensures SameByKey(x[..|x| - 1], y[..|y| - 1])
  {
    var a, b := x[..|x| - 1], y[..|y| - 1];
    forall key ensures OfKey(a, key) == OfKey(b, key) {
      assert OfKey(x, key) == OfKey(y, key);
      SameInitOfKey(x, y, key);
    }
  }

  lemma SameInitOfKey(x: seq<RoundTrip>, y: seq<RoundTrip>, key: Key)
    requires x != [] && y != [] && x[|x| - 1] == y[|y| - 1] && OfKey(x, key) == OfKey(y, key)
    ensures OfKey(x[..|x| - 1], key) == OfKey(y[..|y| - 1], key)
  {
    var t := x[|x| - 1];
    LastOfKey(x, key);
    LastOfKey(y, key);
    hide OfKey;
    if t.key == key { Unsnoc(OfKey(x[..|x| - 1], key), OfKey(y[..|y| - 1], key), t); }
  }

  lemma LastOfKey(x: seq<RoundTrip>, key: Key)
    requires x != []
    ensures var t := x[|x| - 1];
            OfKey(x, key) == if t.key == key then OfKey(x[..|x| - 1], key) + [t] else OfKey(x[..|x| - 1], key)
  {
  }

  lemma InitKeeps(x: seq<RoundTrip>)
    requires x != []
    ensures Sorted(x) ==> Sorted(x[..|x| - 1])
    ensures NoTies(x) ==> NoTies(x[..|x| - 1])
  {
  }

  lemma SameEnd(x: seq<RoundTrip>, y: seq<RoundTrip>)
    requires Sorted(x) && Sorted(y) && NoTies(x) && x != [] && y != [] && SameByKey(x, y)
    ensures x[|x| - 1] == y[|y| - 1]
  {
    var t, u := x[|x| - 1], y[|y| - 1];
    SameMembers(x, y);
    LastIsLatest(x);
    LastIsLatest(y);
    assert t in x && u in y;
    assert t.start <= u.start && u.start <= t.start;
    assert t.key == u.key;
    LastOfKey(x, t.key);
    LastOfKey(y, t.key);
    assert OfKey(x, t.key) == OfKey(y, t.key);
    hide OfKey, SameByKey, NoTies, Sorted;
    SameLastElement(OfKey(x[..|x| - 1], t.key), t, OfKey(y[..|y| - 1], t.key), u);
  }

  lemma SameLastElement<T>(a: seq<T>, t: T, b: seq<T>, u: T)
    requires a + [t] == b + [u]
    ensures t == u
  {
    assert (a + [t])[|a|] == t && (b + [u])[|b|] == u && |a + [t]| == |b + [u]|;
  }

  lemma LastIsLatest(x: seq<RoundTrip>)
    requires Sorted(x) && x != []
    ensures forall t | t in x :: t.start <= x[|x| - 1].start
  {
  }

  /** Composition of whole rebuilds: two flat-to-flat stretches of fills, the first no later than the
      second, in which no two keys trade at the same moment, rebuild together to the trips of the first
      followed by the trips of the second, and nothing is left unresolved. */
  lemma RebuildComposes(a: seq<Fill>, b: seq<Fill>, opening: map<Key, int>, mults: map<string, real>)
    requires (forall key :: FlatKey(a, opening, key) && FlatKey(b, opening, key)) && Earlier(a, b)
             && OneKeyAtATime(a + b)
    ensures RoundTrips(a + b, opening, mults) == RoundTrips(a, opening, mults) + RoundTrips(b, opening, mults)
    ensures UnresolvedKeys(a + b, opening, KeysOf(a + b)) == {}
  {
    var x, y := RoundTrips(a, opening, mults), RoundTrips(b, opening, mults);
    forall key
      ensures FlatKey(a + b, opening, key) && OfKey(RoundTrips(a + b, opening, mults), key) == OfKey(x + y, key)
    {
      KeyTripsCompose(a, b, opening, mults, key);
      RebuildComposesByKey(a, b, opening, mults, key);
      OfKeyConcat(x, y, key);
    }
    forall key | key in KeysOf(a + b) ensures !Unresolved(a + b, opening, key) {
      KeyTripsCompose(a, b, opening, mults, key);
      FlatIsResolved(a + b, opening, key);
    }
    RebuiltStarts(a, opening, mults);
    RebuiltStarts(b, opening, mults);
    RebuiltStarts(a + b, opening, mults);
    assert SameByKey(RoundTrips(a + b, opening, mults), x + y);
    hide RoundTrips, FlatKey, OfKey, SameByKey;
    SortedConcat(x, y);
    SortedByKeys(RoundTrips(a + b, opening, mults), x + y);
  }

  /** A rebuild is sorted and each of its trips starts at a fill of its key. */
  lemma RebuiltStarts(fills: seq<Fill>, opening: map<Key, int>, mults: map<string, real>)
    ensures var trips := RoundTrips(fills, opening, mults);
            Sorted(trips) && forall t | t in trips :: exists f :: f in fills && f.key == t.key && f.ts == t.start
  {
    var trips := RoundTrips(fills, opening, mults);
    SortKeepsTrips(AllTrips(fills, opening, mults, KeysOf(fills)));
    forall t | t in trips ensures exists f :: f in fills && f.key == t.key && f.ts == t.start {
      RebuiltOfKey(fills, opening, mults, t.key);
      OfKeyElements(trips, t.key);
      SortKeepsTrips(KeyTrips(fills, opening, mults, t.key));
      TripStart(fills, opening, mults, t.key, t);
    }
  }

  lemma SortedConcat(x: seq<RoundTrip>, y: seq<RoundTrip>)
    requires Sorted(x) && Sorted(y) && forall t, u :: t in x && u in y ==> t.start <= u.start
    ensures Sorted(x + y)
  {
  }
}

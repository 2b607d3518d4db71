/** The capped, de-duplicated history: merging batch by batch and forgetting the oldest rows each
    time keeps exactly what one merge of everything would keep. */
module FeedHistory {
  import opened DataFeed

  /** Write one row: replace the row of its time, or put it in its place. */
  function Put(h: seq<Candle>, r: Candle): seq<Candle> {
    if h == [] || r.ts < h[0].ts then [r] + h
    else if r.ts == h[0].ts then [r] + h[1..]
    else [h[0]] + Put(h[1..], r)
  }

  function PutAll(h: seq<Candle>, rows: seq<Candle>): seq<Candle> {
    if rows == [] then h else Put(PutAll(h, rows[..|rows| - 1]), rows[|rows| - 1])
  }

  /** r is the last row of its time in xs. */
  predicate IsLast(xs: seq<Candle>, r: Candle) {
    exists i :: 0 <= i < |xs| && xs[i] == r && forall j :: i < j < |xs| ==> xs[j].ts != r.ts
  }

  lemma Cons(x: Candle, h: seq<Candle>)
    requires Ascending(h) && (h == [] || x.ts < h[0].ts)
    ensures Ascending([x] + h)
    ensures forall r :: r in h ==> x.ts < r.ts
  {
  }

  lemma Uncons(h: seq<Candle>)
    requires Ascending(h) && h != []
    ensures Ascending(h[1..]) && h == [h[0]] + h[1..]
    ensures |h| > 1 ==> h[0].ts < h[1].ts
    ensures forall r :: r in h <==> r == h[0] || r in h[1..]
    ensures forall r :: r in h[1..] ==> h[0].ts < r.ts
  {
  }

  lemma {:induction false} PutMeaning(h: seq<Candle>, r: Candle)
    requires Ascending(h)
    ensures Ascending(Put(h, r))
    ensures forall x :: x in Put(h, r) <==> x == r || (x in h && x.ts != r.ts)
  {
    hide Ascending;
    if h == [] {
      Cons(r, []);
    } else {
      Uncons(h);
      if r.ts < h[0].ts {
        Cons(r, h);
      } else if r.ts == h[0].ts {
        Cons(r, h[1..]);
      } else {
        PutMeaning(h[1..], r);
        var tail := Put(h[1..], r);
        assert tail != [] ==> tail[0] in tail;
        Cons(h[0], tail);
      }
    }
  }

  lemma {:induction false} PutAllMeaning(h: seq<Candle>, rows: seq<Candle>)
    requires Ascending(h)
    ensures Ascending(PutAll(h, rows))
    ensures forall x :: x in PutAll(h, rows) <==> IsLast(rows, x) || (x in h && !HasTime(rows, x.ts))
  {
    hide Put, IsLast, HasTime, Ascending;
    if rows == [] {
      NothingLast();
    } else {
      var init, r := rows[..|rows| - 1], rows[|rows| - 1];
      PutAllMeaning(h, init);
      PutMeaning(PutAll(h, init), r);
      forall x: Candle
        ensures IsLast(rows, x) <==> x == r || (x.ts != r.ts && IsLast(init, x))
        ensures HasTime(rows, x.ts) <==> x.ts == r.ts || HasTime(init, x.ts)
      {
        LastSnoc(rows, x);
        TimeSnoc(rows, x.ts);
      }
    }
  }

  lemma NothingLast()
    ensures forall x :: !IsLast([], x)
    ensures forall t :: !HasTime([], t)
  {
  }

  lemma TimeSnoc(rows: seq<Candle>, t: nat)
    requires rows != []
    ensures HasTime(rows, t) <==> rows[|rows| - 1].ts == t || HasTime(rows[..|rows| - 1], t)
  {
  }

  lemma LastSnoc(rows: seq<Candle>, x: Candle)
    requires rows != []
    ensures var init, r := rows[..|rows| - 1], rows[|rows| - 1];
            IsLast(rows, x) <==> x == r || (x.ts != r.ts && IsLast(init, x))
  {
  }

  lemma {:induction false} KeepLastMeaning(xs: seq<Candle>)
    ensures forall r :: r in KeepLast(xs) <==> IsLast(xs, r)
    ensures forall i, j :: 0 <= i < j < |KeepLast(xs)| ==> KeepLast(xs)[i].ts != KeepLast(xs)[j].ts
  {
    if xs != [] {
      var rest := xs[1..];
      KeepLastMeaning(rest);
      forall r ensures IsLast(xs, r) <==> IsLast(rest, r) || (r == xs[0] && !HasTime(rest, r.ts)) {
        LastCons(xs, r);
      }
      forall r | IsLast(rest, r) ensures HasTime(rest, r.ts) { }
      assert forall i :: 0 <= i < |KeepLast(rest)| ==> KeepLast(rest)[i] in KeepLast(rest);
    }
  }

  lemma LastCons(xs: seq<Candle>, r: Candle)
    requires xs != []
    ensures IsLast(xs, r) <==> IsLast(xs[1..], r) || (r == xs[0] && !HasTime(xs[1..], r.ts))
  {
  }

  lemma {:induction false} InsertMeaning(x: Candle, h: seq<Candle>)
    requires Ascending(h) && !HasTime(h, x.ts)
    ensures Ascending(Insert(x, h))
    ensures forall r :: r in Insert(x, h) <==> r == x || r in h
  {
    if h != [] {
      assert h == [h[0]] + h[1..];
      assert h[0].ts != x.ts;
      if x.ts > h[0].ts {
        assert !HasTime(h[1..], x.ts) by { assert forall i :: 0 <= i < |h| - 1 ==> h[1..][i] == h[i + 1]; }
        InsertMeaning(x, h[1..]);
        assert forall r :: r in h[1..] ==> h[0].ts < r.ts;
        assert forall r :: r in Insert(x, h[1..]) ==> h[0].ts < r.ts;
      }
    }
  }

  lemma {:induction false} SortMeaning(xs: seq<Candle>)
    requires forall i, j :: 0 <= i < j < |xs| ==> xs[i].ts != xs[j].ts
    ensures Ascending(SortIndex(xs))
    ensures forall r :: r in SortIndex(xs) <==> r in xs
  {
    if xs != [] {
      var h := SortIndex(xs[1..]);
      SortMeaning(xs[1..]);
      assert xs == [xs[0]] + xs[1..];
      forall i | 0 <= i < |h| ensures h[i].ts != xs[0].ts {
        assert h[i] in xs[1..];
        var j :| 0 <= j < |xs| - 1 && xs[1..][j] == h[i];
        assert xs[j + 1] == h[i];
      }
      InsertMeaning(xs[0], h);
    }
  }

  /** Ascending rows are determined by which rows they are. */
  lemma {:induction false} SameRows(a: seq<Candle>, b: seq<Candle>)
    requires Ascending(a) && Ascending(b) && forall r :: r in a <==> r in b
    ensures a == b
  {
    assert |b| > 0 ==> b[0] in a;
    if a != [] {
      Uncons(a);
      assert a[0] in b;
      Uncons(b);
      SameRows(a[1..], b[1..]);
    }
  }

  /** The frame operations amount to writing the rows one by one. */
  lemma MergeIsPuts(base: seq<Candle>, rows: seq<Candle>)
    requires Ascending(base)
    ensures SortIndex(KeepLast(base + rows)) == PutAll(base, rows)
  {
    KeepLastMeaning(base + rows);
    SortMeaning(KeepLast(base + rows));
    PutAllMeaning(base, rows);
    forall r ensures IsLast(base + rows, r) <==> IsLast(rows, r) || (r in base && !HasTime(rows, r.ts)) {
      LastOfBoth(base, rows, r);
    }
    hide KeepLast, SortIndex, IsLast, HasTime, PutAll;
    SameRows(SortIndex(KeepLast(base + rows)), PutAll(base, rows));
  }

  lemma LastOfBoth(base: seq<Candle>, rows: seq<Candle>, r: Candle)
    requires Ascending(base)
    ensures IsLast(base + rows, r) <==> IsLast(rows, r) || (r in base && !HasTime(rows, r.ts))
  {
    if IsLast(rows, r) { LastInRows(base, rows, r); }
    if r in base && !HasTime(rows, r.ts) { LastInBase(base, rows, r); }
    if IsLast(base + rows, r) { LastComesFrom(base, rows, r); }
  }

  lemma LastInRows(base: seq<Candle>, rows: seq<Candle>, r: Candle)
    requires IsLast(rows, r)
    ensures IsLast(base + rows, r)
  {
    var all, n := base + rows, |base|;
    var i :| 0 <= i < |rows| && rows[i] == r && forall j :: i < j < |rows| ==> rows[j].ts != r.ts;
    assert all[n + i] == r;
    forall j | n + i < j < |all| ensures all[j].ts != r.ts { assert all[j] == rows[j - n]; }
  }

  lemma LastInBase(base: seq<Candle>, rows: seq<Candle>, r: Candle)
    requires Ascending(base) && r in base && !HasTime(rows, r.ts)
    ensures IsLast(base + rows, r)
  {
    var all, n := base + rows, |base|;
    var i :| 0 <= i < n && base[i] == r;
    assert all[i] == r;
    forall j | i < j < |all| ensures all[j].ts != r.ts {
      if j >= n { assert all[j] == rows[j - n]; } else { assert all[j] == base[j]; }
    }
  }

  lemma LastComesFrom(base: seq<Candle>, rows: seq<Candle>, r: Candle)
    requires IsLast(base + rows, r)
    ensures IsLast(rows, r) || (r in base && !HasTime(rows, r.ts))
  {
    var all, n := base + rows, |base|;
    var i :| 0 <= i < |all| && all[i] == r && forall j :: i < j < |all| ==> all[j].ts != r.ts;
    assert forall j :: 0 <= j < |rows| ==> rows[j] == all[n + j];
    if i < n { assert base[i] == r; } else { assert rows[i - n] == r; }
  }

  // ------------------------------------------------------------- the cap

  /** A row newer than all of a leaves a alone. */
  lemma {:induction false} PutAfter(a: seq<Candle>, b: seq<Candle>, r: Candle)
    requires forall i :: 0 <= i < |a| ==> a[i].ts < r.ts
    ensures Put(a + b, r) == a + Put(b, r)
  {
    if a == [] {
      assert a + b == b;
    } else {
      assert (a + b)[1..] == a[1..] + b;
      PutAfter(a[1..], b, r);
      assert [a[0]] + (a[1..] + Put(b, r)) == a + Put(b, r);
    }
  }

  /** A row older than the first of b leaves b alone. */
  lemma {:induction false} PutBefore(a: seq<Candle>, b: seq<Candle>, r: Candle)
    requires b != [] && r.ts < b[0].ts
    ensures Put(a + b, r) == Put(a, r) + b
  {
    if a == [] {
      assert a + b == b;
    } else {
      assert (a + b)[1..] == a[1..] + b;
      PutBefore(a[1..], b, r);
      assert Put(a + b, r) == Put(a, r) + b;
    }
  }

  lemma {:induction false} PutGrows(h: seq<Candle>, r: Candle)
    ensures |h| <= |Put(h, r)| <= |h| + 1
  {
    if h != [] && r.ts > h[0].ts { PutGrows(h[1..], r); }
  }

  /** The newest of a followed by enough are the newest of those. */
  lemma NewestOfTail(a: seq<Candle>, q: seq<Candle>, n: nat)
    requires |q| >= n
    ensures Newest(a + q, n) == Newest(q, n)
  {
    assert |a| > 0 || |q| > n ==> (a + q)[|a + q| - n..] == q[|q| - n..];
    assert a == [] ==> a + q == q;
    assert q[0..] == q;
  }

  /** Forgetting the oldest rows before a write changes nothing among the newest after it. */
  lemma NewestPut(h: seq<Candle>, r: Candle, n: nat)
    requires Ascending(h) && n > 0
    ensures Newest(Put(Newest(h, n), r), n) == Newest(Put(h, r), n)
  {
    if |h| > n {
      var a, b := h[..|h| - n], h[|h| - n..];
      assert h == a + b && Newest(h, n) == b && |b| == n;
      PutGrows(b, r);
      if r.ts < b[0].ts {
        PutBefore(a, b, r);
        assert Put(b, r) == [r] + b;
        hide Put, Newest, Ascending;
        NewestOfTail(Put(a, r), b, n);
        NewestOfTail([r], b, n);
      } else {
        assert forall i :: 0 <= i < |a| ==> a[i].ts < h[|a|].ts;
        PutAfter(a, b, r);
        hide Put, Newest, Ascending;
        NewestOfTail(a, Put(b, r), n);
      }
    }
  }

  lemma {:induction false} NewestPutAll(h: seq<Candle>, rows: seq<Candle>, n: nat)
    requires Ascending(h) && n > 0
    ensures Newest(PutAll(Newest(h, n), rows), n) == Newest(PutAll(h, rows), n)
  {
    if rows != [] {
      var init, r := rows[..|rows| - 1], rows[|rows| - 1];
      NewestPutAll(h, init, n);
      PutAllMeaning(h, init);
      PutAllMeaning(Newest(h, n), init);
      NewestPut(PutAll(h, init), r, n);
      NewestPut(PutAll(Newest(h, n), init), r, n);
    }
  }

  lemma {:induction false} PutAllAppend(h: seq<Candle>, a: seq<Candle>, b: seq<Candle>)
    ensures PutAll(h, a + b) == PutAll(PutAll(h, a), b)
  {
    if b == [] {
      assert a + b == a;
    } else {
      var n := |b| - 1;
      assert (a + b)[..|a + b| - 1] == a + b[..n];
      PutAllAppend(h, a, b[..n]);
    }
  }

  /** Merging twice with the cap in between is merging once. */
  lemma MergeTwice(base: seq<Candle>, a: seq<Candle>, b: seq<Candle>)
    requires Ascending(base)
    ensures Merge(Merge(base, a), b) == Merge(base, a + b)
  {
    MergeIsPuts(base, a);
    MergeIsPuts(base, a + b);
    PutAllMeaning(base, a);
    var once := PutAll(base, a);
    MergeIsPuts(Newest(once, KEPT), b);
    NewestPutAll(once, b, KEPT);
    PutAllAppend(base, a, b);
  }

  /** What a merge keeps: in ascending order, the last row written for each time, and among all
      those times the newest 600. */
  lemma MergeMeaning(base: seq<Candle>, rows: seq<Candle>)
    requires Ascending(base)
    ensures var h := Merge(base, rows);
            && Ascending(h) && |h| <= KEPT
            && (forall r :: r in h ==> IsLast(base + rows, r))
            && (forall r :: IsLast(base + rows, r) && r !in h ==> |h| == KEPT && r.ts < h[0].ts)
  {
    var all := SortIndex(KeepLast(base + rows));
    KeepLastMeaning(base + rows);
    SortMeaning(KeepLast(base + rows));
    var h := Merge(base, rows);
    if |all| > KEPT {
      var k := |all| - KEPT;
      forall i | 0 <= i < |all| ensures all[i] in h || all[i].ts < h[0].ts {
        assert i >= k ==> h[i - k] == all[i];
      }
    }
  }
}

/** One position per symbol across an account's engines (capital_ledger.py, engine.py).

    The protocol is a state machine over the atomic steps of its threads: each engine's position
    book has its own lock, a claim scans the engines one at a time while it holds the ledger's
    lock, and closes, entries and other signals run in between. */
module CapitalLedger {
  import opened Common

  type Trade = nat
  type Thread = nat
  type Engine = nat

  /** Where a thread is. */
  datatype Pc =
    | Idle
    | Wanting(engine: Engine, symbol: string)                  // flat here, about to claim
    | Scanning(engine: Engine, symbol: string, next: nat)      // holds the ledger lock
    | Entering(engine: Engine, symbol: string)                 // the claim is held
    | Releasing(engine: Engine, symbol: string)
    | Closing(engine: Engine, symbol: string, trade: Trade)    // popped, about to finalise

  datatype State = State(
    book: map<(Engine, string), Trade>,
    pending: set<string>,
    lock: Option<Thread>,
    pcs: map<Thread, Pc>,
    finalised: seq<Trade>,
    nextTrade: Trade)

  /** The attached engines, and the instruments the configuration knows. */
  datatype Setup = Setup(engines: nat, known: set<string>)

  datatype Step =
    | Signal(t: Thread, engine: Engine, symbol: string)   // on_signal: holds() on its own engine
    | BeginClaim(t: Thread)                               // take the ledger lock, look at pending
    | ScanOne(t: Thread)                                  // holds() on the next engine
    | EnterOk(t: Thread)
    | EnterFailed(t: Thread)
    | Release(t: Thread)
    | Pop(t: Thread, engine: Engine, symbol: string)      // any of the four ways to close
    | Finish(t: Thread)                                   // finalise, or put back an unknown symbol

  function At(s: State, t: Thread): Pc { if t in s.pcs then s.pcs[t] else Idle }

  function Go(s: State, t: Thread, pc: Pc): State { s.(pcs := s.pcs[t := pc]) }

  function Next(s: State, step: Step, c: Setup): State {
    match step
    case Signal(t, e, x) =>
      if At(s, t) != Idle || e >= c.engines || x !in c.known then s
      else if (e, x) in s.book then s
      else Go(s, t, Wanting(e, x))
    case BeginClaim(t) =>
      (match At(s, t)
       case Wanting(e, x) =>
         if s.lock.Some? then s
         else if x in s.pending then Go(s, t, Idle)
         else Go(s.(lock := Some(t)), t, Scanning(e, x, 0))
       case _ => s)
    case ScanOne(t) =>
      (match At(s, t)
       case Scanning(e, x, k) =>
         if k >= c.engines then Go(s.(lock := None, pending := s.pending + {x}), t, Entering(e, x))
         else if (k, x) in s.book then Go(s.(lock := None), t, Idle)
         else Go(s, t, Scanning(e, x, k + 1))
       case _ => s)
    case EnterOk(t) =>
      (match At(s, t)
       case Entering(e, x) =>
         Go(s.(book := s.book[(e, x) := s.nextTrade], nextTrade := s.nextTrade + 1), t, Releasing(e, x))
       case _ => s)
    case EnterFailed(t) =>
      (match At(s, t)
       case Entering(e, x) => Go(s, t, Releasing(e, x))
       case _ => s)
    case Release(t) =>
      (match At(s, t)
       case Releasing(e, x) => if s.lock.Some? then s else Go(s.(pending := s.pending - {x}), t, Idle)
       case _ => s)
    case Pop(t, e, x) =>
      if At(s, t) != Idle || (e, x) !in s.book then s
      else Go(s.(book := s.book - {(e, x)}), t, Closing(e, x, s.book[(e, x)]))
    case Finish(t) =>
      (match At(s, t)
       case Closing(e, x, trade) =>
         if x in c.known then Go(s.(finalised := s.finalised + [trade]), t, Idle)
         else Go(s.(book := s.book[(e, x) := trade]), t, Idle)
       case _ => s)
  }

  function Exec(s: State, steps: seq<Step>, c: Setup): State
    decreases |steps|
  {
    if steps == [] then s else Next(Exec(s, steps[..|steps| - 1], c), steps[|steps| - 1], c)
  }

  // ----------------------------------------------------------------- safety

  /** No symbol is held by two attached engines. */
  predicate OneHolder(s: State) {
    forall p, q :: p in s.book && q in s.book && p.1 == q.1 ==> p == q
  }

  predicate NoRepeats(xs: seq<Trade>) { forall i, j :: 0 <= i < j < |xs| ==> xs[i] != xs[j] }

  predicate Claims(pc: Pc, x: string) { (pc.Entering? || pc.Releasing?) && pc.symbol == x }

  /** Symbol x is off the books of engine e only until its unknown instrument is put back. */
  predicate Returning(pc: Pc, x: string, c: Setup) { pc.Closing? && pc.symbol == x && x !in c.known }

  ghost predicate Locking(s: State, c: Setup) {
    && (forall t: Thread :: At(s, t).Scanning? <==> s.lock == Some(t))
    && (forall t: Thread :: At(s, t).Scanning? ==>
          && At(s, t).symbol !in s.pending
          && (forall j: nat :: j < At(s, t).next ==> (j, At(s, t).symbol) !in s.book))
    && (forall t: Thread :: At(s, t).Wanting? || At(s, t).Scanning? || At(s, t).Entering? || At(s, t).Releasing? ==>
          At(s, t).engine < c.engines && At(s, t).symbol in c.known)
  }

  ghost predicate Claiming(s: State) {
    && (forall x :: x in s.pending <==> exists t: Thread :: Claims(At(s, t), x))
    && (forall t: Thread, u: Thread, x :: Claims(At(s, t), x) && Claims(At(s, u), x) ==> t == u)
    && (forall t: Thread, p :: At(s, t).Entering? && p in s.book ==> p.1 != At(s, t).symbol)
  }

  ghost predicate Holding(s: State, c: Setup) {
    && OneHolder(s)
    && (forall p :: p in s.book ==> p.0 < c.engines)
    && (forall t: Thread, p :: p in s.book ==> !Returning(At(s, t), p.1, c))
    && (forall t: Thread, u: Thread, x :: Returning(At(s, t), x, c) && Returning(At(s, u), x, c) ==> t == u)
    && (forall t: Thread :: At(s, t).Closing? ==> At(s, t).engine < c.engines)
  }

  /** Every trade is on one book, or being closed by one thread, or finalised once. */
  ghost predicate Once(s: State) {
    && (forall p :: p in s.book ==> s.book[p] < s.nextTrade && s.book[p] !in s.finalised)
    && (forall p, q :: p in s.book && q in s.book && s.book[p] == s.book[q] ==> p == q)
    && (forall t: Thread :: At(s, t).Closing? ==>
          && At(s, t).trade < s.nextTrade && At(s, t).trade !in s.finalised
          && forall p :: p in s.book ==> s.book[p] != At(s, t).trade)
    && (forall t: Thread, u: Thread ::
          At(s, t).Closing? && At(s, u).Closing? && At(s, t).trade == At(s, u).trade ==> t == u)
    && NoRepeats(s.finalised)
    && (forall i :: 0 <= i < |s.finalised| ==> s.finalised[i] < s.nextTrade)
  }

  ghost predicate Inv(s: State, c: Setup) { Locking(s, c) && Claiming(s) && Holding(s, c) && Once(s) }

  /** A step moves one thread. */
  lemma OthersStay(s: State, step: Step, c: Setup)
    ensures forall u: Thread :: u != step.t ==> At(Next(s, step, c), u) == At(s, u)
  {
  }

  /** What a step can do to the books. */
  lemma BookChange(s: State, step: Step, c: Setup)
    ensures var s' := Next(s, step, c);
            var pc := At(s, step.t);
            || s'.book == s.book
            || (step.EnterOk? && pc.Entering? && s'.book == s.book[(pc.engine, pc.symbol) := s.nextTrade])
            || (step.Pop? && pc.Idle? && (step.engine, step.symbol) in s.book
                && s'.book == s.book - {(step.engine, step.symbol)})
            || (step.Finish? && pc.Closing? && pc.symbol !in c.known
                && s'.book == s.book[(pc.engine, pc.symbol) := pc.trade])
  {
  }

  /** A step opens a position only where a claim is held or an unknown symbol is returning. */
  lemma NewHolder(s: State, step: Step, c: Setup, p: (Engine, string))
    requires p in Next(s, step, c).book && p !in s.book
    ensures var pc := At(s, step.t);
            p == (pc.engine, pc.symbol) && ((step.EnterOk? && pc.Entering?) || (step.Finish? && Returning(pc, p.1, c)))
  {
    BookChange(s, step, c);
  }

  lemma LockingKept(s: State, step: Step, c: Setup)
    requires Inv(s, c)
    ensures Locking(Next(s, step, c), c)
  {
    var s' := Next(s, step, c);
    LockIsScanners(s, step, c);
    BusyIsKnown(s, step, c);
    forall u: Thread | At(s', u).Scanning?
      ensures At(s', u).symbol !in s'.pending
              && forall j: nat :: j < At(s', u).next ==> (j, At(s', u).symbol) !in s'.book
    {
      ScanUndisturbed(s, step, c, u);
    }
    hide Inv, Next, At;
  }

  /** The lock is its scanner's. */
  lemma LockIsScanners(s: State, step: Step, c: Setup)
    requires Locking(s, c)
    ensures forall u: Thread :: At(Next(s, step, c), u).Scanning? <==> Next(s, step, c).lock == Some(u)
  {
    var s', t := Next(s, step, c), step.t;
    OthersStay(s, step, c);
    assert At(s, t).Scanning? <==> s.lock == Some(t);
    forall u: Thread ensures At(s', u).Scanning? <==> s'.lock == Some(u) {
      assert At(s, u).Scanning? <==> s.lock == Some(u);
    }
  }

  lemma BusyIsKnown(s: State, step: Step, c: Setup)
    requires Locking(s, c)
    ensures forall u: Thread ::
              var pc := At(Next(s, step, c), u);
              pc.Wanting? || pc.Scanning? || pc.Entering? || pc.Releasing? ==>
                  pc.engine < c.engines && pc.symbol in c.known
  {
    OthersStay(s, step, c);
    forall u: Thread
      ensures var pc := At(Next(s, step, c), u);
              pc.Wanting? || pc.Scanning? || pc.Entering? || pc.Releasing? ==>
                  pc.engine < c.engines && pc.symbol in c.known
    {
      assert u != step.t ==> At(Next(s, step, c), u) == At(s, u);
    }
  }

  /** While the ledger's lock is held nobody else can claim, so what the scan has seen stays. */
  lemma ScanUndisturbed(s: State, step: Step, c: Setup, u: Thread)
    requires Inv(s, c) && At(Next(s, step, c), u).Scanning?
    ensures var s' := Next(s, step, c);
            At(s', u).symbol !in s'.pending && forall j: nat :: j < At(s', u).next ==> (j, At(s', u).symbol) !in s'.book
  {
    hide Once, OneHolder;
    var s' := Next(s, step, c);
    var x := At(s', u).symbol;
    OthersStay(s, step, c);
    if At(s, u).Scanning? {
      assert s.lock == Some(u) && x == At(s, u).symbol && x in c.known && x !in s.pending;
      forall j: nat | j < At(s', u).next ensures (j, x) !in s'.book {
        if (j, x) in s'.book && (j, x) !in s.book {
          NewHolder(s, step, c, (j, x));
          assert false;
        }
      }
      assert x !in s'.pending by {
        if step.t != u { assert !At(s, step.t).Scanning?; }
      }
    } else {
      assert step == BeginClaim(u);
    }
  }

  lemma ClaimingKept(s: State, step: Step, c: Setup)
    requires Inv(s, c)
    ensures Claiming(Next(s, step, c))
  {
    hide Once, Holding;
    var s' := Next(s, step, c);
    var t := step.t;
    OthersStay(s, step, c);
    ClaimChange(s, step, c);
    hide Next;
    forall x ensures x in s'.pending <==> exists u: Thread :: Claims(At(s', u), x) {
      if x in s.pending {
        var u :| Claims(At(s, u), x);
        assert u != t ==> Claims(At(s', u), x);
      }
    }
    forall u: Thread, v: Thread, x | Claims(At(s', u), x) && Claims(At(s', v), x) ensures u == v {
      assert u != t ==> Claims(At(s, u), x);
      assert v != t ==> Claims(At(s, v), x);
    }
    forall u: Thread, p | At(s', u).Entering? && p in s'.book ensures p.1 != At(s', u).symbol {
      EnteringAlone(s, step, c, u, p);
    }
  }

  /** How a step moves its thread's claim, and the pending set with it. */
  lemma ClaimChange(s: State, step: Step, c: Setup)
    requires Inv(s, c)
    ensures var s' := Next(s, step, c);
            var a, b := At(s, step.t), At(s', step.t);
            || (s'.pending == s.pending && forall x :: Claims(a, x) <==> Claims(b, x))
            || (a.Scanning? && b.Entering? && b.symbol == a.symbol && a.symbol !in s.pending
                && s'.pending == s.pending + {a.symbol})
            || (a.Releasing? && b.Idle? && s'.pending == s.pending - {a.symbol})
  {
    hide Once, Holding, Claiming;
  }

  lemma EnteringAlone(s: State, step: Step, c: Setup, u: Thread, p: (Engine, string))
    requires Inv(s, c) && At(Next(s, step, c), u).Entering? && p in Next(s, step, c).book
    ensures p.1 != At(Next(s, step, c), u).symbol
  {
    hide Once, OneHolder;
    var s' := Next(s, step, c);
    OthersStay(s, step, c);
    if At(s, u).Entering? {
      assert At(s', u) == At(s, u);
      if p !in s.book {
        NewHolder(s, step, c, p);
        assert step.t != u;
        var x := At(s, u).symbol;
        assert Claims(At(s, u), x);
        assert !Claims(At(s, step.t), x);
      }
    } else {
      assert step == ScanOne(u) && At(s, u).Scanning? && At(s, u).next >= c.engines;
      assert s'.book == s.book;
      assert p.0 < c.engines;
    }
  }

  lemma HoldingKept(s: State, step: Step, c: Setup)
    requires Inv(s, c)
    ensures Holding(Next(s, step, c), c)
  {
    hide Once;
    var s' := Next(s, step, c);
    var t := step.t;
    OthersStay(s, step, c);
    BookChange(s, step, c);
    ReturnChange(s, step, c);
    hide Next;
    forall p, q | p in s'.book && q in s'.book && p.1 == q.1 ensures p == q {
      if p !in s.book { NewAlone(s, step, c, p, q); }
      if q !in s.book { NewAlone(s, step, c, q, p); }
    }
    forall p | p in s'.book ensures p.0 < c.engines {
      if p !in s.book { NewHolder(s, step, c, p); }
    }
    forall u: Thread, p | p in s'.book ensures !Returning(At(s', u), p.1, c) {
      if p !in s.book {
        NewHolder(s, step, c, p);
        assert u != t ==> !Returning(At(s, u), p.1, c);
      }
    }
    forall u: Thread, v: Thread, x | Returning(At(s', u), x, c) && Returning(At(s', v), x, c) ensures u == v {
      assert u != t ==> Returning(At(s, u), x, c);
      assert v != t ==> Returning(At(s, v), x, c);
    }
  }

  /** How a step moves its thread's closing. */
  lemma ReturnChange(s: State, step: Step, c: Setup)
    ensures var s' := Next(s, step, c);
            var a, b := At(s, step.t), At(s', step.t);
            (b.Closing? ==>
               || (b == a && s'.book == s.book)
               || (step.Pop? && (b.engine, b.symbol) in s.book && b.trade == s.book[(b.engine, b.symbol)]
                   && s'.book == s.book - {(b.engine, b.symbol)}))
  {
  }

  lemma NewAlone(s: State, step: Step, c: Setup, p: (Engine, string), q: (Engine, string))
    requires Inv(s, c)
    requires p in Next(s, step, c).book && p !in s.book && q in Next(s, step, c).book && p.1 == q.1
    ensures p == q
  {
    hide Once, Next;
    NewHolder(s, step, c, p);
    if q in s.book {
      assert false;
    } else {
      NewHolder(s, step, c, q);
    }
  }

  lemma OnceKept(s: State, step: Step, c: Setup)
    requires Inv(s, c)
    ensures Once(Next(s, step, c))
  {
    hide Locking, Claiming, OneHolder, Holding;
    OthersStay(s, step, c);
    match step
    case EnterOk(t) => EnterOnce(s, t, c);
    case Pop(t, e, x) => PopOnce(s, t, e, x, c);
    case Finish(t) => FinishOnce(s, t, c);
    case _ => QuietOnce(s, step, c);
  }

  /** Steps that touch neither the books nor a closing keep every trade where it was. */
  lemma QuietOnce(s: State, step: Step, c: Setup)
    requires Once(s) && !step.EnterOk? && !step.Pop? && !step.Finish?
    ensures Once(Next(s, step, c))
  {
    var s' := Next(s, step, c);
    OthersStay(s, step, c);
    assert s'.book == s.book && s'.finalised == s.finalised && s'.nextTrade == s.nextTrade;
    assert At(s', step.t).Closing? ==> s' == s;
    hide Next;
    assert forall u: Thread :: At(s', u).Closing? ==> At(s', u) == At(s, u);
    hide At;
  }

  lemma EnterOnce(s: State, t: Thread, c: Setup)
    requires Once(s)
    ensures Once(Next(s, EnterOk(t), c))
  {
    var s' := Next(s, EnterOk(t), c);
    OthersStay(s, EnterOk(t), c);
    if s' != s {
      var key := (At(s, t).engine, At(s, t).symbol);
      assert s'.book == s.book[key := s.nextTrade] && s'.nextTrade == s.nextTrade + 1 && s'.finalised == s.finalised;
      assert At(s', t).Releasing?;
      hide Next;
    }
  }

  lemma PopOnce(s: State, t: Thread, e: Engine, x: string, c: Setup)
    requires Once(s)
    ensures Once(Next(s, Pop(t, e, x), c))
  {
    var s' := Next(s, Pop(t, e, x), c);
    OthersStay(s, Pop(t, e, x), c);
    if s' != s {
      assert s'.book == s.book - {(e, x)} && s'.nextTrade == s.nextTrade && s'.finalised == s.finalised;
      assert At(s', t) == Closing(e, x, s.book[(e, x)]);
      hide Next;
    }
  }

  lemma FinishOnce(s: State, t: Thread, c: Setup)
    requires Once(s)
    ensures Once(Next(s, Finish(t), c))
  {
    var s' := Next(s, Finish(t), c);
    OthersStay(s, Finish(t), c);
    if s' != s {
      var pc := At(s, t);
      assert At(s', t).Idle? && s'.nextTrade == s.nextTrade;
      if pc.symbol in c.known {
        assert s'.book == s.book && s'.finalised == s.finalised + [pc.trade];
      } else {
        assert s'.book == s.book[(pc.engine, pc.symbol) := pc.trade] && s'.finalised == s.finalised;
      }
      hide Next;
    }
  }

  /** Holdings an account may start from: each symbol on one engine, each trade once. */
  ghost predicate Disjoint(s: State, c: Setup) {
    && s.pending == {} && s.lock == None && s.pcs == map[] && s.finalised == []
    && OneHolder(s) && (forall p :: p in s.book ==> p.0 < c.engines && s.book[p] < s.nextTrade)
    && (forall p, q :: p in s.book && q in s.book && s.book[p] == s.book[q] ==> p == q)
  }

  lemma {:induction false} ReachableInv(s: State, steps: seq<Step>, c: Setup)
    requires Disjoint(s, c)
    ensures Inv(Exec(s, steps, c), c)
    decreases |steps|
  {
    hide Next, Locking, Claiming, Holding, Once;
    if steps == [] {
      DisjointInv(s, c);
    } else {
      var n := |steps| - 1;
      var b := Exec(s, steps[..n], c);
      ReachableInv(s, steps[..n], c);
      LockingKept(b, steps[n], c);
      ClaimingKept(b, steps[n], c);
      HoldingKept(b, steps[n], c);
      OnceKept(b, steps[n], c);
    }
  }

  lemma DisjointInv(s: State, c: Setup)
    requires Disjoint(s, c)
    ensures Inv(s, c)
  {
  }

  /** From disjoint holdings, under every interleaving of signals, claims, scans, entries that
      succeed or fail, releases and closes: at most one engine holds any symbol, no trade is
      finalised twice, and a claimed symbol is always some thread's to release. */
  lemma OnePositionPerSymbol(s: State, steps: seq<Step>, c: Setup)
    requires Disjoint(s, c)
    ensures var now := Exec(s, steps, c);
            && OneHolder(now) && NoRepeats(now.finalised)
            && (forall p :: p in now.book ==> now.book[p] !in now.finalised)
            && (forall x :: x in now.pending ==> exists t: Thread :: Claims(At(now, t), x))
  {
    ReachableInv(s, steps, c);
  }

  // ------------------------------------------------------- a start that is not disjoint

  /** What rehydration gives: every open trade of the account on every engine. */
  function Rehydrated(trades: map<string, Trade>, engines: nat, next: Trade): State {
    State(map e: nat, x | e < engines && x in trades :: (e, x) := trades[x], {}, None, map[], [], next)
  }

  /** Rehydrated engines are safe exactly when the start is trivially disjoint: one engine, or
      nothing open. Otherwise two engines hold the same symbol before the first step. */
  lemma RehydratedExactly(trades: map<string, Trade>, next: Trade, c: Setup)
    requires forall x :: x in trades ==> trades[x] < next
    requires forall x, y :: x in trades && y in trades && trades[x] == trades[y] ==> x == y
    ensures c.engines < 2 || trades == map[] <==>
            forall steps: seq<Step> :: OneHolder(Exec(Rehydrated(trades, c.engines, next), steps, c))
  {
    hide Next, Rehydrated;
    var s := Rehydrated(trades, c.engines, next);
    if c.engines < 2 || trades == map[] {
      RehydratedDisjoint(trades, next, c);
      forall steps: seq<Step> ensures OneHolder(Exec(s, steps, c)) { OnePositionPerSymbol(s, steps, c); }
    } else {
      RehydratedShares(trades, c.engines, next);
      assert !OneHolder(Exec(s, [], c));
    }
  }

  lemma RehydratedDisjoint(trades: map<string, Trade>, next: Trade, c: Setup)
    requires forall x :: x in trades ==> trades[x] < next
    requires forall x, y :: x in trades && y in trades && trades[x] == trades[y] ==> x == y
    requires c.engines < 2 || trades == map[]
    ensures Disjoint(Rehydrated(trades, c.engines, next), c)
  {
  }

  lemma RehydratedShares(trades: map<string, Trade>, engines: nat, next: Trade)
    requires engines >= 2 && trades != map[]
    ensures !OneHolder(Rehydrated(trades, engines, next))
  {
    var x :| x in trades;
    var s := Rehydrated(trades, engines, next);
    assert (0, x) in s.book && (1, x) in s.book;
  }

  /** And then a trade of a known instrument can be finalised twice. */
  lemma RehydratedTwice(trades: map<string, Trade>, x: string, next: Trade, c: Setup)
    requires c.engines >= 2 && x in trades && x in c.known
    ensures var steps := [Pop(0, 0, x), Finish(0), Pop(0, 1, x), Finish(0)];
            Exec(Rehydrated(trades, c.engines, next), steps, c).finalised == [trades[x], trades[x]]
  {
    var s := Rehydrated(trades, c.engines, next);
    var steps := [Pop(0, 0, x), Finish(0), Pop(0, 1, x), Finish(0)];
    var s2 := TakeOff(s, 0, x, c);
    var s4 := TakeOff(s2, 1, x, c);
    assert (0, x) in s.book && (1, x) in s.book;
    assert steps[..3][..2] == steps[..2] && steps[..2][..1] == steps[..1] && steps[..1][..0] == [];
    hide Next;
    assert Exec(s, steps[..1], c) == Next(s, steps[0], c);
    assert Exec(s, steps[..2], c) == s2;
    assert Exec(s, steps[..3], c) == Next(s2, steps[2], c);
  }

  /** One position closed from start to end by thread 0. */
  function TakeOff(s: State, e: Engine, x: string, c: Setup): (r: State)
    ensures At(s, 0) == Idle && (e, x) in s.book && x in c.known ==>
              r.finalised == s.finalised + [s.book[(e, x)]] && r.book == s.book - {(e, x)} && At(r, 0) == Idle
  {
    Next(Next(s, Pop(0, e, x), c), Finish(0), c)
  }

  // ------------------------------------------------------- the ledger's own object

  class TradingEngine {
    var open: map<string, Trade>

    constructor (open: map<string, Trade>)
      ensures this.open == open
    {
      this.open := open;
    }

    predicate Holds(x: string) reads this { x in open }

    method Enter(x: string, trade: Trade)
      modifies this
      ensures open == old(open)[x := trade]
    {
      open := open[x := trade];
    }

    /** Take a position off the book; None when it is already gone. */
    method Take(x: string) returns (trade: Option<Trade>)
      modifies this
      ensures trade == if x in old(open) then Some(old(open)[x]) else None
      ensures open == old(open) - {x}
    {
      trade := None;
      if x in open { trade := Some(open[x]); }
      open := open - {x};
    }

    /** A manual close: taken for finalising, or put back when the instrument is unknown. */
    method ClosePosition(x: string, known: set<string>) returns (closed: Option<Trade>)
      modifies this
      ensures closed == if x in old(open) && x in known then Some(old(open)[x]) else None
      ensures open == if x in known then old(open) - {x} else old(open)
    {
      var trade := Take(x);
      if trade.Some? && x !in known {
        Enter(x, trade.value);
        return None;
      }
      closed := trade;
    }
  }

  /** The ledger with the engines standing still, which is what each lock gives its holder. */
  class Ledger {
    var engines: seq<TradingEngine>
    var pending: set<string>

    constructor ()
      ensures engines == [] && pending == {}
    {
      engines, pending := [], {};
    }

    /** Some attached engine has x on its books. */
    predicate Held(x: string) reads this`engines, engines { exists i :: 0 <= i < |engines| && engines[i].Holds(x) }

    /** The books of every engine, as the protocol sees them. */
    ghost function Books(): (b: map<(Engine, string), Trade>)
      reads this`engines, engines
      ensures forall p: (Engine, string) :: p in b <==> p.0 < |engines| && engines[p.0].Holds(p.1)
    {
      map e: nat, x | e < |engines| && x in engines[e].open :: (e, x) := engines[e].open[x]
    }

    method Attach(e: TradingEngine)
      modifies this`engines
      ensures engines == if e in old(engines) then old(engines) else old(engines) + [e]
    {
      if e !in engines { engines := engines + [e]; }
    }

    method AnyHolds(x: string) returns (held: bool)
      ensures held == Held(x)
    {
      var i := 0;
      while i < |engines|
        invariant 0 <= i <= |engines|
        invariant forall j :: 0 <= j < i ==> !engines[j].Holds(x)
      {
        if engines[i].Holds(x) { return true; }
        i := i + 1;
      }
      return false;
    }

    method SymbolBusy(x: string) returns (busy: bool)
      ensures busy == (x in pending || Held(x))
    {
      if x in pending { return true; }
      busy := AnyHolds(x);
    }

    method ClaimSymbol(x: string) returns (ok: bool)
      modifies this`pending
      ensures ok == (x !in old(pending) && !Held(x))
      ensures pending == if ok then old(pending) + {x} else old(pending)
    {
      if x in pending { return false; }
      var held := AnyHolds(x);
      if held { return false; }
      pending := pending + {x};
      return true;
    }

    method ReleaseSymbol(x: string)
      modifies this`pending
      ensures pending == old(pending) - {x}
    {
      pending := pending - {x};
    }

    /** No two attached engines hold the same symbol. */
    predicate Exclusive() reads this`engines, engines {
      forall i, j, x ::
        0 <= i < |engines| && 0 <= j < |engines| && x in engines[i].open && x in engines[j].open ==> i == j
    }

    /** A signal to one engine: claim, attempt the entry (None when it fails), always release. */
    method OnSignal(i: Engine, x: string, fill: Option<Trade>) returns (entered: bool)
      requires i < |engines| && forall j, k :: 0 <= j < k < |engines| ==> engines[j] != engines[k]
      modifies this`pending, engines[i]
      ensures entered == (!old(Held(x)) && x !in old(pending) && fill.Some?)
      ensures engines[i].open == if entered then old(engines[i].open)[x := fill.value] else old(engines[i].open)
      ensures pending == old(pending)
      ensures old(Exclusive()) ==> Exclusive()
    {
      if engines[i].Holds(x) { return false; }
      var claimed := ClaimSymbol(x);
      if !claimed { return false; }
      entered := fill.Some?;
      if entered { engines[i].Enter(x, fill.value); }
      ReleaseSymbol(x);
    }
  }

  /** The object's claim is what the protocol's claim comes to when nothing else moves. */
  lemma ClaimIsProtocol(l: Ledger, t: Thread, e: Engine, x: string, c: Setup, next: Trade)
    requires c.engines == |l.engines|
    ensures var s := State(l.Books(), l.pending, None, map[t := Wanting(e, x)], [], next);
            var s' := Claimed(s, t, c);
            var ok := x !in l.pending && !l.Held(x);
            && s'.book == l.Books() && s'.lock == None
            && s'.pending == (if ok then l.pending + {x} else l.pending)
            && At(s', t) == (if ok then Entering(e, x) else Idle)
  {
    hide Claimed, Next;
    var s := State(l.Books(), l.pending, None, map[t := Wanting(e, x)], [], next);
    assert forall p :: p in s.book ==> p.0 < c.engines;
    assert At(s, t) == Wanting(e, x);
    ClaimedAlone(s, t, c);
    HeldIsInBooks(l, x);
  }

  lemma HeldIsInBooks(l: Ledger, x: string)
    ensures l.Held(x) <==> exists i: nat :: i < |l.engines| && (i, x) in l.Books()
  {
    if l.Held(x) {
      var i :| 0 <= i < |l.engines| && l.engines[i].Holds(x);
      assert (i, x) in l.Books();
    }
  }

  /** Thread t's claim with no other thread moving: one step to begin, then one per engine. */
  function Claimed(s: State, t: Thread, c: Setup): State {
    Scanned(Next(s, BeginClaim(t), c), t, c.engines + 1, c)
  }

  function Scanned(s: State, t: Thread, steps: nat, c: Setup): State
    decreases steps
  {
    if steps == 0 then s else Scanned(Next(s, ScanOne(t), c), t, steps - 1, c)
  }

  lemma ClaimedAlone(s: State, t: Thread, c: Setup)
    requires At(s, t).Wanting? && s.lock == None && (forall p :: p in s.book ==> p.0 < c.engines)
    ensures var pc, s' := At(s, t), Claimed(s, t, c);
            var ok := pc.symbol !in s.pending && forall e: nat :: e < c.engines ==> (e, pc.symbol) !in s.book;
            && s'.book == s.book && s'.lock == None
            && s'.pending == (if ok then s.pending + {pc.symbol} else s.pending)
            && At(s', t) == (if ok then Entering(pc.engine, pc.symbol) else Idle)
  {
    var s1 := Next(s, BeginClaim(t), c);
    if At(s, t).symbol in s.pending {
      IdleScans(s1, t, c.engines + 1, c);
    } else {
      ScanAlone(s1, t, c);
    }
  }

  lemma {:induction false} IdleScans(s: State, t: Thread, steps: nat, c: Setup)
    requires !At(s, t).Scanning?
    ensures Scanned(s, t, steps, c) == s
  {
    if steps > 0 { IdleScans(s, t, steps - 1, c); }
  }

  /** What is left of a scan finds a holder, or claims the symbol. */
  lemma {:induction false} ScanAlone(s: State, t: Thread, c: Setup)
    requires At(s, t).Scanning? && At(s, t).next <= c.engines && At(s, t).symbol !in s.pending
    ensures var pc := At(s, t);
            var s' := Scanned(s, t, c.engines + 1 - pc.next, c);
            var free := forall e: nat :: pc.next <= e < c.engines ==> (e, pc.symbol) !in s.book;
            && s'.book == s.book && s'.lock == None
            && s'.pending == (if free then s.pending + {pc.symbol} else s.pending)
            && At(s', t) == (if free then Entering(pc.engine, pc.symbol) else Idle)
    decreases c.engines - At(s, t).next
  {
    var pc := At(s, t);
    var s1 := Next(s, ScanOne(t), c);
    if At(s1, t).Scanning? {
      ScanAlone(s1, t, c);
    } else {
      IdleScans(s1, t, c.engines - pc.next, c);
    }
  }
}

/** What holds of every backtest, whatever the bars, the signals and the settings. */
module BacktestProofs {
  import opened Common
  import opened ExitManager
  import opened ExitInvariants
  import opened ExitTheorems
  import opened CostModel
  import opened Backtester

  // ------------------------------------------------- partials inside one bar

  function PartialsOf(actions: seq<Action>): int {
    if actions == [] then 0
    else PartialsOf(actions[..|actions| - 1]) + (var a := actions[|actions| - 1]; if a.Partial? then a.qty else 0)
  }

  function PartialCount(actions: seq<Action>): nat {
    if actions == [] then 0
    else PartialCount(actions[..|actions| - 1]) + (if actions[|actions| - 1].Partial? then 1 else 0)
  }

  predicate PositivePartials(actions: seq<Action>) {
    forall k :: 0 <= k < |actions| && actions[k].Partial? ==> actions[k].qty > 0
  }

  predicate NoPartials(actions: seq<Action>) { forall k :: 0 <= k < |actions| ==> !actions[k].Partial? }

  lemma {:induction false} PartialsConcat(a: seq<Action>, b: seq<Action>)
    ensures PartialsOf(a + b) == PartialsOf(a) + PartialsOf(b)
    ensures PartialCount(a + b) == PartialCount(a) + PartialCount(b)
  {
    if b == [] {
      assert a + b == a;
    } else {
      assert (a + b)[..|a + b| - 1] == a + b[..|b| - 1];
      PartialsConcat(a, b[..|b| - 1]);
    }
  }

  lemma {:induction false} NoPartialsSum(a: seq<Action>)
    requires NoPartials(a)
    ensures PartialsOf(a) == 0 && PartialCount(a) == 0
  {
    if a != [] { NoPartialsSum(a[..|a| - 1]); }
  }

  lemma EventPartials(s: Position, price: real, p: ExitParams)
    requires s.qty > 0
    ensures var a := FirstTargetEvent(s, price, p);
            && PositivePartials(a.actions) && PartialsOf(a.actions) == s.qty - a.pos.qty && a.pos.qty > 0
            && PartialCount(a.actions) + (if s.firstTargetDone then 1 else 0)
               <= (if a.pos.firstTargetDone then 1 else 0)
  {
    var a := FirstTargetEvent(s, price, p);
    hide EventStop, RunnerTarget;
    if EventFires(s, price, p) {
      var move := [MoveStop(a.pos.stop, if LocksAtOnce(p) then LockTp1 else BreakEvenBuffer)];
      NoPartialsSum(move);
      if Splits(s, p) {
        var partial := [Partial(s.target.level, PartialQty(s.qty, p.partialExitFraction), PartialTarget)];
        assert a.actions == partial + move;
        PartialsConcat(partial, move);
        assert partial[..0] == [];
      } else {
        assert a.actions == move;
      }
    }
  }

  predicate Takes(s: Position, o: Outcome) {
    && PositivePartials(o.actions)
    && 0 <= PartialsOf(o.actions) < s.qty
    && o.pos.qty == (if HasExit(o.actions) then 0 else s.qty - PartialsOf(o.actions))
    && PartialCount(o.actions) + (if s.firstTargetDone then 1 else 0) <= (if o.pos.firstTargetDone then 1 else 0)
  }

  /** The partials of a call are those of its first-target event. */
  lemma StepPartials(s: Position, t: Tick, p: ExitParams)
    requires s.qty > 0
    ensures var all, first := Step(s, t, p).actions, FirstTargetEvent(s, t.price, p).actions;
            && PartialsOf(all) == PartialsOf(first) && PartialCount(all) == PartialCount(first)
            && (PositivePartials(first) ==> PositivePartials(all))
  {
    hide FirstTargetEvent, LockStep, TrailStep, ExitStep;
    var a := FirstTargetEvent(s, t.price, p);
    var b := LockStep(a.pos, t.price, t.atr, p);
    var c := TrailStep(b.pos, t.price, t.atr, p);
    LockTightens(a.pos, t.price, t.atr, p);
    TrailTightens(b.pos, t.price, t.atr, p);
    ExitNoPartials(c.pos, t.price, p);
    JoinPartials(a.actions, b.actions, c.actions, ExitStep(c.pos, t.price, p).actions);
  }

  lemma StepTakes(s: Position, t: Tick, p: ExitParams)
    requires s.qty > 0
    ensures Takes(s, Step(s, t, p))
  {
    hide Step, FirstTargetEvent, BeforeExit, ExitStep, HasExit;
    var m := BeforeExit(s, t, p);
    EventPartials(s, t.price, p);
    StepPartials(s, t, p);
    StepParts(s, t, p);
    BeforeExitFrame(s, t, p);
    ExitBooks(m, t.price, p);
    EventBooks(s, t.price, p);
  }

  lemma ExitNoPartials(m: Position, price: real, p: ExitParams)
    ensures NoPartials(ExitStep(m, price, p).actions)
  {
  }

  lemma JoinPartials(a: seq<Action>, b: seq<Action>, c: seq<Action>, d: seq<Action>)
    requires NoPartials(b) && NoPartials(c) && NoPartials(d)
    ensures PartialsOf(a + b + c + d) == PartialsOf(a) && PartialCount(a + b + c + d) == PartialCount(a)
    ensures PositivePartials(a) ==> PositivePartials(a + b + c + d)
  {
    PartialsConcat(a, b);
    PartialsConcat(a + b, c);
    PartialsConcat(a + b + c, d);
    NoPartialsSum(b);
    NoPartialsSum(c);
    NoPartialsSum(d);
  }

  lemma {:induction false} RunTakes(s: Position, ticks: seq<Tick>, p: ExitParams)
    requires s.qty > 0
    ensures Takes(s, Run(s, ticks, p))
    decreases |ticks|
  {
    hide Step;
    if ticks != [] {
      var x := Step(s, ticks[0], p);
      var rest := Run(x.pos, ticks[1..], p);
      StepTakes(s, ticks[0], p);
      ExitEither(x.actions, rest.actions);
      PartialsConcat(x.actions, rest.actions);
      if x.pos.qty > 0 {
        RunTakes(x.pos, ticks[1..], p);
      } else {
        ClosedRunIsInert(x.pos, ticks[1..], p);
      }
    }
  }

  lemma BarTakes(s: Position, b: Bar, atr: real, p: ExitParams)
    requires s.qty > 0
    ensures Takes(s, StepBar(s, b, atr, p))
    ensures var o := StepBar(s, b, atr, p); o.pos.riskDist == s.riskDist
  {
    hide StepBar, Run, Step;
    BarIsThreeTicks(s, b, atr, p);
    RunTakes(s, BarTicks(s.side, b, atr), p);
    RunKeepsRisk(s, BarTicks(s.side, b, atr), p);
  }

  lemma {:induction false} RunKeepsRisk(s: Position, ticks: seq<Tick>, p: ExitParams)
    ensures Run(s, ticks, p).pos.riskDist == s.riskDist
    decreases |ticks|
  {
    hide Step;
    if ticks != [] {
      StepKeepsRisk(s, ticks[0], p);
      RunKeepsRisk(Step(s, ticks[0], p).pos, ticks[1..], p);
    }
  }

  lemma StepKeepsRisk(s: Position, t: Tick, p: ExitParams)
    ensures Step(s, t, p).pos.riskDist == s.riskDist
  {
    hide FirstTargetEvent, BeforeExit, ExitStep;
    if s.qty > 0 {
      StepParts(s, t, p);
      BeforeExitFrame(s, t, p);
      ExitBooks(BeforeExit(s, t, p), t.price, p);
    }
  }

  // ------------------------------------------------------- sums over the rows

  function NetOf(trades: seq<Trade>): real {
    if trades == [] then 0.0
    else NetOf(trades[..|trades| - 1]) + (trades[|trades| - 1].pnl - trades[|trades| - 1].cost)
  }

  function QtyOf(trades: seq<Trade>, id: int): int {
    if trades == [] then 0
    else QtyOf(trades[..|trades| - 1], id) + (var t := trades[|trades| - 1]; if t.positionId == id then t.qty else 0)
  }

  function LegsOf(trades: seq<Trade>, id: int): nat {
    if trades == [] then 0
    else LegsOf(trades[..|trades| - 1], id) + (if trades[|trades| - 1].positionId == id then 1 else 0)
  }

  function CostOf(trades: seq<Trade>, id: int): real {
    if trades == [] then 0.0
    else CostOf(trades[..|trades| - 1], id)
         + (var t := trades[|trades| - 1]; if t.positionId == id then t.cost else 0.0)
  }

  /** What the legs of a position turned over at their entries, and at their exits. */
  function EnteredOf(trades: seq<Trade>, id: int, m: real): real {
    if trades == [] then 0.0
    else EnteredOf(trades[..|trades| - 1], id, m)
         + (var t := trades[|trades| - 1]; if t.positionId == id then Turnover(t.entry, t.qty, m) else 0.0)
  }

  function ExitedOf(trades: seq<Trade>, id: int, m: real): real {
    if trades == [] then 0.0
    else ExitedOf(trades[..|trades| - 1], id, m)
         + (var t := trades[|trades| - 1]; if t.positionId == id then Turnover(t.exit, t.qty, m) else 0.0)
  }

  lemma {:induction false} AbsentId(trades: seq<Trade>, id: int)
    requires forall k :: 0 <= k < |trades| ==> trades[k].positionId != id
    ensures QtyOf(trades, id) == 0 && LegsOf(trades, id) == 0
  {
    if trades != [] { AbsentId(trades[..|trades| - 1], id); }
  }

  // ------------------------------------------------------------ the invariant

  function LastId(b: Book): int { if b.entries == [] then 0 else b.entries[|b.entries| - 1].id }

  /** Units of the k-th position still open. */
  function Remaining(b: Book, k: int): int {
    if b.position.Some? && k == |b.entries| - 1 then b.position.value.qty else 0
  }

  /** Some position was entered under this id. */
  predicate Entered(entries: seq<Entry>, id: int) { exists k :: 0 <= k < |entries| && entries[k].id == id }

  /** Ids are distinct and grow; every row belongs to an entered position; every position's
      rows and open remainder add up to its entry quantity. */
  ghost predicate Conserves(b: Book) {
    && (forall j, k :: 0 <= j < k < |b.entries| ==> b.entries[j].id < b.entries[k].id)
    && (forall k :: 0 <= k < |b.entries| ==> b.entries[k].id >= 1 && b.entries[k].qty > 0)
    && LastId(b) <= |b.trades| + (if b.position.Some? then 1 else 0)
    && (forall r :: 0 <= r < |b.trades| ==> Entered(b.entries, b.trades[r].positionId))
    && (forall k :: 0 <= k < |b.entries| ==> QtyOf(b.trades, b.entries[k].id) + Remaining(b, k) == b.entries[k].qty)
  }

  /** The legs of a position are numbered from one, and there are at most two. */
  ghost predicate Numbered(b: Book) {
    && (forall r :: 0 <= r < |b.trades| ==>
          b.trades[r].leg == LegsOf(b.trades[..r], b.trades[r].positionId) + 1)
    && (forall id :: LegsOf(b.trades, id) <= 2)
  }

  /** The open position is the last one entered, its exit state holds the same quantity, and it
      has taken a partial leg only if its first target is done. */
  predicate HeldOk(b: Book) {
    b.position.Some? ==>
      var h := b.position.value;
      && b.entries != [] && h.id == LastId(b)
      && h.qty > 0
      && h.leg == LegsOf(b.trades, h.id)
      && h.leg <= (if h.st.firstTargetDone then 1 else 0)
  }

  ghost predicate Inv(b: Book, initial: real) {
    b.capital == initial + NetOf(b.trades) && Conserves(b) && Numbered(b) && HeldOk(b)
  }

  predicate InStep(b: Book) { b.position.Some? ==> b.position.value.st.qty == b.position.value.qty }

  lemma AppendRow(trades: seq<Trade>, row: Trade)
    ensures var t := trades + [row];
            && NetOf(t) == NetOf(trades) + (row.pnl - row.cost)
            && (forall id {:trigger QtyOf(t, id)} ::
                  QtyOf(t, id) == QtyOf(trades, id) + (if row.positionId == id then row.qty else 0))
            && (forall id {:trigger LegsOf(t, id)} ::
                  LegsOf(t, id) == LegsOf(trades, id) + (if row.positionId == id then 1 else 0))
  {
    assert (trades + [row])[..|trades + [row]| - 1] == trades;
  }

  /** Booking a leg of the open position, with the units left over restated. */
  lemma LegKeeps(b: Book, b': Book, qty: int, row: Trade, initial: real)
    requires Inv(b, initial) && b.position.Some? && 0 < qty <= b.position.value.qty
    requires var h := b.position.value;
             && row.positionId == h.id && row.qty == qty && row.leg == h.leg + 1
             && b'.trades == b.trades + [row] && b'.entries == b.entries
             && b'.capital == b.capital + (row.pnl - row.cost)
    requires match b'.position
             case None => qty == b.position.value.qty
             case Some(h') => h'.id == b.position.value.id && h'.qty == b.position.value.qty - qty > 0
    ensures b'.capital == initial + NetOf(b'.trades) && Conserves(b')
    ensures LegsOf(b'.trades, row.positionId) == row.leg
    ensures row.leg <= 2 ==> Numbered(b')
  {
    hide NetOf, QtyOf, LegsOf;
    AppendRow(b.trades, row);
    var h := b.position.value;
    forall r | 0 <= r < |b'.trades|
      ensures Entered(b'.entries, b'.trades[r].positionId)
      ensures b'.trades[r].leg == LegsOf(b'.trades[..r], b'.trades[r].positionId) + 1
    {
      if r < |b.trades| {
        assert b'.trades[r] == b.trades[r] && b'.trades[..r] == b.trades[..r];
      } else {
        assert b'.trades[..r] == b.trades;
        assert b'.entries[|b.entries| - 1].id == row.positionId;
      }
    }
  }

  lemma PartialKeeps(b: Book, qty: int, price: real, why: Reason, i: int, c: Config, initial: real)
    requires Inv(b, initial) && b.position.Some? && 0 < qty < b.position.value.qty && b.position.value.leg == 0
    requires b.position.value.st.firstTargetDone
    ensures Inv(TakePartial(b, qty, price, why, i, c), initial)
  {
    hide NetOf, QtyOf, LegsOf, LegPnl, LegCharge, Conserves, Numbered;
    var b' := TakePartial(b, qty, price, why, i, c);
    LegKeeps(b, b', qty, Row(b.position.value, qty, price, ByMachine(why), i, c), initial);
  }

  lemma FinaliseKeeps(b: Book, price: real, why: Why, i: int, c: Config, initial: real)
    requires Inv(b, initial) && b.position.Some?
    ensures Inv(Finalise(b, price, why, i, c), initial)
  {
    hide NetOf, QtyOf, LegsOf, LegPnl, LegCharge, Conserves, Numbered;
    var b' := Finalise(b, price, why, i, c);
    LegKeeps(b, b', b.position.value.qty, Row(b.position.value, b.position.value.qty, price, why, i, c), initial);
  }

  /** Carrying out a bar's actions books its partials and nothing else. */
  lemma {:induction false} ApplyKeeps(b: Book, actions: seq<Action>, i: int, c: Config, initial: real)
    requires Inv(b, initial) && b.position.Some? && PositivePartials(actions)
    requires PartialsOf(actions) < b.position.value.qty
    requires b.position.value.leg + PartialCount(actions) <= (if b.position.value.st.firstTargetDone then 1 else 0)
    ensures var (b', exit) := Apply(b, actions, i, c);
            && Inv(b', initial)
            && b'.position.value.st == b.position.value.st
            && b'.position.value.qty == b.position.value.qty - PartialsOf(actions)
            && b'.position.value.leg == b.position.value.leg + PartialCount(actions)
            && b'.position.value.bar == b.position.value.bar
            && b'.entries == b.entries && b'.lastAction == b.lastAction
            && (exit.Some? <==> HasExit(actions))
    decreases |actions|
  {
    if actions != [] {
      var init, last := actions[..|actions| - 1], actions[|actions| - 1];
      assert actions == init + [last];
      ExitEither(init, [last]);
      assert HasExit([last]) <==> last.Exit? by { assert [last][0] == last; }
      hide HasExit;
      NonNegativePartials(init);
      ApplyKeeps(b, init, i, c, initial);
      var (b', exit) := Apply(b, init, i, c);
      if last.Partial? {
        PartialKeeps(b', last.qty, last.price, last.why, i, c, initial);
      } else if last.MoveStop? {
        var h := b'.position.value;
        MoveKeeps(b', WithHeld(b', h.(stop := last.newStop, target := h.st.target)), initial);
      }
    }
  }

  lemma {:induction false} NonNegativePartials(actions: seq<Action>)
    requires PositivePartials(actions)
    ensures PartialsOf(actions) >= 0
  {
    if actions != [] { NonNegativePartials(actions[..|actions| - 1]); }
  }

  lemma MoveKeeps(b: Book, b': Book, initial: real)
    requires Inv(b, initial) && b.position.Some? && b'.position.Some?
    requires b' == b.(position := b'.position)
    requires var h, h' := b.position.value, b'.position.value;
             h'.id == h.id && h'.qty == h.qty && h'.leg == h.leg
             && (h.st.firstTargetDone ==> h'.st.firstTargetDone)
    ensures Inv(b', initial)
  {
    hide NetOf, QtyOf, LegsOf;
  }

  lemma ManageKeeps(b: Book, i: int, x: BarInput, c: Config, initial: real)
    requires Inv(b, initial) && InStep(b) && b.position.Some?
    ensures var b' := Manage(b, i, x, c);
            && Inv(b', initial) && InStep(b') && b'.entries == b.entries
            && (x.pastCutoff ==> b'.position.None?)
            && (b'.position.None? ==> b'.lastAction == Some(i))
            && (b'.position.Some? ==> b'.lastAction == b.lastAction && b'.position.value.bar == b.position.value.bar)
  {
    hide Conserves, Numbered, NetOf, LegsOf, StepBar, Apply, Finalise, HasExit;
    var h := b.position.value;
    var o := StepBar(h.st, x.bar, Usable(x.prevAtr), c.exits);
    BarTakes(h.st, x.bar, Usable(x.prevAtr), c.exits);
    var b0 := WithHeld(b, h.(st := o.pos));
    MoveKeeps(b, b0, initial);
    ApplyKeeps(b0, o.actions, i, c, initial);
    var (b1, exit) := Apply(b0, o.actions, i, c);
    if exit.Some? {
      FinaliseKeeps(b1, exit.value.0, ByMachine(exit.value.1), i, c, initial);
      FinaliseFrame(b1, exit.value.0, ByMachine(exit.value.1), i, c);
    } else {
      FinaliseKeeps(b1, x.bar.close, TimeExit, i, c, initial);
      FinaliseKeeps(b1, x.bar.close, SquareOff, i, c, initial);
      FinaliseFrame(b1, x.bar.close, TimeExit, i, c);
      FinaliseFrame(b1, x.bar.close, SquareOff, i, c);
    }
  }

  lemma FinaliseFrame(b: Book, price: real, why: Why, i: int, c: Config)
    requires b.position.Some?
    ensures var b' := Finalise(b, price, why, i, c);
            b'.position.None? && b'.lastAction == Some(i) && b'.entries == b.entries
  {
  }

  /** The next id is new: every row belongs to an earlier entry. */
  lemma FreshId(b: Book)
    requires Conserves(b) && b.position.None?
    ensures LastId(b) < |b.trades| + 1
    ensures QtyOf(b.trades, |b.trades| + 1) == 0 && LegsOf(b.trades, |b.trades| + 1) == 0
  {
    hide QtyOf, LegsOf;
    forall r | 0 <= r < |b.trades| ensures b.trades[r].positionId != |b.trades| + 1 {
      assert Entered(b.entries, b.trades[r].positionId);
      var k :| 0 <= k < |b.entries| && b.entries[k].id == b.trades[r].positionId;
      assert b.entries[k].id <= LastId(b);
    }
    AbsentId(b.trades, |b.trades| + 1);
  }

  lemma EntryConserves(b: Book, b': Book, e: Entry)
    requires Conserves(b) && b.position.None? && e.id == |b.trades| + 1 && e.qty > 0
    requires b'.position.Some? && b'.position.value.qty == e.qty
    requires b'.trades == b.trades && b'.entries == b.entries + [e]
    ensures Conserves(b')
  {
    hide QtyOf, LegsOf;
    FreshId(b);
    forall j, k | 0 <= j < k < |b'.entries| ensures b'.entries[j].id < b'.entries[k].id {
      if k == |b.entries| { assert b.entries[j].id <= LastId(b); }
    }
    forall r | 0 <= r < |b'.trades| ensures Entered(b'.entries, b'.trades[r].positionId) {
      assert Entered(b.entries, b.trades[r].positionId);
      var k :| 0 <= k < |b.entries| && b.entries[k].id == b.trades[r].positionId;
      assert b'.entries[k].id == b'.trades[r].positionId;
    }
    forall k | 0 <= k < |b'.entries|
      ensures QtyOf(b'.trades, b'.entries[k].id) + Remaining(b', k) == b'.entries[k].qty
    {
      if k < |b.entries| {
        assert b'.entries[k] == b.entries[k] && Remaining(b, k) == 0 == Remaining(b', k);
      } else {
        assert b'.entries[k] == e && QtyOf(b'.trades, e.id) == 0;
      }
    }
    assert forall k :: 0 <= k < |b'.entries| ==> b'.entries[k].id >= 1 && b'.entries[k].qty > 0;
    assert LastId(b') == e.id;
  }

  lemma EnterKeeps(b: Book, i: int, x: BarInput, c: Config, initial: real)
    requires Inv(b, initial) && InStep(b)
    ensures Inv(Enter(b, i, x, c), initial) && InStep(Enter(b, i, x, c))
  {
    hide NetOf, QtyOf, LegsOf, Conserves;
    if Opens(b, i, x, c) {
      var b' := Enter(b, i, x, c);
      FreshId(b);
      EntryConserves(b, b', b'.entries[|b.entries|]);
    }
  }

  lemma OnBarKeeps(b: Book, i: int, x: BarInput, c: Config, initial: real)
    requires Inv(b, initial) && InStep(b)
    ensures Inv(OnBar(b, i, x, c), initial) && InStep(OnBar(b, i, x, c))
    ensures x.pastCutoff ==> OnBar(b, i, x, c).position.None?
  {
    hide Inv, Manage;
    if b.position.Some? { ManageKeeps(b, i, x, c, initial); }
    EnterKeeps(AfterManage(b, i, x, c), i, x, c, initial);
  }

  lemma StartKeeps(initial: real)
    ensures Inv(Start(initial), initial) && InStep(Start(initial))
  {
  }

  /** After every bar of every backtest: capital is the initial capital plus the net profit of
      the rows; position ids are distinct; each position's legs, numbered 1 and at most 2, plus
      what is still open add up to the quantity entered; and nothing is open after a bar at or
      past the cutoff. */
  lemma {:induction false} WalkIsConsistent(initial: real, bars: seq<BarInput>, warmup: int, c: Config)
    ensures var b := Walk(initial, bars, warmup, c);
            && Inv(b, initial) && InStep(b)
            && (bars != [] && bars[|bars| - 1].pastCutoff ==> b.position.None?)
    decreases |bars|
  {
    hide Inv, OnBar, InStep;
    if bars == [] {
      StartKeeps(initial);
    } else {
      WalkIsConsistent(initial, bars[..|bars| - 1], warmup, c);
      OnBarKeeps(Walk(initial, bars[..|bars| - 1], warmup, c), warmup + |bars| - 1, bars[|bars| - 1], c, initial);
    }
  }
}

/** What each trade row of a backtest says: its costs, its worst loss, and the cooldown. */
module BacktestRows {
  import opened Common
  import opened ExitManager
  import opened ExitInvariants
  import opened ExitTheorems
  import opened ExitLoss
  import opened CostModel
  import opened Backtester
  import opened BacktestProofs

  function Charge(t: Trade, c: Config): real {
    match c.cost case None => 0.0 case Some(m) => LegCost(m, t.leg, t.entry, t.exit, t.qty, c.multiplier)
  }

  function RowGain(t: Trade): real { if t.side.Buy? then t.exit - t.entry else t.entry - t.exit }

  /** A gain no worse than the floor, when one is claimed. */
  predicate AtLeast(gain: real, floor: Option<real>) { floor.Some? ==> gain >= floor.value }

  function HeldGain(h: Held, price: real): real { if h.side.Buy? then price - h.entry else h.entry - price }

  /** Every fill, and the price of a bar that exits nothing, gains at least `floor`. */
  predicate RowOf(t: Trade, h: Held, i: int, floor: Option<real>, c: Config) {
    && t.positionId == h.id && t.exitBar == i && t.qty > 0
    && t.side == h.side && t.entry == h.entry && t.riskDist == h.st.riskDist
    && t.cost == Charge(t, c)
    && t.pnl == Worth(RowGain(t), t.qty) * c.multiplier
    && AtLeast(RowGain(t), floor)
  }

  /** The rows one bar adds all belong to the position it managed. */
  predicate Adds(old_: seq<Trade>, new_: seq<Trade>, h: Held, i: int, floor: Option<real>, c: Config) {
    && |old_| <= |new_| && new_[..|old_|] == old_
    && forall r :: |old_| <= r < |new_| ==> RowOf(new_[r], h, i, floor, c)
  }

  predicate SamePosition(h: Held, h': Held) {
    h'.id == h.id && h'.side == h.side && h'.entry == h.entry && h'.st.riskDist == h.st.riskDist && h'.bar == h.bar
  }

  lemma BookLegAdds(b: Book, qty: int, price: real, why: Why, i: int, floor: Option<real>, c: Config)
    requires b.position.Some?
    requires var h := b.position.value; AtLeast(HeldGain(h, price), floor)
    ensures var b' := BookLeg(b, qty, price, why, i, c);
            && Adds(b.trades, b'.trades, b.position.value, i, floor, c)
            && SamePosition(b.position.value, b'.position.value)
            && b'.entries == b.entries
  {
  }

  lemma AddsTransitive(t0: seq<Trade>, t1: seq<Trade>, t2: seq<Trade>, h: Held, h': Held, i: int, floor: Option<real>,
                       c: Config)
    requires Adds(t0, t1, h, i, floor, c) && Adds(t1, t2, h', i, floor, c) && SamePosition(h, h')
    ensures Adds(t0, t2, h, i, floor, c)
  {
  }

  /** Each action of the bar fills at a gain of at least `floor`. */
  predicate FillPrices(h: Held, actions: seq<Action>, floor: Option<real>) {
    forall k :: 0 <= k < |actions| && IsFill(actions[k]) ==>
      AtLeast(HeldGain(h, actions[k].price), floor)
  }

  lemma {:induction false} ApplyAdds(b: Book, actions: seq<Action>, i: int, floor: Option<real>, c: Config)
    requires b.position.Some? && FillPrices(b.position.value, actions, floor)
    ensures var (b', exit) := Apply(b, actions, i, c);
            var h := b.position.value;
            && Adds(b.trades, b'.trades, h, i, floor, c)
            && SamePosition(h, b'.position.value) && b'.entries == b.entries
            && (exit.Some? ==> AtLeast(HeldGain(h, exit.value.0), floor))
            && (exit.Some? ==> HasExit(actions))
    decreases |actions|
  {
    hide RowOf;
    if actions != [] {
      var init, last := actions[..|actions| - 1], actions[|actions| - 1];
      assert actions[|init|] == last;
      ApplyAdds(b, init, i, floor, c);
      var (b', exit) := Apply(b, init, i, c);
      if last.Partial? {
        BookLegAdds(b', last.qty, last.price, ByMachine(last.why), i, floor, c);
        AddsTransitive(b.trades, b'.trades, TakePartial(b', last.qty, last.price, last.why, i, c).trades,
                       b.position.value, b'.position.value, i, floor, c);
      } else if last.Exit? {
        assert HasExit(actions);
      }
      if exit.Some? {
        assert HasExit(init);
        var k :| 0 <= k < |init| && init[k].Exit?;
        assert actions[k].Exit?;
      }
    }
  }

  lemma FinaliseAdds(b: Book, price: real, why: Why, i: int, floor: Option<real>, c: Config)
    requires b.position.Some?
    requires var h := b.position.value; AtLeast(HeldGain(h, price), floor)
    ensures Adds(b.trades, Finalise(b, price, why, i, c).trades, b.position.value, i, floor, c)
    ensures Finalise(b, price, why, i, c).entries == b.entries
    ensures Finalise(b, price, why, i, c).lastAction == Some(i)
  {
  }

  /** A bar's rows belong to the managed position, and none is worse than `floor` when neither
      the bar's fills nor a close it survives is. */
  lemma ManageAdds(b: Book, i: int, x: BarInput, floor: Option<real>, c: Config)
    requires b.position.Some?
    requires var h := b.position.value;
             var o := StepBar(h.st, x.bar, Usable(x.prevAtr), c.exits);
             && FillPrices(h, o.actions, floor) && o.pos.riskDist == h.st.riskDist
             && (!HasExit(o.actions) ==> AtLeast(HeldGain(h, x.bar.close), floor))
    ensures var b' := Manage(b, i, x, c);
            && Adds(b.trades, b'.trades, b.position.value, i, floor, c) && b'.entries == b.entries
            && (b'.position.Some? ==> SamePosition(b.position.value, b'.position.value))
  {
    hide StepBar, Apply, Finalise, RowOf;
    var h := b.position.value;
    var o := StepBar(h.st, x.bar, Usable(x.prevAtr), c.exits);
    var b0 := WithHeld(b, h.(st := o.pos));
    ApplyAdds(b0, o.actions, i, floor, c);
    var (b1, exit) := Apply(b0, o.actions, i, c);
    ExitKnown(b0, o.actions, i, c);
    AddsTransitive(b.trades, b.trades, b1.trades, h, b0.position.value, i, floor, c);
    if exit.Some? {
      CloseAdds(b, b1, exit.value.0, ByMachine(exit.value.1), i, floor, c);
    } else {
      CloseAdds(b, b1, x.bar.close, TimeExit, i, floor, c);
      CloseAdds(b, b1, x.bar.close, SquareOff, i, floor, c);
    }
  }

  lemma {:induction false} ExitKnown(b: Book, actions: seq<Action>, i: int, c: Config)
    requires b.position.Some?
    ensures Apply(b, actions, i, c).1.Some? <==> HasExit(actions)
    decreases |actions|
  {
    if actions != [] {
      var init, last := actions[..|actions| - 1], actions[|actions| - 1];
      assert actions == init + [last];
      ExitKnown(b, init, i, c);
      ExitEither(init, [last]);
      assert HasExit([last]) <==> last.Exit? by { assert [last][0] == last; }
    }
  }

  lemma CloseAdds(b: Book, b1: Book, price: real, why: Why, i: int, floor: Option<real>, c: Config)
    requires b.position.Some? && b1.position.Some? && SamePosition(b.position.value, b1.position.value)
    requires Adds(b.trades, b1.trades, b.position.value, i, floor, c) && b1.entries == b.entries
    requires var h := b.position.value; AtLeast(HeldGain(h, price), floor)
    ensures Adds(b.trades, Finalise(b1, price, why, i, c).trades, b.position.value, i, floor, c)
    ensures Finalise(b1, price, why, i, c).entries == b.entries && Finalise(b1, price, why, i, c).position.None?
  {
    hide RowOf;
    FinaliseAdds(b1, price, why, i, floor, c);
    AddsTransitive(b.trades, b1.trades, Finalise(b1, price, why, i, c).trades, b.position.value, b1.position.value, i,
                   floor, c);
  }

  // ----------------------------------------------------------- every row of a walk

  /** A signal whose levels open a position that cannot lose more than its risk on a unit. */
  predicate SoundSignal(x: BarInput, c: Config) {
    x.signal.Some? && x.signal.value.qty > 0 ==>
      Started(NewState(x.signal.value)) && LossGuard(NewState(x.signal.value), c.exits)
  }

  predicate Bounded(bars: seq<BarInput>, c: Config) { forall k :: 0 <= k < |bars| ==> SoundSignal(bars[k], c) }

  predicate RowGood(t: Trade, bounded: bool, c: Config) {
    && t.qty > 0 && t.cost == Charge(t, c) && t.pnl == Worth(RowGain(t), t.qty) * c.multiplier
    && (bounded ==> RowGain(t) >= -t.riskDist)
  }

  predicate RowsGood(b: Book, bounded: bool, c: Config) {
    && (forall r :: 0 <= r < |b.trades| ==> RowGood(b.trades[r], bounded, c))
    && (b.position.Some? ==>
          var h := b.position.value;
          && h.st.qty > 0
          && (bounded ==> Safe(h.st, c.exits) && h.st.side == h.side && h.st.entry == h.entry))
  }

  lemma BarSafe(s: Position, b: Bar, atr: real, p: ExitParams)
    requires Safe(s, p) && s.qty > 0
    ensures var o := StepBar(s, b, atr, p);
            && Safe(o.pos, p) && o.pos.side == s.side && o.pos.entry == s.entry && o.pos.riskDist == s.riskDist
            && FillsFrom(s, o.actions, -s.riskDist)
            && (!HasExit(o.actions) ==> Gain(s, b.close) >= -s.riskDist)
  {
    hide Step, Safe, Run;
    BarIsThreeTicks(s, b, atr, p);
    SafeRun(s, BarTicks(s.side, b, atr), p);
    CloseSurvives(s, b, atr, p);
  }

  /** A close a position survives is no worse than its initial stop. */
  lemma CloseSurvives(s: Position, b: Bar, atr: real, p: ExitParams)
    requires Safe(s, p) && s.qty > 0
    ensures !HasExit(StepBar(s, b, atr, p).actions) ==> Gain(s, b.close) >= -s.riskDist
  {
    hide Step, Safe, HasExit;
    var t, u, v := Tick(Adverse(s.side, b), atr), Tick(Favourable(s.side, b), atr), Tick(b.close, atr);
    var x := Step(s, t, p);
    var y := Step(x.pos, u, p);
    var z := Step(y.pos, v, p);
    SafeStep(s, t, p);
    SafeStep(x.pos, u, p);
    SafeStep(y.pos, v, p);
    StepHasExit(s, t, p);
    StepHasExit(x.pos, u, p);
    ExitEither(x.actions, y.actions);
    ExitEither(x.actions + y.actions, z.actions);
  }

  lemma ManageRowsGood(b: Book, i: int, x: BarInput, bounded: bool, c: Config)
    requires b.position.Some? && RowsGood(b, bounded, c)
    requires Manage(b, i, x, c).position.Some? ==> Manage(b, i, x, c).position.value.st.qty > 0
    ensures RowsGood(Manage(b, i, x, c), bounded, c)
  {
    hide StepBar, Manage, Safe, Charge, Worth, HasExit, FillsFrom;
    var h := b.position.value;
    var atr := Usable(x.prevAtr);
    var o := StepBar(h.st, x.bar, atr, c.exits);
    BarTakes(h.st, x.bar, atr, c.exits);
    var floor := if bounded then Some(-h.st.riskDist) else None;
    if bounded {
      BarSafe(h.st, x.bar, atr, c.exits);
      FillsArePrices(h, o.actions, -h.st.riskDist);
    }
    ManageAdds(b, i, x, floor, c);
    ManageState(b, i, x, c);
    var b' := Manage(b, i, x, c);
    forall r | 0 <= r < |b'.trades| ensures RowGood(b'.trades[r], bounded, c) {
      if r < |b.trades| { assert b'.trades[r] == b.trades[r]; }
    }
  }

  lemma FillsArePrices(h: Held, actions: seq<Action>, g: real)
    requires h.st.side == h.side && h.st.entry == h.entry && FillsFrom(h.st, actions, g)
    ensures FillPrices(h, actions, Some(g))
  {
  }

  lemma ManageState(b: Book, i: int, x: BarInput, c: Config)
    requires b.position.Some?
    ensures var h := b.position.value;
            var b' := Manage(b, i, x, c);
            b'.position.Some? ==>
              && b'.position.value.st == StepBar(h.st, x.bar, Usable(x.prevAtr), c.exits).pos
              && b'.position.value.side == h.side && b'.position.value.entry == h.entry
  {
    hide StepBar, Apply, Finalise;
    var h := b.position.value;
    var o := StepBar(h.st, x.bar, Usable(x.prevAtr), c.exits);
    ApplyState(WithHeld(b, h.(st := o.pos)), o.actions, i, c);
    var b1 := Apply(WithHeld(b, h.(st := o.pos)), o.actions, i, c).0;
    FinaliseCloses(b1, i, c);
  }

  lemma FinaliseCloses(b: Book, i: int, c: Config)
    requires b.position.Some?
    ensures forall price, why :: Finalise(b, price, why, i, c).position.None?
  {
  }

  lemma {:induction false} ApplyState(b: Book, actions: seq<Action>, i: int, c: Config)
    requires b.position.Some?
    ensures var h, h' := b.position.value, Apply(b, actions, i, c).0.position.value;
            h'.st == h.st && h'.side == h.side && h'.entry == h.entry
    decreases |actions|
  {
    if actions != [] { ApplyState(b, actions[..|actions| - 1], i, c); }
  }

  /** Every row of every backtest carries the machine's gain on its quantity and its own leg's
      charge; and when the signals open positions the loss guard covers, no row of any kind, time
      exit and square-off included, loses more than the risk distance on each unit. */
  lemma {:induction false} WalkRowsGood(initial: real, bars: seq<BarInput>, warmup: int, c: Config)
    ensures RowsGood(Walk(initial, bars, warmup, c), Bounded(bars, c), c)
    decreases |bars|
  {
    hide OnBar, Manage, Safe, RowGood, Started, LossGuard;
    if bars != [] {
      var n := |bars| - 1;
      var init, x := bars[..n], bars[n];
      var b := Walk(initial, init, warmup, c);
      WalkRowsGood(initial, init, warmup, c);
      WalkIsConsistent(initial, init, warmup, c);
      var bounded := Bounded(bars, c);
      if bounded {
        assert Bounded(init, c) by { assert forall k :: 0 <= k < n ==> init[k] == bars[k]; }
        assert SoundSignal(bars[n], c);
      }
      WeakenRows(b, Bounded(init, c), bounded, c);
      OnBarRowsGood(b, warmup + n, x, bounded, c, initial);
    }
  }

  lemma WeakenRows(b: Book, strong: bool, weak: bool, c: Config)
    requires RowsGood(b, strong, c) && (weak ==> strong)
    ensures RowsGood(b, weak, c)
  {
    hide Charge, Worth, Safe;
  }

  lemma OnBarRowsGood(b: Book, i: int, x: BarInput, bounded: bool, c: Config, initial: real)
    requires RowsGood(b, bounded, c) && Inv(b, initial) && InStep(b)
    requires bounded ==> SoundSignal(x, c)
    ensures RowsGood(OnBar(b, i, x, c), bounded, c)
  {
    hide Manage, RowGood, Conserves, Numbered, NetOf, LegsOf, LossGuard;
    if b.position.Some? {
      ManageKeeps(b, i, x, c, initial);
      ManageRowsGood(b, i, x, bounded, c);
    }
    var m := AfterManage(b, i, x, c);
    if Opens(m, i, x, c) && bounded { assert Safe(NewState(x.signal.value), c.exits); }
  }

  /** The loss bound in money, for one row. */
  lemma RowLossBound(t: Trade, c: Config)
    requires RowGood(t, true, c) && c.multiplier >= 0.0
    ensures t.pnl >= -(Worth(t.riskDist, t.qty) * c.multiplier)
  {
    var q := t.qty as real;
    assert (RowGain(t) + t.riskDist) * q >= 0.0;
    assert (RowGain(t) * q + t.riskDist * q) * c.multiplier >= 0.0;
    assert (RowGain(t) * q + t.riskDist * q) * c.multiplier
           == RowGain(t) * q * c.multiplier + t.riskDist * q * c.multiplier;
  }

  // ------------------------------------------------------------ what a position costs

  predicate PositivePrices(trades: seq<Trade>, id: int) {
    forall r :: 0 <= r < |trades| && trades[r].positionId == id ==> trades[r].entry >= 0.0 && trades[r].exit >= 0.0
  }

  /** Legs numbered in order and each charged as its number says. */
  predicate Charged(trades: seq<Trade>, c: Config) {
    forall r :: 0 <= r < |trades| ==>
      && trades[r].qty > 0 && trades[r].cost == Charge(trades[r], c)
      && trades[r].leg == LegsOf(trades[..r], trades[r].positionId) + 1
  }

  /** What the last row adds to its position's sums, and nothing to any other's. */
  lemma LastRowAdds(trades: seq<Trade>, id: int, k: real)
    requires trades != []
    ensures var init, t := trades[..|trades| - 1], trades[|trades| - 1];
            if t.positionId != id then
              && CostOf(trades, id) == CostOf(init, id) && LegsOf(trades, id) == LegsOf(init, id)
              && EnteredOf(trades, id, k) == EnteredOf(init, id, k) && ExitedOf(trades, id, k) == ExitedOf(init, id, k)
            else
              && CostOf(trades, id) == CostOf(init, id) + t.cost && LegsOf(trades, id) == LegsOf(init, id) + 1
              && EnteredOf(trades, id, k) == EnteredOf(init, id, k) + Turnover(t.entry, t.qty, k)
              && ExitedOf(trades, id, k) == ExitedOf(init, id, k) + Turnover(t.exit, t.qty, k)
  {
  }

  lemma ChargedInit(trades: seq<Trade>, c: Config)
    requires trades != [] && Charged(trades, c)
    ensures var init, t := trades[..|trades| - 1], trades[|trades| - 1];
            Charged(init, c) && t.qty > 0 && t.cost == Charge(t, c) && t.leg == LegsOf(init, t.positionId) + 1
  {
    var n := |trades| - 1;
    assert forall r :: 0 <= r < n ==> trades[..n][r] == trades[r] && trades[..n][..r] == trades[..r];
  }

  lemma {:induction false} ChargedCost(trades: seq<Trade>, id: int, m: CostModel, c: Config)
    requires c.cost == Some(m) && NonNegativeRates(m) && c.multiplier >= 0.0
    requires Charged(trades, c) && PositivePrices(trades, id)
    ensures CostOf(trades, id)
            == Priced(m, if LegsOf(trades, id) == 0 then 0 else LegsOf(trades, id) + 1,
                      EnteredOf(trades, id, c.multiplier), ExitedOf(trades, id, c.multiplier))
    decreases |trades|
  {
    hide LegCost, Priced, Turnover;
    if trades == [] {
      NothingPriced(m);
    } else {
      hide Charged, CostOf, LegsOf, EnteredOf, ExitedOf;
      var init, t := trades[..|trades| - 1], trades[|trades| - 1];
      LastRowAdds(trades, id, c.multiplier);
      ChargedInit(trades, c);
      ChargedCost(init, id, m, c);
      if t.positionId == id {
        LegCostIsPriced(m, t.leg, t.entry, t.exit, t.qty, c.multiplier);
        PricedAdds(m, if LegsOf(init, id) == 0 then 0 else LegsOf(init, id) + 1, if t.leg > 1 then 1 else 2,
                   EnteredOf(init, id, c.multiplier), Turnover(t.entry, t.qty, c.multiplier),
                   ExitedOf(init, id, c.multiplier), Turnover(t.exit, t.qty, c.multiplier));
      }
    }
  }

  lemma NothingPriced(m: CostModel)
    ensures Priced(m, 0, 0.0, 0.0) == 0.0
  {
    hide PerOrder, BuyRate, SellRate;
  }

  /** In every backtest, a position that closed in n legs was charged exactly what n + 1 orders, one
      entry and n exits, would cost if it had bought at its entries and sold at its exits. */
  lemma WalkCostsAreOrders(initial: real, bars: seq<BarInput>, warmup: int, c: Config, m: CostModel, id: int)
    requires c.cost == Some(m) && NonNegativeRates(m) && c.multiplier >= 0.0
    requires PositivePrices(Walk(initial, bars, warmup, c).trades, id)
    requires LegsOf(Walk(initial, bars, warmup, c).trades, id) > 0
    ensures var trades := Walk(initial, bars, warmup, c).trades;
            CostOf(trades, id) == Priced(m, LegsOf(trades, id) + 1,
                                         EnteredOf(trades, id, c.multiplier), ExitedOf(trades, id, c.multiplier))
  {
    hide Walk, LegsOf, CostOf, Priced, EnteredOf, ExitedOf, Charge, Worth, Conserves, HeldOk, NetOf;
    WalkRowsGood(initial, bars, warmup, c);
    WalkIsConsistent(initial, bars, warmup, c);
    ChargedCost(Walk(initial, bars, warmup, c).trades, id, m, c);
  }

  // ------------------------------------------------------------ on which side

  /** What the legs of a position bought, and what they sold. */
  function BoughtOf(trades: seq<Trade>, id: int, m: real): real {
    if trades == [] then 0.0
    else
      var t := trades[|trades| - 1];
      BoughtOf(trades[..|trades| - 1], id, m)
      + if t.positionId == id then Bought(t.side, Turnover(t.entry, t.qty, m), Turnover(t.exit, t.qty, m)) else 0.0
  }

  function SoldOf(trades: seq<Trade>, id: int, m: real): real {
    if trades == [] then 0.0
    else
      var t := trades[|trades| - 1];
      SoldOf(trades[..|trades| - 1], id, m)
      + if t.positionId == id then Sold(t.side, Turnover(t.entry, t.qty, m), Turnover(t.exit, t.qty, m)) else 0.0
  }

  predicate OnSide(trades: seq<Trade>, id: int, side: Side) {
    forall r :: 0 <= r < |trades| && trades[r].positionId == id ==> trades[r].side == side
  }

  lemma {:induction false} SidesOf(trades: seq<Trade>, id: int, side: Side, m: real)
    requires OnSide(trades, id, side)
    ensures BoughtOf(trades, id, m) == Bought(side, EnteredOf(trades, id, m), ExitedOf(trades, id, m))
    ensures SoldOf(trades, id, m) == Sold(side, EnteredOf(trades, id, m), ExitedOf(trades, id, m))
  {
    hide Turnover;
    if trades != [] { SidesOf(trades[..|trades| - 1], id, side, m); }
  }

  /** All legs of a position are of its side. */
  predicate OneSided(b: Book) {
    && (forall r :: 0 <= r < |b.trades| ==> OnSide(b.trades, b.trades[r].positionId, b.trades[r].side))
    && (b.position.Some? ==> OnSide(b.trades, b.position.value.id, b.position.value.side))
  }

  lemma AddsOneSided(b: Book, b': Book, i: int, c: Config)
    requires b.position.Some? && OneSided(b) && Adds(b.trades, b'.trades, b.position.value, i, None, c)
    requires b'.position.Some? ==> SamePosition(b.position.value, b'.position.value)
    ensures OneSided(b')
  {
    var h := b.position.value;
    forall r | 0 <= r < |b'.trades| && b'.trades[r].positionId == h.id ensures b'.trades[r].side == h.side {
      if r < |b.trades| { assert b'.trades[r] == b.trades[r]; }
    }
    forall r, q | 0 <= r < |b'.trades| && 0 <= q < |b'.trades| && b'.trades[q].positionId == b'.trades[r].positionId
      ensures b'.trades[q].side == b'.trades[r].side
    {
      if b'.trades[r].positionId != h.id {
        assert r < |b.trades| && q < |b.trades|;
        assert b'.trades[r] == b.trades[r] && b'.trades[q] == b.trades[q];
      }
    }
  }

  lemma NewIdIsUnused(b: Book, side: Side)
    requires Conserves(b) && b.position.None?
    ensures OnSide(b.trades, |b.trades| + 1, side)
  {
    hide QtyOf, Remaining;
    forall r | 0 <= r < |b.trades| ensures b.trades[r].positionId != |b.trades| + 1 {
      assert Entered(b.entries, b.trades[r].positionId);
      var k :| 0 <= k < |b.entries| && b.entries[k].id == b.trades[r].positionId;
      assert b.entries[k].id <= LastId(b);
    }
  }

  lemma OnBarOneSided(b: Book, i: int, x: BarInput, c: Config, initial: real)
    requires OneSided(b) && Inv(b, initial) && InStep(b)
    ensures OneSided(OnBar(b, i, x, c))
  {
    hide Manage, NetOf, Conserves, Numbered, StepBar, NewState;
    if b.position.Some? {
      ManageKeeps(b, i, x, c, initial);
      BarTakes(b.position.value.st, x.bar, Usable(x.prevAtr), c.exits);
      ManageAdds(b, i, x, None, c);
      AddsOneSided(b, Manage(b, i, x, c), i, c);
    }
    var m := AfterManage(b, i, x, c);
    if Opens(m, i, x, c) { NewIdIsUnused(m, x.signal.value.side); }
  }

  lemma {:induction false} WalkOneSided(initial: real, bars: seq<BarInput>, warmup: int, c: Config)
    ensures OneSided(Walk(initial, bars, warmup, c))
    decreases |bars|
  {
    hide OnBar, Inv, InStep, OneSided;
    if bars == [] {
      StartOneSided(initial);
    } else {
      var n := |bars| - 1;
      WalkOneSided(initial, bars[..n], warmup, c);
      WalkIsConsistent(initial, bars[..n], warmup, c);
      OnBarOneSided(Walk(initial, bars[..n], warmup, c), warmup + n, bars[n], c, initial);
    }
  }

  lemma StartOneSided(initial: real)
    ensures OneSided(Start(initial))
  {
  }

  /** In every backtest the position of any row was charged for n + 1 orders on what it truly bought
      and sold if and only if it is long, or both sides are taxed alike, or its entries and exits turned
      over the same. */
  lemma WalkCostsExactly(initial: real, bars: seq<BarInput>, warmup: int, c: Config, m: CostModel, r: nat)
    requires c.cost == Some(m) && NonNegativeRates(m) && c.multiplier >= 0.0
    requires r < |Walk(initial, bars, warmup, c).trades|
    requires PositivePrices(Walk(initial, bars, warmup, c).trades, Walk(initial, bars, warmup, c).trades[r].positionId)
    ensures var trades := Walk(initial, bars, warmup, c).trades;
            var id, k := trades[r].positionId, c.multiplier;
            CostOf(trades, id) == Priced(m, LegsOf(trades, id) + 1, BoughtOf(trades, id, k), SoldOf(trades, id, k))
            <==> trades[r].side.Buy? || m.sttSellPct == m.stampPct
                 || EnteredOf(trades, id, k) == ExitedOf(trades, id, k)
  {
    hide Walk, LegsOf, CostOf, Priced, EnteredOf, ExitedOf, BoughtOf, SoldOf, PositivePrices;
    var trades, k := Walk(initial, bars, warmup, c).trades, c.multiplier;
    var id := trades[r].positionId;
    HasLegs(trades, r);
    WalkCostsAreOrders(initial, bars, warmup, c, m, id);
    WalkOneSided(initial, bars, warmup, c);
    SidesOf(trades, id, trades[r].side, k);
    PricedSwaps(m, LegsOf(trades, id) + 1, EnteredOf(trades, id, k), ExitedOf(trades, id, k));
  }

  lemma {:induction false} HasLegs(trades: seq<Trade>, r: nat)
    requires r < |trades|
    ensures LegsOf(trades, trades[r].positionId) > 0
    decreases |trades|
  {
    if r < |trades| - 1 { HasLegs(trades[..|trades| - 1], r); }
  }

  // ------------------------------------------------------------------- cooldown

  /** Nothing recorded is later than `now`, and every entry came at least a cooldown after
      everything the earlier positions did; a flat book remembers its last action. */
  ghost predicate CooledAt(b: Book, now: int, c: Config) {
    && (forall r :: 0 <= r < |b.trades| ==> b.trades[r].exitBar <= now)
    && (forall k :: 0 <= k < |b.entries| ==> b.entries[k].bar <= now)
    && (b.position.None? && b.entries != [] ==>
          && b.lastAction.Some? && b.lastAction.value <= now
          && (forall r :: 0 <= r < |b.trades| ==> b.trades[r].exitBar <= b.lastAction.value)
          && (forall k :: 0 <= k < |b.entries| ==> b.entries[k].bar <= b.lastAction.value))
    && (forall j, k :: 0 <= j < k < |b.entries| ==> b.entries[k].bar - b.entries[j].bar >= c.cooldownBars)
    && (forall r, k :: 0 <= r < |b.trades| && 0 <= k < |b.entries| && b.trades[r].positionId < b.entries[k].id ==>
          b.entries[k].bar - b.trades[r].exitBar >= c.cooldownBars)
  }

  lemma LastIdIsLargest(b: Book)
    requires Conserves(b)
    ensures forall k :: 0 <= k < |b.entries| ==> b.entries[k].id <= LastId(b)
    ensures b.entries == [] ==> b.trades == []
  {
    hide QtyOf, Remaining;
    if b.trades != [] { assert Entered(b.entries, b.trades[0].positionId); }
  }

  lemma ManageCooled(b: Book, i: int, x: BarInput, c: Config, initial: real)
    requires b.position.Some? && CooledAt(b, i - 1, c) && Inv(b, initial) && InStep(b)
    ensures CooledAt(Manage(b, i, x, c), i, c)
  {
    hide Manage, NetOf, Conserves, Numbered, StepBar;
    var b' := Manage(b, i, x, c);
    ManageKeeps(b, i, x, c, initial);
    BarTakes(b.position.value.st, x.bar, Usable(x.prevAtr), c.exits);
    ManageAdds(b, i, x, None, c);
    LastIdIsLargest(b);
    forall r | 0 <= r < |b'.trades|
      ensures b'.trades[r].exitBar <= i
      ensures r < |b.trades| || b'.trades[r].positionId == LastId(b)
    {
      if r < |b.trades| { assert b'.trades[r] == b.trades[r]; }
    }
    forall r, k | 0 <= r < |b'.trades| && 0 <= k < |b'.entries| && b'.trades[r].positionId < b'.entries[k].id
      ensures b'.entries[k].bar - b'.trades[r].exitBar >= c.cooldownBars
    {
      if r < |b.trades| { assert b'.trades[r] == b.trades[r]; }
    }
  }

  lemma EnterCooled(m: Book, i: int, x: BarInput, c: Config)
    requires CooledAt(m, i, c) && Conserves(m)
    ensures CooledAt(Enter(m, i, x, c), i, c)
  {
    hide Conserves, NewState;
    LastIdIsLargest(m);
    if Opens(m, i, x, c) {
      var b' := Enter(m, i, x, c);
      var e := Entry(|m.trades| + 1, x.signal.value.qty, i);
      assert b'.entries == m.entries + [e];
      forall j, k | 0 <= j < k < |b'.entries| ensures b'.entries[k].bar - b'.entries[j].bar >= c.cooldownBars {
        if k < |m.entries| { assert b'.entries[k] == m.entries[k] && b'.entries[j] == m.entries[j]; }
      }
      forall r, k | 0 <= r < |b'.trades| && 0 <= k < |b'.entries| && b'.trades[r].positionId < b'.entries[k].id
        ensures b'.entries[k].bar - b'.trades[r].exitBar >= c.cooldownBars
      {
        if k < |m.entries| { assert b'.entries[k] == m.entries[k]; }
      }
    }
  }

  lemma OnBarCooled(b: Book, i: int, x: BarInput, c: Config, initial: real)
    requires CooledAt(b, i - 1, c) && Inv(b, initial) && InStep(b)
    ensures CooledAt(OnBar(b, i, x, c), i, c)
  {
    hide Manage, Enter, NetOf, Conserves, Numbered, HeldOk, InStep;
    if b.position.Some? {
      ManageCooled(b, i, x, c, initial);
      ManageKeeps(b, i, x, c, initial);
    }
    EnterCooled(AfterManage(b, i, x, c), i, x, c);
  }

  lemma StartCooled(initial: real, now: int, c: Config)
    ensures CooledAt(Start(initial), now, c)
  {
  }

  /** No backtest enters within the cooldown of any earlier entry or exit. */
  lemma {:induction false} WalkCooled(initial: real, bars: seq<BarInput>, warmup: int, c: Config)
    ensures CooledAt(Walk(initial, bars, warmup, c), warmup + |bars| - 1, c)
    decreases |bars|
  {
    hide OnBar, Inv, InStep, CooledAt;
    if bars == [] {
      StartCooled(initial, warmup - 1, c);
    } else {
      var n := |bars| - 1;
      WalkCooled(initial, bars[..n], warmup, c);
      WalkIsConsistent(initial, bars[..n], warmup, c);
      OnBarCooled(Walk(initial, bars[..n], warmup, c), warmup + n, bars[n], c, initial);
    }
  }
}

/** Exactly when a bar's stop-out is the worst its prices could have done. */
module ExitPessimism {
  import opened ExitManager
  import opened ExitInvariants
  import opened ExitTheorems
  import opened ExitStyles
  import opened ExitLoss
  import opened ExitRatchet

  /** If the bar stops the position out, this closing path earns no less. */
  predicate PessimisticBar(s: Position, b: Bar, atr: real, ticks: seq<Tick>, p: ExitParams) {
    StopHit(s, Adverse(s.side, b)) && Run(s, ticks, p).pos.qty == 0 ==>
      Pnl(s, StepBar(s, b, atr, p).actions) <= Pnl(s, Run(s, ticks, p).actions)
  }

  /** Every bar of every life of this position is pessimistic. */
  ghost predicate BarsPessimistic(s: Position, p: ExitParams) {
    forall path: seq<Tick>, b: Bar, atr: real, ticks: seq<Tick> | Run(s, path, p).pos.qty > 0 ::
      PessimisticBar(Run(s, path, p).pos, b, atr, ticks, p)
  }

  /** The least a unit of the runner can earn: the runner's target when that is reached with the first
      one, the lowest stop otherwise. */
  function RunnerWorst(s: Position, p: ExitParams): real
    requires s.target.At?
  {
    if NearRunner(s, p) then Scaled(p.runnerRrMult, s.riskDist) else Gain(s, LowestStop(s, p))
  }

  /** The least a position earns once it reaches its first target: that target on the partial, the
      worst on the runner. */
  function EventWorth(s: Position, p: ExitParams): real
    requires s.target.At?
  {
    Worth(Gain(s, s.target.level), s.qty - RunnerQty(s, p)) + Worth(RunnerWorst(s, p), RunnerQty(s, p))
  }

  // ------------------------------------------------------------- what a path earns

  lemma FillsFromLess(s: Position, actions: seq<Action>, g: real, h: real)
    requires FillsFrom(s, actions, g) && h <= g
    ensures FillsFrom(s, actions, h)
  {
  }

  lemma AllFilledEarns(s: Position, actions: seq<Action>, g: real, h: real, qty: int)
    requires FillsFrom(s, actions, g) && h <= g && Booked(actions) == qty
    ensures Pnl(s, actions) >= Worth(h, qty)
  {
    FillsFromLess(s, actions, g, h);
    PnlFloor(s, actions, h);
  }

  lemma {:induction false} NothingBooked(s: Position, actions: seq<Action>, g: real)
    requires FillsFrom(s, actions, g) && Booked(actions) == 0
    ensures Pnl(s, actions) == 0.0
  {
    if actions != [] {
      PnlFloor(s, actions[1..], g);
      NothingBooked(s, actions[1..], g);
    }
  }

  /** After the event call: the fills of its exit check and of everything later, and what is left. */
  lemma EventCall(s: Position, t: Tick, p: ExitParams)
    requires s.qty > 0 && EventFires(s, t.price, p)
    ensures var x, last := Step(s, t, p), LastFills(s, t, p);
            && Pnl(s, x.actions) == Worth(Gain(s, s.target.level), s.qty - RunnerQty(s, p)) + Pnl(s, last)
            && FillsFrom(s, last, RunnerWorst(s, p)) && Booked(last) == RunnerQty(s, p) - x.pos.qty && x.pos.qty >= 0
            && Settled(x.pos, p) && Clear(x.pos) && x.pos.side == s.side && x.pos.entry == s.entry
            && (x.pos.qty > 0 ==> Gain(s, x.pos.stop) >= RunnerWorst(s, p))
  {
    var m := BeforeExit(s, t, p);
    StepParts(s, t, p);
    FirstPnl(s, t.price, p);
    EventStopsAbove(s, t, p);
    LowestIsBelow(s, p);
    EventKeepsClear(s, t, p);
    BeforeExitFrame(s, t, p);
    ExitBooks(m, t.price, p);
    RunnerGains(s, p);
    EventBooks(s, t.price, p);
    hide Step, BeforeExit, FirstTargetEvent, LowestStop, Scaled, RunnerQty, RunnerTarget, Pnl, Worth, SafeSide;
    assert TargetReached(m, t.price) ==> Gain(s, m.target.level) >= RunnerWorst(s, p);
  }

  lemma WorthAdds(g: real, a: int, b: int)
    ensures Worth(g, a + b) == Worth(g, a) + Worth(g, b)
  {
  }

  /** A path that begins with the event's call and closes. */
  lemma EventEarns(s: Position, t: Tick, ticks: seq<Tick>, p: ExitParams)
    requires s.qty > 0 && s.target.At? && EventFires(s, t.price, p) && Run(s, [t] + ticks, p).pos.qty == 0
    ensures Pnl(s, Run(s, [t] + ticks, p).actions) >= EventWorth(s, p)
  {
    hide *;
    var x, last := Step(s, t, p), LastFills(s, t, p);
    PathFrom(s, t, ticks, p);
    EventCall(s, t, p);
    PnlFloor(s, last, RunnerWorst(s, p));
    RunnerEarns(s, x.pos, ticks, RunnerWorst(s, p), p);
    WorthAdds(RunnerWorst(s, p), Booked(last), x.pos.qty);
    EventWorthIs(s, p);
  }

  lemma EventWorthIs(s: Position, p: ExitParams)
    requires s.target.At?
    ensures EventWorth(s, p)
            == Worth(Gain(s, s.target.level), s.qty - RunnerQty(s, p)) + Worth(RunnerWorst(s, p), RunnerQty(s, p))
  {
  }

  lemma PathFrom(s: Position, t: Tick, ticks: seq<Tick>, p: ExitParams)
    ensures var x := Step(s, t, p);
            && Run(s, [t] + ticks, p).pos == Run(x.pos, ticks, p).pos
            && Pnl(s, Run(s, [t] + ticks, p).actions) == Pnl(s, x.actions) + Pnl(s, Run(x.pos, ticks, p).actions)
  {
    hide *;
    RunCons(s, t, ticks, p);
    PnlConcat(s, Step(s, t, p).actions, Run(Step(s, t, p).pos, ticks, p).actions);
  }

  /** What is left after the event's call earns at least g a unit once its stop does. */
  lemma RunnerEarns(s: Position, x: Position, ticks: seq<Tick>, g: real, p: ExitParams)
    requires Settled(x, p) && Clear(x) && x.side == s.side && x.entry == s.entry
    requires x.qty >= 0 && (x.qty > 0 ==> Gain(s, x.stop) >= g) && Run(x, ticks, p).pos.qty == 0
    ensures Pnl(s, Run(x, ticks, p).actions) >= Worth(g, x.qty)
  {
    hide Run, Clear, Settled, Pnl, Booked, Worth, FillsFrom;
    RunFillFloor(x, ticks, p);
    if x.qty > 0 {
      SameFills(s, x, Run(x, ticks, p).actions, Gain(s, x.stop));
      AllFilledEarns(s, Run(x, ticks, p).actions, Gain(s, x.stop), g, x.qty);
    } else {
      ClosedRuns(x, ticks, p);
      ZeroWorth(g, x.qty);
      EmptyPnl(s);
    }
  }

  lemma SameFills(s: Position, s': Position, actions: seq<Action>, g: real)
    requires s'.side == s.side && s'.entry == s.entry && FillsFrom(s', actions, g)
    ensures FillsFrom(s, actions, g)
  {
  }

  lemma ClosedRuns(s: Position, ticks: seq<Tick>, p: ExitParams)
    requires s.qty <= 0
    ensures Run(s, ticks, p) == Outcome(s, [])
  {
    ClosedRunIsInert(s, ticks, p);
  }

  lemma ZeroWorth(g: real, qty: int)
    requires qty == 0
    ensures Worth(g, qty) == 0.0
  {
  }

  lemma EmptyPnl(s: Position)
    ensures Pnl(s, []) == 0.0 && Booked([]) == 0
  {
  }

  /** No closing path earns less than g a unit, once neither the stop nor the first target does. */
  lemma {:induction false} ClosingEarns(s: Position, ticks: seq<Tick>, g: real, p: ExitParams)
    requires Clear(s) && s.qty > 0 && Gain(s, s.stop) >= g && Run(s, ticks, p).pos.qty == 0
    requires Awaits(s, p) ==> EventWorth(s, p) >= Worth(g, s.qty)
    ensures Pnl(s, Run(s, ticks, p).actions) >= Worth(g, s.qty)
    decreases |ticks|, 0
  {
    hide Step, EventWorth, Pnl, Booked, Worth, EventFires, FillsFrom, Clear;
    if Settled(s, p) {
      RunFillFloor(s, ticks, p);
      AllFilledEarns(s, Run(s, ticks, p).actions, Gain(s, s.stop), g, s.qty);
    } else {
      var t, rest := ticks[0], ticks[1..];
      assert ticks == [t] + rest;
      if EventFires(s, t.price, p) { EventEarns(s, t, rest, p); } else { QuietEarns(s, t, rest, g, p); }
    }
  }

  lemma QuietEarns(s: Position, t: Tick, ticks: seq<Tick>, g: real, p: ExitParams)
    requires Clear(s) && s.qty > 0 && Gain(s, s.stop) >= g && Run(s, [t] + ticks, p).pos.qty == 0
    requires Awaits(s, p) && EventWorth(s, p) >= Worth(g, s.qty) && !EventFires(s, t.price, p)
    ensures Pnl(s, Run(s, [t] + ticks, p).actions) >= Worth(g, s.qty)
    decreases |ticks|, 1
  {
    hide Step, Pnl, Booked, Worth, EventFires, FillsFrom, Clear, EventWorth, Run;
    var x := Step(s, t, p);
    QuietCall(s, t, p);
    RunCons(s, t, ticks, p);
    PnlConcat(s, x.actions, Run(x.pos, ticks, p).actions);
    if x.pos.qty == 0 {
      ClosedRuns(x.pos, ticks, p);
      EmptyPnl(s);
      AllFilledEarns(s, x.actions, Gain(s, s.stop), g, s.qty);
    } else {
      NothingBooked(s, x.actions, Gain(s, s.stop));
      SameEventWorth(s, x.pos, p);
      ClosingEarns(x.pos, ticks, g, p);
      SamePnl(s, x.pos, Run(x.pos, ticks, p).actions);
    }
  }

  lemma SameEventWorth(s: Position, s': Position, p: ExitParams)
    requires s.target.At? && s' == s.(stop := s'.stop, peak := s'.peak, trailActive := s'.trailActive)
    ensures EventWorth(s', p) == EventWorth(s, p)
  {
    SameLowest(s, s', p);
    hide LowestStop, Worth, NearRunner;
  }

  /** A bar whose worst price reaches the stop in force at its start closes everything at that stop,
      and no path of prices that closes the same position earns less, when the first target is not to
      come or could not earn less either. */
  lemma BarIsPessimistic(s: Position, b: Bar, atr: real, ticks: seq<Tick>, p: ExitParams)
    requires Clear(s) && s.qty > 0 && StopHit(s, Adverse(s.side, b)) && Run(s, ticks, p).pos.qty == 0
    requires Awaits(s, p) ==> EventWorth(s, p) >= Worth(Gain(s, s.stop), s.qty)
    ensures StepBar(s, b, atr, p).actions == [Exit(s.stop, s.qty, ExitReason(s, p))]
    ensures Pnl(s, StepBar(s, b, atr, p).actions) <= Pnl(s, Run(s, ticks, p).actions)
  {
    hide StepBar, Run, Pnl, Worth, EventWorth, ExitReason;
    BarStopsOut(s, b, atr, p);
    PnlOfOneExit(s, s.stop, s.qty, ExitReason(s, p));
    ClosingEarns(s, ticks, Gain(s, s.stop), p);
  }

  // ------------------------------------------------------------- the worst path

  /** The first target to the tick, and then the lowest stop. */
  function WorstPath(s: Position, p: ExitParams): seq<Tick>
    requires s.target.At?
  {
    if NearRunner(s, p) then [Touch(s, p)] else [Touch(s, p), Tick(LowestStop(s, p), 0.0)]
  }

  lemma WorstPathEarns(s: Position, p: ExitParams)
    requires Awaits(s, p)
    ensures var o := Run(s, WorstPath(s, p), p); o.pos.qty == 0 && Pnl(s, o.actions) == EventWorth(s, p)
  {
    hide Step, Run, LowestStop, Touch, RunnerQty, Worth, Pnl, ExitReason, NearRunner;
    var x := Step(s, Touch(s, p), p);
    TouchLeaves(s, p);
    if NearRunner(s, p) {
      RunOne(s, Touch(s, p), p);
    } else {
      TouchThenClose(s, p);
      var exit := [Exit(LowestStop(s, p), RunnerQty(s, p), ExitReason(x.pos, p))];
      PnlConcat(s, x.actions, exit);
      PnlOfOneExit(s, LowestStop(s, p), RunnerQty(s, p), ExitReason(x.pos, p));
    }
  }

  function FlatBar(price: real): Bar { Bar(price, price, price, price) }

  /** From any open state: every bar is pessimistic over every closing path if and only if the first
      target is not to come, or earns no less at its worst than the stop in force. */
  lemma BarExactly(s: Position, p: ExitParams)
    requires Clear(s) && s.qty > 0
    ensures (forall b: Bar, atr: real, ticks: seq<Tick> :: PessimisticBar(s, b, atr, ticks, p))
            <==> (Awaits(s, p) ==> EventWorth(s, p) >= Worth(Gain(s, s.stop), s.qty))
  {
    hide EventWorth, Worth, Run, StepBar, Clear, Pnl, ExitReason;
    if Awaits(s, p) ==> EventWorth(s, p) >= Worth(Gain(s, s.stop), s.qty) {
      forall b: Bar, atr: real, ticks: seq<Tick> ensures PessimisticBar(s, b, atr, ticks, p) {
        if StopHit(s, Adverse(s.side, b)) && Run(s, ticks, p).pos.qty == 0 { BarIsPessimistic(s, b, atr, ticks, p); }
      }
    } else {
      WorstPathIsWorse(s, p);
    }
  }

  lemma WorstPathIsWorse(s: Position, p: ExitParams)
    requires Clear(s) && Awaits(s, p) && EventWorth(s, p) < Worth(Gain(s, s.stop), s.qty)
    ensures !PessimisticBar(s, FlatBar(s.stop), 0.0, WorstPath(s, p), p)
  {
    WorstPathEarns(s, p);
    hide EventWorth, Worth, Run, StepBar, Clear, Pnl, ExitReason, WorstPath;
    BarStopsOut(s, FlatBar(s.stop), 0.0, p);
    PnlOfOneExit(s, s.stop, s.qty, ExitReason(s, p));
  }

  // ------------------------------------------------------------- over whole lives

  /** What a fresh position's first target must be worth. */
  predicate PessimismGuard(s: Position, p: ExitParams)
    requires s.target.At?
  {
    !Managed(p) || EventWorth(s, p) >= Worth(Furthest(s, p), s.qty)
  }

  lemma WorthMonotone(g: real, h: real, qty: int)
    requires g <= h && qty >= 0
    ensures Worth(g, qty) <= Worth(h, qty)
  {
    assert (h - g) * qty as real >= 0.0;
  }

  lemma ClearWhenTrailed(s: Position, m: Position, p: ExitParams)
    requires Started(s) && Trailed(s, m, p)
    ensures Clear(m)
  {
  }

  /** What a path leaves of a fresh position: only trailed, or past its first target and clear. */
  lemma {:induction false} RunReaches(s: Position, m: Position, path: seq<Tick>, p: ExitParams)
    requires Started(s) && Managed(p) && Trailed(s, m, p)
    ensures var m' := Run(m, path, p).pos; Trailed(s, m', p) || (Settled(m', p) && Clear(m'))
    decreases |path|
  {
    hide Step, Trailed, Clear, EventFires;
    if path != [] {
      var t, x := path[0], Step(m, path[0], p);
      if m.qty <= 0 {
        ClosedStepIsInert(m, t, p);
        RunReaches(s, m, path[1..], p);
      } else if EventFires(m, t.price, p) {
        EventCall(m, t, p);
        RunFillFloor(x.pos, path[1..], p);
      } else {
        TrailedCall(s, m, t, p);
        RunReaches(s, x.pos, path[1..], p);
      }
    }
  }

  lemma TrailedIsGuarded(s: Position, m: Position, p: ExitParams)
    requires Started(s) && Managed(p) && PessimismGuard(s, p) && Trailed(s, m, p) && m.qty > 0
    ensures EventWorth(m, p) >= Worth(Gain(m, m.stop), m.qty)
  {
    SameEventWorth(s, m, p);
    hide EventWorth, Worth;
    WorthMonotone(Gain(m, m.stop), Furthest(s, p), m.qty);
  }

  lemma PessimismHolds(s: Position, path: seq<Tick>, b: Bar, atr: real, ticks: seq<Tick>, p: ExitParams)
    requires Started(s) && PessimismGuard(s, p) && Run(s, path, p).pos.qty > 0
    ensures PessimisticBar(Run(s, path, p).pos, b, atr, ticks, p)
  {
    var m := Run(s, path, p).pos;
    if Managed(p) {
      StartedIsTrailed(s, p);
      hide Run, PessimisticBar, EventWorth, Worth;
      RunReaches(s, s, path, p);
      if Trailed(s, m, p) {
        ClearWhenTrailed(s, m, p);
        TrailedIsGuarded(s, m, p);
      }
    } else {
      hide Run, PessimisticBar, EventWorth, Worth;
      RunFillFloor(s, path, p);
    }
    BarExactly(m, p);
  }

  /** The average a unit earns at the worst of the first target. */
  function EventGain(s: Position, p: ExitParams): real
    requires s.target.At? && s.qty > 0
  {
    EventWorth(s, p) / s.qty as real
  }

  lemma EventGainTimes(s: Position, g: real, p: ExitParams)
    requires s.target.At? && s.qty > 0
    ensures EventGain(s, p) < g <==> EventWorth(s, p) < Worth(g, s.qty)
  {
    hide EventWorth;
    Averages(EventWorth(s, p), s.qty as real, g);
  }

  lemma Averages(total: real, n: real, g: real)
    requires n > 0.0
    ensures total / n < g <==> total < g * n
  {
    var e := total / n;
    assert e * n == total;
    if e < g { assert (g - e) * n > 0.0; } else { assert (e - g) * n >= 0.0; }
  }

  /** How an unguarded position comes to a bar that is not pessimistic. */
  function FailingPath(s: Position, p: ExitParams): seq<Tick>
    requires s.target.At? && s.qty > 0
  {
    if TrailHasRoom(s, p) then [Approach(s, EventGain(s, p), p)] else []
  }

  lemma UnguardedIsWorse(s: Position, p: ExitParams)
    requires Started(s) && !PessimismGuard(s, p)
    ensures var m := Run(s, FailingPath(s, p), p).pos;
            m.qty > 0 && m.target.At? && !PessimisticBar(m, FlatBar(m.stop), 0.0, WorstPath(m, p), p)
  {
    if TrailHasRoom(s, p) {
      var t := Approach(s, EventGain(s, p), p);
      var m := Step(s, t, p).pos;
      EventGainTimes(s, Furthest(s, p), p);
      TrailsPast(s, EventGain(s, p), p);
      RunOne(s, t, p);
      SameEventWorth(s, m, p);
      EventGainTimes(s, Gain(s, m.stop), p);
      hide Step, Run, EventWorth, EventGain, Worth, PessimisticBar, Approach;
      WorstPathIsWorse(m, p);
    } else {
      hide Step, EventWorth, Worth, PessimisticBar;
      WorstPathIsWorse(s, p);
    }
  }

  /** Bars overstate losses and never profits, exactly: over every path from a fresh position to a bar
      that stops it out, and every other way its prices could have closed it, the bar earns least, if
      and only if the style manages nothing, or its first target earns at its worst, over the whole
      position, no less than the furthest the stop can have come by then. */
  lemma PessimismExactly(s: Position, p: ExitParams)
    requires Started(s)
    ensures BarsPessimistic(s, p) <==> PessimismGuard(s, p)
  {
    hide Run, PessimisticBar, PessimismGuard;
    if PessimismGuard(s, p) {
      forall path: seq<Tick>, b: Bar, atr: real, ticks: seq<Tick> | Run(s, path, p).pos.qty > 0
        ensures PessimisticBar(Run(s, path, p).pos, b, atr, ticks, p)
      {
        PessimismHolds(s, path, b, atr, ticks, p);
      }
    } else {
      UnguardedIsWorse(s, p);
    }
  }

  // ------------------------------------------------------------- by style

  /** One unit never splits. */
  lemma OneUnit(s: Position, p: ExitParams)
    requires s.target.At? && s.qty == 1
    ensures EventWorth(s, p) == RunnerWorst(s, p)
  {
    hide RunnerWorst;
  }

  lemma OneUnitGuard(s: Position, p: ExitParams)
    requires Started(s) && s.qty == 1 && Managed(p)
    ensures PessimismGuard(s, p) <==> RunnerWorst(s, p) >= Furthest(s, p)
  {
    OneUnit(s, p);
    hide EventWorth, RunnerWorst, Furthest;
  }

  /** Stops a tick under the first target, or a runner that leaves with a gain, are worth it for any
      quantity. */
  lemma WorthAll(s: Position, g: real, p: ExitParams)
    requires s.target.At? && s.qty > 0 && Gain(s, s.target.level) >= g && RunnerWorst(s, p) >= g
    ensures EventWorth(s, p) >= Worth(g, s.qty)
  {
    RunnerQtyBounds(s, p);
    hide RunnerWorst, RunnerQty, Worth;
    WorthMonotone(g, Gain(s, s.target.level), s.qty - RunnerQty(s, p));
    WorthMonotone(g, RunnerWorst(s, p), RunnerQty(s, p));
    WorthAdds(g, s.qty - RunnerQty(s, p), RunnerQty(s, p));
  }

  lemma RunnerQtyBounds(s: Position, p: ExitParams)
    requires s.qty > 0
    ensures 1 <= RunnerQty(s, p) <= s.qty
  {
  }

  /** Over every fresh position at placeable prices: no style that manages anything. */
  lemma PessimismByStyle(p: ExitParams)
    ensures (forall s: Position | Started(s) && Placeable(s) :: BarsPessimistic(s, p)) <==> !Managed(p)
  {
    hide BarsPessimistic, LowestStop, NearRunner, Furthest, EventWorth, Worth;
    if Managed(p) {
      var s := SubTick(p);
      SubTickFalls(p);
      OneUnitGuard(s, p);
      PessimismExactly(s, p);
    } else {
      forall s: Position | Started(s) && Placeable(s) ensures BarsPessimistic(s, p) { PessimismExactly(s, p); }
    }
  }

  /** A style that does not trail early is pessimistic from every opening. */
  lemma OpenedIsPessimistic(s: Position, p: ExitParams)
    requires Opened(s) && Buffered(p) && !TrailsEarly(p)
    ensures Started(s) && PessimismGuard(s, p)
  {
    OpenedIsGuarded(s, p);
    RunnerAhead(s, p);
    hide LowestStop, EventWorth, Worth;
    if Managed(p) {
      assert NearRunner(s, p) ==> Scaled(p.runnerRrMult, s.riskDist) >= 0.0;
      hide Scaled;
      WorthAll(s, -s.riskDist, p);
    }
  }

  /** Off the grid, any style that trails from entry without a runner target. */
  lemma OffGridIsWorse(p: ExitParams)
    requires TrailsEarly(p) && p.runnerRrMult <= 0.0
    ensures Opened(OFF_GRID_START) && Placeable(OFF_GRID_START)
    ensures !BarsPessimistic(OFF_GRID_START, p)
  {
    var s := OFF_GRID_START;
    RatchetBreaksOffGrid(p);
    hide BarsPessimistic, LowestStop, Furthest, EventWorth, NeverRetreats;
    OneUnitGuard(s, p);
    PessimismExactly(s, p);
  }

  /** On the grid, a style that trails from entry and either lets the runner go at a target one risk
      multiple away, or does not promote its stop in the event's own call. */
  lemma RetreatIsWorse(p: ExitParams)
    requires Buffered(p) && TrailsEarly(p) && (p.runnerRrMult > 0.0 || !PromotesAtEvent(p))
    ensures Opened(RetreatStart(p)) && Placeable(RetreatStart(p)) && GridTarget(RetreatStart(p))
    ensures !BarsPessimistic(RetreatStart(p), p)
  {
    var s := RetreatStart(p);
    RetreatStartOpens(p);
    LateTargetIsLate(p);
    assert Scaled(p.runnerRrMult, 1.0) == p.runnerRrMult;
    if !PromotesAtEvent(p) { LateStopIsLow(p); }
    hide BarsPessimistic, LowestStop, EventWorth, LateTarget, Scaled, PromotesAtEvent;
    OneUnitGuard(s, p);
    PessimismExactly(s, p);
  }

  /** Over every opening with a tick of risk and a tick to its first target: if and only if the style
      does not trail from entry. */
  lemma PessimismOpenedExactly(p: ExitParams)
    requires Buffered(p)
    ensures (forall s: Position | Opened(s) && Placeable(s) :: BarsPessimistic(s, p)) <==> !TrailsEarly(p)
  {
    hide BarsPessimistic, Opened, Placeable;
    if !TrailsEarly(p) {
      forall s: Position | Opened(s) && Placeable(s) ensures BarsPessimistic(s, p) {
        OpenedIsPessimistic(s, p);
        PessimismExactly(s, p);
      }
    } else if p.runnerRrMult > 0.0 {
      RetreatIsWorse(p);
    } else {
      OffGridIsWorse(p);
    }
  }

  /** With first targets on the tick grid one more kind of style has pessimistic bars: one that
      promotes its stop in the call that reaches the first target and then lets the runner go
      without a target. */
  lemma PessimismOnGridExactly(p: ExitParams)
    requires Buffered(p)
    ensures (forall s: Position | Opened(s) && Placeable(s) && GridTarget(s) :: BarsPessimistic(s, p))
            <==> !TrailsEarly(p) || (PromotesAtEvent(p) && p.runnerRrMult <= 0.0)
  {
    hide BarsPessimistic, Opened, Placeable, GridTarget, PromotesAtEvent;
    if !TrailsEarly(p) || (PromotesAtEvent(p) && p.runnerRrMult <= 0.0) {
      forall s: Position | Opened(s) && Placeable(s) && GridTarget(s) ensures BarsPessimistic(s, p) {
        OnGridIsPessimistic(s, p);
        PessimismExactly(s, p);
      }
    } else {
      RetreatIsWorse(p);
    }
  }

  lemma OnGridIsPessimistic(s: Position, p: ExitParams)
    requires Opened(s) && Buffered(p) && GridTarget(s)
    requires !TrailsEarly(p) || (PromotesAtEvent(p) && p.runnerRrMult <= 0.0)
    ensures Started(s) && PessimismGuard(s, p)
  {
    if !TrailsEarly(p) {
      OpenedIsPessimistic(s, p);
    } else {
      PromotedStop(s, p);
      hide LowestStop, EventWorth, Worth, PromotesAtEvent;
      WorthAll(s, Gain(s, s.target.level) - 1.0, p);
    }
  }
}

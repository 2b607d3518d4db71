/** Whole-run properties of the exit machine. */
module ExitTheorems {
  import opened Common
  import opened ExitManager
  import opened ExitInvariants

  // ------------------------------------------------------------ runs and bars

  lemma {:induction false} RunConcat(s: Position, xs: seq<Tick>, ys: seq<Tick>, p: ExitParams)
    ensures var x := Run(s, xs, p);
            Run(s, xs + ys, p) == Outcome(Run(x.pos, ys, p).pos, x.actions + Run(x.pos, ys, p).actions)
    decreases |xs|
  {
    hide Step;
    if xs == [] {
      assert xs + ys == ys;
    } else {
      assert (xs + ys)[0] == xs[0] && (xs + ys)[1..] == xs[1..] + ys;
      RunConcat(Step(s, xs[0], p).pos, xs[1..], ys, p);
    }
  }

  lemma {:induction false} ClosedRunIsInert(s: Position, ticks: seq<Tick>, p: ExitParams)
    requires s.qty <= 0
    ensures Run(s, ticks, p) == Outcome(s, [])
    decreases |ticks|
  {
    hide FirstTargetEvent, LockStep, TrailStep, ExitStep;
    if ticks != [] { ClosedRunIsInert(s, ticks[1..], p); }
  }

  /** The prices one bar stands for. */
  function BarTicks(side: Side, b: Bar, atr: real): seq<Tick> {
    [Tick(Adverse(side, b), atr), Tick(Favourable(side, b), atr), Tick(b.close, atr)]
  }

  lemma StepHasExit(s: Position, t: Tick, p: ExitParams)
    ensures HasExit(Step(s, t, p).actions) <==> s.qty > 0 && Step(s, t, p).pos.qty <= 0
    ensures Step(s, t, p).pos.side == s.side
    ensures s.firstTargetDone ==> Step(s, t, p).pos.firstTargetDone
  {
    hide Step, FirstTargetEvent, BeforeExit, ExitStep;
    if s.qty > 0 {
      StepParts(s, t, p);
      BeforeExitFrame(s, t, p);
      ExitBooks(BeforeExit(s, t, p), t.price, p);
      EventBooks(s, t.price, p);
    } else {
      ClosedStepIsInert(s, t, p);
    }
  }

  lemma RunOne(s: Position, t: Tick, p: ExitParams)
    ensures Run(s, [t], p) == Step(s, t, p)
  {
  }

  lemma RunCons(s: Position, t: Tick, rest: seq<Tick>, p: ExitParams)
    ensures var x := Step(s, t, p);
            Run(s, [t] + rest, p) == Outcome(Run(x.pos, rest, p).pos, x.actions + Run(x.pos, rest, p).actions)
  {
  }

  /** A bar is exactly the three-price path worst, best, close: the early returns after an
      exit lose nothing, because a closed position never acts again. */
  lemma BarIsThreeTicks(s: Position, b: Bar, atr: real, p: ExitParams)
    ensures StepBar(s, b, atr, p) == Run(s, BarTicks(s.side, b, atr), p)
  {
    hide FirstTargetEvent, LockStep, TrailStep, ExitStep;
    var t := BarTicks(s.side, b, atr);
    var x := Step(s, t[0], p);
    RunCons(s, t[0], [t[1], t[2]], p);
    RunCons(x.pos, t[1], [t[2]], p);
    assert t == [t[0]] + [t[1], t[2]] && [t[1], t[2]] == [t[1]] + [t[2]];
    var y := Step(x.pos, t[1], p);
    var z := Step(y.pos, t[2], p);
    RunOne(y.pos, t[2], p);
    StepHasExit(s, t[0], p);
    StepHasExit(x.pos, t[1], p);
    assert x.actions + (y.actions + z.actions) == x.actions + y.actions + z.actions;
    ExitEither(x.actions, y.actions);
    if HasExit(x.actions) {
      assert x.pos.qty <= 0;
    } else if HasExit(y.actions) {
      assert y.pos.qty <= 0;
    }
  }

  lemma ExitEither(a: seq<Action>, b: seq<Action>)
    ensures HasExit(a + b) <==> HasExit(a) || HasExit(b)
  {
    if HasExit(a) {
      var i :| 0 <= i < |a| && a[i].Exit?;
      assert (a + b)[i].Exit?;
    } else if HasExit(b) {
      var i :| 0 <= i < |b| && b[i].Exit?;
      assert (a + b)[|a| + i].Exit?;
    }
  }

  // ------------------------------------------------- the stop in force before a call

  lemma JoinedActions(a: seq<Action>, b: seq<Action>, c: seq<Action>, d: seq<Action>, x: Action)
    requires NoFills(b) && NoFills(c) && x in a + b + c + d && x.Exit?
    ensures x in a || x in d
  {
  }

  lemma NotAmong(a: seq<Action>, x: Action)
    requires x.Exit? && !HasExit(a)
    ensures x !in a
  {
  }

  /** A price at the stop in force cannot reach the target, so nothing moves first. */
  lemma NothingMovesAtStop(s: Position, t: Tick, p: ExitParams)
    requires Clear(s) && s.qty > 0 && StopHit(s, t.price)
    ensures FirstTargetEvent(s, t.price, p) == Outcome(s, [])
    ensures LockStep(s, t.price, t.atr, p) == Outcome(s, [])
    ensures var c := TrailStep(s, t.price, t.atr, p);
            c.actions == [] && c.pos == s.(peak := c.pos.peak)
  {
  }

  lemma StopExit(s: Position, t: Tick, p: ExitParams)
    requires Clear(s) && s.qty > 0 && StopHit(s, t.price)
    ensures Step(s, t, p).actions == [Exit(s.stop, s.qty, ExitReason(s, p))]
    ensures Step(s, t, p).pos.stop == s.stop && Step(s, t, p).pos.qty == 0
  {
    hide FirstTargetEvent, LockStep, TrailStep;
    NothingMovesAtStop(s, t, p);
    var c := TrailStep(s, t.price, t.atr, p);
    assert ExitReason(c.pos, p) == ExitReason(s, p);
    var exit := ExitStep(c.pos, t.price, p).actions;
    assert [] + [] + [] + exit == exit;
  }

  /** Nor does the exit stage, at a price short of the stop in force before the call. */
  lemma NoStopAction(s: Position, t: Tick, p: ExitParams)
    requires s.qty > 0 && !StopHit(s, t.price)
    ensures var b := LockStep(FirstTargetEvent(s, t.price, p).pos, t.price, t.atr, p).pos;
            var c := TrailStep(b, t.price, t.atr, p).pos;
            forall x :: x in ExitStep(c, t.price, p).actions ==> x.why == TargetHit
  {
    hide FirstTargetEvent, LockStep, TrailStep, ExitReason;
    BeforeExitFrame(s, t, p);
  }

  lemma NoStopExit(s: Position, t: Tick, p: ExitParams)
    requires s.qty > 0 && !StopHit(s, t.price)
    ensures forall a | a in Step(s, t, p).actions :: a.Exit? ==> a.why == TargetHit
  {
    hide FirstTargetEvent, LockStep, TrailStep, BeforeExit, HasExit, NoFills, ExitReason, Booked, FillsFrom, ExitStep;
    var a := FirstTargetEvent(s, t.price, p);
    var b := LockStep(a.pos, t.price, t.atr, p);
    var c := TrailStep(b.pos, t.price, t.atr, p);
    var d := ExitStep(c.pos, t.price, p);
    LockTightens(a.pos, t.price, t.atr, p);
    TrailTightens(b.pos, t.price, t.atr, p);
    EventBooks(s, t.price, p);
    NoStopAction(s, t, p);
    forall x | x in Step(s, t, p).actions && x.Exit? ensures x.why == TargetHit {
      JoinedActions(a.actions, b.actions, c.actions, d.actions, x);
      NotAmong(a.actions, x);
    }
  }

  /** A stop exit happens exactly when the price reaches the stop in force BEFORE the call,
      fills at that stop, and is then the only thing the call does. */
  lemma StopExitIff(s: Position, t: Tick, p: ExitParams)
    requires Clear(s) && s.qty > 0
    ensures StopHit(s, t.price) ==>
              && Step(s, t, p).actions == [Exit(s.stop, s.qty, ExitReason(s, p))]
              && Step(s, t, p).pos.stop == s.stop && Step(s, t, p).pos.qty == 0
    ensures !StopHit(s, t.price) ==>
              forall a | a in Step(s, t, p).actions :: a.Exit? ==> a.why == TargetHit
  {
    hide Step, ExitReason;
    if StopHit(s, t.price) { StopExit(s, t, p); } else { NoStopExit(s, t, p); }
  }

  /** No call both moves the stop and exits at it. */
  lemma NeverMovesAndStops(s: Position, t: Tick, p: ExitParams)
    requires Clear(s) && s.qty > 0
    requires Step(s, t, p).pos.stop != s.stop
    ensures forall a | a in Step(s, t, p).actions :: a.Exit? ==> a.why == TargetHit
  {
    StopExitIff(s, t, p);
  }

  /** The reason is honest, exactly by where the stop filled: a plain stop-loss when neither the first target
      nor a trail ever moved the stop; otherwise the lock within a tick and a half of its level; otherwise
      break-even within that of the buffered entry (when a part was to be booked) or less than a twentieth of
      the risk under the entry; of the rest a gain is a trailed profit and a loss a trailed stop. */
  lemma StopReasonIsHonest(s: Position, t: Tick, p: ExitParams)
    requires Clear(s) && s.qty > 0 && StopHit(s, t.price)
    ensures |Step(s, t, p).actions| == 1
    ensures var a := Step(s, t, p).actions[0];
            var gain, moved := Gain(s, s.stop), s.firstTargetDone || s.trailActive;
            && a.Exit? && a.price == s.stop
            && (a.why == StopLoss <==> !moved)
            && (a.why == Tp1Lock <==>
                  moved && p.lockFirstTarget && s.firstTarget != 0.0 && -1.5 <= gain - Gain(s, s.firstTarget) <= 1.5)
            && (moved && a.why != Tp1Lock ==>
                  var even := p.partialExitFraction > 0.0 && -1.5 <= gain - Buffer(s.entry, p) <= 1.5;
                  && (a.why == BreakEven <==> even || -s.riskDist * 0.05 < gain <= 0.0)
                  && (a.why == TrailProfit <==> !even && gain > 0.0)
                  && (a.why == TrailStop <==> !even && gain <= 0.0 && gain <= -s.riskDist * 0.05))
  {
    hide Step;
    StopExit(s, t, p);
  }

  // ----------------------------------------------------------- whole-life loss bound

  lemma ExitFillFloor(s: Position, m: Position, price: real, g: real, p: ExitParams)
    requires m.side == s.side && m.entry == s.entry && m.qty > 0
    requires Gain(s, m.stop) >= g && (m.target.At? ==> Gain(s, m.target.level) >= g)
    ensures FillsFrom(s, ExitStep(m, price, p).actions, g)
  {
  }

  lemma StepFillFloor(s: Position, t: Tick, p: ExitParams)
    requires Sound(s, p) && Buffered(p)
    ensures FillsFrom(s, Step(s, t, p).actions, -s.riskDist)
  {
    if s.qty > 0 {
      StepParts(s, t, p);
      BeforeExitSound(s, t, p);
      EventBooks(s, t.price, p);
      RunnerGain(s, p);
      hide Step, FirstTargetEvent, BeforeExit, ExitStep, RunnerTarget, Scaled, FillsFrom;
      ExitFillFloor(s, BeforeExit(s, t, p), t.price, -s.riskDist, p);
      FirstFillFloor(s, t.price, -s.riskDist, p);
    }
  }

  lemma FirstFillFloor(s: Position, price: real, g: real, p: ExitParams)
    requires s.qty > 0 && (EventFires(s, price, p) ==> Gain(s, s.target.level) >= g)
    ensures FillsFrom(s, FirstTargetEvent(s, price, p).actions, g)
  {
    EventBooks(s, price, p);
  }

  /** Over any price and ATR path: the invariant holds throughout, every unit is booked or
      still held, and no fill is worse than the initial stop. */
  lemma {:induction false} RunSound(s: Position, ticks: seq<Tick>, p: ExitParams)
    requires Sound(s, p) && Buffered(p)
    ensures var o := Run(s, ticks, p);
            && Sound(o.pos, p)
            && o.pos.side == s.side && o.pos.entry == s.entry && o.pos.riskDist == s.riskDist
            && Booked(o.actions) + o.pos.qty == s.qty
            && FillsFrom(s, o.actions, -s.riskDist)
    decreases |ticks|
  {
    hide Step;
    if ticks != [] {
      var x := Step(s, ticks[0], p);
      StepSound(s, ticks[0], p);
      StepFillFloor(s, ticks[0], p);
      RunSound(x.pos, ticks[1..], p);
      BookedConcat(x.actions, Run(x.pos, ticks[1..], p).actions);
    }
  }

  lemma OpenedIsSound(s: Position, p: ExitParams)
    requires Opened(s)
    ensures Sound(s, p)
  {
  }

  lemma BookedLossBound(s: Position, actions: seq<Action>, qty: int)
    requires s.riskDist >= 0.0 && FillsFrom(s, actions, -s.riskDist) && Booked(actions) <= qty
    ensures Pnl(s, actions) >= -Worth(s.riskDist, qty)
    ensures 0 <= Booked(actions)
  {
    PnlFloor(s, actions, -s.riskDist);
    assert s.riskDist * (qty - Booked(actions)) as real >= 0.0;
  }

  function BarsTicks(side: Side, bars: seq<(Bar, real)>): seq<Tick> {
    if bars == [] then [] else BarTicks(side, bars[0].0, bars[0].1) + BarsTicks(side, bars[1..])
  }

  function RunBars(s: Position, bars: seq<(Bar, real)>, p: ExitParams): Outcome
    decreases |bars|
  {
    if bars == [] then Outcome(s, [])
    else
      var x := StepBar(s, bars[0].0, bars[0].1, p);
      var rest := RunBars(x.pos, bars[1..], p);
      Outcome(rest.pos, x.actions + rest.actions)
  }

  /** A bar-by-bar run is the tick run over the same prices, so every statement about
      `Run` holds of the backtester's bars as well. */
  lemma {:induction false} BarsAreTicks(s: Position, bars: seq<(Bar, real)>, p: ExitParams)
    ensures RunBars(s, bars, p) == Run(s, BarsTicks(s.side, bars), p)
    decreases |bars|
  {
    if bars != [] {
      var t := BarTicks(s.side, bars[0].0, bars[0].1);
      BarIsThreeTicks(s, bars[0].0, bars[0].1, p);
      RunConcat(s, t, BarsTicks(s.side, bars[1..]), p);
      RunKeepsSide(s, t, p);
      BarsAreTicks(Run(s, t, p).pos, bars[1..], p);
    }
  }

  lemma {:induction false} RunKeepsSide(s: Position, ticks: seq<Tick>, p: ExitParams)
    ensures Run(s, ticks, p).pos.side == s.side
    decreases |ticks|
  {
    hide Step;
    if ticks != [] {
      StepHasExit(s, ticks[0], p);
      RunKeepsSide(Step(s, ticks[0], p).pos, ticks[1..], p);
    }
  }

  // ----------------------------------------------------------------- bar pessimism

  /** Without the event, a call only tightens before its exit check. */
  lemma QuietFrame(s: Position, t: Tick, p: ExitParams)
    requires s.qty > 0 && !EventFires(s, t.price, p)
    ensures var m := BeforeExit(s, t, p);
            && m == s.(stop := m.stop, peak := m.peak, trailActive := m.trailActive)
            && Gain(s, m.stop) >= Gain(s, s.stop) && (Clear(s) ==> Clear(m))
    ensures FirstTargetEvent(s, t.price, p) == Outcome(s, [])
  {
    var b := LockStep(s, t.price, t.atr, p).pos;
    LockTightens(s, t.price, t.atr, p);
    TrailTightens(b, t.price, t.atr, p);
    hide LockStep, TrailStep;
  }

  /** A call without the event never moves the stop away from profit, and whatever it fills, it fills
      the whole position at the stop that was in force or better. */
  lemma QuietCall(s: Position, t: Tick, p: ExitParams)
    requires !EventFires(s, t.price, p)
    ensures var x := Step(s, t, p);
            && x.pos == s.(qty := x.pos.qty, stop := x.pos.stop, peak := x.pos.peak, trailActive := x.pos.trailActive)
            && (x.pos.qty == s.qty || x.pos.qty == 0)
            && Gain(s, x.pos.stop) >= Gain(s, s.stop)
            && Booked(x.actions) == s.qty - x.pos.qty
            && (Clear(s) ==> Clear(x.pos) && FillsFrom(s, x.actions, Gain(s, s.stop)))
  {
    if s.qty > 0 {
      var m := BeforeExit(s, t, p);
      StepParts(s, t, p);
      QuietFrame(s, t, p);
      EventBooks(s, t.price, p);
      ExitBooks(m, t.price, p);
      hide Step, FirstTargetEvent, BeforeExit, EventFires;
      assert FillsFrom(s, [], Gain(s, s.stop));
      if Clear(s) { ExitFillFloor(s, m, t.price, Gain(s, s.stop), p); }
    } else {
      ClosedStepIsInert(s, t, p);
    }
  }

  /** The first-target event lies behind, or can never come. */
  predicate Settled(s: Position, p: ExitParams) { s.firstTargetDone || !Managed(p) || s.target.Open? }

  lemma {:induction false} RunFillFloor(s: Position, ticks: seq<Tick>, p: ExitParams)
    requires Settled(s, p)
    ensures var o := Run(s, ticks, p);
            && o.pos == s.(qty := o.pos.qty, stop := o.pos.stop, peak := o.pos.peak, trailActive := o.pos.trailActive)
            && Gain(s, o.pos.stop) >= Gain(s, s.stop)
            && Booked(o.actions) == s.qty - o.pos.qty
            && (Clear(s) ==> Clear(o.pos) && FillsFrom(s, o.actions, Gain(s, s.stop)))
    decreases |ticks|
  {
    hide Step, Clear;
    if ticks != [] {
      var x := Step(s, ticks[0], p);
      QuietCall(s, ticks[0], p);
      RunFillFloor(x.pos, ticks[1..], p);
      BookedConcat(x.actions, Run(x.pos, ticks[1..], p).actions);
    }
  }

  lemma PnlOfOneExit(s: Position, price: real, qty: int, why: Reason)
    ensures Pnl(s, [Exit(price, qty, why)]) == Worth(Gain(s, price), qty)
  {
    assert [Exit(price, qty, why)][1..] == [];
  }

  lemma BarStopsOut(s: Position, b: Bar, atr: real, p: ExitParams)
    requires Clear(s) && s.qty > 0 && StopHit(s, Adverse(s.side, b))
    ensures StepBar(s, b, atr, p).actions == [Exit(s.stop, s.qty, ExitReason(s, p))]
  {
    StopExitIff(s, Tick(Adverse(s.side, b), atr), p);
    assert [Exit(s.stop, s.qty, ExitReason(s, p))][0].Exit?;
  }
}

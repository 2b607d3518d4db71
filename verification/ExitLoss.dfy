/** Exactly when no fill is worse than the initial stop, with no minimum on the risk or on the first
    target: signal levels reach the machine unrounded, so either may be a fraction of a tick. */
module ExitLoss {
  import opened Common
  import opened TickGrid
  import opened ExitManager
  import opened ExitInvariants
  import opened ExitTheorems
  import opened ExitStyles

  /** A fresh position: stop at its risk distance on one side of the entry, first target on the other. */
  predicate Started(s: Position) {
    && s.qty > 0 && Gain(s, s.stop) == -s.riskDist && s.riskDist >= 0.0
    && s.target.At? && Gain(s, s.target.level) > 0.0
    && !s.firstTargetDone && !s.trailActive
  }

  /** The runner's target is no farther than the first one, so the runner leaves there at once. */
  predicate NearRunner(s: Position, p: ExitParams)
    requires s.target.At?
  {
    p.runnerRrMult > 0.0 && Scaled(p.runnerRrMult, s.riskDist) <= Gain(s, s.target.level)
  }

  /** Held, with the first-target event still to come. */
  predicate Awaits(s: Position, p: ExitParams) { s.qty > 0 && !Settled(s, p) }

  /** A delayed lock whose trigger is already met at the first target. */
  predicate LocksOnTouch(s: Position, p: ExitParams)
    requires s.target.At?
  {
    && p.lockFirstTarget && p.lockTriggerFrac > 0.0 && p.lockTriggerAtrMult <= 0.0
    && s.target.level != 0.0 && (p.runnerRrMult <= 0.0 || NearRunner(s, p))
  }

  /** Where that lock takes the stop: the first grid price a tick inside the first target, and a tick
      short of the runner's. */
  function Inside(s: Position, p: ExitParams): real
    requires s.target.At?
  {
    ShortOfTarget(s.side, SafeSide(s.side, s.target.level), RunnerTarget(s, p))
  }

  /** The lowest stop the first target can leave: the event's own at that very price, or the lock's. */
  function LowestStop(s: Position, p: ExitParams): real
    requires s.target.At?
  {
    var bare := EventStop(s.side, s.entry, s.target.level, s.target.level, p);
    if LocksOnTouch(s, p) && Gain(s, Inside(s, p)) > Gain(s, bare) + 0.5 then Inside(s, p) else bare
  }

  /** What a caller can check before the first price. */
  predicate LossGuard(s: Position, p: ExitParams)
    requires s.target.At?
  {
    !Managed(p) || NearRunner(s, p) || Gain(s, LowestStop(s, p)) >= -s.riskDist
  }

  // ------------------------------------------------------------- the lowest stop

  lemma EventStopMonotone(s: Position, price: real, p: ExitParams)
    requires s.target.At? && Gain(s, price) >= Gain(s, s.target.level)
    ensures var level := s.target.level;
            Gain(s, EventStop(s.side, s.entry, level, price, p)) >= Gain(s, EventStop(s.side, s.entry, level, level, p))
  {
    hide FloorTick, CeilTick, BreakEvenStop, SafeSide;
    SafeSideMonotone(s, s.target.level, price);
  }

  lemma LowestIsBelow(s: Position, p: ExitParams)
    requires s.target.At?
    ensures Gain(s, LowestStop(s, p)) <= Gain(s, SafeSide(s.side, s.target.level)) <= Gain(s, s.target.level) - 1.0
  {
    hide BreakEvenStop, RunnerTarget;
  }

  lemma ScaledSign(m: real, x: real)
    requires m > 0.0
    ensures x > 0.0 ==> Scaled(m, x) > 0.0
    ensures x < 0.0 ==> Scaled(m, x) < 0.0
    ensures x == 0.0 ==> Scaled(m, x) == 0.0
  {
  }

  lemma RunnerGains(s: Position, p: ExitParams)
    ensures RunnerTarget(s, p).At? ==> Gain(s, RunnerTarget(s, p).level) == Scaled(p.runnerRrMult, s.riskDist)
  {
  }

  /** Whether a delayed lock waits, at the first target and beyond. */
  lemma TouchTrigger(s: Position, price: real, atr: real, p: ExitParams)
    requires EventFires(s, price, p) && p.lockTriggerFrac > 0.0 && p.lockTriggerAtrMult <= 0.0
    ensures var trigger := LockTrigger(FirstTargetEvent(s, price, p).pos, atr, p);
            if p.runnerRrMult <= 0.0 || NearRunner(s, p) then Reached(s.side, price, trigger)
            else Gain(s, trigger) > Gain(s, s.target.level)
  {
    var a := FirstTargetEvent(s, price, p).pos;
    RunnerGains(s, p);
    hide EventStop, PartialQty;
    if p.runnerRrMult > 0.0 { ScaledSign(p.lockTriggerFrac, a.target.level - a.firstTarget); }
    hide Scaled;
  }

  /** Event and lock at the first target itself, when any ATR-triggered lock has an ATR to wait for. */
  lemma LowestIsReached(s: Position, atr: real, p: ExitParams)
    requires s.target.At? && EventFires(s, s.target.level, p) && (p.lockTriggerAtrMult > 0.0 ==> atr > 0.0)
    ensures LockStep(FirstTargetEvent(s, s.target.level, p).pos, s.target.level, atr, p).pos.stop == LowestStop(s, p)
  {
    var level := s.target.level;
    if p.lockTriggerAtrMult > 0.0 {
      ScaledSign(p.lockTriggerAtrMult, atr);
    } else if p.lockTriggerFrac > 0.0 {
      TouchTrigger(s, level, atr, p);
    }
    hide BreakEvenStop, PartialQty, NearRunner, Scaled;
    if LocksAtOnce(p) { LockedStops(s, atr, p); }
  }

  /** An immediate lock has nothing left to do in the event's own call. */
  lemma LockedStops(s: Position, atr: real, p: ExitParams)
    requires s.target.At? && EventFires(s, s.target.level, p) && LocksAtOnce(p)
    ensures var a := FirstTargetEvent(s, s.target.level, p).pos; LockStep(a, s.target.level, atr, p).pos.stop == a.stop
  {
    hide BreakEvenStop, PartialQty, RunnerTarget, LockTrigger;
  }

  /** Wherever the first-target price falls and whatever the ATR, event and lock leave the stop no
      lower than that. */
  lemma LowestIsLeast(s: Position, price: real, atr: real, p: ExitParams)
    requires EventFires(s, price, p)
    ensures Gain(s, LockStep(FirstTargetEvent(s, price, p).pos, price, atr, p).pos.stop) >= Gain(s, LowestStop(s, p))
  {
    var level := s.target.level;
    var a := FirstTargetEvent(s, price, p).pos;
    EventStopMonotone(s, price, p);
    LockTightens(a, price, atr, p);
    if LowestStop(s, p) != EventStop(s.side, s.entry, level, level, p) {
      TouchTrigger(s, price, atr, p);
      SafeSideMonotone(s, level, price);
      hide BreakEvenStop, PartialQty, RunnerTarget, LockTrigger, NearRunner, EventFires, SafeSide;
      LockBringsInside(s, a, price, p);
    }
  }

  /** A lock whose trigger is met brings the stop at least as far inside as at the first target. */
  lemma LockBringsInside(s: Position, a: Position, price: real, p: ExitParams)
    requires s.target.At? && a.side == s.side && a.entry == s.entry && a.target == RunnerTarget(s, p)
    requires Gain(s, SafeSide(s.side, price)) >= Gain(s, SafeSide(s.side, s.target.level))
    requires Gain(s, Inside(s, p)) > Gain(s, EventStop(s.side, s.entry, s.target.level, s.target.level, p)) + 0.5
    requires a.stop == EventStop(s.side, s.entry, s.target.level, price, p) && !LocksAtOnce(p)
    ensures Gain(s, Ratcheted(a, s.target.level, price)) >= Gain(s, Inside(s, p))
  {
    LowestIsBelow(s, p);
    hide BreakEvenStop, RunnerTarget;
  }

  // ------------------------------------------------------------- sufficient

  /** Not yet at its first target; only trailed. */
  predicate Waiting(s: Position) {
    && Gain(s, s.stop) >= -s.riskDist && s.riskDist >= 0.0
    && s.target.At? && Gain(s, s.target.level) > 0.0 && !s.firstTargetDone
  }

  /** Past its first target, with stop and target at the initial stop or better. */
  predicate Secured(s: Position) {
    && Gain(s, s.stop) >= -s.riskDist && s.riskDist >= 0.0
    && (s.target.At? ==> Gain(s, s.target.level) >= -s.riskDist) && s.firstTargetDone
  }

  /** A position that can no longer lose more than its risk on a unit. */
  predicate Safe(s: Position, p: ExitParams) {
    && s.qty >= 0 && s.riskDist >= 0.0
    && (s.qty > 0 ==> Secured(s) || (Waiting(s) && LossGuard(s, p)))
  }

  /** What one call on a safe position does: fills no worse than the initial stop, and only prices no
      worse than it survived. */
  predicate NoWorse(s: Position, t: Tick, x: Outcome) {
    && x.pos.side == s.side && x.pos.entry == s.entry && x.pos.riskDist == s.riskDist
    && FillsFrom(s, x.actions, -s.riskDist)
    && (s.qty > 0 && !HasExit(x.actions) ==> Gain(s, t.price) >= -s.riskDist)
  }

  /** The exit check, when stop and target are no worse than the initial stop. */
  lemma ExitNoWorse(s: Position, m: Position, price: real, p: ExitParams)
    requires m.side == s.side && m.entry == s.entry && m.qty > 0
    requires m.target.At? ==> Gain(s, m.target.level) >= -s.riskDist
    requires Gain(s, m.stop) >= -s.riskDist || (!StopHit(m, price) && TargetReached(m, price))
    ensures var d := ExitStep(m, price, p);
            FillsFrom(s, d.actions, -s.riskDist) && (!HasExit(d.actions) ==> Gain(s, price) >= -s.riskDist)
  {
    ExitBooks(m, price, p);
  }

  lemma NothingFillsFrom(s: Position, g: real)
    ensures FillsFrom(s, [], g)
  {
  }

  /** So much for the fills; what is left of the position is as it was before the check. */
  lemma Concludes(s: Position, t: Tick, p: ExitParams)
    requires var m := BeforeExit(s, t, p);
             && s.qty > 0 && m.side == s.side && m.entry == s.entry && m.riskDist == s.riskDist
             && FillsFrom(s, FirstTargetEvent(s, t.price, p).actions, -s.riskDist)
             && (m.target.At? ==> Gain(s, m.target.level) >= -s.riskDist)
             && (Gain(s, m.stop) >= -s.riskDist || (!StopHit(m, t.price) && TargetReached(m, t.price)))
    ensures var x, m := Step(s, t, p), BeforeExit(s, t, p);
            && NoWorse(s, t, x) && m.qty > 0
            && x.pos == m.(qty := x.pos.qty)
            && (x.pos.qty == 0 || (x.pos.qty == m.qty && !StopHit(m, t.price) && !TargetReached(m, t.price)))
  {
    hide BeforeExit, FirstTargetEvent, Step, ExitStep, FillsFrom, HasExit, StopHit, TargetReached;
    hide Booked, Pnl, Gain, EventFires, Splits;
    var m := BeforeExit(s, t, p);
    StepParts(s, t, p);
    EventBooks(s, t.price, p);
    BeforeExitFrame(s, t, p);
    ExitNoWorse(s, m, t.price, p);
    ExitBooks(m, t.price, p);
  }

  lemma QuietStep(s: Position, t: Tick, p: ExitParams)
    requires Safe(s, p) && s.qty > 0 && !EventFires(s, t.price, p)
    ensures var x := Step(s, t, p); NoWorse(s, t, x) && Safe(x.pos, p)
  {
    QuietFrame(s, t, p);
    NothingFillsFrom(s, -s.riskDist);
    hide BeforeExit, FirstTargetEvent, Step, FillsFrom, LowestStop, NoWorse;
    Concludes(s, t, p);
    if !s.firstTargetDone { SameLowest(s, BeforeExit(s, t, p), p); }
  }

  /** The event cannot set off an exit at its own stop. */
  lemma EventKeepsClear(s: Position, t: Tick, p: ExitParams)
    requires EventFires(s, t.price, p)
    ensures var m := BeforeExit(s, t, p);
            !StopHit(m, t.price) && m.firstTargetDone && m.target == RunnerTarget(s, p)
            && m.side == s.side && m.entry == s.entry && m.riskDist == s.riskDist
  {
    var a := FirstTargetEvent(s, t.price, p).pos;
    hide BreakEvenStop, PartialQty, RunnerTarget;
    LockTightens(a, t.price, t.atr, p);
    TrailTightens(LockStep(a, t.price, t.atr, p).pos, t.price, t.atr, p);
  }

  /** Nor does a trail in the same call loosen anything. */
  lemma EventStopsAbove(s: Position, t: Tick, p: ExitParams)
    requires EventFires(s, t.price, p)
    ensures Gain(s, BeforeExit(s, t, p).stop) >= Gain(s, LowestStop(s, p))
  {
    var b := LockStep(FirstTargetEvent(s, t.price, p).pos, t.price, t.atr, p).pos;
    LowestIsLeast(s, t.price, t.atr, p);
    TrailTightens(b, t.price, t.atr, p);
    SameFrame(s, t, p);
    hide FirstTargetEvent, LockStep, TrailStep, LowestStop;
  }

  lemma RunnerAhead(s: Position, p: ExitParams)
    requires s.riskDist >= 0.0
    ensures RunnerTarget(s, p).At? ==> Gain(s, RunnerTarget(s, p).level) == Scaled(p.runnerRrMult, s.riskDist) >= 0.0
  {
  }

  /** Before the exit check of the event's call, either the stop is safe or the runner leaves at its
      target. */
  lemma EventSafe(s: Position, t: Tick, p: ExitParams)
    requires Waiting(s) && LossGuard(s, p) && EventFires(s, t.price, p)
    ensures var m := BeforeExit(s, t, p);
            && (m.target.At? ==> Gain(s, m.target.level) >= 0.0)
            && (Gain(s, m.stop) >= -s.riskDist || (!StopHit(m, t.price) && TargetReached(m, t.price)))
  {
    EventKeepsClear(s, t, p);
    RunnerAhead(s, p);
    hide BeforeExit, LowestStop;
    if !NearRunner(s, p) { EventStopsAbove(s, t, p); }
  }

  lemma EventStep(s: Position, t: Tick, p: ExitParams)
    requires Safe(s, p) && s.qty > 0 && EventFires(s, t.price, p)
    ensures var x := Step(s, t, p); NoWorse(s, t, x) && Safe(x.pos, p)
  {
    EventSafe(s, t, p);
    EventKeepsClear(s, t, p);
    FirstFillFloor(s, t.price, -s.riskDist, p);
    hide BeforeExit, FirstTargetEvent, Step, FillsFrom, LossGuard, NoWorse;
    Concludes(s, t, p);
  }

  lemma SameFrame(s: Position, t: Tick, p: ExitParams)
    ensures var b := LockStep(FirstTargetEvent(s, t.price, p).pos, t.price, t.atr, p).pos;
            b.side == s.side && b.entry == s.entry
  {
  }

  /** The lowest stop depends on nothing a trail changes. */
  lemma SameLowest(s: Position, s': Position, p: ExitParams)
    requires s.target.At? && s'.target == s.target
    requires s'.side == s.side && s'.entry == s.entry && s'.riskDist == s.riskDist
    ensures LowestStop(s', p) == LowestStop(s, p) && NearRunner(s', p) == NearRunner(s, p)
  {
  }

  lemma SafeStep(s: Position, t: Tick, p: ExitParams)
    requires Safe(s, p)
    ensures var x := Step(s, t, p); NoWorse(s, t, x) && Safe(x.pos, p)
  {
    hide Step, EventFires, LossGuard;
    if s.qty == 0 {
      ClosedStepIsInert(s, t, p);
    } else if EventFires(s, t.price, p) {
      EventStep(s, t, p);
    } else {
      QuietStep(s, t, p);
    }
  }

  lemma {:induction false} SafeRun(s: Position, ticks: seq<Tick>, p: ExitParams)
    requires Safe(s, p)
    ensures var o := Run(s, ticks, p);
            && Safe(o.pos, p) && FillsFrom(s, o.actions, -s.riskDist)
            && o.pos.side == s.side && o.pos.entry == s.entry && o.pos.riskDist == s.riskDist
    decreases |ticks|
  {
    hide Step, Safe;
    if ticks != [] {
      SafeStep(s, ticks[0], p);
      SafeRun(Step(s, ticks[0], p).pos, ticks[1..], p);
    }
  }

  // ------------------------------------------------------------- necessary

  /** An ATR at the first target that neither locks nor trails the stop above the lowest one. */
  function WorstAtr(s: Position, p: ExitParams): real
    requires s.target.At?
  {
    if p.lockTriggerAtrMult <= 0.0 then 0.0
    else if p.trailAtrMult > 0.0 then (Gain(s, s.target.level) - Gain(s, LowestStop(s, p))) / p.trailAtrMult
    else 1.0
  }

  /** The first target to the tick, at that ATR. */
  function Touch(s: Position, p: ExitParams): Tick
    requires s.target.At?
  {
    Tick(s.target.level, WorstAtr(s, p))
  }

  lemma WorstAtrIsQuiet(s: Position, p: ExitParams)
    requires s.target.At?
    ensures p.lockTriggerAtrMult > 0.0 ==> WorstAtr(s, p) > 0.0
    ensures WorstAtr(s, p) > 0.0 && p.trailAtrMult > 0.0 ==>
              Scaled(p.trailAtrMult, WorstAtr(s, p)) == Gain(s, s.target.level) - Gain(s, LowestStop(s, p))
  {
    LowestIsBelow(s, p);
    hide LowestStop, SafeSide, Scaled;
    if p.trailAtrMult > 0.0 { ScaledQuotient(p.trailAtrMult, Gain(s, s.target.level) - Gain(s, LowestStop(s, p))); }
  }

  lemma ScaledQuotient(m: real, x: real)
    requires m > 0.0 && x > 0.0
    ensures x / m > 0.0 && Scaled(m, x / m) == x
  {
  }

  lemma QuietTrail(b: Position, price: real, atr: real, p: ExitParams)
    requires PeakAfter(b, price) == price
    requires atr > 0.0 && p.trailAtrMult > 0.0 ==> Scaled(p.trailAtrMult, atr) == Gain(b, price) - Gain(b, b.stop)
    ensures TrailStep(b, price, atr, p).pos.stop == b.stop
  {
    if atr > 0.0 && p.trailAtrMult > 0.0 { TrailLevelAt(b.side, price, atr, Gain(b, price) - Gain(b, b.stop), p); }
  }

  lemma EventShape(s: Position, level: real, atr: real, p: ExitParams)
    requires EventFires(s, level, p)
    ensures var b := LockStep(FirstTargetEvent(s, level, p).pos, level, atr, p).pos;
            b.side == s.side && b.entry == s.entry && b.peak == level && b.firstTarget == s.target.level
  {
    hide EventStop, RunnerTarget, PartialQty, Ratcheted;
  }

  lemma TouchStop(s: Position, p: ExitParams)
    requires Awaits(s, p)
    ensures BeforeExit(s, Touch(s, p), p).stop == LowestStop(s, p)
    ensures BeforeExit(s, Touch(s, p), p).firstTarget == s.target.level
  {
    var t := Touch(s, p);
    var b := LockStep(FirstTargetEvent(s, t.price, p).pos, t.price, t.atr, p).pos;
    WorstAtrIsQuiet(s, p);
    LowestIsReached(s, t.atr, p);
    EventShape(s, t.price, t.atr, p);
    hide LowestStop, FirstTargetEvent, LockStep, TrailStep, WorstAtr;
    QuietTrail(b, t.price, t.atr, p);
    TrailTightens(b, t.price, t.atr, p);
  }

  /** Reached exactly, the first target leaves the lowest stop, and everything but the partial in the
      position unless the runner's target is reached as well. */
  lemma TouchLeaves(s: Position, p: ExitParams)
    requires Awaits(s, p)
    ensures var x := Step(s, Touch(s, p), p);
            && x.pos.stop == LowestStop(s, p) && x.pos.side == s.side && x.pos.entry == s.entry
            && x.pos.firstTargetDone && x.pos.target == RunnerTarget(s, p)
            && x.pos.qty == (if NearRunner(s, p) then 0 else RunnerQty(s, p))
            && Clear(x.pos)
            && Pnl(s, x.actions)
               == Worth(Gain(s, s.target.level), s.qty - RunnerQty(s, p))
               + (if NearRunner(s, p) then Worth(Scaled(p.runnerRrMult, s.riskDist), RunnerQty(s, p)) else 0.0)
  {
    var t := Touch(s, p);
    var m := BeforeExit(s, t, p);
    TouchStop(s, p);
    LowestIsBelow(s, p);
    EventKeepsClear(s, t, p);
    FirstPnl(s, t.price, p);
    EventBooks(s, t.price, p);
    BeforeExitFrame(s, t, p);
    StepParts(s, t, p);
    ExitBooks(m, t.price, p);
    RunnerGains(s, p);
    hide LowestStop, FirstTargetEvent, BeforeExit, Step, RunnerQty, Scaled, Worth, ExitReason;
    if NearRunner(s, p) { PnlOfOneExit(s, m.target.level, m.qty, TargetHit); }
  }

  /** At the lowest stop the rest of a touched position closes. */
  lemma TouchThenClose(s: Position, p: ExitParams)
    requires Awaits(s, p) && !NearRunner(s, p)
    ensures var x, u := Step(s, Touch(s, p), p), Tick(LowestStop(s, p), 0.0);
            var o := Run(s, [Touch(s, p), u], p);
            && o.pos.qty == 0
            && o.actions == x.actions + [Exit(LowestStop(s, p), RunnerQty(s, p), ExitReason(x.pos, p))]
            && RunnerQty(s, p) > 0
  {
    var t, u := Touch(s, p), Tick(LowestStop(s, p), 0.0);
    var x := Step(s, t, p);
    TouchLeaves(s, p);
    FirstPnl(s, t.price, p);
    hide Step, Run, LowestStop, WorstAtr, ExitReason, RunnerQty, Pnl, NearRunner;
    StopExit(x.pos, u, p);
    assert [t, u] == [t] + [u];
    RunCons(s, t, [u], p);
    RunOne(x.pos, u, p);
  }

  lemma UnguardedLoses(s: Position, p: ExitParams)
    requires Started(s) && !LossGuard(s, p)
    ensures !FillsFrom(s, Run(s, [Touch(s, p), Tick(LowestStop(s, p), 0.0)], p).actions, -s.riskDist)
  {
    TouchThenClose(s, p);
    var all := Run(s, [Touch(s, p), Tick(LowestStop(s, p), 0.0)], p).actions;
    hide Step, Run, LowestStop, WorstAtr, ExitReason, RunnerQty;
    assert IsFill(all[|all| - 1]) && all[|all| - 1].price == LowestStop(s, p);
  }

  /** Over every ATR sequence and every path, no fill of a fresh position is worse than its initial
      stop if and only if the style manages nothing, or lets the runner go at the first target at the
      latest, or its stop after event and lock at the first target still gains at least minus the
      risk. */
  lemma LossBoundExactly(s: Position, p: ExitParams)
    requires Started(s)
    ensures (forall ticks: seq<Tick> :: FillsFrom(s, Run(s, ticks, p).actions, -s.riskDist)) <==> LossGuard(s, p)
  {
    if LossGuard(s, p) {
      forall ticks: seq<Tick> ensures FillsFrom(s, Run(s, ticks, p).actions, -s.riskDist) { SafeRun(s, ticks, p); }
    } else {
      UnguardedLoses(s, p);
    }
  }

  // ------------------------------------------------------------- in money

  lemma {:induction false} RunConserves(s: Position, ticks: seq<Tick>, p: ExitParams)
    requires s.qty >= 0
    ensures var o := Run(s, ticks, p); Booked(o.actions) + o.pos.qty == s.qty && o.pos.qty >= 0
    decreases |ticks|
  {
    hide Step;
    if ticks != [] {
      var x := Step(s, ticks[0], p);
      StepConserves(s, ticks[0], p);
      RunConserves(x.pos, ticks[1..], p);
      BookedConcat(x.actions, Run(x.pos, ticks[1..], p).actions);
    }
  }

  lemma StepConserves(s: Position, t: Tick, p: ExitParams)
    requires s.qty >= 0
    ensures var x := Step(s, t, p); Booked(x.actions) + x.pos.qty == s.qty && x.pos.qty >= 0
  {
    if s.qty > 0 {
      hide FirstTargetEvent, BeforeExit, ExitStep, Step;
      StepParts(s, t, p);
      EventBooks(s, t.price, p);
      BeforeExitFrame(s, t, p);
      ExitBooks(BeforeExit(s, t, p), t.price, p);
    } else {
      ClosedStepIsInert(s, t, p);
    }
  }

  /** Under the guard N units never book more than N times the risk distance in losses, on any path,
      whatever the ATRs; and every unit is either booked or still held. */
  lemma LossBound(s: Position, ticks: seq<Tick>, p: ExitParams)
    requires Started(s) && LossGuard(s, p)
    ensures var o := Run(s, ticks, p);
            && Pnl(s, o.actions) >= -Worth(s.riskDist, s.qty)
            && 0 <= Booked(o.actions) <= s.qty
            && (o.pos.qty == 0 <==> Booked(o.actions) == s.qty)
            && (o.pos.qty > 0 ==> Gain(s, o.pos.stop) >= Gain(s, s.stop))
  {
    hide Pnl, Booked, FillsFrom, Run, Worth, LossGuard;
    SafeRun(s, ticks, p);
    RunConserves(s, ticks, p);
    BookedLossBound(s, Run(s, ticks, p).actions, s.qty);
  }

  /** One tick of risk, one tick to the first target and non-negative buffers are enough for the
      guard, in every style: even the lowest stop is then no lower than the initial one. */
  lemma OpenedIsGuarded(s: Position, p: ExitParams)
    requires Opened(s) && Buffered(p)
    ensures Started(s) && LossGuard(s, p)
    ensures Managed(p) ==> Gain(s, LowestStop(s, p)) >= Gain(s, s.stop)
  {
    if Managed(p) {
      OpenedIsSound(s, p);
      EventStopBounds(s, s.target.level, p);
      hide EventStop, Inside;
    }
  }

  // ------------------------------------------------------------- half a tick of risk

  /** A style that only trails the remainder. */
  const TRAIL_ONLY := ExitParams(0.0, 0.0, 0.0, 0.0, true, 0.0, false, false, 0.0, 0.0)

  /** A long bought at 100 ticks, half a tick of risk and half a tick to its first target. */
  const HALF_TICK := Position(Buy, 100.0, 1, 99.5, At(100.5), 0.5, false, false, false, 100.0, 0.0)

  lemma HalfTickTouch()
    ensures Started(HALF_TICK) && Awaits(HALF_TICK, TRAIL_ONLY) && !NearRunner(HALF_TICK, TRAIL_ONLY)
    ensures LowestStop(HALF_TICK, TRAIL_ONLY) == 99.0 && Touch(HALF_TICK, TRAIL_ONLY) == Tick(100.5, 0.0)
    ensures RunnerQty(HALF_TICK, TRAIL_ONLY) == 1
  {
    HalfTickStop();
    hide EventStop;
  }

  lemma HalfTickStop()
    ensures EventStop(Buy, 100.0, 100.5, 100.5, TRAIL_ONLY) == 99.0
  {
    hide FloorTick, OnGrid;
    TwoFloors();
  }

  lemma TwoFloors()
    ensures FloorTick(100.0) == 100.0 && FloorTick(99.5) == 99.0
  {
    hide FloorTick, OnGrid;
    IntOnGrid(100);
    IntOnGrid(99);
    FloorIsGreatest(100.0, 100.0);
    FloorIsGreatest(99.5, 99.0);
    RoundedOnGrid(99.5);
    GridGap(99.0, FloorTick(99.5));
  }

  /** Its first target moves the stop to 99, and the next price there loses twice the risk. */
  lemma HalfTickLosesTwice()
    ensures Started(HALF_TICK) && LowestStop(HALF_TICK, TRAIL_ONLY) == 99.0
    ensures var actions := Run(HALF_TICK, [Tick(100.5, 0.0), Tick(99.0, 0.0)], TRAIL_ONLY).actions;
            Pnl(HALF_TICK, actions) == -2.0 * Worth(HALF_TICK.riskDist, HALF_TICK.qty)
  {
    var s, p := HALF_TICK, TRAIL_ONLY;
    HalfTickTouch();
    hide Step, Run, LowestStop, Touch, ExitReason, NearRunner, Awaits, RunnerQty, Pnl;
    TouchLeaves(s, p);
    TouchThenClose(s, p);
    var x := Step(s, Touch(s, p), p);
    PnlConcat(s, x.actions, [Exit(99.0, 1, ExitReason(x.pos, p))]);
    PnlOfOneExit(s, 99.0, 1, ExitReason(x.pos, p));
  }
}

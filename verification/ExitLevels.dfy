/** What one call of the exit machine does, level by level, in gains from the entry: a reading of the
    configuration that names none of the machine's own steps. */
module ExitLevels {
  import opened Common
  import opened TickGrid
  import opened ExitManager
  import opened ExitInvariants
  import opened ExitTheorems
  import opened ExitLoss

  /** The grid price at or behind a gain: the nearest one no further in profit. */
  predicate GridBehind(s: Position, level: real, gain: real) {
    OnGrid(level) && Gain(s, level) <= gain < Gain(s, level) + 1.0
  }

  predicate Unstopped(s: Position, t: Tick) { Gain(s, t.price) > Gain(s, s.stop) }

  /** The price has gone as far in profit as the target. */
  predicate AtTarget(s: Position, t: Tick) { s.target.At? && Gain(s, t.price) >= Gain(s, s.target.level) }

  /** The first target counts for something, and this price is the first to reach it. */
  predicate Arrives(s: Position, t: Tick, p: ExitParams) {
    && s.qty > 0 && (p.partialExitFraction > 0.0 || p.trailRemainder || p.trailFromEntry)
    && !s.firstTargetDone && AtTarget(s, t)
  }

  lemma ArrivesIsEvent(s: Position, t: Tick, p: ExitParams)
    ensures Arrives(s, t, p) <==> s.qty > 0 && EventFires(s, t.price, p)
  {
  }

  // ------------------------------------------------------------- the first target

  /** The partial: the whole part of the fraction, but at least one unit and not the last one. */
  predicate IsPart(part: int, qty: int, fraction: real) {
    && 1 <= part < qty
    && (part as real <= fraction * qty as real || part == 1)
    && (fraction * qty as real < part as real + 1.0 || part == qty - 1)
  }

  lemma PartialIsPart(qty: int, fraction: real)
    requires qty >= 2
    ensures IsPart(PartialQty(qty, fraction), qty, fraction)
  {
    assert qty as real * fraction == fraction * qty as real;
  }

  /** Entry plus buffer, in ticks and in basis points of the entry. */
  function BufferGain(s: Position, p: ExitParams): real {
    p.breakevenBufferTicks + p.breakevenBufferBps / 10000.0 * s.entry
  }

  /** The stop the first target sets: the buffered entry, or the first target itself for an immediate lock
      when that is further, but a tick behind the price in any case; both on the grid. */
  function FirstStopGain(s: Position, even: real, behind: real, p: ExitParams): real
    requires s.target.At?
  {
    var held := if p.lockFirstTarget && p.lockTriggerFrac <= 0.0 && Gain(s, even) < Gain(s, s.target.level)
                then Gain(s, s.target.level) else Gain(s, even);
    if held < Gain(s, behind) then held else Gain(s, behind)
  }

  lemma EventStopIs(s: Position, price: real, even: real, behind: real, p: ExitParams)
    requires s.target.At? && GridBehind(s, even, BufferGain(s, p)) && GridBehind(s, behind, Gain(s, price) - 1.0)
    ensures Gain(s, EventStop(s.side, s.entry, s.target.level, price, p)) == FirstStopGain(s, even, behind, p)
  {
    EventStopMeets(s, price, p);
    hide BreakEvenStop, SafeSide, OnGrid, GridBehind, BufferGain;
    GridBehindOnce(s, even, BreakEvenStop(s.side, s.entry, p), BufferGain(s, p));
    GridBehindOnce(s, behind, SafeSide(s.side, price), Gain(s, price) - 1.0);
  }

  /** There is only one. */
  lemma GridBehindOnce(s: Position, x: real, y: real, gain: real)
    requires GridBehind(s, x, gain) && GridBehind(s, y, gain)
    ensures x == y
  {
    if x < y { GridGap(x, y); } else { GridGap(y, x); }
  }

  lemma EventStopMeets(s: Position, price: real, p: ExitParams)
    ensures GridBehind(s, BreakEvenStop(s.side, s.entry, p), BufferGain(s, p))
    ensures GridBehind(s, SafeSide(s.side, price), Gain(s, price) - 1.0)
  {
    RoundedOnGrid(s.entry + Buffer(s.entry, p));
    RoundedOnGrid(s.entry - Buffer(s.entry, p));
    RoundedOnGrid(price - 1.0);
    RoundedOnGrid(price + 1.0);
  }

  lemma StepStarts(s: Position, t: Tick, p: ExitParams)
    requires s.qty > 0
    ensures var first, all := FirstTargetEvent(s, t.price, p).actions, Step(s, t, p).actions;
            |first| <= |all| && forall i :: 0 <= i < |first| ==> all[i] == first[i]
  {
    hide FirstTargetEvent, LockStep, TrailStep, ExitStep;
  }

  /** The stages of a call, and where it leaves the position. */
  lemma StepLeaves(s: Position, t: Tick, p: ExitParams)
    requires s.qty > 0
    ensures var m, x := BeforeExit(s, t, p), Step(s, t, p).pos;
            x == m.(qty := x.qty)
  {
    StepParts(s, t, p);
    ExitBooks(BeforeExit(s, t, p), t.price, p);
  }

  /** Lock and trail leave all but stop, peak and trail flag as the first target set them. */
  lemma StagesKeep(s: Position, t: Tick, p: ExitParams)
    ensures var a, m := FirstTargetEvent(s, t.price, p).pos, BeforeExit(s, t, p);
            m == a.(stop := m.stop, peak := m.peak, trailActive := m.trailActive)
  {
    var a := FirstTargetEvent(s, t.price, p).pos;
    LockTightens(a, t.price, t.atr, p);
    TrailTightens(LockStep(a, t.price, t.atr, p).pos, t.price, t.atr, p);
    hide FirstTargetEvent, LockStep, TrailStep;
  }

  /** A call completes the first target exactly when its price arrives there, and never undoes it; any other
      call leaves the target and what was booked at the first one alone. */
  lemma ArrivalExactly(s: Position, t: Tick, p: ExitParams)
    ensures var x := Step(s, t, p).pos;
            && (x.firstTargetDone <==> s.firstTargetDone || Arrives(s, t, p))
            && (!Arrives(s, t, p) ==>
                  x.target == s.target && x.firstTarget == s.firstTarget && x.partialTaken == s.partialTaken)
  {
    ArrivesIsEvent(s, t, p);
    hide Step, BeforeExit;
    if s.qty > 0 {
      StepLeaves(s, t, p);
      StagesKeep(s, t, p);
    } else {
      ClosedStepIsInert(s, t, p);
    }
  }

  /** What the arrival does: the partial at the first target, if two units or more are held and a fraction
      is to be booked; the stop it sets, reported with its reason; the runner's target at its multiple of
      the risk, or none. */
  lemma ArrivalSays(s: Position, t: Tick, p: ExitParams, even: real, behind: real)
    requires Arrives(s, t, p)
    requires GridBehind(s, even, BufferGain(s, p)) && GridBehind(s, behind, Gain(s, t.price) - 1.0)
    ensures var x, acts := Step(s, t, p).pos, Step(s, t, p).actions;
            var k := if p.partialExitFraction > 0.0 && s.qty >= 2 then 1 else 0;
            && |acts| > k && acts[k].MoveStop?
            && acts[k].why == (if p.lockFirstTarget && p.lockTriggerFrac <= 0.0 then LockTp1 else BreakEvenBuffer)
            && Gain(s, acts[k].newStop) == FirstStopGain(s, even, behind, p)
            && (k == 1 ==>
                  && acts[0].Partial? && acts[0].price == s.target.level && acts[0].why == PartialTarget
                  && IsPart(acts[0].qty, s.qty, p.partialExitFraction))
            && x.firstTarget == s.target.level && x.partialTaken == (s.partialTaken || k == 1)
            && (x.target == Open <==> p.runnerRrMult <= 0.0)
            && (x.target.At? ==> Gain(s, x.target.level) == p.runnerRrMult * s.riskDist)
  {
    ArrivesIsEvent(s, t, p);
    EventStopIs(s, t.price, even, behind, p);
    ArrivalActs(s, t.price, p);
    StepStarts(s, t, p);
    StepLeaves(s, t, p);
    StagesKeep(s, t, p);
    RunnerGains(s, p);
    hide Step, BeforeExit, EventStop, IsPart, FirstStopGain, GridBehind, Gain, FirstTargetEvent, Arrives;
  }

  lemma ArrivalActs(s: Position, price: real, p: ExitParams)
    requires s.qty > 0 && EventFires(s, price, p)
    ensures var a := FirstTargetEvent(s, price, p);
            var k := if p.partialExitFraction > 0.0 && s.qty >= 2 then 1 else 0;
            && |a.actions| == k + 1
            && a.actions[k].MoveStop?
            && a.actions[k].newStop == EventStop(s.side, s.entry, s.target.level, price, p)
            && a.actions[k].why == (if p.lockFirstTarget && p.lockTriggerFrac <= 0.0 then LockTp1 else BreakEvenBuffer)
            && (k == 1 ==>
                  && a.actions[0].Partial? && a.actions[0].price == s.target.level && a.actions[0].why == PartialTarget
                  && IsPart(a.actions[0].qty, s.qty, p.partialExitFraction))
            && a.pos.firstTarget == s.target.level && a.pos.target == RunnerTarget(s, p)
            && a.pos.partialTaken == (s.partialTaken || k == 1)
            && (RunnerTarget(s, p) == Open <==> p.runnerRrMult <= 0.0)
            && Scaled(p.runnerRrMult, s.riskDist) == p.runnerRrMult * s.riskDist
  {
    if s.qty >= 2 { PartialIsPart(s.qty, p.partialExitFraction); }
    hide EventStop, PartialQty, IsPart;
  }

  // ------------------------------------------------------------- the lock

  /** Where the lock waits: an ATR multiple past the first target while there is an ATR, or else a fraction
      of the way to the runner's target, or else the first target itself. */
  function TriggerGain(s: Position, atr: real, p: ExitParams): real {
    var first := Gain(s, s.firstTarget);
    if p.lockTriggerAtrMult > 0.0 && atr > 0.0 then first + p.lockTriggerAtrMult * atr
    else if p.lockTriggerFrac > 0.0 && s.target.At? then first + p.lockTriggerFrac * (Gain(s, s.target.level) - first)
    else first
  }

  /** The nearest to the entry of two gains and, if there is a target, a tick short of it. */
  function Nearest(s: Position, a: real, b: real, target: Target): real {
    var near := if a <= b then a else b;
    if target.At? && Gain(s, target.level) - 1.0 < near then Gain(s, target.level) - 1.0 else near
  }

  lemma TriggerIs(s: Position, price: real, atr: real, p: ExitParams)
    ensures Reached(s.side, price, LockTrigger(s, atr, p)) <==> Gain(s, price) >= TriggerGain(s, atr, p)
  {
    if p.lockTriggerFrac > 0.0 && s.target.At? {
      ScaledMirrors(p.lockTriggerFrac, s.target.level - s.firstTarget);
      assert s.side.Sell? ==> Gain(s, s.target.level) - Gain(s, s.firstTarget) == -(s.target.level - s.firstTarget);
    }
    ScaledMirrors(p.lockTriggerAtrMult, atr);
    assert Gain(s, LockTrigger(s, atr, p)) == TriggerGain(s, atr, p);
    hide LockTrigger, TriggerGain;
  }

  lemma ScaledMirrors(m: real, x: real)
    ensures m * (-x) == -(m * x)
  {
  }

  lemma RatchetedIs(s: Position, level: real, price: real, behind: real)
    requires GridBehind(s, behind, Gain(s, price) - 1.0)
    ensures var near, y := Nearest(s, Gain(s, level), Gain(s, behind), s.target), Ratcheted(s, level, price);
            if near > Gain(s, s.stop) + 0.5 then Gain(s, y) == near else y == s.stop
  {
    RoundedOnGrid(price - 1.0);
    RoundedOnGrid(price + 1.0);
    GridBehindOnce(s, behind, SafeSide(s.side, price), Gain(s, price) - 1.0);
    hide SafeSide, GridBehind;
  }

  /** Once past the first target, and with nothing to trail, a call moves the stop to the first target, a tick
      behind the price or a tick short of the target, whichever is nearest, when its price has reached the
      trigger and that is more than half a tick better; and otherwise not at all. */
  lemma LockSays(s: Position, t: Tick, p: ExitParams, behind: real)
    requires s.qty > 0 && s.firstTargetDone && GridBehind(s, behind, Gain(s, t.price) - 1.0)
    requires p.trailAtrMult <= 0.0 || t.atr <= 0.0 || (!s.trailActive && !p.trailFromEntry)
    ensures var near := Nearest(s, Gain(s, s.firstTarget), Gain(s, behind), s.target);
            var moves := p.lockFirstTarget && s.firstTarget != 0.0 && Gain(s, t.price) >= TriggerGain(s, t.atr, p)
                         && near > Gain(s, s.stop) + 0.5;
            var y := Step(s, t, p).pos.stop;
            if moves then Gain(s, y) == near else y == s.stop
  {
    TriggerIs(s, t.price, t.atr, p);
    RatchetedIs(s, s.firstTarget, t.price, behind);
    StepLeaves(s, t, p);
    var b := LockStep(s, t.price, t.atr, p).pos;
    TrailTightens(b, t.price, t.atr, p);
    assert FirstTargetEvent(s, t.price, p) == Outcome(s, []);
    hide Ratcheted, LockTrigger, Nearest, TriggerGain, Gain, TrailStep, Step, FirstTargetEvent;
  }

  /** The call of the arrival locks as well, with the first target just reached and the runner's target: with
      nothing to trail the stop is the one the arrival set, or from there where the lock brings it. */
  lemma ArrivalLocks(s: Position, t: Tick, p: ExitParams, behind: real, k: nat)
    requires Arrives(s, t, p) && GridBehind(s, behind, Gain(s, t.price) - 1.0)
    requires p.trailAtrMult <= 0.0 || t.atr <= 0.0 || (!p.trailRemainder && !p.trailFromEntry)
    requires k == if p.partialExitFraction > 0.0 && s.qty >= 2 then 1 else 0
    ensures var x := Step(s, t, p);
            && |x.actions| > k && x.actions[k].MoveStop?
            && var set_ := x.actions[k].newStop;
               var runner := s.(firstTarget := s.target.level, target := x.pos.target);
               var near := Nearest(s, Gain(s, s.target.level), Gain(s, behind), x.pos.target);
               var moves := p.lockFirstTarget && s.target.level != 0.0
                            && Gain(s, t.price) >= TriggerGain(runner, t.atr, p) && near > Gain(s, set_) + 0.5;
               if moves then Gain(s, x.pos.stop) == near else x.pos.stop == set_
  {
    hide *;
    var a := FirstTargetEvent(s, t.price, p).pos;
    ArrivesIsEvent(s, t, p);
    ArrivalActs(s, t.price, p);
    StepStarts(s, t, p);
    StepLeaves(s, t, p);
    StagesKeep(s, t, p);
    NothingTrails(s, t, p);
    EventSets(s, t.price, p);
    SameFrame(s, a, behind, t, a.target);
    LockLeaves(a, t, p, behind, s.(firstTarget := s.target.level, target := a.target));
  }

  lemma EventSets(s: Position, price: real, p: ExitParams)
    requires EventFires(s, price, p)
    ensures var a := FirstTargetEvent(s, price, p).pos;
            && s.target.At? && a.side == s.side && a.entry == s.entry && a.firstTargetDone
            && a.stop == EventStop(s.side, s.entry, s.target.level, price, p)
            && a.trailActive == (p.trailRemainder || p.trailFromEntry)
  {
    hide EventStop, RunnerTarget, PartialQty;
  }

  lemma NothingTrails(s: Position, t: Tick, p: ExitParams)
    requires EventFires(s, t.price, p)
    requires p.trailAtrMult <= 0.0 || t.atr <= 0.0 || (!p.trailRemainder && !p.trailFromEntry)
    ensures BeforeExit(s, t, p).stop == LockStep(FirstTargetEvent(s, t.price, p).pos, t.price, t.atr, p).pos.stop
  {
    var a := FirstTargetEvent(s, t.price, p).pos;
    EventSets(s, t.price, p);
    LockTightens(a, t.price, t.atr, p);
    hide FirstTargetEvent, LockStep;
  }

  /** What the lock makes of a position past its first target; `like` has the same side, levels and entry. */
  lemma LockLeaves(a: Position, t: Tick, p: ExitParams, behind: real, like: Position)
    requires a.firstTargetDone && GridBehind(a, behind, Gain(a, t.price) - 1.0)
    requires like.side == a.side && like.entry == a.entry
    requires like.firstTarget == a.firstTarget && like.target == a.target
    ensures var near := Nearest(a, Gain(a, a.firstTarget), Gain(a, behind), a.target);
            var moves := p.lockFirstTarget && a.firstTarget != 0.0
                         && Gain(a, t.price) >= TriggerGain(like, t.atr, p) && near > Gain(a, a.stop) + 0.5;
            var y := LockStep(a, t.price, t.atr, p).pos.stop;
            if moves then Gain(a, y) == near else y == a.stop
  {
    hide Ratcheted, LockTrigger, Nearest, TriggerGain, Gain, GridBehind, Reached;
    TriggerIs(a, t.price, t.atr, p);
    RatchetedIs(a, a.firstTarget, t.price, behind);
    SameTrigger(a, like, t.atr, p);
  }

  lemma SameTrigger(a: Position, like: Position, atr: real, p: ExitParams)
    requires like.side == a.side && like.entry == a.entry
    requires like.firstTarget == a.firstTarget && like.target == a.target
    ensures TriggerGain(like, atr, p) == TriggerGain(a, atr, p)
  {
    assert Gain(like, like.firstTarget) == Gain(a, a.firstTarget);
    assert a.target.At? ==> Gain(like, like.target.level) == Gain(a, a.target.level);
    hide Gain;
  }

  lemma SameFrame(s: Position, a: Position, behind: real, t: Tick, target: Target)
    requires a.side == s.side && a.entry == s.entry && s.target.At?
    ensures forall x :: Gain(a, x) == Gain(s, x)
    ensures GridBehind(a, behind, Gain(a, t.price) - 1.0) <==> GridBehind(s, behind, Gain(s, t.price) - 1.0)
    ensures Nearest(a, Gain(a, s.target.level), Gain(a, behind), target)
            == Nearest(s, Gain(s, s.target.level), Gain(s, behind), target)
  {
  }

  // ------------------------------------------------------------- the trail

  /** The trail stage runs in this call. */
  predicate Follows(s: Position, t: Tick, p: ExitParams) {
    s.qty > 0 && p.trailAtrMult > 0.0 && t.atr > 0.0 && (p.trailFromEntry || Step(s, t, p).pos.trailActive)
  }

  /** Where the chandelier is: the ATR multiple behind a price, back to the grid. */
  predicate HangsFrom(s: Position, level: real, best: real, atr: real, p: ExitParams) {
    GridBehind(s, level, Gain(s, best) - p.trailAtrMult * atr)
  }

  lemma FollowsIsTrailing(s: Position, t: Tick, p: ExitParams)
    requires Follows(s, t, p)
    ensures Trailing(LockStep(FirstTargetEvent(s, t.price, p).pos, t.price, t.atr, p).pos, t.atr, p)
  {
    StepLeaves(s, t, p);
    hide Step, FirstTargetEvent, LockStep;
  }

  lemma TrailLevelIs(s: Position, peak: real, atr: real, p: ExitParams, level: real)
    requires HangsFrom(s, level, peak, atr, p)
    ensures TrailLevel(s.side, peak, atr, p) == level
  {
    hide *;
    ScaledIs(p.trailAtrMult, atr);
    HangsBehind(s, level, peak, atr, p);
    TrailLevelBehind(s, peak, atr, p);
    GridBehindOnce(s, level, TrailLevel(s.side, peak, atr, p), Gain(s, peak) - Scaled(p.trailAtrMult, atr));
  }

  lemma ScaledIs(m: real, x: real)
    ensures Scaled(m, x) == m * x
  {
  }

  lemma HangsBehind(s: Position, level: real, best: real, atr: real, p: ExitParams)
    requires HangsFrom(s, level, best, atr, p)
    ensures GridBehind(s, level, Gain(s, best) - p.trailAtrMult * atr)
  {
  }

  lemma TrailLevelBehind(s: Position, peak: real, atr: real, p: ExitParams)
    ensures GridBehind(s, TrailLevel(s.side, peak, atr, p), Gain(s, peak) - Scaled(p.trailAtrMult, atr))
  {
    hide Scaled, FloorTick, CeilTick, OnGrid, TrailLevel, GridBehind;
    var d := Scaled(p.trailAtrMult, atr);
    TrailLevelAt(s.side, peak, atr, d, p);
    RoundedBehind(s, peak, d);
  }

  lemma RoundedBehind(s: Position, peak: real, d: real)
    ensures s.side.Buy? ==> GridBehind(s, FloorTick(peak - d), Gain(s, peak) - d)
    ensures s.side.Sell? ==> GridBehind(s, CeilTick(peak + d), Gain(s, peak) - d)
  {
    hide FloorTick, CeilTick, OnGrid;
    RoundedOnGrid(peak - d);
    RoundedOnGrid(peak + d);
  }

  lemma ChandelierIs(b: Position, price: real, atr: real, p: ExitParams, level: real)
    requires Trailing(b, atr, p)
    requires HangsFrom(b, level, PeakAfter(b, price), atr, p)
    ensures var near, c := Nearest(b, Gain(b, level), Gain(b, price) - 1.0, b.target), TrailStep(b, price, atr, p);
            if near > Gain(b, b.stop) + 0.5
            then Gain(b, c.pos.stop) == near && c.actions == [MoveStop(c.pos.stop, Trail)]
            else c.pos.stop == b.stop && c.actions == []
  {
    TrailLevelIs(b, PeakAfter(b, price), atr, p, level);
    hide TrailLevel, HangsFrom, PeakAfter, Trailing;
  }

  lemma TrailMovesReport(s: Position, t: Tick, p: ExitParams, y: real)
    requires s.qty > 0 && MoveStop(y, Trail) in Step(s, t, p).actions
    ensures var b := LockStep(FirstTargetEvent(s, t.price, p).pos, t.price, t.atr, p).pos;
            MoveStop(y, Trail) in TrailStep(b, t.price, t.atr, p).actions
  {
    hide Ratcheted, Chandelier, EventStop, PartialQty, TrailMoves, PeakAfter, LockTrigger;
  }

  lemma SameGains(s: Position, b: Position, level: real, t: Tick, p: ExitParams)
    requires b.side == s.side && b.entry == s.entry
    ensures forall x :: Gain(b, x) == Gain(s, x)
    ensures Nearest(b, Gain(b, level), Gain(b, t.price) - 1.0, b.target)
            == Nearest(s, Gain(s, level), Gain(s, t.price) - 1.0, b.target)
    ensures forall best :: HangsFrom(b, level, best, t.atr, p) <==> HangsFrom(s, level, best, t.atr, p)
  {
  }

  /** After a call that trails, the stop is at most half a tick short of the nearest of three: the grid price
      at the peak less the ATR multiple, a tick behind the price, a tick short of the target; and a stop the
      trail moved is exactly there. */
  lemma TrailHangs(s: Position, t: Tick, p: ExitParams, level: real)
    requires Follows(s, t, p)
    requires HangsFrom(s, level, Step(s, t, p).pos.peak, t.atr, p)
    ensures var x := Step(s, t, p);
            var near := Nearest(s, Gain(s, level), Gain(s, t.price) - 1.0, x.pos.target);
            && Gain(s, x.pos.stop) >= near - 0.5
            && (forall y :: MoveStop(y, Trail) in x.actions ==> y == x.pos.stop && Gain(s, y) == near)
  {
    hide *;
    var a := FirstTargetEvent(s, t.price, p).pos;
    var b := LockStep(a, t.price, t.atr, p).pos;
    FollowsIsTrailing(s, t, p);
    FollowsHolds(s, t, p);
    StepLeaves(s, t, p);
    StageFrame(s, t, p);
    StagesEnd(s, t, p);
    SameGains(s, b, level, t, p);
    forall y | MoveStop(y, Trail) in Step(s, t, p).actions
      ensures MoveStop(y, Trail) in TrailStep(b, t.price, t.atr, p).actions
    {
      TrailMovesReport(s, t, p, y);
    }
    PeakOf(b, t.price, t.atr, p);
    ChandelierIs(b, t.price, t.atr, p, level);
    OnlyMove(TrailStep(b, t.price, t.atr, p).actions, TrailStep(b, t.price, t.atr, p).pos.stop);
  }

  lemma FollowsHolds(s: Position, t: Tick, p: ExitParams)
    requires Follows(s, t, p)
    ensures s.qty > 0
  {
  }

  lemma StagesEnd(s: Position, t: Tick, p: ExitParams)
    ensures var b := LockStep(FirstTargetEvent(s, t.price, p).pos, t.price, t.atr, p).pos;
            BeforeExit(s, t, p) == TrailStep(b, t.price, t.atr, p).pos
  {
  }

  lemma OnlyMove(actions: seq<Action>, stop: real)
    ensures actions == [MoveStop(stop, Trail)] || actions == [] ==>
              forall y :: MoveStop(y, Trail) in actions ==> actions != [] && y == stop
  {
  }

  lemma PeakOf(b: Position, price: real, atr: real, p: ExitParams)
    requires Trailing(b, atr, p)
    ensures TrailStep(b, price, atr, p).pos.peak == PeakAfter(b, price)
  {
  }

  lemma StageFrame(s: Position, t: Tick, p: ExitParams)
    ensures var b := LockStep(FirstTargetEvent(s, t.price, p).pos, t.price, t.atr, p).pos;
            && b.side == s.side && b.entry == s.entry
            && TrailStep(b, t.price, t.atr, p).pos.target == b.target
  {
    hide EventStop, RunnerTarget, PartialQty, Ratcheted, LockTrigger, Chandelier;
  }

  // ------------------------------------------------------------- the exit

  /** A call after which nothing is to come of the first target closes the position exactly when the price
      has fallen to the stop in force or has reached the target; at the stop in the first case, and
      otherwise the whole of it at the target, as its last action. */
  lemma ExitExactly(s: Position, t: Tick, p: ExitParams)
    requires s.qty > 0 && Clear(s) && !Arrives(s, t, p)
    ensures var x := Step(s, t, p);
            && x.pos.qty == (if !Unstopped(s, t) || AtTarget(s, t) then 0 else s.qty)
            && (!Unstopped(s, t) ==> x.actions == [Exit(s.stop, s.qty, ExitReason(s, p))])
            && (Unstopped(s, t) && AtTarget(s, t) ==>
                  x.actions != [] && x.actions[|x.actions| - 1] == Exit(s.target.level, s.qty, TargetHit))
  {
    ArrivesIsEvent(s, t, p);
    if !Unstopped(s, t) {
      StopExit(s, t, p);
    } else {
      var m := BeforeExit(s, t, p);
      QuietFrame(s, t, p);
      BeforeExitFrame(s, t, p);
      StepParts(s, t, p);
      LastAction(s, t, p);
      hide Step, BeforeExit, EventFires, ExitReason;
    }
  }

  /** What a call's first action booked. */
  function FirstPart(actions: seq<Action>): int {
    if actions != [] && actions[0].Partial? then actions[0].qty else 0
  }

  /** The exit closing `qty` units: at the stop, or else at the target. */
  predicate ClosesAt(s: Position, t: Tick, a: Action, qty: int) {
    && a.Exit? && a.qty == qty
    && (if !Unstopped(s, t) then a.price == s.stop
        else s.target.At? && a.price == s.target.level && a.why == TargetHit)
  }

  lemma ExitSays(m: Position, t: Tick, p: ExitParams)
    requires m.qty > 0
    ensures var d := ExitStep(m, t.price, p);
            && d.pos == m.(qty := d.pos.qty)
            && Unstopped(d.pos, t) == Unstopped(m, t) && AtTarget(d.pos, t) == AtTarget(m, t)
            && (if !Unstopped(m, t) || AtTarget(m, t)
                then d.pos.qty == 0 && d.actions != [] && ClosesAt(d.pos, t, d.actions[|d.actions| - 1], m.qty)
                else d.pos.qty == m.qty)
  {
    hide ExitReason;
  }

  /** Any call, an arrival as well, ends by closing what is left exactly when its price is at the stop it leaves
      or at the target it leaves, and there. */
  lemma ClosesExactly(s: Position, t: Tick, p: ExitParams)
    requires s.qty > 0
    ensures var x := Step(s, t, p);
            var left := s.qty - FirstPart(x.actions);
            && left > 0
            && (if !Unstopped(x.pos, t) || AtTarget(x.pos, t)
                then x.pos.qty == 0 && x.actions != [] && ClosesAt(x.pos, t, x.actions[|x.actions| - 1], left)
                else x.pos.qty == left)
  {
    hide *;
    var m := BeforeExit(s, t, p);
    BeforeExitFrame(s, t, p);
    FirstActions(s, t, p);
    ExitSays(m, t, p);
    StepParts(s, t, p);
    LastAction(s, t, p);
  }

  /** The first action is the event's, and only an event books a partial. */
  lemma FirstActions(s: Position, t: Tick, p: ExitParams)
    requires s.qty > 0
    ensures var x, a := Step(s, t, p), FirstTargetEvent(s, t.price, p);
            a.pos.qty == s.qty - FirstPart(x.actions) > 0
  {
    var a := FirstTargetEvent(s, t.price, p);
    var b := LockStep(a.pos, t.price, t.atr, p);
    var c := TrailStep(b.pos, t.price, t.atr, p);
    hide FirstTargetEvent;
    EventFirst(s, t.price, p);
    hide Ratcheted, LockTrigger, Chandelier, TrailMoves, ExitReason, PeakAfter;
  }

  lemma EventFirst(s: Position, price: real, p: ExitParams)
    requires s.qty > 0
    ensures var a := FirstTargetEvent(s, price, p);
            a.pos.qty == s.qty - FirstPart(a.actions) > 0
  {
    hide EventStop, RunnerTarget, EventFires, WholePart;
  }

  lemma LastAction(s: Position, t: Tick, p: ExitParams)
    requires s.qty > 0
    ensures var d, all := ExitStep(BeforeExit(s, t, p), t.price, p).actions, Step(s, t, p).actions;
            d != [] ==> all != [] && all[|all| - 1] == d[|d| - 1]
  {
    hide FirstTargetEvent, LockStep, TrailStep, ExitStep;
  }

  // ------------------------------------------------------------- what the caller is told

  /** The stop of someone who only follows the reported moves. */
  function StopAfter(stop: real, actions: seq<Action>): real {
    if actions == [] then stop
    else
      var last := actions[|actions| - 1];
      if last.MoveStop? then last.newStop else StopAfter(stop, actions[..|actions| - 1])
  }

  predicate HasMove(actions: seq<Action>) { exists i :: 0 <= i < |actions| && actions[i].MoveStop? }

  /** Following the moves gives the stop in force, and a target only changes along with a move. */
  predicate Tells(s: Position, o: Outcome) {
    && StopAfter(s.stop, o.actions) == o.pos.stop
    && (HasMove(o.actions) || o.pos.target == s.target)
  }

  lemma {:induction false} StopAfterConcat(stop: real, a: seq<Action>, b: seq<Action>)
    ensures StopAfter(stop, a + b) == StopAfter(StopAfter(stop, a), b)
    decreases |b|
  {
    if b == [] {
      assert a + b == a;
    } else {
      assert (a + b)[..|a + b| - 1] == a + b[..|b| - 1];
      StopAfterConcat(stop, a, b[..|b| - 1]);
    }
  }

  lemma HasMoveConcat(a: seq<Action>, b: seq<Action>)
    ensures HasMove(a + b) <==> HasMove(a) || HasMove(b)
  {
    var all := a + b;
    if HasMove(a) {
      var i :| 0 <= i < |a| && a[i].MoveStop?;
      assert all[i].MoveStop?;
    } else if HasMove(b) {
      var i :| 0 <= i < |b| && b[i].MoveStop?;
      assert all[|a| + i].MoveStop?;
    }
  }

  lemma TellsNext(s: Position, o: Outcome, next: Outcome)
    requires Tells(s, o) && Tells(o.pos, next)
    ensures Tells(s, Outcome(next.pos, o.actions + next.actions))
  {
    StopAfterConcat(s.stop, o.actions, next.actions);
    HasMoveConcat(o.actions, next.actions);
    hide StopAfter, HasMove;
  }

  lemma EventTells(s: Position, price: real, p: ExitParams)
    ensures Tells(s, FirstTargetEvent(s, price, p))
  {
    var o := FirstTargetEvent(s, price, p);
    hide EventStop, PartialQty, RunnerTarget, EventFires;
    if o.actions != [] { assert o.actions[|o.actions| - 1] == MoveStop(o.pos.stop, o.actions[|o.actions| - 1].why); }
  }

  lemma LockTells(s: Position, price: real, atr: real, p: ExitParams)
    ensures Tells(s, LockStep(s, price, atr, p))
  {
    hide Ratcheted, LockTrigger;
  }

  lemma TrailTells(s: Position, price: real, atr: real, p: ExitParams)
    ensures Tells(s, TrailStep(s, price, atr, p))
  {
    hide Chandelier, TrailMoves, PeakAfter;
  }

  lemma ExitTells(s: Position, price: real, p: ExitParams)
    ensures Tells(s, ExitStep(s, price, p))
  {
    var o := ExitStep(s, price, p);
    hide ExitReason, StopHit, TargetReached;
    if o.actions != [] { assert !o.actions[0].MoveStop? && StopAfter(s.stop, o.actions[..0]) == s.stop; }
  }

  lemma StepTells(s: Position, t: Tick, p: ExitParams)
    ensures Tells(s, Step(s, t, p))
  {
    hide FirstTargetEvent, LockStep, TrailStep, ExitStep, Tells;
    if s.qty <= 0 {
      NothingTold(s);
    } else {
      var a := FirstTargetEvent(s, t.price, p);
      var b := LockStep(a.pos, t.price, t.atr, p);
      var c := TrailStep(b.pos, t.price, t.atr, p);
      EventTells(s, t.price, p);
      LockTells(a.pos, t.price, t.atr, p);
      TrailTells(b.pos, t.price, t.atr, p);
      ExitTells(c.pos, t.price, p);
      TellsNext(s, a, b);
      TellsNext(s, Outcome(b.pos, a.actions + b.actions), c);
      TellsNext(s, Outcome(c.pos, a.actions + b.actions + c.actions), ExitStep(c.pos, t.price, p));
    }
  }

  lemma NothingTold(s: Position)
    ensures Tells(s, Outcome(s, []))
  {
  }

  /** Over every run, whoever follows the reported moves holds the stop in force. */
  lemma {:induction false} MovesTellTheStop(s: Position, ticks: seq<Tick>, p: ExitParams)
    ensures Tells(s, Run(s, ticks, p))
    decreases |ticks|
  {
    hide Step, Tells;
    if ticks == [] {
      NothingTold(s);
    } else {
      var x := Step(s, ticks[0], p);
      StepTells(s, ticks[0], p);
      MovesTellTheStop(x.pos, ticks[1..], p);
      TellsNext(s, x, Run(x.pos, ticks[1..], p));
    }
  }

  /** Lock before trail before exit. */
  function Rank(a: Action): int {
    match a
    case Exit(_, _, _) => 3
    case MoveStop(_, why) => if why == Trail then 2 else if why == LockTp1 then 1 else 0
    case Partial(_, _, _) => 0
  }

  predicate Orderly(actions: seq<Action>) {
    && (forall i :: 0 <= i < |actions| ==> Rank(actions[i]) > 0)
    && (forall i, j :: 0 <= i < j < |actions| ==> Rank(actions[i]) < Rank(actions[j]))
  }

  /** Lock, trail and exit, each at most once and only if it can. */
  predicate SaysLater(actions: seq<Action>, after: Position, t: Tick, p: ExitParams) {
    && Orderly(actions)
    && (forall i :: 0 <= i < |actions| && Rank(actions[i]) == 1 ==> p.lockFirstTarget)
    && (forall i :: 0 <= i < |actions| && Rank(actions[i]) == 2 ==>
          p.trailAtrMult > 0.0 && t.atr > 0.0 && (p.trailFromEntry || after.trailActive))
  }

  /** After what an arrival says, a call says at most one thing of each kind, in order: the lock moved the stop,
      and that only with the lock on; the trail did, and that only with a distance and an ATR to trail by; the
      position closed. */
  lemma CallIsOrderly(s: Position, t: Tick, p: ExitParams)
    requires s.qty > 0
    ensures var k := if !Arrives(s, t, p) then 0 else if p.partialExitFraction > 0.0 && s.qty >= 2 then 2 else 1;
            var x := Step(s, t, p);
            |x.actions| >= k && SaysLater(x.actions[k..], x.pos, t, p)
  {
    hide *;
    var a := FirstTargetEvent(s, t.price, p);
    ArrivesIsEvent(s, t, p);
    if EventFires(s, t.price, p) { ArrivalActs(s, t.price, p); } else { NoEventNoActions(s, t.price, p); }
    LaterActions(a.pos, t, p);
    StepIsEventAndRest(s, t, p);
    assert (a.actions + Later(a.pos, t, p).actions)[|a.actions|..] == Later(a.pos, t, p).actions;
  }

  lemma NoEventNoActions(s: Position, price: real, p: ExitParams)
    requires !EventFires(s, price, p)
    ensures FirstTargetEvent(s, price, p).actions == []
  {
  }

  /** Lock, trail and exit of one call. */
  function Later(a: Position, t: Tick, p: ExitParams): Outcome {
    var b := LockStep(a, t.price, t.atr, p);
    var c := TrailStep(b.pos, t.price, t.atr, p);
    var d := ExitStep(c.pos, t.price, p);
    Outcome(d.pos, b.actions + c.actions + d.actions)
  }

  lemma StepIsEventAndRest(s: Position, t: Tick, p: ExitParams)
    requires s.qty > 0
    ensures var a := FirstTargetEvent(s, t.price, p);
            Step(s, t, p) == Outcome(Later(a.pos, t, p).pos, a.actions + Later(a.pos, t, p).actions)
  {
    hide FirstTargetEvent, LockStep, TrailStep, ExitStep;
  }

  lemma LaterActions(a: Position, t: Tick, p: ExitParams)
    ensures var x := Later(a, t, p); SaysLater(x.actions, x.pos, t, p)
  {
    hide LockStep, TrailStep, ExitStep, SaysLater;
    var b := LockStep(a, t.price, t.atr, p);
    var c := TrailStep(b.pos, t.price, t.atr, p);
    LockSaysOne(a, t, p);
    TrailSaysOne(b.pos, t, p);
    ExitSaysOne(c.pos, t, p);
    JoinSays(b.actions, c.actions, ExitStep(c.pos, t.price, p).actions, ExitStep(c.pos, t.price, p).pos, t, p);
  }

  lemma JoinSays(a: seq<Action>, b: seq<Action>, c: seq<Action>, after: Position, t: Tick, p: ExitParams)
    requires a == [] || (|a| == 1 && Rank(a[0]) == 1 && p.lockFirstTarget)
    requires b == [] || (|b| == 1 && Rank(b[0]) == 2 && p.trailAtrMult > 0.0 && t.atr > 0.0
                         && (p.trailFromEntry || after.trailActive))
    requires c == [] || (|c| == 1 && Rank(c[0]) == 3)
    ensures SaysLater(a + b + c, after, t, p)
  {
    hide Rank;
  }

  lemma LockSaysOne(s: Position, t: Tick, p: ExitParams)
    ensures var a := LockStep(s, t.price, t.atr, p).actions;
            a == [] || (|a| == 1 && Rank(a[0]) == 1 && p.lockFirstTarget)
  {
    hide Ratcheted, LockTrigger, Reached;
  }

  lemma TrailSaysOne(s: Position, t: Tick, p: ExitParams)
    ensures var o := TrailStep(s, t.price, t.atr, p);
            o.actions == [] || (|o.actions| == 1 && Rank(o.actions[0]) == 2 && p.trailAtrMult > 0.0 && t.atr > 0.0
                                && (p.trailFromEntry || o.pos.trailActive))
  {
    hide Chandelier, TrailMoves, PeakAfter;
  }

  lemma ExitSaysOne(s: Position, t: Tick, p: ExitParams)
    ensures var o := ExitStep(s, t.price, p);
            && (o.actions == [] || (|o.actions| == 1 && Rank(o.actions[0]) == 3))
            && o.pos.trailActive == s.trailActive
  {
    hide ExitReason, StopHit, TargetReached;
  }

  /** A bar shows a position its worst price, its best, and its close, which for a long are low and high in that
      order and for a short the other way round. */
  lemma BarPath(s: Position, b: Bar, atr: real, p: ExitParams)
    ensures StepBar(s, b, atr, p)
            == Run(s, (if s.side == Buy then [Tick(b.low, atr), Tick(b.high, atr)]
                       else [Tick(b.high, atr), Tick(b.low, atr)]) + [Tick(b.close, atr)], p)
  {
    hide StepBar, Run;
    BarIsThreeTicks(s, b, atr, p);
    assert BarTicks(s.side, b, atr)
           == (if s.side == Buy then [Tick(b.low, atr), Tick(b.high, atr)]
               else [Tick(b.high, atr), Tick(b.low, atr)]) + [Tick(b.close, atr)];
  }
}

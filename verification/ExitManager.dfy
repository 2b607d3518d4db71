/** The exit state machine (exit_manager.py): one position, one price at a time.

    Prices are exact reals measured in the instrument's tick, so the price grid is the
    integers: the machine only adds, compares and rounds prices, and each of those commutes
    with dividing every price by the tick size.  `Step`, `StepBar` and `Run` specify the machine on values;
    the class `ExitState` is the mutable per-position record the source updates in place,
    and its methods are proved to compute exactly that specification. */
module ExitManager {
  import opened Common
  import opened TickGrid

  /** A target price, or none: the source's +/- infinity in the profit direction. */
  datatype Target = At(level: real) | Open

  datatype ExitParams = ExitParams(
    partialExitFraction: real,
    breakevenBufferTicks: real,
    breakevenBufferBps: real,
    runnerRrMult: real,
    trailRemainder: bool,
    trailAtrMult: real,
    trailFromEntry: bool,
    lockFirstTarget: bool,
    lockTriggerFrac: real,
    lockTriggerAtrMult: real)

  datatype Position = Position(
    side: Side,
    entry: real,
    qty: int,
    stop: real,
    target: Target,
    riskDist: real,
    firstTargetDone: bool,
    partialTaken: bool,
    trailActive: bool,
    peak: real,
    firstTarget: real)

  datatype Reason =
    | PartialTarget | BreakEvenBuffer | LockTp1 | Trail
    | StopLoss | Tp1Lock | BreakEven | TrailProfit | TrailStop | TargetHit

  datatype Action =
    | Partial(price: real, qty: int, why: Reason)
    | MoveStop(newStop: real, why: Reason)
    | Exit(price: real, qty: int, why: Reason)

  datatype Outcome = Outcome(pos: Position, actions: seq<Action>)

  datatype Tick = Tick(price: real, atr: real)

  datatype Bar = Bar(open: real, high: real, low: real, close: real)

  // ----------------------------------------------------------------- helpers

  function Min(a: real, b: real): real { if a <= b then a else b }

  function Max(a: real, b: real): real { if a >= b then a else b }

  function Abs(a: real): real { if a >= 0.0 then a else -a }

  function MaxInt(a: int, b: int): int { if a >= b then a else b }

  function MinInt(a: int, b: int): int { if a <= b then a else b }

  /** A configured multiple of a distance. */
  function Scaled(multiple: real, unit: real): real { multiple * unit }

  // ----------------------------------------------------------- specification

  predicate Reached(side: Side, price: real, level: real) {
    if side.Buy? then price >= level else price <= level
  }

  /** `a` capped one tick short of the target; an open target caps nothing. */
  function ShortOfTarget(side: Side, a: real, target: Target): real {
    match target
    case Open => a
    case At(level) => if side.Buy? then Min(a, level - 1.0) else Max(a, level + 1.0)
  }

  /** One tick to the safe side of the price, on the grid. */
  function SafeSide(side: Side, price: real): real {
    if side.Buy? then FloorTick(price - 1.0)
    else CeilTick(price + 1.0)
  }

  predicate Managed(p: ExitParams) {
    p.partialExitFraction > 0.0 || p.trailRemainder || p.trailFromEntry
  }

  function WholePart(qty: int, fraction: real): int { (qty as real * fraction).Floor }

  function PartialQty(qty: int, fraction: real): int
    requires qty >= 2
  {
    MinInt(MaxInt(1, WholePart(qty, fraction)), qty - 1)
  }

  function Buffer(entry: real, p: ExitParams): real {
    p.breakevenBufferTicks + Scaled(p.breakevenBufferBps / 10000.0, entry)
  }

  function BreakEvenStop(side: Side, entry: real, p: ExitParams): real {
    if side.Buy? then FloorTick(entry + Buffer(entry, p))
    else CeilTick(entry - Buffer(entry, p))
  }

  predicate LocksAtOnce(p: ExitParams) { p.lockFirstTarget && p.lockTriggerFrac <= 0.0 }

  /** The stop assigned (not ratcheted) by the first-target event. */
  function EventStop(side: Side, entry: real, level: real, price: real, p: ExitParams): real {
    var be := BreakEvenStop(side, entry, p);
    var floor := if LocksAtOnce(p) then if side.Buy? then Max(be, level) else Min(be, level) else be;
    if side.Buy? then Min(floor, SafeSide(side, price)) else Max(floor, SafeSide(side, price))
  }

  function RunnerLevel(side: Side, entry: real, riskDist: real, p: ExitParams): real {
    if side.Buy? then entry + Scaled(p.runnerRrMult, riskDist) else entry - Scaled(p.runnerRrMult, riskDist)
  }

  function RunnerTarget(s: Position, p: ExitParams): Target {
    if p.runnerRrMult > 0.0 then
      At(RunnerLevel(s.side, s.entry, s.riskDist, p))
    else Open
  }

  predicate EventFires(s: Position, price: real, p: ExitParams) {
    Managed(p) && !s.firstTargetDone && s.target.At? && Reached(s.side, price, s.target.level)
  }

  predicate Splits(s: Position, p: ExitParams) { p.partialExitFraction > 0.0 && s.qty >= 2 }

  function FirstTargetEvent(s: Position, price: real, p: ExitParams): Outcome {
    if !EventFires(s, price, p) then Outcome(s, [])
    else
      var booked := if Splits(s, p) then PartialQty(s.qty, p.partialExitFraction) else 0;
      var stop := EventStop(s.side, s.entry, s.target.level, price, p);
      Outcome(
        s.(qty := s.qty - booked,
           stop := stop,
           target := RunnerTarget(s, p),
           firstTargetDone := true,
           partialTaken := s.partialTaken || Splits(s, p),
           trailActive := p.trailRemainder || p.trailFromEntry,
           peak := price,
           firstTarget := s.target.level),
        (if Splits(s, p) then [Partial(s.target.level, booked, PartialTarget)] else [])
        + [MoveStop(stop, if LocksAtOnce(p) then LockTp1 else BreakEvenBuffer)])
  }

  /** Toward `level`, never past the price or the target, and only by more than half a tick. */
  function Ratcheted(s: Position, level: real, price: real): real {
    if s.side.Buy? then
      var ns := ShortOfTarget(s.side, Min(level, SafeSide(s.side, price)), s.target);
      if ns > s.stop + 0.5 then ns else s.stop
    else
      var ns := ShortOfTarget(s.side, Max(level, SafeSide(s.side, price)), s.target);
      if ns < s.stop - 0.5 then ns else s.stop
  }

  function LockTrigger(s: Position, atr: real, p: ExitParams): real {
    if p.lockTriggerAtrMult > 0.0 && atr > 0.0 then
      if s.side.Buy? then s.firstTarget + Scaled(p.lockTriggerAtrMult, atr)
      else s.firstTarget - Scaled(p.lockTriggerAtrMult, atr)
    else if p.lockTriggerFrac > 0.0 && s.target.At? then
      s.firstTarget + Scaled(p.lockTriggerFrac, s.target.level - s.firstTarget)
    else s.firstTarget
  }

  function LockStep(s: Position, price: real, atr: real, p: ExitParams): Outcome {
    if p.lockFirstTarget && s.firstTargetDone && s.firstTarget != 0.0
       && Reached(s.side, price, LockTrigger(s, atr, p)) then
      var ns := Ratcheted(s, s.firstTarget, price);
      Outcome(s.(stop := ns), if ns != s.stop then [MoveStop(ns, LockTp1)] else [])
    else Outcome(s, [])
  }

  function PeakAfter(s: Position, price: real): real {
    if s.side.Buy? then Max(s.peak, price) else Min(s.peak, price)
  }

  function TrailLevel(side: Side, peak: real, atr: real, p: ExitParams): real {
    if side.Buy? then FloorTick(peak - Scaled(p.trailAtrMult, atr)) else CeilTick(peak + Scaled(p.trailAtrMult, atr))
  }

  /** The chandelier level, one tick short of the price and of the target. */
  function Chandelier(s: Position, price: real, atr: real, p: ExitParams): real {
    var peak := PeakAfter(s, price);
    if s.side.Buy? then
      ShortOfTarget(s.side, Min(TrailLevel(s.side, peak, atr, p), price - 1.0), s.target)
    else
      ShortOfTarget(s.side, Max(TrailLevel(s.side, peak, atr, p), price + 1.0), s.target)
  }

  predicate Trailing(s: Position, atr: real, p: ExitParams) {
    (s.trailActive || p.trailFromEntry) && p.trailAtrMult > 0.0 && atr > 0.0
  }

  predicate TrailMoves(s: Position, price: real, atr: real, p: ExitParams) {
    var ns := Chandelier(s, price, atr, p);
    if s.side.Buy? then ns > s.stop + 0.5 else ns < s.stop - 0.5
  }

  function TrailStep(s: Position, price: real, atr: real, p: ExitParams): Outcome {
    if !Trailing(s, atr, p) then Outcome(s, [])
    else if TrailMoves(s, price, atr, p) then
      var ns := Chandelier(s, price, atr, p);
      Outcome(s.(peak := PeakAfter(s, price), stop := ns, trailActive := true), [MoveStop(ns, Trail)])
    else Outcome(s.(peak := PeakAfter(s, price)), [])
  }

  function ExitReason(s: Position, p: ExitParams): Reason {
    var beLevel := if s.side.Buy? then s.entry + Buffer(s.entry, p) else s.entry - Buffer(s.entry, p);
    var locked := if s.side.Buy? then s.stop - s.entry else s.entry - s.stop;
    if !s.firstTargetDone && !s.trailActive then StopLoss
    else if p.lockFirstTarget && s.firstTarget != 0.0 && Abs(s.stop - s.firstTarget) <= 1.5 then Tp1Lock
    else if p.partialExitFraction > 0.0 && Abs(s.stop - beLevel) <= 1.5 then BreakEven
    else if locked > 0.0 then TrailProfit
    else if Abs(locked) < s.riskDist * 0.05 then BreakEven
    else TrailStop
  }

  predicate StopHit(s: Position, price: real) {
    if s.side.Buy? then price <= s.stop else price >= s.stop
  }

  predicate TargetReached(s: Position, price: real) {
    s.target.At? && Reached(s.side, price, s.target.level)
  }

  function ExitStep(s: Position, price: real, p: ExitParams): Outcome {
    if StopHit(s, price) then Outcome(s.(qty := 0), [Exit(s.stop, s.qty, ExitReason(s, p))])
    else if TargetReached(s, price) then Outcome(s.(qty := 0), [Exit(s.target.level, s.qty, TargetHit)])
    else Outcome(s, [])
  }

  /** One price: first-target event, lock, trail, then the stop or target exit. */
  function Step(s: Position, t: Tick, p: ExitParams): Outcome {
    if s.qty <= 0 then Outcome(s, [])
    else
      var a := FirstTargetEvent(s, t.price, p);
      var b := LockStep(a.pos, t.price, t.atr, p);
      var c := TrailStep(b.pos, t.price, t.atr, p);
      var d := ExitStep(c.pos, t.price, p);
      Outcome(d.pos, a.actions + b.actions + c.actions + d.actions)
  }

  predicate HasExit(actions: seq<Action>) { exists i :: 0 <= i < |actions| && actions[i].Exit? }

  function Adverse(side: Side, b: Bar): real { if side.Buy? then b.low else b.high }

  function Favourable(side: Side, b: Bar): real { if side.Buy? then b.high else b.low }

  /** One bar in the adverse order: worst price, best price, close. */
  function StepBar(s: Position, b: Bar, atr: real, p: ExitParams): Outcome {
    var x := Step(s, Tick(Adverse(s.side, b), atr), p);
    if HasExit(x.actions) then x
    else
      var y := Step(x.pos, Tick(Favourable(s.side, b), atr), p);
      if HasExit(x.actions + y.actions) then Outcome(y.pos, x.actions + y.actions)
      else
        var z := Step(y.pos, Tick(b.close, atr), p);
        Outcome(z.pos, x.actions + y.actions + z.actions)
  }

  /** A whole price path. */
  function Run(s: Position, ticks: seq<Tick>, p: ExitParams): Outcome
    decreases |ticks|
  {
    if ticks == [] then Outcome(s, [])
    else
      var x := Step(s, ticks[0], p);
      var rest := Run(x.pos, ticks[1..], p);
      Outcome(rest.pos, x.actions + rest.actions)
  }

  // ------------------------------------------------------- the mutable record

  class ExitState {
    var side: Side
    var entry: real
    var qty: int
    var stop: real
    var target: Target
    var riskDist: real
    var firstTargetDone: bool
    var partialTaken: bool
    var trailActive: bool
    var peak: real
    var firstTarget: real

    function View(): Position
      reads this
    {
      Position(side, entry, qty, stop, target, riskDist, firstTargetDone, partialTaken, trailActive, peak, firstTarget)
    }

    constructor (side: Side, entry: real, qty: int, stop: real, target: Target, riskDist: real)
      ensures View() == Position(side, entry, qty, stop, target, riskDist, false, false, false, entry, 0.0)
    {
      this.side, this.entry, this.qty, this.stop := side, entry, qty, stop;
      this.target, this.riskDist := target, riskDist;
      firstTargetDone, partialTaken, trailActive := false, false, false;
      peak, firstTarget := entry, 0.0;
    }

    method RatchetTo(level: real, price: real) returns (moved: bool)
      modifies this`stop
      ensures stop == Ratcheted(old(View()), level, price)
      ensures moved <==> stop != old(stop)
    {
      moved := false;
      if side.Buy? {
        var ns := Min(level, FloorTick(price - 1.0));
        if target.At? { ns := Min(ns, target.level - 1.0); }
        if ns > stop + 0.5 { stop := ns; moved := true; }
      } else {
        var ns := Max(level, CeilTick(price + 1.0));
        if target.At? { ns := Max(ns, target.level + 1.0); }
        if ns < stop - 0.5 { stop := ns; moved := true; }
      }
    }

    method TrailTo(price: real, atr: real, p: ExitParams) returns (moved: bool)
      modifies this`stop, this`peak
      ensures peak == PeakAfter(old(View()), price)
      ensures moved <==> TrailMoves(old(View()), price, atr, p)
      ensures stop == if moved then Chandelier(old(View()), price, atr, p) else old(stop)
    {
      moved := false;
      if side.Buy? {
        peak := Max(peak, price);
        var ns := Min(TrailLevel(side, peak, atr, p), price - 1.0);
        if target.At? { ns := Min(ns, target.level - 1.0); }
        if ns > stop + 0.5 { stop := ns; moved := true; }
      } else {
        peak := Min(peak, price);
        var ns := Max(TrailLevel(side, peak, atr, p), price + 1.0);
        if target.At? { ns := Max(ns, target.level + 1.0); }
        if ns < stop - 0.5 { stop := ns; moved := true; }
      }
    }

    method TakePartial(level: real, p: ExitParams) returns (actions: seq<Action>)
      modifies this`qty, this`partialTaken
      ensures var s := old(View());
              && qty == s.qty - (if Splits(s, p) then PartialQty(s.qty, p.partialExitFraction) else 0)
              && partialTaken == (s.partialTaken || Splits(s, p))
              && actions == if Splits(s, p) then [Partial(level, s.qty - qty, PartialTarget)] else []
    {
      actions := [];
      if p.partialExitFraction > 0.0 && qty >= 2 {
        var exitQty := MaxInt(1, WholePart(qty, p.partialExitFraction));
        exitQty := MinInt(exitQty, qty - 1);
        actions := actions + [Partial(level, exitQty, PartialTarget)];
        qty := qty - exitQty;
        partialTaken := true;
      }
    }

    method StopAfterFirstTarget(price: real, p: ExitParams) returns (after: real)
      ensures after == EventStop(side, entry, firstTarget, price, p)
    {
      var be := BreakEvenStop(side, entry, p);
      if p.lockFirstTarget && p.lockTriggerFrac <= 0.0 {
        be := if side.Buy? then Max(be, firstTarget) else Min(be, firstTarget);
      }
      after := if side.Buy? then Min(be, FloorTick(price - 1.0)) else Max(be, CeilTick(price + 1.0));
    }

    /** What is left runs on: new stop, next target, trail armed. */
    method ArmRunner(price: real, p: ExitParams)
      modifies this`stop, this`target, this`trailActive, this`peak
      ensures stop == EventStop(side, entry, firstTarget, price, p)
      ensures target == RunnerTarget(old(View()), p)
      ensures trailActive == (p.trailRemainder || p.trailFromEntry) && peak == price
    {
      hide EventStop;
      stop := StopAfterFirstTarget(price, p);
      if p.runnerRrMult > 0.0 {
        target := At(RunnerLevel(side, entry, riskDist, p));
      } else {
        target := Open;
      }
      trailActive := p.trailRemainder || p.trailFromEntry;
      peak := price;
    }

    method BookFirstTarget(price: real, p: ExitParams) returns (actions: seq<Action>)
      modifies this
      ensures View() == FirstTargetEvent(old(View()), price, p).pos
      ensures actions == FirstTargetEvent(old(View()), price, p).actions
    {
      hide EventStop, RunnerLevel, PartialQty;
      actions := [];
      if Managed(p) && !firstTargetDone && target.At? && Reached(side, price, target.level) {
        firstTargetDone := true;
        firstTarget := target.level;
        actions := TakePartial(firstTarget, p);
        ArmRunner(price, p);
        actions := actions + [MoveStop(stop, if LocksAtOnce(p) then LockTp1 else BreakEvenBuffer)];
      }
    }

    method HoldAtFirstTarget(price: real, atr: real, p: ExitParams) returns (actions: seq<Action>)
      modifies this
      ensures View() == LockStep(old(View()), price, atr, p).pos
      ensures actions == LockStep(old(View()), price, atr, p).actions
    {
      actions := [];
      if p.lockFirstTarget && firstTargetDone && firstTarget != 0.0
         && Reached(side, price, LockTrigger(View(), atr, p)) {
        var locked := RatchetTo(firstTarget, price);
        if locked { actions := [MoveStop(stop, LockTp1)]; }
      }
    }

    method TrailChandelier(price: real, atr: real, p: ExitParams) returns (actions: seq<Action>)
      modifies this
      ensures View() == TrailStep(old(View()), price, atr, p).pos
      ensures actions == TrailStep(old(View()), price, atr, p).actions
    {
      actions := [];
      if (trailActive || p.trailFromEntry) && p.trailAtrMult > 0.0 && atr > 0.0 {
        var moved := TrailTo(price, atr, p);
        if moved {
          trailActive := true;
          actions := [MoveStop(stop, Trail)];
        }
      }
    }

    method CloseIfHit(price: real, p: ExitParams) returns (actions: seq<Action>)
      modifies this
      ensures View() == ExitStep(old(View()), price, p).pos
      ensures actions == ExitStep(old(View()), price, p).actions
    {
      actions := [];
      if StopHit(View(), price) {
        actions := [Exit(stop, qty, ExitReason(View(), p))];
        qty := 0;
      } else if TargetReached(View(), price) {
        actions := [Exit(target.level, qty, TargetHit)];
        qty := 0;
      }
    }

    method StepTick(price: real, atr: real, p: ExitParams) returns (actions: seq<Action>)
      modifies this
      ensures View() == Step(old(View()), Tick(price, atr), p).pos
      ensures actions == Step(old(View()), Tick(price, atr), p).actions
    {
      if qty <= 0 { return []; }
      var first := BookFirstTarget(price, p);
      var locked := HoldAtFirstTarget(price, atr, p);
      var trailed := TrailChandelier(price, atr, p);
      var closed := CloseIfHit(price, p);
      actions := first + locked + trailed + closed;
    }

    method AdvanceBar(b: Bar, atr: real, p: ExitParams) returns (actions: seq<Action>)
      modifies this
      ensures View() == StepBar(old(View()), b, atr, p).pos
      ensures actions == StepBar(old(View()), b, atr, p).actions
    {
      var adverse := if side.Buy? then b.low else b.high;
      var favourable := if side.Buy? then b.high else b.low;
      actions := StepTick(adverse, atr, p);
      if HasExit(actions) { return; }
      var more := StepTick(favourable, atr, p);
      actions := actions + more;
      if HasExit(actions) { return; }
      more := StepTick(b.close, atr, p);
      actions := actions + more;
    }
  }
}

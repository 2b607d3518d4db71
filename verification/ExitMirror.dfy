/** Longs and shorts are managed by mirror-image rules. */
module ExitMirror {
  import opened Common
  import opened TickGrid
  import opened ExitManager
  import opened ExitInvariants
  import opened ExitTheorems
  import opened ExitLoss

  /** Reflection about the entry price. */
  function Reflect(s: Position, x: real): real { 2.0 * s.entry - x }

  function Other(side: Side): Side { if side.Buy? then Sell else Buy }

  function ReflectTarget(s: Position, t: Target): Target {
    match t case Open => Open case At(level) => At(Reflect(s, level))
  }

  function Mirror(s: Position): Position {
    s.(side := Other(s.side), stop := Reflect(s, s.stop), target := ReflectTarget(s, s.target),
       peak := Reflect(s, s.peak),
       firstTarget := if s.firstTargetDone then Reflect(s, s.firstTarget) else s.firstTarget)
  }

  function MirrorAction(s: Position, a: Action): Action {
    match a
    case Partial(price, qty, why) => Partial(Reflect(s, price), qty, why)
    case MoveStop(stop, why) => MoveStop(Reflect(s, stop), why)
    case Exit(price, qty, why) => Exit(Reflect(s, price), qty, why)
  }

  function MirrorActions(s: Position, actions: seq<Action>): (r: seq<Action>)
    ensures |r| == |actions|
    ensures forall i :: 0 <= i < |r| ==> r[i] == MirrorAction(s, actions[i])
  {
    seq(|actions|, i requires 0 <= i < |actions| => MirrorAction(s, actions[i]))
  }

  function MirrorOutcome(s: Position, o: Outcome): Outcome { Outcome(Mirror(o.pos), MirrorActions(s, o.actions)) }

  function MirrorTick(s: Position, t: Tick): Tick { Tick(Reflect(s, t.price), t.atr) }

  function MirrorTicks(s: Position, ticks: seq<Tick>): (r: seq<Tick>)
    ensures |r| == |ticks|
    ensures forall i :: 0 <= i < |r| ==> r[i] == MirrorTick(s, ticks[i])
  {
    seq(|ticks|, i requires 0 <= i < |ticks| => MirrorTick(s, ticks[i]))
  }

  function MirrorBar(s: Position, b: Bar): Bar {
    Bar(Reflect(s, b.open), Reflect(s, b.low), Reflect(s, b.high), Reflect(s, b.close))
  }

  /** No level coincides with the zero price that stands for "no first target yet", nor its mirror image. */
  predicate NoZeroLevel(s: Position) {
    && (s.firstTargetDone ==> s.firstTarget != 0.0 && s.firstTarget != 2.0 * s.entry)
    && (!s.firstTargetDone ==> s.firstTarget == 0.0)
    && (!s.firstTargetDone && s.target.At? ==> s.target.level != 0.0 && s.target.level != 2.0 * s.entry)
  }

  /** The reflection axis is on the grid as well: twice the entry is, so a half-tick entry will do. */
  predicate Reflectable(s: Position) { OnGrid(2.0 * s.entry) && NoZeroLevel(s) }

  lemma MirrorJoin(s: Position, a: seq<Action>, b: seq<Action>)
    ensures MirrorActions(s, a + b) == MirrorActions(s, a) + MirrorActions(s, b)
  {
  }

  lemma MirrorSafeSide(s: Position, price: real)
    requires OnGrid(2.0 * s.entry)
    ensures SafeSide(Other(s.side), Reflect(s, price)) == Reflect(s, SafeSide(s.side, price))
  {
    hide FloorTick, CeilTick;
    RoundingMirror(2.0 * s.entry, price - 1.0);
    RoundingMirror(2.0 * s.entry, price + 1.0);
    assert Reflect(s, price) - 1.0 == 2.0 * s.entry - (price + 1.0);
    assert Reflect(s, price) + 1.0 == 2.0 * s.entry - (price - 1.0);
  }

  lemma MirrorBreakEven(s: Position, p: ExitParams)
    requires OnGrid(2.0 * s.entry)
    ensures BreakEvenStop(Other(s.side), s.entry, p) == Reflect(s, BreakEvenStop(s.side, s.entry, p))
  {
    hide FloorTick, CeilTick, Buffer;
    var b := Buffer(s.entry, p);
    RoundingMirror(2.0 * s.entry, s.entry + b);
    RoundingMirror(2.0 * s.entry, s.entry - b);
    assert 2.0 * s.entry - (s.entry + b) == s.entry - b;
    assert 2.0 * s.entry - (s.entry - b) == s.entry + b;
  }

  lemma MirrorTrailLevel(s: Position, peak: real, atr: real, p: ExitParams)
    requires OnGrid(2.0 * s.entry)
    ensures TrailLevel(Other(s.side), Reflect(s, peak), atr, p) == Reflect(s, TrailLevel(s.side, peak, atr, p))
  {
    hide FloorTick, CeilTick, TrailLevel, Scaled;
    var d := Scaled(p.trailAtrMult, atr);
    RoundingMirror(2.0 * s.entry, peak - d);
    RoundingMirror(2.0 * s.entry, peak + d);
    TrailLevelAt(s.side, peak, atr, d, p);
    TrailLevelAt(Other(s.side), Reflect(s, peak), atr, d, p);
    assert Reflect(s, peak) + d == 2.0 * s.entry - (peak - d);
    assert Reflect(s, peak) - d == 2.0 * s.entry - (peak + d);
  }

  lemma MirrorRunner(s: Position, p: ExitParams)
    ensures RunnerTarget(Mirror(s), p) == ReflectTarget(s, RunnerTarget(s, p))
  {
  }

  lemma MirrorEvent(s: Position, price: real, p: ExitParams)
    requires Reflectable(s)
    ensures FirstTargetEvent(Mirror(s), Reflect(s, price), p) == MirrorOutcome(s, FirstTargetEvent(s, price, p))
    ensures Reflectable(FirstTargetEvent(s, price, p).pos)
  {
    MirrorSafeSide(s, price);
    MirrorBreakEven(s, p);
    MirrorRunner(s, p);
    hide SafeSide, BreakEvenStop, RunnerTarget, PartialQty;
    if EventFires(s, price, p) {
      assert EventStop(Other(s.side), s.entry, Reflect(s, s.target.level), Reflect(s, price), p)
          == Reflect(s, EventStop(s.side, s.entry, s.target.level, price, p));
    }
  }

  lemma MirrorTrigger(s: Position, atr: real, p: ExitParams)
    requires s.firstTargetDone
    ensures LockTrigger(Mirror(s), atr, p) == Reflect(s, LockTrigger(s, atr, p))
  {
  }

  lemma MirrorRatchet(s: Position, level: real, price: real)
    requires OnGrid(2.0 * s.entry)
    ensures Ratcheted(Mirror(s), Reflect(s, level), Reflect(s, price)) == Reflect(s, Ratcheted(s, level, price))
  {
    MirrorSafeSide(s, price);
    hide SafeSide;
  }

  lemma MirrorLock(s: Position, price: real, atr: real, p: ExitParams)
    requires Reflectable(s)
    ensures LockStep(Mirror(s), Reflect(s, price), atr, p) == MirrorOutcome(s, LockStep(s, price, atr, p))
    ensures Reflectable(LockStep(s, price, atr, p).pos)
  {
    if s.firstTargetDone {
      MirrorTrigger(s, atr, p);
      MirrorRatchet(s, s.firstTarget, price);
    }
    hide LockTrigger, Ratcheted;
  }

  lemma MirrorChandelier(s: Position, price: real, atr: real, p: ExitParams)
    requires OnGrid(2.0 * s.entry)
    ensures PeakAfter(Mirror(s), Reflect(s, price)) == Reflect(s, PeakAfter(s, price))
    ensures Chandelier(Mirror(s), Reflect(s, price), atr, p) == Reflect(s, Chandelier(s, price, atr, p))
  {
    MirrorTrailLevel(s, PeakAfter(s, price), atr, p);
    hide TrailLevel;
  }

  lemma MirrorTrail(s: Position, price: real, atr: real, p: ExitParams)
    requires Reflectable(s)
    ensures TrailStep(Mirror(s), Reflect(s, price), atr, p) == MirrorOutcome(s, TrailStep(s, price, atr, p))
    ensures Reflectable(TrailStep(s, price, atr, p).pos)
  {
    MirrorChandelier(s, price, atr, p);
    hide Chandelier, PeakAfter;
  }

  lemma MirrorReason(s: Position, p: ExitParams)
    requires Reflectable(s)
    ensures ExitReason(Mirror(s), p) == ExitReason(s, p)
  {
    hide Buffer;
  }

  lemma MirrorExit(s: Position, price: real, p: ExitParams)
    requires Reflectable(s)
    ensures ExitStep(Mirror(s), Reflect(s, price), p) == MirrorOutcome(s, ExitStep(s, price, p))
  {
    MirrorReason(s, p);
    hide ExitReason;
  }

  /** One call on the mirror image is the mirror image of the call. */
  lemma MirrorStep(s: Position, t: Tick, p: ExitParams)
    requires Reflectable(s)
    ensures Step(Mirror(s), MirrorTick(s, t), p) == MirrorOutcome(s, Step(s, t, p))
    ensures Reflectable(Step(s, t, p).pos) && Step(s, t, p).pos.entry == s.entry
  {
    if s.qty > 0 {
      var a := FirstTargetEvent(s, t.price, p);
      var b := LockStep(a.pos, t.price, t.atr, p);
      var c := TrailStep(b.pos, t.price, t.atr, p);
      var d := ExitStep(c.pos, t.price, p);
      StageEntries(s, t, p);
      MirrorEvent(s, t.price, p);
      MirrorLock(a.pos, t.price, t.atr, p);
      MirrorTrail(b.pos, t.price, t.atr, p);
      MirrorExit(c.pos, t.price, p);
      SameReflection(s, a.pos);
      SameReflection(s, b.pos);
      SameReflection(s, c.pos);
      hide FirstTargetEvent, LockStep, TrailStep, ExitStep, MirrorActions, Mirror;
      MirrorJoin(s, a.actions, b.actions);
      MirrorJoin(s, a.actions + b.actions, c.actions);
      MirrorJoin(s, a.actions + b.actions + c.actions, d.actions);
    }
  }

  lemma StageEntries(s: Position, t: Tick, p: ExitParams)
    ensures var a := FirstTargetEvent(s, t.price, p).pos;
            var b := LockStep(a, t.price, t.atr, p).pos;
            var c := TrailStep(b, t.price, t.atr, p).pos;
            && a.entry == s.entry && b.entry == s.entry && c.entry == s.entry
            && ExitStep(c, t.price, p).pos == c.(qty := ExitStep(c, t.price, p).pos.qty)
            && Mirror(s).qty == s.qty
  {
    hide EventStop, RunnerTarget, PartialQty, Ratcheted, LockTrigger, Chandelier, ExitReason;
  }

  lemma SameReflection(s: Position, s': Position)
    requires s.entry == s'.entry
    ensures forall x :: Reflect(s, x) == Reflect(s', x)
    ensures forall actions :: MirrorActions(s, actions) == MirrorActions(s', actions)
  {
  }

  /** A whole life on the mirror image is the mirror image of the life: the same actions at
      the same calls for the same reasons, at mirrored prices, ending in the mirrored state. */
  lemma {:induction false} MirrorRun(s: Position, ticks: seq<Tick>, p: ExitParams)
    requires Reflectable(s)
    ensures Run(Mirror(s), MirrorTicks(s, ticks), p) == MirrorOutcome(s, Run(s, ticks, p))
    decreases |ticks|
  {
    hide Step, Mirror, MirrorTick;
    if ticks != [] {
      var x := Step(s, ticks[0], p);
      MirrorStep(s, ticks[0], p);
      MirrorRun(x.pos, ticks[1..], p);
      SameReflection(s, x.pos);
      assert MirrorTicks(s, ticks)[1..] == MirrorTicks(x.pos, ticks[1..]) by {
        ReflectTail(s, x.pos, ticks);
      }
      MirrorJoin(s, x.actions, Run(x.pos, ticks[1..], p).actions);
    }
  }

  lemma ReflectTail(s: Position, s': Position, ticks: seq<Tick>)
    requires s.entry == s'.entry && ticks != []
    ensures MirrorTicks(s, ticks)[1..] == MirrorTicks(s', ticks[1..])
  {
  }

  lemma MirrorBarTicks(s: Position, b: Bar, atr: real)
    ensures BarTicks(Other(s.side), MirrorBar(s, b), atr) == MirrorTicks(s, BarTicks(s.side, b, atr))
  {
  }

  /** The same for a bar: high and low change places. */
  lemma MirrorStepBar(s: Position, b: Bar, atr: real, p: ExitParams)
    requires Reflectable(s)
    ensures StepBar(Mirror(s), MirrorBar(s, b), atr, p) == MirrorOutcome(s, StepBar(s, b, atr, p))
  {
    hide Step, StepBar, Run, MirrorTicks, BarTicks;
    BarIsThreeTicks(s, b, atr, p);
    BarIsThreeTicks(Mirror(s), MirrorBar(s, b), atr, p);
    MirrorBarTicks(s, b, atr);
    MirrorRun(s, BarTicks(s.side, b, atr), p);
  }

  // ------------------------------------------------------------- exactly

  /** A style that manages nothing never rounds. */
  lemma MirrorPlainStep(s: Position, t: Tick, p: ExitParams)
    requires !Managed(p) && !s.firstTargetDone && !s.trailActive
    ensures Step(Mirror(s), MirrorTick(s, t), p) == MirrorOutcome(s, Step(s, t, p))
    ensures var x := Step(s, t, p).pos; !x.firstTargetDone && !x.trailActive && x.entry == s.entry
  {
    hide FloorTick, CeilTick, Chandelier;
  }

  lemma {:induction false} MirrorPlainRun(s: Position, ticks: seq<Tick>, p: ExitParams)
    requires !Managed(p) && !s.firstTargetDone && !s.trailActive
    ensures Run(Mirror(s), MirrorTicks(s, ticks), p) == MirrorOutcome(s, Run(s, ticks, p))
    decreases |ticks|
  {
    hide Step, Mirror, MirrorTick;
    if ticks != [] {
      var x := Step(s, ticks[0], p);
      MirrorPlainStep(s, ticks[0], p);
      MirrorPlainRun(x.pos, ticks[1..], p);
      SameReflection(s, x.pos);
      ReflectTail(s, x.pos, ticks);
      MirrorJoin(s, x.actions, Run(x.pos, ticks[1..], p).actions);
    }
  }

  /** The first target to the tick, without an ATR. */
  function PlainTouch(s: Position): Tick
    requires s.target.At?
  {
    Tick(s.target.level, 0.0)
  }

  lemma TouchAssignsGrid(s: Position, p: ExitParams)
    requires s.target.At?
    ensures OnGrid(EventStop(s.side, s.entry, s.target.level, s.target.level, p))
    ensures OnGrid(SafeSide(s.side, s.target.level))
  {
    RoundedOnGrid(s.entry + Buffer(s.entry, p));
    RoundedOnGrid(s.entry - Buffer(s.entry, p));
    RoundedOnGrid(s.target.level - 1.0);
    RoundedOnGrid(s.target.level + 1.0);
    hide Buffer, OnGrid;
  }

  /** It leaves the stop on the grid, unless the runner's target caps a lock there. */
  lemma TouchOnGrid(s: Position, p: ExitParams)
    requires Awaits(s, p) && !NearRunner(s, p)
    ensures OnGrid(Step(s, PlainTouch(s), p).pos.stop)
  {
    var t := PlainTouch(s);
    var a := FirstTargetEvent(s, t.price, p).pos;
    TouchAssignsGrid(s, p);
    RunnerGains(s, p);
    if p.lockTriggerFrac > 0.0 && p.runnerRrMult > 0.0 {
      ScaledSign(p.lockTriggerFrac, a.target.level - a.firstTarget);
    }
    StepParts(s, t, p);
    ExitBooks(BeforeExit(s, t, p), t.price, p);
    hide Step, BreakEvenStop, FloorTick, CeilTick, PartialQty, Scaled, OnGrid;
  }

  lemma GridSum(x: real, y: real)
    requires OnGrid(x) && OnGrid(y)
    ensures OnGrid(x + y)
  {
    var a, b := x.Floor, y.Floor;
    IntOnGrid(a + b);
    assert (a + b) as real == x + y;
  }

  lemma MirrorNeedsGrid(s: Position, p: ExitParams)
    requires Awaits(s, p) && !NearRunner(s, p)
    requires Step(Mirror(s), MirrorTick(s, PlainTouch(s)), p) == MirrorOutcome(s, Step(s, PlainTouch(s), p))
    ensures OnGrid(2.0 * s.entry)
  {
    var x := Step(s, PlainTouch(s), p).pos;
    TouchOnGrid(s, p);
    TouchOnGrid(Mirror(s), p);
    assert PlainTouch(Mirror(s)) == MirrorTick(s, PlainTouch(s));
    assert x.entry == s.entry by { StepKeepsEntry(s, PlainTouch(s), p); }
    hide Step, OnGrid;
    GridSum(x.stop, Reflect(s, x.stop));
  }

  lemma StepKeepsEntry(s: Position, t: Tick, p: ExitParams)
    requires s.qty > 0
    ensures Step(s, t, p).pos.entry == s.entry
  {
    hide Step, BeforeExit, FirstTargetEvent, ExitStep;
    StepParts(s, t, p);
    BeforeExitFrame(s, t, p);
    ExitBooks(BeforeExit(s, t, p), t.price, p);
  }

  /** Longs and shorts are mirror images, exactly: every life of a fresh position and of its mirror
      image agree if and only if the style manages nothing or twice the entry is on the grid. */
  lemma MirrorExactly(s: Position, p: ExitParams)
    requires Started(s) && NoZeroLevel(s) && !NearRunner(s, p)
    ensures (forall ticks: seq<Tick> :: Run(Mirror(s), MirrorTicks(s, ticks), p) == MirrorOutcome(s, Run(s, ticks, p)))
            <==> !Managed(p) || OnGrid(2.0 * s.entry)
  {
    hide Run, Step, Mirror, MirrorTick, MirrorOutcome;
    if !Managed(p) || OnGrid(2.0 * s.entry) {
      forall ticks: seq<Tick> ensures Run(Mirror(s), MirrorTicks(s, ticks), p) == MirrorOutcome(s, Run(s, ticks, p)) {
        if Managed(p) { MirrorRun(s, ticks, p); } else { MirrorPlainRun(s, ticks, p); }
      }
    } else {
      var ticks := [PlainTouch(s)];
      if Run(Mirror(s), MirrorTicks(s, ticks), p) == MirrorOutcome(s, Run(s, ticks, p)) {
        assert MirrorTicks(s, ticks) == [MirrorTick(s, ticks[0])];
        RunOne(s, ticks[0], p);
        RunOne(Mirror(s), MirrorTick(s, ticks[0]), p);
        MirrorNeedsGrid(s, p);
      }
    }
  }
}

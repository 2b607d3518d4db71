/** What two particular configurations promise: the first-target lock, and no management at all. */
module ExitStyles {
  import opened TickGrid
  import opened ExitManager
  import opened ExitInvariants
  import opened ExitTheorems

  // ------------------------------------------------------------ the locked floor

  /** Where the lock's floor is: one tick inside the first target, on the grid. */
  function LockFloor(s: Position): real
    requires s.target.At?
  {
    Gain(s, SafeSide(s.side, s.target.level))
  }

  /** The runner has no target, or one no nearer than the floor. */
  predicate FarRunner(s: Position, p: ExitParams)
    requires s.target.At?
  {
    p.runnerRrMult <= 0.0 || Scaled(p.runnerRrMult, s.riskDist) >= LockFloor(s)
  }

  lemma SafeSideMonotone(s: Position, a: real, b: real)
    requires Gain(s, a) <= Gain(s, b)
    ensures Gain(s, SafeSide(s.side, a)) <= Gain(s, SafeSide(s.side, b))
  {
    RoundedOnGrid(a - 1.0);
    RoundedOnGrid(a + 1.0);
    if s.side.Buy? { FloorIsGreatest(b - 1.0, FloorTick(a - 1.0)); } else { CeilIsLeast(b + 1.0, CeilTick(a + 1.0)); }
  }

  lemma LockedEventStop(s: Position, price: real, p: ExitParams)
    requires EventFires(s, price, p) && LocksAtOnce(p)
    ensures Gain(s, EventStop(s.side, s.entry, s.target.level, price, p)) >= LockFloor(s)
  {
    SafeSideMonotone(s, s.target.level, price);
    hide BreakEvenStop;
  }

  /** After the first-target call nothing fills below the floor, and the partial fills at the
      first target itself. */
  lemma LockedEvent(s: Position, t: Tick, p: ExitParams)
    requires Sound(s, p) && Buffered(p) && s.qty > 0
    requires EventFires(s, t.price, p) && LocksAtOnce(p) && FarRunner(s, p)
    ensures var m := BeforeExit(s, t, p);
            && m.firstTargetDone && Gain(s, m.stop) >= LockFloor(s)
            && (m.target.At? ==> Gain(s, m.target.level) >= LockFloor(s))
  {
    LockedEventStop(s, t.price, p);
    RunnerGain(s, p);
    BeforeExitSound(s, t, p);
    var a := FirstTargetEvent(s, t.price, p);
    LockTightens(a.pos, t.price, t.atr, p);
    TrailTightens(LockStep(a.pos, t.price, t.atr, p).pos, t.price, t.atr, p);
    hide EventStop, RunnerTarget, PartialQty, SafeSide;
  }

  lemma FloorBelowTarget(s: Position)
    requires s.target.At?
    ensures Gain(s, s.target.level) - 2.0 < LockFloor(s) <= Gain(s, s.target.level) - 1.0
  {
  }

  /** From the first-target call on, every fill of every continuation is at or beyond the floor. */
  lemma LockFloorHolds(s: Position, t: Tick, ticks: seq<Tick>, p: ExitParams)
    requires Sound(s, p) && Buffered(p) && s.qty > 0
    requires EventFires(s, t.price, p) && LocksAtOnce(p) && FarRunner(s, p)
    ensures FillsFrom(s, Run(s, [t] + ticks, p).actions, LockFloor(s))
  {
    hide Run, Step, EventFires, Sound, Gain, LockFloor, FirstTargetEvent, BeforeExit, ExitStep;
    var x := Step(s, t, p);
    RunCons(s, t, ticks, p);
    LockedEvent(s, t, p);
    LockedFills(s, t, ticks, p);
  }

  lemma LockedFills(s: Position, t: Tick, ticks: seq<Tick>, p: ExitParams)
    requires Sound(s, p) && Buffered(p) && s.qty > 0
    requires EventFires(s, t.price, p) && LocksAtOnce(p) && FarRunner(s, p)
    ensures FillsFrom(s, Step(s, t, p).actions, LockFloor(s))
    ensures FillsFrom(s, LastFills(s, t, p), LockFloor(s))
    ensures FillsFrom(s, Run(Step(s, t, p).pos, ticks, p).actions, LockFloor(s))
  {
    var m := BeforeExit(s, t, p);
    LockedEvent(s, t, p);
    FloorBelowTarget(s);
    BeforeExitSound(s, t, p);
    StepParts(s, t, p);
    StepSound(s, t, p);
    ExitBooks(m, t.price, p);
    hide Run, Step, FirstTargetEvent, BeforeExit, LockFloor;
    ExitFillFloor(s, m, t.price, LockFloor(s), p);
    FirstFillFloor(s, t.price, LockFloor(s), p);
    RunFillFloor(Step(s, t, p).pos, ticks, p);
  }

  /** Units left to the runner at the first target. */
  function RunnerQty(s: Position, p: ExitParams): int {
    if Splits(s, p) then s.qty - PartialQty(s.qty, p.partialExitFraction) else s.qty
  }

  lemma FirstPnl(s: Position, price: real, p: ExitParams)
    requires s.qty > 0 && EventFires(s, price, p)
    ensures var a := FirstTargetEvent(s, price, p);
            && Pnl(s, a.actions) == Worth(Gain(s, s.target.level), s.qty - RunnerQty(s, p))
            && Booked(a.actions) == s.qty - RunnerQty(s, p)
            && 1 <= RunnerQty(s, p) <= s.qty
  {
    var a := FirstTargetEvent(s, price, p);
    EventBooks(s, price, p);
    var move := [MoveStop(a.pos.stop, if LocksAtOnce(p) then LockTp1 else BreakEvenBuffer)];
    NoFillsBookNothing(s, move);
    hide EventStop, RunnerTarget;
    if Splits(s, p) {
      var q := PartialQty(s.qty, p.partialExitFraction);
      var partial := [Partial(s.target.level, q, PartialTarget)];
      hide PartialQty;
      assert a.actions == partial + move;
      PnlConcat(s, partial, move);
      assert partial[1..] == [];
    } else {
      assert a.actions == [] + move == move;
    }
  }

  lemma Distribute(f: real, a: real, b: real)
    ensures f * (a + b) == f * a + f * b
  {
  }

  lemma ScaleStrictly(a: real, b: real, r: real)
    requires a < b && r > 0.0
    ensures a * r < b * r
  {
  }

  lemma FloorTimes(g1: real, floor: real, n: real, r: real, x: real, y: real, m: real, k: real)
    requires g1 - 2.0 < floor && r >= 1.0 && m + k == r
    requires x >= floor * m && y >= floor * k
    ensures g1 * (n - r) + x + y > g1 * n - 2.0 * r
  {
    Distribute(floor, m, k);
    ScaleStrictly(g1 - 2.0, floor, r);
    assert (g1 - 2.0) * r == g1 * r - 2.0 * r;
    Distribute(g1, n - r, r);
  }

  /** The first target on every unit, less two ticks for each unit of the runner. */
  function LockedWorth(s: Position, p: ExitParams): real
    requires s.target.At?
  {
    Worth(Gain(s, s.target.level), s.qty) - 2.0 * RunnerQty(s, p) as real
  }

  lemma LockedSum(s: Position, x: real, y: real, m: int, k: int, p: ExitParams)
    requires s.target.At? && RunnerQty(s, p) >= 1 && m + k == RunnerQty(s, p)
    requires Gain(s, s.target.level) - 2.0 < LockFloor(s)
    requires x >= Worth(LockFloor(s), m) && y >= Worth(LockFloor(s), k)
    ensures Worth(Gain(s, s.target.level), s.qty - RunnerQty(s, p)) + x + y > LockedWorth(s, p)
  {
    hide LockFloor, Gain, RunnerQty;
    FloorTimes(Gain(s, s.target.level), LockFloor(s), s.qty as real, RunnerQty(s, p) as real, x, y, m as real,
               k as real);
  }

  function LastFills(s: Position, t: Tick, p: ExitParams): seq<Action> {
    ExitStep(BeforeExit(s, t, p), t.price, p).actions
  }

  lemma LifeParts(s: Position, t: Tick, ticks: seq<Tick>, p: ExitParams)
    requires Sound(s, p) && Buffered(p) && s.qty > 0 && EventFires(s, t.price, p)
    ensures var x := Step(s, t, p);
            var first, last := FirstTargetEvent(s, t.price, p).actions, LastFills(s, t, p);
            var rest := Run(x.pos, ticks, p).actions;
            && Run(s, [t] + ticks, p).pos == Run(x.pos, ticks, p).pos
            && Pnl(s, Run(s, [t] + ticks, p).actions) == Pnl(s, first) + Pnl(s, last) + Pnl(s, rest)
            && Booked(first) + Booked(last) + Booked(rest) + Run(x.pos, ticks, p).pos.qty == s.qty
  {
    hide Run, Step, EventFires, FirstTargetEvent, BeforeExit, ExitStep, Pnl, Booked, FillsFrom;
    var x := Step(s, t, p);
    RunCons(s, t, ticks, p);
    StepParts(s, t, p);
    StepSound(s, t, p);
    RunSound(x.pos, ticks, p);
    PnlConcat(s, x.actions, Run(x.pos, ticks, p).actions);
  }

  /** A locked life that begins with its first-target call. */
  lemma LockedLifeFromEvent(s: Position, t: Tick, ticks: seq<Tick>, p: ExitParams)
    requires Sound(s, p) && Buffered(p) && s.qty > 0
    requires EventFires(s, t.price, p) && LocksAtOnce(p) && FarRunner(s, p)
    requires Run(s, [t] + ticks, p).pos.qty == 0
    ensures Pnl(s, Run(s, [t] + ticks, p).actions) > LockedWorth(s, p)
  {
    var rest := Run(Step(s, t, p).pos, ticks, p).actions;
    var last := LastFills(s, t, p);
    var floor := LockFloor(s);
    FloorBelowTarget(s);
    LifeParts(s, t, ticks, p);
    LockedFills(s, t, ticks, p);
    hide Run, Step, EventFires, LockFloor, FirstTargetEvent, LastFills, Pnl, Booked, FillsFrom, RunnerQty, LockedWorth,
         Gain, Worth;
    PnlFloor(s, last, floor);
    PnlFloor(s, rest, floor);
    FirstPnl(s, t.price, p);
    LockedSum(s, Pnl(s, last), Pnl(s, rest), Booked(last), Booked(rest), p);
  }

  /** Before the first-target event a call fills nothing and leaves the target where it was,
      unless it closes the position for good. */
  lemma QuietBeforeEvent(s: Position, t: Tick, p: ExitParams)
    requires Sound(s, p) && Buffered(p) && s.qty > 0 && !s.firstTargetDone && !EventFires(s, t.price, p)
    ensures var x := Step(s, t, p);
            && !x.pos.firstTargetDone
            && (x.pos.qty > 0 ==>
                  && Pnl(s, x.actions) == 0.0
                  && x.pos.qty == s.qty && x.pos.target == s.target)
  {
  }

  /** The lock's promise over a whole life: with the lock on and immediate, a position that
      ever reaches its first target and then closes has earned the first target on every
      unit, less at most two ticks for each unit of the runner. */
  lemma {:induction false} LockedLife(s: Position, ticks: seq<Tick>, p: ExitParams)
    requires Sound(s, p) && Buffered(p) && s.qty > 0 && !s.firstTargetDone
    requires LocksAtOnce(p) && FarRunner(s, p)
    requires Run(s, ticks, p).pos.qty == 0 && Run(s, ticks, p).pos.firstTargetDone
    ensures Pnl(s, Run(s, ticks, p).actions)
            > LockedWorth(s, p)
    decreases |ticks|
  {
    hide Step, EventFires, LockFloor, Booked, FillsFrom, Pnl, FarRunner, RunnerQty, LockedWorth;
    if ticks == [] {
      assert false;
    } else {
      var t, rest := ticks[0], ticks[1..];
      assert ticks == [t] + rest;
      var x := Step(s, t, p);
      if EventFires(s, t.price, p) {
        LockedLifeFromEvent(s, t, rest, p);
      } else {
        QuietBeforeEvent(s, t, p);
        StepSound(s, t, p);
        RunCons(s, t, rest, p);
        if x.pos.qty <= 0 {
          ClosedRunIsInert(x.pos, rest, p);
          assert false;
        } else {
          SameLock(s, x.pos, p);
          LockedLife(x.pos, rest, p);
          PnlConcat(s, x.actions, Run(x.pos, rest, p).actions);
          SamePnl(s, x.pos, Run(x.pos, rest, p).actions);
        }
      }
    }
  }

  lemma SameLock(s: Position, s': Position, p: ExitParams)
    requires s.target.At? && s'.side == s.side && s'.entry == s.entry && s'.riskDist == s.riskDist
    requires s'.qty == s.qty && s'.target == s.target
    ensures FarRunner(s', p) == FarRunner(s, p) && LockedWorth(s', p) == LockedWorth(s, p)
  {
  }

  lemma {:induction false} SamePnl(s: Position, s': Position, actions: seq<Action>)
    requires s'.side == s.side && s'.entry == s.entry
    ensures Pnl(s', actions) == Pnl(s, actions)
  {
    if actions != [] { SamePnl(s, s', actions[1..]); }
  }

  /** With a runner target nearer than the floor the promise is broken at once: the whole
      runner leaves at that target in the first-target call itself. */
  lemma NearRunnerLeavesAtOnce(s: Position, t: Tick, p: ExitParams)
    requires Sound(s, p) && Buffered(p) && s.qty > 0
    requires EventFires(s, t.price, p) && LocksAtOnce(p) && !FarRunner(s, p)
    ensures !FillsFrom(s, Step(s, t, p).actions, LockFloor(s))
  {
    var m := BeforeExit(s, t, p);
    BeforeExitSound(s, t, p);
    RunnerGain(s, p);
    FloorBelowTarget(s);
    LockedEventStop(s, t.price, p);
    BeforeExitFrame(s, t, p);
    EventStopBounds(s, t.price, p);
    StopStaysBelowPrice(s, t, p);
    StepEndsWithExit(s, t, p);
  }

  lemma StopStaysBelowPrice(s: Position, t: Tick, p: ExitParams)
    requires Sound(s, p) && Buffered(p) && s.qty > 0 && EventFires(s, t.price, p)
    ensures Gain(s, BeforeExit(s, t, p).stop) <= Gain(s, t.price) - 1.0
  {
  }

  lemma StepEndsWithExit(s: Position, t: Tick, p: ExitParams)
    requires s.qty > 0
    ensures var last := ExitStep(BeforeExit(s, t, p), t.price, p).actions;
            last != [] ==> last[0] in Step(s, t, p).actions
  {
  }

  /** The floor holds over every continuation exactly when the runner has no target or one no
      nearer than the floor. */
  lemma LockFloorExactly(s: Position, t: Tick, p: ExitParams)
    requires Sound(s, p) && Buffered(p) && s.qty > 0
    requires EventFires(s, t.price, p) && LocksAtOnce(p)
    ensures (forall ticks: seq<Tick> :: FillsFrom(s, Run(s, [t] + ticks, p).actions, LockFloor(s)))
            <==> FarRunner(s, p)
  {
    assert s.target.At?;
    hide Run, Step, EventFires, LockFloor, FarRunner;
    if FarRunner(s, p) {
      forall ticks: seq<Tick> ensures FillsFrom(s, Run(s, [t] + ticks, p).actions, LockFloor(s)) {
        LockFloorHolds(s, t, ticks, p);
      }
    } else {
      NearRunnerLeavesAtOnce(s, t, p);
      RunOne(s, t, p);
      assert [t] + [] == [t];
      assert !FillsFrom(s, Run(s, [t] + [], p).actions, LockFloor(s));
    }
  }

  // ------------------------------------------------------------- inert defaults

  predicate ValidBar(b: Bar) { b.low <= b.open <= b.high && b.low <= b.close <= b.high }

  /** The fixed stop/target rule: worst price against the stop, then best price against the target. */
  function PlainBar(s: Position, b: Bar): seq<Action>
    requires s.target.At?
  {
    if StopHit(s, Adverse(s.side, b)) then [Exit(s.stop, s.qty, StopLoss)]
    else if TargetReached(s, Favourable(s.side, b)) then [Exit(s.target.level, s.qty, TargetHit)]
    else []
  }

  /** Its first exit, and nothing after it. */
  function PlainRun(s: Position, bars: seq<(Bar, real)>): seq<Action>
    requires s.target.At?
    decreases |bars|
  {
    if bars == [] then []
    else if PlainBar(s, bars[0].0) != [] then PlainBar(s, bars[0].0)
    else PlainRun(s, bars[1..])
  }

  lemma UnmanagedBar(s: Position, b: Bar, atr: real, p: ExitParams)
    requires !Managed(p) && !s.firstTargetDone && !s.trailActive && s.qty > 0 && s.target.At? && ValidBar(b)
    ensures StepBar(s, b, atr, p).actions == PlainBar(s, b)
    ensures StepBar(s, b, atr, p).pos == s.(qty := if PlainBar(s, b) == [] then s.qty else 0)
  {
  }

  /** With no partial, no trailed remainder and no trail from entry, the machine is the plain
      fixed stop/target rule on every bar sequence, whatever the ATR, the trail multiple, the
      lock and the buffers say: the same single exit, out of the same bar. */
  lemma {:induction false} InertDefaults(s: Position, bars: seq<(Bar, real)>, p: ExitParams)
    requires !Managed(p) && !s.firstTargetDone && !s.trailActive && s.qty > 0 && s.target.At?
    requires forall i :: 0 <= i < |bars| ==> ValidBar(bars[i].0)
    ensures RunBars(s, bars, p).actions == PlainRun(s, bars)
    decreases |bars|
  {
    hide Step, StepBar, PlainBar;
    if bars != [] {
      var x := StepBar(s, bars[0].0, bars[0].1, p);
      UnmanagedBar(s, bars[0].0, bars[0].1, p);
      if PlainBar(s, bars[0].0) == [] {
        InertDefaults(s, bars[1..], p);
      } else {
        ClosedBarsAreInert(x.pos, bars[1..], p);
      }
    }
  }

  lemma ClosedBarsAreInert(s: Position, bars: seq<(Bar, real)>, p: ExitParams)
    requires s.qty <= 0
    ensures RunBars(s, bars, p) == Outcome(s, [])
  {
  }
}

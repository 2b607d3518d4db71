/** Exactly when the stop of the exit machine never retreats. */
module ExitRatchet {
  import opened Common
  import opened TickGrid
  import opened ExitManager
  import opened ExitInvariants
  import opened ExitTheorems
  import opened ExitLoss

  /** The stop never moves away from profit along this path. */
  predicate NeverRetreats(s: Position, ticks: seq<Tick>, p: ExitParams)
    decreases |ticks|
  {
    ticks == [] ||
    (Gain(s, Step(s, ticks[0], p).pos.stop) >= Gain(s, s.stop)
     && NeverRetreats(Step(s, ticks[0], p).pos, ticks[1..], p))
  }

  // ------------------------------------------------------------- one call

  /** A call with the event may set the stop, and never under the lowest one. */
  lemma EventCallStop(s: Position, t: Tick, p: ExitParams)
    requires s.qty > 0 && EventFires(s, t.price, p)
    ensures var x := Step(s, t, p).pos;
            && Gain(s, x.stop) >= Gain(s, LowestStop(s, p)) && x.firstTargetDone
            && x.side == s.side && x.entry == s.entry
  {
    EventStopsAbove(s, t, p);
    EventKeepsClear(s, t, p);
    StepParts(s, t, p);
    ExitBooks(BeforeExit(s, t, p), t.price, p);
    hide Step, BeforeExit, LowestStop, EventFires;
  }

  /** From any state of any position, a call keeps the stop or moves it toward profit, unless the first
      target is yet to come and its lowest stop lies under the one in force. */
  lemma StepRatchets(s: Position, t: Tick, p: ExitParams)
    requires Awaits(s, p) ==> Gain(s, LowestStop(s, p)) >= Gain(s, s.stop)
    ensures Gain(s, Step(s, t, p).pos.stop) >= Gain(s, s.stop)
  {
    hide Step, LowestStop;
    if s.qty > 0 && EventFires(s, t.price, p) { EventCallStop(s, t, p); } else { QuietOrClosed(s, t, p); }
  }

  lemma QuietOrClosed(s: Position, t: Tick, p: ExitParams)
    requires s.qty <= 0 || !EventFires(s, t.price, p)
    ensures Gain(s, Step(s, t, p).pos.stop) >= Gain(s, s.stop)
  {
    hide Step;
    if s.qty <= 0 { ClosedStepIsInert(s, t, p); } else { QuietCall(s, t, p); }
  }

  /** That is the exact condition: one price at the first target otherwise lowers the stop. */
  lemma StepRatchetsExactly(s: Position, p: ExitParams)
    ensures (forall t: Tick :: Gain(s, Step(s, t, p).pos.stop) >= Gain(s, s.stop))
            <==> (Awaits(s, p) ==> Gain(s, LowestStop(s, p)) >= Gain(s, s.stop))
  {
    hide Step, LowestStop;
    if Awaits(s, p) { TouchLeaves(s, p); }
    if Awaits(s, p) ==> Gain(s, LowestStop(s, p)) >= Gain(s, s.stop) {
      forall t: Tick ensures Gain(s, Step(s, t, p).pos.stop) >= Gain(s, s.stop) { StepRatchets(s, t, p); }
    } else {
      assert Gain(s, Step(s, Touch(s, p), p).pos.stop) < Gain(s, s.stop);
    }
  }

  lemma {:induction false} SettledRatchets(s: Position, ticks: seq<Tick>, p: ExitParams)
    requires Settled(s, p)
    ensures NeverRetreats(s, ticks, p)
    decreases |ticks|
  {
    hide Step;
    if ticks != [] {
      QuietCall(s, ticks[0], p);
      SettledRatchets(Step(s, ticks[0], p).pos, ticks[1..], p);
    }
  }

  // ------------------------------------------------------- trailing before the first target

  /** There is room for a trail to move the stop before the first target. */
  predicate TrailHasRoom(s: Position, p: ExitParams)
    requires s.target.At?
  {
    TrailsEarly(p) && Gain(s, s.target.level) + s.riskDist > 1.5
  }

  /** How far the stop of a fresh position may have come when its first target is reached: with room
      to trail, any distance short of a tick under the target; otherwise nowhere. */
  function Furthest(s: Position, p: ExitParams): real
    requires s.target.At?
  {
    if TrailHasRoom(s, p) then Gain(s, s.target.level) - 1.0 else -s.riskDist
  }

  /** A state of s before its first target: only trailed, and only if the style trails early. */
  predicate Trailed(s: Position, m: Position, p: ExitParams)
    requires s.target.At?
  {
    && m == s.(qty := m.qty, stop := m.stop, peak := m.peak, trailActive := m.trailActive)
    && (m.qty == s.qty || m.qty == 0)
    && (m.trailActive ==> TrailsEarly(p))
    && (m.stop == s.stop || (TrailHasRoom(s, p) && -s.riskDist < Gain(s, m.stop) < Furthest(s, p)))
  }

  /** A trail that moves the stop before the first target had room to. */
  lemma TrailStays(s: Position, m: Position, t: Tick, p: ExitParams)
    requires Started(s) && Managed(p) && Trailed(s, m, p) && m.qty > 0 && !EventFires(m, t.price, p)
    ensures Trailed(s, BeforeExit(m, t, p), p)
  {
    assert LockStep(m, t.price, t.atr, p) == Outcome(m, []);
    TrailTightens(m, t.price, t.atr, p);
    assert Gain(s, t.price) < Gain(s, s.target.level);
    hide Chandelier, TrailMoves;
  }

  lemma TrailedCall(s: Position, m: Position, t: Tick, p: ExitParams)
    requires Started(s) && Managed(p) && Trailed(s, m, p) && m.qty > 0 && !EventFires(m, t.price, p)
    ensures Trailed(s, Step(m, t, p).pos, p)
  {
    TrailStays(s, m, t, p);
    QuietCall(m, t, p);
    StepParts(m, t, p);
    ExitBooks(BeforeExit(m, t, p), t.price, p);
    hide Step, BeforeExit, EventFires;
  }

  /** Before the first price. */
  lemma StartedIsTrailed(s: Position, p: ExitParams)
    requires Started(s)
    ensures Trailed(s, s, p)
  {
  }

  /** What the style's stop must clear at the first target. */
  predicate RatchetGuard(s: Position, p: ExitParams)
    requires s.target.At?
  {
    !Managed(p) || Gain(s, LowestStop(s, p)) >= Furthest(s, p)
  }

  lemma {:induction false} GuardedRatchets(s: Position, m: Position, ticks: seq<Tick>, p: ExitParams)
    requires Started(s) && Managed(p) && RatchetGuard(s, p) && Trailed(s, m, p)
    ensures NeverRetreats(m, ticks, p)
    decreases |ticks|
  {
    hide Step, LowestStop, EventFires;
    if ticks != [] {
      var x := Step(m, ticks[0], p).pos;
      SameLowest(s, m, p);
      StepRatchets(m, ticks[0], p);
      if m.qty <= 0 {
        ClosedStepIsInert(m, ticks[0], p);
        GuardedRatchets(s, x, ticks[1..], p);
      } else if EventFires(m, ticks[0].price, p) {
        EventCallStop(m, ticks[0], p);
        SettledRatchets(x, ticks[1..], p);
      } else {
        TrailedCall(s, m, ticks[0], p);
        GuardedRatchets(s, x, ticks[1..], p);
      }
    }
  }

  /** The stop one tick on the losing side of a price. */
  function Behind(side: Side, price: real): real { if side.Buy? then price - 1.0 else price + 1.0 }

  /** From the price to the nearest grid price a whole tick or less behind it. */
  function Pull(side: Side, price: real): (pull: real)
    ensures 0.0 < pull <= 1.0
  {
    if side.Buy? then price - (CeilTick(price) - 1.0) else FloorTick(price) + 1.0 - price
  }

  /** An ATR so small that the trail follows a tick behind the price. */
  function CloseTrail(side: Side, price: real, p: ExitParams): Tick
    requires TrailsEarly(p)
  {
    Tick(price, Pull(side, price) / p.trailAtrMult)
  }

  lemma PulledLevel(s: Position, price: real, p: ExitParams)
    requires TrailsEarly(p)
    ensures var peak := PeakAfter(s, price);
            Gain(s, TrailLevel(s.side, peak, CloseTrail(s.side, price, p).atr, p)) >= Gain(s, Behind(s.side, price))
    ensures CloseTrail(s.side, price, p).atr > 0.0
  {
    var pull := Pull(s.side, price);
    ScaledQuotient(p.trailAtrMult, pull);
    TrailLevelAt(s.side, PeakAfter(s, price), pull / p.trailAtrMult, pull, p);
    RoundedOnGrid(price);
    GridShift(CeilTick(price), -1);
    GridShift(FloorTick(price), 1);
    hide TrailLevel, Scaled;
    if s.side.Buy? {
      FloorIsGreatest(PeakAfter(s, price) - pull, CeilTick(price) - 1.0);
    } else {
      CeilIsLeast(PeakAfter(s, price) + pull, FloorTick(price) + 1.0);
    }
  }

  /** A price short of the first target can bring the stop to a tick behind it. */
  lemma TrailsTo(s: Position, price: real, p: ExitParams)
    requires TrailsEarly(p) && Awaits(s, p)
    requires Gain(s, s.stop) + 1.5 < Gain(s, price) < Gain(s, s.target.level)
    ensures Step(s, CloseTrail(s.side, price, p), p).pos
            == s.(stop := Behind(s.side, price), trailActive := true, peak := PeakAfter(s, price))
  {
    var t := CloseTrail(s.side, price, p);
    PulledLevel(s, price, p);
    hide TrailLevel, Pull;
    assert FirstTargetEvent(s, price, p) == Outcome(s, []);
    assert LockStep(s, price, t.atr, p) == Outcome(s, []);
    var trailed := s.(stop := Behind(s.side, price), trailActive := true, peak := PeakAfter(s, price));
    assert TrailStep(s, price, t.atr, p).pos == trailed;
    assert ExitStep(trailed, price, p) == Outcome(trailed, []);
  }

  /** A stop the trail can reach, above a given gain. */
  function Chosen(s: Position, low: real): real
    requires s.target.At?
  {
    (Max(low, 0.5 - s.riskDist) + (Gain(s, s.target.level) - 1.0)) / 2.0
  }

  /** The price that brings it there. */
  function ApproachPrice(s: Position, low: real): real
    requires s.target.At?
  {
    if s.side.Buy? then s.entry + (Chosen(s, low) + 1.0) else s.entry - (Chosen(s, low) + 1.0)
  }

  function Approach(s: Position, low: real, p: ExitParams): Tick
    requires s.target.At? && TrailsEarly(p)
  {
    CloseTrail(s.side, ApproachPrice(s, low), p)
  }

  /** With room, a fresh position can be trailed past any gain short of a tick under its first target. */
  lemma TrailsPast(s: Position, low: real, p: ExitParams)
    requires Started(s) && TrailHasRoom(s, p) && low < Gain(s, s.target.level) - 1.0
    ensures var m := Step(s, Approach(s, low, p), p).pos;
            && low < Gain(s, m.stop) && Trailed(s, m, p)
            && m.qty == s.qty && Awaits(m, p) && Clear(m)
  {
    TrailsTo(s, ApproachPrice(s, low), p);
    hide Step;
  }

  /** The path on which an unguarded position retreats. */
  function RetreatPath(s: Position, p: ExitParams): seq<Tick>
    requires s.target.At?
  {
    if TrailHasRoom(s, p) then [Approach(s, Gain(s, LowestStop(s, p)), p), Touch(s, p)] else [Touch(s, p)]
  }

  lemma UnguardedRetreats(s: Position, p: ExitParams)
    requires Started(s) && !RatchetGuard(s, p)
    ensures !NeverRetreats(s, RetreatPath(s, p), p)
  {
    var low := Gain(s, LowestStop(s, p));
    var path := RetreatPath(s, p);
    if TrailHasRoom(s, p) {
      var m := Step(s, Approach(s, low, p), p).pos;
      TrailsPast(s, low, p);
      SameLowest(s, m, p);
      TouchLeaves(m, p);
      hide Step, LowestStop, Approach, WorstAtr, TrailHasRoom;
      assert Touch(m, p) == Touch(s, p) by { SameTouch(s, m, p); }
      assert path[1..] == [Touch(s, p)];
    } else {
      hide Step, LowestStop;
      TouchLeaves(s, p);
    }
  }

  lemma SameTouch(s: Position, m: Position, p: ExitParams)
    requires s.target.At? && Trailed(s, m, p)
    ensures Touch(m, p) == Touch(s, p)
  {
    SameLowest(s, m, p);
    hide LowestStop;
  }

  /** The documented "ratchet only" rule, exactly: from any fresh position, on every path, the stop
      never retreats if and only if the style manages nothing, or its lowest stop at the first target
      is no lower than the furthest the stop can have come by then. */
  lemma RatchetExactly(s: Position, p: ExitParams)
    requires Started(s)
    ensures (forall ticks: seq<Tick> :: NeverRetreats(s, ticks, p)) <==> RatchetGuard(s, p)
  {
    hide NeverRetreats, LowestStop;
    if RatchetGuard(s, p) {
      forall ticks: seq<Tick> ensures NeverRetreats(s, ticks, p) {
        if Managed(p) {
          StartedIsTrailed(s, p);
          GuardedRatchets(s, s, ticks, p);
        } else {
          SettledRatchets(s, ticks, p);
        }
      }
    } else {
      UnguardedRetreats(s, p);
    }
  }

  // ------------------------------------------------------- by style: every fresh position

  /** Prices a broker can hold an order at. */
  predicate Placeable(s: Position) { s.stop > 0.0 && (s.target.At? ==> s.target.level > 0.0) }

  /** Bought at 100 with half a tick of risk, and a first target no farther and nearer than any runner
      target. */
  function SubTick(p: ExitParams): Position {
    var near := if p.runnerRrMult > 0.0 then Min(p.runnerRrMult / 4.0, 0.5) else 0.5;
    Position(Buy, 100.0, 1, 99.5, At(100.0 + near), 0.5, false, false, false, 100.0, 0.0)
  }

  /** Its first target leaves the stop at 99 or lower, half a tick under the initial one. */
  lemma SubTickFalls(p: ExitParams)
    ensures Started(SubTick(p)) && Placeable(SubTick(p)) && !NearRunner(SubTick(p), p)
    ensures Gain(SubTick(p), LowestStop(SubTick(p), p)) <= -1.0
    ensures Furthest(SubTick(p), p) == -0.5
  {
    var s := SubTick(p);
    LowestIsBelow(s, p);
    assert SafeSide(Buy, s.target.level) == 99.0;
    hide LowestStop;
    assert p.runnerRrMult > 0.0 ==> Scaled(p.runnerRrMult, 0.5) == p.runnerRrMult / 2.0;
  }

  /** With targets and stops where the backtester lets them be, no style that manages anything keeps the
      rule. */
  lemma RatchetByStyle(p: ExitParams)
    ensures (forall s: Position, ticks: seq<Tick> | Started(s) && Placeable(s) :: NeverRetreats(s, ticks, p))
            <==> !Managed(p)
  {
    hide NeverRetreats, LowestStop, NearRunner, Furthest;
    if Managed(p) {
      SubTickFalls(p);
      RatchetExactly(SubTick(p), p);
    } else {
      forall s: Position, ticks: seq<Tick> | Started(s) && Placeable(s) ensures NeverRetreats(s, ticks, p) {
        RatchetExactly(s, p);
      }
    }
  }

  // ------------------------------------------------------- by style: a tick of risk, a tick of target

  /** A long bought at 100 ticks with its stop at 97 and its first target between two ticks, at 104.5. */
  const OFF_GRID_START := Position(Buy, 100.0, 1, 97.0, At(104.5), 3.0, false, false, false, 100.0, 0.0)

  /** Trailed to 103.4 it may be, but its first target leaves the stop at 103 or lower. */
  lemma RatchetBreaksOffGrid(p: ExitParams)
    requires TrailsEarly(p)
    ensures Opened(OFF_GRID_START) && Placeable(OFF_GRID_START) && Started(OFF_GRID_START)
    ensures Gain(OFF_GRID_START, LowestStop(OFF_GRID_START, p)) <= 3.0 && Furthest(OFF_GRID_START, p) == 3.5
    ensures !NeverRetreats(OFF_GRID_START, RetreatPath(OFF_GRID_START, p), p)
  {
    var s := OFF_GRID_START;
    LowestIsBelow(s, p);
    assert SafeSide(Buy, 104.5) == 103.0;
    hide NeverRetreats, LowestStop;
    UnguardedRetreats(s, p);
  }

  /** Over every opening with a tick of risk and a tick to its first target, on the grid or off it, the
      stop never retreats if and only if the style does not trail from entry. */
  lemma RatchetOpenedExactly(p: ExitParams)
    requires Buffered(p)
    ensures (forall s: Position, ticks: seq<Tick> | Opened(s) && Placeable(s) :: NeverRetreats(s, ticks, p))
            <==> !TrailsEarly(p)
  {
    hide NeverRetreats, LowestStop;
    if TrailsEarly(p) {
      RatchetBreaksOffGrid(p);
    } else {
      forall s: Position, ticks: seq<Tick> | Opened(s) && Placeable(s) ensures NeverRetreats(s, ticks, p) {
        OpenedIsGuarded(s, p);
        RatchetExactly(s, p);
      }
    }
  }

  // ------------------------------------------------------- by style: first targets on the grid

  /** A positive first target on the tick grid. */
  predicate GridTarget(s: Position) {
    s.target.At? && s.target.level > 0.0 && OnGrid(s.target.level)
  }

  /** At the first-target event the stop is promoted to the first target in the same call. */
  predicate PromotesAtEvent(p: ExitParams) {
    p.lockFirstTarget && (p.lockTriggerFrac <= 0.0 || (p.runnerRrMult <= 0.0 && p.lockTriggerAtrMult <= 0.0))
  }

  /** The guard of a ratcheting style. */
  predicate Ratchets(p: ExitParams) { !TrailsEarly(p) || PromotesAtEvent(p) }

  lemma BreakEvenOnGrid(side: Side, entry: real, p: ExitParams)
    ensures OnGrid(BreakEvenStop(side, entry, p))
  {
    RoundedOnGrid(entry + Buffer(entry, p));
    RoundedOnGrid(entry - Buffer(entry, p));
  }

  lemma SafeSideOfGrid(side: Side, level: real)
    requires OnGrid(level)
    ensures SafeSide(side, level) == Behind(side, level) && OnGrid(Behind(side, level))
  {
    GridShift(level, -1);
    GridShift(level, 1);
    FloorOfGrid(level - 1.0);
    FloorOfGrid(level + 1.0);
  }

  /** With promotion in the event's own call, no stop is left lower than a tick under the first target,
      which is as far as any earlier trail was allowed to go. */
  lemma PromotedStop(s: Position, p: ExitParams)
    requires GridTarget(s) && PromotesAtEvent(p)
    ensures Gain(s, LowestStop(s, p)) == Gain(s, s.target.level) - 1.0
  {
    var level := s.target.level;
    var bare := EventStop(s.side, s.entry, level, level, p);
    LowestIsBelow(s, p);
    SafeSideOfGrid(s.side, level);
    BreakEvenOnGrid(s.side, s.entry, p);
    hide BreakEvenStop, SafeSide;
    if p.lockTriggerFrac > 0.0 {
      assert Inside(s, p) == Behind(s.side, level) && OnGrid(bare);
      if Gain(s, Inside(s, p)) <= Gain(s, bare) + 0.5 {
        if s.side.Buy? { GridGap(bare, Inside(s, p)); } else { GridGap(Inside(s, p), bare); }
      }
    }
  }

  lemma PromotedIsGuarded(s: Position, p: ExitParams)
    requires Started(s) && GridTarget(s) && PromotesAtEvent(p) && TrailsEarly(p)
    requires Gain(s, s.target.level) >= 1.0
    ensures RatchetGuard(s, p)
  {
    hide LowestStop;
    PromotedStop(s, p);
  }

  /** A grid price at least four ticks past a long's break-even stop and five past any runner
      target one risk multiple away. */
  function LateTarget(p: ExitParams): real { Max(BreakEvenStop(Buy, 2.0, p) + 4.0, FloorTick(p.runnerRrMult) + 8.0) }

  /** Bought at two ticks with one tick of risk. */
  function RetreatStart(p: ExitParams): Position {
    Position(Buy, 2.0, 1, 1.0, At(LateTarget(p)), 1.0, false, false, false, 2.0, 0.0)
  }

  lemma LateTargetIsLate(p: ExitParams)
    requires Buffered(p)
    ensures LateTarget(p) >= 6.0 && OnGrid(LateTarget(p))
    ensures LateTarget(p) >= BreakEvenStop(Buy, 2.0, p) + 4.0 && LateTarget(p) > p.runnerRrMult + 7.0
  {
    BufferNonNegative(RetreatStart(p), p);
    IntOnGrid(2);
    FloorIsGreatest(2.0 + Buffer(2.0, p), 2.0);
    BreakEvenOnGrid(Buy, 2.0, p);
    GridShift(BreakEvenStop(Buy, 2.0, p), 4);
    RoundedOnGrid(p.runnerRrMult);
    GridShift(FloorTick(p.runnerRrMult), 8);
  }

  lemma RetreatStartOpens(p: ExitParams)
    requires Buffered(p)
    ensures Opened(RetreatStart(p)) && Placeable(RetreatStart(p)) && GridTarget(RetreatStart(p))
            && Started(RetreatStart(p))
  {
    LateTargetIsLate(p);
    hide LateTarget;
  }

  /** Unless the style promotes its stop in the event's own call, that call leaves it four ticks under
      the first target or lower. */
  lemma LateStopIsLow(p: ExitParams)
    requires Buffered(p) && !PromotesAtEvent(p)
    ensures LowestStop(RetreatStart(p), p) <= LateTarget(p) - 4.0
  {
    LateTargetIsLate(p);
    RunnerGains(RetreatStart(p), p);
    assert Scaled(p.runnerRrMult, 1.0) == p.runnerRrMult;
    hide LateTarget, BreakEvenStop, SafeSide;
  }

  lemma RatchetBreaks(p: ExitParams)
    requires Buffered(p) && !Ratchets(p)
    ensures Opened(RetreatStart(p)) && Placeable(RetreatStart(p)) && GridTarget(RetreatStart(p))
    ensures !NeverRetreats(RetreatStart(p), RetreatPath(RetreatStart(p), p), p)
  {
    RetreatStartOpens(p);
    LateStopIsLow(p);
    LateTargetIsLate(p);
    hide NeverRetreats, LowestStop, LateTarget;
    UnguardedRetreats(RetreatStart(p), p);
  }

  /** With first targets snapped to the tick grid one more kind of style keeps the rule: one that
      promotes its stop to the first target in the very call that reaches it. */
  lemma RatchetOnGridExactly(p: ExitParams)
    requires Buffered(p)
    ensures (forall s: Position, ticks: seq<Tick> | Opened(s) && Placeable(s) && GridTarget(s) ::
               NeverRetreats(s, ticks, p))
            <==> Ratchets(p)
  {
    hide NeverRetreats, LowestStop;
    if Ratchets(p) {
      forall s: Position, ticks: seq<Tick> | Opened(s) && Placeable(s) && GridTarget(s)
        ensures NeverRetreats(s, ticks, p)
      {
        OpenedIsGuarded(s, p);
        if TrailsEarly(p) { PromotedIsGuarded(s, p); }
        RatchetExactly(s, p);
      }
    } else {
      RatchetBreaks(p);
    }
  }
}

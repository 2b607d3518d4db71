/** What every call of the exit machine keeps, in either direction.

    Levels are compared by their gain, the distance from the entry in the profit
    direction, so one statement covers longs and shorts. */
module ExitInvariants {
  import opened Common
  import opened TickGrid
  import opened ExitManager

  function Gain(s: Position, x: real): real {
    if s.side.Buy? then x - s.entry else s.entry - x
  }

  /** The buffers are distances, never negative. */
  predicate Buffered(p: ExitParams) { p.breakevenBufferTicks >= 0.0 && p.breakevenBufferBps >= 0.0 }

  /** The trail can move a stop before the first target has been reached. */
  predicate TrailsEarly(p: ExitParams) { p.trailFromEntry && p.trailAtrMult > 0.0 }

  /** A position as the engine and the backtester open it: at least one tick of risk, a
      first target at least one tick away. */
  predicate Opened(s: Position) {
    && s.qty > 0 && s.entry > 0.0 && s.riskDist >= 1.0
    && Gain(s, s.stop) == -s.riskDist
    && s.target.At? && Gain(s, s.target.level) >= 1.0
    && !s.firstTargetDone && !s.partialTaken && !s.trailActive
    && s.peak == s.entry && s.firstTarget == 0.0
  }

  /** While anything is held, the stop lies short of the target. */
  predicate Clear(s: Position) {
    s.qty > 0 && s.target.At? ==> Gain(s, s.stop) < Gain(s, s.target.level)
  }

  /** The invariant of an opened position. */
  predicate Sound(s: Position, p: ExitParams) {
    && s.entry > 0.0 && s.riskDist >= 1.0 && s.qty >= 0
    && Gain(s, s.stop) >= -s.riskDist
    && (s.target.At? ==> Gain(s, s.target.level) >= 0.0)
    && (s.target.At? && s.qty > 0 ==> Gain(s, s.stop) < Gain(s, s.target.level))
    && (!s.firstTargetDone ==>
          s.target.At? && Gain(s, s.target.level) >= 1.0 && Gain(s, s.stop) <= Gain(s, s.target.level) - 1.0)
    && (!s.firstTargetDone && !TrailsEarly(p) ==> Gain(s, s.stop) == -s.riskDist && !s.trailActive)
  }

  // ------------------------------------------------------------------- fills

  predicate IsFill(a: Action) { !a.MoveStop? }

  function Booked(actions: seq<Action>): int {
    if actions == [] then 0
    else (if IsFill(actions[0]) then actions[0].qty else 0) + Booked(actions[1..])
  }

  /** Profit of `qty` units at a gain of `gain` each. */
  function Worth(gain: real, qty: int): real { gain * qty as real }

  function FillPnl(s: Position, a: Action): real {
    if IsFill(a) then Worth(Gain(s, a.price), a.qty) else 0.0
  }

  /** Profit of every PARTIAL and EXIT fill, per unit of contract multiplier. */
  function Pnl(s: Position, actions: seq<Action>): real {
    if actions == [] then 0.0 else FillPnl(s, actions[0]) + Pnl(s, actions[1..])
  }

  /** Every fill books a positive quantity at a gain of at least g. */
  predicate FillsFrom(s: Position, actions: seq<Action>, g: real) {
    forall i :: 0 <= i < |actions| && IsFill(actions[i]) ==> actions[i].qty > 0 && Gain(s, actions[i].price) >= g
  }

  lemma {:induction false} BookedConcat(a: seq<Action>, b: seq<Action>)
    ensures Booked(a + b) == Booked(a) + Booked(b)
  {
    if a == [] {
      assert a + b == b;
    } else {
      assert (a + b)[1..] == a[1..] + b;
      BookedConcat(a[1..], b);
    }
  }

  lemma {:induction false} PnlConcat(s: Position, a: seq<Action>, b: seq<Action>)
    ensures Pnl(s, a + b) == Pnl(s, a) + Pnl(s, b)
  {
    if a == [] {
      assert a + b == b;
    } else {
      hide FillPnl;
      assert (a + b)[1..] == a[1..] + b;
      PnlConcat(s, a[1..], b);
    }
  }

  lemma {:induction false} PnlFloor(s: Position, actions: seq<Action>, g: real)
    requires FillsFrom(s, actions, g)
    ensures Booked(actions) >= 0
    ensures Pnl(s, actions) >= Worth(g, Booked(actions))
  {
    if actions == [] {
    } else {
      PnlFloor(s, actions[1..], g);
      var n := Booked(actions[1..]);
      if IsFill(actions[0]) {
        var q, x := actions[0].qty, Gain(s, actions[0].price);
        assert x * q as real >= g * q as real by { assert (x - g) * q as real >= 0.0; }
        assert g * (q + n) as real == g * q as real + g * n as real;
      }
    }
  }

  // -------------------------------------------------------------- one stage

  /** Only the stop, the peak and the trail flag may differ; a moved stop moved toward
      profit, and stays a tick short of the price and of the target. */
  predicate Tightened(s: Position, s': Position, price: real) {
    && s' == s.(stop := s'.stop, peak := s'.peak, trailActive := s'.trailActive)
    && (s'.stop != s.stop ==>
          && Gain(s, s'.stop) > Gain(s, s.stop) + 0.5
          && Gain(s, s'.stop) <= Gain(s, price) - 1.0
          && (s.target.At? ==> Gain(s, s'.stop) <= Gain(s, s.target.level) - 1.0))
  }

  /** The only action of a stage that fills nothing: report the stop it moved. */
  predicate ReportsMove(s: Position, o: Outcome) {
    if o.pos.stop != s.stop then |o.actions| == 1 && o.actions[0].MoveStop? && o.actions[0].newStop == o.pos.stop
    else o.actions == []
  }

  lemma LockTightens(s: Position, price: real, atr: real, p: ExitParams)
    ensures Tightened(s, LockStep(s, price, atr, p).pos, price)
    ensures LockStep(s, price, atr, p).pos.trailActive == s.trailActive
    ensures ReportsMove(s, LockStep(s, price, atr, p))
  {
  }

  lemma TrailTightens(s: Position, price: real, atr: real, p: ExitParams)
    ensures Tightened(s, TrailStep(s, price, atr, p).pos, price)
    ensures ReportsMove(s, TrailStep(s, price, atr, p))
    ensures !Trailing(s, atr, p) ==> TrailStep(s, price, atr, p) == Outcome(s, [])
  {
  }

  lemma BufferNonNegative(s: Position, p: ExitParams)
    requires s.entry > 0.0 && Buffered(p)
    ensures Buffer(s.entry, p) >= 0.0
  {
    assert (p.breakevenBufferBps / 10000.0) * s.entry >= 0.0;
  }

  /** The un-ratcheted assignment of the first-target event still leaves the stop less than
      a tick below the entry, and a tick short of the price. */
  lemma EventStopBounds(s: Position, price: real, p: ExitParams)
    requires Sound(s, p) && Buffered(p) && EventFires(s, price, p)
    ensures var stop := EventStop(s.side, s.entry, s.target.level, price, p);
            -1.0 < Gain(s, stop) <= Gain(s, price) - 1.0
  {
    BufferNonNegative(s, p);
  }

  lemma TrailLevelAt(side: Side, peak: real, atr: real, distance: real, p: ExitParams)
    requires Scaled(p.trailAtrMult, atr) == distance
    ensures TrailLevel(side, peak, atr, p)
            == if side.Buy? then FloorTick(peak - distance) else CeilTick(peak + distance)
  {
    hide Scaled;
  }

  lemma RunnerGain(s: Position, p: ExitParams)
    requires s.riskDist >= 1.0
    ensures RunnerTarget(s, p).At? ==> Gain(s, RunnerTarget(s, p).level) == Scaled(p.runnerRrMult, s.riskDist) > 0.0
  {
    if p.runnerRrMult > 0.0 { assert p.runnerRrMult * s.riskDist > 0.0; }
  }

  // ------------------------------------------------------------- one price

  /** The position after lock and trail, before the exit check. */
  function BeforeExit(s: Position, t: Tick, p: ExitParams): Position {
    TrailStep(LockStep(FirstTargetEvent(s, t.price, p).pos, t.price, t.atr, p).pos, t.price, t.atr, p).pos
  }

  lemma BeforeExitSound(s: Position, t: Tick, p: ExitParams)
    requires Sound(s, p) && Buffered(p) && s.qty > 0
    ensures var m := BeforeExit(s, t, p);
            && m.side == s.side && m.entry == s.entry && m.riskDist == s.riskDist
            && m.qty == s.qty - Booked(FirstTargetEvent(s, t.price, p).actions) > 0
            && Gain(s, m.stop) >= -s.riskDist
            && (m.stop != s.stop ==> Gain(s, m.stop) <= Gain(s, t.price) - 1.0)
            && (m.target.At? ==> Gain(s, m.target.level) >= 0.0)
            && (!EventFires(s, t.price, p) ==>
                  && Gain(s, m.stop) >= Gain(s, s.stop) && m.target == s.target
                  && m.firstTargetDone == s.firstTargetDone && m.firstTarget == s.firstTarget
                  && (m.target.At? ==> Gain(s, m.stop) < Gain(s, m.target.level)))
            && (EventFires(s, t.price, p) ==>
                  && m.firstTargetDone && m.firstTarget == s.target.level
                  && m.target == RunnerTarget(s, p))
            && (!m.firstTargetDone ==> Gain(s, m.stop) <= Gain(s, m.target.level) - 1.0)
            && (!m.firstTargetDone && !TrailsEarly(p) ==> m.stop == s.stop && !m.trailActive)
  {
    var a := FirstTargetEvent(s, t.price, p);
    var b := LockStep(a.pos, t.price, t.atr, p);
    LockTightens(a.pos, t.price, t.atr, p);
    TrailTightens(b.pos, t.price, t.atr, p);
    RunnerGain(s, p);
    EventBooks(s, t.price, p);
    if EventFires(s, t.price, p) { EventStopBounds(s, t.price, p); }
  }

  lemma EventBooks(s: Position, price: real, p: ExitParams)
    ensures var a := FirstTargetEvent(s, price, p);
            && Booked(a.actions) == s.qty - a.pos.qty
            && (s.qty > 0 ==> 0 <= Booked(a.actions) < s.qty)
            && (Booked(a.actions) > 0 ==> EventFires(s, price, p) && Splits(s, p))
            && (EventFires(s, price, p) ==> FillsFrom(s, a.actions, Gain(s, s.target.level)))
            && !HasExit(a.actions)
  {
    var a := FirstTargetEvent(s, price, p);
    if !EventFires(s, price, p) {
    } else if !Splits(s, p) {
      assert a.actions[1..] == [];
    } else {
      var q := PartialQty(s.qty, p.partialExitFraction);
      var rest := [MoveStop(a.pos.stop, if LocksAtOnce(p) then LockTp1 else BreakEvenBuffer)];
      assert rest[1..] == [];
      assert a.actions == [Partial(s.target.level, q, PartialTarget)] + rest;
      assert a.actions[1..] == rest;
      assert Booked(rest) == 0;
      assert Booked(a.actions) == q;
    }
  }

  /** Every call keeps the invariant, and every unit is either booked or still held. */
  lemma StepSound(s: Position, t: Tick, p: ExitParams)
    requires Sound(s, p) && Buffered(p)
    ensures var o := Step(s, t, p);
            && Sound(o.pos, p)
            && o.pos.side == s.side && o.pos.entry == s.entry && o.pos.riskDist == s.riskDist
            && Booked(o.actions) + o.pos.qty == s.qty
            && (HasExit(o.actions) <==> s.qty > 0 && o.pos.qty == 0)
  {
    if s.qty > 0 {
      StepParts(s, t, p);
      BeforeExitSound(s, t, p);
      ExitBooks(BeforeExit(s, t, p), t.price, p);
    }
  }

  lemma ClosedStepIsInert(s: Position, t: Tick, p: ExitParams)
    requires s.qty <= 0
    ensures Step(s, t, p) == Outcome(s, [])
  {
  }

  lemma BeforeExitFrame(s: Position, t: Tick, p: ExitParams)
    ensures var m := BeforeExit(s, t, p);
            && m.side == s.side && m.entry == s.entry && m.riskDist == s.riskDist
            && m.qty == FirstTargetEvent(s, t.price, p).pos.qty
            && (s.firstTargetDone ==> m.firstTargetDone)
            && m.firstTargetDone == FirstTargetEvent(s, t.price, p).pos.firstTargetDone
            && (!EventFires(s, t.price, p) ==> m.target == s.target && m.firstTargetDone == s.firstTargetDone)
            && (m.stop != s.stop ==> Gain(s, m.stop) <= Gain(s, t.price) - 1.0)
  {
    hide Ratcheted, Chandelier, LockTrigger, RunnerTarget, PartialQty;
    var a := FirstTargetEvent(s, t.price, p);
    LockTightens(a.pos, t.price, t.atr, p);
    TrailTightens(LockStep(a.pos, t.price, t.atr, p).pos, t.price, t.atr, p);
  }

  predicate NoFills(actions: seq<Action>) { forall i :: 0 <= i < |actions| ==> actions[i].MoveStop? }

  lemma {:induction false} NoFillsBookNothing(s: Position, a: seq<Action>)
    requires NoFills(a)
    ensures Booked(a) == 0 && Pnl(s, a) == 0.0
  {
    if a != [] { NoFillsBookNothing(s, a[1..]); }
  }

  lemma JoinStages(s: Position, a: seq<Action>, b: seq<Action>, c: seq<Action>, d: seq<Action>)
    requires NoFills(b) && NoFills(c)
    ensures Booked(a + b + c + d) == Booked(a) + Booked(d)
    ensures Pnl(s, a + b + c + d) == Pnl(s, a) + Pnl(s, d)
    ensures HasExit(a + b + c + d) <==> HasExit(a) || HasExit(d)
    ensures forall g {:trigger FillsFrom(s, a, g)} ::
              FillsFrom(s, a, g) && FillsFrom(s, d, g) ==> FillsFrom(s, a + b + c + d, g)
  {
    NoFillsBookNothing(s, b);
    NoFillsBookNothing(s, c);
    BookedConcat(a, b);
    BookedConcat(a + b, c);
    BookedConcat(a + b + c, d);
    PnlConcat(s, a, b);
    PnlConcat(s, a + b, c);
    PnlConcat(s, a + b + c, d);
    var all := a + b + c + d;
    if HasExit(a) {
      var i :| 0 <= i < |a| && a[i].Exit?;
      assert all[i].Exit?;
    } else if HasExit(d) {
      var i :| 0 <= i < |d| && d[i].Exit?;
      assert all[|a| + |b| + |c| + i].Exit?;
    }
  }

  /** The actions of a call, stage by stage. */
  lemma StepParts(s: Position, t: Tick, p: ExitParams)
    requires s.qty > 0
    ensures var o, m := Step(s, t, p), BeforeExit(s, t, p);
            var first, last := FirstTargetEvent(s, t.price, p).actions, ExitStep(m, t.price, p).actions;
            && o.pos == ExitStep(m, t.price, p).pos
            && Booked(o.actions) == Booked(first) + Booked(last)
            && Pnl(s, o.actions) == Pnl(s, first) + Pnl(s, last)
            && (HasExit(o.actions) <==> HasExit(last))
            && (forall g {:trigger FillsFrom(s, first, g)} ::
                  FillsFrom(s, first, g) && FillsFrom(s, last, g) ==> FillsFrom(s, o.actions, g))
  {
    var a := FirstTargetEvent(s, t.price, p);
    var b := LockStep(a.pos, t.price, t.atr, p);
    var c := TrailStep(b.pos, t.price, t.atr, p);
    var d := ExitStep(c.pos, t.price, p);
    LockTightens(a.pos, t.price, t.atr, p);
    TrailTightens(b.pos, t.price, t.atr, p);
    EventBooks(s, t.price, p);
    JoinStages(s, a.actions, b.actions, c.actions, d.actions);
  }

  /** The exit check books everything that is left, or nothing. */
  lemma ExitBooks(m: Position, price: real, p: ExitParams)
    ensures var d := ExitStep(m, price, p);
            && (HasExit(d.actions) <==> StopHit(m, price) || TargetReached(m, price))
            && Booked(d.actions) == m.qty - d.pos.qty
            && d.pos == m.(qty := d.pos.qty)
            && d.pos.qty == (if HasExit(d.actions) then 0 else m.qty)
  {
    var d := ExitStep(m, price, p);
    if d.actions != [] {
      assert d.actions[0].Exit?;
      assert d.actions[1..] == [];
    }
  }
}

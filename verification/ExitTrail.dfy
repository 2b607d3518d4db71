/** Over a whole life, the chandelier hangs from the best price seen. */
module ExitTrail {
  import opened Common
  import opened ExitManager
  import opened ExitInvariants
  import opened ExitTheorems
  import opened ExitLoss
  import opened ExitLevels

  /** What the trail has looked at: the price it started from, and every price since at which it ran. */
  datatype Watch = Watch(start: real, prices: seq<real>)

  /** The style trails, from entry or once the first target is done. */
  predicate TrailsNow(p: ExitParams, firstTargetDone: bool) {
    p.trailAtrMult > 0.0 && (p.trailFromEntry || (p.trailRemainder && firstTargetDone))
  }

  /** It starts from the entry, and again from the price that completes the first target. */
  function Watched(s: Position, ticks: seq<Tick>, p: ExitParams): Watch
    decreases |ticks|
  {
    if ticks == [] then Watch(s.entry, [])
    else
      var init, t := ticks[..|ticks| - 1], ticks[|ticks| - 1];
      var w, before, after := Watched(s, init, p), Run(s, init, p).pos, Run(s, ticks, p).pos;
      if before.qty <= 0 then w
      else
        var from := if after.firstTargetDone && !before.firstTargetDone then Watch(t.price, []) else w;
        if TrailsNow(p, after.firstTargetDone) && t.atr > 0.0 then from.(prices := from.prices + [t.price]) else from
  }

  /** The starting price or one of the prices since, and none of them further in profit. */
  predicate IsBest(side: Side, best: real, w: Watch) {
    && best in [w.start] + w.prices
    && forall x :: x in [w.start] + w.prices ==> if side.Buy? then x <= best else best <= x
  }

  lemma BestOnce(side: Side, a: real, b: real, w: Watch)
    requires IsBest(side, a, w) && IsBest(side, b, w)
    ensures a == b
  {
  }

  lemma BestSnoc(side: Side, best: real, w: Watch, price: real)
    requires IsBest(side, best, w)
    ensures IsBest(side, if Reached(side, price, best) then price else best, w.(prices := w.prices + [price]))
  {
    assert [w.start] + (w.prices + [price]) == [w.start] + w.prices + [price];
  }

  /** The trail flag is up only for a style that trails by now, and is up for every such style after the first
      target. */
  predicate Flagged(s: Position, p: ExitParams) {
    && (s.trailActive ==> p.trailFromEntry || s.firstTargetDone)
    && (s.firstTargetDone ==> s.trailActive == (p.trailRemainder || p.trailFromEntry))
  }

  lemma TrailPeak(b: Position, price: real, atr: real, p: ExitParams)
    ensures var c := TrailStep(b, price, atr, p).pos;
            && c.peak == (if Trailing(b, atr, p) && Reached(b.side, price, b.peak) then price else b.peak)
            && c.trailActive == (b.trailActive || (c.trailActive && p.trailFromEntry))
            && (b.trailActive ==> c.trailActive)
  {
  }

  /** One call: the event starts the watch again, and a trail takes the better of peak and price. */
  lemma PeakStep(s: Position, t: Tick, p: ExitParams)
    requires s.qty > 0 && Flagged(s, p)
    ensures var x := Step(s, t, p).pos;
            var from := if x.firstTargetDone && !s.firstTargetDone then t.price else s.peak;
            && Flagged(x, p) && x.side == s.side && x.entry == s.entry
            && x.peak == if TrailsNow(p, x.firstTargetDone) && t.atr > 0.0 && Reached(s.side, t.price, from)
                         then t.price else from
  {
    var a := FirstTargetEvent(s, t.price, p).pos;
    var b := LockStep(a, t.price, t.atr, p).pos;
    EventPeak(s, t.price, p);
    LockTightens(a, t.price, t.atr, p);
    LockPeak(a, t.price, t.atr, p);
    TrailPeak(b, t.price, t.atr, p);
    TrailTightens(b, t.price, t.atr, p);
    StepLeaves(s, t, p);
    hide FirstTargetEvent, LockStep, TrailStep, Step;
  }

  lemma EventPeak(s: Position, price: real, p: ExitParams)
    ensures var a := FirstTargetEvent(s, price, p).pos;
            && a.side == s.side && a.entry == s.entry
            && (if a.firstTargetDone && !s.firstTargetDone
                then a.peak == price && a.trailActive == (p.trailRemainder || p.trailFromEntry)
                else a.peak == s.peak && a.trailActive == s.trailActive && a.firstTargetDone == s.firstTargetDone)
  {
    hide EventStop, RunnerTarget, PartialQty;
  }

  lemma LockPeak(s: Position, price: real, atr: real, p: ExitParams)
    ensures var b := LockStep(s, price, atr, p).pos; b.peak == s.peak && b.trailActive == s.trailActive
  {
    hide Ratcheted, LockTrigger;
  }

  lemma RunSnoc(s: Position, ticks: seq<Tick>, p: ExitParams)
    requires ticks != []
    ensures var m := Run(s, ticks[..|ticks| - 1], p);
            var x := Step(m.pos, ticks[|ticks| - 1], p);
            Run(s, ticks, p) == Outcome(x.pos, m.actions + x.actions)
  {
    var init, t := ticks[..|ticks| - 1], ticks[|ticks| - 1];
    hide Run, Step;
    RunConcat(s, init, [t], p);
    RunOne(Run(s, init, p).pos, t, p);
    assert ticks == init + [t];
  }

  /** Over every life from entry, the peak is the best of what the trail has looked at. */
  lemma {:induction false} PeakIsBest(s: Position, ticks: seq<Tick>, p: ExitParams)
    requires Started(s) && s.peak == s.entry
    ensures var x := Run(s, ticks, p).pos;
            IsBest(s.side, x.peak, Watched(s, ticks, p)) && Flagged(x, p) && x.side == s.side && x.entry == s.entry
    decreases |ticks|
  {
    if ticks != [] {
      var init, t := ticks[..|ticks| - 1], ticks[|ticks| - 1];
      PeakIsBest(s, init, p);
      RunSnoc(s, ticks, p);
      var m, w := Run(s, init, p).pos, Watched(s, init, p);
      hide Run, Step, Flagged, TrailsNow, Reached, IsBest, Started;
      if m.qty <= 0 {
        ClosedStepIsInert(m, t, p);
      } else {
        PeakStep(m, t, p);
        var x := Step(m, t, p).pos;
        FreshWatch(s.side, t.price);
        if x.firstTargetDone && !m.firstTargetDone {
          BestSnoc(s.side, t.price, Watch(t.price, []), t.price);
        } else {
          BestSnoc(s.side, m.peak, w, t.price);
        }
      }
    }
  }

  lemma FreshWatch(side: Side, price: real)
    ensures IsBest(side, price, Watch(price, []))
  {
  }

  /** The chandelier: over every life from entry, after a call that trails, the stop is at most half a tick
      short of the nearest of three: the best price seen less the ATR multiple, back to the grid; a tick behind
      the price; a tick short of the target.  A stop the trail moved is exactly there. */
  lemma TrailFollowsBest(s: Position, ticks: seq<Tick>, p: ExitParams, best: real, level: real)
    requires Started(s) && s.peak == s.entry && ticks != []
    requires var t := ticks[|ticks| - 1];
             && Run(s, ticks[..|ticks| - 1], p).pos.qty > 0
             && TrailsNow(p, Run(s, ticks, p).pos.firstTargetDone) && t.atr > 0.0
             && IsBest(s.side, best, Watched(s, ticks, p))
             && HangsFrom(s, level, best, t.atr, p)
    ensures var t, m, x := ticks[|ticks| - 1], Run(s, ticks[..|ticks| - 1], p).pos, Run(s, ticks, p).pos;
            var near := Nearest(s, Gain(s, level), Gain(s, t.price) - 1.0, x.target);
            && Gain(s, x.stop) >= near - 0.5
            && (forall y :: MoveStop(y, Trail) in Step(m, t, p).actions ==> y == x.stop && Gain(s, y) == near)
  {
    hide *;
    var init, t := ticks[..|ticks| - 1], ticks[|ticks| - 1];
    var m := Run(s, init, p).pos;
    RunSnoc(s, ticks, p);
    PeakIsBest(s, init, p);
    PeakIsBest(s, ticks, p);
    BestOnce(s.side, best, Run(s, ticks, p).pos.peak, Watched(s, ticks, p));
    TrailsIsFollows(m, t, p);
    SameGains(s, m, level, t, p);
    NearestSame(s, m, level, t, Run(s, ticks, p).pos.target);
    TrailHangs(m, t, p, level);
  }

  lemma NearestSame(s: Position, m: Position, level: real, t: Tick, target: Target)
    requires m.side == s.side && m.entry == s.entry
    ensures Nearest(m, Gain(m, level), Gain(m, t.price) - 1.0, target)
            == Nearest(s, Gain(s, level), Gain(s, t.price) - 1.0, target)
  {
  }

  lemma TrailsIsFollows(m: Position, t: Tick, p: ExitParams)
    requires m.qty > 0 && Flagged(m, p) && TrailsNow(p, Step(m, t, p).pos.firstTargetDone) && t.atr > 0.0
    ensures Follows(m, t, p)
  {
    hide Step;
    PeakStep(m, t, p);
  }
}

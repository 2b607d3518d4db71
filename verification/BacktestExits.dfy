/** When and how a backtest's positions open and close: the machine's exits, the time exit, the square-off
    and the entries, bar by bar over every run. */
module BacktestExits {
  import opened Common
  import opened ExitManager
  import opened ExitLevels
  import opened Backtester
  import opened BacktestProofs

  // ------------------------------------------------------------- one bar's actions

  /** What the machine does with a held position on a bar, at the previous bar's ATR if there is one. */
  function Acts(h: Held, x: BarInput, c: Config): Outcome {
    StepBar(h.st, x.bar, if x.prevAtr > 0.0 then x.prevAtr else 0.0, c.exits)
  }

  /** The row of one leg of this position, closed on this bar. */
  predicate LegRow(t: Trade, h: Held, i: int, qty: int, price: real, why: Why) {
    && t.positionId == h.id && t.side == h.side && t.entry == h.entry && t.exitBar == i
    && t.qty == qty && t.exit == price && t.why == why
  }

  predicate PartialRow(t: Trade, h: Held, i: int, actions: seq<Action>) {
    exists k :: 0 <= k < |actions| && actions[k].Partial?
                && LegRow(t, h, i, actions[k].qty, actions[k].price, ByMachine(actions[k].why))
  }

  predicate Grows(old_: seq<Trade>, new_: seq<Trade>, h: Held, i: int, actions: seq<Action>) {
    && |new_| == |old_| + PartialCount(actions) && new_[..|old_|] == old_
    && forall r :: |old_| <= r < |new_| ==> PartialRow(new_[r], h, i, actions)
  }

  predicate SameHeld(h: Held, h': Held) {
    h'.id == h.id && h'.side == h.side && h'.entry == h.entry && h'.st == h.st && h'.bar == h.bar
  }

  lemma PartialRowLater(t: Trade, h: Held, i: int, init: seq<Action>, last: Action)
    requires PartialRow(t, h, i, init)
    ensures PartialRow(t, h, i, init + [last])
  {
    var k :| 0 <= k < |init| && init[k].Partial?
             && LegRow(t, h, i, init[k].qty, init[k].price, ByMachine(init[k].why));
    assert (init + [last])[k] == init[k];
  }

  lemma CountSnoc(init: seq<Action>, last: Action)
    ensures PartialCount(init + [last]) == PartialCount(init) + if last.Partial? then 1 else 0
    ensures PartialsOf(init + [last]) == PartialsOf(init) + if last.Partial? then last.qty else 0
  {
    assert (init + [last])[..|init|] == init;
  }

  lemma PartialBooks(b: Book, h: Held, qty: int, price: real, why: Reason, i: int, c: Config)
    requires b.position.Some? && SameHeld(h, b.position.value) && qty > 0
    ensures var b' := TakePartial(b, qty, price, why, i, c);
            && |b'.trades| == |b.trades| + 1 && b'.trades[..|b.trades|] == b.trades
            && LegRow(b'.trades[|b.trades|], h, i, qty, price, ByMachine(why))
            && SameHeld(h, b'.position.value) && b'.position.value.qty == b.position.value.qty - qty
  {
    hide LegPnl, LegCharge;
  }

  lemma ApplySnoc(b: Book, init: seq<Action>, last: Action, i: int, c: Config)
    requires b.position.Some?
    ensures var (m, before) := Apply(b, init, i, c);
            var h := m.position.value;
            Apply(b, init + [last], i, c)
            == match last
               case Partial(price, qty, why) => (TakePartial(m, qty, price, why, i, c), before)
               case MoveStop(stop, _) => (WithHeld(m, h.(stop := stop, target := h.st.target)), before)
               case Exit(price, _, why) => (m, Some((price, why)))
  {
    hide TakePartial, WithHeld;
    assert (init + [last])[..|init|] == init;
  }

  /** The remembered exit is some exit action's. */
  predicate ExitOf(exit: Option<(real, Reason)>, actions: seq<Action>) {
    && (exit.Some? <==> HasExit(actions))
    && (exit.Some? ==>
          exists k :: 0 <= k < |actions| && actions[k].Exit? && exit.value == (actions[k].price, actions[k].why))
  }

  lemma ExitSnoc(before: Option<(real, Reason)>, init: seq<Action>, last: Action)
    requires ExitOf(before, init)
    ensures ExitOf(if last.Exit? then Some((last.price, last.why)) else before, init + [last])
  {
    var all := init + [last];
    assert all[|init|] == last && forall k :: 0 <= k < |init| ==> all[k] == init[k];
    if HasExit(init) {
      var k :| 0 <= k < |init| && init[k].Exit?;
      assert all[k].Exit?;
    }
    if before.Some? {
      var k :| 0 <= k < |init| && init[k].Exit? && before.value == (init[k].price, init[k].why);
      assert all[k].Exit? && before.value == (all[k].price, all[k].why);
    }
  }

  lemma RowsSnoc(old_: seq<Trade>, m: seq<Trade>, new_: seq<Trade>, h: Held, i: int, init: seq<Action>, last: Action)
    requires Grows(old_, m, h, i, init)
    requires if last.Partial? then
               |new_| == |m| + 1 && new_[..|m|] == m
               && LegRow(new_[|m|], h, i, last.qty, last.price, ByMachine(last.why))
             else new_ == m
    ensures Grows(old_, new_, h, i, init + [last])
  {
    CountSnoc(init, last);
    hide PartialCount, PartialRow, LegRow;
    assert new_[..|old_|] == m[..|old_|];
    forall r | |old_| <= r < |m| ensures PartialRow(new_[r], h, i, init + [last]) {
      assert new_[r] == m[r];
      PartialRowLater(m[r], h, i, init, last);
    }
    if last.Partial? { PartialRowLast(new_[|m|], h, i, init + [last]); }
  }

  /** Carrying out a bar's actions: one row for each partial, each as the action says; the rest of the position
      unchanged but for its quantity; and an exit remembered as some exit action says. */
  lemma {:induction false} ApplyBooks(b: Book, actions: seq<Action>, i: int, c: Config)
    requires b.position.Some? && PositivePartials(actions)
    ensures var (b', exit) := Apply(b, actions, i, c);
            var h, h' := b.position.value, b'.position.value;
            && Grows(b.trades, b'.trades, h, i, actions)
            && SameHeld(h, h') && h'.qty == h.qty - PartialsOf(actions)
            && ExitOf(exit, actions)
    decreases |actions|
  {
    if actions == [] {
    } else {
      hide *;
      var init, last := actions[..|actions| - 1], actions[|actions| - 1];
      var h := b.position.value;
      assert actions == init + [last];
      PositiveParts(init, last);
      ApplyBooks(b, init, i, c);
      ApplySnoc(b, init, last, i, c);
      CountSnoc(init, last);
      var (m, before) := Apply(b, init, i, c);
      var b' := Apply(b, actions, i, c).0;
      ExitSnoc(before, init, last);
      if last.Partial? {
        PartialBooks(m, h, last.qty, last.price, last.why, i, c);
      } else if last.MoveStop? {
        MoveBooks(m, h, last.newStop);
      }
      RowsSnoc(b.trades, m.trades, b'.trades, h, i, init, last);
    }
  }

  lemma PositiveParts(init: seq<Action>, last: Action)
    requires PositivePartials(init + [last])
    ensures PositivePartials(init) && (last.Partial? ==> last.qty > 0)
  {
    var all := init + [last];
    assert all[|init|] == last && forall k :: 0 <= k < |init| ==> all[k] == init[k];
  }

  lemma MoveBooks(m: Book, h: Held, stop: real)
    requires m.position.Some? && SameHeld(h, m.position.value)
    ensures var was := m.position.value;
            var b' := WithHeld(m, was.(stop := stop, target := was.st.target));
            b'.trades == m.trades && SameHeld(h, b'.position.value) && b'.position.value.qty == was.qty
  {
  }

  lemma PartialRowLast(t: Trade, h: Held, i: int, actions: seq<Action>)
    requires actions != [] && actions[|actions| - 1].Partial?
    requires var a := actions[|actions| - 1]; LegRow(t, h, i, a.qty, a.price, ByMachine(a.why))
    ensures PartialRow(t, h, i, actions)
  {
  }

  // ------------------------------------------------------------- one bar

  predicate Due(h: Held, i: int, c: Config) { c.maxHoldBars > 0 && i - h.bar >= c.maxHoldBars }

  /** The row that closes a position on a bar: as an exit of the machine says, or else for time, or else for the
      end of the session, the last two at the close. */
  predicate ClosingRow(t: Trade, h: Held, i: int, x: BarInput, c: Config) {
    var acts := Acts(h, x, c).actions;
    var qty := h.qty - PartialsOf(acts);
    if HasExit(acts) then
      exists k :: 0 <= k < |acts| && acts[k].Exit? && LegRow(t, h, i, qty, acts[k].price, ByMachine(acts[k].why))
    else if Due(h, i, c) then LegRow(t, h, i, qty, x.bar.close, TimeExit)
    else x.pastCutoff && LegRow(t, h, i, qty, x.bar.close, SquareOff)
  }

  /** The position closes on this bar. */
  predicate Closes(h: Held, i: int, x: BarInput, c: Config) {
    HasExit(Acts(h, x, c).actions) || Due(h, i, c) || x.pastCutoff
  }

  /** What a bar does to the rows of the position it manages. */
  predicate Managed(b: Book, trades: seq<Trade>, i: int, x: BarInput, c: Config)
    requires b.position.Some?
  {
    var h := b.position.value;
    var acts := Acts(h, x, c).actions;
    var n := |b.trades| + PartialCount(acts);
    && |trades| == n + (if Closes(h, i, x, c) then 1 else 0)
    && trades[..|b.trades|] == b.trades
    && (forall r :: |b.trades| <= r < n ==> PartialRow(trades[r], h, i, acts))
    && (Closes(h, i, x, c) ==> ClosingRow(trades[n], h, i, x, c))
  }

  lemma FinaliseBooks(b: Book, h: Held, price: real, why: Why, i: int, c: Config)
    requires b.position.Some? && SameHeld(h, b.position.value) && b.position.value.qty > 0
    ensures var b' := Finalise(b, price, why, i, c);
            && |b'.trades| == |b.trades| + 1 && b'.trades[..|b.trades|] == b.trades
            && LegRow(b'.trades[|b.trades|], h, i, b.position.value.qty, price, why)
            && b'.position.None? && b'.lastAction == Some(i)
  {
    hide LegPnl, LegCharge;
  }

  lemma HeldRows(h: Held, h': Held, i: int, old_: seq<Trade>, new_: seq<Trade>, actions: seq<Action>)
    requires h' == h.(st := h'.st)
    ensures forall t, qty, price, why :: LegRow(t, h', i, qty, price, why) <==> LegRow(t, h, i, qty, price, why)
    ensures Grows(old_, new_, h', i, actions) ==> Grows(old_, new_, h, i, actions)
  {
    hide PartialCount;
    assert forall t, qty, price, why :: LegRow(t, h', i, qty, price, why) <==> LegRow(t, h, i, qty, price, why);
    hide LegRow;
    forall r | |old_| <= r < |new_| && PartialRow(new_[r], h', i, actions) ensures PartialRow(new_[r], h, i, actions) {
    }
  }

  /** The rows so far and the closing one. */
  lemma ClosedManaged(b: Book, m: seq<Trade>, trades: seq<Trade>, i: int, x: BarInput, c: Config)
    requires b.position.Some?
    requires var h := b.position.value;
             && Grows(b.trades, m, h, i, Acts(h, x, c).actions) && Closes(h, i, x, c)
             && |trades| == |m| + 1 && trades[..|m|] == m && ClosingRow(trades[|m|], h, i, x, c)
    ensures Managed(b, trades, i, x, c)
  {
    hide Acts, Closes, ClosingRow, PartialRow, PartialCount;
    assert trades[..|b.trades|] == m[..|b.trades|];
    assert forall r :: 0 <= r < |m| ==> trades[r] == m[r];
  }

  lemma OpenManaged(b: Book, trades: seq<Trade>, i: int, x: BarInput, c: Config)
    requires b.position.Some?
    requires var h := b.position.value; Grows(b.trades, trades, h, i, Acts(h, x, c).actions) && !Closes(h, i, x, c)
    ensures Managed(b, trades, i, x, c)
  {
    hide Acts, Closes, PartialRow, PartialCount;
  }

  /** The book once the bar's actions are carried out, and the exit remembered. */
  function Carried(b: Book, i: int, x: BarInput, c: Config): (r: (Book, Option<(real, Reason)>))
    requires b.position.Some?
    ensures r.0.position.Some?
  {
    var o := Acts(b.position.value, x, c);
    Apply(b.(position := Some(b.position.value.(st := o.pos))), o.actions, i, c)
  }

  lemma ManageIs(b: Book, i: int, x: BarInput, c: Config)
    requires b.position.Some?
    ensures var h := b.position.value;
            var o := Acts(h, x, c);
            var (m, exit) := Carried(b, i, x, c);
            Manage(b, i, x, c)
            == if exit.Some? then Finalise(m, exit.value.0, ByMachine(exit.value.1), i, c)
               else if Due(h, i, c) then Finalise(m, x.bar.close, TimeExit, i, c)
               else if x.pastCutoff then Finalise(m, x.bar.close, SquareOff, i, c)
               else m
  {
    hide StepBar, Apply, Finalise;
  }

  /** The book once a bar's actions are carried out. */
  predicate Applied(b: Book, m: Book, x: BarInput, i: int, c: Config)
    requires b.position.Some?
  {
    var h := b.position.value;
    var o := Acts(h, x, c);
    && m.position.Some? && Grows(b.trades, m.trades, h, i, o.actions)
    && SameHeld(h.(st := o.pos), m.position.value) && m.position.value.qty == h.qty - PartialsOf(o.actions) > 0
    && m.lastAction == b.lastAction
  }

  lemma AppliedIs(b: Book, i: int, x: BarInput, c: Config)
    requires b.position.Some? && InStep(b) && b.position.value.st.qty > 0
    ensures var h := b.position.value;
            var o := Acts(h, x, c);
            var (m, exit) := Carried(b, i, x, c);
            Applied(b, m, x, i, c) && ExitOf(exit, o.actions)
  {
    var h := b.position.value;
    var o := Acts(h, x, c);
    var b0 := WithHeld(b, h.(st := o.pos));
    BarLeaves(h, x, c);
    ApplyBooks(b0, o.actions, i, c);
    ApplyKeepsAction(b0, o.actions, i, c);
    var m := Apply(b0, o.actions, i, c).0;
    HeldRows(h, b0.position.value, i, b.trades, m.trades, o.actions);
    hide Acts, Apply, Grows, ExitOf, PartialsOf;
  }

  /** What a bar leaves of a position it does not close: the machine's state, and the quantity less the bar's
      partials. */
  predicate Stays(h: Held, h': Held, x: BarInput, c: Config) {
    SameHeld(h.(st := Acts(h, x, c).pos), h') && h'.qty == h.qty - PartialsOf(Acts(h, x, c).actions)
  }

  /** The book after the position is managed. */
  predicate Handled(b: Book, b': Book, i: int, x: BarInput, c: Config) {
    && b.position.Some?
    && Managed(b, b'.trades, i, x, c)
    && (b'.position.None? <==> Closes(b.position.value, i, x, c))
    && (b'.position.None? ==> b'.lastAction == Some(i))
    && (b'.position.Some? ==>
          b'.lastAction == b.lastAction && Stays(b.position.value, b'.position.value, x, c))
  }

  /** What closing at a price for a reason leaves, when that is how the bar closes. */
  lemma CloseBooks(b: Book, m: Book, price: real, why: Why, i: int, x: BarInput, c: Config)
    requires b.position.Some? && Applied(b, m, x, i, c) && Closes(b.position.value, i, x, c)
    requires var h := b.position.value;
             var left := h.qty - PartialsOf(Acts(h, x, c).actions);
             forall t :: LegRow(t, h, i, left, price, why) ==> ClosingRow(t, h, i, x, c)
    ensures Handled(b, Finalise(m, price, why, i, c), i, x, c)
  {
    var h := b.position.value;
    FinaliseBooks(m, h.(st := Acts(h, x, c).pos), price, why, i, c);
    var b' := Finalise(m, price, why, i, c);
    hide Finalise, Acts, Closes, ClosingRow, Managed, Grows, PartialsOf;
    assert LegRow(b'.trades[|m.trades|], h, i, m.position.value.qty, price, why);
    ClosedManaged(b, m.trades, b'.trades, i, x, c);
  }

  lemma ClosingBy(h: Held, i: int, x: BarInput, c: Config, price: real, why: Why)
    requires var acts := Acts(h, x, c).actions;
             if HasExit(acts) then
               exists k :: 0 <= k < |acts| && acts[k].Exit? && price == acts[k].price && why == ByMachine(acts[k].why)
             else if Due(h, i, c) then price == x.bar.close && why == TimeExit
             else x.pastCutoff && price == x.bar.close && why == SquareOff
    ensures var left := h.qty - PartialsOf(Acts(h, x, c).actions);
            forall t :: LegRow(t, h, i, left, price, why) ==> ClosingRow(t, h, i, x, c)
  {
    hide Acts, HasExit, PartialsOf, LegRow, Due;
  }

  lemma ManageBooks(b: Book, i: int, x: BarInput, c: Config)
    requires b.position.Some? && InStep(b) && b.position.value.st.qty > 0
    ensures Handled(b, Manage(b, i, x, c), i, x, c)
  {
    hide *;
    var h := b.position.value;
    var acts := Acts(h, x, c).actions;
    var (m, exit) := Carried(b, i, x, c);
    AppliedIs(b, i, x, c);
    ManageIs(b, i, x, c);
    ClosesWhen(h, i, x, c);
    ExitKnownBy(exit, acts);
    if exit.Some? {
      ClosingBy(h, i, x, c, exit.value.0, ByMachine(exit.value.1));
      CloseBooks(b, m, exit.value.0, ByMachine(exit.value.1), i, x, c);
    } else if Due(h, i, c) {
      ClosingBy(h, i, x, c, x.bar.close, TimeExit);
      CloseBooks(b, m, x.bar.close, TimeExit, i, x, c);
    } else if x.pastCutoff {
      ClosingBy(h, i, x, c, x.bar.close, SquareOff);
      CloseBooks(b, m, x.bar.close, SquareOff, i, x, c);
    } else {
      AppliedStays(b, m, i, x, c);
    }
  }

  lemma ExitKnownBy(exit: Option<(real, Reason)>, actions: seq<Action>)
    requires ExitOf(exit, actions)
    ensures exit.Some? <==> HasExit(actions)
    ensures exit.Some? ==>
              exists k :: 0 <= k < |actions| && actions[k].Exit?
                          && exit.value.0 == actions[k].price && ByMachine(exit.value.1) == ByMachine(actions[k].why)
  {
  }

  lemma ClosesWhen(h: Held, i: int, x: BarInput, c: Config)
    ensures Closes(h, i, x, c) <==> HasExit(Acts(h, x, c).actions) || Due(h, i, c) || x.pastCutoff
  {
  }

  lemma AppliedStays(b: Book, m: Book, i: int, x: BarInput, c: Config)
    requires b.position.Some? && Applied(b, m, x, i, c) && !Closes(b.position.value, i, x, c)
    ensures Handled(b, m, i, x, c)
  {
    hide Acts, Closes, Managed, Grows, PartialsOf;
    OpenManaged(b, m.trades, i, x, c);
  }

  /** The partials of a bar leave something of the position. */
  lemma BarLeaves(h: Held, x: BarInput, c: Config)
    requires h.st.qty > 0 && h.st.qty == h.qty
    ensures PositivePartials(Acts(h, x, c).actions) && PartialsOf(Acts(h, x, c).actions) < h.qty
  {
    BarTakes(h.st, x.bar, if x.prevAtr > 0.0 then x.prevAtr else 0.0, c.exits);
  }

  lemma {:induction false} ApplyKeepsAction(b: Book, actions: seq<Action>, i: int, c: Config)
    requires b.position.Some?
    ensures var b' := Apply(b, actions, i, c).0; b'.lastAction == b.lastAction && b'.entries == b.entries
    decreases |actions|
  {
    if actions != [] { ApplyKeepsAction(b, actions[..|actions| - 1], i, c); }
  }

  // ------------------------------------------------------------- entries

  /** A flat book remembers the bar of its last row, on which it closed; a held one the bar it entered on. */
  predicate Remembers(b: Book) {
    b.lastAction == if b.position.Some? then Some(b.position.value.bar)
                    else if b.trades == [] then None
                    else Some(b.trades[|b.trades| - 1].exitBar)
  }

  function Distance(a: real, b: real): real { if a <= b then b - a else a - b }

  /** The signal's own levels and quantity, at risk from entry to stop, nothing done yet. */
  predicate HoldsSignal(b: Book, i: int, o: Order) {
    b.position == Some(Held(o.side, o.entry, o.stop, At(o.target), o.qty, i, |b.trades| + 1, 0,
                            Position(o.side, o.entry, o.qty, o.stop, At(o.target), Distance(o.entry, o.stop),
                                     false, false, false, o.entry, 0.0)))
  }

  /** The bar has a signal to take, and the last exit is a cooldown ago. */
  predicate TakesSignal(trades: seq<Trade>, i: int, x: BarInput, c: Config) {
    && x.allowed && !x.pastCutoff && x.signal.Some? && x.signal.value.qty > 0
    && (trades == [] || i - trades[|trades| - 1].exitBar >= c.cooldownBars)
  }

  /** The book has no position when the bar looks for an entry. */
  predicate FreeOn(b: Book, i: int, x: BarInput, c: Config) {
    b.position.None? || Closes(b.position.value, i, x, c)
  }

  /** One bar of a backtest: the position it held managed, and the signal taken or not. */
  predicate BarDone(b: Book, b': Book, i: int, x: BarInput, c: Config) {
    && (if b.position.Some? then Managed(b, b'.trades, i, x, c) else b'.trades == b.trades)
    && (if FreeOn(b, i, x, c) && TakesSignal(b'.trades, i, x, c) then
          HoldsSignal(b', i, x.signal.value)
          && b'.entries == b.entries + [Entry(|b'.trades| + 1, x.signal.value.qty, i)]
        else
          && b'.entries == b.entries
          && (FreeOn(b, i, x, c) ==> b'.position.None?)
          && (!FreeOn(b, i, x, c) ==>
                b'.position.Some? && Stays(b.position.value, b'.position.value, x, c)))
  }

  lemma ClosedLast(b: Book, trades: seq<Trade>, i: int, x: BarInput, c: Config)
    requires b.position.Some? && Managed(b, trades, i, x, c) && Closes(b.position.value, i, x, c)
    ensures trades != [] && trades[|trades| - 1].exitBar == i
  {
    hide Acts, HasExit, PartialsOf, PartialCount, Due;
  }

  lemma EnterDoes(m: Book, i: int, x: BarInput, c: Config)
    requires Remembers(m)
    ensures var b' := Enter(m, i, x, c);
            && b'.trades == m.trades
            && (if m.position.None? && TakesSignal(m.trades, i, x, c) then
                  HoldsSignal(b', i, x.signal.value)
                  && b'.entries == m.entries + [Entry(|m.trades| + 1, x.signal.value.qty, i)]
                else b' == m)
            && Remembers(b')
  {
  }

  lemma OnBarIs(b: Book, i: int, x: BarInput, c: Config)
    ensures var m := if b.position.Some? then Manage(b, i, x, c) else b;
            OnBar(b, i, x, c) == Enter(m, i, x, c)
  {
    hide Manage, Enter;
  }

  /** The book a bar looks for an entry with. */
  predicate Cleared(b: Book, m: Book, i: int, x: BarInput, c: Config) {
    && Remembers(m) && m.entries == b.entries
    && (if b.position.Some? then Managed(b, m.trades, i, x, c) else m.trades == b.trades)
    && (m.position.None? <==> FreeOn(b, i, x, c))
    && (m.position.Some? ==>
          b.position.Some? && Stays(b.position.value, m.position.value, x, c))
  }

  lemma ClearedIs(b: Book, m: Book, i: int, x: BarInput, c: Config)
    requires Handled(b, m, i, x, c) && m.entries == b.entries && Remembers(b)
    ensures Cleared(b, m, i, x, c)
  {
    hide Managed, Closes;
    if m.position.None? { ClosedLast(b, m.trades, i, x, c); }
  }

  lemma ManageClears(b: Book, i: int, x: BarInput, c: Config, initial: real)
    requires Inv(b, initial) && InStep(b) && b.position.Some? && Remembers(b)
    ensures Cleared(b, Manage(b, i, x, c), i, x, c)
  {
    hide *;
    HeldPositive(b, initial);
    ManageBooks(b, i, x, c);
    ManageKeeps(b, i, x, c, initial);
    ClearedIs(b, Manage(b, i, x, c), i, x, c);
  }

  lemma NothingToClear(b: Book, i: int, x: BarInput, c: Config)
    requires b.position.None? && Remembers(b)
    ensures Cleared(b, b, i, x, c)
  {
  }

  lemma EntersCleared(b: Book, m: Book, i: int, x: BarInput, c: Config)
    requires Cleared(b, m, i, x, c)
    ensures BarDone(b, Enter(m, i, x, c), i, x, c) && Remembers(Enter(m, i, x, c))
  {
    EnterDoes(m, i, x, c);
    hide Enter, Managed, FreeOn, TakesSignal, HoldsSignal, Remembers;
  }

  lemma BarDoes(b: Book, i: int, x: BarInput, c: Config, initial: real)
    requires Inv(b, initial) && InStep(b) && Remembers(b)
    ensures BarDone(b, OnBar(b, i, x, c), i, x, c) && Remembers(OnBar(b, i, x, c))
  {
    hide *;
    OnBarIs(b, i, x, c);
    if b.position.Some? {
      ManageClears(b, i, x, c, initial);
      EntersCleared(b, Manage(b, i, x, c), i, x, c);
    } else {
      NothingToClear(b, i, x, c);
      EntersCleared(b, b, i, x, c);
    }
  }

  lemma HeldPositive(b: Book, initial: real)
    requires Inv(b, initial) && InStep(b) && b.position.Some?
    ensures b.position.value.st.qty > 0
  {
    hide Conserves, Numbered, NetOf, LegsOf;
  }

  // ------------------------------------------------------------- every bar of a backtest

  lemma WalkSnoc(initial: real, bars: seq<BarInput>, warmup: int, c: Config)
    requires bars != []
    ensures var n := |bars| - 1;
            Walk(initial, bars, warmup, c) == OnBar(Walk(initial, bars[..n], warmup, c), warmup + n, bars[n], c)
  {
    hide OnBar;
  }

  lemma {:induction false} WalkRemembers(initial: real, bars: seq<BarInput>, warmup: int, c: Config)
    ensures Remembers(Walk(initial, bars, warmup, c))
    decreases |bars|
  {
    hide OnBar, Inv, InStep;
    if bars != [] {
      var n := |bars| - 1;
      WalkRemembers(initial, bars[..n], warmup, c);
      WalkIsConsistent(initial, bars[..n], warmup, c);
      hide Remembers;
      BarDoes(Walk(initial, bars[..n], warmup, c), warmup + n, bars[n], c, initial);
    }
  }

  /** Every bar of every backtest.  A position that was held gets a row for each partial, at its price, and a
      closing row exactly when the machine exits, the holding time is up or the session is over: in that order
      of precedence, at the machine's price and for its reason, or at the bar's close.  A signal is taken exactly
      when nothing is held by then, the bar is allowed one and the last exit is a cooldown ago, and then with the
      signal's levels. */
  lemma WalkBarExactly(initial: real, bars: seq<BarInput>, warmup: int, c: Config)
    requires bars != []
    ensures var n := |bars| - 1;
            BarDone(Walk(initial, bars[..n], warmup, c), Walk(initial, bars, warmup, c), warmup + n, bars[n], c)
  {
    hide *;
    var n := |bars| - 1;
    WalkSnoc(initial, bars, warmup, c);
    WalkRemembers(initial, bars[..n], warmup, c);
    WalkIsConsistent(initial, bars[..n], warmup, c);
    BarDoes(Walk(initial, bars[..n], warmup, c), warmup + n, bars[n], c, initial);
  }

  // ------------------------------------------------------------- the holding time

  /** The open position is the last one entered. */
  predicate HeldSince(b: Book) {
    b.position.Some? ==>
      && b.entries != []
      && b.entries[|b.entries| - 1].id == b.position.value.id
      && b.entries[|b.entries| - 1].bar == b.position.value.bar
  }

  lemma BarKeepsSince(b: Book, b': Book, i: int, x: BarInput, c: Config)
    requires HeldSince(b) && BarDone(b, b', i, x, c)
    ensures HeldSince(b')
    ensures b'.position.Some? && c.maxHoldBars > 0 ==> i - b'.position.value.bar < c.maxHoldBars
  {
    hide Managed, TakesSignal, Acts, HasExit;
  }

  lemma {:induction false} WalkHeldSince(initial: real, bars: seq<BarInput>, warmup: int, c: Config)
    ensures var b := Walk(initial, bars, warmup, c);
            && HeldSince(b)
            && (bars != [] && b.position.Some? && c.maxHoldBars > 0 ==>
                  warmup + |bars| - 1 - b.position.value.bar < c.maxHoldBars)
    decreases |bars|
  {
    hide *;
    if bars == [] {
      StartHeldSince(initial, warmup, c);
    } else {
      var n := |bars| - 1;
      WalkHeldSince(initial, bars[..n], warmup, c);
      WalkBarExactly(initial, bars, warmup, c);
      BarKeepsSince(Walk(initial, bars[..n], warmup, c), Walk(initial, bars, warmup, c), warmup + n, bars[n], c);
    }
  }

  lemma StartHeldSince(initial: real, warmup: int, c: Config)
    ensures Walk(initial, [], warmup, c) == Start(initial) && HeldSince(Start(initial))
  {
  }

  /** With a holding time set, no position is open after a bar that many bars past its entry. */
  lemma NothingHeldTooLong(initial: real, bars: seq<BarInput>, warmup: int, c: Config, k: nat)
    requires var b := Walk(initial, bars, warmup, c);
             && bars != [] && c.maxHoldBars > 0 && k < |b.entries|
             && warmup + |bars| - 1 - b.entries[k].bar >= c.maxHoldBars
    ensures var b := Walk(initial, bars, warmup, c); b.position.Some? ==> b.position.value.id != b.entries[k].id
  {
    var b := Walk(initial, bars, warmup, c);
    hide Walk, Inv;
    WalkHeldSince(initial, bars, warmup, c);
    WalkIsConsistent(initial, bars, warmup, c);
    IdsDiffer(b, initial, k);
  }

  lemma IdsDiffer(b: Book, initial: real, k: nat)
    requires Inv(b, initial) && k < |b.entries|
    ensures forall j :: k < j < |b.entries| ==> b.entries[j].id != b.entries[k].id
  {
    hide Numbered, NetOf, HeldOk, QtyOf, Remaining;
  }

  // ------------------------------------------------------------- every row of a backtest

  /** The bars from entry to this row, for the position the row is of. */
  predicate HeldFor(t: Trade, entries: seq<Entry>, bars: int) {
    exists k :: 0 <= k < |entries| && entries[k].id == t.positionId && t.exitBar - entries[k].bar == bars
  }

  /** The row is of a bar of the backtest, on which its position was held, and says why it was closed there. */
  ghost predicate Explained(t: Trade, initial: real, bars: seq<BarInput>, warmup: int, c: Config, entries: seq<Entry>) {
    var n := t.exitBar - warmup;
    && 0 <= n < |bars|
    && var b := Walk(initial, bars[..n], warmup, c);
       && b.position.Some? && b.position.value.id == t.positionId
       && HeldFor(t, entries, t.exitBar - b.position.value.bar)
       && (t.why == TimeExit ==>
             c.maxHoldBars > 0 && t.exitBar - b.position.value.bar >= c.maxHoldBars && t.exit == bars[n].bar.close)
       && (t.why == SquareOff ==>
             && bars[n].pastCutoff && t.exit == bars[n].bar.close
             && !(c.maxHoldBars > 0 && t.exitBar - b.position.value.bar >= c.maxHoldBars))
       && (t.why.ByMachine? ==>
             exists k :: 0 <= k < |Acts(b.position.value, bars[n], c).actions|
                         && FilledBy(t, Acts(b.position.value, bars[n], c).actions[k]))
  }

  /** The fill of a machine's action. */
  predicate FilledBy(t: Trade, a: Action) {
    !a.MoveStop? && t.exit == a.price && t.why == ByMachine(a.why)
  }

  lemma NewRowExplained(initial: real, bars: seq<BarInput>, warmup: int, c: Config, r: nat)
    requires bars != []
    requires var b, b' := Walk(initial, bars[..|bars| - 1], warmup, c), Walk(initial, bars, warmup, c);
             |b.trades| <= r < |b'.trades|
    ensures var b' := Walk(initial, bars, warmup, c);
            Explained(b'.trades[r], initial, bars, warmup, c, b'.entries)
  {
    hide *;
    var n := |bars| - 1;
    var b, b' := Walk(initial, bars[..n], warmup, c), Walk(initial, bars, warmup, c);
    WalkBarExactly(initial, bars, warmup, c);
    WalkHeldSince(initial, bars[..n], warmup, c);
    BarExtends(b, b', warmup + n, bars[n], c);
    NewRow(b, b', warmup + n, bars[n], c, r);
    var h, t := b.position.value, b'.trades[r];
    if ClosingRow(t, h, warmup + n, bars[n], c) {
      ClosingExplained(t, h, warmup + n, bars[n], c);
    } else {
      PartialExplained(t, h, warmup + n, Acts(h, bars[n], c).actions);
    }
    SinceHeld(b, b', t);
    DueIs(h, warmup + n, c);
    ExplainedIs(t, initial, bars, warmup, c, b'.entries);
  }

  lemma DueIs(h: Held, i: int, c: Config)
    ensures Due(h, i, c) <==> c.maxHoldBars > 0 && i - h.bar >= c.maxHoldBars
  {
  }

  lemma NewRow(b: Book, b': Book, i: int, x: BarInput, c: Config, r: nat)
    requires BarDone(b, b', i, x, c) && |b.trades| <= r < |b'.trades|
    ensures b.position.Some?
    ensures var h := b.position.value;
            ClosingRow(b'.trades[r], h, i, x, c) || PartialRow(b'.trades[r], h, i, Acts(h, x, c).actions)
  {
    hide Acts, TakesSignal, HoldsSignal, Closes, PartialCount, PartialRow, ClosingRow;
  }

  lemma SinceHeld(b: Book, b': Book, t: Trade)
    requires HeldSince(b) && b.position.Some? && t.positionId == b.position.value.id
    requires |b.entries| <= |b'.entries| && b'.entries[..|b.entries|] == b.entries
    ensures HeldFor(t, b'.entries, t.exitBar - b.position.value.bar)
  {
    var k := |b.entries| - 1;
    assert b'.entries[k] == b.entries[k];
  }

  lemma ExplainedIs(t: Trade, initial: real, bars: seq<BarInput>, warmup: int, c: Config, entries: seq<Entry>)
    requires bars != [] && t.exitBar == warmup + |bars| - 1
    requires var n := |bars| - 1;
             var b := Walk(initial, bars[..n], warmup, c);
             && b.position.Some? && b.position.value.id == t.positionId
             && HeldFor(t, entries, t.exitBar - b.position.value.bar)
             && (t.why == TimeExit ==>
                   && c.maxHoldBars > 0 && t.exitBar - b.position.value.bar >= c.maxHoldBars
                   && t.exit == bars[n].bar.close)
             && (t.why == SquareOff ==>
                   && bars[n].pastCutoff && t.exit == bars[n].bar.close
                   && !(c.maxHoldBars > 0 && t.exitBar - b.position.value.bar >= c.maxHoldBars))
             && (t.why.ByMachine? ==>
                   exists k :: 0 <= k < |Acts(b.position.value, bars[n], c).actions|
                               && FilledBy(t, Acts(b.position.value, bars[n], c).actions[k]))
    ensures Explained(t, initial, bars, warmup, c, entries)
  {
    hide Walk, Acts, FilledBy, HeldFor;
  }

  lemma ClosingExplained(t: Trade, h: Held, i: int, x: BarInput, c: Config)
    requires ClosingRow(t, h, i, x, c)
    ensures t.exitBar == i && t.positionId == h.id
    ensures t.why == TimeExit ==> Due(h, i, c) && t.exit == x.bar.close
    ensures t.why == SquareOff ==> x.pastCutoff && t.exit == x.bar.close && !Due(h, i, c)
    ensures t.why.ByMachine? ==>
              exists k :: 0 <= k < |Acts(h, x, c).actions| && FilledBy(t, Acts(h, x, c).actions[k])
  {
    hide Acts, HasExit, PartialsOf, Due;
  }

  lemma PartialExplained(t: Trade, h: Held, i: int, actions: seq<Action>)
    requires PartialRow(t, h, i, actions)
    ensures t.exitBar == i && t.positionId == h.id && t.why.ByMachine?
    ensures exists k :: 0 <= k < |actions| && FilledBy(t, actions[k])
  {
    var k :| 0 <= k < |actions| && actions[k].Partial?
             && LegRow(t, h, i, actions[k].qty, actions[k].price, ByMachine(actions[k].why));
    assert FilledBy(t, actions[k]);
  }

  lemma OldRowExplained(t: Trade, initial: real, bars: seq<BarInput>, warmup: int, c: Config,
                        old_: seq<Entry>, new_: seq<Entry>)
    requires bars != [] && Explained(t, initial, bars[..|bars| - 1], warmup, c, old_)
    requires |old_| <= |new_| && new_[..|old_|] == old_
    ensures Explained(t, initial, bars, warmup, c, new_)
  {
    var n := t.exitBar - warmup;
    hide Walk, Acts, FilledBy;
    assert bars[..|bars| - 1][..n] == bars[..n] && bars[..|bars| - 1][n] == bars[n];
    var held := t.exitBar - Walk(initial, bars[..n], warmup, c).position.value.bar;
    var k :| 0 <= k < |old_| && old_[k].id == t.positionId && t.exitBar - old_[k].bar == held;
    assert new_[k] == old_[k];
  }

  /** Every row of every backtest: a time exit is of a position held at least the holding time, a square-off of a
      bar past the cutoff with no time exit due, both at the close of their bar; any other has price and reason
      from a fill of the machine on that bar, with the position in the state the earlier bars left it in. */
  lemma {:induction false} WalkRowsExplained(initial: real, bars: seq<BarInput>, warmup: int, c: Config, r: nat)
    requires r < |Walk(initial, bars, warmup, c).trades|
    ensures var b := Walk(initial, bars, warmup, c); Explained(b.trades[r], initial, bars, warmup, c, b.entries)
    decreases |bars|
  {
    hide *;
    if bars == [] {
      StartHasNoRows(initial, warmup, c);
    } else {
      var n := |bars| - 1;
      var b, b' := Walk(initial, bars[..n], warmup, c), Walk(initial, bars, warmup, c);
      WalkBarExactly(initial, bars, warmup, c);
      BarExtends(b, b', warmup + n, bars[n], c);
      if r < |b.trades| {
        assert b'.trades[r] == b.trades[r];
        WalkRowsExplained(initial, bars[..n], warmup, c, r);
        OldRowExplained(b'.trades[r], initial, bars, warmup, c, b.entries, b'.entries);
      } else {
        NewRowExplained(initial, bars, warmup, c, r);
      }
    }
  }

  lemma StartHasNoRows(initial: real, warmup: int, c: Config)
    ensures Walk(initial, [], warmup, c).trades == []
  {
  }

  lemma BarExtends(b: Book, b': Book, i: int, x: BarInput, c: Config)
    requires BarDone(b, b', i, x, c)
    ensures |b.trades| <= |b'.trades| && b'.trades[..|b.trades|] == b.trades
    ensures |b.entries| <= |b'.entries| && b'.entries[..|b.entries|] == b.entries
  {
    hide Acts, TakesSignal, HoldsSignal, Closes, PartialCount, PartialRow, ClosingRow;
  }

  // ------------------------------------------------------------- the record beside the machine

  /** The open record shows the stop and the target the machine has in force. */
  predicate Mirrored(b: Book) {
    b.position.Some? ==>
      b.position.value.stop == b.position.value.st.stop && b.position.value.target == b.position.value.st.target
  }

  lemma {:induction false} ApplyRecords(b: Book, actions: seq<Action>, i: int, c: Config)
    requires b.position.Some?
    ensures var h, h' := b.position.value, Apply(b, actions, i, c).0.position.value;
            && h'.st == h.st && h'.stop == StopAfter(h.stop, actions)
            && h'.target == if HasMove(actions) then h.st.target else h.target
    decreases |actions|
  {
    if actions != [] {
      var init, last := actions[..|actions| - 1], actions[|actions| - 1];
      ApplyRecords(b, init, i, c);
      assert actions == init + [last];
      HasMoveConcat(init, [last]);
      assert HasMove([last]) <==> last.MoveStop? by { assert [last][0] == last; }
      hide HasMove, LegPnl, LegCharge;
    }
  }

  lemma ManageMirrors(b: Book, i: int, x: BarInput, c: Config)
    requires b.position.Some? && Mirrored(b)
    ensures Mirrored(Manage(b, i, x, c))
  {
    var h := b.position.value;
    var atr := if x.prevAtr > 0.0 then x.prevAtr else 0.0;
    BarPath(h.st, x.bar, atr, c.exits);
    MovesTellTheStop(h.st, (if h.st.side == Buy then [Tick(x.bar.low, atr), Tick(x.bar.high, atr)]
                            else [Tick(x.bar.high, atr), Tick(x.bar.low, atr)]) + [Tick(x.bar.close, atr)], c.exits);
    ApplyRecords(b.(position := Some(h.(st := Acts(h, x, c).pos))), Acts(h, x, c).actions, i, c);
    ManageIs(b, i, x, c);
    hide Manage, StepBar, Apply, BookLeg, StopAfter, HasMove, Run;
  }

  /** In every backtest the record of the open position shows the machine's stop and target. */
  lemma {:induction false} WalkMirrors(initial: real, bars: seq<BarInput>, warmup: int, c: Config)
    ensures Mirrored(Walk(initial, bars, warmup, c))
    decreases |bars|
  {
    hide Manage;
    if bars != [] {
      var n := |bars| - 1;
      var b := Walk(initial, bars[..n], warmup, c);
      WalkMirrors(initial, bars[..n], warmup, c);
      if b.position.Some? { ManageMirrors(b, warmup + n, bars[n], c); }
    }
  }
}

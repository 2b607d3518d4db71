/** The walk-forward loop of run_backtest (backtester.py): bars drive the exit machine, exit legs
    become trade rows, and capital, cooldown and the session cutoff are kept along the way.

    The bar stream carries what the loop reads and does not compute: prices, the previous
    bar's ATR, whether the clock and the filters let the bar trade, and the sized signal. */
module Backtester {
  import opened Common
  import opened ExitManager
  import opened CostModel

  datatype Why = ByMachine(why: Reason) | TimeExit | SquareOff

  /** A sized signal: its quantity is whatever the sizing rules answered. */
  datatype Order = Order(side: Side, entry: real, stop: real, target: real, qty: int)

  datatype Config = Config(
    exits: ExitParams,
    cost: Option<CostModel>,
    multiplier: real,
    cooldownBars: int,
    maxHoldBars: int)

  datatype BarInput = BarInput(bar: Bar, prevAtr: real, pastCutoff: bool, allowed: bool, signal: Option<Order>)

  datatype Trade = Trade(
    positionId: int, leg: int, side: Side, entry: real, exit: real, qty: int,
    pnl: real, cost: real, riskDist: real, why: Why, exitBar: int)

  /** The open position's record; `st` is its exit state. */
  datatype Held = Held(side: Side, entry: real, stop: real, target: Target, qty: int, bar: int, id: int, leg: int,
                       st: Position)

  /** `entries` is the history of entries, kept for stating what each position owes. */
  datatype Entry = Entry(id: int, qty: int, bar: int)

  datatype Book = Book(
    capital: real, trades: seq<Trade>, position: Option<Held>, lastAction: Option<int>, entries: seq<Entry>)

  // ----------------------------------------------------------- specification

  function AbsDiff(a: real, b: real): real { if a >= b then a - b else b - a }

  function LegPnl(h: Held, qty: int, price: real, c: Config): real {
    (price - h.entry) * qty as real * (if h.side.Buy? then 1.0 else -1.0) * c.multiplier
  }

  function LegCharge(h: Held, qty: int, price: real, c: Config): real {
    match c.cost
    case None => 0.0
    case Some(m) => LegCost(m, h.leg + 1, h.entry, price, qty, c.multiplier)
  }

  function Row(h: Held, qty: int, price: real, why: Why, i: int, c: Config): Trade {
    Trade(h.id, h.leg + 1, h.side, h.entry, price, qty, LegPnl(h, qty, price, c), LegCharge(h, qty, price, c),
          h.st.riskDist, why, i)
  }

  /** One exit leg: a row, and its net profit into the capital. */
  function BookLeg(b: Book, qty: int, price: real, why: Why, i: int, c: Config): Book
    requires b.position.Some?
  {
    if qty <= 0 then b
    else
      var h := b.position.value;
      var row := Row(h, qty, price, why, i, c);
      b.(capital := b.capital + (row.pnl - row.cost),
         trades := b.trades + [row],
         position := Some(h.(leg := h.leg + 1)))
  }

  function WithHeld(b: Book, h: Held): Book { b.(position := Some(h)) }

  function TakePartial(b: Book, qty: int, price: real, why: Reason, i: int, c: Config): Book
    requires b.position.Some?
  {
    var b' := BookLeg(b, qty, price, ByMachine(why), i, c);
    WithHeld(b', b'.position.value.(qty := b'.position.value.qty - qty))
  }

  /** Carry out the machine's actions in order; an exit is only remembered. */
  function Apply(b: Book, actions: seq<Action>, i: int, c: Config): (Book, Option<(real, Reason)>)
    requires b.position.Some?
    ensures Apply(b, actions, i, c).0.position.Some?
    decreases |actions|
  {
    if actions == [] then (b, None)
    else
      var (b', x) := Apply(b, actions[..|actions| - 1], i, c);
      var h := b'.position.value;
      match actions[|actions| - 1]
      case Partial(price, qty, why) => (TakePartial(b', qty, price, why, i, c), x)
      case MoveStop(stop, _) => (WithHeld(b', h.(stop := stop, target := h.st.target)), x)
      case Exit(price, _, why) => (b', Some((price, why)))
  }

  function Finalise(b: Book, price: real, why: Why, i: int, c: Config): Book
    requires b.position.Some?
  {
    BookLeg(b, b.position.value.qty, price, why, i, c).(position := None, lastAction := Some(i))
  }

  function Usable(atr: real): real { if atr <= 0.0 then 0.0 else atr }

  /** Manage the open position through one bar: the machine, then the time exit, then the
      end-of-session square-off. */
  function Manage(b: Book, i: int, x: BarInput, c: Config): Book
    requires b.position.Some?
  {
    var h := b.position.value;
    var o := StepBar(h.st, x.bar, Usable(x.prevAtr), c.exits);
    var (b', exit) := Apply(WithHeld(b, h.(st := o.pos)), o.actions, i, c);
    if exit.Some? then Finalise(b', exit.value.0, ByMachine(exit.value.1), i, c)
    else if c.maxHoldBars > 0 && i - h.bar >= c.maxHoldBars then Finalise(b', x.bar.close, TimeExit, i, c)
    else if x.pastCutoff then Finalise(b', x.bar.close, SquareOff, i, c)
    else b'
  }

  predicate Cooling(b: Book, i: int, c: Config) {
    b.lastAction.Some? && i - b.lastAction.value < c.cooldownBars
  }

  predicate Opens(b: Book, i: int, x: BarInput, c: Config) {
    b.position.None? && !Cooling(b, i, c) && x.allowed && !x.pastCutoff && x.signal.Some? && x.signal.value.qty > 0
  }

  function NewState(o: Order): Position {
    Position(o.side, o.entry, o.qty, o.stop, At(o.target), AbsDiff(o.entry, o.stop), false, false, false, o.entry, 0.0)
  }

  function Enter(b: Book, i: int, x: BarInput, c: Config): Book {
    if !Opens(b, i, x, c) then b
    else
      var o := x.signal.value;
      var id := |b.trades| + 1;
      b.(position := Some(Held(o.side, o.entry, o.stop, At(o.target), o.qty, i, id, 0, NewState(o))),
         lastAction := Some(i),
         entries := b.entries + [Entry(id, o.qty, i)])
  }

  function AfterManage(b: Book, i: int, x: BarInput, c: Config): Book {
    if b.position.Some? then Manage(b, i, x, c) else b
  }

  function OnBar(b: Book, i: int, x: BarInput, c: Config): Book {
    Enter(AfterManage(b, i, x, c), i, x, c)
  }

  function Start(capital: real): Book { Book(capital, [], None, None, []) }

  /** The book after the bars `warmup ..`. */
  function Walk(capital: real, bars: seq<BarInput>, warmup: int, c: Config): Book
    decreases |bars|
  {
    if bars == [] then Start(capital)
    else OnBar(Walk(capital, bars[..|bars| - 1], warmup, c), warmup + |bars| - 1, bars[|bars| - 1], c)
  }

  // ------------------------------------------------------------ the loop itself

  class Backtest {
    const config: Config
    var capital: real
    var trades: seq<Trade>
    var position: Option<Held>
    var lastAction: Option<int>
    var equity: seq<real>
    var entries: seq<Entry>

    function View(): Book
      reads this
    {
      Book(capital, trades, position, lastAction, entries)
    }

    constructor (initial: real, c: Config)
      ensures View() == Start(initial) && config == c && equity == []
    {
      config := c;
      capital, trades, position, lastAction, equity, entries := initial, [], None, None, [], [];
    }

    method Leg(qty: int, price: real, why: Why, i: int) returns (net: real)
      requires position.Some?
      modifies this`trades, this`position
      ensures View() == BookLeg(old(View()), qty, price, why, i, config).(capital := old(capital))
      ensures old(capital) + net == BookLeg(old(View()), qty, price, why, i, config).capital
    {
      if qty <= 0 { return 0.0; }
      var h := position.value;
      var pnl := LegPnl(h, qty, price, config);
      var cost := 0.0;
      if config.cost.Some? { cost := RoundTripCost(config.cost.value, h.entry, price, qty, config.multiplier); }
      h := h.(leg := h.leg + 1);
      if h.leg > 1 && config.cost.Some? {
        cost := Max(cost - DuplicateEntryCharge(config.cost.value), 0.0);
      }
      trades := trades + [Trade(h.id, h.leg, h.side, h.entry, price, qty, pnl, cost, h.st.riskDist, why, i)];
      position := Some(h);
      net := pnl - cost;
    }

    method PartialLeg(qty: int, price: real, why: Reason, i: int)
      requires position.Some?
      modifies this
      ensures position.Some? && equity == old(equity)
      ensures View() == TakePartial(old(View()), qty, price, why, i, config)
    {
      hide Row, LegPnl, LegCharge;
      var net := Leg(qty, price, ByMachine(why), i);
      capital := capital + net;
      position := Some(position.value.(qty := position.value.qty - qty));
    }

    method ApplyActions(actions: seq<Action>, i: int) returns (exit: Option<(real, Reason)>)
      requires position.Some?
      modifies this
      ensures (View(), exit) == Apply(old(View()), actions, i, config) && equity == old(equity)
    {
      hide TakePartial;
      exit := None;
      for k := 0 to |actions|
        invariant position.Some? && equity == old(equity)
        invariant (View(), exit) == Apply(old(View()), actions[..k], i, config)
      {
        assert actions[..k + 1][..k] == actions[..k];
        match actions[k]
        case Partial(price, qty, why) =>
          PartialLeg(qty, price, why, i);
        case MoveStop(stop, _) =>
          position := Some(position.value.(stop := stop, target := position.value.st.target));
        case Exit(price, _, why) =>
          exit := Some((price, why));
      }
      assert actions[..|actions|] == actions;
    }

    method Close(price: real, why: Why, i: int)
      requires position.Some?
      modifies this
      ensures View() == Finalise(old(View()), price, why, i, config) && equity == old(equity)
    {
      hide Row, LegPnl, LegCharge;
      var net := Leg(position.value.qty, price, why, i);
      capital := capital + net;
      position := None;
      lastAction := Some(i);
    }

    method ManageOpen(i: int, x: BarInput)
      requires position.Some?
      modifies this
      ensures View() == Manage(old(View()), i, x, config) && equity == old(equity)
    {
      hide StepBar, Apply, Finalise;
      var h := position.value;
      var o := StepBar(h.st, x.bar, Usable(x.prevAtr), config.exits);
      position := Some(h.(st := o.pos));
      var byMachine := ApplyActions(o.actions, i);
      var exit: Option<(real, Why)> := None;
      if byMachine.Some? { exit := Some((byMachine.value.0, ByMachine(byMachine.value.1))); }
      if exit.None? && config.maxHoldBars > 0 && i - h.bar >= config.maxHoldBars {
        exit := Some((x.bar.close, TimeExit));
      }
      if exit.None? && x.pastCutoff {
        exit := Some((x.bar.close, SquareOff));
      }
      if exit.Some? { Close(exit.value.0, exit.value.1, i); }
    }

    method TakeBar(i: int, x: BarInput)
      modifies this
      ensures View() == OnBar(old(View()), i, x, config)
      ensures equity == old(equity) + [capital]
    {
      hide Manage;
      if position.Some? { ManageOpen(i, x); }
      var cooling := lastAction.Some? && i - lastAction.value < config.cooldownBars;
      if position.None? && !cooling && x.allowed && !x.pastCutoff {
        if x.signal.Some? && x.signal.value.qty > 0 {
          var o := x.signal.value;
          var id := |trades| + 1;
          position := Some(Held(o.side, o.entry, o.stop, At(o.target), o.qty, i, id, 0, NewState(o)));
          lastAction := Some(i);
          entries := entries + [Entry(id, o.qty, i)];
        }
      }
      equity := equity + [capital];
    }

    method Run(bars: seq<BarInput>, warmup: int)
      requires View() == Start(capital) && equity == []
      modifies this
      ensures View() == Walk(old(capital), bars, warmup, config)
      ensures |equity| == |bars|
      ensures forall k :: 0 <= k < |bars| ==> equity[k] == Walk(old(capital), bars[..k + 1], warmup, config).capital
    {
      hide OnBar;
      for k := 0 to |bars|
        invariant View() == Walk(old(capital), bars[..k], warmup, config)
        invariant |equity| == k
        invariant forall j :: 0 <= j < k ==> equity[j] == Walk(old(capital), bars[..j + 1], warmup, config).capital
      {
        assert bars[..k + 1][..k] == bars[..k];
        TakeBar(warmup + k, bars[k]);
      }
      assert bars[..|bars|] == bars;
    }
  }
}

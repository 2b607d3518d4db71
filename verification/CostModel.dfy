/** Indian transaction costs (cost_model.py): one round trip per exit leg, less the entry order
    that a second leg never placed. */
module CostModel {
  import opened Common

  datatype CostModel = CostModel(
    brokeragePerOrder: real,
    sttSellPct: real,
    exchangeTxnPct: real,
    gstPct: real,
    stampPct: real,
    sebiPct: real,
    slippageBps: real)

  predicate NonNegativeRates(c: CostModel) {
    && c.brokeragePerOrder >= 0.0 && c.sttSellPct >= 0.0 && c.exchangeTxnPct >= 0.0 && c.gstPct >= 0.0
    && c.stampPct >= 0.0 && c.sebiPct >= 0.0 && c.slippageBps >= 0.0
  }

  function RoundTripCost(c: CostModel, entry: real, exit: real, qty: int, multiplier: real): real {
    var buy := entry * qty as real * multiplier;
    var sell := exit * qty as real * multiplier;
    var total := buy + sell;
    var brokerage := c.brokeragePerOrder * 2.0;
    var stt := sell * (c.sttSellPct / 100.0);
    var exchangeTxn := total * (c.exchangeTxnPct / 100.0);
    var gst := (brokerage + exchangeTxn) * (c.gstPct / 100.0);
    var stamp := buy * (c.stampPct / 100.0);
    var sebi := total * (c.sebiPct / 100.0);
    var slippage := total * (c.slippageBps / 10000.0);
    brokerage + stt + exchangeTxn + gst + stamp + sebi + slippage
  }

  function DuplicateEntryCharge(c: CostModel): real {
    c.brokeragePerOrder * (1.0 + c.gstPct / 100.0)
  }

  /** What the backtester charges the n-th exit leg of a position. */
  function LegCost(c: CostModel, leg: int, entry: real, exit: real, qty: int, multiplier: real): real {
    var cost := RoundTripCost(c, entry, exit, qty, multiplier);
    if leg > 1 then
      var less := cost - DuplicateEntryCharge(c);
      if less >= 0.0 then less else 0.0
    else cost
  }

  // -------------------------------------------------- an independent reference

  /** Flat cost of one order, with the tax on it. */
  function PerOrder(c: CostModel): real { c.brokeragePerOrder + c.brokeragePerOrder * c.gstPct / 100.0 }

  /** Cost per unit of turnover bought, and per unit sold. */
  function BuyRate(c: CostModel): real {
    c.exchangeTxnPct / 100.0 * (1.0 + c.gstPct / 100.0) + c.stampPct / 100.0 + c.sebiPct / 100.0
        + c.slippageBps / 10000.0
  }

  function SellRate(c: CostModel): real {
    c.exchangeTxnPct / 100.0 * (1.0 + c.gstPct / 100.0) + c.sttSellPct / 100.0 + c.sebiPct / 100.0
        + c.slippageBps / 10000.0
  }

  /** The price of a number of orders that bought and sold so much in all. */
  function Priced(c: CostModel, orders: int, bought: real, sold: real): real {
    orders as real * PerOrder(c) + bought * BuyRate(c) + sold * SellRate(c)
  }

  function Turnover(price: real, qty: int, multiplier: real): real { price * qty as real * multiplier }

  /** Whatever the side, the entry is charged as what was bought and the exit as what was sold. */
  lemma RoundTripIsTwoOrders(c: CostModel, entry: real, exit: real, qty: int, multiplier: real)
    ensures RoundTripCost(c, entry, exit, qty, multiplier)
            == Priced(c, 2, Turnover(entry, qty, multiplier), Turnover(exit, qty, multiplier))
  {
  }

  /** Buying and selling change places in the price when the stamp duty and the sell-side tax do. */
  lemma PricedSwaps(c: CostModel, orders: int, x: real, y: real)
    ensures Priced(c, orders, x, y) - Priced(c, orders, y, x) == (x - y) * ((c.stampPct - c.sttSellPct) / 100.0)
    ensures Priced(c, orders, x, y) == Priced(c, orders, y, x) <==> c.sttSellPct == c.stampPct || x == y
  {
    var d, r := x - y, (c.stampPct - c.sttSellPct) / 100.0;
    assert BuyRate(c) - SellRate(c) == r;
    hide BuyRate, SellRate, PerOrder;
    assert x * BuyRate(c) + y * SellRate(c) - (y * BuyRate(c) + x * SellRate(c)) == d * r;
    if d != 0.0 && r != 0.0 { assert d * r != 0.0; }
  }

  /** What a round trip bought, and what it sold. */
  function Bought(side: Side, entered: real, exited: real): real { if side.Buy? then entered else exited }

  function Sold(side: Side, entered: real, exited: real): real { if side.Buy? then exited else entered }

  /** A round trip is charged on its true sides if and only if it is long, or both sides are taxed
      alike, or it turned over the same on both. */
  lemma RoundTripExactly(c: CostModel, side: Side, entry: real, exit: real, qty: int, multiplier: real)
    ensures var entered, exited := Turnover(entry, qty, multiplier), Turnover(exit, qty, multiplier);
            RoundTripCost(c, entry, exit, qty, multiplier)
            == Priced(c, 2, Bought(side, entered, exited), Sold(side, entered, exited))
            <==> side.Buy? || c.sttSellPct == c.stampPct || entered == exited
  {
    RoundTripIsTwoOrders(c, entry, exit, qty, multiplier);
    PricedSwaps(c, 2, Turnover(entry, qty, multiplier), Turnover(exit, qty, multiplier));
    hide RoundTripCost, Priced, Turnover;
  }

  /** The shipped schedule. */
  const DEFAULT_RATES := CostModel(20.0, 0.025, 0.00325, 18.0, 0.003, 0.0001, 3.0)

  /** A short of 100 units from 100 to 110 is charged 0.22 too much: tax on the 11,000 it bought back
      and duty on the 10,000 it sold, instead of the other way round. */
  lemma ShortIsOvercharged()
    ensures RoundTripCost(DEFAULT_RATES, 100.0, 110.0, 100, 1.0)
            == Priced(DEFAULT_RATES, 2, Turnover(110.0, 100, 1.0), Turnover(100.0, 100, 1.0)) + 0.22
  {
  }

  /** Whatever the rates, a first leg is charged two orders and a later one what is left for one, but never less
      than nothing. */
  lemma LegCostExactly(c: CostModel, leg: int, entry: real, exit: real, qty: int, multiplier: real)
    ensures var one := Priced(c, 1, Turnover(entry, qty, multiplier), Turnover(exit, qty, multiplier));
            LegCost(c, leg, entry, exit, qty, multiplier)
            == if leg > 1 then (if one > 0.0 then one else 0.0)
               else Priced(c, 2, Turnover(entry, qty, multiplier), Turnover(exit, qty, multiplier))
  {
    hide RoundTripCost, Turnover, Priced, DuplicateEntryCharge;
    RoundTripIsTwoOrders(c, entry, exit, qty, multiplier);
    OneOrderLess(c, Turnover(entry, qty, multiplier), Turnover(exit, qty, multiplier));
  }

  lemma OneOrderLess(c: CostModel, bought: real, sold: real)
    ensures Priced(c, 2, bought, sold) - DuplicateEntryCharge(c) == Priced(c, 1, bought, sold)
  {
    assert DuplicateEntryCharge(c) == PerOrder(c);
    hide PerOrder, BuyRate, SellRate, DuplicateEntryCharge;
  }

  /** Each leg after the first adds exactly one order to what came before. */
  lemma LegCostIsPriced(c: CostModel, leg: int, entry: real, exit: real, qty: int, multiplier: real)
    requires NonNegativeRates(c) && entry >= 0.0 && exit >= 0.0 && qty >= 0 && multiplier >= 0.0 && leg >= 1
    ensures LegCost(c, leg, entry, exit, qty, multiplier)
            == Priced(c, if leg > 1 then 1 else 2, Turnover(entry, qty, multiplier), Turnover(exit, qty, multiplier))
  {
  }

  /** Pricing is additive in orders and turnover. */
  lemma PricedAdds(c: CostModel, m: int, n: int, b1: real, b2: real, s1: real, s2: real)
    ensures Priced(c, m, b1, s1) + Priced(c, n, b2, s2) == Priced(c, m + n, b1 + b2, s1 + s2)
  {
  }
}

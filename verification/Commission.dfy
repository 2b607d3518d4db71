/** Weekly profit-share invoices (commission.py), for one client: re-derived from the ledger while
    open, frozen once paid, priced at a rate that may change over time.

    Days are counted from a Monday, so week w is the days 7w .. 7w+6.  Money is in hundredths. */
module Commission {
  import opened Common
  import opened Money

  datatype Env = Live | Paper

  datatype Status = Due | Nil | Paid | Verified

  datatype Profit = Profit(profit: int, trades: nat)

  datatype Invoice = Invoice(
    week: int, env: Env, profit: int, trades: nat, pct: real, amount: int, status: Status)

  /** A client's percent and the first week billed; no week means not charged. */
  datatype Rate = Rate(pct: real, from: Option<int>)

  type Ledger = map<(Env, int), Profit>

  /** Statuses still tied to the ledger; the rest are frozen. */
  const OPEN: set<Status> := {Due, Nil}

  const MAX_PCT := 100.0

  function WeekOf(day: int): int { day / 7 }

  predicate IsOpen(s: Status) { s in OPEN }

  // ------------------------------------------------------------------- pricing

  function MaxInt(a: int, b: int): int { if a >= b then a else b }

  /** A hundred times the amount is the profit times the percent, to within half a hundredth of the
      amount and to the even hundredth from halfway; a loss owes nothing. */
  predicate IsShare(amount: int, profit: int, pct: real) {
    if profit <= 0 then amount == 0
    else
      var off := 100.0 * amount as real - profit as real * pct;
      -50.0 <= off <= 50.0 && (off == -50.0 || off == 50.0 ==> amount % 2 == 0)
  }

  /** A percent of the week's profit. */
  function CommissionFor(profit: int, pct: real): (amount: int)
    ensures IsShare(amount, profit, pct)
    ensures pct >= 0.0 ==> amount >= 0
  {
    var share := MaxInt(profit, 0) as real * pct / 100.0;
    assert pct >= 0.0 ==> share >= 0.0 by { if pct >= 0.0 { assert MaxInt(profit, 0) as real * pct >= 0.0; } }
    RoundHalfEven(share)
  }

  function DueIf(amount: int): Status { if amount > 0 then Due else Nil }

  function LedgerWeek(ledger: Ledger, env: Env, week: int): Profit {
    if (env, week) in ledger then ledger[(env, week)] else Profit(0, 0)
  }

  function NewInvoice(week: int, env: Env, rate: Rate, ledger: Ledger): Invoice {
    var p := LedgerWeek(ledger, env, week);
    var amount := CommissionFor(p.profit, rate.pct);
    Invoice(week, env, p.profit, p.trades, rate.pct, amount, DueIf(amount))
  }

  /** An open invoice re-derived from the ledger at its own percent; any other untouched. */
  function Rederived(inv: Invoice, ledger: Ledger): Invoice {
    if !IsOpen(inv.status) then inv
    else
      var p := LedgerWeek(ledger, inv.env, inv.week);
      var amount := CommissionFor(p.profit, inv.pct);
      inv.(profit := p.profit, trades := p.trades, amount := amount, status := DueIf(amount))
  }

  // --------------------------------------------------------------------- sync

  /** The rate charges this week at all. */
  predicate Bills(rate: Rate, week: int) { rate.pct > 0.0 && rate.from.Some? && rate.from.value <= week }

  function LastFinished(today: int): int { WeekOf(today) - 1 }

  /** The weeks from .. to - 1. */
  function Weeks(from: int, to: int): (r: set<int>)
    decreases to - from
    ensures forall w :: w in r <==> from <= w < to
  {
    if to <= from then {} else Weeks(from, to - 1) + {to - 1}
  }

  function BilledWeeks(rate: Rate, today: int): set<int> {
    if rate.from.Some? && rate.pct > 0.0 then Weeks(rate.from.value, LastFinished(today) + 1) else {}
  }

  type Invoices = map<int, Invoice>

  function Created(invoices: Invoices, rate: Rate, env: Env, ledger: Ledger, weeks: set<int>): Invoices {
    map w | w in invoices.Keys + weeks :: if w in invoices then invoices[w] else NewInvoice(w, env, rate, ledger)
  }

  function AllRederived(invoices: Invoices, ledger: Ledger): Invoices {
    map w | w in invoices :: Rederived(invoices[w], ledger)
  }

  function SyncInvoices(invoices: Invoices, rate: Rate, env: Env, ledger: Ledger, today: int): Invoices {
    AllRederived(Created(invoices, rate, env, ledger, BilledWeeks(rate, today)), ledger)
  }

  // ------------------------------------------------------------- the store

  class InvoiceBook {
    var invoices: Invoices

    constructor ()
      ensures invoices == map[]
    {
      invoices := map[];
    }

    /** Insert unless the week already has an invoice. */
    method Create(inv: Invoice)
      modifies this
      ensures invoices == if inv.week in old(invoices) then old(invoices) else old(invoices)[inv.week := inv]
    {
      if inv.week !in invoices { invoices := invoices[inv.week := inv]; }
    }

    /** Replace an invoice, but only while its status is one of `onlyIf`. */
    method Patch(week: int, to: Invoice, onlyIf: set<Status>) returns (done: bool)
      requires to.week == week
      modifies this
      ensures done <==> week in old(invoices) && old(invoices)[week].status in onlyIf
      ensures invoices == if done then old(invoices)[week := to] else old(invoices)
    {
      done := week in invoices && invoices[week].status in onlyIf;
      if done { invoices := invoices[week := to]; }
    }

    /** Create what is missing, then re-derive what is open. */
    method Sync(rate: Rate, env: Env, ledger: Ledger, today: int, shared: bool)
      requires forall w :: w in invoices ==> invoices[w].week == w
      modifies this
      ensures shared ==> invoices == SyncInvoices(old(invoices), rate, env, ledger, today)
      ensures !shared ==> invoices == old(invoices)
    {
      hide NewInvoice, Rederived;
      if !shared { return; }
      if rate.pct > 0.0 && rate.from.Some? {
        CreateMissing(rate, env, ledger, today);
      }
      assert invoices == Created(old(invoices), rate, env, ledger, BilledWeeks(rate, today));
      RederiveOpen(ledger);
    }

    method CreateMissing(rate: Rate, env: Env, ledger: Ledger, today: int)
      requires rate.pct > 0.0 && rate.from.Some?
      requires forall w :: w in invoices ==> invoices[w].week == w
      modifies this
      ensures invoices == Created(old(invoices), rate, env, ledger, BilledWeeks(rate, today))
      ensures forall w :: w in invoices ==> invoices[w].week == w
    {
      NewInvoiceWeek(env, rate, ledger);
      hide NewInvoice, Weeks;
      var week := rate.from.value;
      var existing := invoices;
      while week <= LastFinished(today)
        invariant rate.from.value <= week
        invariant week <= LastFinished(today) + 1 || week == rate.from.value
        invariant invoices == Created(old(invoices), rate, env, ledger, Weeks(rate.from.value, week))
        invariant forall w :: w in invoices ==> invoices[w].week == w
      {
        if week !in existing { Create(NewInvoice(week, env, rate, ledger)); }
        week := week + 1;
      }
      assert Weeks(rate.from.value, week) == BilledWeeks(rate, today);
    }

    method RederiveOne(week: int, ledger: Ledger)
      requires week in invoices && invoices[week].week == week
      modifies this
      ensures invoices == old(invoices)[week := Rederived(old(invoices)[week], ledger)]
    {
      var inv := invoices[week];
      if IsOpen(inv.status) {
        var updated := Rederived(inv, ledger);
        if updated != inv { var done := Patch(week, updated, OPEN); }
      }
    }

    method RederiveOpen(ledger: Ledger)
      requires forall w :: w in invoices ==> invoices[w].week == w
      modifies this
      ensures invoices == AllRederived(old(invoices), ledger)
    {
      hide Rederived;
      var todo := invoices.Keys;
      while todo != {}
        invariant todo <= invoices.Keys && invoices.Keys == old(invoices).Keys
        invariant forall w :: w in invoices ==>
                    invoices[w] == (if w in todo then old(invoices)[w] else Rederived(old(invoices)[w], ledger))
        decreases todo
      {
        var w := Pick(todo);
        todo := todo - {w};
        RederiveOne(w, ledger);
      }
      ghost var all := AllRederived(old(invoices), ledger);
      assert forall w :: w in invoices ==> w !in todo && invoices[w] == all[w];
    }

    /** The client says they have paid; only a due invoice can be marked. */
    method MarkPaid(week: int) returns (done: bool)
      requires forall w :: w in invoices ==> invoices[w].week == w
      modifies this
      ensures invoices == Marked(old(invoices), week, Paid, {Due})
      ensures done <==> week in old(invoices) && old(invoices)[week].status == Due
    {
      done := false;
      if week in invoices { done := Patch(week, invoices[week].(status := Paid), {Due}); }
    }

    /** The admin verifies a due or paid invoice, or reopens a paid or verified one. */
    method AdminSetStatus(week: int, status: Status) returns (done: bool)
      requires forall w :: w in invoices ==> invoices[w].week == w
      modifies this
      ensures invoices == AdminMarked(old(invoices), week, status)
      ensures done <==> week in old(invoices) &&
                        (var was := old(invoices)[week].status;
                         if status == Verified then was == Due || was == Paid
                         else status == Due && (was == Paid || was == Verified))
    {
      done := false;
      if week in invoices {
        if status == Verified {
          done := Patch(week, invoices[week].(status := Verified), {Due, Paid});
        } else if status == Due {
          done := Patch(week, invoices[week].(status := Due), {Paid, Verified});
        }
      }
    }
  }

  lemma NewInvoiceWeek(env: Env, rate: Rate, ledger: Ledger)
    ensures forall w :: NewInvoice(w, env, rate, ledger).week == w
  {
  }

  function Marked(invoices: Invoices, week: int, to: Status, onlyIf: set<Status>): Invoices {
    if week in invoices && invoices[week].status in onlyIf
    then invoices[week := invoices[week].(status := to)]
    else invoices
  }

  function AdminMarked(invoices: Invoices, week: int, status: Status): Invoices {
    match status
    case Verified => Marked(invoices, week, Verified, {Due, Paid})
    case Due => Marked(invoices, week, Due, {Paid, Verified})
    case _ => invoices
  }

  // ------------------------------------------------------------------ one client

  /** Everything billing one client depends on. */
  datatype World = World(today: int, rate: Rate, env: Env, ledger: Ledger, invoices: Invoices)

  /** The first week billed as the admin typed it: blank, a day, or not a date. */
  datatype Effective = Blank | From(day: int) | NotADate

  datatype Step =
    | Advance(day: int)
    | LedgerChange(ledger: Ledger)
    | Settings(env: Env)
    | SyncStep(shared: bool)
    | SetRate(pct: real, effective: Effective, shared: bool)
    | MarkPaidStep(week: int)
    | AdminStep(week: int, status: Status)

  function Synced(w: World, shared: bool): World {
    if shared then w.(invoices := SyncInvoices(w.invoices, w.rate, w.env, w.ledger, w.today)) else w
  }

  function NewFrom(w: World, pct: real, effective: Effective): Option<int> {
    match effective
    case From(day) => Some(WeekOf(day))
    case _ => if pct > 0.0 && (w.rate.pct <= 0.0 || w.rate.from.None?) then Some(WeekOf(w.today)) else w.rate.from
  }

  /** Freeze what has finished at the old rate, then store the new one. */
  function RateSet(w: World, pct: real, effective: Effective, shared: bool): World {
    if !(0.0 <= pct <= MAX_PCT) then w
    else
      var w' := Synced(w, shared);
      if effective.NotADate? then w' else w'.(rate := Rate(pct, NewFrom(w, pct, effective)))
  }

  function Next(w: World, step: Step): World {
    match step
    case Advance(day) => if day >= w.today then w.(today := day) else w
    case LedgerChange(ledger) => w.(ledger := ledger)
    case Settings(env) => w.(env := env)
    case SyncStep(shared) => Synced(w, shared)
    case SetRate(pct, effective, shared) => RateSet(w, pct, effective, shared)
    case MarkPaidStep(week) => w.(invoices := Marked(w.invoices, week, Paid, {Due}))
    case AdminStep(week, status) => w.(invoices := AdminMarked(w.invoices, week, status))
  }

  function Exec(w: World, steps: seq<Step>): World
    decreases |steps|
  {
    if steps == [] then w else Next(Exec(w, steps[..|steps| - 1]), steps[|steps| - 1])
  }

  class Account {
    var rate: Rate
    const book: InvoiceBook

    constructor ()
      ensures rate == Rate(0.0, None) && fresh(book) && book.invoices == map[]
    {
      rate := Rate(0.0, None);
      book := new InvoiceBook();
    }

    method ChangeRate(pct: real, effective: Effective, today: int, env: Env, ledger: Ledger, shared: bool)
        returns (done: bool)
      requires forall w :: w in book.invoices ==> book.invoices[w].week == w
      modifies this, book
      ensures World(today, rate, env, ledger, book.invoices)
              == RateSet(World(today, old(rate), env, ledger, old(book.invoices)), pct, effective, shared)
      ensures done <==> 0.0 <= pct <= 100.0 && !effective.NotADate?
    {
      hide SyncInvoices;
      if !(0.0 <= pct <= MAX_PCT) { return false; }
      var was := rate;
      book.Sync(was, env, ledger, today, shared);
      var from: Option<int>;
      if effective.NotADate? {
        return false;
      } else if effective.From? {
        from := Some(WeekOf(effective.day));
      } else if pct > 0.0 && (was.pct <= 0.0 || was.from.None?) {
        from := Some(WeekOf(today));
      } else {
        from := was.from;
      }
      rate := Rate(pct, from);
      done := true;
    }
  }

  // ------------------------------------------------------- profit by user and week

  /** A stored trade as billing reads it; fields that do not parse are None. */
  datatype TradeRow = TradeRow(closed: bool, owner: Option<string>, day: Option<int>, pnl: Option<int>)

  function OwnerOf(r: TradeRow): string {
    match r.owner case None => "admin" case Some(u) => if u == "" then "admin" else u
  }

  predicate Counted(r: TradeRow) { r.closed && r.day.Some? && r.pnl.Some? }

  predicate CountedFor(r: TradeRow, user: string, week: int) {
    Counted(r) && OwnerOf(r) == user && WeekOf(r.day.value) == week
  }

  function ProfitOf(rows: seq<TradeRow>, user: string, week: int): Profit {
    if rows == [] then Profit(0, 0)
    else
      var p := ProfitOf(rows[..|rows| - 1], user, week);
      var r := rows[|rows| - 1];
      if CountedFor(r, user, week) then Profit(p.profit + r.pnl.value, p.trades + 1) else p
  }

  /** One pass over the trades; each (user, week) that has a counted row, and no other, gets the
      sum and the number of its rows. */
  method ProfitByUserWeek(rows: seq<TradeRow>) returns (out: map<(string, int), Profit>)
    ensures forall user, week :: (user, week) in out <==> ProfitOf(rows, user, week).trades > 0
    ensures forall user, week :: (user, week) in out ==> out[(user, week)] == ProfitOf(rows, user, week)
  {
    out := map[];
    for i := 0 to |rows|
      invariant forall user, week :: (user, week) in out <==> ProfitOf(rows[..i], user, week).trades > 0
      invariant forall user, week :: (user, week) in out ==> out[(user, week)] == ProfitOf(rows[..i], user, week)
      invariant forall user, week :: (user, week) !in out ==> ProfitOf(rows[..i], user, week) == Profit(0, 0)
    {
      var r := rows[i];
      assert rows[..i + 1][..i] == rows[..i];
      if Counted(r) {
        var key := (OwnerOf(r), WeekOf(r.day.value));
        var p := if key in out then out[key] else Profit(0, 0);
        out := out[key := Profit(p.profit + r.pnl.value, p.trades + 1)];
      }
    }
    assert rows[..|rows|] == rows;
  }
}

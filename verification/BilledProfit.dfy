/** What billing reads: a client's week, through the overlay of the synced days (commission.py,
    db_manager.py, broker_sync.py together). */
module BilledProfit {
  import opened Common
  import opened BrokerSync
  import opened BrokerTrips
  import opened BrokerOverlay
  import C = Commission
  import P = CommissionProofs

  /** Billing days are counted from a Monday, and 1970 began on a Thursday. */
  const MONDAY_SHIFT := 3

  function WeekOfDay(day: int): int { C.WeekOf(day + MONDAY_SHIFT) }

  function AsBilled(r: Row): C.TradeRow { C.TradeRow(r.closed, r.owner, Some(TradeDay(r) + MONDAY_SHIFT), Some(r.pnl)) }

  function Billed(rows: seq<Row>): seq<C.TradeRow> {
    if rows == [] then [] else Billed(rows[..|rows| - 1]) + [AsBilled(rows[|rows| - 1])]
  }

  function CoveredOf(r: Row): Covered { Covered(Owner(r), TradeDay(r), r.broker) }

  predicate InWeek(r: Row, user: string, week: int) { r.closed && Owner(r) == user && WeekOfDay(TradeDay(r)) == week }

  /** Overlay and billing read an empty owner as admin's. */
  predicate Owned(rows: seq<Row>) { forall i :: 0 <= i < |rows| ==> rows[i].owner != Some("") }

  // ------------------------------------------------------------- which trades count

  /** A closed trade with a profit, on a day of the week: Monday is day 7k of week k.  No owner, or an empty one,
      is admin. */
  predicate Bills(r: C.TradeRow, user: string, week: int) {
    && r.closed && r.pnl.Some? && r.day.Some? && 7 * week <= r.day.value <= 7 * week + 6
    && (if r.owner == None || r.owner == Some("") then user == "admin" else r.owner == Some(user))
  }

  function BilledSum(rows: seq<C.TradeRow>, user: string, week: int): int {
    if rows == [] then 0
    else
      var r := rows[|rows| - 1];
      BilledSum(rows[..|rows| - 1], user, week) + if Bills(r, user, week) then r.pnl.value else 0
  }

  function BilledCount(rows: seq<C.TradeRow>, user: string, week: int): nat {
    if rows == [] then 0
    else BilledCount(rows[..|rows| - 1], user, week) + if Bills(rows[|rows| - 1], user, week) then 1 else 0
  }

  lemma CountedIsBilled(r: C.TradeRow, user: string, week: int)
    ensures C.CountedFor(r, user, week) <==> Bills(r, user, week)
  {
  }

  /** A week's profit is the sum over exactly those trades, and its count their number. */
  lemma {:induction false} ProfitIsBilled(rows: seq<C.TradeRow>, user: string, week: int)
    ensures C.ProfitOf(rows, user, week) == C.Profit(BilledSum(rows, user, week), BilledCount(rows, user, week))
  {
    if rows != [] {
      ProfitIsBilled(rows[..|rows| - 1], user, week);
      CountedIsBilled(rows[|rows| - 1], user, week);
    }
  }

  // ------------------------------------------------------------- one week

  /** The synced accounts and days of a client's week, each once. */
  ghost predicate Enumerates(cs: seq<Covered>, syncs: map<Covered, Record>, user: string, week: int) {
    && (forall i, j :: 0 <= i < j < |cs| ==> cs[i] != cs[j])
    && (forall c :: c in cs <==> c in syncs && c.user == user && WeekOfDay(c.day) == week)
  }

  function SeenSum(rows: seq<Row>, cs: seq<Covered>): int {
    if cs == [] then 0 else SeenSum(rows, cs[..|cs| - 1]) + SeenTotal(rows, cs[|cs| - 1])
  }

  function LedgerSum(cs: seq<Covered>, syncs: map<Covered, Record>): int
    requires forall c :: c in cs ==> c in syncs
  {
    if cs == [] then 0 else LedgerSum(cs[..|cs| - 1], syncs) + syncs[cs[|cs| - 1]].ledgerTotal
  }

  /** Closed profit of the client's week on accounts and days never synced. */
  function OutsideTotal(rows: seq<Row>, syncs: map<Covered, Record>, user: string, week: int): int {
    if rows == [] then 0
    else
      var r := rows[|rows| - 1];
      OutsideTotal(rows[..|rows| - 1], syncs, user, week)
      + if InWeek(r, user, week) && CoveredOf(r) !in syncs then r.pnl else 0
  }

  /** A row counts for one enumerated day, or for none. */
  lemma {:induction false} SeenSumSnoc(rows: seq<Row>, cs: seq<Covered>)
    requires rows != [] && forall i, j :: 0 <= i < j < |cs| ==> cs[i] != cs[j]
    ensures var init, r := rows[..|rows| - 1], rows[|rows| - 1];
            SeenSum(rows, cs) == SeenSum(init, cs) + if r.closed && CoveredOf(r) in cs then r.pnl else 0
    decreases |cs|
  {
    if cs != [] {
      var n := |cs| - 1;
      SeenSumSnoc(rows, cs[..n]);
      assert cs == cs[..n] + [cs[n]];
    }
  }

  lemma {:induction false} NothingSeen(cs: seq<Covered>)
    ensures SeenSum([], cs) == 0
    decreases |cs|
  {
    if cs != [] { NothingSeen(cs[..|cs| - 1]); }
  }

  /** Billing's week is what is seen for its synced days, and the rest. */
  lemma {:induction false} ProfitSplits(rows: seq<Row>, cs: seq<Covered>, syncs: map<Covered, Record>, user: string,
                                        week: int)
    requires Enumerates(cs, syncs, user, week) && Owned(rows)
    ensures C.ProfitOf(Billed(rows), user, week).profit == SeenSum(rows, cs) + OutsideTotal(rows, syncs, user, week)
    decreases |rows|
  {
    hide SeenSum, DayOf, WeekOfDay;
    if rows == [] {
      NothingSeen(cs);
    } else {
      var init, r := rows[..|rows| - 1], rows[|rows| - 1];
      ProfitSplits(init, cs, syncs, user, week);
      SeenSumSnoc(rows, cs);
      BilledCounts(r, user, week);
      assert Billed(rows)[..|rows| - 1] == Billed(init) by { BilledLength(init); }
      BilledLength(rows);
    }
  }

  lemma {:induction false} BilledLength(rows: seq<Row>)
    ensures |Billed(rows)| == |rows|
  {
    if rows != [] { BilledLength(rows[..|rows| - 1]); }
  }

  lemma BilledCounts(r: Row, user: string, week: int)
    requires r.owner != Some("")
    ensures C.CountedFor(AsBilled(r), user, week) <==> InWeek(r, user, week)
  {
  }

  lemma OutsideSnoc(rows: seq<Row>, r: Row, syncs: map<Covered, Record>, user: string, week: int)
    ensures OutsideTotal(rows + [r], syncs, user, week)
            == OutsideTotal(rows, syncs, user, week)
               + if InWeek(r, user, week) && CoveredOf(r) !in syncs then r.pnl else 0
  {
    assert (rows + [r])[..|rows|] == rows;
  }

  lemma HiddenIsSynced(r: Row, syncs: map<Covered, Record>)
    ensures !Keeps(r, syncs) ==> CoveredOf(r) in syncs
  {
  }

  /** The overlay hides nothing of a day that was never synced. */
  lemma {:induction false} OutsideIsVisible(rows: seq<Row>, syncs: map<Covered, Record>, user: string, week: int)
    ensures OutsideTotal(Visible(rows, syncs), syncs, user, week) == OutsideTotal(rows, syncs, user, week)
    decreases |rows|
  {
    if rows != [] {
      var init, r := rows[..|rows| - 1], rows[|rows| - 1];
      var seen := Visible(init, syncs);
      assert seen + [] == seen && init + [r] == rows;
      hide OutsideTotal, InWeek, Keeps, CoveredOf;
      OutsideIsVisible(init, syncs, user, week);
      HiddenIsSynced(r, syncs);
      OutsideSnoc(init, r, syncs, user, week);
      OutsideSnoc(seen, r, syncs, user, week);
    } else {
      assert Visible(rows, syncs) == [];
    }
  }

  lemma {:induction false} OwnedWhenVisible(rows: seq<Row>, syncs: map<Covered, Record>)
    requires Owned(rows)
    ensures Owned(Visible(rows, syncs))
    decreases |rows|
  {
    hide Keeps;
    if rows != [] { OwnedWhenVisible(rows[..|rows| - 1], syncs); }
  }

  // ------------------------------------------------------------- the log's life

  /** What a reader sums for a synced day is what was recorded for it. */
  predicate Reads(s: Store, c: Covered)
    requires c in s.syncs
  {
    SeenTotal(Visible(s.rows, s.syncs), c) == s.syncs[c].ledgerTotal
  }

  /** Every synced day reads as recorded, and every broker row is of a synced day. */
  ghost predicate Agreed(s: Store) {
    && Filed(s.rows) && Owned(s.rows)
    && (forall i :: 0 <= i < |s.rows| && s.rows[i].source.Broker? ==> CoveredOf(s.rows[i]) in s.syncs)
    && (forall c :: c in s.syncs ==> Reads(s, c))
  }

  /** A day synced, a bot trade opened, a bot trade closed. */
  datatype LogStep =
    | SyncDay(c: Covered, fills: seq<Fill>, opening: map<Key, int>, mults: map<string, real>)
    | OpenTrade(row: Row)
    | CloseTrade(i: nat, pnl: int)

  predicate ClosesBot(s: Store, i: nat) { i < |s.rows| && s.rows[i].source.Bot? && !s.rows[i].closed }

  function Do(s: Store, step: LogStep, tickers: Tickers): Store {
    match step
    case SyncDay(c, fills, opening, mults) => Synced(s, c, fills, opening, mults, tickers)
    case OpenTrade(row) => s.(rows := s.rows + [row])
    case CloseTrade(i, pnl) =>
      if ClosesBot(s, i) then s.(rows := s.rows[i := s.rows[i].(closed := true, pnl := pnl)]) else s
  }

  /** The bot closes a trade, at a profit or a loss, of a ticker its day's sync left unresolved. */
  predicate Late(s: Store, i: nat, pnl: int) {
    && ClosesBot(s, i) && pnl != 0 && CoveredOf(s.rows[i]) in s.syncs
    && s.rows[i].ticker in s.syncs[CoveredOf(s.rows[i])].unresolved
  }

  /** A sync whose trips start at or after 05:30 IST, an open bot trade, a close before its day is synced
      or of a ticker the broker's rows stand for. */
  predicate Timely(s: Store, step: LogStep) {
    match step
    case SyncDay(c, fills, opening, mults) =>
      c.user != "" && forall t | t in RoundTrips(fills, opening, mults) :: AfterDawn(t, c.day)
    case OpenTrade(row) => row.source.Bot? && !row.closed && row.owner != Some("")
    case CloseTrade(i, pnl) => !Late(s, i, pnl)
  }

  /** What one row adds to what is seen for a day. */
  function Adds(r: Row, syncs: map<Covered, Record>, c: Covered): int {
    if Keeps(r, syncs) && CountsFor(r, c) then r.pnl else 0
  }

  lemma SeenSnoc(rows: seq<Row>, r: Row, syncs: map<Covered, Record>, c: Covered)
    ensures SeenTotal(Visible(rows + [r], syncs), c) == SeenTotal(Visible(rows, syncs), c) + Adds(r, syncs, c)
  {
    hide Visible, SeenTotal, Keeps, CountsFor;
    VisibleConcat(rows, [r], syncs);
    VisibleOne(r, syncs);
    SeenConcat(Visible(rows, syncs), Visible([r], syncs), c);
    SeenOne(r, c);
  }

  lemma {:induction false} SeenUpdate(rows: seq<Row>, i: nat, r: Row, syncs: map<Covered, Record>, c: Covered)
    requires i < |rows|
    ensures SeenTotal(Visible(rows[i := r], syncs), c)
            == SeenTotal(Visible(rows, syncs), c) - Adds(rows[i], syncs, c) + Adds(r, syncs, c)
    decreases |rows|
  {
    hide Visible, SeenTotal, Adds;
    var n := |rows| - 1;
    assert rows == rows[..n] + [rows[n]];
    SeenSnoc(rows[..n], rows[n], syncs, c);
    if i == n {
      assert rows[i := r] == rows[..n] + [r];
      SeenSnoc(rows[..n], r, syncs, c);
    } else {
      assert rows[i := r] == rows[..n][i := r] + [rows[n]];
      SeenUpdate(rows[..n], i, r, syncs, c);
      SeenSnoc(rows[..n][i := r], rows[n], syncs, c);
    }
  }

  /** After a timely sync every synced day, that one or another, reads as recorded. */
  lemma SyncReads(s: Store, step: LogStep, c: Covered, tickers: Tickers)
    requires step.SyncDay? && step.fills != [] && Timely(s, step) && Filed(s.rows)
    requires c == step.c || (c in s.syncs && Reads(s, c))
    ensures var s' := Do(s, step, tickers); c in s'.syncs && Reads(s', c)
  {
    if c == step.c {
      hide RoundTrips, WithoutDay, Visible, SeenTotal, UnresolvedKeys, KeysOf, AfterDawn, Docs, RecordOf;
      DayAgrees(s, c, step.fills, step.opening, step.mults, tickers);
    } else {
      hide Synced, RoundTrips, Visible, SeenTotal, AfterDawn;
      OtherSyncKeeps(s, c, step.c, step.fills, step.opening, step.mults, tickers);
    }
  }

  lemma SyncAgrees(s: Store, step: LogStep, tickers: Tickers)
    requires step.SyncDay? && Agreed(s) && Timely(s, step)
    ensures Agreed(Do(s, step, tickers))
  {
    if step.fills != [] {
      var s' := Do(s, step, tickers);
      assert s'.syncs.Keys == s.syncs.Keys + {step.c};
      SyncedRows(s, step, tickers);
      hide Do, Timely, Reads, CoveredOf, FiledOnDay;
      SyncFiles(s, step, tickers);
      forall c | c in s'.syncs ensures Reads(s', c) { SyncReads(s, step, c, tickers); }
    }
  }

  lemma SyncFiles(s: Store, step: LogStep, tickers: Tickers)
    requires step.SyncDay? && step.fills != [] && Timely(s, step) && Filed(s.rows)
    ensures Filed(Do(s, step, tickers).rows)
  {
    hide Synced, RoundTrips, Visible, SeenTotal, AfterDawn;
    DayAgrees(s, step.c, step.fills, step.opening, step.mults, tickers);
  }

  /** The rows after a sync: those of before, or filed under the day that was synced. */
  lemma SyncedRows(s: Store, step: LogStep, tickers: Tickers)
    requires step.SyncDay? && step.fills != [] && Timely(s, step) && Owned(s.rows)
    ensures var s' := Do(s, step, tickers);
            && Owned(s'.rows)
            && forall i :: 0 <= i < |s'.rows| ==> s'.rows[i] in s.rows || CoveredOf(s'.rows[i]) == step.c
  {
    hide RoundTrips, WithoutDay, KeptTotal, Total, UnresolvedKeys, KeysOf, DayOf, AfterDawn;
    var s', c := Do(s, step, tickers), step.c;
    var trips := RoundTrips(step.fills, step.opening, step.mults);
    var docs, kept := Docs(c, trips, tickers), WithoutDay(s.rows, c);
    WithoutIsOld(s.rows, c);
    forall i | 0 <= i < |docs| ensures CoveredOf(docs[i]) == c && docs[i].owner != Some("") {
      assert trips[i] in trips;
      DawnDay(trips[i], c.day);
    }
    forall i | 0 <= i < |s'.rows|
      ensures s'.rows[i].owner != Some("") && (s'.rows[i] in s.rows || CoveredOf(s'.rows[i]) == c)
    {
      if i < |kept| {
        assert s'.rows[i] == kept[i] && kept[i] in kept;
      } else {
        assert s'.rows[i] == docs[i - |kept|];
      }
    }
  }

  lemma {:induction false} WithoutIsOld(rows: seq<Row>, c: Covered)
    ensures forall r :: r in WithoutDay(rows, c) ==> r in rows
    decreases |rows|
  {
    if rows != [] { WithoutIsOld(rows[..|rows| - 1], c); }
  }

  /** An open row adds nothing to any day. */
  lemma OpenAgrees(s: Store, row: Row)
    requires Agreed(s) && row.source.Bot? && !row.closed && row.owner != Some("")
    ensures Agreed(s.(rows := s.rows + [row]))
  {
    hide Visible, SeenTotal;
    var s' := s.(rows := s.rows + [row]);
    forall c | c in s.syncs ensures Reads(s', c) {
      assert Reads(s, c);
      SeenSnoc(s.rows, row, s.syncs, c);
    }
  }

  /** What a close adds to a synced day. */
  lemma ClosedAdds(r: Row, pnl: int, syncs: map<Covered, Record>, c: Covered)
    requires r.source.Bot? && !r.closed && c in syncs
    ensures Adds(r, syncs, c) == 0
    ensures Adds(r.(closed := true, pnl := pnl), syncs, c)
            == if c == CoveredOf(r) && r.ticker in syncs[c].unresolved then pnl else 0
  {
  }

  /** A close leaves every synced day reading as recorded if and only if it is not late. */
  lemma CloseAgreesExactly(s: Store, i: nat, pnl: int, tickers: Tickers)
    requires Agreed(s)
    ensures Agreed(Do(s, CloseTrade(i, pnl), tickers)) <==> !Late(s, i, pnl)
  {
    if ClosesBot(s, i) {
      var r := s.rows[i].(closed := true, pnl := pnl);
      var s' := s.(rows := s.rows[i := r]);
      var mine := CoveredOf(s.rows[i]);
      assert CoveredOf(r) == mine && FiledOnDay(r);
      hide Visible, SeenTotal, Adds, CoveredOf, FiledOnDay;
      forall c | c in s.syncs
        ensures Reads(s', c) <==> !(c == mine && r.ticker in s.syncs[c].unresolved && pnl != 0)
      {
        assert Reads(s, c);
        ClosedAdds(s.rows[i], pnl, s.syncs, c);
        SeenUpdate(s.rows, i, r, s.syncs, c);
      }
      if Late(s, i, pnl) { assert mine in s'.syncs && !Reads(s', mine); }
    }
  }

  predicate AllTimely(s: Store, steps: seq<LogStep>, tickers: Tickers)
    decreases |steps|
  {
    steps == [] || (Timely(s, steps[0]) && AllTimely(Do(s, steps[0], tickers), steps[1..], tickers))
  }

  function Life(s: Store, steps: seq<LogStep>, tickers: Tickers): Store
    decreases |steps|
  {
    if steps == [] then s else Life(Do(s, steps[0], tickers), steps[1..], tickers)
  }

  lemma {:induction false} LifeAgrees(s: Store, steps: seq<LogStep>, tickers: Tickers)
    requires Agreed(s) && AllTimely(s, steps, tickers)
    ensures Agreed(Life(s, steps, tickers))
    decreases |steps|
  {
    hide Do, Agreed;
    if steps != [] {
      StepAgrees(s, steps[0], tickers);
      LifeAgrees(Do(s, steps[0], tickers), steps[1..], tickers);
    }
  }

  lemma StepAgrees(s: Store, step: LogStep, tickers: Tickers)
    requires Agreed(s) && Timely(s, step)
    ensures Agreed(Do(s, step, tickers))
  {
    hide Agreed;
    match step
    case SyncDay(_, _, _, _) => SyncAgrees(s, step, tickers);
    case OpenTrade(row) => OpenAgrees(s, row);
    case CloseTrade(i, pnl) => CloseAgreesExactly(s, i, pnl, tickers);
  }

  // ------------------------------------------------------------- what is invoiced

  lemma {:induction false} SeenIsLedger(s: Store, cs: seq<Covered>)
    requires Agreed(s) && forall c :: c in cs ==> c in s.syncs
    ensures SeenSum(Visible(s.rows, s.syncs), cs) == LedgerSum(cs, s.syncs)
    decreases |cs|
  {
    hide Visible, SeenTotal;
    if cs != [] {
      assert Reads(s, cs[|cs| - 1]);
      SeenIsLedger(s, cs[..|cs| - 1]);
    }
  }

  /** The rows of days never synced are the bot's own. */
  lemma OutsideIsBots(s: Store, r: Row)
    requires Agreed(s) && r in s.rows && CoveredOf(r) !in s.syncs
    ensures r.source.Bot?
  {
  }

  /** Over every life of the trade log: a client's week, as billing reads it through the overlay, is the
      recorded ledger totals of its synced days plus the closed rows of the days never synced. */
  lemma WeekIsLedgers(steps: seq<LogStep>, tickers: Tickers, cs: seq<Covered>, user: string, week: int)
    requires AllTimely(Store([], map[]), steps, tickers)
    requires Enumerates(cs, Life(Store([], map[]), steps, tickers).syncs, user, week)
    ensures var s := Life(Store([], map[]), steps, tickers);
            && C.ProfitOf(Billed(Visible(s.rows, s.syncs)), user, week).profit
               == LedgerSum(cs, s.syncs) + OutsideTotal(s.rows, s.syncs, user, week)
            && forall r :: r in s.rows && CoveredOf(r) !in s.syncs ==> r.source.Bot?
  {
    var empty := Store([], map[]);
    var s := Life(empty, steps, tickers);
    assert Agreed(empty);
    hide Life, AllTimely, Visible, SeenTotal, OutsideTotal, SeenSum;
    LifeAgrees(empty, steps, tickers);
    OutsideIsVisible(s.rows, s.syncs, user, week);
    OwnedWhenVisible(s.rows, s.syncs);
    ProfitSplits(Visible(s.rows, s.syncs), cs, s.syncs, user, week);
    SeenIsLedger(s, cs);
    forall r | r in s.rows && CoveredOf(r) !in s.syncs ensures r.source.Bot? { OutsideIsBots(s, r); }
  }

  /** The ledger billing works from, for one client on the live book. */
  ghost predicate ReadsOverlay(ledger: C.Ledger, s: Store, user: string) {
    forall week :: (if (C.Live, week) in ledger then ledger[(C.Live, week)] else C.Profit(0, 0))
                   == C.ProfitOf(Billed(Visible(s.rows, s.syncs)), user, week)
  }

  /** So, after a billing sync, every open invoice of the live book is for the ledger totals of its week's
      synced days and the bot's closed trades of the others, at its own percent. */
  lemma InvoicesAreLedgers(steps: seq<LogStep>, tickers: Tickers, cs: seq<Covered>, user: string,
                           invoices: C.Invoices, rate: C.Rate, ledger: C.Ledger, today: int, week: int)
    requires AllTimely(Store([], map[]), steps, tickers)
    requires Enumerates(cs, Life(Store([], map[]), steps, tickers).syncs, user, week)
    requires P.Filed(invoices) && ReadsOverlay(ledger, Life(Store([], map[]), steps, tickers), user)
    ensures var s := Life(Store([], map[]), steps, tickers);
            var after := C.SyncInvoices(invoices, rate, C.Live, ledger, today);
            week in after && C.IsOpen(after[week].status) && after[week].env == C.Live ==>
              var profit := LedgerSum(cs, s.syncs) + OutsideTotal(s.rows, s.syncs, user, week);
              after[week].profit == profit && C.IsShare(after[week].amount, profit, after[week].pct)
  {
    hide Life, AllTimely, Visible, SeenTotal, OutsideTotal, SeenSum, LedgerSum, C.SyncInvoices, C.IsShare;
    WeekIsLedgers(steps, tickers, cs, user, week);
    P.SyncBringsUpToDate(invoices, rate, C.Live, ledger, today);
    KeepsOwnWeek(invoices, rate, ledger, today, week);
  }

  lemma KeepsOwnWeek(invoices: C.Invoices, rate: C.Rate, ledger: C.Ledger, today: int, week: int)
    requires P.Filed(invoices)
    ensures var after := C.SyncInvoices(invoices, rate, C.Live, ledger, today);
            week in after ==> after[week].week == week
  {
    hide C.SyncInvoices;
    P.SyncBringsUpToDate(invoices, rate, C.Live, ledger, today);
  }
}

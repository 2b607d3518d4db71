/** What billing promises over every interleaving of clock, ledger, rate and payment steps. */
module CommissionProofs {
  import opened Common
  import opened Commission

  // ------------------------------------------------------------------- one sync

  /** An open invoice in agreement with the ledger, at its own percent. */
  predicate Settled(inv: Invoice, ledger: Ledger) {
    && Profit(inv.profit, inv.trades)
       == (if (inv.env, inv.week) in ledger then ledger[(inv.env, inv.week)] else Profit(0, 0))
    && IsShare(inv.amount, inv.profit, inv.pct)
    && (inv.status == Due <==> inv.amount > 0) && (inv.status == Nil <==> inv.amount <= 0)
  }

  /** Invoices are filed under their own week. */
  predicate Filed(invoices: Invoices) { forall w :: w in invoices ==> invoices[w].week == w }

  lemma RederivedSettled(inv: Invoice, ledger: Ledger)
    requires IsOpen(inv.status)
    ensures Settled(Rederived(inv, ledger), ledger) && IsOpen(Rederived(inv, ledger).status)
    ensures Rederived(Rederived(inv, ledger), ledger) == Rederived(inv, ledger)
  {
    hide CommissionFor;
  }

  lemma NewIsSettled(week: int, env: Env, rate: Rate, ledger: Ledger)
    ensures var inv := NewInvoice(week, env, rate, ledger);
            && IsOpen(inv.status) && inv.week == week && inv.pct == rate.pct && inv.env == env
            && Rederived(inv, ledger) == inv
  {
    hide CommissionFor;
  }

  /** After a sync there is exactly one invoice for each finished week the rate bills, in
      addition to those already there; every open invoice equals the commission on the
      ledger's profit at its own percent and is due exactly when that is positive; and every
      paid or verified one is as it was. */
  lemma SyncBringsUpToDate(invoices: Invoices, rate: Rate, env: Env, ledger: Ledger, today: int)
    requires Filed(invoices)
    ensures var after := SyncInvoices(invoices, rate, env, ledger, today);
            && Filed(after)
            && (forall w :: w in after <==> w in invoices || (Bills(rate, w) && w < WeekOf(today)))
            && (forall w :: w in after && IsOpen(after[w].status) ==> Settled(after[w], ledger))
            && (forall w :: w in invoices && !IsOpen(invoices[w].status) ==> after[w] == invoices[w])
            && (forall w :: w in invoices ==> after[w].pct == invoices[w].pct)
            && (forall w :: w in after && w !in invoices ==> after[w].pct == rate.pct)
  {
    hide Rederived, NewInvoice, Settled;
    var made := Created(invoices, rate, env, ledger, BilledWeeks(rate, today));
    var after := AllRederived(made, ledger);
    forall w | w in made
      ensures IsOpen(after[w].status) ==> Settled(after[w], ledger)
      ensures after[w].week == made[w].week && after[w].pct == made[w].pct
      ensures !IsOpen(made[w].status) ==> after[w] == made[w]
      ensures w !in invoices ==> after[w].pct == rate.pct && after[w].week == w
    {
      RederivedKeeps(made[w], ledger);
      if IsOpen(made[w].status) { RederivedSettled(made[w], ledger); }
      if w !in invoices { NewIsSettled(w, env, rate, ledger); }
    }
  }

  lemma RederivedKeeps(inv: Invoice, ledger: Ledger)
    ensures var r := Rederived(inv, ledger);
            && r.week == inv.week && r.pct == inv.pct && r.env == inv.env
            && (!IsOpen(inv.status) ==> r == inv)
            && (IsOpen(inv.status) <==> IsOpen(r.status))
  {
    hide CommissionFor;
  }

  /** For a fixed clock and ledger a second sync changes nothing. */
  lemma SyncIsIdempotent(invoices: Invoices, rate: Rate, env: Env, ledger: Ledger, today: int)
    ensures var after := SyncInvoices(invoices, rate, env, ledger, today);
            SyncInvoices(after, rate, env, ledger, today) == after
  {
    hide Rederived, NewInvoice, Weeks;
    var weeks := BilledWeeks(rate, today);
    var after := SyncInvoices(invoices, rate, env, ledger, today);
    assert Created(after, rate, env, ledger, weeks) == after;
    forall w | w in after ensures Rederived(after[w], ledger) == after[w] {
      var inv := if w in invoices then invoices[w] else NewInvoice(w, env, rate, ledger);
      RederivedKeeps(inv, ledger);
      if IsOpen(inv.status) { RederivedSettled(inv, ledger); }
    }
    var again := AllRederived(after, ledger);
    assert again.Keys == after.Keys;
    assert forall w :: w in after ==> again[w] == after[w];
  }

  // ------------------------------------------------------------- frozen invoices

  predicate IsSettled(s: Status) { s == Paid || s == Verified }

  /** The money on an invoice. */
  predicate SameMoney(a: Invoice, b: Invoice) {
    a.profit == b.profit && a.trades == b.trades && a.pct == b.pct && a.amount == b.amount && a.env == b.env
  }

  lemma StepKeepsSettled(w: World, step: Step, week: int)
    requires week in w.invoices && IsSettled(w.invoices[week].status)
    requires step != AdminStep(week, Due)
    ensures var w' := Next(w, step);
            && week in w'.invoices && IsSettled(w'.invoices[week].status)
            && SameMoney(w.invoices[week], w'.invoices[week])
  {
    hide NewInvoice, CommissionFor, Weeks;
  }

  /** While an invoice is paid or verified, nothing except an admin reopening that very invoice
      changes what it charges, whatever else happens to the ledger, the rate or the clock. */
  lemma {:induction false} SettledIsFrozen(w: World, steps: seq<Step>, week: int)
    requires week in w.invoices && IsSettled(w.invoices[week].status)
    requires AdminStep(week, Due) !in steps
    ensures var w' := Exec(w, steps);
            && week in w'.invoices && IsSettled(w'.invoices[week].status)
            && SameMoney(w.invoices[week], w'.invoices[week])
    decreases |steps|
  {
    hide Next;
    if steps != [] {
      var n := |steps| - 1;
      SettledIsFrozen(w, steps[..n], week);
      StepKeepsSettled(Exec(w, steps[..n]), steps[n], week);
    }
  }

  /** The five moves of a status and no other: the client's from due to paid; the admin's to verified from due or
      paid, and back to due from paid or verified.  The money stays as it was. */
  lemma MarksExactly(w: World, step: Step, week: int)
    requires week in w.invoices && (step == MarkPaidStep(week) || (step.AdminStep? && step.week == week))
    ensures var was, w' := w.invoices[week], Next(w, step);
            var to := if step.MarkPaidStep? then Paid else step.status;
            var allowed := match to
                           case Paid => step.MarkPaidStep? && was.status == Due
                           case Verified => was.status == Due || was.status == Paid
                           case Due => was.status == Paid || was.status == Verified
                           case Nil => false;
            w' == if allowed then w.(invoices := w.invoices[week := was.(status := to)]) else w
  {
  }

  /** An invoice becomes paid only by a client marking it while it is due. */
  lemma OnlyDueGetsPaid(w: World, step: Step, week: int)
    requires week in Next(w, step).invoices && Next(w, step).invoices[week].status == Paid
    ensures week in w.invoices
            && (w.invoices[week].status == Paid || (w.invoices[week].status == Due && step == MarkPaidStep(week)))
  {
    hide CommissionFor, Weeks;
  }

  // ----------------------------------------------------------------- one rate change

  /** The rate `r` bills this week, if at all, exactly as the rate `f` does. */
  predicate SameBill(r: Rate, f: Rate, week: int) {
    (Bills(r, week) <==> Bills(f, week)) && (Bills(r, week) ==> r.pct == f.pct)
  }

  /** The same weeks have invoices, at the same percents. */
  predicate SameBooks(a: Invoices, b: Invoices) { a.Keys == b.Keys && forall k :: k in a ==> a[k].pct == b[k].pct }

  /** A step that prices no finished week anew: it is no rate change, or one that is refused, or every
      finished week without an invoice is billed alike by the old and the new rate, or by the old one
      on a shared ledger, which invoices it first. */
  ghost predicate Harmless(w: World, step: Step) {
    step.SetRate? && 0.0 <= step.pct <= MAX_PCT && !step.effective.NotADate? ==>
      var r := Rate(step.pct, NewFrom(w, step.pct, step.effective));
      forall k :: k < WeekOf(w.today) && k !in w.invoices ==>
        SameBill(r, w.rate, k) || (step.shared && Bills(w.rate, k))
  }

  /** What a rate change makes of the weeks to bill.  A percent outside 0 to 100 changes nothing, an
      effective date that is none leaves the rate alone; otherwise a positive percent bills the week of
      the effective day and those after it, and without one either the weeks already billed, or, for a
      client not charged so far, the current week and those after it.  Switching off without a date keeps the
      start, and a date moves it even then. */
  lemma SetRateBills(w: World, pct: real, effective: Effective, shared: bool, week: int)
    ensures !(0.0 <= pct <= 100.0) ==> RateSet(w, pct, effective, shared) == w
    ensures 0.0 <= pct <= 100.0 && effective.NotADate? ==> RateSet(w, pct, effective, shared) == Synced(w, shared)
    ensures 0.0 <= pct <= 100.0 && !effective.NotADate? ==>
              var w' := RateSet(w, pct, effective, shared);
              && w' == Synced(w, shared).(rate := w'.rate) && w'.rate.pct == pct
              && (Bills(w'.rate, week) <==>
                    pct > 0.0 && match effective
                                 case From(day) => day < 7 * week + 7
                                 case Blank =>
                                   if exists k :: Bills(w.rate, k) then Bills(w.rate, week) else w.today < 7 * week + 7)
              && (pct == 0.0 && effective.Blank? ==> w'.rate.from == w.rate.from)
              && (effective.From? ==>
                    w'.rate.from.Some? && 7 * w'.rate.from.value <= effective.day < 7 * w'.rate.from.value + 7)
  {
    if w.rate.pct > 0.0 && w.rate.from.Some? { assert Bills(w.rate, w.rate.from.value); }
  }

  /** Rate changes made on the shared ledger and effective this week or later. */
  predicate Prospective(w: World, step: Step) {
    step.SetRate? ==>
      step.shared && (step.effective.From? ==> WeekOf(step.effective.day) >= WeekOf(w.today))
  }

  /** Those are harmless, whatever has been invoiced so far. */
  lemma ProspectiveIsHarmless(w: World, step: Step)
    requires Prospective(w, step)
    ensures Harmless(w, step)
  {
    hide WeekOf;
  }

  ghost predicate AllHarmless(w: World, steps: seq<Step>)
    decreases |steps|
  {
    steps == [] ||
    (AllHarmless(w, steps[..|steps| - 1]) && Harmless(Exec(w, steps[..|steps| - 1]), steps[|steps| - 1]))
  }

  /** The percent a book bills a week at, if at all. */
  function PctAt(invoices: Invoices, week: int): Option<real> {
    if week in invoices then Some(invoices[week].pct) else None
  }

  /** The same after a sync. */
  function PctAfter(w: World, week: int): Option<real> {
    if week in w.invoices then Some(w.invoices[week].pct)
    else if Bills(w.rate, week) && week < WeekOf(w.today) then Some(w.rate.pct)
    else None
  }

  lemma SyncedPct(w: World, shared: bool, week: int)
    requires Filed(w.invoices)
    ensures Filed(Synced(w, shared).invoices)
    ensures PctAt(Synced(w, shared).invoices, week) == if shared then PctAfter(w, week) else PctAt(w.invoices, week)
  {
    hide SyncInvoices, Settled, WeekOf;
    SyncBringsUpToDate(w.invoices, w.rate, w.env, w.ledger, w.today);
  }

  lemma SameBooksByWeek(a: Invoices, b: Invoices)
    ensures SameBooks(a, b) <==> forall k :: PctAt(a, k) == PctAt(b, k)
  {
    if forall k :: PctAt(a, k) == PctAt(b, k) {
      forall k ensures (k in a <==> k in b) && (k in a ==> a[k].pct == b[k].pct) { assert PctAt(a, k) == PctAt(b, k); }
    }
  }

  /** What a stored rate change does to one week's percent at the next sync. */
  lemma RateStepWeek(w: World, pct: real, effective: Effective, shared: bool, week: int)
    requires Filed(w.invoices) && 0.0 <= pct <= MAX_PCT && !effective.NotADate?
    ensures var r := Rate(pct, NewFrom(w, pct, effective));
            PctAt(Synced(RateSet(w, pct, effective, shared), true).invoices, week)
            == PctAt(Synced(w, true).invoices, week)
            <==> (week < WeekOf(w.today) && week !in w.invoices ==>
                  SameBill(r, w.rate, week) || (shared && Bills(w.rate, week)))
  {
    var a := RateSet(w, pct, effective, shared);
    SyncedFrame(w, shared);
    SyncedPct(w, shared, week);
    SyncedPct(w, true, week);
    SyncedPct(a, true, week);
    hide Synced, Bills, WeekOf, NewFrom;
    SameBillPct(Rate(pct, NewFrom(w, pct, effective)), w.rate, week);
  }

  /** Two rates bill a week alike exactly when they would put the same percent on its invoice. */
  lemma SameBillPct(r: Rate, f: Rate, week: int)
    ensures SameBill(r, f, week) <==>
            (if Bills(r, week) then Some(r.pct) else None) == (if Bills(f, week) then Some(f.pct) else None)
  {
  }

  /** One rate change, exactly: the books after the next sync are those it would have made without the
      change if and only if the change is harmless. */
  lemma RateStepExactly(w: World, pct: real, effective: Effective, shared: bool)
    requires Filed(w.invoices)
    ensures SameBooks(Synced(RateSet(w, pct, effective, shared), true).invoices, Synced(w, true).invoices)
            <==> Harmless(w, SetRate(pct, effective, shared))
  {
    var a := RateSet(w, pct, effective, shared);
    var x, y := Synced(a, true).invoices, Synced(w, true).invoices;
    if 0.0 <= pct <= MAX_PCT && !effective.NotADate? {
      hide Synced, RateSet, SameBooks, PctAt, SameBill, Bills, WeekOf, NewFrom;
      SameBooksByWeek(x, y);
      forall k
        ensures PctAt(x, k) == PctAt(y, k)
                <==> (k < WeekOf(w.today) && k !in w.invoices ==>
                        SameBill(Rate(pct, NewFrom(w, pct, effective)), w.rate, k) || (shared && Bills(w.rate, k)))
      {
        RateStepWeek(w, pct, effective, shared, k);
      }
    } else {
      RefusedChange(w, pct, effective, shared);
      hide Synced, RateSet;
    }
  }

  lemma RefusedChange(w: World, pct: real, effective: Effective, shared: bool)
    requires !(0.0 <= pct <= MAX_PCT) || effective.NotADate?
    ensures Synced(RateSet(w, pct, effective, shared), true) == Synced(w, true)
  {
    SyncIsIdempotent(w.invoices, w.rate, w.env, w.ledger, w.today);
    hide SyncInvoices;
  }

  // ----------------------------------------------------------------- rate freeze

  /** The rate in force when a week finished: the one held just before the clock first passed
      the week's end.  A week already over at the start is taken at the first rate. */
  function FinishRate(w: World, steps: seq<Step>, week: int): Option<Rate>
    decreases |steps|
  {
    if steps == [] then (if week < WeekOf(w.today) then Some(w.rate) else None)
    else
      var init := steps[..|steps| - 1];
      if week < WeekOf(Exec(w, init).today) then FinishRate(w, init, week)
      else if week < WeekOf(Exec(w, steps).today) then Some(Exec(w, init).rate)
      else None
  }

  /** A client invoiced, if at all, for finished weeks at today's rate. */
  predicate Current(w: World) {
    && Filed(w.invoices)
    && forall k :: k in w.invoices ==> k < WeekOf(w.today) && Bills(w.rate, k) && w.invoices[k].pct == w.rate.pct
  }

  /** Every invoice is of a finished week at the rate of that moment, and every finished week
      without one is billed by today's rate exactly as by the rate of its own moment. */
  ghost predicate Faithful(w: World, at: int -> Option<Rate>) {
    && Filed(w.invoices)
    && (forall k :: k in w.invoices ==>
          k < WeekOf(w.today) && at(k).Some? && Bills(at(k).value, k) && w.invoices[k].pct == at(k).value.pct)
    && (forall k :: k < WeekOf(w.today) && k !in w.invoices ==> at(k).Some? && SameBill(w.rate, at(k).value, k))
  }

  lemma SyncedFaithful(w: World, shared: bool, at: int -> Option<Rate>)
    requires Faithful(w, at)
    ensures Faithful(Synced(w, shared), at)
    ensures shared ==> forall k :: k < WeekOf(w.today) && k !in Synced(w, shared).invoices ==> !Bills(w.rate, k)
  {
  }

  lemma RateSetFaithful(w: World, pct: real, effective: Effective, shared: bool, at: int -> Option<Rate>)
    requires Faithful(w, at) && Harmless(w, SetRate(pct, effective, shared))
    ensures Faithful(RateSet(w, pct, effective, shared), at)
  {
    SyncedFaithful(w, shared, at);
    SyncedFrame(w, shared);
    SyncBringsUpToDate(w.invoices, w.rate, w.env, w.ledger, w.today);
    hide SyncInvoices, Settled, WeekOf;
  }

  lemma SyncedFrame(w: World, shared: bool)
    ensures var w' := Synced(w, shared);
            w'.today == w.today && w'.rate == w.rate && w'.env == w.env && w'.ledger == w.ledger
  {
  }

  lemma MarkedFaithful(w: World, week: int, to: Status, onlyIf: set<Status>, at: int -> Option<Rate>)
    requires Faithful(w, at)
    ensures Faithful(w.(invoices := Marked(w.invoices, week, to, onlyIf)), at)
  {
  }

  /** Two histories that agree on the finished weeks serve equally. */
  lemma FaithfulTransfer(w: World, at: int -> Option<Rate>, at': int -> Option<Rate>)
    requires Faithful(w, at) && forall k :: k < WeekOf(w.today) ==> at'(k) == at(k)
    ensures Faithful(w, at')
  {
  }

  lemma NextFaithful(w: World, step: Step, at: int -> Option<Rate>, at': int -> Option<Rate>)
    requires Faithful(w, at) && Harmless(w, step)
    requires var w' := Next(w, step);
             forall k :: k < WeekOf(w'.today) ==> at'(k) == if k < WeekOf(w.today) then at(k) else Some(w.rate)
    ensures Faithful(Next(w, step), at')
  {
    hide Synced, RateSet, Marked, Harmless;
    match step
    case Advance(day) => if day >= w.today { WeekMonotone(w.today, day); }
    case LedgerChange(ledger) =>
    case Settings(env) =>
    case SyncStep(shared) =>
      SyncedFrame(w, shared);
      SyncedFaithful(w, shared, at);
      FaithfulTransfer(Next(w, step), at, at');
    case SetRate(pct, effective, shared) =>
      RateSetToday(w, pct, effective, shared);
      RateSetFaithful(w, pct, effective, shared, at);
      FaithfulTransfer(Next(w, step), at, at');
    case MarkPaidStep(week) =>
      MarkedFaithful(w, week, Paid, {Due}, at);
      FaithfulTransfer(Next(w, step), at, at');
    case AdminStep(week, status) =>
      MarkedFaithful(w, week, Verified, {Due, Paid}, at);
      MarkedFaithful(w, week, Due, {Paid, Verified}, at);
      FaithfulTransfer(Next(w, step), at, at');
  }

  lemma RateSetToday(w: World, pct: real, effective: Effective, shared: bool)
    ensures RateSet(w, pct, effective, shared).today == w.today
  {
  }

  lemma WeekMonotone(a: int, b: int)
    requires a <= b
    ensures WeekOf(a) <= WeekOf(b)
  {
  }

  lemma NextToday(w: World, step: Step)
    ensures WeekOf(w.today) <= WeekOf(Next(w, step).today)
  {
  }

  function History(w: World, steps: seq<Step>): int -> Option<Rate> { k => FinishRate(w, steps, k) }

  lemma {:induction false} RunFaithful(w: World, steps: seq<Step>)
    requires Current(w) && AllHarmless(w, steps)
    ensures Faithful(Exec(w, steps), History(w, steps))
    decreases |steps|
  {
    hide Next;
    if steps != [] {
      var n := |steps| - 1;
      var init, before := steps[..n], Exec(w, steps[..n]);
      RunFaithful(w, init);
      NextToday(before, steps[n]);
      NextFaithful(before, steps[n], History(w, init), History(w, steps));
    }
  }

  /** What a week is billed at under the rate in force when it finished. */
  function OwnPct(at: Option<Rate>, week: int): Option<real> {
    if at.Some? && Bills(at.value, week) then Some(at.value.pct) else None
  }

  /** After a sync a week has an invoice if and only if it has finished and the rate in force at that
      moment billed it, and the invoice then carries that moment's percent. */
  ghost predicate Frozen(w: World, steps: seq<Step>) {
    forall k :: PctAt(Synced(Exec(w, steps), true).invoices, k) == OwnPct(FinishRate(w, steps, k), k)
  }

  /** The rate freeze, over every run whose rate changes are harmless: each week is billed at the rate
      in force when it finished, whatever the rate has become.  So a week that finished at rate zero,
      or before billing began, never gets an invoice. */
  lemma RateFreeze(w: World, steps: seq<Step>)
    requires Current(w) && AllHarmless(w, steps)
    ensures Frozen(w, steps)
  {
    hide SyncInvoices, FinishRate, Exec, Synced;
    RunFaithful(w, steps);
    SyncedFaithful(Exec(w, steps), true, History(w, steps));
    SyncedFrame(Exec(w, steps), true);
    forall k ensures FinishRate(w, steps, k).Some? <==> k < WeekOf(Exec(w, steps).today) { FinishKnown(w, steps, k); }
  }

  /** The rate freeze, exactly: it holds after every step of a run if and only if every rate change of
      the run was harmless when it was made, which a caller can tell before making it. */
  lemma {:induction false} RateFreezeExactly(w: World, steps: seq<Step>)
    requires Current(w)
    ensures (forall n :: 0 <= n <= |steps| ==> Frozen(w, steps[..n])) <==> AllHarmless(w, steps)
    decreases |steps|
  {
    hide Frozen, Harmless;
    if steps == [] {
      RateFreeze(w, []);
    } else {
      var n := |steps| - 1;
      var init := steps[..n];
      RateFreezeExactly(w, init);
      assert steps[..n + 1] == steps;
      assert forall k :: 0 <= k <= n ==> init[..k] == steps[..k];
      if AllHarmless(w, init) {
        RateFreeze(w, init);
        assert init + [steps[n]] == steps;
        if Frozen(w, steps) { FrozenIsHarmless(w, init, steps[n]); }
        if Harmless(Exec(w, init), steps[n]) { RateFreeze(w, steps); }
      } else {
        var k :| 0 <= k <= n && !Frozen(w, init[..k]);
        assert !Frozen(w, steps[..k]);
      }
    }
  }

  /** If the freeze holds before a step and after it, the step was harmless. */
  lemma FrozenIsHarmless(w: World, init: seq<Step>, step: Step)
    requires Current(w) && AllHarmless(w, init) && Frozen(w, init) && Frozen(w, init + [step])
    ensures Harmless(Exec(w, init), step)
  {
    var before, steps := Exec(w, init), init + [step];
    assert steps[..|init|] == init;
    RunFaithful(w, init);
    assert Filed(before.invoices);
    if step.SetRate? {
      var after := Exec(w, steps);
      assert after == RateSet(before, step.pct, step.effective, step.shared);
      RateSetToday(before, step.pct, step.effective, step.shared);
      forall k ensures FinishRate(w, steps, k) == FinishRate(w, init, k) { FinishKnown(w, init, k); }
      hide Exec, Synced, RateSet, FinishRate, Harmless, PctAt, OwnPct, SameBooks, Faithful;
      RateStepExactly(before, step.pct, step.effective, step.shared);
      assert forall k :: PctAt(Synced(after, true).invoices, k) == PctAt(Synced(before, true).invoices, k);
      SameBooksByWeek(Synced(after, true).invoices, Synced(before, true).invoices);
    }
  }

  /** Only finished weeks have a finishing rate. */
  lemma {:induction false} FinishKnown(w: World, steps: seq<Step>, week: int)
    ensures FinishRate(w, steps, week).Some? <==> week < WeekOf(Exec(w, steps).today)
    decreases |steps|
  {
    hide Next, WeekOf;
    if steps != [] {
      FinishKnown(w, steps[..|steps| - 1], week);
      NextToday(Exec(w, steps[..|steps| - 1]), steps[|steps| - 1]);
    }
  }

  /** Backdating breaks the freeze: on any client, a rate set effective from a finished week that has
      no invoice and was not billed bills that week at the next sync. */
  lemma BackdatingBillsThePast(w: World, pct: real, day: int, shared: bool)
    requires 0.0 < pct <= MAX_PCT && Filed(w.invoices)
    requires WeekOf(day) < WeekOf(w.today) && WeekOf(day) !in w.invoices && !Bills(w.rate, WeekOf(day))
    ensures !SameBooks(Synced(RateSet(w, pct, From(day), shared), true).invoices, Synced(w, true).invoices)
    ensures var now := Synced(RateSet(w, pct, From(day), shared), true).invoices;
            WeekOf(day) in now && now[WeekOf(day)].pct == pct
  {
    var a := RateSet(w, pct, From(day), shared);
    hide SyncInvoices, WeekOf, Settled;
    RateStepExactly(w, pct, From(day), shared);
    SyncBringsUpToDate(w.invoices, w.rate, w.env, w.ledger, w.today);
    SyncBringsUpToDate(a.invoices, a.rate, a.env, a.ledger, a.today);
  }

  /** So does changing the rate while the ledger is not shared: the freezing sync is skipped and a
      finished, billed week that has no invoice yet is later priced at the new percent. */
  lemma UnsharedRateReprices(w: World, pct: real, week: int)
    requires 0.0 < pct <= MAX_PCT && Filed(w.invoices)
    requires week < WeekOf(w.today) && week !in w.invoices && Bills(w.rate, week)
    ensures pct != w.rate.pct ==>
              !SameBooks(Synced(RateSet(w, pct, Blank, false), true).invoices, Synced(w, true).invoices)
    ensures var now := Synced(RateSet(w, pct, Blank, false), true).invoices;
            week in now && now[week].pct == pct
  {
    var a := RateSet(w, pct, Blank, false);
    hide SyncInvoices, WeekOf, Settled;
    RateStepExactly(w, pct, Blank, false);
    SyncBringsUpToDate(a.invoices, a.rate, a.env, a.ledger, a.today);
  }
}

# A verified model of the trading platform's core

This project models, in Dafny, the parts of an automated trading platform that decide and account
for money, and proves what they promise:

- **Exits** (`TickGrid`, `ExitManager`, `ExitInvariants`, `ExitTheorems`, `ExitRatchet`,
  `ExitPessimism`, `ExitLoss`, `ExitMirror`, `ExitStyles`, `ExitLevels`, `ExitTrail`): the
  per-position state machine shared by the live engine and the backtester: first-target event, lock,
  chandelier trail, stop and target exit, one price or one bar at a time.
- **Backtest** (`CostModel`, `Backtester`, `BacktestProofs`, `BacktestRows`, `BacktestExits`): the
  bar loop that drives that machine and keeps cash, legs, costs, cooldown, time exit and square-off
  consistent.
- **Broker sync** (`Money`, `BrokerInput`, `BrokerSync`, `BrokerTrips`, `BrokerSplit`,
  `BrokerStretch`, `BrokerCompose`, `BrokerOverlay`, `BrokerRecord`): a broker's fills netted into
  flat-to-flat round trips, and the overlay that lets them stand in for the bot's own rows.
- **Commission** (`Commission`, `CommissionProofs`, `BilledProfit`): weekly profit-share invoices
  under changing rates, and what they bill of a log whose days are synced from the broker.
- **Symbol lock** (`CapitalLedger`): one position per symbol over the engines of one account.
- **Fleet** (`Fleet`, `FleetStream`, `FleetLimits`, `HubLink`, `HubProofs`, `HubAcks`): the framed
  stream from the hub's runner to a node's accounts.
- **Live candles** (`DataFeed`, `FeedHistory`, `FeedBars`, `FeedTheorems`): ticks aggregated into
  bars, and the capped history.

Each class mirrors an object of the source and its methods are proved to compute a specification
function on values; the theorems are about that function over whole runs, and for each operation
some of them say what it does in terms of its input alone (`ExitLevels`, `ExitTrail`,
`BacktestExits`, `BrokerStretch`, `BrokerRecord`, `FleetLimits`, `HubAcks` hold little else). Where
a promise of the source is false as stated, the code is kept and the exact condition is proved, with
a concrete input on which it fails.

Six of those conditions differ from the source's own wording:

- `exit_manager.py:541-546` and its documentation call the stop "ratchet only", but the first-target
  event assigns it (`exit_manager.py:363`). `ExitRatchet.RatchetExactly` says for each fresh
  position when the rule holds. Over all positions the backtester can seed
  (`backtester.py:1067-1082` passes levels that may be less than a tick from the entry) no style
  that manages anything keeps it; with a tick of risk and of target, exactly the styles that do not
  trail from entry do; with first targets on the tick grid as well (the engine rounds them to two
  decimals only, `engine.py:1382`), also those that promote the stop in the event's own call.
- `exit_manager.py:466-468` calls the bar helper pessimistic. `ExitPessimism.PessimismExactly` says
  when, for each fresh position, and `PessimismByStyle`, `PessimismOpenedExactly` and
  `PessimismOnGridExactly` for which styles.
- No fill worse than the initial stop: `ExitLoss.LossBoundExactly`, for the same sub-tick levels.
- `commission.py:333-334` says a rate change cannot reprice the past.
  `CommissionProofs.RateStepExactly` and `RateFreezeExactly`: true exactly of changes that bill
  every finished week without an invoice as before, or freeze it first on a shared ledger.
- `cost_model.py:42-44` and `cost_model.py:52-54` tax what is sold and stamp what is bought, but the
  formula takes the exit for the sale whatever the side. `CostModel.RoundTripExactly`,
  `BacktestRows.WalkCostsExactly`: right exactly for longs, equal rates or equal turnovers.
- A signal a node is sent is acted on: exactly when its id is not among the 500 before it
  (`HubProofs.ReplayExactly`), which a reconnection can bring about.

Units: exit prices are exact reals measured in ticks, so the price grid is the integers, an `Opened`
position has at least one tick of risk and of target, and a `Placeable` one a positive stop and
first target; money that the source rounds to two decimals is held in whole hundredths; fleet times
are milliseconds (frame ages: seconds), feed times nanoseconds, billing days are counted from a
Monday. Exit actions carry the reason as an enumeration instead of its display text.

## Model

| member | source | states |
|---|---|---|
| `TickGrid.FloorIsGreatest` | exit_manager.py:274-275 | Rounding a price down to the tick grid gives the highest grid price not above it. |
| `TickGrid.CeilIsLeast` | exit_manager.py:278-279 | Rounding up gives the lowest grid price not below it. |
| `TickGrid.RoundingMirror` | exit_manager.py:274-279 | Reflection about half a grid price swaps the two roundings exactly; this is what makes shorts mirror longs. |
| `ExitManager.ExitState.constructor` | exit_manager.py:218-237 | A new position: nothing done yet, peak at the entry, no first target remembered. |
| `ExitManager.ExitState.RatchetTo` | exit_manager.py:539-559 | Updates only the stop: toward the level, never past the price's safe side nor within a tick of the target, and only by more than half a tick; tells the caller exactly when it moved. |
| `ExitManager.ExitState.TrailTo` | exit_manager.py:562-582 | Updates only peak and stop, to the specified chandelier level, for both sides. |
| `ExitManager.ExitState.TakePartial` | exit_manager.py:331-337 | Books between one unit and all but one, changes quantity by exactly what it reports, touches nothing else. |
| `ExitManager.ExitState.ArmRunner` | exit_manager.py:342-376 | Assigns stop, runner target and trail flag as the first-target event specifies for what is left, and nothing else. |
| `ExitManager.ExitState.StopAfterFirstTarget` | exit_manager.py:342-365 | The stop the first-target event assigns (not ratchets): buffered break-even or the first target, clamped one tick to the safe side of the price. |
| `ExitManager.ExitState.BookFirstTarget` | exit_manager.py:323-381 | The in-place first-target event computes the whole specified new state and action list, once per life. |
| `ExitManager.ExitState.HoldAtFirstTarget` | exit_manager.py:393-414 | The lock with its immediate, fractional and ATR triggers, against the value specification. |
| `ExitManager.ExitState.TrailChandelier` | exit_manager.py:417-428 | The trail stage against the specification; the trail flag is raised only by a real move. |
| `ExitManager.ExitState.CloseIfHit` | exit_manager.py:431-447 | Stop before target, everything that is left, reason named; quantity becomes zero exactly on an exit. |
| `ExitManager.ExitState.StepTick` | exit_manager.py:293-448 | One price through the four stages in place equals the value specification Step: same final state, same ordered actions. |
| `ExitManager.ExitState.AdvanceBar` | exit_manager.py:454-488 | One bar in the adverse order, with its two early returns, equals StepBar. |
| `ExitInvariants.StepSound` | exit_manager.py:293-448 | Every call keeps the position invariant (stop at or above the initial stop, below the target while open) and books or keeps every unit; an EXIT is reported exactly when quantity reaches zero. |
| `ExitInvariants.EventStopBounds` | exit_manager.py:342-365 | The un-ratcheted first-target assignment still leaves the stop less than one tick under the entry and at least a tick short of the price. |
| `ExitTheorems.BarIsThreeTicks` | exit_manager.py:454-488 | A bar is exactly the three-price path worst, best, close: the early returns lose nothing. |
| `ExitTheorems.BarsAreTicks` | exit_manager.py:454-488 | A bar-by-bar life equals the tick life over the same prices, so every statement about tick runs holds of the backtester. |
| `ExitTheorems.StopExitIff` | exit_manager.py:431-447 | A stop exit happens exactly when the price reaches the stop in force before the call; it fills at that stop and is then all the call does. |
| `ExitTheorems.NeverMovesAndStops` | exit_manager.py:417-447 | No call both moves the stop and exits at it. |
| `ExitTheorems.StopReasonIsHonest` | exit_manager.py:498-536 | Each reason of a stop exit exactly: a plain stop-loss when neither first target nor trail had moved the stop; otherwise a first-target lock within a tick and a half of the locked target; otherwise break-even within that of the buffered entry (with a partial configured) or less than 5% of the risk under the entry; of the rest a gain is a trailed profit, a loss a trailed stop. |
| `ExitTheorems.RunSound` | exit_manager.py:293-448 | Over any price and ATR path: invariant kept, booked plus open quantity constant, no fill worse than the initial stop. |
| `ExitTheorems.QuietCall` | exit_manager.py:385-448 | A call without the first-target event, from any state, never moves the stop away from profit, and fills all or nothing, at the stop that was in force or better. |
| `ExitTheorems.RunFillFloor` | exit_manager.py:293-448 | Once the event lies behind or cannot come, the same over any path. |
| `ExitLevels.ArrivalExactly` | exit_manager.py:323-341 | A call completes the first target exactly when an open, managed position that has not done so sees a price at it; any other call leaves target and partial flag alone. |
| `ExitLevels.ArrivalSays` | exit_manager.py:331-376 | The event, in gains and without the machine's own steps: the partial is the whole part of the fraction but at least one unit and not the last; the stop is the grid price behind the buffered entry (ticks and basis points), or the first target for an immediate lock, but a tick behind the price; runner target, flags and reported reasons. |
| `ExitLevels.LockSays` | exit_manager.py:393-414 | The lock, likewise: where it waits (ATR multiple, fraction of the way to the runner's target, or at once), where it brings the stop (first target, a tick behind the price or a tick short of the target, the nearest), and that it otherwise leaves the stop alone. |
| `ExitLevels.ArrivalLocks` | exit_manager.py:363-414 | The call of the first target locks as well, by the same rule, from the stop the event set and with the runner's target. |
| `ExitLevels.TrailHangs` | exit_manager.py:417-428 | After a call that trails, the stop is at most half a tick short of the nearest of the grid price at the peak less the ATR multiple, a tick behind the price, a tick short of the target; a stop the trail moved is exactly there. |
| `ExitLevels.ExitExactly` | exit_manager.py:431-447 | With no event to come, a call closes exactly when the price is at the stop in force or at the target, all of what is held, at that level, the stop first. |
| `ExitLevels.ClosesExactly` | exit_manager.py:431-447 | Any call, the event's as well, ends by closing what is left exactly when its price is at the stop or the target it leaves, and there. |
| `ExitLevels.CallIsOrderly` | exit_manager.py:393-447 | After what the event reports a call reports at most one lock move, one trail move and one exit, in that order and each only with its setting on. |
| `ExitLevels.MovesTellTheStop` | exit_manager.py:293-448 | Over every run, a caller who only follows the reported moves holds the stop in force, and the target never changes without a move. |
| `ExitLevels.BarPath` | exit_manager.py:454-488 | A bar is low, high, close for a long and high, low, close for a short. |
| `ExitTrail.PeakIsBest` | exit_manager.py:562-582 | Over every life from entry the peak is the best of the starting price (the entry, or the price that completed the first target) and every later price at which the trail ran. |
| `ExitTrail.TrailFollowsBest` | exit_manager.py:562-582 | So over every life the chandelier hangs from the best price seen: after a call that trails, the stop is at most half a tick short of the nearest of that price less the ATR multiple on the grid, a tick behind the price and a tick short of the target, and exactly there when the trail moved it. |
| `ExitPessimism.PessimismExactly` | exit_manager.py:340-488 | From any fresh position, sub-tick ones included: every bar of every life is pessimistic over every closing path if and only if the style manages nothing, or the first target at its worst (partial at the target, runner at its own near target or at the lowest stop) earns no less than the furthest stop a trail can have reached would on the whole position. |
| `ExitPessimism.BarIsPessimistic` | exit_manager.py:454-488 | A bar whose worst price reaches the stop yields one EXIT at that stop, worth no more than any tick path that closes the same position, when the first target is not to come or could not earn less. |
| `ExitPessimism.BarExactly` | exit_manager.py:454-488 | From any open state that condition is exact. |
| `ExitPessimism.EventEarns` | exit_manager.py:323-447 | A closing path that begins with the first-target call earns at least the partial at the target and the worst on the runner. |
| `ExitPessimism.WorstPathEarns` | exit_manager.py:323-447 | And two prices earn exactly that. |
| `ExitPessimism.PessimismByStyle` | exit_manager.py:340-488 | Over every fresh position at placeable prices: if and only if the style manages nothing. |
| `ExitPessimism.PessimismOpenedExactly` | exit_manager.py:340-488 | Over those with a tick of risk and a tick to the first target: if and only if the style does not trail from entry. |
| `ExitPessimism.RetreatIsWorse` | exit_manager.py:363-376 | A trailed long from 2 with stop 1 on which every other style fails: those with a runner target one multiple away, and those that do not promote their stop in the event's own call. |
| `ExitPessimism.OffGridIsWorse` | exit_manager.py:363-376 | A long from 100 with stop 97 and first target 104.5, on which every style that trails from entry without a runner target fails, promoting ones included. |
| `ExitPessimism.PessimismOnGridExactly` | exit_manager.py:340-488 | With first targets on the tick grid, pessimism also survives a style that trails from entry, promotes its stop in the event's own call and leaves the runner without a target; no other. |
| `ExitRatchet.RatchetBreaks` | exit_manager.py:340-365 | For every style that trails from entry and does not promote, a placeable on-grid opening (entry 2, stop 1) and the prices on which the stop retreats. |
| `ExitRatchet.StepRatchets` | exit_manager.py:340-448 | From any state, a call keeps the stop or moves it toward profit, unless the first target is yet to come and its lowest stop lies under the one in force. |
| `ExitRatchet.StepRatchetsExactly` | exit_manager.py:340-365 | That condition is exact: one price at the first target otherwise lowers the stop. |
| `ExitRatchet.TrailsPast` | exit_manager.py:562-582 | With room, one price and a small ATR trail a fresh position past any stop short of a tick under its first target. |
| `ExitRatchet.UnguardedRetreats` | exit_manager.py:340-365 | The one or two prices on which an unguarded position retreats. |
| `ExitRatchet.RatchetExactly` | exit_manager.py:340-365 | "Ratchet only", from any fresh position, sub-tick ones included, over every path: if and only if the style manages nothing, or its lowest stop at the first target is no lower than the furthest a trail can have brought the stop by then: the initial stop without room to trail, a tick under the first target with it. |
| `ExitRatchet.RatchetByStyle` | exit_manager.py:340-365 | Over every fresh position at placeable prices: if and only if the style manages nothing. |
| `ExitRatchet.RatchetOpenedExactly` | exit_manager.py:340-365 | Over those with a tick of risk and a tick to the first target, on the grid or off it: if and only if the style does not trail from entry. |
| `ExitRatchet.RatchetBreaksOffGrid` | exit_manager.py:340-365 | Every style that trails from entry retreats from a long at 100 with stop 97 and first target 104.5: trailed past 103, its first target leaves the stop at 103 or lower. |
| `ExitRatchet.RatchetOnGridExactly` | exit_manager.py:340-365 | With first targets on the tick grid the stop also never retreats for a style that promotes it in the event's own call; for no other that trails from entry. |
| `ExitLoss.LowestIsReached` | exit_manager.py:342-414 | Event and lock together, at the first target to the tick, leave exactly the stop that a closed form on entry, level and style gives. |
| `ExitLoss.LowestIsLeast` | exit_manager.py:342-414 | Wherever the first-target price falls and whatever the ATR, they leave the stop no lower. |
| `ExitLoss.TouchLeaves` | exit_manager.py:323-447 | One price at the first target leaves that stop, the partial booked at the target, and the runner held, or gone at its own target when that is no farther. |
| `ExitLoss.LossBoundExactly` | exit_manager.py:323-447 | With any risk distance and first target, sub-tick ones included: no path fills worse than the initial stop if and only if the style is unmanaged, or its runner target is no farther than the first, or the lowest stop still gains at least minus the risk. |
| `ExitLoss.LossBound` | exit_manager.py:293-448 | Whole-life loss bound: under that guard, for every ATR sequence and path, the fills of N units sum to at least -N times the risk distance, every unit is booked or held, and while any is held the stop is no lower than the initial one. |
| `ExitLoss.SafeRun` | exit_manager.py:293-447 | What every run of a guarded position keeps, from the opening through the first target to the close. |
| `ExitLoss.OpenedIsGuarded` | exit_manager.py:342-365 | A tick of risk, a tick to the first target and non-negative buffers meet the guard. |
| `ExitLoss.UnguardedLoses` | exit_manager.py:342-365 | Outside the guard two ticks lose more than the risk distance on a unit. |
| `ExitLoss.HalfTickLosesTwice` | backtester.py:1067-1082 | A long from 100 with stop 99.5 and target 100.5 whose only setting is to trail the remainder: prices 100.5 then 99 lose twice the risk. |
| `ExitMirror.MirrorStep` | exit_manager.py:293-448 | Reflecting all prices about the entry and swapping the side commutes with one call, including rounding, clamps, lock, trail and open targets. |
| `ExitMirror.MirrorRun` | exit_manager.py:293-448 | The same over whole lives: same actions and reasons, mirrored prices, mirrored final state. |
| `ExitMirror.MirrorStepBar` | exit_manager.py:454-488 | The same for bars, with high and low exchanged. |
| `ExitMirror.MirrorExactly` | exit_manager.py:274-448 | Every life of a fresh position and of its mirror image agree if and only if the style manages nothing or twice the entry is on the grid. |
| `ExitStyles.LockFloorHolds` | exit_manager.py:326-414 | With the lock on and immediate, and a runner target, if any, no nearer than the floor, every fill from the first-target call on is at or beyond one tick inside the first target. |
| `ExitStyles.LockFloorExactly` | exit_manager.py:326-414 | That floor holds over every continuation if and only if the runner has no target or one no nearer than the floor. |
| `ExitStyles.LockedLife` | exit_manager.py:293-448 | A closed position that reached its first target earned it on every unit, less under two ticks per runner unit. |
| `ExitStyles.InertDefaults` | exit_manager.py:323-326 | With no partial, trailed remainder or trail from entry, any bar sequence exits at the same bar, price and quantity as plain stop/target, whatever the other settings. |
| `CostModel.RoundTripIsTwoOrders` | cost_model.py:64-99 | The seven cost heads of a round trip equal the price of two orders that bought the entry turnover and sold the exit turnover, whatever the side. |
| `CostModel.RoundTripExactly` | cost_model.py:64-99 | It is the price on the true sides if and only if the trip is long, or sell-side tax and stamp duty are equal, or it turned over the same on both sides. |
| `CostModel.ShortIsOvercharged` | cost_model.py:64-99 | A short of 100 units from 100 to 110 at the default rates is charged 0.22 more than its two orders cost. |
| `CostModel.LegCostExactly` | backtester.py:866-892 | Whatever the rates, a first leg is charged two orders and a later one the price of one order on its turnover, clamped at zero. |
| `CostModel.LegCostIsPriced` | cost_model.py:101-115 | A later leg, after the duplicate entry charge, costs one order on its own turnover; the clamp at zero never bites for non-negative rates. |
| `CostModel.PricedAdds` | cost_model.py:64-115 | Pricing adds over legs: orders and turnovers sum. |
| `Backtester.Backtest.Leg` | backtester.py:855-924 | Appends one row for a positive quantity, advances the leg number, and returns the capital change the specification says; otherwise nothing. |
| `Backtester.Backtest.PartialLeg` | backtester.py:996-1003 | A partial books a leg, adds its net to capital and lowers the held quantity by it. |
| `Backtester.Backtest.ApplyActions` | backtester.py:992-1008 | The loop over one bar's actions: partials become legs, stop moves are copied, the exit is remembered. |
| `Backtester.Backtest.Close` | backtester.py:1022-1026 | Closing books the held quantity and leaves the book flat with its action bar recorded. |
| `Backtester.Backtest.ManageOpen` | backtester.py:976-1026 | Machine exit first, then time exit, then square-off, exactly one of them closing. |
| `Backtester.Backtest.TakeBar` | backtester.py:965-1088 | One bar: manage, then enter if flat, off cooldown and allowed; one equity point is recorded. |
| `Backtester.Backtest.Run` | backtester.py:965-1090 | The whole loop equals the specification walk, and each equity point is the capital after its bar. |
| `BacktestProofs.WalkIsConsistent` | backtester.py:850-1088 | In every backtest: capital is the initial plus the sum of pnl minus cost; ids are distinct; the legs of each position plus its open remainder sum to its entry quantity; legs are numbered from one and at most two; no position is open after a bar past the cutoff. |
| `BacktestProofs.BarTakes` | exit_manager.py:331-337 | Over one bar the machine books at most one partial, of a positive quantity smaller than what is held, and only by completing its first target. |
| `BacktestRows.WalkRowsGood` | backtester.py:855-924 | Every row of every backtest carries its own leg's gain and charge, and, for signals that meet the loss guard of `ExitLoss`, no row (time exit and square-off included) loses more than the risk distance per unit. |
| `BacktestRows.RowLossBound` | backtester.py:879-913 | The same bound in money, through the contract multiplier. |
| `BacktestRows.WalkCostsAreOrders` | backtester.py:866-892 | A position that closed in n legs was charged exactly n + 1 orders that bought its entry turnover and sold its exit turnover. |
| `BacktestRows.WalkCostsExactly` | backtester.py:866-892 | That is what it truly bought and sold if and only if it is long, or both sides are taxed alike, or entries and exits turned over the same. |
| `BacktestRows.WalkOneSided` | backtester.py:855-924 | All legs of a position are of its side. |
| `BacktestRows.WalkCooled` | backtester.py:1028-1086 | No backtest enters within the cooldown of any earlier entry or exit. |
| `BacktestExits.WalkBarExactly` | backtester.py:976-1086 | Every bar of every backtest, without the loop's own steps: one row for each partial, at its price; a closing row exactly when the machine exits, the holding time is up or the session is over, in that precedence, at the machine's price and reason or at the close; a position that stays open carries the machine's state; a signal taken exactly when flat, allowed, before the cutoff and a cooldown after the last exit, with its own levels. |
| `BacktestExits.NothingHeldTooLong` | backtester.py:1010-1014 | With a holding time set, no position is open after a bar that many bars past its entry. |
| `BacktestExits.WalkRowsExplained` | backtester.py:992-1026 | Every row: a time exit is of a position held at least the holding time and a square-off of a bar past the cutoff with no time exit due, both at the close; any other carries price and reason of a fill of the machine on that bar. |
| `BacktestExits.WalkMirrors` | backtester.py:992-1003 | The open record always shows the stop and the target the machine has in force. |
| `BacktestExits.WalkRemembers` | backtester.py:1022-1087 | A flat book remembers the bar of its last row, from which the cooldown counts, and a held one the bar it entered on. |
| `BrokerInput.NormalizeFills` | broker_sync.py:90-115 | The filter followed by the stable sort computes the specified fills. |
| `BrokerInput.KeepUsable` | broker_sync.py:92-113 | The filtering loop keeps exactly the usable rows of the day, in the broker's order. |
| `BrokerInput.SortByTime` | broker_sync.py:114 | The stable sort by time, then trade id. |
| `BrokerInput.TimeOrderKeeps` | broker_sync.py:114 | The fills are exactly the usable rows, ordered by time and then trade id. |
| `BrokerInput.NormalizeIsOrderFree` | broker_sync.py:90-115 | Whatever order the broker returns its rows in, the fills are the same, provided no two different usable rows share time and trade id. |
| `BrokerInput.FillsAreRows` | broker_sync.py:90-115 | Without the conversion's own steps: each fill occurs as often as raw rows of that day report it (key, side, quantity, price, time and order id) with time, side, price and quantity present and price and quantity positive; and the fills ascend in time. |
| `BrokerInput.TiesByTradeId` | broker_sync.py:114 | Fills of one moment ascend by trade id in dictionary order, and those of one moment and one id stay in the broker's order. |
| `BrokerInput.RealisedSnoc` | broker_sync.py:229-231 | Each further day row adds its realised profit to the total. |
| `BrokerInput.PositionMaps` | broker_sync.py:201-231 | Opening quantity of each key is that of its last net row; the realised total is the day rows' sum; a symbol has the multiplier named for it, day rows before net rows. |
| `BrokerInput.Multipliers` | broker_sync.py:215-222 | The loop maps exactly the symbols that some row names a multiplier for. |
| `BrokerInput.NamedIsFirst` | broker_sync.py:215-222 | The multiplier named for a symbol is the positive one of the first row that has one, and none is named only when no row has. |
| `BrokerSync.GroupByKey` | broker_sync.py:136-138 | Keys in order of first appearance, each with exactly its own rows in order. |
| `BrokerSync.NetFill` | broker_sync.py:150-177 | The inner while loop: one fill booked, split wherever it crosses flat. |
| `BrokerSync.NetRows` | broker_sync.py:149-177 | All rows of a key netted from flat. |
| `BrokerSync.BookTrips` | broker_sync.py:181-191 | Finished trips of a key appended with their prices and profit. |
| `BrokerSync.SortByStart` | broker_sync.py:192 | A stable sort by start. |
| `BrokerSync.RebuildRoundTrips` | broker_sync.py:123-193 | The nested loops compute the specified trips and unresolved keys. |
| `BrokerTrips.NetRefines` | broker_sync.py:149-177 | The fill-splitting loop refines posting each signed quantity in one go onto running totals. |
| `BrokerTrips.TripsBalance` | broker_sync.py:150-177 | Every finished trip took out exactly the positive quantity it put in, crossing fills included. |
| `BrokerTrips.TripCash` | broker_sync.py:181-188 | A trip's profit through its two VWAPs is the multiplier times its exit cash less entry cash, signed. |
| `BrokerTrips.UnresolvedExactly` | broker_sync.py:142-180 | A key is unresolved if and only if it opened non-flat or its fills net to something. |
| `BrokerTrips.FlatKeyTrades` | broker_sync.py:136-191 | A traded key has trips if and only if it opened flat and its fills net to nothing. |
| `BrokerTrips.CashIdentity` | broker_sync.py:136-193 | For every key not unresolved its trips' profit is multiplier times (sold cash minus bought cash) over its own fills; unresolved keys have no trips; trips are sorted and of positive quantity. |
| `BrokerStretch.StretchIsTrip` | broker_sync.py:141-191 | Fills of a key that start flat and first return to flat at the last are one trip, field by field: side of the first fill; quantity, VWAPs and distinct order ids of each leg; first and last time; number of fills; the multiplied difference of the VWAPs as profit. |
| `BrokerStretch.OrdersAreDistinct` | broker_sync.py:155-171 | The order ids of a leg are those of its fills, each once. |
| `BrokerSplit.SplitInvariance` | broker_sync.py:149-193 | Replacing any fill by two adjacent pieces of it changes no trip's key, side, quantity, prices, profit, times or orders, nor which keys are unresolved. |
| `BrokerSplit.Composition` | broker_sync.py:149-177 | Two flat-to-flat stretches of one key netted together give the first's trips followed by the second's. |
| `BrokerCompose.RebuildComposesByKey` | broker_sync.py:123-193 | Through grouping and sorting: a key flat over earlier fills and over later ones has, in the rebuild of both together, its earlier trips followed by its later ones. |
| `BrokerCompose.RebuildComposes` | broker_sync.py:123-193 | When all keys are flat over both and no two keys trade at the same moment, the rebuild of both is the two rebuilds in sequence and nothing is unresolved. |
| `BrokerOverlay.TradeLog.Overlay` | db_manager.py:461-475 | The keep-mask loop keeps exactly the rows the overlay rule keeps. |
| `BrokerOverlay.TradeLog.ReplaceBrokerDay` | db_manager.py:506-518 | Deletes exactly the day's broker rows, appends the new ones and replaces the record. |
| `BrokerOverlay.TradeLog.KeptBotTotal` | broker_sync.py:417-420 | Sum of the closed bot rows of the day whose ticker is unresolved. |
| `BrokerOverlay.TradeLog.SyncUser` | broker_sync.py:410-437 | One account's day: rebuild, total, replace; an empty tradebook changes nothing. |
| `BrokerOverlay.OverlayAgrees` | db_manager.py:453-475 | Closed profit visible through the overlay equals the recorded ledger total, less the rows filed on another UTC day. |
| `BrokerOverlay.DayAgrees` | broker_sync.py:413-431 | For trades starting at or after 05:30 IST the two agree exactly, and the log stays fit for the next sync. |
| `BrokerOverlay.EarlyTripIsMissed` | broker_sync.py:413-431 | A concrete trip before 05:30 IST whose profit of 1.00 is recorded while the overlay reads nothing for its day. |
| `BrokerOverlay.OtherSyncKeeps` | db_manager.py:506-518 | Syncing any other account, broker or day, with trips from 05:30 IST on, leaves this one's record and visible profit as they were, so an agreement once reached stays. |
| `BrokerOverlay.ResyncIsIdempotent` | broker_sync.py:396-437 | Syncing the same day's input again changes nothing, in the rows or the records. |
| `BrokerOverlay.NoDoubleCount` | broker_sync.py:410-420 | With one product per ticker no ticker of the day counts from both sources. |
| `BrokerOverlay.TwoProductsCanDoubleCount` | broker_sync.py:412 | Three concrete fills of two products of one symbol after which a bot row and a broker row of one ticker are both visible and both counted. |
| `BrokerOverlay.DoubleCountExactly` | broker_sync.py:410-420 | Over every stored log, a synced day is free of double counting if and only if traded keys that share a ticker are flat together or not at all, flat meaning opened flat with fills that net to nothing. |
| `BrokerOverlay.TripsAreOfFlatKeys` | broker_sync.py:136-193 | The rebuilt trips are of flat traded keys, and each of those has one. |
| `BrokerOverlay.SharedTickerCountsTwice` | broker_sync.py:410-420 | When a flat key and one that is not share a ticker, any closed bot row of that ticker is counted beside a broker row. |
| `BrokerRecord.TripsEarnCash` | broker_sync.py:136-193 | On fills alone: the trips of a key that opened flat and ended flat earn its multiplier times the cash its fills took in; any other key has none. |
| `BrokerRecord.DayRowsAreTrips` | broker_sync.py:284-341 | After a sync the day's broker rows are the rebuilt trips, one each and in order, closed, five and a half hours back, with the ticker of its key and its profit to the nearest hundredth, ties to even; every other row is as it was. |
| `BrokerRecord.RowIdsDiffer` | broker_sync.py:304-305 | Two broker rows of any syncs share an id only if they are of one account, one day, one place in it and one ticker. |
| `BrokerRecord.SyncedIsCash` | broker_sync.py:413-431 | The recorded total of every sync is, to half a hundredth per trip, multiplier times cash taken in over the keys that opened and ended flat. |
| `BrokerRecord.LedgerIsCash` | broker_sync.py:413-431 | For a day with all its keys flat nothing is unresolved and the ledger total is that cash. |
| `BrokerRecord.UnresolvedAreHeld` | broker_sync.py:410-420 | The record names exactly the tickers of fills whose key opened or ended holding something, and its two totals differ only if there are any. |
| `BrokerRecord.HiddenExactly` | db_manager.py:453-475 | A reader misses a row exactly when it is a closed bot row of a synced account (the admin, if none is named), UTC day and broker whose ticker was resolved. |
| `Commission.InvoiceBook.Create` | commission.py:179-191 | Insert unless the week has an invoice. |
| `Commission.InvoiceBook.Patch` | commission.py:194-214 | Replace only while the stored status is allowed; reports exactly that. |
| `Commission.InvoiceBook.CreateMissing` | commission.py:369-391 | The week loop creates one invoice for each billed finished week that has none and leaves the others. |
| `Commission.InvoiceBook.RederiveOpen` | commission.py:393-403 | The second loop re-derives every open invoice at its own percent. |
| `Commission.InvoiceBook.Sync` | commission.py:353-404 | Both loops together equal the specification; nothing is touched when the ledger is not shared. |
| `Commission.InvoiceBook.MarkPaid` | commission.py:407-414 | Only a due invoice becomes paid. |
| `Commission.InvoiceBook.AdminSetStatus` | commission.py:417-431 | Verify from due or paid, reopen from paid or verified, nothing else; says whether it did. |
| `Commission.Account.ChangeRate` | commission.py:320-347 | Finished weeks are synced at the old rate before the new one is stored; refused exactly outside 0 to 100 or without a date where one is given, the first billed week is the given one, the current one when switching on, or unchanged. |
| `Commission.ProfitByUserWeek` | commission.py:259-292 | One pass over the trades gives each user and week that has a counted row, and no other, the sum and number of its rows. |
| `BilledProfit.ProfitIsBilled` | commission.py:259-292 | The sum and number billed for a client and week are those of the closed rows of that owner (the admin, if none is named) whose day falls in the week and whose profit is a number. |
| `Commission.CommissionFor` | commission.py:295-297 | A hundred times the amount is within half a hundredth of profit times percent, at halfway the even hundredth; a loss owes nothing. |
| `CommissionProofs.SyncBringsUpToDate` | commission.py:353-404 | After a sync there is exactly one invoice per finished billed week besides those already there; every open one has the ledger's profit and trade count for its week (none if it lists none), an amount within half a hundredth of its own percent of that profit, and is due exactly when positive; paid and verified ones are untouched. |
| `CommissionProofs.SyncIsIdempotent` | commission.py:353-404 | For a fixed clock and ledger a second sync changes nothing. |
| `CommissionProofs.SettledIsFrozen` | commission.py:194-214 | Over any run without an admin reopening that very invoice, a paid or verified invoice's money never changes. |
| `CommissionProofs.OnlyDueGetsPaid` | commission.py:407-414 | An invoice becomes paid only by the client marking it while it is due. |
| `CommissionProofs.MarksExactly` | commission.py:407-431 | What each of the two marks does to every invoice, by its status before. |
| `CommissionProofs.RateStepExactly` | commission.py:320-347 | A rate change leaves the weeks invoiced by the next sync and their percents as they would have been if and only if it is refused, or each finished week without an invoice is billed alike by the old and the new rate, or by the old one on a shared ledger. |
| `CommissionProofs.SetRateBills` | commission.py:320-347 | Which weeks a changed rate bills: none at zero; from the week of the effective day; without one, as before, or from the current week for a client not charged so far; refused outside 0 to 100, and the rate kept when the date is none. |
| `CommissionProofs.ProspectiveIsHarmless` | commission.py:333-346 | A change on a shared ledger, effective this week or later or at no stated day, always meets that condition. |
| `CommissionProofs.RateFreeze` | commission.py:320-347 | Over every interleaving of clock, ledger, settings, syncs, payments and harmless rate changes: after a sync a week has an invoice if and only if it finished under a rate that billed it, and then carries that rate. |
| `CommissionProofs.RateFreezeExactly` | commission.py:320-404 | Every prefix of a run keeps each week at the rate it finished under if and only if every rate change in the run met the condition when it was made. |
| `CommissionProofs.BackdatingBillsThePast` | commission.py:336-340 | A change backdated to a finished, unbilled week changes the books and bills that week at the new percent. |
| `CommissionProofs.UnsharedRateReprices` | commission.py:333-346 | On an unshared ledger the freezing sync is skipped: a finished week without an invoice is later priced at the new percent, which changes the books unless the percents are equal. |
| `BilledProfit.ProfitSplits` | commission.py:259-292 | A client's week, as billing sums any list of trades, is what a reader sees for its synced days plus the closed trades of the others. |
| `BilledProfit.CloseAgreesExactly` | db_manager.py:453-475 | A bot trade closed after its day was synced leaves the day reading as recorded if and only if it made nothing or the sync resolved its ticker. |
| `BilledProfit.LifeAgrees` | db_manager.py:453-518 | Over every life of the trade log made of such steps, syncs in any order and trades opened and closed between them, every synced day reads as recorded. |
| `BilledProfit.WeekIsLedgers` | commission.py:250-292 | So a client's week through the overlay is the recorded ledger totals of its synced days plus the bot's closed trades of the days never synced. |
| `BilledProfit.InvoicesAreLedgers` | commission.py:353-404 | And after a billing sync every open invoice of the live book carries exactly that profit, and its own percent of it to within half a hundredth. |
| `CapitalLedger.Ledger.Attach` | capital_ledger.py:55-59 | An engine is attached at most once. |
| `CapitalLedger.Ledger.AnyHolds` | capital_ledger.py:111 | The scan over engines answers whether any holds the symbol. |
| `CapitalLedger.Ledger.SymbolBusy` | capital_ledger.py:88-94 | Busy exactly when claimed or held. |
| `CapitalLedger.Ledger.ClaimSymbol` | capital_ledger.py:96-114 | Succeeds exactly when the symbol is neither claimed nor held, and then only adds the claim. |
| `CapitalLedger.Ledger.ReleaseSymbol` | capital_ledger.py:116-122 | Drops the claim; harmless when there is none. |
| `CapitalLedger.Ledger.OnSignal` | engine.py:802-831 | Opens exactly when nobody held or claimed the symbol and the entry fills; only that engine's book changes; the claim is always gone afterwards; books that share no symbol still share none. |
| `CapitalLedger.TradingEngine.Take` | engine.py:791-800 | A position leaves its book at most once: the second taker gets nothing. |
| `CapitalLedger.TradingEngine.ClosePosition` | engine.py:1784-1804 | A manual close hands the trade to finalisation, or puts it back unchanged when the instrument is unknown. |
| `CapitalLedger.ClaimIsProtocol` | capital_ledger.py:96-114 | The object's claim is what the step-by-step protocol's claim comes to when nothing else moves. |
| `CapitalLedger.ScanUndisturbed` | capital_ledger.py:106-114 | While one thread scans, no engine already passed can come to hold the symbol. |
| `CapitalLedger.OnePositionPerSymbol` | engine.py:814-831 | From disjoint holdings, under every interleaving of signals, non-atomic scans, entries that succeed or fail, releases and closes: at most one engine holds a symbol, no trade is finalised twice, no finalised trade is still on a book. |
| `CapitalLedger.RehydratedExactly` | engine.py:618-670 | Engines rehydrated from one account's open trades are safe if and only if there is one engine or nothing open. |
| `CapitalLedger.RehydratedTwice` | engine.py:1777-1781 | Otherwise four steps finalise one trade twice. |
| `Fleet.NodeConnection.SendFrame` | fleet_broadcast.py:98-121 | Refused when disconnected, or when droppable with 200 queued; a failed schedule disconnects; otherwise queued and sent. |
| `Fleet.NodeConnection.Finish` | fleet_broadcast.py:114-118 | A finished write frees its slot; a failed one disconnects. |
| `Fleet.RemoteAccount.Flush` | fleet_broadcast.py:178-185 | An empty buffer sends nothing; otherwise one numbered frame with the whole buffer, which is then empty. |
| `Fleet.RemoteAccount.DoBeginTick` | fleet_broadcast.py:192-197 | Buffered, when connected. |
| `Fleet.RemoteAccount.DoTick` | fleet_broadcast.py:199-204 | Buffered, when connected. |
| `Fleet.RemoteAccount.DoSignal` | fleet_broadcast.py:206-219 | A freshly numbered signal ends its own frame at once, and is pending exactly if sent. |
| `Fleet.RemoteAccount.DoExit` | fleet_broadcast.py:221-230 | An exit ends its own frame at once and clears the grace; answers what was held before. |
| `Fleet.RemoteAccount.DoEndTick` | fleet_broadcast.py:245-249 | The poll frame, the only droppable kind. |
| `Fleet.RemoteAccount.OnAck` | fleet_broadcast.py:252-256 | A negative ack clears the grace; a positive one changes nothing. |
| `FleetStream.StreamIsCalls` | fleet_broadcast.py:178-249 | Over every run the attempted frames concatenated, with what is still buffered, are exactly the calls made while connected, in order. |
| `FleetStream.FramesAreNumbered` | fleet_broadcast.py:181-182 | Frames are numbered 1, 2, 3 and so on, and so are signals. |
| `FleetStream.FramesAreWellFormed` | fleet_broadcast.py:206-249 | A droppable frame holds no decision; any other holds one, at its end; nothing buffered is a decision. |
| `FleetStream.OnlyPollsAreDropped` | fleet_broadcast.py:98-105 | While connected, the frames sent are those attempted with only droppable ones left out. |
| `FleetStream.DecisionsArrive` | fleet_broadcast.py:98-249 | So the signals and exits sent are exactly the runner's, in its order. |
| `FleetStream.SignalsAreNumbered` | fleet_broadcast.py:187-189 | All signal ids of an account's stream differ. |
| `FleetStream.HeldThroughTheGap` | fleet_broadcast.py:232-240 | For 20 seconds after a forwarded signal the hub believes the symbol held, unless an exit is sent or the node declines. |
| `FleetLimits.HeldExactly` | fleet_broadcast.py:232-240 | Over every run the hub believes a symbol held exactly when the node reports it, or for 20 seconds after the last signal sent for it unless an exit went out since or the node declined. |
| `FleetLimits.QueueIsUnwritten` | fleet_broadcast.py:98-121 | The queue counts the frames handed over whose writes have not ended. |
| `FleetLimits.SentExactly` | fleet_broadcast.py:98-121 | A frame with a decision goes out whenever the connection is up and takes it, a poll frame only while fewer than 200 frames are unwritten. |
| `FleetLimits.ConnectedExactly` | fleet_broadcast.py:98-121 | A connection is given up exactly when a write failed, or the event loop refused a frame that would have gone out. |
| `HubLink.HubRunner.Subscribe` | hub_link.py:144-147 | An account is subscribed at most once. |
| `HubLink.HubRunner.Broadcast` | hub_link.py:193-204 | Every account gets the call; true exactly when one of them entered. |
| `HubLink.HubRunner.RememberId` | hub_link.py:246-248 | The eviction loop leaves the last 500 ids. |
| `HubLink.HubRunner.HandleSignal` | hub_link.py:238-260 | Unknown symbols and remembered ids are ignored, late signals logged and refused, others passed on; every new id is remembered and acked, late ones too. |
| `HubLink.HubRunner.HandleEvent` | hub_link.py:211-236 | One event by kind, filtered by the node's own symbols. |
| `HubLink.HubRunner.HandleEvents` | hub_link.py:206-236 | The event loop replays a frame in order to every account; with no accounts nothing at all changes. |
| `HubLink.FrameAge.Observe` | fleet_protocol.py:258-263 | Keeps the last 60 clock differences and returns the excess of the newest over the least, at least zero. |
| `HubProofs.FrameContinues` | hub_link.py:206-260 | Frame by frame handling equals handling one long stream of events. |
| `HubProofs.SeenIsLast` | hub_link.py:246-248 | The bounded memory is the last 500 ids ever accepted, those the node began with included. |
| `HubProofs.AtMostOnce` | hub_link.py:244-248 | An id is accepted again only after 500 other acceptances, those remembered from before included. |
| `HubProofs.AnsweredAreIds` | hub_link.py:238-260 | The accounts hear of exactly the accepted ids, in order. |
| `HubAcks.FrameAcks` | hub_link.py:238-260 | Each accepted signal of a frame is acked once and in order, as entered exactly when it was not late and some account took it; nothing else is acked. |
| `HubAcks.FramePrices` | hub_link.py:219-226 | After a frame each known symbol shows the price of its last tick in it, and any other symbol what it showed before. |
| `HubProofs.ReplayExactly` | hub_link.py:206-260 | Whatever the node remembers, that plain replay happens if and only if no signal for its symbols repeats one of the 500 ids before it, remembered ones included. |
| `HubProofs.DistinctReplay` | hub_link.py:206-260 | With distinct signal ids, none remembered when the stream begins, a node replays it filtered by nothing but its own symbols and lateness. |
| `HubProofs.HubToAccount` | hub_link.py:206-260 | From the runner's call to the account: on a connection that stays up, whatever poll frames are dropped, however old each frame arrives and whatever the node remembers, the decisions that arrive are exactly the runner's, in order; and exactly when no signal repeats one of the 500 ids before it, the accounts act on every exit for the node's symbols and every signal no older than five seconds, once each, in order. |
| `HubProofs.HubToAccountInTime` | hub_link.py:206-260 | With no frame late and no signal remembered they act on exactly the runner's signals and exits for the node's symbols. |
| `HubProofs.RestartedNumberIsDropped` | fleet_broadcast.py:187-189 | Why memory matters: a new connection numbers from one again, and a first signal for a symbol and bar the node remembers from the last connection is dropped unanswered. |
| `HubProofs.SkewDoesNotMatter` | fleet_protocol.py:243-263 | A constant clock skew changes no age. |
| `HubProofs.AgeExactly` | fleet_protocol.py:243-263 | An age is never negative, never more than the true delay, and exceeds a limit exactly when one of the last 60 frames was faster by more than the limit. |
| `HubProofs.PromptIsNeverLate` | hub_link.py:249-256 | So a new signal that took at most five seconds is acted on, whatever the two clocks say. |
| `DataFeed.UpstoxFeed.CommitForming` | data_feed.py:570-577 | Writes the bar into the symbol's history by the merge rule; no other symbol changes. |
| `DataFeed.UpstoxFeed.WidenForming` | data_feed.py:563-566 | A tick of the forming bucket raises the high, lowers the low and sets the close in place. |
| `DataFeed.UpstoxFeed.ApplyTick` | data_feed.py:535-568 | Commits and reopens on a newer bucket, otherwise widens in place; volume by the day-volume rule; equals the specified next state of that symbol and leaves the others. |
| `DataFeed.UpstoxFeed.Reseed` | data_feed.py:452-471 | REST rows older than the forming bar are merged into the history; the forming bar is untouched. |
| `DataFeed.UpstoxFeed.GetCandles` | data_feed.py:580-593 | Reads the history with the forming bar's row replaced. |
| `FeedHistory.MergeIsPuts` | data_feed.py:575-577 | Concatenate, drop duplicates keeping the last, sort: the same as writing the rows one by one in place. |
| `FeedHistory.MergeTwice` | data_feed.py:467-471 | Merging twice with the 600-row cap in between is merging once. |
| `FeedHistory.MergeMeaning` | data_feed.py:575-577 | A merge keeps, in ascending order, the last row written for each time, and the newest 600 of those. |
| `FeedBars.AggregatesByStamp` | data_feed.py:535-577 | For any tick stream, late ticks included, and any REST polls: closed bars and forming bar are first/max/min/last of the ticks filed under each stamp. |
| `FeedBars.ResampleIsUnique` | data_feed.py:306-308 | A tick stream has only one resample, so the statement pins every bar. |
| `FeedTheorems.BucketIsFloor` | data_feed.py:351-357 | Daily, 15-minute and 1-minute buckets are the floor to that many nanoseconds: the greatest multiple not after the tick. |
| `FeedTheorems.RefinesResample` | data_feed.py:535-577 | For buckets that never go back, closed bars followed by the forming bar are the resample of all ticks received. |
| `FeedTheorems.TickFiledExactly` | data_feed.py:555-566 | After such a stream the next tick is filed right at every price if and only if its bucket is not older than the forming bar's. |
| `FeedTheorems.LateTickMisfiled` | data_feed.py:563-566 | Any late tick above the forming high becomes the high of a bar it does not belong to. |
| `FeedTheorems.RestCorrectsHistoryOnly` | data_feed.py:459-471 | A REST poll leaves the forming bar as it is and writes exactly its older rows. |
| `FeedTheorems.HistoryIsOneMerge` | data_feed.py:452-471 | Over any run the history is one merge of every row ever written. |
| `FeedTheorems.HistoryOfRun` | data_feed.py:452-577 | So it is ascending, at most 600 rows, each the last written for its time; a missing row was overwritten or is older than 600 others. |
| `FeedTheorems.ClosedBarLands` | data_feed.py:555-558 | A bar that closes is the history's row for its time unless 600 rows are newer. |
| `FeedTheorems.CandlesAreNewest` | data_feed.py:580-593 | A reader gets, ascending, exactly the newest of the history's rows with the forming bar, if there is one, in place of the row of its time: as many as asked for or all there are. |
| `FeedTheorems.VolumeIsTraded` | data_feed.py:559-568 | With the day's volume on every tick and never falling, a bar's volume is the difference between its last and first tick. |
| `FeedTheorems.VolumeWithoutStart` | data_feed.py:559-568 | A bar whose first tick carries no volume reports the whole day's volume. |

## Left out

- ExitManager.ExitState: exact arithmetic on tick-denominated prices; the source's float noise, `round(x, 2)` and its `_GRID_EPS` nudge in the grid rounding are not modelled, so the runner target and the lock level are not rounded to two decimals.
- ExitManager.ExitState: `params_from_strategy`, which only copies fields, and the contract multiplier, which the machine never reads; the multiplier appears in the backtest rows.
- ExitRatchet.RatchetExactly: for a fresh position with its stop at the risk distance on the losing side and its first target on the other, as for `ExitLoss.LossBoundExactly`.
- ExitRatchet.RatchetOpenedExactly: over openings with at least one tick of risk and of target and positive stop and target prices, for styles with non-negative buffers; `RatchetExactly` has no such condition.
- ExitPessimism.PessimismExactly: for the same fresh positions.
- ExitPessimism.PessimismOpenedExactly: over the openings and styles of `RatchetOpenedExactly`.
- ExitRatchet.RatchetOnGridExactly: only first targets on the tick grid; `RatchetExactly` has no such condition.
- ExitPessimism.PessimismOnGridExactly: only first targets on the tick grid; `PessimismExactly` has no such condition.
- ExitMirror.MirrorStep: needs twice the entry on the grid, and no level equal to the zero price the source uses for "no first target yet" or to its mirror image.
- ExitMirror.MirrorExactly: for fresh positions without such a level whose runner target, if any, is farther than the first.
- ExitTrail.TrailFollowsBest: for fresh positions with their stop at the risk distance and peak at the entry; `ExitLevels.TrailHangs` has no such condition.
- Backtester.Backtest: the held position contains the exit state as a value, so the sharing of one `ExitState` object between the position dict and the machine is not captured.
- Backtester.Backtest: signals, indicators, filters and position sizing are inputs of each bar (an order with a quantity, or none); row labels, the four-decimal rounding of the stored risk distance, the two-decimal rounding of the stored cost column, equity metrics and `USEquityCostModel` are not part of the model.
- BacktestRows.WalkCostsAreOrders: needs non-negative rates and prices, as the schedule of charges has.
- BrokerInput.NormalizeFills: parsing of broker fields is a given (a field is present or not); the sort is modelled as a stable insertion.
- BrokerOverlay.DayAgrees: only trades that start at or after 05:30 IST; `OverlayAgrees` states what is missing otherwise and `EarlyTripIsMissed` shows it missing.
- BrokerOverlay.OtherSyncKeeps: only when the other sync's trades start at or after 05:30 IST of their day.
- BrokerCompose.RebuildComposes: fills of different keys never at the same moment, as the stable sort orders equal starts by first appearance; `RebuildComposesByKey` has no such condition.
- BrokerOverlay.TradeLog: the bot labels `build_docs` borrows, `bot_ticker` (a parameter here), the MongoDB branch of the store and the duplicate-id case of two servers are left out; so are the time stamp of the record, which a repeated sync does change, rows whose owner is the empty string, and what a crash between deleting and recording leaves behind.
- CommissionProofs.RateFreeze: starts from a client whose invoices, if any, are of finished weeks at today's rate.
- CommissionProofs.RateFreezeExactly: the same starting point.
- BilledProfit.WeekIsLedgers: for syncs whose trades start at or after 05:30 IST, and bot trades that are not closed, at a profit or loss, after a sync left their ticker unresolved; `CloseAgreesExactly` says that the latter is exact. Profits are whole hundredths already.
- BilledProfit.InvoicesAreLedgers: the same, for a ledger read when the invoices are synced.
- Commission.InvoiceBook: two servers creating the same week at once, payment references, time stamps, UPI links and the client statements.
- Commission.Account.ChangeRate: is one step; a payment or sync by another request between its sync and its store of the rate is not interleaved.
- CapitalLedger.OnePositionPerSymbol: starts from holdings that no two engines share; `RehydratedExactly` says when a restart provides that. Margin, detaching an engine while it runs and capital over-commitment by entries in different symbols are not modelled.
- CapitalLedger.Ledger: states each locked section with the engines standing still; the interleaved version is the state machine of the same module.
- Trade documents: the stored quantity of a partly closed trade, which the store's list of mutable fields refuses to update, and the rebuilding of an exit state after a restart.
- FleetStream.DecisionsArrive: for a connection that stays up; a frame handed over just before a write fails may be lost with the connection.
- FleetLimits.QueueIsUnwritten: a write ends only after its frame was handed over, as in `SentExactly` and `ConnectedExactly`.
- HubProofs.HubToAccount: frames reach the node in order and its inbox never overflows; a full inbox drops its oldest message whatever it carries. Frame ages are inputs.
- HubLink.HubRunner: an exception inside an account counts as "did not enter"; the recent-signals list, the session and control messages, offline square-off, and the JSON form of ticks and signals with its re-anchored quote ages, are left out.
- Fleet.RemoteAccount: each call is one step under the account's lock; the node's position report is an input of the exit call.
- DataFeed.UpstoxFeed: the seeding fetch, the live quotes with their carried-forward bid and ask, polling intervals and the socket handlers; a symbol without history reads as one with an empty history.
- FeedTheorems.RefinesResample: for buckets that never go back; `AggregatesByStamp` and `TickFiledExactly` say what happens otherwise.
- Risk metrics, analytics, reports, strategy signals, configuration stores, instrument tables, order placement and everything behind a network: foreign calls or formatting with little to prove.

# GridTokenX API gateway: verified model of its background services and ledgers

A Dafny 4.11 model of the parts of the gateway that hold state machines and arithmetic: the
recurring-order scheduler, conditional orders and their price monitor, the meter-reading work
queue, linked wallets, minting from readings, the carbon ledger, zone tariffs and their cache,
token conversion and back-off, error metrics, the canonical signing text, and pagination.
`dafny verify dfyconfig.toml` checks everything.

How things are modelled:

- A database table is a map or a sequence of rows. A transaction, or a statement outside one, is
  one atomic step. Whatever a request or a loop does between two statements is a separate step,
  so every theorem about "runs" covers all interleavings of those steps.
- Code that updates state is a class whose methods work statement by statement and are proved
  against functions on plain values; the run theorems are about those functions, and
  `PassIsRun` / `RemoveIsRun` show that the methods' results are reached by runs.
- `Decimal` and `f64` are exact reals. Integer widths are modelled where they bite: u64 saturation
  in token conversion, the u32-to-i32 cast of the attempt counter, the u32 product in page offsets.
- The clock is a monotone integer. Where the code reads it some time before the statement that
  uses the value, the reading is a parameter of the step, at most the present. New ids and transaction signatures are unused ones. Database
  errors, failed pushes and failed mints are choices of the environment.

Where the code does something other than one would expect, the model follows the code, and a
lemma shows the case and the exact condition:

- A resume request reads the clock before its UPDATE. If the order executes in between, the
  stale value makes it run again early (`StaleResumeBreaksSpacing`, `ResumeSpacingExact`).
- `max_executions` below one still allows one execution (`LimitBelowOneStillExecutes`).
- The scheduler and the monitor update rows by id only, so a cancel that lands between fetch and
  update is overwritten, and no other cancel is (`CancelOverwritten`, `CancelledStays`).
- The scheduler's UPDATE overwrites pauses the same way (`PauseOverwritten`).
- Behind 50 failing recurring orders, or 100 conditional orders that never fire, such as trailing
  stops, later orders are never reached (`FiftyFailingOrdersBlock`, `HundredStuckOrdersBlock`,
  `TrailingStopsBlock`); with fewer there is a bound, whatever else fails now and then
  (`StarvationFreedom`, `TriggerBound`).
- `trading_orders` has `CHECK (price_per_kwh > 0)`, while both services write 0 for a missing price.
  A recurring order without a price is accepted and never executes, and 50 of them block the
  scheduler (`PricelessNeverExecutes`, `PricelessOrdersBlock`); a conditional order without a limit
  price is refused by the INSERT (`CreateConditionalOrder`). Market orders thus never arise here.
- The conditional cancel endpoint tests only `trigger_status = 'pending'`, the column default, and
  so also cancels plain orders (`CancelReachesPlainOrders`).
- A carbon transfer is checked against the active sum but booked under another status
  (`LedgerAgreement`, `AcceptedOnceAcceptedAlways`). Expired and transferred certificates count
  towards the reported total but towards no part of it (`TotalSplits`).
- Only a wallet marked primary is counted before removal, so a user can lose the last wallet if
  removes overlap or a promote fails, and only then (`RemoveEmptiesExactly`,
  `CrossingRemovesEmpty`, `FailedPromoteEmpties`, `OrderlyRunsKeepAWallet`).
- A reading can be minted twice when requests for it overlap or its mark is lost, and only then
  (`OverlapMintsTwice`, `LostMarkMintsTwice`, `MintedAtMostOnce`).
- Charge and loss are looked up separately, so a reload in between can mix two loads
  (`ChargeAndLossFromOneRow`, `ReloadMixesRows`).
- Exactly 2^64 base units pass the range check and saturate (`KwhRoundTrip`, `MintingInParts`);
  attempt numbers above 2^31 get a negative exponent (`DelayBoundExact`); page offsets wrap at
  2^32 (`PageIsRightExactly`).
- A comment in the reading worker says RPUSH; the cache service uses LPUSH with BRPOP, which is
  the first-in-first-out queue modelled here. The computed back-off is only logged, never slept.

## Model

| member | source | states |
|---|---|---|
| `Selection.SelectOldest` | src/services/recurring_scheduler.rs:79-83 | the result is distinct rows in ascending key order, as many as the limit and the table allow, and no row left out sorts before one returned |
| `Selection.LeftOutMeansFull` | src/services/recurring_scheduler.rs:80-83 | a row left out was crowded out by exactly `limit` rows that sort no later |
| `Selection.EarlyIsSelected` | src/services/price_monitor.rs:89-90 | fewer than `limit` other rows sorting no later guarantee a row its place |
| `Selection.LateIsLeftOut` | src/services/price_monitor.rs:89-90 | `limit` rows sorting strictly earlier keep a row out |
| `Recurring.UserStep` | src/handlers/trading/recurring.rs:47-381 | creating, cancelling, pausing and resuming never touch an order's terms, count or last execution, never complete an order and never undo a cancel; of trading orders only amount and price are edited, to positive values |
| `Recurring.StepKeepsInv` | src/services/recurring_scheduler.rs:133-254 | every step of scheduler, users and matching engine keeps counts, limits, spawned orders and the fetched batch consistent |
| `Recurring.RunKeepsInv` | src/services/recurring_scheduler.rs:57-64 | every run from a consistent state ends in one |
| `RecurringSafety.ExecutionAccounting` | src/services/recurring_scheduler.rs:133-254 | in every run an order's total equals its success records, which name its amount and limit price, and its spawned trading orders, which belong to that order and no other and keep amount and price unless edited; it never exceeds max(1, max_executions) and the order is completed exactly when it reaches that |
| `RecurringSafety.ExecutionWrites` | src/services/recurring_scheduler.rs:148-244 | an execution at a clock reading sets the next one 3600, 86400, 604800 or 2592000 seconds times the interval value later, the last one to the reading and the count one up, and adds one trading order and one record with the listed columns; no other row changes |
| `RecurringSafety.CreateWrites` | src/handlers/trading/recurring.rs:47-107 | a request is stored as it came, active and due one interval in seconds after its clock reading, exactly if amount and interval are positive |
| `RecurringSafety.RequestsWrite` | src/handlers/trading/recurring.rs:225-381 | exactly the owner's cancel of an active or paused order, pause of an active one and resume of a paused one change its status; a resume sets the next execution one interval in seconds after its clock reading; nothing else of an order changes |
| `RecurringSafety.ResumeReads` | src/handlers/trading/recurring.rs:334-352 | the read of a resume request remembers the clock exactly if it finds an order of its caller, and changes nothing else |
| `RecurringSafety.PassFetches` | src/services/recurring_scheduler.rs:71-88 | a pass fetches at most 50 active orders due at its clock reading, earliest first, and leaves one out only for 50 due no later |
| `RecurringSafety.LimitBelowOneStillExecutes` | src/services/recurring_scheduler.rs:196-207 | for every order with a positive price and a limit below one there is a run that executes it once |
| `RecurringSafety.CancelOverwritten` | src/services/recurring_scheduler.rs:212-218 | a cancelled order loses that status exactly when the scheduler executes it from a batch fetched earlier |
| `RecurringSafety.PauseOverwritten` | src/services/recurring_scheduler.rs:212-218 | a paused order becomes active or completed exactly when a resume takes effect on it or the scheduler executes it from a batch fetched earlier; it becomes cancelled exactly by its owner |
| `RecurringSafety.CancelledStays` | src/handlers/trading/recurring.rs:241-249 | a cancelled order outside the current batch never changes again in any run |
| `RecurringSafety.RunKeepsSpacing` | src/services/recurring_scheduler.rs:188-227 | a run in which no resume takes effect with a clock reading older than the last execution keeps every next execution at least an interval after the last one |
| `RecurringSafety.ExecutionsAreSpaced` | src/services/recurring_scheduler.rs:188-227 | in every such run any two executions of one order are at least one interval apart, in seconds of its kind, whatever else lands mid-pass |
| `RecurringSafety.ResumeSpacingExact` | src/handlers/trading/recurring.rs:352-362 | a resume keeps the next execution an interval after the last one exactly when it read the clock no earlier than that execution |
| `RecurringSafety.StaleResumeBreaksSpacing` | src/handlers/trading/recurring.rs:342-366 | for every order with a positive price and room for two executions there is a run in which an overtaken resume makes it execute twice at one instant |
| `RecurringSafety.PricelessNeverExecutes` | migrations/20241101000001_initial_schema.sql:72-73 | a request without a positive price for its side is accepted, and in every run that follows its order never executes: each attempt can only fail |
| `RecurringLiveness.FetchTakesRivals` | src/services/recurring_scheduler.rs:71-88 | a pass that leaves the waiting order out takes at least 50 minus the number of failing orders out of those ahead of it |
| `RecurringLiveness.ExecuteKeepsLoad` | src/services/recurring_scheduler.rs:188-227 | executing another order never adds to the places needed to reach the waiting one, because the executed order moves past it, unless the clock was read more than an interval too early |
| `RecurringLiveness.LoadStep` | src/services/recurring_scheduler.rs:96-131 | every pass lowers the places needed by 50 minus the failing orders, and no other step raises them by more than its delay: a pass if the waiting order itself fails, one place if another order fails or is put ahead |
| `RecurringLiveness.PassesUseUpRivals` | src/services/recurring_scheduler.rs:96-131 | while an order waits, the passes have had no more places than the orders ahead at the start and the delays since account for, over any interleaving and any failures |
| `RecurringLiveness.StarvationFreedom` | src/services/recurring_scheduler.rs:67-131 | an order that is due and not withdrawn has executed once the passes, less one, times 50 minus the permanently failing orders exceed the orders ahead plus the delays; occasional failures, its own included, only add their delay |
| `RecurringLiveness.FiftyFailingOrdersBlock` | src/services/recurring_scheduler.rs:80-83 | with 50 failing orders strictly ahead the order never executes, however many passes start, in every run in which no owner withdraws one of them or the order itself |
| `RecurringLiveness.PricelessOrdersBlock` | migrations/20241101000001_initial_schema.sql:72-73 | behind 50 orders without a price the same holds without assuming any failure |
| `RecurringService.Scheduler.ExecuteOrder` | src/services/recurring_scheduler.rs:148-244 | the transaction inserts the trading order, advances the row from the fetched copy by its interval in seconds and records the success, and nothing else; it fails without effect exactly if the table rejects amount or price |
| `RecurringService.Scheduler.RecordFailure` | src/services/recurring_scheduler.rs:257-279 | a failed attempt appends one failure record with the order and the time and changes nothing else |
| `RecurringService.Scheduler.ProcessDueOrders` | src/services/recurring_scheduler.rs:67-131 | a pass attempts, in order, exactly the at most 50 oldest due active orders and goes on after failures |
| `RecurringService.PassIsRun` | src/services/recurring_scheduler.rs:67-131 | what a pass computes is reached by a run of the state machine |
| `Conditional.TriggerDirections` | src/services/price_monitor.rs:186-202 | sell stop-losses and buy take-profits fire at and below the trigger, the other two at and above, both only at the trigger itself, trailing stops never |
| `Conditional.StoredAsRequested` | src/handlers/trading/conditional.rs:41-103 | a request is stored exactly if trigger price, amount and limit price are positive and a trailing stop has an offset, and then column by column as asked, expiring as asked or after 604800 seconds |
| `Conditional.UserStep` | src/handlers/trading/conditional.rs:35-216 | creates, cancels, edits and fills change no deal but for amount and price, and no trigger, except that a cancel turns a pending trigger into a cancelled one; new rows are pending and well formed |
| `Conditional.StepKeepsInv` | src/services/price_monitor.rs:206-263 | every step keeps the trigger log, the triggered rows, the spawned rows and the fetched batch consistent |
| `Conditional.RunKeepsInv` | src/services/price_monitor.rs:58-64 | every run from a consistent state ends in one |
| `ConditionalRuns.TriggersMatchSpawns` | src/services/price_monitor.rs:129-156 | in every run the log is a bijection between triggered orders and spawned limit orders, each pair agreeing on user, side and session, and on amount and price unless one is edited after the fetch, with the condition true at the logged price; trailing stops never fire; trigger prices are present and positive |
| `ConditionalRuns.EditWrites` | src/handlers/trading/orders/management.rs:113-190 | an edit sets amount and price as asked exactly if both are positive, and touches nothing else |
| `ConditionalRuns.CancelOverwritten` | src/services/price_monitor.rs:221-231 | a cancelled order becomes triggered exactly when it is fired from a batch it was fetched into while pending |
| `ConditionalRuns.CancelledStays` | src/handlers/trading/conditional.rs:198-209 | a cancel that does not land between a fetch and its trigger is final in every run |
| `ConditionalRuns.CancelReachesPlainOrders` | src/handlers/trading/conditional.rs:198-206 | in every run each plain order, spawned or entered by a user, is marked cancelled by its owner's first conditional cancel that names it, whatever its status |
| `ConditionalRuns.HundredStuckOrdersBlock` | src/services/price_monitor.rs:78-90 | an order behind 100 older unexpired orders that never fire stays pending in every run in which no owner cancels one of them or the order itself |
| `ConditionalRuns.TrailingStopsBlock` | src/services/price_monitor.rs:78-90 | behind 100 older trailing stops the same holds without assuming that none fires |
| `ConditionalLiveness.FetchTakesRivals` | src/services/price_monitor.rs:78-90 | a pass that leaves the waiting order out takes at least 100 minus the number of stuck orders out of those ahead of it |
| `ConditionalLiveness.LoadStep` | src/services/price_monitor.rs:129-156 | every pass before the order expires lowers the places needed to reach it by 100 minus the stuck orders, and no other step raises them by more than its delay |
| `ConditionalLiveness.PassesUseUpRivals` | src/services/price_monitor.rs:129-156 | while an order waits, the passes before it expires have had no more places than the orders ahead at the start and the delays since account for, over any interleaving |
| `ConditionalLiveness.TriggerBound` | src/services/price_monitor.rs:58-159 | a pending order that is not cancelled has been triggered once the passes before it expires, less one, times 100 minus the stuck orders exceed the orders ahead plus the delays; being passed over while the price is elsewhere only adds its delay |
| `ConditionalService.PriceMonitor.CreateConditionalOrder` | src/handlers/trading/conditional.rs:35-103 | bad trigger prices, amounts and missing trailing offsets are rejected, and a request without a positive limit price gets an internal error from the INSERT, all without a change; otherwise one pending row is inserted that holds the request column by column |
| `ConditionalService.PriceMonitor.CancelConditionalOrder` | src/handlers/trading/conditional.rs:191-216 | exactly the caller's pending row is marked cancelled in both status columns and keeps every other one; otherwise nothing changes and the reply is not found |
| `ConditionalService.PriceMonitor.TriggerOrder` | src/services/price_monitor.rs:206-263 | the transaction marks the row by id with the time and inserts a plain limit order with the fetched user, side, amount, price and session, or rolls back exactly if the table rejects amount or price; no other column changes |
| `ConditionalService.PriceMonitor.CheckAndTriggerOrders` | src/services/price_monitor.rs:68-159 | a pass at a positive price looks at the 100 oldest pending unexpired orders in order; at a non-positive price it does nothing |
| `ConditionalService.PassIsExact` | src/services/price_monitor.rs:78-156 | a failure-free pass triggers exactly those of the fetched orders whose condition holds and whose spawned order the table accepts, and leaves every other row unchanged |
| `ConditionalService.WhoGetsTriggered` | src/services/price_monitor.rs:86-90 | an order whose condition holds is triggered if fewer than 100 others are as old, and passed over if 100 are older |
| `ConditionalService.PassFetches` | src/services/price_monitor.rs:78-90 | a pass looks at at most 100 pending unexpired conditional orders, oldest first, and leaves one out only for 100 no younger ones |
| `ConditionalService.CreateStores` | src/handlers/trading/conditional.rs:53-103 | a create stores the request, dated when its clock was read, exactly if every check passes, and no other row changes |
| `ConditionalService.RequestIsCarriedOut` | src/services/price_monitor.rs:129-202 | an accepted order that is unedited and pending when a failure-free pass fetches it, after any run, is triggered exactly if the price has reached the requested trigger in the direction of its kind and side, and spawns a limit order of the requested side, amount, limit price and session |
| `ConditionalService.PassIsRun` | src/services/price_monitor.rs:68-159 | what a pass computes is reached by a run of the state machine |
| `ReadingQueue.TaskConservation` | src/services/reading_processor.rs:34-97 | for any number of workers and any interleaving, accepted submissions of a reading are exactly those queued, in flight, done, dead-lettered or lost |
| `ReadingQueue.AttemptsAccounted` | src/services/reading_processor.rs:54-85 | attempts are exactly what the retry counters say, one more for completed tasks; at most three per submission; dead-lettered tasks have count 3, queued ones at most 2 |
| `ReadingQueue.StepGain` | src/services/reading_processor.rs:45-96 | every step changes the tally of tasks only by an accepted submission, and the tally of attempts only by a finished attempt |
| `ReadingQueue.PotentialDrops` | src/services/reading_processor.rs:61-85 | every finished attempt lowers the attempts left on live tasks by at least one, and no other step raises them |
| `ReadingQueue.DrainsInThreeAttemptsEach` | src/services/reading_processor.rs:34-97 | once submissions stop, n live tasks are worked off in at most 3n attempts in any interleaving |
| `ReadingQueue.FirstInFirstOut` | src/services/cache/mod.rs:218-275 | in any interleaving the queue is what was there and what was pushed since, in order, without the tasks popped, so no task is overtaken |
| `ReadingQueue.Worker.Turn` | src/services/reading_processor.rs:45-96 | one turn of the loop pops the oldest task and files it as done, re-queued below three failures, dead-lettered at the third, or lost, and touches nothing else |
| `ReadingQueue.Worker.Drain` | src/services/reading_processor.rs:34-97 | a lone worker empties the queue within three attempts per task, losing track of none |
| `Wallets.PrimaryInvariant` | src/handlers/wallets.rs:119-356 | in every interleaving of statements a user has at most one primary; a user with wallets and none has a remove waiting to promote or one whose promote failed |
| `Wallets.PromoteEffect` | src/handlers/wallets.rs:271-283 | after a successful promote the user has a primary or no wallet, and nobody gets a second one |
| `Wallets.PromoteExact` | src/handlers/wallets.rs:271-283 | row by row: the picked wallet is marked exactly if the user has no primary |
| `Wallets.RemoveIsRun` | src/handlers/wallets.rs:226-283 | an uninterrupted remove is a run of its four statements |
| `Wallets.RemoveKeepsWellFormed` | src/handlers/wallets.rs:226-283 | an uninterrupted remove keeps exactly one primary per user with wallets and never takes the last wallet |
| `Wallets.RemovedRows` | src/handlers/wallets.rs:258-283 | row by row what an uninterrupted remove leaves |
| `Wallets.RemoveEmptiesExactly` | src/handlers/wallets.rs:235-254 | in any state a remove takes a user's last wallet exactly when that wallet is not marked primary |
| `Wallets.OrderlyRunsKeepAWallet` | src/handlers/wallets.rs:218-283 | in every run in which the removes of a user do not overlap and none that leaves them without a primary fails to promote, whatever else falls between their statements and whichever of them fail, that user never loses the last wallet, never has two primaries, and has exactly one between removes |
| `Wallets.CrossingRemovesEmpty` | src/handlers/wallets.rs:235-268 | overlapping removes can take both wallets of any user with two |
| `Wallets.FailedPromoteEmpties` | src/handlers/wallets.rs:271-283 | so can removes that do not overlap once a promote has failed |
| `Wallets.LinkKeepsWellFormed` | src/handlers/wallets.rs:136-189 | linking keeps exactly one primary per user with wallets |
| `Wallets.LinkExact` | src/handlers/wallets.rs:126-189 | row by row what a link leaves: who is linked, who is primary, and that only an accepted set-primary link takes marks away |
| `Wallets.LinkPrimaries` | src/handlers/wallets.rs:139-159 | after an accepted link the user's primaries are the new wallet alone if asked for or first, otherwise what they were |
| `Wallets.SetPrimaryKeepsWellFormed` | src/handlers/wallets.rs:314-355 | choosing a primary keeps exactly one primary per user with wallets |
| `Wallets.SetPrimaryExact` | src/handlers/wallets.rs:314-355 | row by row: the caller's own wallet becomes their only primary, other users and other columns are untouched, any other choice changes nothing |
| `Wallets.WalletStore.LinkWallet` | src/handlers/wallets.rs:119-189 | links exactly if the address has 32 to 64 characters and is new; the wallet is primary if asked for or the user's first, others lose their mark only if asked for, and keep every other column |
| `Wallets.WalletStore.RemoveWallet` | src/handlers/wallets.rs:218-283 | removes exactly the wallet and marks the oldest remaining one if none is primary, every other column kept; unknown wallets and a lone primary are refused without a change |
| `Wallets.FindOldest` | src/handlers/wallets.rs:276 | finds a wallet of the user that none of theirs predates |
| `Wallets.WalletStore.SetPrimaryWallet` | src/handlers/wallets.rs:306-355 | exactly the named wallet of the caller becomes primary, or nothing changes |
| `Minting.MarkedReadingsAreBacked` | src/handlers/meter/minting.rs:113-199 | in every interleaving a marked reading carries the signature of a mint of its amount to its wallet, and supply covers the sum of marked readings |
| `Minting.StepKeepsInv` | src/handlers/meter/minting.rs:29-66 | every step keeps marks, pending requests and the chain in agreement |
| `Minting.MintedAtMostOnce` | src/handlers/meter/minting.rs:241-338 | a reading whose accepted requests do not overlap and whose marks are not lost is minted at most once, and at rest it is marked exactly if it was minted, whatever happens to other readings |
| `Minting.CarefulRunsMintOnce` | src/handlers/meter/minting.rs:241-338 | if that holds of every reading, none is minted twice, and at rest supply equals the sum of marked readings |
| `Minting.MintsAreAuthorised` | src/handlers/meter/minting.rs:243-250 | in every interleaving each mint was asked for by an administrator or by the user the reading belongs to |
| `Minting.CheckExact` | src/handlers/meter/minting.rs:240-261 | the exact condition of each refusal and of acceptance |
| `Minting.SupplyCovers` | src/handlers/meter/minting.rs:155-190 | the supply is at least the sum over minted readings, and equal to it if none is minted twice |
| `Minting.OverlapMintsTwice` | src/handlers/meter/minting.rs:113-120 | in any state two overlapping requests can mint an unminted reading twice |
| `Minting.LostMarkMintsTwice` | src/handlers/meter/minting.rs:49-66 | in any state a retry after a failed mark can mint a reading again |
| `Minting.MintService.MintReading` | src/handlers/meter/minting.rs:230-346 | the exact condition of each reply; chain or rows change only for an administrator or the owner of an unminted reading with an amount, then by one mint of that amount to its wallet; success is reported exactly if the row was marked as well |
| `Carbon.LedgerAgreement` | src/handlers/carbon.rs:246-346 | after any run of requests, each with the recipient found for it at the time, each user's sum is the initial one plus receipts minus sends, the sum over all users is unchanged, and the active sum only grows, by receipts |
| `Carbon.TransferExact` | src/handlers/carbon.rs:253-330 | the rows change exactly if the amount is positive, the recipient known and not the sender, and the sender's active sum covers it, and then by the two rows and the entry |
| `Carbon.ReplyExact` | src/handlers/carbon.rs:253-292 | the exact condition of each reply |
| `Carbon.EntriesAreCovered` | src/handlers/carbon.rs:278-292 | every log entry a run adds was at most its sender's active sum when it was added |
| `Carbon.AcceptedOnceAcceptedAlways` | src/handlers/carbon.rs:278-307 | a transfer accepted once is accepted each time it is asked for in any run of any transfers, and logged once for each |
| `Carbon.AcceptedTransferRepeats` | src/handlers/carbon.rs:278-307 | n copies of an accepted transfer move n times the amount |
| `Carbon.CarbonService.SumRows` | src/handlers/carbon.rs:279-285 | the query result is the sum over exactly the rows it selects |
| `Carbon.SumsPickTheirRows` | src/handlers/carbon.rs:279-285 | a row counts towards exactly the sums of its user and status |
| `Carbon.TotalSplits` | src/handlers/carbon.rs:125-150 | total is active plus retired plus transferred exactly when expired and transferred certificates add up to nothing |
| `Carbon.BalanceFollowsCredits` | src/handlers/carbon.rs:128-134 | a credit row adds its amount to the total and to the part of its status alone |
| `Carbon.BalanceFollowsCertificates` | src/handlers/carbon.rs:136-143 | a certificate adds to the total and, active or retired, to that part alone |
| `Carbon.CarbonService.TransferCredits` | src/handlers/carbon.rs:246-346 | the exact condition of each reply; a rejected transfer changes no row, an accepted one appends its two credit rows and its log entry |
| `GridTopology.RelayingNeverPays` | src/services/grid_topology.rs:149-215 | for all known zones the direct charge is at most the sum over a relay, and a relay delivers at most the direct share |
| `GridTopology.RelayingThroughUnknown` | src/services/grid_topology.rs:166-213 | through an unknown zone the direct charge is no higher exactly up to distance 25, and delivers no less exactly up to distance 6 |
| `GridTopology.TariffShape` | src/services/grid_topology.rs:149-215 | both tables are symmetric and grow with distance, and losses lie within 0.01 and 0.15 |
| `GridTopology.TariffInNumbers` | src/services/grid_topology.rs:149-215 | the default tables in numbers, the loss reaching its cap of 0.15 at distance 12, and the constants for unknown zones |
| `GridTopology.CacheFindsLastRow` | src/services/grid_topology.rs:97-108 | the cache holds, for each pair, the last row of the load, and no pair without a row |
| `GridTopology.GridTopologyService.LoadRates` | src/services/grid_topology.rs:78-114 | a successful load replaces the cache by its rows; failed and pool-less loads leave it alone |
| `GridTopology.GridTopologyService.WheelingChargeAsync` | src/services/grid_topology.rs:122-146 | the answer is the last row of the last successful load, else the default |
| `GridTopology.GridTopologyService.LossFactorAsync` | src/services/grid_topology.rs:180-190 | the answer is the last row of the last successful load, else the default |
| `GridTopology.ChargeAndLossFromOneRow` | src/services/grid_topology.rs:122-190 | two lookups for charge and loss of a pair answer from one row, or both from the defaults, if no load succeeds in between |
| `GridTopology.ReloadMixesRows` | src/services/grid_topology.rs:97-108 | a load that succeeds in between can pair any charge with any loss |
| `GridTopology.FailedLoadsChangeNothing` | src/services/grid_topology.rs:78-94 | any number of failed or pool-less loads changes no answer |
| `GridTopology.SeedChangesNothing` | migrations/20260117000001_add_zone_rates.sql:24-47 | loading the shipped rates changes no answer for any pair of zones |
| `Tokenization.FromEnv` | src/config/tokenization.rs:60-337 | loaded configurations are sound and each field is the variable if it passes its check, else the default in numbers; loading fails exactly for an initial delay above 3600 without an accepted maximum |
| `Tokenization.UnitsPerKwh` | src/config/tokenization.rs:349-350 | one kWh is the ratio in units without decimals and ten times as many for each decimal |
| `Tokenization.NineDecimals` | src/config/tokenization.rs:340-358 | at ratio 1 and 9 decimals one kWh is 1000000000 units |
| `Tokenization.ConversionExact` | src/config/tokenization.rs:340-358 | the exact condition of each conversion error and the exact number of units otherwise |
| `Tokenization.TokensRoundTrip` | src/config/tokenization.rs:340-363 | tokens to kWh and back is the identity exactly up to the maximal reading |
| `Tokenization.KwhRoundTrip` | src/config/tokenization.rs:340-363 | kWh to tokens and back loses less than one base unit, exactly one at 2^64 |
| `Tokenization.MintingInParts` | src/config/tokenization.rs:340-358 | n parts yield at most n−1 units less than the whole, and no more than it except when whole parts add up to exactly 2^64 |
| `Tokenization.PartsAgainstWhole` | src/config/tokenization.rs:349-357 | the same for amounts already in base units, with saturation |
| `Backoff.DelaysGrowToTheCap` | src/config/tokenization.rs:366-375 | up to attempt 2^31 delays grow, stay within initial and maximum, and stay at the maximum once there |
| `Backoff.DelayIs` | src/config/tokenization.rs:371-374 | up to attempt 2^31 the cast leaves the exponent attempt minus one |
| `Backoff.DelaysMultiply` | src/config/tokenization.rs:366-375 | the first retry waits the initial delay, and with a whole multiplier each further one that many times the one before, up to the maximum |
| `Backoff.DelayBoundExact` | src/config/tokenization.rs:366-375 | a delay is at least the initial one exactly up to attempt 2^31 or with multiplier one |
| `Backoff.TotalDelayAtMost` | src/config/tokenization.rs:366-375 | n retries wait at most n maximal delays |
| `Backoff.TotalDelayAtLeast` | src/config/tokenization.rs:366-375 | they wait at least n initial delays up to attempt 2^31, or for every u32 with multiplier one |
| `ErrorTracker.Tracker.TrackError` | src/utils/error_tracker.rs:51-90 | counters and tail again describe the whole history with the new entry appended |
| `ErrorTracker.Tracker.ResetMetrics` | src/utils/error_tracker.rs:138-144 | counters and tail describe the empty history |
| `ErrorTracker.Tracker.CountersAgree` | src/utils/error_tracker.rs:59-72 | total equals the sum of counts per code and per endpoint, each count is the number of entries it names, and the tail has min(N, total) entries |
| `ErrorTracker.Tracker.GetRecentErrors` | src/utils/error_tracker.rs:148-156 | the result is the last min(N, limit) entries of the whole history |
| `ErrorTracker.Tracker.GetTopErrorCodes` | src/utils/error_tracker.rs:112-121 | sorted by count, each code once with its own count, no omitted count above a listed one |
| `ErrorTracker.Tracker.GetTopErrorEndpoints` | src/utils/error_tracker.rs:125-134 | sorted by count, each endpoint once with its own count, no omitted count above a listed one |
| `ErrorTracker.Tracker.GetEndpointErrorRate` | src/utils/error_tracker.rs:100-108 | the number of tracked entries with that endpoint |
| `ErrorTracker.TallyCounts` | src/utils/error_tracker.rs:64-72 | a counter equals the occurrences of its name and all counters add up to the number of increments |
| `ErrorTracker.CountersCountEntries` | src/utils/error_tracker.rs:62-72 | a counter is the number of tracked entries with its code or endpoint |
| `Canonical.TextIs` | src/utils/signature.rs:32-37 | the signed text letter by letter |
| `Canonical.ParseInvertsPrint` | src/utils/signature.rs:32-37 | a reader of the labelled lines recovers the message for any wallet text if the other fields are single lines |
| `Canonical.UniquelyReadable` | src/utils/signature.rs:32-37 | equal texts imply equal messages if serial, timestamp and amount are single lines |
| `Canonical.UniquelyReadableFromTheEnd` | src/utils/signature.rs:32-37 | the same for any serial if the wallet is a single line |
| `Canonical.AmbiguousWithBoth` | src/utils/signature.rs:32-37 | with line breaks in a serial and in a wallet two messages share one text |
| `Pagination.PaginationParams.Validate` | src/utils/pagination.rs:50-64 | page at least 1, size within 1 and 100; acceptable values are kept, size 0 becomes 20 |
| `Pagination.PagesAreCeiling` | src/utils/pagination.rs:109-114 | the page count is integer ceiling division, saturated to u32; an empty list has one page |
| `Pagination.PagesPartitionTheData` | src/utils/pagination.rs:66-74 | while offsets fit 32 bits, pages 1 to total_pages in order are the whole list, and only the last has no next page |
| `Pagination.PageIsRightExactly` | src/utils/pagination.rs:72-74 | a page shows the right items exactly if its true offset is below 2^32 |

## Left out

- Postgres isolation anomalies, clock skew, a commit whose outcome is unknown, and mints that succeed while reporting an error: every step is atomic and reports what it did.
- Floating-point rounding, NaN and infinity in environment variables and conversions; overflow of `total_executions` and of u64 counters.
- The escrow side of editing an order, and its owner and status checks: they precede its UPDATE by id, so an edit here may hit any trading order at any time.
- Deleting users, which would cascade to their orders and wallets.
- How the market price is averaged: the price of a pass is a parameter.
- Zone ids beyond half the i32 range, where the distance subtraction could overflow.
- Matching, settlement, market clearing, futures, notifications and `process_reading_task`: they appear as environment steps or as success and failure of a step.
- Solana, SPL, Ed25519, AES, password hashing and JWT: foreign libraries; a mint is a step that succeeds with a fresh signature or fails.
- Routers, startup wiring, metrics and logging, analytics, dashboard, export, role and error-code tables: plumbing or finite tables that a reading settles.
- Listing and history queries, wallet labels, notes and descriptions: columns no step reads.
- `ListQueryParams` and its date-range check: the same normalisation as `PaginationParams`.
- The background refresh task of the rate cache: it only calls `LoadRates` repeatedly.

# AlphaBot: a verified model of its order, stop and simulation core

AlphaBot trades stocks unattended. What keeps it from buying twice, selling twice, or
selling shares it no longer owns is a handful of protocols and ledgers. This project models
them in Dafny and proves what they promise; where the code does not keep a promise, a lemma
names the input and states the exact condition under which it does.

`dafny verify dfyconfig.toml` checks everything.

## How it is organised

| files | what they model |
|---|---|
| `Orders.dfy`, `Fills.dfy` | order rows, the two separately written computations of the shares a buy still holds, merging of broker fill reports |
| `ApprovalQueue.dfy`, `Archive.dfy` | the queue file: each method is one atomic read-modify-write transaction; archiving of settled groups |
| `Interleavings.dfy`, `Idempotency.dfy` | many processes taking those transactions in any order, dying between them, and writing back rows they read earlier; the recovery pass that replays ambiguous submissions |
| `Conservation.dfy` | a ledger of shares bought, held and sold, with a memory of every sell ever placed, linked or not |
| `Venue.dfy`, `ProtectiveStops.dfy` | the broker's conditional stops and the write-ahead-intent protocol that keeps one per position, with a fault at every call |
| `PositionManager.dfy` | the live exit ladder: evaluate, ratchet, mirror or release the stop, sell, reconcile |
| `Runs.dfy`, `Prelude.dfy` | runs of a state machine, as `Interleavings` and `Conservation` use them; small shared vocabulary |
| `Indicators.dfy`, `Ladder.dfy`, `Backtester.dfy`, `Portfolio.dfy`, `PortfolioCausality.dfy` | indicators, the simulated ladder, the walk-forward backtest, the multi-ticker cash engine and its two-run property |
| `TrailLag.dfy` | the live, quantised trail against the simulated one |
| `Bars.dfy`, `Pricing.dfy` | tick-to-bar aggregation; exchange tick sizes and rounding |

Code that changes state in place is a class or a method with loops, each tied to a
specification function; expressions are functions. Prices and money are exact reals. Ids are
strings or numbers that the caller supplies fresh. Time is an integer. The analyzer is an
arbitrary function of what it is given. Venue and queue failures are parameters: each venue
call works, fails before it took effect, or fails after; each queue write lands or does not.

## Where the code does not keep the promise

- Replacing an exit forgets the fills of the exit it replaces. The ledger conserves exactly when those are zero
  (`RelinkConservesIff`); sixteen shares can be sold from a buy of ten (`ReplacedExitOversells`), and an external close
  then does not close the position (`ExternalCloseClosesIff`).
- A cancelled or rejected sell that carries fills makes the two remaining-share computations disagree, exactly then
  (`ComputationsAgreeIff`, `CancelledFillSplitsTheViews`); a merge leaves such a row exactly as `MergeLeavesDeadFillIff` says.
- A link write that is lost lets the sell go out unlinked. The invariant behind the single seller survives exactly if the link
  was saved or the approval ended in a rejection (`ExitKeepsOneSellerIff`); otherwise the next undisturbed pass on which the
  ladder decides nothing arms a stop beside the sell (`LostLinkLeavesTwoSellers`), and what the sell sells is sold again
  (`LostLinkOversells`). A step leaves held plus sold equal to bought in every careful continuation exactly if it loses no such
  link, replaces no exit with fills and lets no sell die with fills (`StepIsSafeIff`, `RunIsSafeIff`); held plus sold exceeds
  bought by exactly the fills of unlinked sells and of dead linked ones (`HeldPlusSoldIsBoughtIff`).
- A recovery that overlaps a waiting approval lets two orders share a slot, whether it rejects or accepts the row, and only such
  a recovery does (`RecoveryIsSafeIff`).
- A recovery pass reads its clock once and then replays row after row, so a row waits for the replays before it. A replay is safe
  exactly when the age limit, the approval's call and the replays of a whole pass fit the venue's window (`AtMostOneOrderIff`);
  two unresolved rows can already be one too many (`SecondRowWaits`), and `LongestSafeBacklog` counts how many fit.
- The manager and the stale-order sweep write back the whole row they read. A manager's write that a sync overtook revives an
  order whose slot has been given away exactly if the merged row no longer held the slot (`LateWriteIsSafeIff`). Two reports do
  that (`LateWriteDuplicates`): one that cancels the rest of an order when everything bought has been sold, and one that declares
  an order with known fills cancelled or rejected. The adapters send the latter only with a fill count of zero, so it is a
  regressive report (src/alpha_bot/broker/toss.py:1370-1373, src/alpha_bot/broker/kis.py:884-892,
  src/alpha_bot/broker/mock.py:251-260), which the merge expects (src/alpha_bot/approval/queue.py:128-133). The sweep forgets
  fills confirmed in between (`StaleSweepForgetsFillsIff`) and so lets a second buy in (`StaleSweepOpensTheSlot`).
- The archive file is matched by id alone. Any number of crashes between its two writes is harmless (`CrashLosesAndDuplicatesNothing`),
  but a row that changes after a crash had copied it loses the change, exactly then (`NothingIsLostIff`).
- Archiving a partially filled, fully sold buy changes what enqueue admits, exactly then (`AdmissionUnchangedIff`); it
  changes the open-position count exactly as `OpenCountUnchangedIff` says.
- The simulator fills above a bar's high exactly when the first bar that touches stop or target reaches the target first, below
  the entry price (`FillAboveHighIff`).
- With a holding period of zero days the backtest looks ahead (`ZeroHoldLooksAheadIff`).
- The comment of `BarAggregator` gives a bar the session VWAP as of its close; the code counts the next interval's first
  tick as well. `BarVwapIsAsOfItsCloseIff` says when the two agree; the model follows the code.
- In the portfolio backtest a one-share position that scales out and meets its trail on one day leaves at the target but is
  labelled with the trail (`OutcomeOfTwoEvents`).
- A limit buy below one tick is enqueued at a price of zero, which no broker call will then accept (`RoundsToZeroIff`,
  `EnqueuedOrderIsPlacedIff`).

## Model

| member | source | states |
|---|---|---|
| Orders.RemainingQuantity | src/alpha_bot/auto/position_manager.py:51-80 | the loop over linked sells yields fills minus what settled and working sells took, clipped at zero, and whether a sell is working |
| Orders.ConfirmedRemainingQuantity | src/alpha_bot/approval/queue.py:85-108 | the entry guard's loop counts each linked id once and a filled sell without a quantity as its whole request |
| Orders.ComputationsAgreeIff | src/alpha_bot/approval/queue.py:85-121 | with distinct links the guard never counts more shares than the exit side, and both count the same exactly when no cancelled or rejected linked sell carries a fill |
| Orders.CancelledFillSplitsTheViews | src/alpha_bot/auto/position_manager.py:65-80 | an exit cancelled after fills: the exit side still counts every share, the guard only the rest, and once all are sold a second buy is admitted while the first is reported held |
| Orders.FindHeldBuy | src/alpha_bot/auto/position_manager.py:166-194 | returns a buy of that account, market and ticker that is pending, working or still holds shares, and none only if there is none |
| Orders.HeldBuyRefusesEntry | src/alpha_bot/approval/queue.py:207-231 | whatever find_held_buy returns for an account, enqueue refuses a second buy there |
| Fills.MergeIsLargest | src/alpha_bot/approval/queue.py:124-157 | after any reports the confirmed quantity is the largest of the start and all clipped reports, never above the order |
| Fills.MergeIsConfluent | src/alpha_bot/approval/queue.py:124-157 | reordering the reports does not change the confirmed quantity |
| Fills.PriceIsOfTheLastRecord | src/alpha_bot/approval/queue.py:146-148 | the average price is that of the last priced report that was not below anything confirmed before it; reports that regress never touch it |
| Fills.FilledIsAbsorbing | src/alpha_bot/approval/queue.py:124-157 | the row ends filled exactly when it was or some report said so |
| Fills.MergeReturnsToPendingIff | src/alpha_bot/approval/queue.py:135-144 | a synced row falls back to pending exactly when it was partially filled without fills and the report is pending without fills |
| Fills.MergeLeavesDeadFillIff | src/alpha_bot/approval/queue.py:135-144 | a merged row is dead yet carries fills exactly when the broker cancels or rejects an unfinished order with known fills |
| ApprovalQueue.ApprovalQueue.Enqueue | src/alpha_bot/approval/queue.py:176-269 | succeeds exactly for a positive quantity, an unprotected ticker, a price the broker can round, a limit price where needed and a free slot; appends exactly that row with the rounded price, or names a holder of the slot |
| ApprovalQueue.ApprovalQueue.Occupant | src/alpha_bot/approval/queue.py:207-231 | the duplicate check finds a row that refuses the request, and none only if none refuses |
| ApprovalQueue.ApprovalQueue.BeginApprove | src/alpha_bot/approval/queue.py:660-692 | only a pending row of this account, or an unbound one, becomes submitting, bound and stamped |
| ApprovalQueue.ApprovalQueue.FinishApprove | src/alpha_bot/approval/queue.py:693-755 | the outcome of the broker call is written to the row with that id, whatever its status has become |
| ApprovalQueue.OutcomeOfApproval | src/alpha_bot/approval/queue.py:694-755 | after an approval the row keeps its slot unless the broker definitely rejected it, is left to recovery exactly if the outcome is unknown, and to syncing exactly if it was accepted under a broker order id |
| ApprovalQueue.ApprovalQueue.SyncWithBroker | src/alpha_bot/approval/queue.py:275-316 | every syncable row with a report is merged, no other row changes, and exactly the changed rows are returned |
| ApprovalQueue.ApprovalQueue.RecordRecovery | src/alpha_bot/approval/queue.py:358-388 | a replay's outcome is written only to a row that is still unresolved |
| ApprovalQueue.ApprovalQueue.CancelStaleOrders | src/alpha_bot/approval/queue.py:390-467 | each limit buy that was stale when read and whose cancellation is accepted is written back whole, as it was read; the returned rows are those whose write found a row |
| ApprovalQueue.SweptRow | src/alpha_bot/approval/queue.py:448-459 | a row of the moment ends as the cancelled form of the row read under its id, or untouched |
| ApprovalQueue.UndisturbedSweep | src/alpha_bot/approval/queue.py:390-467 | if nobody wrote since the rows were read, exactly the stale rows whose cancellation is accepted are cancelled, in place, keeping their fills |
| ApprovalQueue.ApprovalQueue.Update | src/alpha_bot/approval/queue.py:585-592 | replaces the first row with that id, and fails if there is none |
| ApprovalQueue.ApprovalQueue.MarkExternallyClosed | src/alpha_bot/approval/queue.py:594-658 | appends a filled synthetic sell of the confirmed remainder and links it as the exit, or fails if nothing is held |
| ApprovalQueue.ApprovalQueue.ArchiveClosedOrders | src/alpha_bot/approval/queue.py:469-583 | the archive file gains the settled rows it lacks; the queue keeps the rest, or everything if the process dies between the two writes |
| Archive.CollectArchiveIds | src/alpha_bot/approval/queue.py:507-556 | the loop collects exactly the inert sells and the settled buys with their linked rows |
| Archive.WhyArchived | src/alpha_bot/approval/queue.py:507-556 | a row leaves only as an inert sell, as a settled buy, or with the settled buy that links to it |
| Archive.OnlyFinishedRowsLeave | src/alpha_bot/approval/queue.py:507-556 | no row leaves that is recent, still working, holds shares or has a venue stop |
| Archive.CrashLosesAndDuplicatesNothing | src/alpha_bot/approval/queue.py:556-583 | any number of crashes between the two writes, and a run that gets through, lose no row and put no id twice in the month's file |
| Archive.NothingIsLostIff | src/alpha_bot/approval/queue.py:556-583 | a run loses a row exactly if it removes one whose id the file holds with other contents |
| Archive.KeptBuysSeeTheSame | src/alpha_bot/approval/queue.py:469-583 | every buy that stays keeps its shares, its in-flight flag and its hold on the slot |
| Archive.ArchivedRowBlocksIff | src/alpha_bot/approval/queue.py:525-550 | an archived row still held its slot exactly if it is a partially filled buy |
| Archive.AdmissionUnchangedIff | src/alpha_bot/approval/queue.py:207-231 | archiving changes whether a request is admitted exactly when it removes a partially filled buy of its slot |
| Archive.CountOpenPositions | src/alpha_bot/auto/position_manager.py:97-128 | counts the distinct market and ticker pairs that are pending, working or held for the account |
| Archive.ArchivedBuyCountsIff | src/alpha_bot/auto/position_manager.py:97-128 | an archived buy still counts as open exactly when the exit side finds shares in it, which takes a dead sell with fills |
| Archive.OpenCountUnchangedIff | src/alpha_bot/auto/position_manager.py:97-128 | archiving changes the open-position count of an account exactly when it removes a buy of the account in which the exit side still finds shares, and no kept buy counts for its ticker |
| Archive.OpenCountUnchanged | src/alpha_bot/auto/position_manager.py:97-128 | without dead sells that carry fills archiving leaves the open-position count of every account unchanged |
| Interleavings.SubmittedAtMostOnce | src/alpha_bot/approval/queue.py:660-755 | in every interleaving of all transactions, archiving and late whole-row writes included, place_order runs at most once per order, and no such row becomes pending again, if no adapter reports pending |
| Interleavings.NeverPendingAgain | src/alpha_bot/approval/queue.py:124-157 | no single transaction returns a row to pending |
| Interleavings.PendingReportResubmits | src/alpha_bot/approval/queue.py:135-144 | two odd reports make a submitted row approvable again: the hypothesis is needed |
| Interleavings.SlotsStayUnique | src/alpha_bot/approval/queue.py:199-248 | in every run in which recovery leaves waiting approvals alone and no one else changes the status, fills or links of a row between its read and its write, no two rows of one ticker, market, side and overlapping account both hold their slot: one active order, one open buy |
| Interleavings.EvolutionKeepsSlots | src/alpha_bot/approval/queue.py:77-121 | rewriting rows in place keeps slots unique if no row that was free begins to hold its slot |
| Interleavings.OverlappingRecoveryDuplicates | src/alpha_bot/approval/queue.py:358-388 | from every state, a recovery that rejects a row whose approval is still waiting lets a second order in, and the returning approval revives the first |
| Interleavings.OverlappingAcceptanceDuplicates | src/alpha_bot/approval/queue.py:358-388 | so does one that accepts the row, once a sync finds the order cancelled |
| Interleavings.RecoveryIsSafeIff | src/alpha_bot/approval/queue.py:318-388 | a recovery that takes effect leaves slots unique in every orderly continuation exactly if no approval of the order is waiting |
| Interleavings.DeathFreesTheSlot | src/alpha_bot/approval/queue.py:199-231 | when a working order of an account is rejected or cancelled, every request for its slot is admitted |
| Interleavings.LateWriteIsSafeIff | src/alpha_bot/auto/position_manager.py:377-405 | the manager reads a partially filled position, a sync merges a report, a rival buy tries to enter, and the manager writes a trail on the row it read: slots stay unique exactly if the merged row still holds its slot |
| Interleavings.LateWriteDuplicates | src/alpha_bot/approval/queue.py:124-144 | a dead report, or a cancelled rest of a sold-out position, makes that run end with two active orders |
| Interleavings.StaleSweepForgetsFillsIff | src/alpha_bot/approval/queue.py:448-466 | in a run of read, sync and write the sweep loses fills exactly when the sync confirmed more than the row it had read |
| Interleavings.StaleSweepOpensTheSlot | src/alpha_bot/approval/queue.py:448-466 | if it had read no fills, a second buy of the slot is refused before its write and admitted after it, with shares held |
| Idempotency.RunPass | src/alpha_bot/approval/queue.py:331-352 | every row of a pass is tested against the one clock reading at its start, and is sent after the replays before it |
| Idempotency.AtMostOneOrderIff | src/alpha_bot/approval/queue.py:331-352 | the venue holds at most one order in every schedule exactly when age limit, call and the replays of a whole pass fit its ten-minute window; with the nine-minute limit, exactly when they take at most a minute together |
| Idempotency.LateReplayDuplicates | src/alpha_bot/approval/queue.py:331-352 | beyond that bound a schedule with two orders exists, for every number of rows |
| Idempotency.LongestSafeBacklog | src/alpha_bot/approval/queue.py:331-352 | how many unresolved rows a pass may find: as many as have room for their replays in what age limit and call leave of the window |
| Idempotency.SecondRowWaits | src/alpha_bot/approval/queue.py:331-352 | two unresolved rows: the second is young enough when tested and arrives after the window has closed |
| Idempotency.OneWindowOneOrder | src/alpha_bot/approval/queue.py:331-352 | requests that arrive within one window create one order |
| Conservation.RunConserves | src/alpha_bot/auto/position_manager.py:408-490 | in every run that loses no link of a sell that goes out, replaces an exit only when it has no fills, and cancels or rejects only sells without fills, settled fills plus working requests never exceed the buy's confirmed fill |
| Conservation.HeldPlusSoldIsBought | src/alpha_bot/auto/position_manager.py:51-80 | over every such run nothing is clipped, held plus sold is bought, and even if every working sell fills no more is sold than was bought |
| Conservation.StepIsSafeIff | src/alpha_bot/auto/position_manager.py:408-490 | from a state that conserves, a step leaves this promise true in every careful continuation exactly if it is careful itself |
| Conservation.RunIsSafeIff | src/alpha_bot/auto/position_manager.py:408-490 | a run leaves the promise true at every point, in every careful continuation, exactly if every step that takes effect is careful |
| Conservation.UnlinkedIsSafeIff | src/alpha_bot/auto/position_manager.py:471-475 | a sell that goes out unlinked is safe in this sense exactly if it was rejected |
| Conservation.HeldPlusSoldIsBoughtIff | src/alpha_bot/auto/position_manager.py:51-80 | in any state whose links name placed sells, held plus sold exceeds bought by the fills of unlinked sells and of linked sells that died: they add up exactly when there are neither |
| Conservation.TransactionsAreProgress | src/alpha_bot/approval/queue.py:124-157 | approvals, fills, recoveries and cancellations of the queue are progress steps of the ledger |
| Conservation.RelinkConservesIff | src/alpha_bot/auto/position_manager.py:467-475 | linking a new exit conserves exactly when the exit it replaces has sold nothing |
| Conservation.ExternalCloseClosesIff | src/alpha_bot/approval/queue.py:594-658 | the synthetic sell closes the position exactly when the exit it replaces has no confirmed fill |
| Conservation.ReplacedExitOversells | src/alpha_bot/auto/position_manager.py:242-246 | from one filled buy of ten, three exits in turn sell sixteen and still leave four to sell |
| Conservation.LostLinkOversells | src/alpha_bot/auto/position_manager.py:471-475 | a sell of everything whose link was lost fills, and the bot still counts everything as held |
| Conservation.OversellStarts | src/alpha_bot/auto/position_manager.py:51-80 | such a start exists and conserves: one filled buy and nothing else |
| Venue.Venue.PlaceProtectiveStop | src/alpha_bot/broker/mock.py:322-352 | creation is idempotent per key: a live stop with the key is returned, otherwise one new stop appears; failures may hide that it did |
| Venue.Venue.CancelProtectiveStop | src/alpha_bot/broker/mock.py:362-366 | a cancel that returns leaves the stop not live, and is idempotent |
| ProtectiveStops.StopKeeper.VenueStatus | src/alpha_bot/auto/protective_stops.py:100-113 | a fresh lookup is remembered for a while, only if it succeeded; a stop said to be gone is gone |
| ProtectiveStops.StopKeeper.StopEngaged | src/alpha_bot/auto/protective_stops.py:248-280 | true exactly when the stop has fired, and true when that cannot be found out |
| ProtectiveStops.StopKeeper.Resolve | src/alpha_bot/auto/protective_stops.py:191-245 | a lost create is replayed under the same key: at most that one stop appears, success leaves no open intent, failure leaves the row as it was |
| ProtectiveStops.StopKeeper.Release | src/alpha_bot/auto/protective_stops.py:283-317 | a release that succeeds leaves no live stop of the position; other positions' stops are untouched; without faults it succeeds unless a stop has fired |
| ProtectiveStops.StopKeeper.Forget | src/alpha_bot/auto/protective_stops.py:174-188 | the stop fields are cleared in memory, and in the file unless the write fails |
| ProtectiveStops.StopKeeper.Arm | src/alpha_bot/auto/protective_stops.py:402-443 | intent, create, id: whatever fails, the file names every live stop |
| ProtectiveStops.StopKeeper.Replace | src/alpha_bot/auto/protective_stops.py:378-443 | re-arming cancels first, and never creates beside a live stop |
| ProtectiveStops.StopKeeper.Sync | src/alpha_bot/auto/protective_stops.py:320-443 | keeps the invariant under any faults; one undisturbed pass leaves exactly the stop the ladder enforces armed, with the wanted quantity and within tolerance of its level |
| ProtectiveStops.StopKeeper.Operate | src/alpha_bot/auto/protective_stops.py:130-443 | in every run with any faults every position has at most one live venue stop, and it is the row's stored id or the one its pending intent derives |
| ProtectiveStops.AtMostOneLiveStop | src/alpha_bot/auto/protective_stops.py:130-151 | two live stops of a position are the same stop, named by the row |
| ProtectiveStops.KeysDiffer | src/alpha_bot/auto/protective_stops.py:130-165 | a stop that does not match what is wanted lives under another key, so cancel and create do not collide |
| ProtectiveStops.MovesKeepProtected | src/alpha_bot/auto/protective_stops.py:248-280 | whatever the venue does to its stops on its own, rows keep naming the live ones |
| PositionManager.LadderEnforcesEffectiveStop | src/alpha_bot/auto/position_manager.py:346-374 | the ladder leaves through a stop, at market, exactly when the price is at or below the level that is mirrored at the venue; otherwise through the target in force exactly when that is reached; it keeps a runner only at the first target |
| PositionManager.ScaleOutKeepsARunner | src/alpha_bot/auto/position_manager.py:638-640 | a scale-out sells the larger half and keeps at least one share; other exits sell all |
| PositionManager.PositionManager.Manage | src/alpha_bot/auto/position_manager.py:561-683 | a bot sell goes out only while no venue stop of the position is live and no linked sell is working, for exactly what the ladder decides or what the broker still holds; nothing is armed while a linked sell works, nothing is done while the venue stop has fired or may have, and an undisturbed pass on which the ladder decides nothing mirrors the stop |
| PositionManager.PositionManager.TriggerForcedExit | src/alpha_bot/auto/position_manager.py:197-259 | sells exactly the remaining shares, only after the venue stop is released, and nothing while a sell works |
| PositionManager.PositionManager.SubmitExit | src/alpha_bot/auto/position_manager.py:408-490 | enqueue, link, approve: the sell goes out even if the link is lost; the single seller is kept exactly if the link holds or the sell is rejected |
| PositionManager.ExitKeepsOneSellerIff | src/alpha_bot/auto/position_manager.py:467-475 | after any exit the invariant behind the single seller holds exactly if the link was saved or the sell is already done for |
| PositionManager.OneSellerMeansNotTwo | src/alpha_bot/auto/position_manager.py:493-683 | under that invariant no position is on offer by two working sells, or by a sell and a live venue stop |
| PositionManager.PositionManager.Hold | src/alpha_bot/auto/position_manager.py:611-637 | the trail is ratcheted, then the effective stop with that trail is mirrored |
| PositionManager.PositionManager.Exit | src/alpha_bot/auto/position_manager.py:638-683 | the quantity is capped by the broker's holding; a holding of zero closes outside; no sell without a released stop |
| PositionManager.PositionManager.Reconcile | src/alpha_bot/auto/position_manager.py:264-331 | only a known snapshot without the ticker closes a position; an unknown one changes nothing |
| PositionManager.PositionManager.Operate | src/alpha_bot/auto/position_manager.py:493-683 | in every run in which a link is lost only if the sell is rejected, a position has at most one working sell, which it links to, and no live venue stop beside it |
| PositionManager.PositionManager.LostLinkLeavesTwoSellers | src/alpha_bot/auto/position_manager.py:471-475 | after a lost link the sell is out with no row linking to it, and the next undisturbed pass on which the ladder decides nothing arms a live stop for all the shares: two sellers |
| Indicators.Sma | src/alpha_bot/strategy/indicators.py:9-19 | the running sum yields the mean of every full window and nothing before the first |
| Indicators.Atr | src/alpha_bot/strategy/indicators.py:65-85 | bar i carries Wilder's average of the true ranges up to it |
| Indicators.AtrStaysWithin | src/alpha_bot/strategy/indicators.py:65-85 | the average lies between any bounds on the true ranges seen |
| Indicators.LatestAtrStaysWithin | src/alpha_bot/strategy/indicators.py:88-99 | so does the latest value, with its fallback for few bars |
| Indicators.LatestAtrIsNotNegative | src/alpha_bot/strategy/indicators.py:88-99 | it is negative exactly for one bar with a negative close |
| Indicators.WilderIsZeroIff | src/alpha_bot/strategy/indicators.py:48-54 | a smoothed average of non-negative values is zero exactly when all that count were; with a period above one nothing is ever forgotten |
| Indicators.Rsi | src/alpha_bot/strategy/indicators.py:30-55 | each output is the index of the smoothed gains and losses up to its bar |
| Indicators.RsiIsShareOfGains | src/alpha_bot/strategy/indicators.py:263-267 | the index is the share of gains in all movement, in percent |
| Indicators.RsiExtremes | src/alpha_bot/strategy/indicators.py:30-55 | for every period the index stays in 0 to 100, is 100 exactly if the series never fell and 0 exactly if it fell but never rose, over the changes that count |
| Ladder.StepShape | src/alpha_bot/backtest.py:85-123 | what one bar can do: nothing, one exit, or a scale-out with at most a runner exit; the trail starts at breakeven or above and never falls |
| Ladder.StopComesFirst | src/alpha_bot/backtest.py:85-112 | in phase 1 the stop takes everything exactly when the bar touches it without opening at the target, else the first target is sold exactly when reached; at the level or the worse, or better, open |
| Ladder.TrailComesFirst | src/alpha_bot/backtest.py:114-123 | in phase 2 the trail takes the runner exactly when touched, else the second target exactly when reached |
| Ladder.FillsAreReachedIff | src/alpha_bot/backtest.py:85-123 | a fill lies outside its bar exactly on the scale-out bar, above it at an unreached breakeven or below it at a lower second target |
| Ladder.EntryFillsIff | src/alpha_bot/backtest.py:126-154 | the limit entry fills exactly when the bar trades at the limit or below, at the better of open and limit |
| Ladder.AtrRanges | src/alpha_bot/backtest.py:411-421 | the ATR that the ladder is shown is never negative from the second bar on, as the trail results need |
| Ladder.WalkExits | src/alpha_bot/backtest.py:381-437 | the loop with its trail and legs computes the walk that is defined bar by bar |
| Ladder.WeightsSumToOne | src/alpha_bot/backtest.py:390-406 | every walk sells the whole position once, on a bar it walked |
| Ladder.TrailNeverFalls | src/alpha_bot/backtest.py:114-123 | once the runner phase has begun the trail never falls and stays at breakeven or above |
| Ladder.FillAboveHighIff | src/alpha_bot/backtest.py:407-437 | a walk fills above a bar's high exactly when exits are split and the first bar that touches stop or target reaches the target first while it stays below the entry price; an entry at or below the first target rules it out |
| Ladder.RunnerSoldAboveTheBar | src/alpha_bot/backtest.py:102-108 | such a bar: the first target is touched below the entry price and the runner is sold above the bar |
| Backtester.VisibleIsNested | src/alpha_bot/backtest.py:29-57 | what was visible earlier can be read off what is visible later |
| Backtester.QuartersFollow | src/alpha_bot/backtest.py:36-41 | the quarter ends used for the reporting lag follow each other at the length of a quarter |
| Backtester.Run | src/alpha_bot/backtest.py:298-379 | the loop yields the trades of the probes, each resuming the day after the exit |
| Backtester.ProbeMovesOn | src/alpha_bot/backtest.py:311-371 | the loop index strictly increases and a trade ends within its holding period |
| Backtester.ExitIsTheAverage | src/alpha_bot/backtest.py:352-357 | the blended exit price is the one fill, or the mean of the two, net of slippage |
| Backtester.RoundTripCosts | src/alpha_bot/backtest.py:338-357 | a trade at one raw price loses the commission and the slippage of both sides, exactly |
| Backtester.TradesAreDisjoint | src/alpha_bot/backtest.py:369-371 | trades follow each other with at least a bar in between |
| Backtester.NoLookAhead | src/alpha_bot/backtest.py:298-379 | two inputs that agree up to a bar, and on what was visible then, give the same trades among those over by that bar, for any analyzer |
| Backtester.ZeroHoldLooksAheadIff | src/alpha_bot/backtest.py:340-371 | with a holding period of zero, from every start that reaches the bar, that fails exactly when the next bar changes the entry |
| Backtester.MaxDrawdown | src/alpha_bot/backtest.py:189-200 | the one-pass loop finds the deepest fall from an earlier high of the running total |
| TrailLag.RunnersStartAlike | src/alpha_bot/auto/position_manager.py:455-465 | both ladders scale out on the same price, and the link written for the runner carries the simulator's trail |
| TrailLag.RatchetIsQuantised | src/alpha_bot/auto/position_manager.py:387-396 | the live trail rises by at least a tenth of the ATR or not at all |
| TrailLag.LagIsBounded | src/alpha_bot/auto/position_manager.py:377-405 | on flat bars, while the simulator holds the runner the live ladder holds it, with a trail at most a tenth of the largest ATR lower and never higher |
| TrailLag.SalesAgreeOutsideTheLag | src/alpha_bot/backtest.py:114-123 | when the simulator sells, so does the live ladder, unless the price lies inside that lag |
| TrailLag.MirroredStopIsNear | src/alpha_bot/auto/protective_stops.py:154-165 | after any readings while the simulator holds the runner, a calm pass leaves a live stop for the held shares within a quarter of the largest ATR, or the epsilon, of the live trail and within a tenth more of the simulated one |
| Portfolio.PortfolioRun.Run | src/alpha_bot/portfolio_backtest.py:181-433 | runs exactly if there is a bar; the final state is the one that the days of the calendar lead to; final cash is starting cash plus all realised profits and losses; every position was closed by its deadline and nothing was left to flatten |
| Portfolio.PortfolioRun.RunDay | src/alpha_bot/portfolio_backtest.py:237-398 | every day is the day function of its rules and state, and keeps the ledger balanced, the position cap, one entry or position per ticker, and every deadline ahead |
| Portfolio.PortfolioRun.ExitPhase | src/alpha_bot/portfolio_backtest.py:240-302 | each position in turn has its exits, cash, trades and cooldown included; the ledger stays balanced and every position is closed in time |
| Portfolio.PortfolioRun.ExitOne | src/alpha_bot/portfolio_backtest.py:248-302 | one position's day, its money and its trade |
| Portfolio.PortfolioRun.ClosePosition | src/alpha_bot/portfolio_backtest.py:215-235 | realising a position moves its balance from the open to the closed side, less commission |
| Portfolio.PortfolioRun.FillOne | src/alpha_bot/portfolio_backtest.py:316-354 | what an entry buys and pays, and when it counts as skipped |
| Portfolio.PortfolioRun.FillRound | src/alpha_bot/portfolio_backtest.py:304-354 | an entry meets its own bar, is never stale, becomes what its attempt buys, and leaves cash that is not negative |
| Portfolio.PortfolioRun.SignalPhase | src/alpha_bot/portfolio_backtest.py:356-391 | exactly the free tickers that signal, past warm-up and cooldown, queue an entry for their next bar |
| Portfolio.PortfolioRun.Liquidate | src/alpha_bot/portfolio_backtest.py:400-412 | flattening keeps the ledger balanced |
| Portfolio.DayKeepsAccounts | src/alpha_bot/portfolio_backtest.py:257-302 | remaining plus sold shares stay the initial ones, and a position is closed exactly when none are left |
| Portfolio.OutcomeOfTwoEvents | src/alpha_bot/portfolio_backtest.py:259-285 | a scale-out and a runner exit on one day are labelled with both reasons; a single share leaves at the target but is labelled with the runner's reason |
| Portfolio.FlatTradeLosesTheCommission | src/alpha_bot/portfolio_backtest.py:215-235 | a position sold out at its entry price loses exactly the commission |
| Portfolio.SignalRespectsCooldown | src/alpha_bot/portfolio_backtest.py:363-391 | an entry is queued past the warm-up, with a bar after its own, and two bars after the last exit at the earliest |
| Portfolio.DayIsInTime | src/alpha_bot/portfolio_backtest.py:286-302 | a day closes a position by its deadline or leaves the deadline ahead |
| Portfolio.NothingSurvives | src/alpha_bot/portfolio_backtest.py:400-412 | no position is open on the last day of the calendar |
| Portfolio.OrderMeetsItsBar | src/alpha_bot/portfolio_backtest.py:305-315 | with sorted dates a pending entry meets exactly the bar it was queued for |
| Portfolio.QuantityIsLargest | src/alpha_bot/portfolio_backtest.py:331-341 | the size is the largest within the risk budget, the cash and the position cap |
| Portfolio.Calendar | src/alpha_bot/portfolio_backtest.py:203-203 | the sorted days are exactly the dates of the bars |
| PortfolioCausality.PortfolioNoLookAhead | src/alpha_bot/portfolio_backtest.py:181-398 | two universes that agree by a day, and on what was visible then, give the same cash, positions, pending entries, trades and equity curve on every day up to it, for any analyzer; every other trade ends later |
| PortfolioCausality.SameDays | src/alpha_bot/portfolio_backtest.py:237-398 | over days up to then both runs go through the same states, from any common state |
| Bars.FloorStartsTheInterval | src/alpha_bot/data/bars.py:74-79 | intervals contain their times, do not straddle midnight and follow the clock |
| Bars.BarAggregator.OnTick | src/alpha_bot/data/bars.py:81-117 | one tick's effect on its ticker's bar, store and session, and none on other tickers |
| Bars.BarAggregator.OnStream | src/alpha_bot/data/bars.py:81-117 | however tickers interleave in a stream, each sees only its own ticks, and its session VWAP weighs all of them that have volume |
| Bars.BarAggregator.ForceClose | src/alpha_bot/data/bars.py:138-146 | flushes the bar in progress, once |
| Bars.BarAggregator.ResetSession | src/alpha_bot/data/bars.py:157-166 | forgets one ticker or all |
| Bars.AcceptedIff | src/alpha_bot/data/bars.py:99-100 | a tick reaches a bar exactly when no earlier tick belongs to a later interval |
| Bars.BarsAreTheGrouping | src/alpha_bot/data/bars.py:81-136 | the returned bars and the flushed one are exactly the first, highest, lowest, last, volume and count of the accepted ticks by interval, with strictly increasing starts |
| Bars.StoreKeepsTheNewest | src/alpha_bot/data/bars.py:132-135 | the store keeps the newest bars of the history |
| Bars.VwapIsAnAverage | src/alpha_bot/data/bars.py:151-155 | the session VWAP lies between the lowest and highest price of the ticks with volume |
| Bars.SessionCountsEveryTick | src/alpha_bot/data/bars.py:83-86 | the session counts stale ticks as well |
| Bars.BarVwapIsAsOfItsCloseIff | src/alpha_bot/data/bars.py:119-131 | a bar's VWAP is the one as of its close exactly when the completing tick has no volume or trades at that price |
| Pricing.FloorIsGreatestLegal | src/alpha_bot/pricing.py:75-85 | rounding down finds the greatest price not above that is legal in its own band |
| Pricing.CeilIsLeastLegal | src/alpha_bot/pricing.py:43-72 | rounding up finds the least price not below that is legal in its own band |
| Pricing.RoundedPriceIsLegal | src/alpha_bot/pricing.py:43-56 | a rounded price is a legal tick of its own band, off by less than a tick to the passive side, and a legal price is kept |
| Pricing.PassiveAndAggressiveAreNeighbours | src/alpha_bot/pricing.py:43-85 | the passive and aggressive prices are the two neighbouring legal prices |
| Pricing.RoundingIsMonotone | src/alpha_bot/pricing.py:43-72 | a higher price never rounds lower, across bands |
| Pricing.RoundsToZeroIff | src/alpha_bot/pricing.py:43-56 | the result is positive exactly for sells and for prices of at least one tick |
| Pricing.RoundingIsIdempotent | src/alpha_bot/pricing.py:43-56 | rounding twice is rounding once, except that a buy rounded to zero is rejected |
| Pricing.EnqueuedOrderIsPlacedIff | src/alpha_bot/broker/toss.py:560-570 | the broker is asked for exactly the order in the queue, unless a limit buy below one tick was enqueued, which can never be placed |

## Left out

- HTTP clients, tokens, the websocket loop, scraping, the LLM call, notifications, audit logs, the web dashboard and the CLI: input and output around the core.
- File locks and JSON: a transaction is one atomic step and a file is a sequence of rows.
- The clock within a run of `Interleavings`: one reading stamps every step; the cutoffs of the sweep and of archiving are free in each.
- Several manager processes and syncs in the midst of a manager's pass: stop state and links are written as whole rows, so the stop, single-seller and ledger results are stated for rows nobody else writes; `Interleavings` takes reads and whole-row writes apart.
- The venue's ten-minute key window for stops: a replayed create is taken to arrive while the venue still knows the key of a live stop; the module's own documentation names the hole.
- Hashing of idempotency keys: a key is the triple it is derived from, the price at six decimals.
- warn_unreferenced_stops, list_protective_stop_ids and the mock ledger of cash and positions: they report and do not act.
- A stop whose release failed on a position that the broker no longer holds: the close is recorded all the same, as in the code, and the result `ClosedOutside(false)` says so.
- Venue-side rounding of trigger prices, and float rounding to four or six decimals anywhere: arithmetic is exact.
- The filters for protected tickers and foreign accounts in the manage loop: the rows of the model belong to the account and are not protected.
- should_force_exit, regimes, calendars, hours, scoring and detect_vcp: data-dependent decisions without state.
- latest_sma, Bollinger bands, Sharpe ratios and the drawdown of the equity curve: easy or floating-point members.
- An analyzer that raises inside the single-ticker backtest, an entry price of zero (its return is taken as -100 percent before costs) and a negative holding period there.
- PortfolioCausality.PortfolioNoLookAhead: takes the dates of all bars as known, since the code does: the warm-up is a quarter of the whole series, and an entry needs a bar after its own. The same holds for `Backtester.NoLookAhead` and the number of bars.
- Equivalence of the two backtests: they differ by design on the entry bar.
- Parsing of period strings: a period is a quarter or unrecognised.
- Duplicate tickers, duplicate or unsorted dates and mixed markets in a portfolio universe: tickers are places in the universe, and dates increase.
- Flushing every ticker at once: it is flushing each; ticks carry whole seconds.
- TrailLag.LagIsBounded: assumes that every trail write lands; a lost write leaves the live trail lower until the next one.
- Conservation.RunConserves: assumes that no link of a sell that goes out is lost, that exits without fills are the only ones replaced, and that no sell dies with fills, none of which the code enforces; by `StepIsSafeIff` a step that breaks one of them is not safe.
- Interleavings.SlotsStayUnique: assumes that rows are not disturbed between read and write, and that no sell is linked to two buys when rows are archived; the code enforces neither.
- Portfolio.PortfolioRun.Run: assumes positive opens and lows and slippage above minus 100 percent, so that no entry costs nothing; the code divides by the entry price unchecked.
- Portfolio.PortfolioRun.RunDay: the same assumption.
- Portfolio.PortfolioRun.FillOne: the same assumption.
- Portfolio.PortfolioRun.FillRound: the same assumption.

# Replay simulator and decision core: a verified model

This project models the part of the trading system that decides and simulates, and proves what the
simulator is relied on for. It covers the shared-equity portfolio replay and the engine cycle that drives
it, the single-symbol replay with its event log and the trade report read back from that log, the option
snapshot ledger with its crash-tolerant append and its freeze compaction, the proof-horizon scan with its
independent twin, and the two allocation algorithms for strategy weights and setup variants.

Prices, quantities and weights are `real`, so every claim is about exact arithmetic; Python's `round` is
written out as round-half-even on a decimal grid (`Numbers`). Time is an integer count of microseconds, and
a `Calendar` gives the market day of an instant, monotone in time. Signal evaluators and indicators are
arbitrary deterministic functions of the bars they are given.

How the files hang together:

- `Numbers`, `Collections`, `Sorting`, `Domain`: rounding, sums, a stable sort by any strict order, and the
  values passed around.
- `Mechanics`, `Sizing`: fills, slippage, exits, stop updates, position sizes.
- `EngineTypes`, `EngineStops`, `EngineEntries`, `Engine`: one engine cycle. Its loops are methods proved equal
  to functions, and `Engine.Obeys` is the contract that the portfolio replay relies on.
- `Portfolio` states the replay as functions on values. `PortfolioLane` proves what each operation keeps on
  one lane, `PortfolioSafety` and `PortfolioRuns` lift that to every point of every run, `PortfolioClock`
  treats the merged timeline, `PortfolioRatchet` the life of a position, and `PortfolioCausality` compares
  two runs. `PortfolioEngine` shows that replays driven by the engine meet every assumption of these
  theorems. `PortfolioRunner` holds the lane objects and the runner that updates them in place, proved
  equal to `Portfolio`.
- `SingleReplay` and `SingleRunner` do the same for the single-symbol runner and its log.
- `SnapshotAppend`, `OptionLedger`, `SnapshotFreeze`: the option snapshot archive.
- `ProofScan`, `ProofHorizon`, `ProofGuard`: the scan and its twin.
- `Weighting`, `WeightingSwing`, `SetupVariants`: the allocation algorithms; `WeightingSwing` treats the caps that
  one redistribution does not settle.

What a run theorem quantifies over: `Portfolio.During(w, k, j, n)` is the state within tick k of world w after
the first j strategies and the first n intents of the next one, so a statement about it holds after every
intent of every strategy on every tick of every run. The assumptions are gathered in
`PortfolioSafety.Usable`: one lane per symbol, strictly increasing bar stamps, a monotone calendar, and
strategies that keep to the engine's contract, which `PortfolioEngine.EngineWorldIsUsable` proves of the
engine for evaluators that answer about the bar they were asked about (`PortfolioEngine.EngineSlotsDrive` shows
that strategies made from the engine are such).

Where code and documentation disagree, the model follows the code:

- The weighting docstring promises weights clipped to the maximum. The cap loop can end with a weight over
  it: `Weighting.CapIsNotUnconditional` computes the input 10, 1, 0 through all fifty passes. When the
  strategies with a positive Sharpe cannot hold the capital within the cap, or all start over it,
  `Weighting.CapHoldsIffAllStartOver` decides from the input whether the cap holds. Otherwise the cap holds if
  one redistribution fits (`Weighting.CapHoldsIfFirstPassFits`), and while the excess swings between strategies
  at the cap what is left of it has a closed form (`WeightingSwing.SwingLeft`): with nothing for the floor to
  lift, the cap breaks if more than the tolerance is left (`WeightingSwing.CapFailsWhileSwinging`), and exactly
  then if only two strategies swing, as with three (`WeightingSwing.ThreeStrategiesCap`).
- The same docstring promises the minimum. Fifty passes are enough for any number of strategies
  (`Weighting.FloorHolds`), and unless the floor is within 1e-12 of an equal share it holds exactly if it is
  feasible (`Weighting.FloorHoldsIffFeasible`).
- Freezing is meant to keep what a boundary lookup sees. Two snapshots with the same stamp break that
  (`SnapshotFreeze.EqualStampsLoseMeaning`), and so does an older frozen file of a session that now has no
  contracts, because its name is among the expected ones and it is not deleted
  (`SnapshotFreeze.LeftOverFileSpeaks`). Both lemmas freeze a concrete archive and name the lookup that
  changes. `SnapshotFreeze.FreezePreservesIff` gives the exact condition for every successful freeze, whichever
  of the two occur together.
- Slippage is described as adverse. Its rounding to four decimals can hand a buyer a lower and a seller a
  higher price (`Mechanics.OffGridBuyCanFillLower`, `Mechanics.OffGridSaleCanFillHigher`);
  `Mechanics.SlippageAdverseIffHalfTick` says for which prices it never does. Share purchases are rounded to
  cents before they slip and are always among them, so only an option's ask or bid, a bar's open or close
  and a stop can be off.

The nightly guard repeats the scan of the proof-horizon audit but reads more exit reasons as end-of-day exits;
`ProofGuard.ReportsAgreeIffSameClassification` says exactly when that shows in a report.

## Model

| member | source | states |
|---|---|---|
| PortfolioCausality.NoLookAhead | src/alpaca_bot/replay/portfolio.py:333-478 | two worlds that agree on every intraday bar closed by T, on the stamps of the next entry_order_active_bars bars of each lane, on daily and context bars dated before T's day and on snapshots recorded by T have the same ticks up to T and the same lanes, equity, trades and blocks after every one of them |
| PortfolioCausality.NoLookAheadWithin | src/alpaca_bot/replay/portfolio.py:387-478 | the same between any two strategies and any two intents of those ticks |
| PortfolioCausality.LaterBarsAreFree | src/alpaca_bot/replay/portfolio.py:188-191 | the premise is met by a world in which any bar closing after T is replaced by any other bar of the same stamp |
| PortfolioCausality.FartherBarsAreFree | src/alpaca_bot/replay/portfolio.py:193-222 | and by one in which a series goes on in any other way, or ends, after the next entry_order_active_bars bars |
| PortfolioCausality.MarkIsHarmless | src/alpaca_bot/core/engine.py:59-69 | the mark that all closes of a whole daily series are positive, which is computed from future bars too, never changes the bars a cycle works on |
| PortfolioCausality.PrefixIsEverythingEarlier | src/alpaca_bot/replay/portfolio.py:224-240 | in a sorted series the daily slice holds a bar exactly if it is dated before the current day |
| PortfolioCausality.SameCycle | src/alpaca_bot/replay/portfolio.py:388-440 | up to those marks, a strategy is handed the same input in both worlds |
| PortfolioRuns.SlotCap | src/alpaca_bot/replay/portfolio.py:387-478 | after every intent of every strategy on every tick the lanes holding an order or a position number at most max_open_positions, although each strategy sees only its own positions |
| PortfolioRuns.EquityConserved | src/alpaca_bot/replay/portfolio.py:630-690 | at every such point equity is the starting equity plus the sum of all recorded results, and each fill made, with its symbol, time, price, quantity and strategy, is still held by a lane or closed by a record of its own, as often as it was made |
| PortfolioRuns.RunReconciles | src/alpaca_bot/replay/portfolio.py:309-490 | the records a completed run returns account for its final equity and, together with the open lanes, for each fill made |
| PortfolioRuns.OneAttemptPerDay | src/alpaca_bot/replay/portfolio.py:494-674 | over a whole run no strategy gets two orders on a symbol for signals of the same market day |
| PortfolioRuns.OrdersLiveInTheirWindow | src/alpaca_bot/replay/portfolio.py:193-222 | a lane never holds an order and a position; a working order has bars of its window left, the window has at most entry_order_active_bars bars and starts before its day's flatten time |
| PortfolioRuns.LateExpiryUnreachable | src/alpaca_bot/replay/portfolio.py:532-540 | whenever a lane reaches a bar with an order on its book, the bar is within the order's window, so the branch for bars past the last active one is dead |
| PortfolioRuns.AlwaysInvariant | src/alpaca_bot/replay/portfolio.py:333-478 | exclusivity, order windows, reconciled equity, blocked attempts and the slot bound hold together at every point of every run |
| PortfolioRuns.RoutingInvariant | src/alpaca_bot/replay/portfolio.py:444-478 | routing any number of a cycle's intents keeps that invariant |
| PortfolioSafety.ResolvedKeeps | src/alpaca_bot/replay/portfolio.py:334-367 | moving the fresh lanes on and resolving their fills and exits keeps it |
| PortfolioSafety.CycleOpenCount | src/alpaca_bot/replay/portfolio.py:397-408 | the occupied slots a strategy is told of are exactly the busy lanes |
| PortfolioSafety.CycleHolds | src/alpaca_bot/replay/portfolio.py:388-405 | a strategy sees a busy lane either as its own position or among the working symbols, and a symbol it holds is a lane whose position is its own |
| PortfolioSafety.NewAttempt | src/alpaca_bot/replay/portfolio.py:494-523 | a strategy that places an order has not tried that symbol for that day before |
| PortfolioLane.NeverPastWindow | src/alpaca_bot/replay/portfolio.py:525-552 | a pending order is resolved on a bar between its first and last active one, and survives only if bars are left |
| PortfolioLane.PlaceKeepsLane | src/alpaca_bot/replay/portfolio.py:494-523 | a placed order's window starts at the next bar, ends before that day's flatten time and spans at most entry_order_active_bars bars |
| PortfolioLane.ResolveIsDecisive | src/alpaca_bot/replay/portfolio.py:525-658 | after a lane has resolved a bar no share position is left whose stop the bar hit or whose target it reached and no order past its last active bar or able to fill; a share order fills only on a bar that traded through its stop within its limit, never above the limit |
| PortfolioLane.ExitsAreDecisive | src/alpaca_bot/replay/portfolio.py:630-658 | at most one record per lane and bar, and the stop takes precedence over the target |
| PortfolioLane.ResolveConserves | src/alpaca_bot/replay/portfolio.py:525-658 | resolving a bar moves equity by exactly what it records, and each fill made or closed meanwhile is then held by the lane or in the records |
| PortfolioLane.GainIsRecorded | src/alpaca_bot/replay/portfolio.py:630-690 | what each kind of exit adds to equity, written out at the exit itself, is the result that its record states on its own |
| PortfolioLane.ApplyConserves | src/alpaca_bot/replay/portfolio.py:452-476 | so does routing any intent, with options counted a hundredfold |
| PortfolioLane.ResolveBlocks | src/alpaca_bot/replay/portfolio.py:525-658 | an attempt stays blocked while its order waits, expires or fills and while its position is stopped out or reaches its target |
| PortfolioLane.ApplyBlocks | src/alpaca_bot/replay/portfolio.py:660-674 | and when the engine closes its position |
| PortfolioClock.CursorsKeepStep | src/alpaca_bot/replay/portfolio.py:176-191 | at every point of tick k a lane has completed exactly the bars that closed by then, so its cursor plus one is their number |
| PortfolioClock.EveryBarOnce | src/alpaca_bot/replay/portfolio.py:333-343 | a lane is fresh on a tick exactly if one of its bars closes then, and no tick is idle |
| PortfolioClock.StepIsDue | src/alpaca_bot/replay/portfolio.py:176-186 | no bar closes strictly between two neighbouring ticks of the merged timeline |
| PortfolioRatchet.StopNeverLoosens | src/alpaca_bot/replay/portfolio.py:467-476 | a position held after one tick and still held at any later point has the same terms and a stop and high-water mark that have not fallen |
| PortfolioEngine.EngineWorldIsUsable | src/alpaca_bot/replay/portfolio.py:410-440 | replays whose strategies are engine cycles meet every assumption of the run theorems and of the causality theorem |
| PortfolioEngine.CycleStopsTakeEffect | src/alpaca_bot/replay/portfolio.py:467-476 | after a strategy's whole cycle a fresh position that was not closed stands at the tightest stop its passes emitted |
| PortfolioEngine.RoutedStops | src/alpaca_bot/replay/portfolio.py:444-478 | routing offers a held position each emitted stop in turn and applies exactly those that tighten it |
| PortfolioRunner.PortfolioReplayRunner.Replay | src/alpaca_bot/replay/portfolio.py:309-490 | the loop over the timeline, working on lane objects in place, returns what the functional run returns |
| PortfolioRunner.PortfolioReplayRunner.RunTick | src/alpaca_bot/replay/portfolio.py:333-478 | one tick in place changes the lanes and the book as the functional tick does |
| PortfolioRunner.PortfolioReplayRunner.AdvanceLanes | src/alpaca_bot/replay/portfolio.py:334-343 | cursors of exactly the fresh lanes move by one |
| PortfolioRunner.PortfolioReplayRunner.ResolveFresh | src/alpaca_bot/replay/portfolio.py:345-367 | fresh lanes are resolved in order against one shared book, the others are untouched |
| PortfolioRunner.PortfolioReplayRunner.RunStrategies | src/alpaca_bot/replay/portfolio.py:374-478 | market data collected once per tick is still right for every later strategy of the tick |
| PortfolioRunner.PortfolioReplayRunner.RouteIntents | src/alpaca_bot/replay/portfolio.py:444-478 | intents are routed one by one to the lane of their symbol |
| PortfolioRunner.PortfolioReplayRunner.ResolveWorkingOrder | src/alpaca_bot/replay/portfolio.py:525-628 | wait, expire or fill, for share and option orders |
| PortfolioRunner.PortfolioReplayRunner.ResolveOpenPosition | src/alpaca_bot/replay/portfolio.py:630-658 | stop before target, options left alone |
| PortfolioRunner.PortfolioReplayRunner.PlaceWorkingOrder | src/alpaca_bot/replay/portfolio.py:494-523 | no order on a busy lane, without a ledger for an option, without a next bar or without a bar before flatten |
| PortfolioRunner.PortfolioReplayRunner.ApplyIntent | src/alpaca_bot/replay/portfolio.py:452-478 | exits and stop updates act only on a fresh lane; a stop moves only if it tightens |
| PortfolioRunner.PortfolioReplayRunner.DailySliceFor | src/alpaca_bot/replay/portfolio.py:224-240 | the cached counting loop yields the longest prefix dated before the day, whatever was cached before |
| PortfolioRunner.PortfolioReplayRunner.BuildTimeline | src/alpaca_bot/replay/portfolio.py:176-186 | the union of all close times, each once, in order |
| PortfolioRunner.RaisedSticks | src/alpaca_bot/replay/portfolio.py:676-690 | a raised exception is never undone by a later tick, so ending the run early loses nothing |
| Portfolio.InsertStamp | src/alpaca_bot/replay/portfolio.py:181-186 | adding a stamp keeps the timeline strictly increasing and adds nothing else |
| Portfolio.LastBefore | src/alpaca_bot/replay/portfolio.py:214-222 | the backward scan returns a stamp of the window that is before the flatten time |
| Engine.CycleObeys | src/alpaca_bot/core/engine.py:174-1479 | a cycle asks for no more entries than slots are free; each entry goes to a distinct lane that is neither held nor working nor tried today, and carries its latest bar's stamp and a positive quantity; every other intent concerns an own position |
| Engine.EntryIntentsObey | src/alpaca_bot/core/engine.py:1397-1467 | selected entries fit the slots, go to distinct free lanes and keep total exposure within its cap |
| Engine.SortedStopsSettle | src/alpaca_bot/core/engine.py:1469-1469 | after the closing sort, offering a position its emitted stops in that order still leaves the last rung of its ladder, and an exit excludes stops |
| Engine.RunCycle | src/alpaca_bot/core/engine.py:174-1479 | the cycle as loops over positions and symbols gives the specified intents, and fails exactly if the evaluation of a candidate raises |
| EngineStops.StopsRatchet | src/alpaca_bot/core/engine.py:238-697 | the stops emitted for a position by the four passes tighten strictly, each the one before it and the first the position's own, none reaches the latest close, and a position that is closed gets none; long and short |
| EngineStops.LadderTop | src/alpaca_bot/replay/mechanics.py:48-52 | offering those stops in any order leaves the last one in force |
| EngineStops.RunFirstPass | src/alpaca_bot/core/engine.py:238-532 | the exit-and-trailing loop, past the flatten time closing each symbol once |
| EngineStops.RunLaterPass | src/alpaca_bot/core/engine.py:534-697 | the three later loops, each against what was emitted before it started |
| EngineEntries.OfferedEntryWithinLimits | src/alpaca_bot/core/engine.py:1314-1395 | a share entry on offer meets the risk budget, the dollar-loss cap and the notional cap at its own limit and stop (a fractional one up to 5e-13 shares), its stop is no farther than the configured distance, and its size is at least one share, or one ten-thousandth, and worth the minimum notional |
| EngineEntries.RankPermutes | src/alpaca_bot/core/engine.py:124-159 | in every mode the ranking is a permutation of the candidates |
| EngineEntries.RankIsCanonical | src/alpaca_bot/core/engine.py:124-159 | with distinct symbols it does not depend on the order in which candidates were found |
| EngineEntries.BalancedRespectsBoth | src/alpaca_bot/core/engine.py:134-155 | in balanced mode a candidate ahead both by close and by volume at equal fillable rank is ahead in the result |
| EngineEntries.Select | src/alpaca_bot/core/engine.py:1401-1413 | the selection never exceeds the slots, the exposure it tracks is the starting one plus that of everything chosen, and it is within the cap after each choice |
| EngineEntries.SelectionIsMaximal | src/alpaca_bot/core/engine.py:1402-1413 | with non-negative exposures and slots left, adding any rejected candidate to the final selection would break the cap |
| EngineEntries.AcceptedMeansChosen | src/alpaca_bot/core/engine.py:1414-1467 | records marked accepted and emitted entries correspond one to one |
| EngineEntries.SelectGreedily | src/alpaca_bot/core/engine.py:1401-1413 | the loop that stops at full slots and skips what does not fit computes that selection |
| EngineEntries.CollectCandidates | src/alpaca_bot/core/engine.py:879-1395 | the loop over the symbols collects the offered candidates in order and ends at the first that raises |
| Mechanics.OfferOrderIrrelevant | src/alpaca_bot/replay/mechanics.py:48-52 | in whatever order stop candidates are offered, the tightest wins |
| Mechanics.Offered | src/alpaca_bot/replay/mechanics.py:48-52 | the stop after a series of offers is no looser than the first one or any offer |
| Mechanics.SlippageAdverseIffHalfTick | src/alpaca_bot/replay/mechanics.py:16-21 | for a positive price slippage never favours the trader, on either side and at any rate, exactly if the price is a whole or a half number of ten-thousandths |
| Mechanics.BuySlippageAdverseIff | src/alpaca_bot/replay/mechanics.py:16-21 | at a given positive rate a purchase fills at its price or higher exactly if the slipped price is past the middle below the next grid price, or in that middle with an even grid price above |
| Mechanics.SaleSlippageAdverseIff | src/alpaca_bot/replay/mechanics.py:16-21 | the mirror for a sale |
| Mechanics.OffGridBuyCanFillLower | src/alpaca_bot/replay/mechanics.py:16-21 | a purchase that fills lower: 0.00004 at one basis point |
| Mechanics.OffGridSaleCanFillHigher | src/alpaca_bot/replay/mechanics.py:16-21 | a sale that fills higher: 0.00006 at one basis point |
| Mechanics.ShareEntryIsAdverse | src/alpaca_bot/replay/mechanics.py:24-40 | a share entry, rounded to cents before it slips, never fills above its limit nor below the lower of its raw fill and its limit |
| Sizing.FitsIffAtMostExact | src/alpaca_bot/risk/sizing.py:27-48 | a size meets the risk budget, the dollar-loss cap and the notional cap exactly if it is at most the least of three quotients |
| Sizing.WholeShareOptimum | src/alpaca_bot/risk/sizing.py:24-54 | the whole-share size meets all three limits, and a whole number meets them exactly if it is no larger |
| Sizing.FractionalSizeBounds | src/alpaca_bot/risk/sizing.py:11-54 | the fractional size is a multiple of 1/10000, above the exact minimum by at most 5e-13 and short of it by less than 1e-4 + 5e-13 |
| Sizing.CalculatePositionSize | src/alpaca_bot/risk/sizing.py:16-54 | the stepwise computation with its early returns |
| SingleReplay.LogIsGrammatical | src/alpaca_bot/replay/runner.py:193-364 | after any number of bars and whatever the engine asks for, the log reads placed, then expired or filled, then stop updates that tighten, then one exit, and its phase is the runner's state |
| SingleReplay.ReportMatchesEquity | src/alpaca_bot/replay/report.py:134-173 | the report finds as many trades as there are exits, and their total is the change in equity to within half a cent per share traded |
| SingleReplay.ExitsFindTheirFills | src/alpaca_bot/replay/report.py:134-173 | reading any log in good order, every exit finds its fill and only the open position's fill is left over |
| SingleReplay.LeaveKeeps | src/alpaca_bot/replay/runner.py:455-555 | each kind of exit closes one grammatical round trip and costs at most half a cent a share, the difference between the rounded event and the booked price |
| SingleReplay.ExtractTrades | src/alpaca_bot/replay/report.py:134-173 | the loop with its dictionary of open fills computes the specified extraction |
| SingleRunner.ReplayState.Run | src/alpaca_bot/replay/runner.py:157-363 | the bar loop on mutable state writes the specified log |
| SingleRunner.ReplayState.ProcessBar | src/alpaca_bot/replay/runner.py:193-295 | one bar: order, stop, target, and the engine only if neither was hit |
| SingleRunner.ReplayState.ProcessExistingOrder | src/alpaca_bot/replay/runner.py:366-453 | wait, expire or fill, with the matching event |
| SingleRunner.ReplayState.ProcessStopHit | src/alpaca_bot/replay/runner.py:455-491 | a hit stop closes at the slipped worse of stop and open; otherwise only the high-water mark moves |
| SingleRunner.ReplayState.ProcessProfitTargetHit | src/alpaca_bot/replay/runner.py:493-529 | a reached target closes at its slipped price |
| SingleRunner.ReplayState.HandleIntents | src/alpaca_bot/replay/runner.py:297-355 | exits, stop updates and entries in the engine's order |
| SnapshotAppend.TruncateIncompleteTail | src/alpaca_bot/replay/option_snapshots.py:186-205 | the chunked backward scan terminates and leaves the longest prefix that ends in a newline |
| SnapshotAppend.AppendRecord | src/alpaca_bot/replay/option_snapshots.py:177-183 | an append leaves that prefix followed by the new record |
| SnapshotAppend.CrashesLoseOnlyTornRecords | src/alpaca_bot/replay/option_snapshots.py:159-205 | after any series of appends, each torn at any byte or killed before writing, the complete part of the file is the old one and exactly the records whose newline landed, in order |
| SnapshotAppend.AppendAfterCrashes | src/alpaca_bot/replay/option_snapshots.py:159-205 | a successful append after them leaves exactly those records and the new one |
| SnapshotAppend.LinesOfRecords | src/alpaca_bot/replay/option_snapshots.py:186-205 | the lines of such a file are the record bodies again, whatever torn tail follows |
| OptionLedger.ScanFindsLatest | src/alpaca_bot/replay/option_snapshots.py:28-48 | sorting and scanning backwards finds the latest snapshot of the same UTC day that is not later, the last recorded of equals |
| OptionLedger.LookupsIgnoreTheFuture | src/alpaca_bot/replay/option_snapshots.py:35-83 | a lookup as of T or earlier depends only on snapshots recorded by T |
| OptionLedger.ChainAtOrBefore | src/alpaca_bot/replay/option_snapshots.py:35-48 | the reversed loop returns the chain of that snapshot, empty if there is none |
| OptionLedger.ContractAtOrBefore | src/alpaca_bot/replay/option_snapshots.py:56-73 | the reversed loop looks past snapshots that do not list the contract |
| SnapshotFreeze.FreezePreservesIff | src/alpaca_bot/replay/option_snapshots.py:221-323 | every successful freeze preserves all boundary lookups, for all symbols and dates, exactly if each session passes its own test: where a dropped session leaves an older file in the destination, that file answers as the session does at every boundary of its day; elsewhere, of the records with the latest stamp of a boundary, the first and the last quote the same contracts for every symbol |
| SnapshotFreeze.FreezePreservesIffTiesAgree | src/alpaca_bot/replay/option_snapshots.py:221-323 | without left-over files that is the test of the ties alone |
| SnapshotFreeze.FreezePreservesIffLeftOversSilent | src/alpaca_bot/replay/option_snapshots.py:221-323 | with distinct stamps it is that no left-over file of a dropped session answers anything |
| SnapshotFreeze.FrozenAnswers | src/alpaca_bot/replay/option_snapshots.py:221-323 | what the frozen archive answers in every case, left-over files included |
| SnapshotFreeze.FreezeIsIdempotent | src/alpaca_bot/replay/option_snapshots.py:221-323 | freezing a frozen archive again, with the same interval and into any destination, gives the same archive if the files left over by the first freeze were frozen files of that interval |
| SnapshotFreeze.FreezeTwiceIffLeftOversFixed | src/alpaca_bot/replay/option_snapshots.py:221-323 | and into an empty destination exactly then |
| SnapshotFreeze.OrderedAnswers | src/alpaca_bot/replay/option_snapshots.py:291-301 | at every boundary the retained snapshots of a day show the first recorded of the latest visible ones |
| SnapshotFreeze.RetainFindsLatest | src/alpaca_bot/replay/option_snapshots.py:258-299 | the retained dictionary holds, under the boundaries up to any multiple of the interval, the latest snapshot not after it |
| SnapshotFreeze.EqualStampsLoseMeaning | src/alpaca_bot/replay/option_snapshots.py:297-299 | an archive with two snapshots of one stamp, what it freezes to, and the lookup the two answer differently |
| SnapshotFreeze.LeftOverFileSpeaks | src/alpaca_bot/replay/option_snapshots.py:243-247 | an archive of a session without contracts and one with, frozen over an older file of the first: the file stays, and a lookup that found nothing now finds its contract |
| SnapshotFreeze.FreezeOneFile | src/alpaca_bot/replay/option_snapshots.py:258-303 | the reading loop: blanks skipped, reading ends at a torn line, malformed or misdated records fail |
| SnapshotFreeze.FreezeArchive | src/alpaca_bot/replay/option_snapshots.py:221-323 | the loop over the files with its failures, deletions and left-overs |
| ProofHorizon.ScanStart | src/alpaca_bot/replay/cli.py:2206-2298 | the incremental scan from one start yields the outcome defined from scratch: it passes at the least end whose window has no blockers |
| ProofHorizon.OutcomeIsUnique | src/alpaca_bot/replay/cli.py:2206-2298 | that definition leaves no freedom |
| ProofHorizon.OutcomeLogic | src/alpaca_bot/replay/cli.py:2244-2298 | a start that passes did so at its first threshold or recovered later, never both; a start that does not pass has terminal blockers; the key none is never counted |
| ProofHorizon.StartsAreConserved | src/alpaca_bot/replay/cli.py:2291-2301 | passed plus not proven are all starts, and passed are first-threshold passes plus recoveries |
| ProofHorizon.ReachingIsPrefix | src/alpaca_bot/replay/cli.py:2244-2263 | the starts that reach the minimum number of trades are a prefix of the sessions |
| ProofHorizon.NoneNeverCounted | src/alpaca_bot/replay/cli.py:2404-2412 | the blocker counts never contain none |
| ProofHorizon.ClearMeans | src/alpaca_bot/replay/cli.py:2352-2401 | a window has no blockers exactly if it meets every threshold, with ratios read as products |
| ProofHorizon.AddSession | src/alpaca_bot/replay/cli.py:2223-2237 | the accumulators after one more session are the figures of the longer window computed from scratch |
| ProofHorizon.IncrementBlockerCounts | src/alpaca_bot/replay/cli.py:2404-2412 | each listed blocker is counted once per occurrence, nothing listed counts none |
| ProofHorizon.ProofHorizonSummary | src/alpaca_bot/replay/cli.py:2186-2349 | every counter, rate, blocker count and percentile of the summary is that of the outcomes defined from scratch |
| ProofScan.NearestRank | src/alpaca_bot/replay/cli.py:2415-2420 | a percentile is the least listed value that at least that share of the values does not exceed |
| ProofScan.PercentilesAgree | src/alpaca_bot/nightly/cli.py:1328-1336 | the two percentile routines agree on every list |
| ProofScan.GroupByExitSession | src/alpaca_bot/replay/cli.py:2191-2194 | trades grouped by the market day of their exit, in order |
| ProofGuard.ScanStart | src/alpaca_bot/nightly/cli.py:1095-1146 | the twin's scan yields the same kind of outcome, defined from scratch |
| ProofGuard.ProofGuardMetrics | src/alpaca_bot/nightly/cli.py:1055-1166 | its rates, percentile, slowest pass and active days are those of the outcomes |
| ProofGuard.TwinsAgree | src/alpaca_bot/nightly/cli.py:1048-1213 | with equal thresholds, and losing trades classified alike, both scans report the same figures |
| ProofGuard.ReportsAgreeIffSameClassification | src/alpaca_bot/nightly/cli.py:1048-1213 | for all sessions and thresholds the two reports agree exactly if every losing trade has the reason eod or one that the guard does not read as an end-of-day exit either |
| ProofGuard.DifferenceShows | src/alpaca_bot/nightly/cli.py:1212-1213 | one losing trade read differently is enough: on its own session, under limits that the audit just meets, the reports differ |
| ProofGuard.FlattenReasonShows | src/alpaca_bot/nightly/cli.py:1212-1213 | a losing trade with the raw flatten reason, or eod in capitals with blanks, is such a trade |
| Weighting.WeightsSumToOne | src/alpaca_bot/risk/weighting.py:68-124 | the weights of at least one strategy add up to exactly one, whatever the limits |
| Weighting.FloorHolds | src/alpaca_bot/risk/weighting.py:105-124 | for any number of strategies and a floor they can all be given, every weight is at least the floor less 1e-12, and none is negative |
| Weighting.FloorHoldsIffFeasible | src/alpaca_bot/risk/weighting.py:26-26 | unless the floor is within 1e-12 of an equal share, all weights keep it exactly if they can all be given it |
| Weighting.InfeasibleFloorFails | src/alpaca_bot/risk/weighting.py:26-26 | a floor too high for the number of strategies is always broken |
| Weighting.PotentialQuarters | src/alpaca_bot/risk/weighting.py:106-120 | the deficit times the number of strategies above the floor falls to a quarter or less with every pass |
| Weighting.FloorLoopSettles | src/alpaca_bot/risk/weighting.py:105-120 | the floor loop reaches its fixpoint within the passes it has, if they are at least one for every strategy but one that is not pinned yet, or enough to quarter the potential down to 1e-12 |
| Weighting.FloorPassPins | src/alpaca_bot/risk/weighting.py:106-120 | every pass that is not the last pins at least one more strategy at the floor and frees none |
| Weighting.FloorPassConserves | src/alpaca_bot/risk/weighting.py:106-120 | a floor pass keeps the total |
| Weighting.CapPassConserves | src/alpaca_bot/risk/weighting.py:82-103 | a cap pass keeps the total |
| Weighting.CapHoldsIffAllStartOver | src/alpaca_bot/risk/weighting.py:81-124 | let k of n strategies have a positive Sharpe; if k caps and n - k floors do not use up the capital, or all k positive shares exceed the cap, then every final weight is at most the cap plus 1e-12 exactly if all k positive shares exceed the cap and n caps cover the capital, the same tolerance granted throughout |
| Weighting.CrowdedCapFails | src/alpaca_bot/risk/weighting.py:81-124 | in the first of these cases, if some positive share is within the cap, some final weight breaks it: strategies without a Sharpe are never handed any excess and end at the floor or below |
| Weighting.CapHoldsIfFirstPassFits | src/alpaca_bot/risk/weighting.py:81-124 | for any Sharpes and a floor no higher than the cap, the cap holds if the shares over it, put at the cap, leave an amount that the other strategies can divide by Sharpe, or equally if none of them has one, without exceeding it |
| WeightingSwing.CapFailsWhileSwinging | src/alpaca_bot/risk/weighting.py:81-124 | for any number of strategies and shares that the floor does not lift, the cap breaks if one share starts over it, the first pass takes another to the cap or over it, and the excess over it, cut by their two parts of the free Sharpe in turn over the passes that remain, stays above 1e-12 |
| WeightingSwing.CapHoldsIffSwingDies | src/alpaca_bot/risk/weighting.py:81-124 | if only one share starts over the cap and what passes on can take no third one over it, the cap holds exactly if that excess comes down to 1e-12 |
| WeightingSwing.HeldCapHasNoSwing | src/alpaca_bot/risk/weighting.py:81-124 | for any number of strategies, a cap that holds has no pair whose swing lasts |
| WeightingSwing.ThreeStrategiesCap | src/alpaca_bot/risk/weighting.py:81-124 | for three strategies and a cap of at least a third, the cap holds exactly if no swing lasts |
| WeightingSwing.LastExcessIsGeometric | src/alpaca_bot/risk/weighting.py:82-103 | the closed form: the excess falls by the product of the two parts with every two passes |
| WeightingSwing.SwingDecides | src/alpaca_bot/risk/weighting.py:82-103 | the cap loop of two swinging strategies settles exactly if the excess, in closed form, comes down to the tolerance |
| Weighting.EqualWeightsCap | src/alpaca_bot/risk/weighting.py:68-79 | without any Sharpe, or with one strategy, the cap holds exactly if n caps cover the capital |
| Weighting.FirstPassAt | src/alpaca_bot/risk/weighting.py:82-103 | what the first pass leaves a strategy within the cap: its part, by Sharpe or equal, of what the others leave at the cap |
| Weighting.InfeasibleCapFails | src/alpaca_bot/risk/weighting.py:26-26 | a cap too small for the number of strategies is always broken |
| Weighting.CapIsNotUnconditional | src/alpaca_bot/risk/weighting.py:26-26 | with Sharpes 10, 1, 0 and limits 0.01 and 0.4 the weights are 0.594, 0.396, 0.01 |
| Weighting.ComputeStrategyWeights | src/alpaca_bot/risk/weighting.py:68-124 | the two bounded loops compute the specified weights |
| Weighting.RedistributeExcess | src/alpaca_bot/risk/weighting.py:82-103 | one cap pass, excess shared by Sharpe or equally |
| Weighting.RaiseToFloor | src/alpaca_bot/risk/weighting.py:106-120 | one floor pass |
| SetupVariants.StratifiedVariantCap | src/alpaca_bot/nightly/setup_variants.py:21-61 | a negative maximum fails, few rows are returned as they are, and otherwise the rows at the capped positions under fair quotas |
| SetupVariants.AllocateQuotas | src/alpaca_bot/nightly/setup_variants.py:36-49 | the round-robin loop terminates with nothing remaining and with a fair split: quotas differ by more than one only if the smaller is exhausted |
| SetupVariants.FairIsUnique | src/alpaca_bot/nightly/setup_variants.py:36-49 | a fair split that serves earlier candidates first is unique |
| SetupVariants.CapCount | src/alpaca_bot/nightly/setup_variants.py:55-61 | exactly max_variants positions are kept |
| SetupVariants.CapOrder | src/alpaca_bot/nightly/setup_variants.py:51-61 | they are distinct, and rows of one candidate keep their input order |
| SetupVariants.CapKeeps | src/alpaca_bot/nightly/setup_variants.py:51-61 | every row selected for a candidate is among them |
| SetupVariants.CapReachesEnds | src/alpaca_bot/nightly/setup_variants.py:9-18 | a candidate with a quota of at least two keeps its first and its last row |
| SetupVariants.SpreadIncreasing | src/alpaca_bot/nightly/setup_variants.py:17-18 | half-even rounding never makes two evenly spaced positions collide |
| SetupVariants.Interleave | src/alpaca_bot/nightly/setup_variants.py:55-61 | the nested loop emits the selected rows column by column |
| Sorting.SortIsCanonical | src/alpaca_bot/core/engine.py:129-159 | sorting by a strict order of its elements forgets the input order |

## Left out

- Strategy signal evaluators, indicators, average true range and the market-context computation: functions of the bars they are given.
- Live runtime, broker and data adapters, storage, notifications, configuration parsing, command lines and report rendering: plumbing around the modelled core.
- Extended-hours sessions, flatten_all, entries_disabled, the news filter and the spread filter of evaluate_cycle: the replays never switch them on.
- Decision records other than whether a candidate was accepted: payload.
- IEEE rounding: arithmetic is exact, literals are taken at their decimal value, and the closing normalisation of the weights divides by exactly one.
- Time zones: an abstract monotone day function and a flatten time per day.
- The indexing of scenarios (sorting bars, choosing the regime, VIX and sector series): a world starts from lanes already in time order; duplicate symbols, which the runner rejects, are excluded.
- Bars with equal stamps in one lane: the cursor rule would stall such a lane.
- Symbol upper-casing in the option ledger, and snapshots that name a symbol twice.
- The market-context cache and the as_of stamp inside a context: the context is recomputed from the same slices.
- return_pct of a trade record; the division it makes is kept as the error on a zero entry price in the portfolio replay.
- Position objects: a position is a value in its lane's field, so two owners of one position object are not captured.
- SingleReplay.Place: an order without stop prices (an option entry, which that runner is not used for) fails when it is placed; the original fails when the order is first priced.
- SingleReplay.ReportMatchesEquity: the division of a result by a zero entry price in the report is not modelled.
- The market context and the regime override of the single-symbol runner: one context per day is an input.
- PortfolioSafety.Usable: strategy names are assumed not to be empty, since an empty name falls back to the runner's own.
- PortfolioRuns.OneAttemptPerDay: assumes that evaluators answer about the bar they were asked about.
- PortfolioCausality.NoLookAhead: the two worlds share the stamps of the next entry_order_active_bars bars of each lane (of one bar at least), because the runner reads them when it places an order; of a context series it is also assumed that both worlds have one or neither has.
- Weighting.CapHoldsIfFirstPassFits: one direction only. Where the strategies with a positive Sharpe could hold the capital but one redistribution does not fit, WeightingSwing decides the cases in which two strategies swing, and says when a swing of two breaks the cap whatever the others do; open are three or more strategies over the cap in turn of which no pair alone carries enough excess.
- WeightingSwing.CapFailsWhileSwinging: the shares are assumed to leave the floor nothing to lift; otherwise its passes take something back from the strategies over the cap. So do CapHoldsIffSwingDies, HeldCapHasNoSwing and ThreeStrategiesCap.
- Weighting.CapHoldsIffAllStartOver: where all positive shares start over the cap, leaves out caps that miss an equal share of the capital by between (n - k)/n and all of the tolerance 1e-12, for the same reason.
- Sharpe ratios are given non-negative numbers, one per distinct strategy.
- Weighting.FloorHoldsIffFeasible: leaves out floors within the tolerance 1e-12 of an equal share of the capital.
- SnapshotFreeze.FreezeTwiceIffLeftOversFixed: the second destination is empty; a file it holds for a dropped session may stay there.
- Freezing: file-system errors, invalid file names, the summary's counts, and what is left in the destination when a later file fails; instants before 1970.
- contract_at_or_before across freezing: it may find a contract only in a snapshot that freezing drops, so it is not preserved.
- Bootstrap statistics, drawdown, streaks and Sharpe ratios of the report: simple folds or irrational arithmetic.

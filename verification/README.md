# Proofs about the whale-copy engine

A Dafny model of the Rust engine that copies trades of tracked wallets, and of the control bot's event notifier, with
proofs of what its sizing, risk gate, accounting, caches, reconciliation, rotation and reconnect logic guarantee.
Verify everything with `dafny verify dfyconfig.toml`.

All money, prices and percentages are exact reals. `round_down(v, 4)` is the floor of `v * 10000`, divided by 10000.
32-bit and 64-bit words are written out where they wrap, saturate or get reinterpreted.

## How it is organised

| file | what it holds |
|---|---|
| `Types.dfy`, `Rounding.dfy`, `Collections.dfy` | shared values; the four-decimal floor; lists, iteration orders of maps, order-free sums |
| `Signals.dfy` | sizing a copied trade, the risk gate, the limit price |
| `Execution.dfy` | simulated fills and the live retry ladder |
| `Drawdown.dfy`, `Performance.dfy`, `Pnl.dfy` | high-water mark and drawdown; per-wallet records and the automatic stop; the ledger |
| `Dedupe.dfy`, `EventLog.dfy`, `Notifier.dfy` | the id cache, the event ring, the bot that polls it |
| `Reconciliation.dfy`, `Rotation.dfy`, `Reconnect.dfy` | comparing positions, rotating wallets, backing off and giving up |
| `EngineModel.dfy` | the engine as a machine of interleaved steps |
| `EngineOrders.dfy`, `EngineSteps.dfy` | which fills are copied, for how much and with what effect; what every other step changes |
| `EngineHistory.dfy`, `EngineCaps.dfy`, `EnginePause.dfy`, `EngineAutoStop.dfy`, `EngineDedupe.dfy` | theorems about every run of that machine |
| `EngineState.dfy`, `EngineRun.dfy` | the shared state as a class, whose methods are the machine's steps; driving it through any interleaving |

The machine of `EngineModel` follows the locking of `process_fill_event`: a snapshot under the lock, decision and
execution without it, a commit under it again. One task runs it, so its steps come in this order, while the steps of
the other tasks (caps, mode, profile, multiplier, equity, copy-sells, pause, resume, panic, automatic stop, resuming a
wallet, a critical reconciliation, auto-correct) can fall anywhere. `Log` lists what an observer sees of a run:
snapshots, executions and commits. A theorem quantified over `steps: seq<Step>` is a theorem about every interleaving.

State the source updates in place is a class here; each method is proved to be a function of the old state, and the
lemmas are about those functions. Iteration orders of hash maps, sort results, fresh ids, clock values, random draws
and the venue's replies are parameters: a statement holds for all of them.

## What the proofs found

Where the code and its own documentation or evident intent disagree, the model follows the code.

- The daily notional counter is reset only by the REST loop (`engine-rs/src/main.rs:378-381`). With the WebSocket task
  there is no reset, so the counter only grows, by exactly the committed notionals (`EngineCaps.DailyIsSumOfCommits`),
  and all commits of a run together share one daily cap (`EngineCaps.AllCommitsShareOneCap`).
- An auto-correct between a fill's snapshot and its commit can let the commit exceed the exposure cap and the position
  cap (`EngineCaps.CorrectionInFlightBreaksCaps`). `EngineCaps.CapsExceededExactly` says of every run, from the snapshot
  and the auto-corrects that follow it, whether it does.
- `resume_wallet` clears a set that the copying path never reads, so it has no effect on copying
  (`EngineAutoStop.ResumeWalletIsIrrelevant`): within a run only changing the stop configuration lets a stopped wallet
  be copied again.
- With at least one grid step of offset a simulated fill buys at or above the source price and sells at or below it, so
  with the stop armed a dry run stops every wallet after `max(1, min_trades_before_stop)` copies
  (`EngineAutoStop.DryRunStarves`). `Signals.LimitBeatsSourceExactly` says for which prices and offsets the limit beats
  the source price after all: beyond the clamp, or when a buy's offset is too small to undo the floor.
- At the default price offset of 0.01 the deviation guard ends the retry ladder before its second order
  (`Execution.DefaultOffsetNeverRetries`); `Execution.SecondOrderPossible` gives the exact condition for a second one.
- When the guard ends the ladder, `attempts` counts an order that was never sent (`Execution.RetryLadder`). Without a
  positive limit price the guard is off; that is a buy whose price plus offset is below one grid step
  (`Signals.LimitPriceRange`).
- `set_caps` writes field by field, so a rejected call can change the caps (`EngineModel.RejectedCapsStillWrite`); it
  does exactly if a field before the first bad one is given with another value
  (`EngineModel.SetCapsWritesUpToFirstBad`).
- `record_entry` in an occupied market loses the replaced position's entry fee from the realized figures
  (`Pnl.OverwritingLosesFee`). `Pnl.FeesAddUpExactly` says when the fees still add up: without rebates, exactly if no
  entry overwrites a position that has paid an entry fee.
- Reconciliation compares the exchange's shares with the engine's dollars and takes every tracked market as a Yes
  position, so auto-correct rarely removes the critical findings: `Reconciliation.AutoCorrectConvergesExactly` says
  when, and `Reconciliation.AutoCorrectNeedsUnitPrices` that it comes down to prices close to one.
  The comment says severity is above 10%, the code at or above the configured percentage.
- The jitter comment says plus or minus 25%, but the cast to unsigned makes every negative draw a no-op. Every delay
  stays within a quarter above its cap exactly if that quarter fits in 64 bits; otherwise the addition can overflow,
  which a checked build turns into a panic and another into a wrapped delay (`Reconnect.JitterBounds`).
- The notifier marks an event as seen before sending it, so a failed send is never retried
  (`Notifier.FailedSendsAreLost`).
- A suggestion is weighed against the latest fetch, an approval against every stored score, so an approval can lower
  the tracked wallets' total score (`Rotation.ApprovalCanLowerTotal`). It gains the threshold exactly if some tracked
  wallet's stored score is that far below the suggested one (`Rotation.ApprovalMeetsThreshold`).

## Model

| member | source | states |
|---|---|---|
| Rounding.RoundDown4 | engine-rs/src/signals.rs:711-714 | the floor is at most the value and less than one grid step below it, and positive exactly from one grid step on |
| Rounding.OnGrid | engine-rs/src/signals.rs:711-714 | the floor is a whole number of ten-thousandths |
| Rounding.RoundDownMonotone | engine-rs/src/signals.rs:711-714 | the floor keeps the order |
| Rounding.RoundDownIdempotent | engine-rs/src/signals.rs:711-714 | flooring twice changes nothing |
| Rounding.FlooredQuantityResidual | engine-rs/src/signals.rs:181-184 | a quantity floored to the grid leaves less than one grid step of quantity unspent |
| Signals.BuiltSignalShape | engine-rs/src/signals.rs:59-106 | a built signal has positive amounts on the grid, its quantity costs at most its notional, and its notional is in proportion to the source's trade |
| Signals.CopyIsProportional | engine-rs/src/signals.rs:64-84 | a copy's notional times the source's equity, or the fallback if that is not positive, is the source's notional times the follower's equity and the multiplier, short of less than one grid step of the equity |
| Signals.BuiltShare | engine-rs/src/signals.rs:64-105 | there is a signal exactly if notional, price and equity are positive and the floored share buys one grid step of quantity; it carries that floor, a quantity that wastes less than one step, and the fill's own fields |
| Signals.LeastLimit | engine-rs/src/signals.rs:125-153 | the nested minimums are the least of the four limits, whatever their order |
| Signals.SizingComposition | engine-rs/src/signals.rs:108-203 | the gate depends on the four limits only through the least one; it lets a trade through exactly under one inequality on it, with exactly the floor of it, wasting less than one grid step, and unchanged when no cap binds |
| Signals.GateMonotone | engine-rs/src/signals.rs:108-203 | less exposure, less daily notional and fewer open positions never turn an allow into a block nor shrink notional or quantity, through both floors |
| Signals.AllowedFits | engine-rs/src/signals.rs:129-153 | an allowed trade differs from the raw one only in size and fits inside what is left of the market and daily caps |
| Signals.LimitPriceRange | engine-rs/src/signals.rs:205-222 | the limit price stays on its side of the clamp and fails to be positive exactly for a buy below one grid step |
| Signals.IntentExactly | engine-rs/src/signals.rs:205-222 | the order is for the signal's trade and quantity, its price less than one grid step under the offset and clamped price and on the grid, its attempts and tolerated deviation those of the profile, in numbers |
| Signals.LimitBeatsSourceExactly | engine-rs/src/signals.rs:205-222 | for every offset the configuration accepts, the limit price is better than the source's exactly if the source traded beyond the clamp, or the offset of a buy does not reach the next grid point |
| Execution.ExecuteIntent | engine-rs/src/signals.rs:224-365 | the loop sends exactly the orders, and returns exactly the result, of the recursive ladder `Climb`, or the simulated fill or refusal of the other modes |
| Execution.GuardPassesBudget | engine-rs/src/signals.rs:695-701 | the relative-deviation guard passes exactly the rungs below a closed-form budget |
| Execution.DeviationCleared | engine-rs/src/signals.rs:695-701 | the guard trips exactly if ten thousand times the price's distance exceeds the limit price times the tolerated basis points |
| Execution.LadderFrom | engine-rs/src/signals.rs:270-364 | from any rung on: each order's price is its closed form, a fill inside the budget ends the ladder there, otherwise exactly the budget is sent |
| Execution.RetryLadder | engine-rs/src/signals.rs:267-364 | for an intent the engine built: which orders go out at which prices, all within the tolerated deviation; success exactly if some order of the budget is filled, and then the reported quantity floored to the grid and the reported price, or the order's own where the venue gives none; otherwise the whole budget is sent, nothing is reported filled, and the attempts are one more when the guard stopped it |
| Execution.ClimbReports | engine-rs/src/signals.rs:305-325 | from any attempt on, what a fill by the n-th order reports is the n-th reply's quantity, floored, and price, with the intent's quantity and the n-th order's price for missing ones |
| Execution.OtherModes | engine-rs/src/signals.rs:234-268 | without a venue or in a dry run nothing is sent; the fill is the whole order at its limit, or a refusal exactly in live mode without simulation |
| Execution.UnclampedBudget | engine-rs/src/signals.rs:270-288 | with no clamp in the way, the number of orders is `min(max_attempts, 1 + floor(tolerance / step))` |
| Execution.SecondOrderPossible | engine-rs/src/signals.rs:271-288 | a second order is possible exactly if one step, or the room to the clamp, is within the tolerance |
| Execution.DefaultOffsetNeverRetries | engine-rs/src/signals.rs:271-288 | at an offset of 0.01 no risk profile ever sends a second order, except next to the clamp |
| Drawdown.TrackIsExact | engine-rs/src/performance.rs:62-71 | for every history the one-pass figures equal their definitions: peak is the largest prefix sum, maximum drawdown the largest fall between any two prefixes, current drawdown peak less total |
| Performance.WalletPerformance.RecordTrade | engine-rs/src/performance.rs:44-75 | one trade takes the record to `WithTrade` of it |
| Performance.RecordIsExact | engine-rs/src/performance.rs:44-75 | after any history: counts of trades, wins and losses, win rate, average, total, peak and drawdowns are those of the whole history |
| Performance.StopFiresExactly | engine-rs/src/performance.rs:78-95 | for a record of any history: the check fires exactly if the stop is enabled, there are enough outcomes, and either a hundred times the wins fall short of the minimum rate times the outcomes, or some fall of the profit between two moments exceeds the limit; the win rate is the reason given first, else the worst fall, each with its value |
| Performance.ReasonExplains | engine-rs/src/performance.rs:158-178 | the two tests and the two reasons, from the record's rate and worst fall to the history |
| Performance.PerformanceTracker.RecordTrade | engine-rs/src/performance.rs:147-150 | updates this wallet's record, created if missing, and no other wallet's |
| Performance.PerformanceTracker.GetOrCreate | engine-rs/src/performance.rs:137-141 | returns the wallet's own record, shared with no other wallet, a new one exactly if there was none |
| Performance.PerformanceTracker.Check | engine-rs/src/performance.rs:153-182 | fires exactly if enabled, the wallet has a record with enough trades, and its win rate is too low or its worst drawdown too large; the answer depends on the configuration and the record alone, and is never the unknown reason |
| Performance.PerformanceTracker.MarkStopped | engine-rs/src/performance.rs:185-187 | adds the wallet to the stopped ones and changes nothing else |
| Performance.PerformanceTracker.ResumeWallet | engine-rs/src/performance.rs:200-202 | removes it, and tells whether it was there |
| Performance.PerformanceTracker.SetAutoStopConfig | engine-rs/src/performance.rs:209-211 | replaces the configuration and changes nothing else |
| Pnl.PnLTracker.RecordEntry | engine-rs/src/pnl.rs:136-158 | opens the position, replacing any other in that market, and counts its fee |
| Pnl.PnLTracker.RecordExit | engine-rs/src/pnl.rs:161-251 | closes the position into a realized record, its day's bucket, the fees and the drawdown figures; without a position nothing changes |
| Pnl.GrossPnlSign | engine-rs/src/pnl.rs:169-172 | a long gains size times exit less size times entry, so exactly on a rise, and a short gains what the long loses |
| Pnl.LedgerAgreement | engine-rs/src/pnl.rs:136-251 | after any run of entries and exits: each day's figures are recomputed from that day's records, the drawdown figures are exact for the whole history, and fees paid are realized fees plus open entry fees plus the entry fees of overwritten positions |
| Pnl.NothingLost | engine-rs/src/pnl.rs:156-157 | without rebates, entry fees are lost exactly if some entry overwrites a position that has paid one |
| Pnl.FeesAddUpExactly | engine-rs/src/pnl.rs:136-213 | after any run the fees paid are realized fees plus open entry fees exactly if nothing was lost; without rebates, exactly if no entry overwrites a position that has paid an entry fee |
| Pnl.OverwritingLosesFee | engine-rs/src/pnl.rs:156-157 | two entries in one market lose the first one's fee |
| Pnl.CashIsConserved | engine-rs/src/pnl.rs:136-251 | after any run of entries and exits the realized total is the cash that came in less the cash that went out, fees included, plus what open positions have tied up and what overwritten ones had paid |
| Pnl.RunCash | engine-rs/src/pnl.rs:136-251 | the same from any ledger whose cash agrees |
| Pnl.NetIsCash | engine-rs/src/pnl.rs:169-175 | a record's net profit is what the exit brings in less what the entry paid out |
| Pnl.OneTrip | engine-rs/src/pnl.rs:136-213 | entering and then leaving a market raises the realized total by size times exit less size times entry less both fees, or the reverse for a short, in one record with these figures, and leaves no position |
| Pnl.DaysPartition | engine-rs/src/pnl.rs:215-236 | any figure summed day by day is its sum over all records |
| Pnl.DailySumsMatchSummary | engine-rs/src/pnl.rs:308-363 | after any run the daily net, win and loss figures, in any order of days, add up to the summary's; wins are the records above zero, losses the others, and the total their net profits |
| Pnl.TotalUnrealizedIsSum | engine-rs/src/pnl.rs:254-305 | the unrealized total is the sum of each position's net estimate, unpriced positions counting nothing |
| Pnl.MarkedValue | engine-rs/src/pnl.rs:264-296 | a position's estimate is size times price less size times entry, or the reverse for a short, less price times size times the fee rate |
| Pnl.CloseAllNets | engine-rs/src/pnl.rs:161-250 | closing any listed positions at their marks realizes their estimates less their entry fees |
| Pnl.MarkToMarket | engine-rs/src/pnl.rs:254-305 | closing every priced position at its mark with the estimated fee, in any order, raises the realized total by exactly the unrealized total less those positions' entry fees, and leaves nothing unrealized; the summary's net profit falls by those entry fees |
| Dedupe.DedupeCache.constructor | engine-rs/src/state.rs:21-27 | starts with nothing accepted |
| Dedupe.DedupeCache.Add | engine-rs/src/state.rs:29-44 | a key is new exactly if it is not among the last `max_size` accepted keys |
| Dedupe.AcceptedWindowDistinct | engine-rs/src/state.rs:29-44 | whatever is requested, any `max_size + 1` consecutive accepted keys are distinct |
| Dedupe.AdmitRefinesAccepted | engine-rs/src/state.rs:29-44 | the bounded queue answers as the unbounded list of accepted keys does and stays its tail |
| EventLog.EventBuffer.constructor | engine-rs/src/state.rs:71 | starts empty |
| EventLog.EventBuffer.Push | engine-rs/src/state.rs:98-101 | the ring stays the last 5000 events of the whole log |
| EventLog.EventBuffer.Tail | engine-rs/src/rpc.rs:247-278 | for every requested limit the answer is the tail of the whole log, or of the archive when the buffer is empty |
| EventLog.EffectiveLimit | engine-rs/src/rpc.rs:249-253 | a positive request up to 500 is served as asked, a larger one as 500, and none as the default up to 500 |
| EventLog.TailServes | engine-rs/src/rpc.rs:247-278 | the answer is that many of the newest events, oldest first, of the log, or of the archive while the log is empty |
| Notifier.EventNotifier.PollOnce | control-bot-ts/src/main.ts:125-162 | one poll primes, or walks the window as `Deliver` does, with truncation of the seen set only if no send failed |
| Notifier.DeliverFrom | control-bot-ts/src/main.ts:138-150 | over a window of the log, some prefix of it seen, the walk sends exactly the unseen notable events in order, up to the first failed send |
| Notifier.PollSendsExactly | control-bot-ts/src/main.ts:126-150 | a poll of a primed bot sends exactly the notable events of its part of the log, up to a failed send |
| Notifier.PollTracked | control-bot-ts/src/main.ts:152-158 | a poll keeps the seen ids in step with the log, across truncations and failed sends |
| Notifier.SeenAfterPoll | control-bot-ts/src/main.ts:138-158 | a poll that no failed send cuts short leaves at most 5000 ids seen: the old ones and those shown, or only those shown if these together are more |
| Notifier.AtMostOnce | control-bot-ts/src/main.ts:125-162 | over every run of a fresh bot, whatever sends fail, sent messages are notable events from after priming, in log order, none twice |
| Notifier.FailedSendsAreLost | control-bot-ts/src/main.ts:138-150 | with at most 120 events past the frontier at each poll, what is sent is exactly the notable events between priming and the frontier, in order, except those whose send failed |
| Notifier.EventSentExactly | control-bot-ts/src/main.ts:29-32 | under the same condition an event has been sent exactly if it was logged between priming and the frontier, is of class critical, trade, risk or rotation, and its own send did not fail |
| Notifier.ExactlyOnce | control-bot-ts/src/main.ts:125-162 | if sends succeed and at most 120 events arrive between polls, everything notable between priming and the last poll is sent exactly once, in order |
| Reconciliation.ReconcilePositions | engine-rs/src/reconciliation.rs:185-289 | the report's four lists are the per-entry classification of the exchange's list and an enumeration of the unshown tracked markets |
| Reconciliation.FindInternalOnly | engine-rs/src/reconciliation.rs:266-278 | lists each tracked market the exchange does not show once, with one warning each |
| Reconciliation.ShouldPause | engine-rs/src/reconciliation.rs:312-327 | pauses exactly if configured to and some finding is critical |
| Reconciliation.EntriesPartition | engine-rs/src/reconciliation.rs:199-264 | as multisets, matched, wrong-sided and untracked entries add up to the exchange's list |
| Reconciliation.EntriesClassified | engine-rs/src/reconciliation.rs:202-263 | each part holds exactly the entries of its class |
| Reconciliation.MatchesDescribeEntries | engine-rs/src/reconciliation.rs:244-250 | the i-th match describes the i-th matched entry |
| Reconciliation.SideMismatchesAre | engine-rs/src/reconciliation.rs:205-214 | the i-th side mismatch names the market of the i-th wrong-sided entry |
| Reconciliation.CriticalFindings | engine-rs/src/reconciliation.rs:202-263 | some finding is critical exactly if some entry is untracked, wrong-sided, or off by the critical percentage or more |
| Reconciliation.ReportMeaning | engine-rs/src/reconciliation.rs:185-289 | every entry becomes exactly one of matched, side mismatch or exchange-only; internal-only is exactly the unshown tracked markets, once each; a critical finding exists exactly if some entry is alarming |
| Reconciliation.FindingsExactly | engine-rs/src/reconciliation.rs:199-267 | a report's findings are exactly: a critical one for each unknown entry and each on the wrong side, one for each size that is off by the critical percentage or, less, by the warning percentage, without division, and a warning for each tracked market not shown; with their values |
| Reconciliation.MatchFigures | engine-rs/src/reconciliation.rs:221-249 | a match holds both sizes, their difference, and that as a percentage of the tracked size |
| Reconciliation.CorrectedKeys | engine-rs/src/reconciliation.rs:386-393 | after auto-correct exactly the listed markets are tracked |
| Reconciliation.CorrectedIsLast | engine-rs/src/reconciliation.rs:386-393 | each at the dollar value of its last entry |
| Reconciliation.AutoCorrectClosesGaps | engine-rs/src/reconciliation.rs:382-397 | re-run on the same list after auto-correct, the report has nothing exchange-only or internal-only |
| Reconciliation.AutoCorrectConvergesExactly | engine-rs/src/reconciliation.rs:382-397 | the re-run still has a critical finding exactly if some entry is a No position or its size is off the dollar value of its market's last entry by the critical percentage |
| Reconciliation.AutoCorrectNeedsUnitPrices | engine-rs/src/reconciliation.rs:382-397 | for an entry that is its market's last, of any size and price, that depends on its side and price alone unless it is worth nothing; with one entry per market this decides the whole re-run |
| Rotation.RotationDesk.constructor | engine-rs/src/state.rs:65-82 | memory starts as the tables reload |
| Rotation.RotationDesk.Add | engine-rs/src/rpc.rs:490-545 | adds an untracked wallet if there is room, in memory and table |
| Rotation.RotationDesk.Remove | engine-rs/src/rpc.rs:546-589 | removes a tracked wallet from both |
| Rotation.RotationDesk.Acknowledge | engine-rs/src/rpc.rs:674-728 | approves a pending suggestion, displacing the weakest wallet when full; an unknown id changes nothing |
| Rotation.RotationDesk.Decline | engine-rs/src/rpc.rs:729-769 | rejects a pending suggestion; an unknown id changes nothing |
| Rotation.RotationDesk.RotateOnce | engine-rs/src/main.rs:747-802 | stores the fetched scores and at most one suggestion, in memory and table |
| Rotation.Weakest | engine-rs/src/rpc.rs:959-968 | a tracked wallet of least score, missing scores counting as zero |
| Rotation.FirstEligible | engine-rs/src/signals.rs:649-651 | an untracked wallet at or above the floor, and none exactly if there is no such wallet |
| Rotation.StepMirrored | engine-rs/src/rpc.rs:938-997 | after every handler, active wallets and pending suggestions in the tables are those in memory |
| Rotation.RotationRun | engine-rs/src/rpc.rs:490-769 | over every run of handlers, one at a time: the tracked set never outgrows its initial size or the maximum, at most one suggestion is pending, and a restart restores both |
| Rotation.SuggestionsSpaced | engine-rs/src/signals.rs:636-640 | over every run of handlers each suggestion comes at least the cooldown after the rotation before it, a suggestion or an approval, and the time of the last rotation is that of the last of these |
| Rotation.AddTracks | engine-rs/src/rpc.rs:495-526 | after an add the wallet is tracked exactly if it was or there was room, and no other wallet's place changes |
| Rotation.RemoveDrops | engine-rs/src/rpc.rs:551-572 | after a remove it is not tracked, in memory or table, and no other wallet's place changes |
| Rotation.ApproveSwaps | engine-rs/src/rpc.rs:674-728 | an approval tracks the wallet, starts the cooldown and marks the row approved; with room nobody leaves, else one wallet of least stored score does |
| Rotation.RejectKeeps | engine-rs/src/rpc.rs:729-769 | a rejection marks the row rejected and touches neither the tracked set nor the cooldown |
| Rotation.RotateStores | engine-rs/src/main.rs:763-802 | a pass that fetched something stores its scores over the old ones, and its suggestion, if any, under its id in memory and table |
| Rotation.SuggestionIsBest | engine-rs/src/signals.rs:621-689 | a suggestion names a highest-scored untracked wallet at or above the floor, and one is made exactly under the stated conditions |
| Rotation.ApprovalGain | engine-rs/src/rpc.rs:953-980 | a displacing approval changes the tracked total by exactly the newcomer's score, or nothing if it is tracked already, less the weakest's |
| Rotation.ApprovalMeetsThreshold | engine-rs/src/rpc.rs:953-980 | approving over the same full tracked set raises the total by at least the rank-delta threshold exactly if some tracked wallet's stored score is that far below the suggested one |
| Rotation.SameScoresMeetThreshold | engine-rs/src/rpc.rs:953-980 | so it does whenever the fetch scores every tracked wallet as the table then does |
| Rotation.ApprovalCanLowerTotal | engine-rs/src/rpc.rs:953-958 | with the stored table differing from the fetch, an approval can lower the total |
| Reconnect.BackoffIsExact | engine-rs/src/signals.rs:35-38 | despite two saturations the delay is `min(base * 2^attempt, max)` for all inputs |
| Reconnect.JitterBounds | engine-rs/src/ws_client.rs:433-441 | for every draw the jittered delay lies between the cap and a quarter above it exactly if that quarter fits in 64 bits, and then negative draws are no-ops; otherwise it panics or wraps |
| Reconnect.DelayBounds | engine-rs/src/ws_client.rs:428-442 | after n failures the delay lies between the base times 2 to the n, n counted up to 10, capped by the maximum, and a quarter above it, whenever that quarter fits; a draw that is not negative is added unless it is no less than the delay; no delay exceeds the longest one, and if the maximum's quarter fits none overflows |
| Reconnect.JitterRange | engine-rs/src/ws_client.rs:433-434 | the range is a quarter of the delay, rounded down, and at least one |
| Reconnect.Run | engine-rs/src/ws_client.rs:73-124 | each connection is followed by its action, up to the first one that ends the loop |
| Reconnect.ActionsExactly | engine-rs/src/ws_client.rs:73-124 | after n failures in a row: a reconnect at once if n is zero, giving up if n reaches the limit, and else a sleep between the doubled base and a quarter above it |
| Reconnect.StreakSleepBound | engine-rs/src/ws_client.rs:83-120 | a streak of failures sleeps at most one delay fewer than the limit, each bounded |
| Reconnect.GivesUpExactly | engine-rs/src/ws_client.rs:90-103 | the loop gives up exactly when the history first reaches `max(1, max_consecutive_failures)` failures in a row, as its last action, unless it has panicked before; it panics only in a checked build whose maximum's quarter does not fit |
| EngineModel.NextDecided | engine-rs/src/main.rs:417-679 | in every interleaving, a signal executed or committed is the one its own snapshot decided on |
| EngineModel.OrderedSignal | engine-rs/src/main.rs:442-589 | an order is neither duplicate, stopped nor paused in its snapshot, belongs to its fill, and fits its snapshot's caps |
| EngineOrders.OrderedExactly | engine-rs/src/main.rs:442-591 | a fill is ordered exactly if it is new, its wallet not stopped, trading not paused, it is a buy or sells are copied, notional, price and equity are positive, positions are under their cap, its edge is above fee, slippage and 8, 12 or 16 bps, and the floor of the least limit buys one grid step; then for that floor. A new fill stops its wallet exactly if the check fires |
| EngineOrders.Room | engine-rs/src/signals.rs:125-153 | the least of the floored share, the trade cap, and what is left of the market and daily caps |
| EngineOrders.FillOrderedExactly | engine-rs/src/main.rs:422-591 | the same from the engine's own fields: what the snapshot reads decides, and by then only the remembered ids have changed |
| EngineOrders.EveryOrderIsClear | engine-rs/src/main.rs:442-591 | over every run each order's fill was new, allowed and clear of every obstacle in its snapshot; with copy-sells off it is a buy |
| EngineOrders.EveryCommitHasItsOrder | engine-rs/src/main.rs:417-679 | over every run from between two fills each order comes right after its own snapshot and each commit right after its own order |
| EngineOrders.EveryCommitIsBooked | engine-rs/src/main.rs:640-679 | over every run each commit adds its notional to the day, moves its market by it, the count by one and its wallet's record, and nothing else; it books the price's advantage over the source's times the quantity, both as the venue reported them, or the limit and the whole quantity in a simulation |
| EngineOrders.EstimateIsBooked | engine-rs/src/main.rs:643-652 | the booked profit is source price less price for a buy and the reverse for a sell, times the filled quantity |
| EngineOrders.CommitMoves | engine-rs/src/main.rs:654-679 | what a commit moves and what it leaves alone |
| EngineHistory.StoppedByItsCommits | engine-rs/src/performance.rs:153-182 | after any run from an engine without records, the next snapshot of a wallet's fill finds it stopped exactly if the stop is enabled, it was copied at least once and often enough, and the profits of its commits win too seldom or fell too far |
| EngineHistory.RemembersRun | engine-rs/src/main.rs:659-662 | a wallet's record is that of its commits' profits, in order, and there is one exactly if there were any |
| EngineSteps.SettingsOfRun | engine-rs/src/rpc.rs:279-658 | after every run mode, profile, multiplier, equity, copy-sells and pause are the last acceptable values given; fees, slippage and offset never change |
| EngineSteps.SettingsAfter | engine-rs/src/rpc.rs:279-673 | per step: only the step that names a setting changes it, and a rejected value does not |
| EngineSteps.StopConfigIs | engine-rs/src/rpc.rs:809-829 | the stop configuration takes the given fields and keeps the others, the same in tracker and settings |
| EngineSteps.DayStarts | engine-rs/src/state.rs:106-118 | another day starts at zero, the same day changes nothing |
| EngineSteps.OwnFillMoves | engine-rs/src/main.rs:238-252 | an own fill moves its market's exposure by size times price, down to zero at most, and nothing else |
| EngineSteps.CorrectionSets | engine-rs/src/reconciliation.rs:382-397 | auto-correct leaves exactly the listed markets, each at size times price of its last entry, and counts the list |
| EngineSteps.StoppedWallets | engine-rs/src/main.rs:475-485 | only marking and resuming move the set of stopped wallets, each by its own wallet |
| EngineModel.ExposureUntouched | engine-rs/src/main.rs:238-252 | only commits, auto-corrects and own fills move exposures and the position count |
| EngineModel.DailyUntouched | engine-rs/src/main.rs:656 | only commits and resets move the daily notional |
| EngineModel.RecordsUntouched | engine-rs/src/main.rs:659-662 | only commits move the wallets' records, and only `set_auto_stop` the stop configuration |
| EngineModel.SetCapsWritesUpToFirstBad | engine-rs/src/rpc.rs:384-407 | success exactly if no given field is bad; in any case exactly the fields before the first bad one are written, so the caps change exactly if one of these is given with another value |
| EngineModel.RejectedCapsStillWrite | engine-rs/src/rpc.rs:384-395 | a rejected call that has raised the trade cap |
| EngineModel.SetCapsKeepsPositive | engine-rs/src/rpc.rs:384-407 | positive caps stay positive, succeeding or not |
| EngineState.EngineState.constructor | engine-rs/src/state.rs:65-82 | a fresh engine |
| EngineState.EngineState.TakeSnapshot | engine-rs/src/main.rs:422-440 | the machine's `TakeSnapshot` from every state: records the id, reads the rest |
| EngineState.EngineState.Commit | engine-rs/src/main.rs:654-679 | the machine's `Commit` of what the fill task carries: books the signal's notional, the trade's record, the market's exposure and the position count |
| EngineState.EngineState.BookCopy | engine-rs/src/main.rs:664-678 | a buy adds to the exposure, a sell takes it down to zero at most, and the position count saturates at both ends |
| EngineState.EngineState.MarkStopped | engine-rs/src/main.rs:475-485 | the machine's `MarkStopped` |
| EngineState.EngineState.ProcessFillEvent | engine-rs/src/main.rs:417-679 | uninterrupted, one fill takes the engine to `Processed` of it |
| EngineState.EngineState.Settle | engine-rs/src/main.rs:442-679 | what follows the snapshot: ignore, remember a stop, or order and commit |
| EngineState.ProcessedIsRun | engine-rs/src/main.rs:417-679 | `Processed` is the machine's run of the fill task's five steps |
| EngineState.ProcessedExactly | engine-rs/src/main.rs:417-679 | a fill not to be copied changes only the remembered ids and, if new and the check fires, the stopped wallets; one that is, is ordered for its notional, and a successful order moves exactly what a commit should |
| EngineState.EngineState.MaybeResetDailyNotional | engine-rs/src/state.rs:106-118 | the machine's `ResetDaily`: exactly on a day change |
| EngineState.EngineState.ApplyUserFill | engine-rs/src/main.rs:238-252 | the machine's `UserFill`: its market's exposure and nothing else |
| EngineState.EngineState.SetCaps | engine-rs/src/rpc.rs:377-412 | the machine's `SetCaps` whatever the fill task carries; it succeeds exactly if no field is bad |
| EngineState.EngineState.WriteCaps | engine-rs/src/rpc.rs:384-407 | field by field, earlier fields stay written after a bad one |
| EngineState.EngineState.SetMode | engine-rs/src/rpc.rs:279-295 | the machine's `SetMode` whatever the fill task carries |
| EngineState.EngineState.SetRiskProfile | engine-rs/src/rpc.rs:311-327 | the machine's `SetRiskProfile` likewise |
| EngineState.EngineState.SetMultiplier | engine-rs/src/rpc.rs:343-361 | the machine's `SetMultiplier`; rejected exactly if not positive, and then nothing changes |
| EngineState.EngineState.SetFollowerEquity | engine-rs/src/rpc.rs:428-447 | the machine's `SetFollowerEquity`; rejected exactly if not positive, and then nothing changes |
| EngineState.EngineState.SetCopySells | engine-rs/src/rpc.rs:463-474 | the machine's `SetCopySells` likewise |
| EngineState.EngineState.PauseTrading | engine-rs/src/rpc.rs:590-602 | the machine's `PauseTrading` likewise |
| EngineState.EngineState.ResumeTrading | engine-rs/src/rpc.rs:618-630 | the machine's `ResumeTrading` likewise |
| EngineState.EngineState.PanicClose | engine-rs/src/rpc.rs:646-658 | the machine's `PanicClose` likewise |
| EngineState.EngineState.PauseOnCritical | engine-rs/src/reconciliation.rs:323-327 | the machine's `CriticalPause` likewise |
| EngineState.EngineState.CorrectPositions | engine-rs/src/reconciliation.rs:382-397 | the machine's `AutoCorrect` likewise, with the count in 32 bits |
| EngineState.EngineState.RefillExposure | engine-rs/src/reconciliation.rs:386-393 | the exposure map holds each market's last entry and nothing else |
| EngineState.EngineState.SetAutoStopParams | engine-rs/src/rpc.rs:809-829 | the machine's `SetAutoStop`: both copies of the configuration take the given fields |
| EngineState.EngineState.ResumeCopying | engine-rs/src/rpc.rs:847-850 | the machine's `ResumeWallet`, and whether the wallet was stopped |
| EngineRun.FillStep | engine-rs/src/main.rs:417-679 | whatever the fill task carries, its next step is taken and any other does nothing |
| EngineRun.OtherStep | engine-rs/src/rpc.rs:279-673 | every step of another task is taken by its handler |
| EngineRun.Drive | engine-rs/src/main.rs:422-679 | the state driven through any interleaving ends where the machine's run does; every commit on the way is within its snapshot's daily cap, and the counter ends within the largest one snapshotted |
| EngineCaps.EveryCommitWithinCaps | engine-rs/src/main.rs:422-679 | in every interleaving each commit leaves the daily notional within its own snapshot's cap; and its market's exposure and the position count too, unless an auto-correct ran while a fill was in flight |
| EngineCaps.CapsBoundEveryRun | engine-rs/src/main.rs:422-679 | at every point of every run the daily notional is at most the largest daily cap snapshotted; without auto-corrects and own fills every exposure is between zero and the largest exposure cap, and the position count within its cap |
| EngineCaps.DailyIsSumOfCommits | engine-rs/src/main.rs:656 | without a reset the counter is exactly the sum of the committed notionals |
| EngineCaps.AllCommitsShareOneCap | engine-rs/src/main.rs:372-381 | without a reset, everything committed over a whole run together fits the largest daily cap snapshotted |
| EngineCaps.FoundAtCommit | engine-rs/src/main.rs:422-679 | whatever steps fall between a fill's snapshot and its commit, the commit finds the exposure and count that the snapshot saw or the last auto-correct left |
| EngineCaps.CapsExceededExactly | engine-rs/src/main.rs:422-679 | for every such run, the commit exceeds its snapshot's exposure cap exactly if that exposure with the decided notional added or taken off does; and the position cap exactly if a buy finds the count at it, or a sell more than one above it |
| EngineCaps.CorrectionInFlightBreaksCaps | engine-rs/src/reconciliation.rs:382-397 | a concrete run in which an auto-correct in flight makes a commit exceed both caps |
| EnginePause.PausedAfter | engine-rs/src/rpc.rs:590-673 | the flag is set by the three pausing steps, cleared by resume, and touched by nothing else |
| EnginePause.PauseLetsOneThrough | engine-rs/src/main.rs:506-532 | while trading stays paused at most the one fill already in flight is executed and committed |
| EnginePause.AfterAnyPause | engine-rs/src/main.rs:422-532 | after any pause and until the next resume at most one fill is executed and committed, and its snapshot was taken before the pause |
| EngineAutoStop.StoppedForever | engine-rs/src/main.rs:427-488 | once stopped, with the configuration unchanged, no fill of the wallet is executed or committed and its record never changes |
| EngineAutoStop.StopIsPermanent | engine-rs/src/main.rs:427-488 | the same from the snapshot at which the check fires, for every continuation, resumes included |
| EngineAutoStop.ResumeWalletIsIrrelevant | engine-rs/src/performance.rs:199-202 | erasing every resume from a run changes no snapshot, order, commit or state but the set of stopped wallets |
| EngineAutoStop.DryRunGainExactly | engine-rs/src/main.rs:643-652 | for every offset the configuration accepts, a dry-run fill books a gain exactly if the limit price beats the source's |
| EngineAutoStop.DryRun | engine-rs/src/main.rs:643-662 | in a dry run with the stop armed a wallet's copies are the growth of its record, and none gains |
| EngineAutoStop.DryRunStarves | engine-rs/src/performance.rs:78-95 | in such a run each wallet is copied at most `max(1, min_trades_before_stop)` times |
| EngineDedupe.RememberedNotExecuted | engine-rs/src/main.rs:424-444 | an id still remembered is executed again only after enough other fills have been accepted |
| EngineDedupe.ForgottenNeedsAccept | engine-rs/src/main.rs:424-444 | an id that is not pending is executed only after being accepted anew |
| EngineDedupe.NoRepeatWithinWindow | engine-rs/src/main.rs:424-444 | in every run, between two executions of one id more fills are accepted than the cache holds |

## Assumptions

- Database writes succeed, and fresh ids are fresh; each step reads the clock once.
- Handlers of the rotation desk run one at a time, although the source releases the lock inside them.
- The notifier talks to one run of the engine and its polls do not overlap; ids of archived events precede new ones.

## Left out

- Floating point: rounding error, NaN and infinities. All amounts are exact reals.
- HTTP, WebSocket, Unix-socket and Telegram transport, JSON parsing and field probing, SQL text, logging, environment configuration, command parsing and message formatting.
- Failing database writes, which in the source can end `process_fill_event` between its two critical sections.
- The engine's restart as seen by the notifier, and overlapping polls.
- Rotation handlers interleaved with one another; the time of the last rotation, which a restart loses.
- Token ids, holding periods, return percentages, completed trades, profit factor, Sharpe ratio, average win and loss, best and worst trades: easy figures over the same records.
- The wallet score formula, wallet and metric normalisation, and the channel-string round trip: easy members.
- 32-bit overflow of the trade counters, and the lookback window of the stop configuration, which the engine never reads.
- The tie between one reconciliation report and the pause or auto-correct it causes: in the machine both are steps that can come at any time.
- The positions summary's use of dollar exposures as prices (`engine-rs/src/rpc.rs:870-884`): prices are a parameter.
- Signals.LimitBeatsSourceExactly: for offsets of zero or more, the only ones the configuration accepts.
- Pnl.NothingLost: for entry fees of zero or more; with rebates losses can cancel, and `Pnl.FeesAddUpExactly` then says that the fees add up exactly if the lost ones sum to zero.

# Promises a futures trading bot keeps over whole runs

The bot trades USDT-margined futures. It shares one IP's REST weight between many threads, keeps
candle buffers alive from a websocket, adds to positions in stages, and closes them through a queue
while monitors, a worker and a watchdog process all look at the same trade. This project models the
stateful core of that and proves what it keeps over every run and every interleaving:

- **REST admission** (`SlidingWindow`, `RestUsage`, `TokenBucket`, `Pacer`, `BootstrapTrim`, `BanGate`,
  `Sends`, `Wire`): a weighted 60-second limiter with three lanes, a token bucket with a hard stop, a pacer that
  books slots in the future, a two-dimensional backfill window, a ban timer with stacked truncations,
  and the gate order from all of these to the wire.
- **Candle buffers** (`KlineHistory`, `CandleCache`): in-place upserts against a full rebuild, and a
  patched frame against the tail of the live deque.
- **Staged adds** (`TradeStore`, `DcaProtocol`, `DcaAttempts`, `DcaRuns`, `DcaBooks`, `DcaAftermath`): claim before
  submit, revert on a definite reject, uncertain marks, reconciliation by lookup, crashes, lost writes and other
  writers of the same metadata anywhere.
- **Exits** (`ExitClaims`, `ExitFlight`, `CloseAttempts`, `TakeProfit`, `TakeProfitLocks`, `TakeProfitRuns`,
  `StopRatchet`): the claim file, one exit in flight, attempt exhaustion with cooldown, the three parts of
  an entry and their locks, and the stop that only tightens.
- **Daily ledger** (`Ledger`, `LedgerRuns`): closing is idempotent and the day equals the trades closed on
  it, through serial calls and through interleaved ones.

`Basics` and `Grid` hold shared vocabulary and rounding to the exchange's grids.

Time is a real number handed to every call; a locked section is one atomic step and takes a separate
clock reading wherever the code takes one. Floats are reals; weights and milliseconds are integers.
Objects that the source updates in place are classes whose methods are proved against pure functions.
What interleaves at a finer grain than one method is a state machine with one step per read or write of
shared state: staged adds, exits in flight, take-profit locks, attempt checks and daily syncs.

Where a promise does not hold of the code on all runs, the lemmas ending in `Iff` name the condition
under which it does, and others give the runs that break it.

## What turned out different from the documentation

- Weight on the order lane is recorded without asking any limit, although the module describes lanes
  under a hard cap (`RestUsage.OrderLaneUnbounded`). The order lane, or the grand total, is bounded exactly
  as long as every recorded weight fits at its own instant (`RestUsage.Limits.NoteKeepsGuardsIff`,
  `RestUsage.RestUsageTracker.OrderAndTotalBoundedIff`); the scanner lanes always are.
- A reservation bounds reservations, not sends. The lane's budget times the attempts bounds every window
  on the wire that, with the longest delay of an attempt, exceeds 60 s by no more than the back-offs of an
  evenly split set of attempts (`Sends.WireBound`), and for windows up to 60 s that can hold half of the
  attempts no more is true (`Sends.WireBoundIff`): beyond it a late reservation and the next one overlap
  (`Sends.DelayedSendsOverrun`).
- A ban timestamp counts as expired up to 999 ms early (`BanGate.ExpiresOneSecondEarly`). While an expired
  one is still on record, a rate limit without a timestamp halts nothing (`BanGate.ExpiredBanVoidsHalt`).
- A crash between a claim and its submit, or a roll-back the database loses, skips the stage
  (`DcaAttempts.StandingClaimSkipsStage`), the last one for good (`DcaAttempts.StandingClaimEndsLadder`).
- The docstring of the take-profit division speaks of 33, 33 and 34 %; the constants are 30, 30 and 40
  (`TakeProfit.PartsAreShares`).
- A seed of fewer than 10 rows leaves an older frame standing over a deque it no longer shows; that is
  the only way the two part (`CandleCache.CoherentIff`), given a fetch limit within the buffer limit
  (`CandleCache.SafeRunsCoherentIff`).
- At most once for staged adds holds as long as no live order lies above the trade's stage column
  (`DcaRuns.NeverOvertakenAtMostOnce`); once one does, right above, a settled row loses it at the next tick
  (`DcaRuns.OvertakenResubmits`). The invariant that keeps the protocol out of that survives exactly the
  steps that neither roll a live stage back nor misplace a mark (`DcaProtocol.NextKeepsInvIff`); the code
  takes steps of both kinds:
  - A helper raises after a fill and the handler reverts the stage (`DcaRuns.RaisingHelperResubmits`).
  - A rejection is reported of an earlier order: all submissions of a stage share one client id, and
    outcomes are looked up by it first, even for an acknowledged order and whenever a lookup by order id
    fails (exchange.py:3722-3727, reconciliation.py:1009-1012). The first submission of a stage is safe from
    it (`DcaProtocol.FirstSubmissionIsSafe`), the second is not (`DcaRuns.WrongAnswerIsReachable`).
  - Another writer that read the row's metadata earlier writes it back whole: it erases the mark the
    reconciler is working on (`DcaRuns.ErasedMarkResubmits`, `DcaRuns.EraseIsReachable`), restores one when
    the next stage is already live (`DcaRuns.RestoredMarkResubmits`), or restores one behind a monitor that
    saw none (`DcaRuns.MarkBehindMonitorResubmits`, `DcaRuns.RestoreIsReachable`).
- A trade's quantity stays the first entry plus every fill, each added once, exactly as long as every
  adoption is of an order not yet adopted and starts from the stored quantity (`DcaBooks.EveryRunBooksIff`).
  The code can violate that: a claim or any other write-back of older metadata restores the mark of an
  adopted order, and the next reconcile adopts it again (`DcaBooks.RestoredMarkAdoptsTwice`,
  `DcaBooks.ReviveIsReachable`, `DcaBooks.WriteBackIsReachable`); a stage submitted again after a raise gets
  the first order's fill reported (`DcaBooks.RaisedFillAdoptedTwice`); and two adoptions at once lose one
  (`DcaBooks.StaleQuantityLosesFill`).
- A reconciled cancel reverts the stage and then writes metadata back that still carries it. With both
  writes done, as intended, the trade never claims a stage again (`DcaAftermath.CancelledAddIsNeverRetried`),
  unless that second write is lost (`DcaAftermath.RetryableIff`) or metadata from before the claim is
  written back (`DcaAftermath.OlderCopyFreesStageIff`).
- A claim made while a mark is stored never submits and is never reverted (`DcaAftermath.MarkedClaimStands`).
  If the marked add turns out rejected, the last stage is lost for good (`DcaAftermath.MarkedClaimLosesStage`);
  if filled, its adoption gives the stage back (`DcaAftermath.MarkedFillGivesStageBack`).
- A close that outlives the claim's TTL lets a second one in, from every state
  (`ExitFlight.OutlivedClaimAdmitsASecond`).
- The check for exhausted attempts is made outside the lock. Two monitors that pass it together can
  enqueue once more than allowed (`CloseAttempts.StaleCheckOverruns`, `CloseAttempts.OverrunIsReachable`);
  the bound survives an enqueue exactly if the one `limit` places back is a cooldown old
  (`CloseAttempts.SpreadStepIff`).
- A level whose part rounds to zero sells the whole position; the first two levels keep to their parts
  exactly for entries of which 30 % make at least one lot (`TakeProfitRuns.SalesWithinPartsIff`).
- Monitor and close worker write back whole copies of a trade's metadata. A take-profit lock survives
  exactly those writes whose copy is still fresh (`TakeProfitLocks.NextKeepsInvIff`). A stale rollback
  strands a lock (`TakeProfitRuns.StaleRollbackStrands`), as does a stale trailing tick
  (`TakeProfitRuns.StaleTrailStrands`); a stale failure removes another level's
  (`TakeProfitRuns.StaleFailUnlocks`); a stale booking lets a level be sold twice
  (`TakeProfitRuns.StaleBookUnlocks`, `TakeProfitRuns.UnlockedSellsTwice`), a crash strands a pending lock
  (`TakeProfitRuns.CrashStrandsLock`), and a helper that raises after the fill gets the level sold again
  (`TakeProfitRuns.RaiseSellsAgain`).
- The same copies can lower the stored best price. The stop does not suffer: it stays bound to every
  trailing price and every rung reached (`StopRatchet.TrailingHolds`, `StopRatchet.RungHolds`), and for a
  trade that has a stop it ends up as if nothing had been overwritten
  (`StopRatchet.OverwritesLeaveNoTrace`).
- A day's analytics are read before the lock under which they are written, so a slower sync can lose a
  close (`LedgerRuns.SlowerSyncLosesClose`), exactly if what it writes is no longer true and nobody will
  write again (`LedgerRuns.SyncWriteKeepsInvIff`).

## Model

| member | source | states |
|---|---|---|
| SlidingWindow.EveryWindow | rest_rate_guard.py:499-513 | if every admission was guarded at its own instant, every closed 60 s window, wherever it starts, stays under the cap |
| SlidingWindow.GuardedStep | rest_rate_guard.py:321-338 | one more entry keeps the guard exactly when it fits at its own instant |
| SlidingWindow.BoundedIffGuarded | rest_rate_guard.py:499-513 | all windows stay within the cap if and only if every entry fitted at its own instant |
| SlidingWindow.TallyIsCharge | rest_rate_guard.py:499-513 | summing a purged deque gives the charge of the last 60 s of the whole history, popped entries included |
| SlidingWindow.ChargeOfParts | rest_rate_guard.py:499-513 | the charge adds up over parts of the history, one entry counting with its weight exactly when picked and inside |
| SlidingWindow.TimedDeque.Purge | rest_rate_guard.py:499-502 | pops exactly the entries older than the cutoff and loses nothing else |
| RestUsage.Limits.ReservationKeepsGuards | rest_rate_guard.py:311-338 | one admitted reservation keeps every lane's and every shared bound over the history |
| RestUsage.RestUsageTracker.TryReserve | rest_rate_guard.py:311-338 | succeeds exactly when max(header, local sum) plus the weight fits the lane's ceiling and the lane's last 60 s fit its budget; then a fresh header plus the weight is within the caps; stamps one entry, else nothing |
| RestUsage.RestUsageTracker.ReservableIff | rest_rate_guard.py:321-331 | what a reservation has to fit, on the fields: a header less than 60 s old and the local 60 s sum, each with the new weight, under the hard cap, off the order lane the soft one, on the normal lane the throttle |
| RestUsage.RestUsageTracker.NoteOutgoingWeight | rest_rate_guard.py:340-347 | records order weight unconditionally, keeps the scanner lanes' bounds, and keeps the order lane's and the total's exactly when the weight fits |
| RestUsage.Limits.NoteKeepsGuardsIff | rest_rate_guard.py:340-347 | the exact condition under which recorded weight keeps the order lane, and the total, bounded |
| RestUsage.RestUsageTracker.ProjectedUsedWeight | rest_rate_guard.py:295-301 | header (dropped after 60 s) or local sum, whichever is larger |
| RestUsage.RestUsageTracker.EveryWindowWithinBudget | rest_rate_guard.py:311-347 | in every reachable state every 60 s window holds at most the NORMAL, the HOT and the joint soft budget |
| RestUsage.RestUsageTracker.OrderAndTotalBoundedIff | rest_rate_guard.py:311-347 | in every reachable state the order lane, and the total, are bounded over all windows if and only if no recorded weight ever failed to fit |
| RestUsage.OrderLaneUnbounded | rest_rate_guard.py:340-347 | weight recorded after the fact exceeds any bound |
| TokenBucket.GrantsBounded | rest_rate_guard.py:611-689 | over any interval at most (k+1) capacities plus rate times elapsed is granted, k the releases in it, hard stops anywhere |
| TokenBucket.LevelRange | rest_rate_guard.py:648-689 | a refilled bucket holds between 0 and its capacity |
| TokenBucket.NothingBeforeDeadline | rest_rate_guard.py:625-632 | until released, a hard stop grants nothing before its deadline in any run |
| TokenBucket.HardStopHolds | rest_rate_guard.py:625-632 | from every state a hard stop of s seconds grants nothing for s seconds, short of a release |
| TokenBucket.HardStopDrains | rest_rate_guard.py:625-632 | and drains: until a release no more is granted than the time since the last refill earns |
| TokenBucket.ReleaseOpens | rest_rate_guard.py:641-646 | a release lets the next attempt on any weight up to the capacity through, whatever was in force |
| TokenBucket.PaidTakesAreGranted | rest_rate_guard.py:634-689 | the rate is delivered: attempts spaced by their own weight over the rate are all granted, from an empty bucket on |
| TokenBucket.TakesExactlyWhenReady | rest_rate_guard.py:672-689 | an attempt succeeds if and only if the ready time has come; a failed one does not move it |
| TokenBucket.NeverAboveCapacity | rest_rate_guard.py:648-670 | a weight above the capacity is never granted, so waiting for it has no end |
| TokenBucket.RestTokenBucket.TakeOrWait | rest_rate_guard.py:652-669 | takes the tokens exactly when ready, else names a positive wait that does not overshoot the ready time |
| TokenBucket.RestTokenBucket.Acquire | rest_rate_guard.py:648-670 | terminates without interference, not before the bucket can pay and at most one slice and one oversleep later |
| TokenBucket.RestTokenBucket.TryAcquire | rest_rate_guard.py:672-689 | one attempt, refused under a hard stop, never sleeping |
| TokenBucket.RestTokenBucket.TriggerHardStop | rest_rate_guard.py:625-632 | sets a deadline at least so many seconds away, never an earlier one than before, and drains the bucket |
| Pacer.SlotsStretchWindow | rest_rate_guard.py:94-116 | k slots of one lane in a window stretch it by k-1 gaps |
| Pacer.WindowOfSlots | rest_rate_guard.py:94-116 | spaced slots put at most floor(W/gap)+1 into any window of length W |
| Pacer.InWindowCounts | rest_rate_guard.py:94-116 | what is counted there is the number of slots in the window |
| Pacer.SlotsWithin | rest_rate_guard.py:94-116 | by index: slots within a stretch W of each other are at most floor(W/gap)+1 |
| Pacer.ComponentRestPacer.Wait | rest_rate_guard.py:94-105 | books the earliest slot a gap after the last one and not in the past, keeping the lane spaced |
| Pacer.ComponentRestPacer.TryConsume | rest_rate_guard.py:107-116 | takes a slot exactly when the gap has passed, else changes nothing |
| Pacer.ComponentRestPacer.SlotsPaced | rest_rate_guard.py:94-116 | under any mix of both calls slots are pairwise a gap apart |
| Pacer.ComponentRestPacer.LanesPaced | rest_rate_guard.py:77-116 | so on every lane with its own gap, in every reachable state |
| BootstrapTrim.TrimmedFits | market_data_hub.py:351-409 | the result is an order-preserving sublist of the upper-cased pairs and fits both free budgets at once |
| BootstrapTrim.TrimmedUsesUp | market_data_hub.py:388-403 | with series left over, as many coins are kept as are pending or free, each with all its pairs, and a coin is left out only for ones before it |
| BootstrapTrim.TighterIsFront | market_data_hub.py:399-403 | a tight series budget is used up, from the front |
| BootstrapTrim.CollectsFirst | market_data_hub.py:388-398 | the coins collected are non-empty and the first ones pending |
| BootstrapTrim.UpperHasNoLower | market_data_hub.py:388-403 | symbols are upper-cased, nothing else about them changes |
| BootstrapTrim.RoomKeepsAll | market_data_hub.py:388-403 | with room for everything only pairs without a symbol are dropped |
| BootstrapTrim.AllowedCoins | market_data_hub.py:388-398 | collects the first distinct coins up to the limit |
| BootstrapTrim.BootstrapPacer.Trim | market_data_hub.py:351-409 | outside warmup keeps what the last minute leaves free in both windows and charges both for it |
| BootstrapTrim.BootstrapPacer.EveryWindowPaced | market_data_hub.py:351-409 | every 60 s window holds at most the series cap and at most the coin cap |
| BanGate.BanWindow | market_data_hub.py:1809-1857 | in any run of queries after a ban until U, each with up to eight clock readings: blocked up to U - 2 s, open from U on |
| BanGate.ExactThreshold | market_data_hub.py:134-143 | in between, blocked exactly while more than 999 ms are missing |
| BanGate.BlockedIff | market_data_hub.py:1809-1857 | right after a block with a timestamp, from any gate, the answer at every instant: the 999 ms rule and the longest of least halt, seconds left and halt in force |
| BanGate.HaltWindow | market_data_hub.py:1809-1857 | after a block without a timestamp and with no ban on record, any run of queries is blocked exactly until a second before the halt ends |
| BanGate.ExpiredBanVoidsHalt | market_data_hub.py:1883-1886 | with a ban on record such a block counts only until that ban's timestamp is within a second; later it is lost |
| BanGate.RecoveryDueIff | market_data_hub.py:1883-1897 | recovery is due once timestamp or halt has run out; the flag of an active ban makes no difference to a gate that was ever blocked |
| BanGate.DueIsClearedIff | market_data_hub.py:1899-1927 | a gate that is due is cleared exactly when the recovery lock is free, and open either way |
| BanGate.ExpiresOneSecondEarly | market_data_hub.py:134-143 | the timestamp counts as expired once less than a full second is left |
| BanGate.RestBanGate.BlockRestForBan | market_data_hub.py:1809-1842 | extends the halt by whole seconds, at least the least halt, never shortens it |
| BanGate.RestBanGate.MaybeRecover | market_data_hub.py:1899-1927 | clears the halt exactly when recovery is due twice and the recovery lock is free |
| BanGate.RestBanGate.IsRestBlocked | market_data_hub.py:1844-1857 | recovery first, then the whole seconds left |
| Sends.SentIsReserved | exchange.py:1354-1476 | weight sent in a window is at most the attempts times the weight reserved in the window widened by the delay |
| Sends.BackoffsDouble | exchange.py:662-666 | the back-offs double from 2 s up to the cap: n of them take 2^(n+1) - 2 s |
| Sends.UsedMeansInLayer | exchange.py:662-666 | how often a reservation can be used in a window, given where it lies and the back-off between its attempts |
| Sends.DelayedSendsOverrun | exchange.py:1468-1531 | some attempts of one full budget and some of the next fall into one window as soon as window and delay exceed 60 s by more than their back-offs take |
| Sends.WireBound | exchange.py:1354-1531 | budget times attempts bounds every window of every history that, with the delay, exceeds 60 s by no more than the back-offs of an even split |
| Sends.WireBoundIff | exchange.py:1354-1531 | and for windows up to 60 s that can hold half of the attempts, it does so only then |
| Wire.RestGateway.Admit | exchange.py:1367-1463 | gate order: a call gets through exactly when every gate lets it, and only then holds one new reservation of its lane and weight |
| Wire.RestGateway.ThrottledCall | exchange.py:1354-1531 | nothing is sent without a reservation, an order submission at most once, the rest at most max(retries, 1) times and again only after network errors and a back-off |
| Wire.ResolveLane | exchange.py:688-705 | only execution priority leaves the budgeted lanes, and the hot lane is that of bootstrapping calls without it |
| Wire.RestGateway.WindowsBounded | exchange.py:1354-1531 | in every reachable state, with attempts within the delay of their reservation, such windows carry at most budget times attempts |
| Wire.RestGateway.FullWindowsBounded | exchange.py:1354-1476 | full 60 s windows carry at most twice that |
| KlineHistory.NewestIsUnique | kline_bootstrap.py:158-177 | the newest N bars of a latest-wins map are one definite list |
| KlineHistory.LatestRowWins | kline_bootstrap.py:158-177 | a bar shows what the last row for it carried |
| KlineHistory.OtherBarsStay | kline_bootstrap.py:158-177 | a bar that no row is for stays as it was, or absent |
| KlineHistory.MergeForgetsNothing | kline_bootstrap.py:158-177 | merging with what the deque still shows equals merging with everything ever fed, evicted and re-sent keys included |
| KlineHistory.AppendIsNewest | kline_bootstrap.py:193-195 | the append fast path, eviction included, gives the newest bars of the grown map |
| KlineHistory.ReplaceIsNewest | kline_bootstrap.py:190-192 | so does the replace-last fast path |
| KlineHistory.FastPathIsRebuild | kline_bootstrap.py:180-199 | fast paths and rebuild cannot be told apart |
| KlineHistory.MergeClosedKlineBars | kline_bootstrap.py:158-177 | returns the newest bars, strictly increasing, of the fed map |
| KlineHistory.Sorted | kline_bootstrap.py:177 | lists a map's bars in key order, all of them |
| KlineHistory.ClosedBars.MergeClosedKlineBar | kline_bootstrap.py:180-199 | after any upsert the deque shows the N largest keys of all rows ever fed; reports whether it wrote |
| KlineHistory.ClosedBars.MergeBatch | market_data_hub.py:2729-2733 | a batch keeps the same promise |
| CandleCache.PatchIsRebuild | market_data_hub.py:2369-2403 | patching the last row or appending one equals rebuilding from the deque, even while both evict |
| CandleCache.FrameShowsBars | market_data_hub.py:2351-2367 | a frame in agreement has min(bars, fetch) rows, the i-th with open time and prices of the i-th bar of the deque's tail; there is one exactly from 10 bars on |
| CandleCache.StreamedRowIsShown | market_data_hub.py:2192-2403 | after a streamed row the deque and, if there is one, the frame end in that row's open time and prices, from any state; except for a closed row that leaves a stale frame over fewer than 10 bars |
| CandleCache.DequeIsLatest | market_data_hub.py:2192-2204 | after any stream the deque holds the newest bars, each as its latest row left it |
| CandleCache.SeedIsShown | market_data_hub.py:2701-2734 | after a seed the deque holds its newest rows, and from 10 on so does the frame |
| CandleCache.KlineKeepsCoherent | market_data_hub.py:2192-2214 | a streamed row keeps frame and deque in agreement |
| CandleCache.SeedKeepsCoherentIff | market_data_hub.py:2701-2734 | a seed keeps it exactly when it is deep enough or no frame is cached |
| CandleCache.ClosedRowRepairs | market_data_hub.py:2351-2367 | the next closed row on a deep enough deque repairs a stale frame |
| CandleCache.CoherentIff | market_data_hub.py:2192-2403 | along any run of forming rows, closed rows, seeds and demotions the frame is always the tail of the live deque, if and only if every seed is empty, at least 10 rows deep or finds no frame |
| CandleCache.FetchAboveBufferFails | market_data_hub.py:2391-2394 | with a fetch limit above the buffer limit one forming row breaks the agreement on a full deque |
| CandleCache.SafeRunsCoherentIff | market_data_hub.py:2351-2403 | all runs with safe seeds stay coherent exactly if the fetch limit is within the buffer limit or no frame can ever be built |
| CandleCache.MarketDataHub.OnKlineMessage | market_data_hub.py:2190-2214 | one streamed row, on its own key only |
| CandleCache.MarketDataHub.PatchCandleCacheLastRow | market_data_hub.py:2369-2403 | in place, appended and trimmed, or rebuilt when there is no frame |
| CandleCache.MarketDataHub.SyncCandlesFromKlines | market_data_hub.py:2351-2367 | rebuilds the frame, or leaves it alone below 10 rows |
| CandleCache.MarketDataHub.SeedKlines | market_data_hub.py:2701-2734 | replaces the deque by the seed's tail |
| CandleCache.MarketDataHub.DemoteSymbolsKlines | market_data_hub.py:2300-2341 | flushes the demoted symbols and no other |
| TradeStore.ClaimedOnce | database.py:1377-1434 | a stage is claimed once |
| TradeStore.ClaimIff | database.py:1377-1434 | when a claim succeeds and what it moves, field by field |
| TradeStore.RevertIff | database.py:1436-1486 | when a revert succeeds and what it moves back; a mark stays |
| TradeStore.RevertUndoesClaim | database.py:1436-1486 | a revert makes the same claim possible again |
| TradeStore.DisagreementIsStuck | database.py:1403-1424 | a row whose column and metadata disagree can neither be claimed nor reverted |
| TradeStore.EntersAtOwnStage | database.py:1275-1343 | a trade enters at the stage it names, else its metadata's, else 1, taken to the nearest of 1 to 3 |
| TradeStore.TradeTable.LogTrade | database.py:1275-1343 | a new trade enters at a stage clamped to 1 to 3; a duplicate id is skipped |
| TradeStore.TradeTable.ReadStage | database.py:1403-1415 | the largest of column and metadata, at least 1 |
| TradeStore.TradeTable.ClaimEntryStage | database.py:1377-1434 | the conditional update, on that row only |
| TradeStore.TradeTable.RevertEntryStage | database.py:1436-1486 | the conditional roll-back, on that row only |
| DcaProtocol.NextKeepsInvIff | manager.py:591-678 | every step of monitor, reconciler, exchange, crash and other metadata writers, whichever writes are lost, keeps the protocol invariant if and only if it neither rolls a live stage back nor misplaces a mark |
| DcaProtocol.CopyWriteKeepsInvIff | manager.py:2183-2197 | whole metadata written back keeps it exactly when it neither restores an earlier order's mark, nor erases the one under reconciliation, nor restores one behind a monitor that saw none |
| DcaProtocol.RaiseKeepsInvIff | manager.py:668-675 | a raise after a fill keeps it exactly when its revert does not take effect |
| DcaProtocol.RejectKeepsInvIff | exchange.py:3711-3769 | a reported rejection keeps it exactly when the revert does not take effect, the answer is about the latest order, or that one is rejected too |
| DcaProtocol.LookupRejectKeepsInvIff | reconciliation.py:1008-1053 | so does a rejection found by the reconciler |
| DcaProtocol.FirstSubmissionIsSafe | executor.py:1952-1971 | a rejection about the latest order, as any is on a stage's first submission, rolls back no live stage |
| DcaProtocol.EveryRunAtMostOnce | executor.py:1886-2022 | in every run that neither rolls a live stage back nor misplaces a mark, a stage is submitted a second time only after its earlier order was definitely rejected |
| DcaProtocol.MarkedNeverSubmits | executor.py:1891-1897 | in such runs, while an uncertain mark is stored nothing is submitted |
| DcaAttempts.RefrainRollsBack | executor.py:1898-1949 | a claim refused before its submit is rolled back: column and both metadata stages show the stage before, orders unchanged |
| DcaAttempts.RefrainedIsRetried | executor.py:681-697 | and the next tick submits exactly that stage, from every such state |
| DcaAttempts.FirstAddIsRetried | executor.py:681-697 | so on the very first add: stage 2 is submitted, not stage 3 |
| DcaAttempts.EndsBeforeSubmit | manager.py:621-637 | an attempt that ends before its submit leaves no order, and the old stage exactly after a roll-back that was written |
| DcaAttempts.AnswerSettles | executor.py:1952-2126 | every answer about the order just submitted leaves one order of that fate, and the stage, quantity and mark it should |
| DcaAttempts.RejectedIsRetriedIff | executor.py:1972-1980 | after a rejection the next tick submits the same stage exactly if the roll-back was written, else the one after |
| DcaAttempts.StandingClaimSkipsStage | manager.py:621-637 | a crash between claim and submit, or a lost roll-back, skips the stage: the next tick submits the one after |
| DcaAttempts.StandingClaimEndsLadder | manager.py:605-637 | at the last stage such a claim means that no run ever submits it |
| DcaAttempts.LastStageRests | manager.py:608-612 | a trade at its last stage is left alone |
| DcaAttempts.LookupSettles | reconciliation.py:1008-1063 | a lookup that finds a fill adds it and drops the mark; an inconclusive one leaves everything for the next |
| DcaAttempts.OvertakenClaimIff | database.py:1416-1424 | a claim succeeds exactly if the row still shows the stage that was read; else the tick ends |
| DcaAttempts.DecidedStands | exchange.py:3711-3769 | over every run orders keep their stage and a decided one its fate |
| DcaAttempts.OpenIsDecided | exchange.py:3711-3769 | an open order takes the fate it is given, and no other changes |
| DcaRuns.LostAtSubmit | executor.py:1953-1962 | at most once is lost exactly by submitting a stage that has a live order |
| DcaRuns.NeverOvertakenAtMostOnce | database.py:1377-1434 | it holds in every run, whatever else happens, in which no live order ever lies above the stage column |
| DcaRuns.OvertakenResubmits | manager.py:605-637 | with one right above the column, a settled unmarked row loses it at the next tick |
| DcaRuns.RevertedLiveResubmits | manager.py:668-675 | after the monitor rolls a live stage back, its next tick submits the stage again beside the live order, from every such state |
| DcaRuns.LookupRevertResubmits | reconciliation.py:1050-1063 | after the reconciler does, a crash and one more reconcile lead there |
| DcaRuns.RaisingHelperResubmits | executor.py:2078-2126 | a raise after the fill is possible on the very first add |
| DcaRuns.WrongAnswerIsReachable | exchange.py:3711-3769 | the first add expires, the second times out, and the lookup by their common client id returns the first |
| DcaRuns.ErasedMarkResubmits | executor.py:2059-2126 | an older copy erases the mark under reconciliation; the next stage is filled, the adoption puts the row back, and the next stage is submitted again |
| DcaRuns.RestoredMarkResubmits | reconciliation.py:1017-1019 | an older copy restores a mark when the next stage is live; its adoption puts the row back and the live stage is submitted again |
| DcaRuns.MarkBehindMonitorResubmits | reconciliation.py:1017-1019 | so it goes if the copy is written between a claim and its submit |
| DcaRuns.EraseIsReachable | manager.py:2088-2197 | a copy read before the first add leads to the first of these |
| DcaRuns.RestoreIsReachable | manager.py:2088-2197 | one read while the mark was stored leads to the last |
| DcaBooks.NextKeepsBooksIff | executor.py:2078-2126 | every step keeps the quantity equal to first entry plus adopted fills, each adopted once, if and only if what it adopts is not yet adopted and added to the stored quantity |
| DcaBooks.EveryRunBooksIff | executor.py:2078-2126 | so over every run: the books are right all along if and only if every adoption is fresh |
| DcaBooks.NextConservesIff | database.py:1387-1424 | while the protocol invariant holds, stored marks stay clear of adopted orders if and only if no claim and no write-back restores one |
| DcaBooks.EveryRunConserves | reconciliation.py:1017-1019 | in every run that neither rolls a live stage back, nor misplaces a mark, nor restores an adopted one, quantity is conserved and each fill adopted once, directly or by lookup |
| DcaBooks.RestoredMarkAdoptsTwice | manager.py:1473-1477 | any writer that restores an adopted mark gets the fill adopted a second time, from every such state |
| DcaBooks.ReviveIsReachable | manager.py:605-628 | a claim does when the fill is adopted between the tick's read and its claim |
| DcaBooks.WriteBackIsReachable | manager.py:2088-2197 | any other writer does when it read while the mark was stored |
| DcaBooks.RaisedFillAdoptedTwice | manager.py:668-675 | a raise after the fill and an answer about the first order adopt it twice without any mark |
| DcaBooks.StaleQuantityLosesFill | executor.py:2090-2092 | an adoption by the monitor from a quantity read before the reconciler's loses the latter's fill |
| DcaAftermath.WedgedForever | database.py:1416-1424 | from disagreement between column and metadata on, no run changes the column or submits |
| DcaAftermath.CancelledAddIsNeverRetried | reconciliation.py:1047-1063 | a reconciled cancel, written as intended and with nobody holding metadata from before the claim, ends in that state |
| DcaAftermath.CancelIsReachable | executor.py:1972-1980 | and follows on the very first add |
| DcaAftermath.RetryableIff | reconciliation.py:1050-1063 | right after a reconciled cancel the stage can be claimed again exactly when the revert went through and the write of the metadata was lost |
| DcaAftermath.OlderCopyFreesStageIff | database.py:1403-1415 | a write-back of other metadata frees the stage exactly when it is from before the claim |
| DcaAftermath.MarkedClaimStands | executor.py:1891-1897 | a claim made from metadata with a mark never submits and is not rolled back |
| DcaAftermath.MarkedClaimLosesStage | reconciliation.py:1050-1063 | if the marked add is then found rejected, the last stage is lost for good in every run |
| DcaAftermath.MarkedFillGivesStageBack | executor.py:2123-2126 | if it is found filled, the last stage can be claimed again |
| DcaAftermath.MarkedClaimIsReachable | manager.py:605-637 | such a claim happens while the very first add is uncertain |
| ExitClaims.HeldUntilReleased | exit_coordinator.py:36-100 | after a claim no other owner's claim succeeds within the TTL, whatever the others try, until the owner releases |
| ExitClaims.ClaimableAgainIff | exit_coordinator.py:36-100 | another owner's claim succeeds exactly from one TTL after a claim on, or after the owner's release; without a TTL, or with 0, that is 120 s |
| ExitClaims.ClaimFile.ClaimExit | exit_coordinator.py:36-82 | acquires unless another owner's claim is fresh; unreadable and expired files are taken over |
| ExitClaims.ClaimFile.ReleaseExit | exit_coordinator.py:85-100 | an owner removes only its own claim |
| ExitClaims.ClaimFile.ExitClaimActive | exit_coordinator.py:119-131 | active exactly when some owner's claim would be refused |
| ExitClaims.ClaimFile.GetExitClaimOwner | exit_coordinator.py:103-116 | names the only owner whose claim would succeed |
| ExitFlight.NextKeepsInv | manager.py:1961-1984 | every step of monitors, worker and other processes keeps one live task under one held claim |
| ExitFlight.SingleExitInFlight | manager.py:1959-2032 | if every close is done within the TTL, at most one is queued or running in every interleaving and no other owner gets the claim meanwhile |
| ExitFlight.OutlivedClaimAdmitsASecond | manager.py:1966 | from every state with a task queued or running, a second one gets in after a delay exactly when the delay outlives the claim's TTL |
| ExitFlight.AdmissionIsReachable | manager.py:1961-1984 | such a state is one admission away |
| ExitFlight.WorkerIsSerial | manager.py:1484-1535 | in every run the worker holds at most one task |
| ExitFlight.DoneCloseLeavesNothing | manager.py:1484-1535 | a close that is done leaves claim, in-flight set and queue empty |
| ExitFlight.OtherOwnerKeepsOut | manager.py:1966 | another process's claim keeps every monitor out exactly until its release or its TTL |
| ExitFlight.CrashKeepsClaim | exit_coordinator.py:36-82 | after a crash the exit stays shut, to the restarted process as well, exactly until the claim's TTL is over |
| CloseAttempts.SpreadBoundsWindow | manager.py:1696-1718 | any span under 45 s holds at most the allowed number of enqueues |
| CloseAttempts.EnqueueTracks | manager.py:1696-1704 | counting one more enqueue keeps counter, flag, time and history in step |
| CloseAttempts.CooldownTracks | manager.py:1706-1718 | so does reopening after the cooldown |
| CloseAttempts.Rounds.ReopensAfterCooldown | manager.py:1706-1718 | an exhausted key opens exactly 45 s after its last enqueue, from 0, and no other key changes |
| CloseAttempts.Rounds.ExhaustedAtLimit | manager.py:1696-1704 | an open key is exhausted by the enqueue that reaches the limit and by no earlier one |
| CloseAttempts.Rounds.ClearedForgets | manager.py:1720-1728 | a clear opens every key of the trade with nothing counted and touches no other |
| CloseAttempts.Rounds.NotedTracked | manager.py:1910-1984 | counter, flag and log stay in step over an enqueue exactly when the key was not exhausted |
| CloseAttempts.SpreadStepIff | manager.py:1696-1718 | an enqueue keeps the bound itself exactly when the log is short or the one `limit` places back is a cooldown old |
| CloseAttempts.FreshChecksKeepBound | manager.py:1907-1984 | however many monitors interleave, the bound holds as long as no enqueue relies on a stale check |
| CloseAttempts.StaleCheckOverruns | manager.py:1907-1984 | after two monitors pass the check together the second enqueue breaks the bound exactly when the round is younger than a cooldown |
| CloseAttempts.BarredStaysOut | manager.py:1907-1984 | a check of an exhausted key passes nobody, an enqueue beside a close in flight adds nothing |
| CloseAttempts.RetriedIff | manager.py:1706-1718 | after a retry an exhausted key is enqueued again exactly from 45 s after its last enqueue on |
| CloseAttempts.OverrunIsReachable | manager.py:1907-1984 | from a clean desk, one enqueue more than allowed at one instant |
| CloseAttempts.CloseDesk.ClosePosition | manager.py:1910-1984 | queued exactly when not exhausted, not in flight and the claim is to be had; counted and registered then |
| CloseAttempts.CloseDesk.ShouldRetry | manager.py:1706-1718 | reopens an exhausted key a cooldown after its last attempt and not before |
| CloseAttempts.CloseDesk.NoteMarketCloseAttempt | manager.py:1696-1704 | counts and exhausts at the limit, and goes on counting beyond it, which breaks the bookkeeping |
| CloseAttempts.CloseDesk.ClearMarketCloseAttempts | manager.py:1720-1728 | forgets every key of the trade and no other |
| CloseAttempts.CloseDesk.EveryWindowWithinLimit | manager.py:1696-1728 | in every reachable state, across exhaustion and cooldown, every span under 45 s without a clear is within the limit |
| TakeProfit.PartsAddUp | executor.py:579-608 | the three parts add up to the entry on its lot grid, none is negative, and the division fails exactly below one lot |
| TakeProfit.PartsAreShares | executor.py:579-608 | the first two parts are the largest numbers of lots within 30 % of the entry each, the last about 40 %, to the lot |
| TakeProfit.PartsWithoutGrid | utils.py:28-29 | without a lot grid the shares are exact, and only an empty entry cannot be divided |
| TakeProfit.MetadataRemaining | manager.py:1629-1639 | the remainder is the sum of the unlocked levels and its clamp at 0 never bites |
| TakeProfit.PartIsPositiveIff | executor.py:583-588 | the first two parts are positive exactly when 30 % of the entry make a lot |
| TakeProfitLocks.NextKeepsInvIff | manager.py:1331-1535 | every read and write of monitor, worker and other writers of the metadata keeps the locks exact if and only if what it writes was read since the row last changed, and nothing crashes in between |
| TakeProfitLocks.RowWriteKeepsInvIff | manager.py:1337-1368 | a tick's lock and rollback, a trailing tick and any other writer of the metadata do exactly when their copy is fresh |
| TakeProfitLocks.WorkerWritesKeepInvIff | manager.py:1473-1519 | so do the worker's booking, finalisation and rollback with theirs; a raise after a level's fill does not |
| TakeProfitLocks.CrashKeepsInvIff | manager.py:1355-1358 | a crash does exactly when no level's close was pending or being attempted, or the trade is closed |
| TakeProfitLocks.FlagsAreExact | manager.py:1331-1368 | in such runs, between ticks and until the trade is closed, a level's flag is set exactly when its close is pending or done, never both |
| TakeProfitLocks.NeverSoldAgain | manager.py:1473-1508 | in such runs a finished level never sends again |
| TakeProfitLocks.ClosedNeverSells | manager.py:1331-1535 | once the trade is closed and no close is under way, no run sells another level |
| TakeProfitLocks.LastLevelCloses | manager.py:1375-1439 | of the levels only the last one closes the trade, when its fill is finalised |
| TakeProfitLocks.FullCloseCloses | manager.py:2205-2240 | so does any other full close once booked, and a position found flat |
| TakeProfitRuns.SalesWithinPartsIff | manager.py:1349-1354 | the first two levels sell at most their parts in all such runs if and only if 30 % of the entry make a lot |
| TakeProfitRuns.ZeroPartSellsAll | manager.py:1349-1354 | otherwise the first level sells the whole position |
| TakeProfitRuns.NeverOversold | manager.py:1349-1354 | in every run, sound or not, the position never goes below 0, and without an add or a fill elsewhere all sales fit it |
| TakeProfitRuns.StaleRollbackStrands | manager.py:1356-1368 | a close that fails between another level's lock and rollback leaves its own lock set for good, from every state with a level running |
| TakeProfitRuns.StaleTrailStrands | manager.py:1573-1611 | so does a tick that only trails, if a close fails between its read and its write; undisturbed it leaves no trace |
| TakeProfitRuns.StaleFailUnlocks | manager.py:1508-1519 | a failed close removes the lock that another level's tick has written since its own |
| TakeProfitRuns.StaleOtherUnlocks | manager.py:2183-2197 | so does any other writer with what it read before the lock |
| TakeProfitRuns.RefusedTickLeavesNoTrace | manager.py:1356-1368 | a refused tick, undisturbed, leaves the row as it was |
| TakeProfitRuns.FinalisationKeepsLocks | manager.py:1375-1439 | a finalisation, undisturbed, leaves the locks as they are, newer ones included |
| TakeProfitRuns.StaleBookUnlocks | manager.py:2183-2197 | a booking between another level's lock and its admission removes that lock |
| TakeProfitRuns.UnlockedSellsTwice | manager.py:1337-1368 | a level admitted without its lock is sold twice |
| TakeProfitRuns.CrashStrandsLock | manager.py:1356-1358 | a crash with a close pending or being attempted leaves a lock no tick resolves |
| TakeProfitRuns.CrashIsReachable | manager.py:1331-1368 | such a state is one tick away from every fresh trade |
| TakeProfitRuns.RaiseSellsAgain | manager.py:1508-1519 | a raise after a level's fill, at any stage, gets the level sold again by the next tick |
| TakeProfitRuns.FillIsReachable | manager.py:1484-1506 | such a fill is reached from every fresh trade |
| Grid.FloorToIs | utils.py:23-31 | a floored value is the one multiple within one step below |
| Grid.FloorIsLargest | utils.py:23-31 | the floor is the largest multiple not above the value |
| Grid.CeilIsSmallest | utils.py:34-41 | the ceiling is the smallest positive multiple not below it |
| StopRatchet.ProtectMovesAway | utils.py:44-64 | rounding moves a stop away from the market by less than one tick and never unsets it |
| StopRatchet.NeverMovesBack | manager.py:973-1030 | over any run a LONG stop never falls and a SHORT stop, once set, never rises |
| StopRatchet.LadderTightens | manager.py:986-1020 | one ladder step equals tightening to the rung below the highest level reached |
| StopRatchet.TrailIsFollow | manager.py:1537-1615 | one trailing step equals following the running best at the distance |
| StopRatchet.TrailsAtDistance | manager.py:1537-1615 | with the distance written out: one trailing step leaves a LONG stop alone or puts it in (best - distance - tick, best - distance], never leaving it farther away; mirrored for SHORT; out of profit nothing changes |
| StopRatchet.RunIsReference | manager.py:1032-1056 | after any run, overwritten best prices included, the stop is the tightest of its initial level, the rung of the best price and the trail behind the best reference used |
| StopRatchet.SeenCoversPrices | manager.py:1553-1582 | best price and best reference are no worse than any price acted on, whatever was overwritten |
| StopRatchet.SeenIsRunningBest | manager.py:1553-1582 | without overwrites the reference is the running best |
| StopRatchet.TrailingHolds | manager.py:1042-1047 | in any run the stop is at least round(best - trail) for the best reference used and for every trailing price |
| StopRatchet.DistanceHolds | manager.py:1568-1597 | in any run a LONG stop is above every price in profit less distance and tick; a SHORT stop below it plus both |
| StopRatchet.RungHolds | manager.py:995-1030 | once any price reached a take-profit the stop is at least the rung below it, exactly so on the grid |
| StopRatchet.LevelsHold | manager.py:995-1030 | past TP3 the stop holds TP2, past TP2 it holds TP1, past TP1 it holds the entry, to the tick, in any run |
| StopRatchet.StopHasReason | manager.py:973-1056 | no stop without a reason: after any run it is the initial one, or on the tick grid just behind a level whose take-profit a price reached, or at the distance behind a price in profit or the best price known at the start |
| StopRatchet.OverwritesLeaveNoTrace | manager.py:2177-2197 | the worker's older metadata can lower the stored best price, yet the stop is the same as without it |
| StopRatchet.StopKeeper.AdvanceProfitStopLadder | manager.py:973-1030 | the ladder step on the stored row |
| StopRatchet.StopKeeper.ApplyTrailingStop | manager.py:1537-1615 | the trailing step on the stored row |
| StopRatchet.StopKeeper.Manage | manager.py:1032-1047 | held while entries are planned, else ladder and then trail |
| Ledger.ReplaceInTally | database.py:1086-1144 | replacing a row replaces its share of the day |
| Ledger.CloseAddsToDay | database.py:1171-1271 | a close adds one trade and its PnL to the day of its closing time and nothing to any other |
| Ledger.OneTradeCounts | database.py:1086-1112 | what one trade counts with, and on which day, field by field |
| Ledger.TallyAddsUp | database.py:1086-1112 | all trades together count as each alone |
| Ledger.OpenRowsDoNotCount | database.py:1345-1375 | updates of open trades, staged adds among them, change no day |
| Ledger.LateLegUnbalances | manager.py:2186-2203 | a leg booked on a trade closed on another day unbalances that day exactly when the PnL changed |
| Ledger.LedgerTables.GetDailyTradeAnalytics | database.py:1086-1144 | sum and number of the trades closed that day |
| Ledger.LedgerTables.InitializeDailyStats | database.py:647-678 | a new day balances exactly when nothing was closed on it before |
| Ledger.LedgerTables.AddDailyRealizedPnl | database.py:702-719 | adds to an existing day only |
| Ledger.LedgerTables.LogTrade | database.py:1275-1343 | a new trade enters unclosed and changes no day; a duplicate id is skipped |
| Ledger.LedgerTables.SyncDailyStats | database.py:1146-1169 | undisturbed, the day equals its closed trades afterwards |
| Ledger.LedgerTables.BookLeg | manager.py:2186-2203 | a partial leg leaves today balanced and, on an open trade, no trace in any day |
| Ledger.LedgerTables.CloseTradeAndSyncStats | database.py:1171-1271 | closes one active trade once, leaving it with the returned PnL as the answer to a repeated close; leaves closed trades alone and returns their stored PnL; serial calls keep every day balanced |
| LedgerRuns.SyncWriteKeepsInvIff | database.py:1146-1169 | a sync's write keeps every day balanced or about to be if and only if what it read is still true or someone else will write again |
| LedgerRuns.AbandonKeepsInvIff | database.py:1262-1266 | so does a thread that ends before its sync |
| LedgerRuns.NewDayKeepsInvIff | database.py:647-678 | and a new day, if nothing was closed on it or someone will sync it |
| LedgerRuns.EveryRunBalances | database.py:1146-1271 | over every interleaving of closes, legs, reports, syncs and new days without a harmful step, once all threads are done every day shows exactly the trades closed on it |
| LedgerRuns.TradeEntersDay | database.py:1171-1271 | a trade entered and closed undisturbed adds itself to its day, balanced, whatever was added to the total before the sync |
| LedgerRuns.ReportRepairs | database.py:1146-1169 | an undisturbed sync repairs its day, however wrong it was, and no other |
| LedgerRuns.SlowerSyncLosesClose | database.py:1146-1169 | two closes and a slower sync leave the day one trade short, from every state |

## Left out

- HTTP, websocket and SQLite plumbing, reconnect threads, Telegram, logging, reports: no provable core.
- Gates without state of their own here (account endpoint gate, scan mode, safety mode, minimum-interval
  limiter, per-lane budget manager) enter `Wire` as verdicts.
- Sends.WireBoundIff: for windows too short to hold half of the attempts, and for more than nine attempts
  at the default cap, only `Sends.WireBound` is proved. The random part of the back-off counts as 0.
- Wire.RestGateway.ThrottledCall: calls run one after the other; concurrent calls interleave only through
  the locked steps of tracker, bucket and pacer, each of which is proved for any order. Rate-limit
  halts and cached answers are one outcome, Refused or Failed.
- TokenBucket.RestTokenBucket.Acquire: termination assumes no competing grant and no new hard stop, since
  with either the code can wait forever.
- BanGate.RestBanGate.IsRestBlocked: one query is one step; the code takes its lock three times, and
  queries of several threads may overlap.
- BootstrapTrim.BootstrapPacer.Trim: one call is one step; the code holds no lock here and has two callers
  (market_data_hub.py:2590 and 2661), whose calls may overlap.
- KlineHistory.ClosedBars: a maximal length of 0 is excluded; every caller passes at least 200.
- KlineHistory.Normalize: a frame's timestamp is its milliseconds; pandas conversions are not modelled.
- CandleCache.SafeRunsCoherentIff: a fetch limit of 0, which Python's slice reads as no limit, is excluded.
- CandleCache.MarketDataHub: frames written by the REST-miss path of `get_candles` and by the candle
  bootstrap, the frame's bar stamp and the listeners are not modelled; the history deque fed by the same
  handlers is `KlineHistory.ClosedBars`.
- DcaProtocol: one trade, one monitor and one reconciler thread; a terminal-negative status means
  nothing was executed; a partially filled order is adopted with the quantity it shows and not again.
  Averages, triggers, sizing and the stop armed by the third entry are not modelled.
- DcaProtocol.EveryRunAtMostOnce: false for runs that roll a live stage back or misplace a mark, which the
  code allows. The other writers it knows write metadata only; that nobody else writes the stage column or
  the quantity is assumed.
- DcaBooks.EveryRunConserves: false for runs that restore an adopted mark, which the code allows too.
- ExitClaims.ClaimFile: each operation is atomic; at file-system grain the unreadable-file and
  expired-overwrite paths are not exclusive. A trade id is taken to be its own file name.
- TakeProfitLocks.FlagsAreExact: false for runs with a stale write, a crash on a pending level or a raise
  after a level's fill, all of which the code allows.
- TakeProfitLocks: one monitor thread; partial take-profits are switched on. The metadata that the
  reconciler (reconciliation.py:1063) and the watchdog process write back is modelled; that the watchdog also
  sells levels and sets their flags (watchdog.py:707-730) while the main process is down is not. Stop and
  status set by the finalisation are not modelled, except that the last level
  closes the trade.
- StopRatchet: covers runs between two take-profit finalisations, which set the stop unconditionally, and
  outside staged entries, which hold it. Rounding to a number of decimals and the 1e-12 allowance of the
  ceiling are exact here.
- LedgerRuns: a leg on a trade closed on another day with a changed PnL is taken as harmful
  (`Ledger.LateLegUnbalances` says when it is); the running total and the balance of the day are not kept.
- Ledger.LedgerTables.CloseTradeAndSyncStats: calls are serial here; the switch that skips the day's re-derivation, never used by
  a caller, and the balance update are not modelled; neither is a failing database.
- Entry sizing, strategy engines, risk gates, balance and position fallbacks, order-status heuristics and
  exit-PnL resolution: chains of external reads or single-branch checks that would add easy members.

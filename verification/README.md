# Verified models of the trading bot's state machines

A Dafny 4.11 project. It models the parts of the bot whose correctness lives in state that changes step by
step: the order book and its synchronisation, candles with positions and equity, subscription rotation, alert
delivery, the lock hierarchy, and the queues and limiters on the way to the exchange.
`dafny verify dfyconfig.toml` checks everything.

## How it is built

For each component a functional model (`Step`, `Run`, or a fold) says what one atomic step does; lemmas about it hold
over every run and every interleaving; and a class with the component's own fields follows it, each method's
`ensures` equating the new state with the step. Asynchronous code is cut at its awaits, threaded code at its lock
sections; time, fetch results, crashes and database writes that raise are inputs. Prices and money are reals, times
integers. Alerts and paper positions keep two tables: the rows as the connection sees them, and as last committed. A
write that raises either has no effect, or raises at its commit and leaves its statement in the open transaction, where
the next commit carries it along.

| files | part of the bot |
|---|---|
| `BookSpec`, `BookOverrun`, `L2Buffer` | fixed-size order book sides against a price → quantity map |
| `WsSync`, `Bootstrap`, `BootstrapOverrun` | connection epochs, sequence validation, replay after a snapshot |
| `Candles`, `Funding`, `PaperMath` | 1 s → 5 s candles, funding boundaries, the money formulas |
| `SimSpec`, `TouchRules`, `SimRuns`, `PositionSim` | position simulator: exits, ledger, equity |
| `PaperSpec`, `PaperAgreement`, `PaperRuns`, `PaperExits`, `PaperManager` | paper positions in memory and in the database, with crashes |
| `TradeFigures` | entries, funding and the end of a run in figures, for both |
| `PaperParity` | what the paper manager and the simulator have in common, and where they part |
| `PerSymbol`, `Basics` | per-symbol dictionaries shared by the two; an option type |
| `RotationSpec`, `UniverseService` | hysteresis, flap windows, exponential quarantine |
| `AlertSpec`, `AlertTable`, `AlertRuns`, `AlertGuarantees`, `AlertSending`, `AlertAbandoned`, `AlertAgent` | alert queue, warning buffer, breaker, status column |
| `Locks` | level-ordered locks for any number of threads |
| `TelemetryQueue` | two-stage drop queue with a bridge thread |
| `Pacer`, `TokenBucket`, `RestGateway` | aging priority queue, rate limit, order posts |

## Where the code does not do what it says

Each of these is proved as a lemma, with the exact condition under which the promise does hold.

- A batch that counts 5000 or more new levels on a side makes the outer trim loop spin forever
  (`L2Buffer.L2Book.ApplyBatch`, outcome `NeverReturns`; `L2Buffer.EmptyBookOverloads` is such a batch).
- The count pass does not cover levels that the trim then cuts: a batch that touches cut levels can still run past
  slot 4999 (`BookSpec.CutTailIsNeeded`), and raise in the middle (`BookOverrun.CutTailCanRaise`). `ApplyBatch` says
  exactly when, and what the book holds then.
- Snapshot rows are not checked: the book is sorted afterwards exactly if they were (`L2Buffer.L2Book.OnSnapshot`).
- After a resync on a living connection the epoch of the book is ahead: every accepted update is dropped, with `synced`
  true (`WsSync.ResyncFreezes`; `WsSync.LateRunFreezes` is a run that gets there). Reconnects do not help
  (`WsSync.FrozenBook`): only a failed fetch, or a connect before the resync of the one before is over, lets updates in
  again. An accepted update changes the book exactly if its epoch is the number of snapshots
  (`WsSync.AcceptedChangesIfEpochMatches`).
- A resync does not move the sequence validator, so on Binance every message behind a gap asks for another resync, and
  none is accepted before the next connect (`WsSync.GapStaysGap`).
- The doc string of the sequence validator asks MEXC versions to rise by one; the code accepts every jump
  (`WsSync.MexcAcceptsJumps`).
- A failed commit fetch is bridged as if nothing were missing, and so is a commit that raises while it is applied, which
  stays half applied (`Bootstrap.AppliedIsContiguous`, `Bootstrap.FailedFetchSkipsVersions`,
  `Bootstrap.RaisedCommitSkipsVersions`; `BootstrapOverrun.OverrunSkipsVersions` is an input of the order book itself).
  The validator may stand behind the book (`Bootstrap.ValidatorMayLag`).
- "All formulas mirror the simulator exactly": the stop distance is measured at the close in one and at the slipped
  fill in the other, so entries differ exactly when there is slippage and a cap or floor bites
  (`PaperParity.EntriesMatch`, `PaperParity.CappedEntriesDiffer`).
- The simulator's header lists the entry fee among what equity is marked with; the code charges it at the close
  (`SimRuns.ClosingCostsTheFees`).
- An entry whose position id already exists lives in memory only (`PaperRuns.EntryAgreesIfNew`,
  `PaperParity.ReusedIdIsNotStored`); a startup that cannot read the table or a row leaves OPEN rows without positions
  (`PaperRuns.FailedStartupAgreesIfNoneOpen`, `PaperRuns.StartupAgreesIfAllParse`,
  `PaperRuns.FailedStartupLosesThePosition`); funding paid is lost in a restart (`PaperAgreement.RecoveryLosesFunding`).
- An entry whose commit raised is refused, yet the next commit on the connection stores its row, and the next start
  loads a position nobody took (`PaperRuns.CommitAgreesIfNothingCarried`, `PaperRuns.StuckEntryIsCarried`,
  `PaperRuns.StuckEntryComesBack`).
- A close whose commit raised and that is retried leaves the figures of the first attempt in the table and those of the
  second in memory (`PaperRuns.RetriedCloseKeepsFirstFigures`, `PaperRuns.CloseIsRecordedIfOpen`).
- The next funding time lies after ts + 1 ms, not after ts (`Funding.NextFundingTs`).
- A critical alert is popped before its row is locked; if the lock raises, the row stays pending and the queue no longer
  has it (`AlertGuarantees.LockRaiseLosesTheAlert`, `AlertGuarantees.MissingExactlyIfRaised`), until a half-open probe or
  the sweep of a restart finds it (`AlertGuarantees.LostAlertWaits`).
- A lock that raises in the middle of a warning batch leaves the rows before it `sending` though no sender has them, and
  the rest pending though no buffer has them (`AlertGuarantees.FlushRaiseStrandsTheBatch`).
- A row whose send is cancelled, or in flight when the process ends, stays `sending` for good
  (`AlertAbandoned.AbandonedForGood`, `AlertAbandoned.CancelAbandons`, `AlertAbandoned.RestartAbandons`).
- Half-open with no critical row pending, every drain returns at once: buffered warnings wait for the next critical alert
  (`AlertGuarantees.HalfOpenStalls`, `AlertGuarantees.StallIsReachable`).
- The telemetry drop counter may exceed the losses (`TelemetryQueue.PutBackCanOvercount`), and after a close that meets a
  full or failing process queue it may fall short of them (`TelemetryQueue.LossesAfterClose`,
  `TelemetryQueue.CloseCanLoseUncounted`, `TelemetryQueue.CloseCanSwallow`).
- Reaching the flap threshold within the window does not always quarantine: windows tile, and a burst across two of them
  enters nothing (`RotationSpec.EntersExactlyAtThreshold`, `RotationSpec.BurstAcrossWindowsEntersNothing`).
- A request of more than 15 tokens waits forever (`TokenBucket.SleepingIsEnough`).
- A configured maximum of several half-open probes gives one (`RestGateway.OneProbePerOpening`), and if that one ends
  with neither a success nor a 429, the normal path of its symbol is blocked for ever (`RestGateway.BlockedUntilRecorded`,
  `RestGateway.FirstRecordReopens`).

## Model

| member | source | states |
|---|---|---|
| BookSpec.LevelCount | src/data_layer/l2_buffer.py:101-109 | a strictly sorted side holds as many levels in its map as it has active slots: no price twice |
| BookSpec.InsertLevel | src/data_layer/l2_buffer.py:161-172 | shifting a new price in at its place is adding the level to the map |
| BookSpec.DeleteLevel | src/data_layer/l2_buffer.py:145-155 | shifting out is removing exactly that price from the map |
| BookSpec.TrimIsLeast | src/data_layer/l2_buffer.py:216-232 | what the trim leaves is the result of the least number of 1000-blocks after which length + new < 5000 |
| BookSpec.FoldIsBounded | src/data_layer/l2_buffer.py:129-212 | folding a batch adds at most its distinct new prices, whatever duplicates and delete-then-add it holds |
| BookSpec.CapacityHolds | src/data_layer/l2_buffer.py:93-127 | fewer than 5000 counted and no nonzero diff in the cut tail: every prefix of the batch fits the 5000 slots |
| BookSpec.CutTailIsNeeded | src/data_layer/l2_buffer.py:97-127 | a full book and a batch over 1000 cut levels plus new ones passes the count yet overruns |
| BookSpec.FoldTakesLastDiffs | src/data_layer/l2_buffer.py:129-212 | at each price the last diff that names it wins: its quantity, or nothing if that is zero; a price no diff names is as before |
| BookOverrun.FittingBatchIsFolded | src/data_layer/l2_buffer.py:129-212 | a batch that fits both sides never raises and makes each side the fold of its diffs |
| BookOverrun.OverrunKeepsTheBest | src/data_layer/l2_buffer.py:156-172 | a full side that takes a new level without raising keeps the best 5000 of the old levels and the new one |
| BookOverrun.FullSide | src/data_layer/l2_buffer.py:156-172 | what the slot found by the search says of a full side: how many levels are better, and what a write to the last slot makes of it |
| BookOverrun.PrefixIsBest | src/data_layer/l2_buffer.py:216-232 | the prefix of a sorted side that a trim leaves is its best levels |
| BookOverrun.TrimCutsTheWorst | src/data_layer/l2_buffer.py:216-232 | what the trim before a batch cuts is worse than all it keeps: lower bids, higher asks |
| BookOverrun.RaisesExactlyBeforeTwo | src/data_layer/l2_buffer.py:156-172 | a new level for a full side raises exactly if two held levels are worse, and is dropped if none is |
| BookOverrun.CutTailCanRaise | src/data_layer/l2_buffer.py:93-172 | a full side and a batch that counts one new level and raises when it comes |
| L2Buffer.BookSide.SearchSorted | src/data_layer/l2_buffer.py:102-106 | binary search finds the only place where a price keeps the side sorted |
| L2Buffer.BookSide.ApplyDiff | src/data_layer/l2_buffer.py:130-172 | one diff makes the side quote its quantity at its price, or nothing if that is zero, and leaves every other price alone; on a full side, as PutBounded says |
| L2Buffer.BookSide.Trim | src/data_layer/l2_buffer.py:216-250 | keeps the best-priced prefix, zeroes the rest, ends with room or an empty side |
| L2Buffer.L2Book.CountInserts | src/data_layer/l2_buffer.py:93-121 | the first pass counts nonzero diffs at prices not held, per side |
| L2Buffer.L2Book.ApplyAll | src/data_layer/l2_buffer.py:129-212 | the second pass leaves at each price what the last diff naming it says, exactly when the fold never outgrows the array; overrun or raised, the contents are those of ApplyEach |
| L2Buffer.L2Book.ApplyBatch | src/data_layer/l2_buffer.py:79-214 | another epoch changes nothing; it never returns exactly at 5000 or more new levels on a side; applied without an overrun, the last diff wins at each price over the levels the trim keeps; in every other case the book holds what Batch makes of the two maps |
| L2Buffer.RoomyBatchFits | src/data_layer/l2_buffer.py:93-127 | a condition on the batch before the call under which it fits |
| L2Buffer.BestPricesFirst | src/data_layer/l2_buffer.py:101-109 | bids run down from the highest price, asks up from the lowest, none twice |
| L2Buffer.EmptyBookOverloads | src/data_layer/l2_buffer.py:123-127 | a batch of 5000 new levels for an empty side never returns |
| L2Buffer.L2Book.OnSnapshot | src/data_layer/l2_buffer.py:252-326 | starts the next epoch and replaces both sides by the first 5000 rows as they come; the book is sorted exactly if they are, and then holds them |
| WsSync.ChangesCarryTheSnapshotEpoch | src/ws_manager/manager.py:71-167 | over all interleavings of connect, message and resync, a batch that changes the book between its s-th and next snapshot carries epoch s |
| WsSync.AcceptedChangesIfEpochMatches | src/data_layer/l2_buffer.py:89-91 | an accepted update changes the book exactly if there is one and its epoch is the number of snapshots |
| WsSync.FrozenStep | src/ws_manager/manager.py:71-167 | which steps thaw a frozen book, exactly, and that none changes it by an update |
| WsSync.FrozenBook | src/ws_manager/manager.py:71-167 | through reconnects and resyncs no update changes a frozen book until a step thaws it |
| WsSync.ReconnectsDoNotThaw | src/ws_manager/manager.py:71-167 | no run thaws it in which no fetch is reported as failed and every connect finds the book synced |
| WsSync.GapStaysGap | src/data_layer/seq.py:121-132 | on Binance, behind a gap every message resyncs and none is accepted until the validator is reset |
| WsSync.LateRunFreezes | src/ws_manager/manager.py:71-167 | a run of seven steps that ends frozen, synced, and behind a gap |
| WsSync.ResyncFreezes | src/ws_manager/manager.py:136-167 | one resync on a living connection brings that about, and counts as synced |
| WsSync.AcceptedUpdatesAreInOrder | src/data_layer/seq.py:99-132 | updates accepted since the last reset rise strictly to last_u; on Binance they cover every number from the base on |
| WsSync.MexcAcceptsJumps | src/data_layer/seq.py:109-119 | on MEXC any higher version is accepted and changes the book, and only those |
| WsSync.BinanceAcceptsInSequence | src/data_layer/seq.py:121-132 | on Binance an update is accepted and changes the book exactly if its range takes in the next number; one that starts later resyncs |
| WsSync.ConnectsExactly | src/ws_manager/manager.py:71-110 | when a connect opens the next epoch, unsynced, and what its end does to the validator |
| WsSync.SmallSteps | src/ws_manager/manager.py:112-167 | the end of a task, the start of a fetch, and a moved mark |
| WsSync.QueueFollows | src/data_layer/l2_buffer.py:328-343 | which events fill, clear and pick from the pre-sync queue |
| WsSync.KeptIsAhead | src/data_layer/l2_buffer.py:328-343 | of the pre-sync queue a snapshot keeps, in order and with repeats, exactly the updates ahead of it in its own epoch |
| WsSync.SequenceValidator.ValidateUpdate | src/data_layer/seq.py:78-132 | the verdict, and that only a valid update moves the state, of its own symbol alone |
| WsSync.SequenceValidator.SetEpoch | src/data_layer/seq.py:142-147 | resets one symbol to zero in the new epoch |
| WsSync.SequenceValidator.SetLastU | src/data_layer/seq.py:149-161 | moves the mark and keeps the epoch of one symbol |
| WsSync.WsManager.ConnectStart | src/ws_manager/manager.py:71-80 | the first stretch of connect is the model's step |
| WsSync.WsManager.ConnectFinish | src/ws_manager/manager.py:80-110 | the second stretch of connect is the model's step, set_epoch raising or not |
| WsSync.WsManager.MessageStart | src/ws_manager/manager.py:112-131 | epoch gate, pre-sync queue, or on to validation |
| WsSync.WsManager.MessageFinish | src/ws_manager/manager.py:131-149 | verdict, then resync, nothing, or the batch; reports whether the book changed |
| WsSync.WsManager.FetchFinish | src/ws_manager/manager.py:151-167 | the end of a snapshot fetch, applied or not |
| Bootstrap.AppliedIsContiguous | tests/shadow/runner.py:706-774 | versions applied in full after a snapshot are snapshot + 1, + 2, ... each once, exactly unless recovery raised, a left-over push was applied after it, and the oldest does not continue the run |
| Bootstrap.FailedFetchSkipsVersions | tests/shadow/runner.py:776-817 | a concrete bootstrap that skips a version after a failed fetch |
| Bootstrap.RaisedCommitSkipsVersions | tests/shadow/runner.py:746-754 | a bootstrap whose fetch succeeds and whose first commit raises: versions are skipped and the commit stays half applied |
| BootstrapOverrun.OverrunSkipsVersions | tests/shadow/runner.py:784-806 | such a bootstrap over the order book itself, with a commit that overruns a side |
| Bootstrap.BookIsCommittedPrefix | tests/shadow/runner.py:706-817 | unless recovery raised, the book is the snapshot with the committed versions up to the last applied one, and the next as far as its apply went if one raised |
| Bootstrap.BootIsComplete | tests/shadow/runner.py:727-766 | nothing ready is left out: each loop reaches the end of every run of versions before it, in the buffer, among the commits, and in the buffer again |
| Bootstrap.RaisedRecoveryGoesOn | tests/shadow/runner.py:746-766 | if recovery raised, the left-over pushes go on top of that prefix, a half-applied commit included |
| Bootstrap.ValidatorMayLag | tests/shadow/runner.py:740-774 | for any input, when exactly the validator's mark is the last applied version; after a recovery that raised and a good end never |
| Bootstrap.LastIsCounted | tests/shadow/runner.py:706-774 | the last applied version counts what was applied, exactly unless recovery raised and the oldest push does not continue the run |
| Bootstrap.ShadowRunner.ReplayBuffer | tests/shadow/runner.py:727-744 | the buffer loop reaches the end of every run of versions at rising places, up to a push that raises, and keeps those ahead |
| Bootstrap.ShadowRunner.GapRecover | tests/shadow/runner.py:776-817 | commits already applied are skipped, and the first gap or the first that raises ends it; the mark moves only at a good end |
| Bootstrap.ShadowRunner.BridgeGap | tests/shadow/runner.py:746-759 | gap recovery with its handler, which a failed fetch and a raising commit enter alike |
| Bootstrap.ShadowRunner.BootstrapSymbol | tests/shadow/runner.py:706-774 | the whole bootstrap as the model's, with last applied version and mark; at a good end without a raise in recovery nothing ready is left out; only at a good end are pending pushes given up and the symbol synced |
| Candles.DetectorAgrees | src/backtest/signal_detector.py:79-112 | on every stream, out-of-order bars included, detector and simulator finalize the same candles |
| Candles.PaperAgrees | src/execution/paper_position_manager.py:366-405 | the paper manager sees the bars with positive closes; on such streams all three agree |
| Candles.CandlesRise | src/backtest/position_sim.py:193-221 | candle seconds rise strictly in multiples of five |
| Candles.CandlesAreGroups | src/backtest/position_sim.py:193-221 | on ordered streams candles are the bars grouped by bucket: first, max, min, last |
| Candles.SignalDetector.FeedBar | src/backtest/signal_detector.py:79-112 | the detector's fields follow its aggregation, with the last max_history candles kept |
| Funding.NextFundingTs | src/backtest/position_sim.py:518-529 | the loop over 0, 8, 16 h gives the least eight-hour boundary after ts + 1 ms |
| Funding.OncePerBoundary | src/backtest/position_sim.py:223-231 | for any event times the loop body runs exactly once for each boundary after the first event + 1 ms up to the latest time |
| PaperMath.GrossIsRTimesRisk | src/trading/paper_math.py:85-129 | sized that way, gross profit is the R multiple of the risked amount at every exit price |
| PaperMath.StopAndTarget | src/trading/paper_math.py:64-82 | the stop is -1 R and the target tp_r_multiple R |
| PaperMath.DistancesAgree | src/trading/paper_math.py:43-61 | the clamped distances at two prices agree exactly when neither cap nor floor bites |
| PaperMath.ComputeAtr | src/trading/paper_math.py:132-153 | the loop is the mean true range of the last period candles, None when there are too few |
| PaperMath.TrueRangeIsSpan | src/trading/paper_math.py:145-149 | a true range is the span of a candle with the close before it |
| PaperMath.AtrOfTail | src/backtest/position_sim.py:175-175 | the bounded candle history never changes the ATR |
| PaperMath.AtrIsBetweenRanges | src/trading/paper_math.py:132-153 | the ATR lies within any bounds on the last period true ranges |
| TradeFigures.SlippageIsPaid | src/trading/paper_math.py:28-40 | a long fills above the price and a short below it, by the slippage |
| TradeFigures.StopDistanceIsClamped | src/trading/paper_math.py:43-61 | the multiple of the ATR, cut at the maximum and raised to the minimum share of the price |
| TradeFigures.SimEntryFigures | src/backtest/position_sim.py:239-296 | fill, stop, target and fee of an entry of the simulator |
| TradeFigures.PaperEntryFigures | src/execution/paper_position_manager.py:533-588 | the same of the paper manager |
| TradeFigures.PaperEntryTaken | src/execution/paper_position_manager.py:436-606 | exactly when a paper entry is taken: write, fresh price, limits, ATR, fill, distance, risked amount |
| TradeFigures.PaperRefusal | src/execution/paper_position_manager.py:436-580 | the reason of a refusal, in the order of the checks |
| TradeFigures.SimRefusal | src/backtest/position_sim.py:239-262 | the reason the simulator names |
| TradeFigures.LongsPayPositiveRates | src/trading/paper_math.py:174-183 | a long pays rate times notional at each boundary, and a short receives it |
| TradeFigures.SimFunding | src/backtest/position_sim.py:223-231 | that payment, once per boundary passed, of the symbol's position alone |
| TradeFigures.PaperFunding | src/execution/paper_position_manager.py:406-432 | the same in the paper manager |
| TradeFigures.NothingIsPaidWithoutFunding | src/backtest/position_sim.py:223-231 | with funding switched off nobody pays |
| TradeFigures.BarsDoNotRefresh | src/execution/paper_position_manager.py:350-416 | ticks stamp a price, bars only one that has no stamp |
| TradeFigures.FinalizePrices | src/backtest/position_sim.py:298-314 | finalize closes in order of entry at the price given if positive, else the last price, else the entry |
| TouchRules.ExitsExactlyOnTouch | src/backtest/position_sim.py:435-465 | a candle makes a position exit exactly if, after the entry bucket, its low or high reaches stop or target; at the level, the stop first |
| SimRuns.RunKeepsBook | src/backtest/position_sim.py:413-465 | over every run no later candle has reached stop or target of an open position, trades left on the candle that did, one position per symbol |
| SimRuns.TradesCloseAtFirstTouch | src/backtest/position_sim.py:435-465 | a stop or target trade closes on the first candle after the entry bucket whose low or high reaches one, at the level, later than its entry; the stop wins |
| SimRuns.TradesEarnTheirR | src/backtest/position_sim.py:467-515 | gross is R times the equity at entry times risk_pct; a stop -1 R, a target tp_r_multiple R; net is gross less fees, each price times size times rate, and funding |
| SimRuns.RunBalances | src/backtest/position_sim.py:467-515 | realized equity is the initial equity plus the net of all trades |
| SimRuns.ClosingCostsTheFees | src/backtest/position_sim.py:323-335 | closing at the last price changes marked equity by exactly the two fees |
| SimRuns.EntryTaken | src/backtest/position_sim.py:239-296 | an entry is taken exactly when symbol, limits, ATR, stop distance and risked amount allow it |
| SimRuns.EntryEffect | src/backtest/position_sim.py:278-296 | what an entry records, and that it moves marked equity only by the new position at its last price |
| SimRuns.RunIsPriced | src/backtest/position_sim.py:239-335 | every open position has a last price, so the fallbacks never run; the global limit holds |
| SimRuns.FinalizeRealizesEverything | src/backtest/position_sim.py:298-314 | after finalize nothing is open and equity is the realized equity |
| SimRuns.TimelinesAreSeparate | src/backtest/position_sim.py:189-234 | candles and funding clock of a symbol depend on its own events only |
| SimRuns.LastPriceIsLastClose | src/backtest/position_sim.py:189-236 | the last price is the close of the last bar of the symbol, the funding rate that of its last ticker |
| PositionSim.PositionSimulator.OnOhlcv | src/backtest/position_sim.py:189-234 | the event handler follows the model's step |
| PositionSim.PositionSimulator.FundUntil | src/backtest/position_sim.py:223-231 | the funding loop ends and pays once per boundary passed |
| PositionSim.PositionSimulator.OnEntry | src/backtest/position_sim.py:239-296 | the entry follows the model's step, in its order of checks |
| PositionSim.PositionSimulator.MarkedEquity | src/backtest/position_sim.py:322-335 | the loop is realized equity plus every open position marked to its last price |
| PositionSim.PositionSimulator.ClosePosition | src/backtest/position_sim.py:467-515 | moves one position into the trades and its net into the realized equity |
| PositionSim.PositionSimulator.Finalize | src/backtest/position_sim.py:298-314 | finalize follows the model's step and leaves no position |
| PaperRuns.RunAgrees | src/execution/paper_position_manager.py:493-694 | over every proper run, raised writes, stuck statements, retries and crashes included, memory is the OPEN rows on disk, one per symbol, within the limit |
| PaperRuns.AgreesExactlyIfProper | src/execution/paper_position_manager.py:305-694 | memory and disk agree at every point of a run exactly if the run is proper: no commit carries along what was refused, and every startup loads every OPEN row |
| PaperRuns.CrashRestores | src/execution/paper_position_manager.py:305-346 | a crash at any point, between commit and memory too, restores the positions field for field (funding off) |
| PaperAgreement.LoadRecovers | src/execution/paper_position_manager.py:305-346 | the row loop rebuilds memory whatever the order of the rows |
| PaperAgreement.RecoveryLosesFunding | src/execution/paper_position_manager.py:424-432 | recovery is exact exactly when no position has paid funding |
| PaperAgreement.CloseAgrees | src/execution/paper_position_manager.py:762-783 | a committed close agrees exactly if it carries along at most an earlier close of the same position |
| PaperAgreement.InsertAgrees | src/execution/paper_position_manager.py:732-760 | a committed entry agrees exactly if it carries nothing else along and an id already there is its own row, stuck before |
| PaperRuns.CommitAgreesIfNothingCarried | src/execution/paper_position_manager.py:683-694 | any commit on the connection, entry, close or other, keeps agreement exactly if it carries nothing along behind the back of memory |
| PaperRuns.StuckEntryIsCarried | src/execution/paper_position_manager.py:590-595 | with an entry stuck, every commit but the retry of that entry ends agreement |
| PaperRuns.StuckEntryComesBack | src/execution/paper_position_manager.py:576-606 | a stuck entry that a commit carries along is a position in memory after a restart |
| PaperRuns.EntryAgreesIfNew | src/execution/paper_position_manager.py:576-606 | a committed entry keeps agreement exactly when its id is not in the table |
| PaperRuns.FailedStartupAgreesIfNoneOpen | src/execution/paper_position_manager.py:310-320 | a failed read agrees exactly when no row is OPEN |
| PaperRuns.FailedStartupLosesThePosition | src/execution/paper_position_manager.py:310-320 | with an OPEN row, a failed read loses its position |
| PaperRuns.StartupAgreesIfAllParse | src/execution/paper_position_manager.py:321-340 | a startup that skips rows which do not parse agrees exactly when none of them is OPEN |
| PaperRuns.RaisedWriteChangesNothing | src/execution/paper_position_manager.py:683-694 | a write that raises leaves memory, disk, trades and equity as they were, and the table too if it did not stick |
| PaperRuns.RowsOnlyClose | src/execution/paper_position_manager.py:732-783 | a row on disk never disappears, keeps its entry columns, and once closed never changes |
| PaperRuns.RunRecordsTrades | src/execution/paper_position_manager.py:683-699 | every trade of the process has its row closed on disk and equity is their sum; every row has the figures of its trade exactly if every close found its row OPEN on the connection |
| PaperExits.CandleClosesExactlyOnTouch | src/execution/paper_position_manager.py:608-638 | a candle closes the position of its symbol exactly if it touches stop or target and the write commits |
| PaperExits.OpenPositionsAreUntouched | src/execution/paper_position_manager.py:608-638 | over every run without a raised exit write no position in memory has been touched since it was taken |
| PaperExits.PaperClosesAtFirstTouch | src/execution/paper_position_manager.py:608-704 | so every stop or target exit is on the first touching candle |
| PaperRuns.CloseIsRecordedIfOpen | src/execution/paper_position_manager.py:762-783 | a committed close is on disk with its figures exactly if its row was still OPEN on the connection, or closed with the same figures |
| PaperRuns.RetriedCloseKeepsFirstFigures | src/execution/paper_position_manager.py:683-699 | a stuck close that is retried agrees, and the row keeps the first figures |
| PaperParity.EntriesMatch | src/execution/paper_position_manager.py:533-588 | both components enter, and the same position exactly when there is no slippage or neither cap nor floor bites at the price or the fill |
| PaperParity.CappedEntriesDiffer | src/execution/paper_position_manager.py:533-588 | with the default configuration, an ATR at which the two entries differ |
| PaperParity.ReusedIdIsNotStored | src/execution/paper_position_manager.py:732-760 | a concrete entry that commits and leaves no OPEN row |
| PaperParity.BarAggregates | src/execution/paper_position_manager.py:366-405 | a bar feeds the candles of its symbol as the aggregation says, whatever exit it causes |
| PaperSpec.SumSplits | src/execution/paper_position_manager.py:203-216 | marked equity does not depend on the order in which positions are visited |
| PaperManager.Database.WriteOpen | src/execution/paper_position_manager.py:732-760 | INSERT OR IGNORE, committed, without effect, or stuck: an existing id is left as it is and still reported as done |
| PaperManager.Database.WriteClose | src/execution/paper_position_manager.py:762-783 | updates the row only while it is OPEN; committed, without effect, or stuck |
| PaperManager.PaperPositionManager.OnStartup | src/execution/paper_position_manager.py:305-346 | loads the OPEN rows that parse into memory and reports how many |
| PaperManager.PaperPositionManager.Equity | src/execution/paper_position_manager.py:202-216 | the loop is the marked equity |
| PaperManager.PaperPositionManager.OnOhlcv | src/execution/paper_position_manager.py:366-413 | exit with its commit, then memory, then funding and price |
| PaperManager.PaperPositionManager.OnEntry | src/execution/paper_position_manager.py:436-606 | checks in order, then the commit, then memory |
| PaperManager.PaperPositionManager.ClosePosition | src/execution/paper_position_manager.py:640-704 | commit before memory; a failed write keeps the position |
| PaperManager.PaperPositionManager.Finalize | src/execution/paper_position_manager.py:708-728 | closes every position whose last write commits |
| RotationSpec.FlipsExactlyWhenHeld | src/data_layer/universe_service.py:261-305 | a subscription flips exactly when the Top5 disagreed with it without interruption for hysteresis_ms and it is not a subscribe under quarantine |
| RotationSpec.FlipsAreApart | src/data_layer/universe_service.py:267-305 | two flips of a symbol are at least hysteresis_ms apart |
| RotationSpec.SubscribesOutsideQuarantine | src/data_layer/universe_service.py:289-297 | no subscribe happens under quarantine |
| RotationSpec.EntryIsJustified | src/data_layer/universe_service.py:327-340 | a quarantine entry has flap_threshold exits behind it, within flap_window_ms and since the last entry |
| RotationSpec.EntersExactlyAtThreshold | src/data_layer/universe_service.py:327-340 | a quarantine is entered exactly at an exit that is the flap_threshold-th or later of its window, outside quarantine |
| RotationSpec.BurstAcrossWindowsEntersNothing | src/data_layer/universe_service.py:229-231 | three exits within four milliseconds that enter nothing at a threshold of three |
| RotationSpec.QuarantinesDoNotOverlap | src/data_layer/universe_service.py:338-350 | a quarantine starts no earlier than the end of the one before |
| RotationSpec.QuarantinesEscalate | src/data_layer/universe_service.py:345-376 | between stable resets quarantines never get shorter |
| RotationSpec.QuarantineLength | src/data_layer/universe_service.py:342-376 | a quarantine lasts the step that the quarantines before it have reached: all of them, or one and those since the last scan at which one had been over for the stable time |
| RotationSpec.StableScanResets | src/data_layer/universe_service.py:361-376 | at which scans, by entries and times, the level is put back to one |
| UniverseService.UniverseService.SeedSubscriptions | src/data_layer/universe_service.py:202-220 | subscribes exactly the symbols that are not excluded |
| UniverseService.UniverseService.RecordFlapRoundTrip | src/data_layer/universe_service.py:327-340 | one exit from the Top5 counted in the symbol's window |
| UniverseService.UniverseService.MaybeStableReset | src/data_layer/universe_service.py:361-376 | back to level one after the stable time |
| UniverseService.UniverseService.ApplyScan | src/data_layer/universe_service.py:222-319 | a scan takes every symbol one step of its own history, never subscribes an excluded one, and returns the difference, the symbols to watch and those under quarantine |
| AlertGuarantees.HandedAtMostOnce | src/alerting/agent.py:325-332 | over all interleavings of emits, drains, sends, restarts and raising writes no row is handed to a sender twice, and a result stands only on rows handed over |
| AlertGuarantees.MissingExactlyIfRaised | src/alerting/agent.py:397-400 | a pending critical row of this process is missing from the queue exactly when a lock raised on it after its pop or its insert raised at the commit |
| AlertGuarantees.WarningMissingExactlyIfRaised | src/alerting/agent.py:415-430 | a pending warning is missing from the buffer exactly when a lock of its batch raised on it or before it, or its insert raised at the commit |
| AlertGuarantees.NoRaiseNoLoss | src/alerting/agent.py:241-271 | without a raise every pending critical row is queued and every pending warning buffered, probes included |
| AlertGuarantees.LockRaiseLosesTheAlert | src/alerting/agent.py:397-400 | a concrete critical alert that is pending and no longer queued |
| AlertGuarantees.LostAlertWaits | src/alerting/agent.py:386-413 | only a half-open probe or a restart touches a lost alert again |
| AlertGuarantees.RaisedBatch | src/alerting/agent.py:423-430 | what a lock that raises in a batch leaves of each of its rows |
| AlertGuarantees.FlushRaiseStrandsTheBatch | src/alerting/agent.py:415-430 | after such a flush no row of the batch is handed over or buffered; those before it are sending, those behind it pending |
| AlertGuarantees.NoRaiseStrandsNothing | src/alerting/agent.py:386-452 | only a raise leaves a row sending that no sender was given |
| AlertGuarantees.StatusesOnlyMoveForward | src/alerting/agent.py:308-349 | from any reachable state on, a row on disk stays and its status only moves pending → sending → delivered/failed, pending → delivered, pending → expired |
| AlertGuarantees.ResultsLandOnSendingRows | src/alerting/agent.py:486-520 | the unconditional result update hits only rows its own send holds in sending |
| AlertGuarantees.ClosedDrainSendsOrClears | src/alerting/agent.py:397-413 | a drain under a closed breaker in which no write raises starts a send or leaves no critical row pending but those already lost |
| AlertSending.WarningsAreSentWhenDue | src/alerting/agent.py:403-430 | with no critical alert queued, a drain sends exactly the oldest batch_size warnings when the buffer is full or has waited for the window, and nothing otherwise |
| AlertSending.CriticalsAreSentInOrder | src/alerting/agent.py:397-402 | a drain sends the longest queued critical alert still pending, and nothing else |
| AlertSending.WarningsMergeExactly | src/alerting/agent.py:253-271 | a warning is merged exactly if its key was seen within the window and is still buffered; what either case leaves |
| AlertSending.EmittedRows | src/alerting/agent.py:232-251 | the rows of information and critical alerts |
| AlertSending.BreakerFollowsResults | src/alerting/agent.py:664-686 | when a result closes or opens the breaker, and for how long |
| AlertSending.ResultsAreWritten | src/alerting/agent.py:503-520 | the result of a batch stands on each of its rows |
| AlertSending.OpenBreakerWaits | src/alerting/agent.py:386-395 | an open breaker lets nothing happen before its time |
| AlertSending.StartExpiresOldRows | src/alerting/agent.py:334-349 | a start expires exactly the pending rows older than the cutoff |
| AlertGuarantees.ProbeTakesTheOldest | src/alerting/agent.py:432-452 | the half-open probe sends the oldest pending critical row, if any |
| AlertGuarantees.HalfOpenStalls | src/alerting/agent.py:432-443 | half-open with nothing in flight and no critical row pending, nothing is sent until a critical alert or a restart |
| AlertGuarantees.StallIsReachable | src/alerting/agent.py:386-452 | one failed alert leads there |
| AlertAbandoned.AbandonedForGood | src/alerting/agent.py:325-349 | a row sending on disk with no send in flight never changes, over any continuation |
| AlertAbandoned.CancelAbandons | src/alerting/agent.py:486-520 | a cancelled send leaves each of its rows that way |
| AlertAbandoned.RestartAbandons | src/alerting/agent.py:334-349 | so does a restart with every row in flight |
| AlertAgent.Database.OptimisticSending | src/alerting/agent.py:325-332 | locks a pending row only, and says whether it did; committed, without effect, or left in the transaction |
| AlertAgent.Database.Oldest | src/alerting/agent.py:435-443 | the scan for the oldest pending critical row |
| AlertAgent.AlertAgent.EmitCritical | src/alerting/agent.py:241-251 | row and queue entry, or the row alone if its commit raises, as the model's step |
| AlertAgent.AlertAgent.TryDedupMerge | src/alerting/agent.py:353-370 | merges into the buffered warning of the key within the window |
| AlertAgent.AlertAgent.EmitWarning | src/alerting/agent.py:253-271 | merge, or row, buffer and dedup entry |
| AlertAgent.AlertAgent.PopCritical | src/alerting/agent.py:397-400 | the critical loop: pops until a lock succeeds or raises |
| AlertAgent.AlertAgent.DrainOnce | src/alerting/agent.py:386-413 | a drain up to its first send, as the model's step |
| AlertAgent.AlertAgent.LockRows | src/alerting/agent.py:423-428 | the row-by-row lock loop: the rows locked, and those from a raise on |
| AlertAgent.AlertAgent.FlushWarningBatch | src/alerting/agent.py:415-430 | a batch carries the rows it locked, or is lost to a raise |
| AlertAgent.AlertAgent.WriteResults | src/alerting/agent.py:503-520 | the row-by-row result loop, up to a raise |
| AlertAgent.AlertAgent.SendEnds | src/alerting/agent.py:486-520 | statuses, breaker and the rest of the loop after a send; a status write that raises ends it before the breaker |
| Locks.NoWaitCycle | src/utils/locks.py:66-95 | for any threads, locks and levels the wait-for graph has no cycle in any reachable state |
| Locks.SomeHolderRuns | src/utils/locks.py:66-95 | whenever a thread is blocked some lock holder is not |
| Locks.EveryStateCanFinish | src/utils/locks.py:66-95 | from every reachable state grants and releases alone lead to a state with nothing held or awaited |
| Locks.HierarchicalLocks.BeginAcquire | src/utils/locks.py:66-81 | raises exactly if a level at or above the lock's is held, and then changes nothing |
| Locks.GivingUpKeepsLocks | src/utils/locks.py:81-88 | a failed acquire stops waiting and gives up nothing it holds |
| Locks.HierarchicalLocks.TakeFree | src/utils/locks.py:81-88 | owner and level are recorded together |
| Locks.HierarchicalLocks.Release | src/utils/locks.py:90-95 | gives up the lock and its level |
| Locks.ValidateLockOrder | src/utils/locks.py:124-156 | which requests are accepted, unknown, or violations |
| Locks.ValidatorAgreesWithAcquire | src/utils/locks.py:124-156 | the validator's condition is the negation of the rejection by acquire |
| TelemetryQueue.NothingLostUncounted | src/data_layer/queues/async_telemetry_queue.py:117-213 | consumed and waiting items are a subsequence of the puts; losses are the drop counter less its over-counts, and what close swallowed |
| TelemetryQueue.EvictsAtTheOtherEnd | src/data_layer/queues/async_telemetry_queue.py:117-124 | a put into a full deque evicts the oldest item, a put-back the newest |
| TelemetryQueue.ItemsMoveInOrder | src/data_layer/queues/async_telemetry_queue.py:126-213 | the oldest item is taken, forwarded behind the others, and the first is consumed |
| TelemetryQueue.LossesAfterClose | src/data_layer/queues/async_telemetry_queue.py:148-169 | after close the losses are the drops less the over-counts, plus what close swallowed and left in the deque; the counter covers them exactly if those are no more than the over-counts |
| TelemetryQueue.EndedStays | src/data_layer/queues/async_telemetry_queue.py:148-169 | what close left behind is never delivered |
| TelemetryQueue.CloseCanLoseUncounted | src/data_layer/queues/async_telemetry_queue.py:155-167 | a close that loses two items and counts one |
| TelemetryQueue.CloseCanSwallow | src/data_layer/queues/async_telemetry_queue.py:155-169 | a close that loses an item to another exception and counts none |
| TelemetryQueue.PutBackCanOvercount | src/data_layer/queues/async_telemetry_queue.py:199-206 | a run in which the counter exceeds the losses |
| TelemetryQueue.AsyncTelemetryQueue.PutNowait | src/data_layer/queues/async_telemetry_queue.py:117-124 | appends, evicting and counting the oldest when full |
| TelemetryQueue.AsyncTelemetryQueue.BridgePut | src/data_layer/queues/async_telemetry_queue.py:197-213 | forwarded, put back, or dropped |
| TelemetryQueue.AsyncTelemetryQueue.FlushAll | src/data_layer/queues/async_telemetry_queue.py:148-169 | close moves what finds room and drops or swallows one item at the first refusal |
| TelemetryQueue.AsyncTelemetryQueue.CloseAgain | src/data_layer/queues/async_telemetry_queue.py:148-169 | closing a closed queue swallows one item more |
| Pacer.PushOrders | src/execution/pacer.py:40-45 | a push keeps the heap in (base_prio, seq) order |
| Pacer.PayloadsAreConserved | src/execution/pacer.py:60-108 | what was accepted is what was dispatched plus what waits |
| Pacer.DispatchesAreSpaced | src/execution/pacer.py:96-104 | two dispatches of one class are at least its spacing apart |
| Pacer.DispatchesTheLeastDueItem | src/execution/pacer.py:80-104 | a pop dispatches exactly if the least item is due and has no promotion coming, and dispatches that item |
| Pacer.TurnsExactly | src/execution/pacer.py:77-104 | the head, of least class and then longest queued, is raised a class per second waited, dispatched if its class has been quiet for the spacing since its last dispatch, or put back |
| Pacer.EnqueuesExactly | src/execution/pacer.py:60-71 | which items are refused, and what the heap holds otherwise |
| Pacer.PromotionsAreBounded | src/execution/pacer.py:82-94 | without new enqueues at most the sum of base priorities promotions are possible |
| Pacer.PacerQueue.Enqueue | src/execution/pacer.py:60-71 | refused exactly for a critical item on a full heap |
| Pacer.PacerQueue.Turn | src/execution/pacer.py:77-108 | one lock section of pop: empty, promoted, waiting, or dispatched |
| TokenBucket.LevelStaysInRange | src/data_layer/token_bucket.py:40-45 | the level stays within 0 and 15 |
| TokenBucket.RateBound | src/data_layer/token_bucket.py:47-65 | at most 15 + 8 (t - s) tokens are granted in any window, whatever the waiters |
| TokenBucket.RateBoundIsTight | src/data_layer/token_bucket.py:28-29 | the bound is met |
| TokenBucket.SleepingIsEnough | src/data_layer/token_bucket.py:61-65 | after its sleep an undisturbed waiter is granted exactly if it asks for at most 15 |
| TokenBucket.TokenBucket.AcquireTurn | src/data_layer/token_bucket.py:55-65 | one lock section of acquire |
| RestGateway.PostsAreRateBounded | src/execution/rest_gateway.py:192-231 | at most 15 + 8 t posts in the first t seconds on both paths together, at most two per call |
| RestGateway.PostsInAnyWindow | src/execution/rest_gateway.py:192-231 | at most 15 + 8 (t - s) posts begin in any window (s, t] |
| RestGateway.CallsKeepTheirPath | src/execution/rest_gateway.py:192-231 | a call the pacer took posts once at most, through the gate; one it refused posts at most twice |
| RestGateway.GateDecides | src/execution/rest_gateway.py:114-169 | the gate lets a call on to its attempt or ends it without a post |
| RestGateway.RetriesExactlyOnce | src/execution/rest_gateway.py:212-231 | a second post follows exactly a first on the direct path that was not accepted |
| RestGateway.OpensAtThreshold | src/execution/rest_gateway.py:74-92 | the circuit opens at exactly the threshold-th 429 without a success, for the open time from the last |
| RestGateway.ClosesAfterItsTime | src/execution/rest_gateway.py:94-105 | without half-open probes the first call after its time closes it |
| RestGateway.OneProbePerOpening | src/execution/rest_gateway.py:74-110 | after a 429 opened the circuit no call passes before its time and exactly one after it |
| RestGateway.BlockedUntilRecorded | src/execution/rest_gateway.py:94-110 | with the probe out, every call is blocked at every time until a result is recorded |
| RestGateway.FirstRecordReopens | src/execution/rest_gateway.py:74-92 | the first record reopens it: a success at once, a 429 when its time is over |
| RestGateway.RestGateway.IsCircuitOpen | src/execution/rest_gateway.py:94-110 | whether the circuit blocks, and the probe it hands out |
| RestGateway.RestGateway.Record429 | src/execution/rest_gateway.py:74-86 | counts, and opens at the threshold |
| RestGateway.RestGateway.TakeToken | src/execution/rest_gateway.py:154-169 | a call may post only after a granted turn at the bucket |
| RestGateway.RestGateway.PostOrder | src/execution/rest_gateway.py:203-231 | the post, what is recorded of it, and whether the direct path tries again |

## Left out

- Exchange, websocket, Telegram and Discord traffic, SQL text and files: results are inputs, the database is a sequence or map of rows.
- Errors on which sqlite rolls the whole transaction back, taking earlier stuck statements with it; here a write that raises leaves those before it alone.
- Audit rows (`paper_events`), the `attempts` and `last_error` columns, logging, display metrics, reports and the signal detection patterns: they decide nothing in these models.
- Rounding, NaN and infinities: prices are reals.
- Symbol lookup in the book buffer and its lock: one book, one batch at a time. The log counter of trims is left out.
- L2Buffer.L2Book.OnSnapshot: takes pairs of price and quantity; snapshots given as arrays beside the rows, the expected sequence number and the pre-sync queue are not part of this method (the queue is in WsSync.KeptIsAhead).
- L2Buffer.RoomyBatchFits: goes one way; the exact condition is the one in ApplyBatch.
- WsSync: one symbol, and of its book only epoch and pre-sync queue. The ping loop, disconnect and the forgetting of a sequence state are not part of this model.
- Bootstrap.ShadowRunner.BootstrapSymbol: pushes that arrive while the commits are fetched are discarded by the code and do not appear; what one version does to the book is a parameter.
- Candles.SignalDetector.FeedBar: candle volumes and the signals found on a finalized candle are left out.
- PositionSim.PositionSimulator.Finalize: the order in which active candles are visited is an argument, for any order; window and fold numbers are constants and left out.
- PositionSim: positions are a sequence in order of entry, standing for the insertion-ordered dictionary.
- PaperRuns.RunAgrees: speaks of proper runs; that no other run agrees at every point is AgreesExactlyIfProper.
- PaperManager: a position id is the pair of symbol and signal time that its string is built from; rows keep none of the configuration columns; realized equity starts again from its initial value in a new process, as in the code.
- RotationSpec: symbols are independent of each other, which UniverseService.UniverseService.ApplyScan establishes; the sorted order of the decision tuples and the scan itself are left out.
- AlertGuarantees.HandedAtMostOnce: counts hand-overs to a sender, not posts; a sender may post to two channels and retry.
- AlertGuarantees: no claim that nothing is sent while the breaker is open, nor that one probe runs at a time; the critical loop does not look again.
- TelemetryQueue: the bridge has ended when close flushes; the code waits for it two seconds. Only the threaded mode is modelled.
- Locks: asyncio locks and the reentrant buffer lock made by create_lock are not level-checked by the code and not part of this model.
- Pacer: the heap is the sequence in which it pops, not the array of a binary heap.
- RestGateway: semaphores are one input of a call's start, because on a timeout the code releases permits that it may not hold; payloads enqueued at the pacer are counted there and posted by their own call.

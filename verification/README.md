# A verified model of the trading desk's back end

This project models, in Dafny 4.11, the parts of an FX-options desk whose correctness depends on more than one
function: the retrying database writer, the average-cost ledger, the daily net-liq rollup, the close protocol with its
reservation ledger, the structure builder with its pricing and greek folds, the versioned configuration, and the
codec of broker symbols. `dafny verify dfyconfig.toml` checks all of it.

| file | models |
|---|---|
| `Options.dfy` | values that may be absent |
| `Ledger.dfy` | `src/core/ledger.py` |
| `Rollup.dfy` | `src/persistence/rollups.py`, the `portfolio_daily` part |
| `RollupRuns.dfy` | runs of it that break the day-over-day chain |
| `Writer.dfy`, `WriterTables.dfy` | the batch calls of `src/persistence/writer.py`, one after the other, and what they leave in a table |
| `WriterLoop.dfy` | its queue, its main loop, and its shutdown while that loop is idle |
| `Sending.dfy`, `Shutdown.dfy`, `Overtaking.dfy` | the same writer with its main loop and its shutdown interleaved transaction by transaction, as `src/engines/db_writer/service.py` runs them |
| `Legs.dfy`, `LegPrices.dfy` | `src/persistence/projection.py`, `src/persistence/reservation.py`, `src/core/execution/projection.py` |
| `Close.dfy` | `src/api/orchestration/position_close.py` up to its commit, the alert and dispatch parts of `src/api/orchestration/position_monitor.py` |
| `OrderBook.dfy` | the sessions that write orders, fills and leg rows, in `src/engines/execution` and `src/api/routers` |
| `CloseProtocol.dfy` | every interleaving of those sessions with bookings, close requests, monitor cycles and finalisations |
| `CloseOutcomes.dfy` | what a close comes to over those interleavings, and what a monitor cycle raises and queues |
| `CloseRuns.dfy` | runs of it in which the book or a reservation is not what its documentation says |
| `TradeClose.dfy` | `plan_trade_close` in `src/api/routers/trades.py` |
| `Preview.dfy`, `PreviewLaws.dfy` | `src/core/trade_preview.py` with the constants of `src/core/units.py` |
| `Config.dfy` | `src/api/orchestration/config_service.py` |
| `Symbols.dfy` | `src/shared/contracts.py` |

Code that changes things step by step is a method or a class whose postcondition ties the new state to a function of the
old one; the properties are proved about those functions, for all inputs, all fault schedules and all runs.

## Modelling choices

- Prices, P&L and greeks are reals and results are stated before rounding. Quantities of orders and fills are integers.
- The clock is a parameter. A database session up to its commit is one atomic step.
- The writer's surroundings are parameters: what happens to the n-th insert transaction (it goes through, or fails before
  or after its commit with a transient error, another error that ends the call, or one of the classes that the writer
  takes for a row error although no row caused it), whether the n-th dead-letter write commits, when the batch window
  closes, and what producers append while it waits. Whether a row inserts at all is a predicate on the row, plus the rule
  that the NOT NULL key columns are there.
- `account_history` is a map from timestamp to net-liq, so timestamps are distinct.
- The sessions of `OrderBook.dfy` are: new orders (`src/api/routers/trade.py:1058-1075`), the mock submit
  (`src/api/routers/trade.py:1112-1173`), executions and commission reports
  (`src/engines/execution/fills_handler.py:194-351`), broker statuses (`src/engines/execution/fills_handler.py:105-166`),
  the booking of a filled combo (`src/engines/execution/fills_handler.py:447-490`), the two passes of the stuck-order
  reconciler (`src/engines/execution/order_reconciler.py:63-138`), the reaper
  (`src/engines/execution/reaper.py:171-190`), the single-leg close with what the api later writes on its order
  (`src/api/routers/positions.py:1158-1311`), and the startup rebuild (`src/engines/execution/main.py:153-156`).
  A session over several orders is a sequence of steps, one order each.
- exp, log, sqrt and erf are arbitrary functions; only positivity of pi and of sqrt on positive arguments and oddness of
  erf are used, and by the laws of `PreviewLaws.dfy` also that erf grows and stays within -1 and 1, that sqrt squares
  back, that log grows and turns reciprocals into negatives, and that exp is positive.
- Schema validation of the configuration is a function that returns the canonical dump of a payload or refuses it;
  dumps validate to themselves and the empty payload validates to the defaults.
- Which characters outside ASCII count as digits, and with what value, is a parameter of the symbol parser.
- The exit rule that wins for a position in a monitor cycle is an input. It is never named `manual_close`, the name the
  manual-close endpoint records.

## Where the code and its documentation differ

Each of these is a lemma or a postcondition; the model follows the code.

- The retry wrapper returns normally without writing anything when `retry_attempts <= 0`
  (`Writer.WriteBatchWithRetries`).
- The writer's documentation calls a re-sent batch a no-op. That holds exactly on the six tables with a natural key; the
  other two known tables receive the rows again (`Writer.ResendIsNoOpIff`).
- An error of the row-error classes, which include every statement error, need not be a row's fault. The fallback then
  dead-letters a valid row and the call returns normally; the event is still in its table or in the dead letter, and the
  keyed tables are one clean pass unless such an error was reported before its commit (`Writer.WriteBatchWithRetries`, with
  a call that loses a row in `Sending.MisreadLosesRow`). `Sending.OneAttemptCleanIff` says key by key exactly when a call of
  one attempt loses one.
- "A rolling refresh never breaks the chain" fails when the clock goes back to an earlier day, and when a stored day of
  the window has lost its samples: its row stays, and the rows after it skip it. The latter takes a window that holds
  a stored day the retention has reached; while none does, the chain holds (`Rollup.MtmChainUnderRetention`). For any refresh
  of a chained table `Rollup.RefreshChainsIffFits` says before the call whether the chain survives, and
  `Rollup.RefreshKeepsChainIff` does so when no day was lost. `RollupRuns.ClockBackBreaksChain` and `RollupRuns.LostDayBreaksChain` are the runs.
- The book is said to be a pure fold of the fills. Four sessions write a filled quantity past it: a mock submit and a
  reconciliation from a broker position leave no leg row, a combo booked over partial fills counts them twice, and a
  reconciliation of an overfilled order cuts its quantity (`CloseProtocol.StepCurrentIff`). A close of such a position
  over-reserves its legs or leaves some of them available with nothing else in flight
  (`CloseRuns.HeldPositionOverReserves`, `CloseRuns.MockPositionOverReserves`, `CloseRuns.ComboPositionStaysAvailable`);
  `CloseProtocol.CloseLeavesAvailable` says by how much, on any desk.
- The reservation is said to be recomputed at every lifecycle event of a closing order. Broker statuses, dispatch
  replies, commission reports and reconciliations rewrite an order without a recompute. The stored reservation is then too
  high exactly when a closing order in flight and still short was rejected, cancelled, or given more filled quantity
  (`OrderBook.Releases`), and too low exactly when a dispatch reply wrote an ended one back to submitted or a sum of fills
  took filled quantity away (`OrderBook.Revives`): `CloseProtocol.StaleIffReleasedOrRevived`. While closing orders agree
  with their fills and no late reply arrives, it is never too low (`CloseProtocol.TimelyRunsCover`). A rejected close stays
  reserved (`CloseRuns.RejectedCloseStaysReserved`), and a reply that arrives after a rejection and a recompute leaves a
  live close unreserved (`CloseRuns.RevivedCloseIsNotReserved`).
- A fill that arrives after its closing order was terminated puts the order back in flight when it is still short, and
  the remainder is reserved again (`Legs.LateFillReservesAgain`).
- `available` is said to stay non-negative. Initiating a close over a leg with another close in flight leaves it
  over-reserved by exactly what was in flight (`CloseProtocol.CloseReservesEverything`,
  `CloseRuns.SecondCloseOverReserves`).
- The drain of a shutdown can overtake a batch the main loop holds, and an event the loop holds may be in no batch when
  `shutdown` returns (`Shutdown.HeldEventOutlivesShutdown`), exactly when the loop was collecting and held or could still
  pop one (`Overtaking.AllInCallsAtReturnIff`). The keyed tables still end as one clean pass in every run
  exactly when, at the call, no key that is not stored yet has different first rows on the two sides
  (`Overtaking.ShutdownIsCleanIff`, with a conflict in `Overtaking.NextRowConflicts`).
- The trade close plan caps each leg, not each contract: with several legs on one contract the total can pass the mirror
  quantity, exactly when the legs hold more than a positive mirror (`TradeClose.TotalWithinMirrorIff`,
  `TradeClose.TwoLegsPassMirror`).
- Call-put parity of the price holds in the degenerate branch, but the synthetic forward's delta does not: there it is 0
  (`Preview.SyntheticGreeks`, `Preview.BuiltSyntheticLosesDelta`).
- A configuration version is announced after its commit, so a lost announcement leaves a committed version nobody was
  told of (`Config.AllAnnouncedIff`, `Config.LostAnnouncement`).
- Deep merge is not associative in general (`Config.LeafBetweenDoesNotAssociate`); `Config.MergeAssociativeIff` says
  exactly when it is.
- The symbol parser also accepts one trailing newline and digits of other scripts. Among accepted symbols the printer's
  own are exactly those in plain ASCII (`Symbols.PrintoutIffPlain`, `Symbols.NewlineIsAccepted`).

## Model

| member | source | states |
|---|---|---|
| Ledger.ContractLedger.Apply | src/core/ledger.py:48-73 | one fill moves the mutable record exactly as the open, add, reduce, close and flip rule says; `Ledger.StepIffFollows` says which promises determine that rule |
| Ledger.FoldFills | src/core/ledger.py:76-85 | the keys are exactly the contracts seen, and each contract's record is the fold of that contract's own fills alone |
| Ledger.FoldTotals | src/core/ledger.py:48-85 | net quantity and commission are the plain sums over the fills, through every add, close and flip |
| Ledger.StepSettles | src/core/ledger.py:48-73 | a fill moves realised P&L minus open cost basis by exactly its cash and its commission, in every branch |
| Ledger.OneSidedCost | src/core/ledger.py:55-58 | fills on one side realise nothing but their commissions, and their average cost times the net quantity is the cash paid |
| Ledger.StepIffFollows | src/core/ledger.py:48-73 | the rule is the only one by which quantities add up, cash and commission settle, a fill that opens or adds realises nothing, and a reduced position keeps its cost while a flipped one takes the price and a flat one 0 |
| Ledger.TotalPnlConserved | src/core/ledger.py:48-99 | at every mark realised plus unrealised is mark value minus cash paid minus commissions; without a mark it is undefined unless flat |
| Ledger.StepSplit | src/core/ledger.py:48-73 | a fill done in two pieces at one price leaves the same record, wherever the cut falls relative to zero |
| Ledger.SplitInvariance | src/core/ledger.py:48-85 | the same inside any fill sequence, for the whole folded record |
| Ledger.StepMirrors | src/core/ledger.py:48-73 | trading the other side keeps two mirrored records mirrored |
| Ledger.MirrorInvariance | src/core/ledger.py:48-85 | flipping every side negates net quantity and gross realised P&L and keeps average cost |
| Ledger.AverageCostBound | src/core/ledger.py:55-73 | flat means average cost 0; otherwise it lies within the prices of the same-side fills since the contract last went flat or flipped |
| Ledger.ReorderInvariance | src/core/ledger.py:76-85 | reorderings that keep each contract's own order give the same book |
| Rollup.OrderedMeaning | src/persistence/rollups.py:93-98 | the window scan holds exactly the non-null samples of the window, in timestamp order |
| Rollup.DaySampleMeaning | src/persistence/rollups.py:59-86 | a day's open and close are its samples with the least and greatest timestamp, its count is their number, and there is no row exactly when there is no sample |
| Rollup.ScanAgreesWithProbe | src/persistence/rollups.py:59-106 | the whole-window scan restricted to one day is that day's own probe |
| Rollup.FoldByDay | src/persistence/rollups.py:99-105 | one pass over ordered rows leaves first, last and count of every day seen |
| Rollup.DailySamplesPortable | src/persistence/rollups.py:89-106 | the portable fold returns what the per-day probes of the PostgreSQL form return |
| Rollup.RealizedByDay | src/persistence/rollups.py:109-126 | sum and number of the genuine closes of each day of the window, reconciliation closes left out |
| Rollup.RealizedAddsUp | src/persistence/rollups.py:109-126 | over any window the realised sums and counts of its days add up to the total P&L and the number of the genuine closings between its first and last instant |
| Rollup.BuildRows | src/persistence/rollups.py:165-182 | the loop that carries the previous close builds the chained rows of the listed days |
| Rollup.RowsFromIsRebuilt | src/persistence/rollups.py:154-182 | walking the list of sampled days is walking the window day by day |
| Rollup.Portfolio.LatestClose | src/persistence/rollups.py:161-164 | the close of the latest stored day before the window, if any |
| Rollup.Portfolio.Refresh | src/persistence/rollups.py:140-185 | the table becomes the old one with the window's rebuilt rows upserted; nothing else moves |
| Rollup.RefreshRewrites | src/persistence/rollups.py:140-185 | a refresh rewrites exactly the sampled days among the last 3, 400 or `days` up to today, with what the history says of the day, and leaves every other row as it was |
| Rollup.RefreshedRealized | src/persistence/rollups.py:155-172 | the realised sums and counts it stores add up to those of the closings on these days |
| Rollup.RefreshChainsIffFits | src/persistence/rollups.py:140-185 | any refresh of a chained table, of any window, keeps the day-over-day chain exactly when each stored day of the window that lost its samples keeps its predecessor's close and is followed by a sampled day only with an equal carried close, and the close at the seam after today is the old one or nothing is stored there |
| Rollup.RefreshKeepsChainIff | src/persistence/rollups.py:140-185 | with no lost day in the window the chain survives exactly when nothing is stored after today, no day of the window is sampled, or the last sampled day closes where the stored close before tomorrow was |
| RollupRuns.ClockBackBreaksChain | src/persistence/rollups.py:140-185 | a run of samples and one-day refreshes, the last one a day back, that ends with a wrong MTM |
| RollupRuns.LostDayBreaksChain | src/persistence/retention.py:67-77 | a run with the clock standing still in which the retention passes a stored day and the next refresh, reaching back over it, skips its row |
| Rollup.MtmChain | src/persistence/rollups.py:140-185 | over every run with a forward clock and no emptied day in a window, each row's MTM is its close minus the previous stored close |
| Rollup.MtmChainUnderRetention | src/persistence/rollups.py:140-185 | over every run of samples, closings, prunings and refreshes with a forward clock in which no refreshed window holds a stored day the retention reached, the stored table is chained |
| Rollup.MtmTelescopes | src/persistence/rollups.py:166-182 | the MTMs of any range of rows add up to the difference of its end closes |
| Rollup.SettledIsCurrent | src/persistence/rollups.py:140-185 | after any run in which every day touched by a sample (or by a closing) was later covered, each stored row says what the history says of its samples (or its closings) |
| Rollup.ChainDeterminesMtm | src/persistence/rollups.py:166-182 | two chained tables that agree on their days and closes agree on every MTM |
| Rollup.RebuildIsCurrent | src/persistence/rollups.py:140-185 | a full rebuild is chained and says of every sampled day what the history says |
| Rollup.RollingEqualsRebuild | src/persistence/rollups.py:140-185 | any sequence of refreshes that covered every non-null sample leaves the days, opens, closes, counts and MTMs of one full rebuild, and its realised sums too once every closing was covered |
| Rollup.RealizedConserved | src/persistence/rollups.py:140-185 | after any run that covered every closing, the realised sums and counts stored for any range of days add up to the closings on the stored days |
| Writer.Database.Insert | src/persistence/writer.py:364-383 | one transaction: all accepted rows with first-key-wins, or nothing, with or without a reported error |
| Writer.Database.AddDeadLetter | src/persistence/writer.py:348-362 | best effort: exactly this one letter is added when its write commits, and otherwise nothing |
| Writer.InsertRow | src/persistence/writer.py:335-340 | one row in its own transaction: it lands whole or not at all, and it counts as skipped exactly when the row should land, is not there yet, and its transaction reports an error that no row caused and had not committed |
| Writer.WriteOneRow | src/persistence/writer.py:335-345 | one row of the fallback lands exactly if the table accepts it and its transaction goes through, is dead-lettered if it is not in the table, and is cut off only by an error the schedule holds; without a misread error just the refused rows are dead-lettered |
| Writer.WriteRowsOneByOne | src/persistence/writer.py:331-346 | under every schedule the table receives, in order, exactly the tried rows that are accepted and whose transaction was not given up; without an error misread before its commit those are all the accepted ones, and without a failure every row is tried |
| Writer.WriteTable | src/persistence/writer.py:310-324 | under every schedule in which no error is misread before its commit a keyed table receives a prefix of its accepted rows and all of them on a normal end, whichever of bulk and fallback ran; under every schedule a normal end leaves what the schedule makes of the rows and every row in the table or in the dead letter |
| Writer.GroupByTable | src/persistence/writer.py:298-304 | rows grouped per known table in order of first appearance, one dead letter per event of an unknown table |
| Writer.GroupingIsClean | src/persistence/writer.py:298-324 | grouping a batch by table does not change what any table ends up with |
| Writer.WriteTables | src/persistence/writer.py:309-324 | tables are written one after the other; without an error misread before its commit an exception leaves every keyed table with a prefix of what is owed to it, and without a failure there is no exception |
| Writer.WriteBatch | src/persistence/writer.py:285-329 | one attempt: without an error misread before its commit, prefixes on every keyed table and a clean pass on a normal end; without any misread error the same on every table and dead letters for exactly the refused events; every event handled on any normal end, and a normal end whenever no transaction fails |
| Writer.PrefixAbsorbed | src/persistence/writer.py:75-93 | on a keyed table, re-sending any prefix of what was inserted changes nothing |
| Writer.ResendAbsorbed | src/persistence/writer.py:75-93 | two cut-off passes over the same rows leave what the longer one alone would leave |
| Writer.ResendIsNoOpIff | src/persistence/writer.py:75-93 | sending rows twice is sending them once exactly on the tables with a natural key |
| Writer.AttemptsMerge | src/persistence/writer.py:243-346 | an attempt over whatever an earlier one left is one attempt, and a complete one is a clean pass from the start |
| Writer.WriteBatchWithRetries | src/persistence/writer.py:243-283 | under every schedule a normal return leaves every event in its table or in the dead letter; under every schedule in which no error is misread before its commit it leaves each keyed table as one failure-free first-key-wins pass, however many attempts it took; every attempt that did not return met a failure, so fewer retried failures than attempts end in a normal return |
| Writer.CompleteAttemptAccounts | src/persistence/writer.py:285-362 | after a complete attempt without misread errors each accepted event is in its table and each refused one in the dead letter |
| Writer.CompleteAttemptHandles | src/persistence/writer.py:285-362 | after any complete attempt each event is in its table, under its key where there is one, or in the dead letter |
| Writer.UnknownOncePerAttempt | src/persistence/writer.py:299-303 | each attempt adds one letter per unknown-table event, in batch order |
| Writer.CleanPassesCompose | src/persistence/writer.py:164-180 | clean passes over consecutive batches are one clean pass over their concatenation |
| WriterTables.CleanPassContent | src/persistence/writer.py:364-383 | a clean pass keeps the natural key unique, and appends exactly the accepted rows, in order, to a known table without one |
| WriterTables.CleanPassComplete | src/persistence/writer.py:75-93 | a clean pass never stores a row without a full natural key |
| WriterLoop.AsyncDatabaseWriter.CollectBatch | src/persistence/writer.py:218-241 | the batch and the queue together are the old queue and what arrived, in order; the batch is full with the window open at every poll, or was cut off because the window had closed at the last poll or nothing was left |
| WriterLoop.AsyncDatabaseWriter.OpenWindowCollects | src/persistence/writer.py:229-239 | with the window open, a pass that finds an event collects one |
| WriterLoop.AsyncDatabaseWriter.Write | src/persistence/writer.py:172-178 | one batch is handed over once; the keyed tables are one clean pass over all batches while every call returned and skipped nothing, which lasts as long as no error is misread before its commit or not retried and failures are fewer than the attempts |
| WriterLoop.AsyncDatabaseWriter.Pass | src/persistence/writer.py:167-172 | one pass of the loop collects by that rule and hands over exactly what it collected, unless that is nothing |
| WriterLoop.AsyncDatabaseWriter.Run | src/persistence/writer.py:164-180 | after any number of passes everything received, which is everything that arrived, is in exactly one batch or still queued, in order, and the keyed tables stay one clean pass under every such schedule; each pass that no closed window cut short takes a full batch off the backlog or empties the queue |
| WriterLoop.AsyncDatabaseWriter.Drain | src/persistence/writer.py:193-199 | the drained events are the front of the queue, up to the deadline |
| WriterLoop.AsyncDatabaseWriter.WriteChunks | src/persistence/writer.py:201-212 | the tail is written in order in chunks of the batch size, of which only the last may be smaller; with a batch size of 0 it raises exactly when there is a tail, and writes nothing |
| WriterLoop.AsyncDatabaseWriter.Shutdown | src/persistence/writer.py:182-216 | while the loop holds no batch: what fits before the deadline is batched in order; when all of it fits, the batches are everything ever received |
| Sending.StoredClean | src/persistence/writer.py:364-383 | under each key a clean pass stores what was there, or else the first row that lands |
| Sending.TransactKey | src/persistence/writer.py:285-346 | one transaction of a batch call, wherever the call stands and whatever else runs, unless it gives up a landing row: stored rows stay, and a key stored anew gets the batch's own first row |
| Overtaking.CleanProgress | src/persistence/writer.py:309-346 | a transaction that goes through brings its call nearer its end and never raises |
| Sending.MisreadLosesRow | src/persistence/writer.py:98-101 | a call in which two errors that no row caused make the fallback drop a valid first row; the second row of its key lands and the call returns normally |
| Sending.OneAttemptCleanIff | src/persistence/writer.py:285-346 | under every schedule a call that returned after one attempt ends, under a key of a keyed table that was not stored, as the clean pass does exactly unless the bulk insert did not land, the fallback gave up the key's first landing row, and no equal row of the key landed first |
| Shutdown.EveryEventInOneBatch | src/persistence/writer.py:164-241 | in every interleaving of pops, attempts, drain and chunks each popped event is in exactly one batch call or the one place it waits in, and both sides keep the order of arrival |
| Shutdown.AllBatchedInTheEnd | src/engines/db_writer/service.py:95-107 | once the shutdown has returned and the loop has stopped, everything received is in exactly one batch call or was left in the queue |
| Shutdown.HeldEventOutlivesShutdown | src/engines/db_writer/service.py:103-105 | a run in which shutdown returns while an event the loop popped is in no batch call |
| Shutdown.SideMoves | src/persistence/writer.py:243-283 | a transaction of either side stores anew only the first row of that side's own calls |
| Shutdown.RunKeepsKey | src/persistence/writer.py:243-283 | over every interleaving in which no call raised or skipped a landing row, each stored row was there from the start or is the first of one side's calls, and finished calls are stored |
| Overtaking.NoConflictAgrees | src/persistence/writer.py:182-241 | without a conflict at the call, every run that ends without a raised call or a skipped row leaves the keyed tables as one clean pass in order of arrival |
| Overtaking.ConflictDisagrees | src/persistence/writer.py:182-241 | from a conflict, a run in which every transaction goes through ends with the other row |
| Overtaking.ShutdownIsCleanIff | src/persistence/writer.py:182-241 | from every reachable state: all runs after the call end clean exactly when no key not stored yet has one first row in what the loop holds or may pop and another in what is drained |
| Overtaking.NextRowConflicts | src/engines/db_writer/service.py:103-105 | such a conflict: the loop holds a row when the next row of its key is queued and drained |
| Overtaking.AllInCallsAtReturnIff | src/engines/db_writer/service.py:103-105 | from every reachable state: in all runs everything popped is in a batch call when shutdown returns exactly when the loop is not collecting, or collects nothing and has nothing left it may pop |
| Legs.LegBook.RecomputeReservation | src/persistence/reservation.py:33-48 | finds or creates the row and stores the sum of the remainders in flight, touching no other column or row |
| Legs.LegBook.RebuildLeg | src/persistence/projection.py:21-40 | finds or creates the row and stores the signed sum and the volume-weighted price of the leg's fills, touching no other column or row |
| LegPrices.OpenIsBoughtLessSold | src/core/execution/projection.py:36-49 | the open quantity is what was bought less what was sold, and the filled one is both together |
| LegPrices.AvgJoins | src/core/execution/projection.py:41-49 | the average price over two batches of fills is their averages weighed by what each filled |
| LegPrices.AvgWithin | src/core/execution/projection.py:41-49 | a leg has an average price exactly if it has a fill, and it lies between any bounds on the prices of its fills, so it is their price when they have one |
| Legs.LegBook.RebuildAll | src/persistence/projection.py:43-50 | rebuilds exactly the legs that have a fill and counts them, in any order |
| Legs.ColumnsAreIndependent | src/persistence/projection.py:1-8 | after any interleaving of the two writers, each column is its own fold or its old value, also when the other writer created the row |
| Legs.WritersCommute | src/persistence/projection.py:21-40 | any two orders and repetitions of the same calls end with the same table |
| Legs.ReservedMovesByDelta | src/persistence/reservation.py:39-45 | creating adds the quantity, a fill subtracts itself, termination releases the remainder |
| Legs.ReservationRefinesLedger | src/persistence/reservation.py:33-48 | over every sequence of such events, each followed by a recompute, the stored column is the incremental ledger and never negative |
| Legs.CancelWithoutRecomputeStaleIff | src/engines/execution/fills_handler.py:151-166 | a status cancellation leaves the stored reservation right exactly when nothing was left to fill |
| Legs.LateFillReservesAgain | src/engines/execution/fills_handler.py:246-262 | a late fill on a terminated closing order that stays short reserves its remainder again |
| Close.EntryMember | src/api/orchestration/position_close.py:73-78 | the query returns exactly the entry orders of the position's structure |
| Close.EntryIdsByLeg | src/api/orchestration/position_close.py:73-78 | they come in leg order |
| Close.EntryLegsDiffer | src/persistence/models.py:663-666 | the unique constraint makes their leg indices distinct |
| Close.ClosingOrderAt | src/core/positions/closing.py:51-83 | one closing order per leg, in order, on the other side, for the filled quantity |
| Close.CloseDesk.IndexByLeg | src/api/orchestration/position_close.py:115 | the leg-index dictionary maps each entry leg to its own order |
| Close.CloseDesk.EntryLegs | src/api/orchestration/position_close.py:73-93 | the entry legs that have something filled |
| Close.CloseDesk.AddClosingOrders | src/api/orchestration/position_close.py:116-137 | appends the closing orders, each linked to the entry order it closes, and returns exactly those entry orders |
| Close.CloseDesk.RecomputeTouched | src/api/orchestration/position_close.py:138-140 | recomputes the reservation of exactly the touched legs, in any order |
| Close.CloseDesk.SubmitClose | src/api/orchestration/position_close.py:101-166 | structure, orders, reservations, state flip, alert link and audit event of one close |
| Close.CloseDesk.InitiatePositionClose | src/api/orchestration/position_close.py:49-166 | unknown, not open, nothing filled: no change; otherwise the whole close |
| Close.CloseKeepsUniqueLegs | src/persistence/models.py:663-666 | a close never violates the unique constraint on orders |
| CloseOutcomes.CloseUnwinds | src/core/positions/closing.py:48-83 | a close adds, in a structure of its own and in leg order, one order per filled entry leg: linked to it, on the side that the leg is not, for the quantity it filled |
| CloseOutcomes.FilledCloseFlattens | src/core/positions/closing.py:1-9 | in every run from a close to a state in which one of its orders has filled: if that order and its entry leg agree with their fills and the leg has not filled further, their open quantities add up to zero |
| Close.CloseDesk.Scan | src/api/orchestration/position_monitor.py:113-142 | the alert branch over all open positions in one transaction, and what a failed commit leaves behind |
| CloseOutcomes.ScanRaises | src/api/orchestration/position_monitor.py:354-383 | a cycle raises one alert, of the winning rule and under the next number, for each open position whose rule raised none in the cooldown, and no others |
| CloseOutcomes.ScanQueues | src/api/orchestration/position_monitor.py:378-383 | it queues an automatic close for exactly the alerts of exit rules it raised, in their order |
| Close.CloseDesk.DispatchPendingCloses | src/api/orchestration/position_monitor.py:461-479 | the queue is taken over and cleared, and each of its closes is initiated once, in order |
| CloseProtocol.DispatchIsRequests | src/api/orchestration/position_monitor.py:461-479 | what a dispatch does to the desk is what its close requests do as separate sessions of a run |
| CloseProtocol.OneCloseForever | src/api/orchestration/position_close.py:62-166 | over every interleaving a position gets at most one initiated closing structure |
| CloseOutcomes.ClosesAreTraced | src/api/orchestration/position_close.py:101-166 | in every reachable state each audit event names a structure whose closing orders all unwind entry legs of its position, and each linked alert names such a structure |
| CloseOutcomes.LeavesOpenIff | src/api/orchestration/position_close.py:62-95 | an open position leaves that state exactly by a close request that finds a filled leg, a close by hand, or its finalisation |
| CloseOutcomes.FinalisedForGood | src/api/orchestration/position_close.py:62-72 | a position never goes back a state, and a finalised one is closed in every later state |
| CloseOutcomes.ManualAlertsExit | src/api/routers/positions.py:1355-1376 | a close by hand of an open position raises one alert under the next number, and in every reachable state such alerts are exits |
| CloseProtocol.AlertsKeepDistance | src/api/orchestration/position_monitor.py:354-383 | over every interleaving same-rule alerts of one position are at least the cooldown apart, whatever the clock does |
| OrderBook.BookStepKeepsBook | src/persistence/models.py:663-666 | every session keeps ids sound, fills on their orders' sides and the legs of a structure unique per role |
| OrderBook.CurrentIff | src/engines/execution/order_reconciler.py:83-130 | an order in agreement with its fills and its leg row still is after a session exactly when the session is not a mock leg, a combo over other fills, a fill taken from a broker position or the reconciliation of an overfilled order |
| OrderBook.ExecutionRepairs | src/engines/execution/fills_handler.py:219-264 | an execution makes its order agree with its fills whatever it was before, and leaves it filled exactly if they reach its quantity |
| OrderBook.BookMovesExcess | src/persistence/reservation.py:33-48 | a session makes a leg's stored reservation exact if it recomputes it, and otherwise moves its excess by exactly what the order it rewrote holds less |
| CloseProtocol.BookStaysSound | src/persistence/models.py:663-666 | the same over every interleaving |
| CloseProtocol.StepCurrentIff | src/engines/execution/fills_handler.py:447-490 | in every reachable state, a step of any kind leaves an order in agreement with its fills exactly when it is not one of those four |
| CloseProtocol.StaysCurrent | src/engines/execution/fills_handler.py:194-264 | in every run without one of them on the order, its filled quantity is the sum of its fills and its leg row their signed sum |
| CloseProtocol.StepMovesExcess | src/persistence/reservation.py:33-48 | a step of any kind makes a leg's stored reservation exact or moves its excess by the drift of the order it rewrote |
| CloseProtocol.ReservationIsDrifted | src/persistence/reservation.py:1-9 | in every reachable state the stored reservation is what is in flight plus the drifts since the leg's last recompute |
| OrderBook.DriftSign | src/engines/execution/order_reconciler.py:83-130 | whether a session without a recompute leaves a leg's reservation too high or too low is read off the order, its fills and the kind of session, before it runs |
| OrderBook.OnlyLateRepliesRevive | src/api/routers/positions.py:1263-1311 | an order that agrees with its fills is revived exactly by a dispatch reply that writes it back to submitted after it ended short |
| CloseOutcomes.StepAdvancesOrder | src/engines/execution/fills_handler.py:105-166 | no session turns an order back but its executions and, on a closing order, the answers to its dispatch; an ended order changes its state otherwise only when a combo fills it |
| CloseOutcomes.OrdersAdvance | src/engines/execution/fills_handler.py:105-166 | over any stretch of a run without those, an order never goes back |
| CloseProtocol.StaleIffReleasedOrRevived | src/engines/execution/fills_handler.py:151-166 | an exact reservation becomes too high exactly when a step releases a closing order of the leg that is in flight and short, and too low exactly when it revives one |
| CloseProtocol.ReservationsCover | src/persistence/reservation.py:1-9 | a leg reserves at least what is in flight in every run in which no session revived a closing order of it |
| CloseProtocol.ReservationsExact | src/persistence/reservation.py:1-9 | and exactly that if none released one either |
| CloseProtocol.TimelyRunsCover | src/api/routers/positions.py:1228-1311 | in every run in which its closing orders agree with their fills and no late dispatch reply arrives, a leg reserves at least what is in flight |
| CloseProtocol.CloseLeavesAvailable | src/api/orchestration/position_close.py:113-140 | on any desk a close leaves a filled leg with its open minus its filled quantity minus what other closes hold, hence nothing exactly when the open quantity is the sum of the two |
| CloseProtocol.CloseReservesEverything | src/api/orchestration/position_close.py:113-140 | in every run that kept the leg in agreement with its fills, a close leaves nothing available exactly when no other close of it was in flight, and is over by that otherwise |
| CloseRuns.HeldPositionOverReserves | src/engines/execution/order_reconciler.py:109-130 | a position booked from a broker-held order has no leg row, and its close leaves minus its quantity available |
| CloseRuns.MockPositionOverReserves | src/api/routers/trade.py:1142-1203 | so does a position opened by a mock submit |
| CloseRuns.ComboPositionStaysAvailable | src/engines/execution/fills_handler.py:459-487 | a two-leg combo booked over a partial fill of one leg leaves that part available after the close |
| CloseRuns.SecondCloseOverReserves | src/api/orchestration/position_close.py:113-140 | a close over a leg with another close in flight leaves less than nothing available |
| CloseRuns.RejectedCloseStaysReserved | src/engines/execution/fills_handler.py:151-166 | a rejected close keeps its reservation |
| CloseRuns.RevivedCloseIsNotReserved | src/api/routers/positions.py:1302-1311 | a close rejected, recomputed over, and then written back to submitted is not reserved |
| TradeClose.PlanTradeClose | src/api/routers/trades.py:40-70 | the plans and skips, with the reason of each skip |
| TradeClose.EveryLegOnce | src/api/routers/trades.py:55-70 | every leg is in exactly one of the two lists and both keep the legs' order |
| TradeClose.SkipsHaveReasons | src/api/routers/trades.py:55-66 | each skip names a leg and the first reason that applies to it |
| TradeClose.PlansAreCapped | src/api/routers/trades.py:61-69 | a planned quantity is positive and at most the leg's fill and the mirror |
| TradeClose.OwnFillsCapTotal | src/api/routers/trades.py:49-51 | the total planned of a contract never exceeds the trade's own fills of it |
| TradeClose.SiblingsStayCovered | src/api/routers/trades.py:49-51 | when the mirror is this trade plus its siblings, the siblings stay covered in full |
| TradeClose.TotalWithinMirrorIff | src/api/routers/trades.py:49-51 | the total stays within the mirror exactly when the mirror is empty, at most one leg holds the contract, or the legs hold no more than the mirror |
| TradeClose.TwoLegsPassMirror | src/api/routers/trades.py:49-51 | two legs of one contract, each filled up to the mirror, plan twice the mirror |
| Preview.CdfReflects | src/core/trade_preview.py:37-38 | N(x) + N(-x) = 1 |
| Preview.PutCallParity | src/core/trade_preview.py:41-49 | call minus put is forward minus strike in every branch |
| PreviewLaws.PriceBounds | src/core/trade_preview.py:41-49 | outside the degenerate branch an option that is not out of the money costs more than 0, a call less than the forward and a put less than the strike |
| PreviewLaws.CallPutSymmetry | src/core/trade_preview.py:41-49 | a call on F struck at K costs what a put on K struck at F costs |
| PreviewLaws.PriceScales | src/core/trade_preview.py:41-49 | prices scale with forward and strike |
| PreviewLaws.VarianceIsAll | src/core/trade_preview.py:41-49 | volatility and time enter only through the variance to expiry |
| PreviewLaws.GreeksCurve | src/core/trade_preview.py:52-76 | vega and gamma are positive and in the ratio of the variance to expiry, and theta and gamma satisfy the heat equation |
| PreviewLaws.CallDelta | src/core/trade_preview.py:52-76 | a call's delta is between 0 and 1, and worth more than the call |
| PreviewLaws.PutGreeks | src/core/trade_preview.py:52-76 | a put has the call's greeks but for the delta, which is one less |
| PreviewLaws.DeltaRises | src/core/trade_preview.py:52-76 | a call's delta rises with the forward |
| Preview.MirrorPillarMeaning | src/core/trade_preview.py:306-330 | an override keeps its delta level and the template wing's direction, or the contract's on an at-the-money leg |
| Preview.BuildLegList | src/core/trade_preview.py:351-381 | each template leg becomes one leg with its tenor, pillar, strike, side and volatility |
| Preview.BuildStructure | src/core/trade_preview.py:333-398 | the structure of a known template; unknown names are refused |
| PreviewLaws.BuiltFromNode | src/core/trade_preview.py:297-398 | a built option is priced with the strike and volatility its surface node quotes, on the tenor its role names |
| PreviewLaws.CalendarTenors | src/core/trade_preview.py:108-134 | a calendar sells the near tenor and buys the far one |
| PreviewLaws.StrikeOverride | src/core/trade_preview.py:351-381 | a strike override sets the strike of a single option and changes nothing else |
| PreviewLaws.PillarOverride | src/core/trade_preview.py:306-371 | a pillar override moves an overridable option leg to the node it names and leaves every other leg alone |
| PreviewLaws.TenorDays | src/core/trade_preview.py:25-25 | a month counts thirty days up to six months, and a tenor outside the grid is taken for three months |
| PreviewLaws.SpotIsShortest | src/core/trade_preview.py:591-597 | the spot is the at-the-money strike of the shortest tenor up to three months that quotes one, and 1 without any |
| Preview.PriceStructure | src/core/trade_preview.py:600-626 | unsigned leg prices, signed total, and a loss cap exactly for a positive total |
| PreviewLaws.BoughtTotal | src/core/trade_preview.py:600-626 | the total of a bought vanilla, straddle or strangle is positive, and that of its counterpart negative, on every surface on which the legs are priced and not out of the money |
| Preview.ComputeNetGreeks | src/core/trade_preview.py:661-678 | net greeks are the sum over the legs; the post-hedge delta is 0 exactly as the template's flag says |
| PreviewLaws.DollarCurvature | src/core/trade_preview.py:629-658 | the same relations hold in USD, with vega per volatility point, gamma per squared pip and theta per day |
| PreviewLaws.DollarDelta | src/core/trade_preview.py:629-658 | a call's delta in USD lies between its premium and the notional |
| PreviewLaws.VegaSignHolds | src/core/trade_preview.py:86-241 | these structures are labelled long vega and their counterparts short, and their net vegas have those signs whenever the legs are priced outside the degenerate branch |
| PreviewLaws.FutureSizes | src/core/trade_preview.py:629-678 | a bought future moves like the notional of one option contract, a micro one like a tenth of it, and the full size is the default |
| Preview.CounterpartTemplates | src/core/trade_preview.py:86-241 | the long and short templates have the same legs on opposite sides |
| Preview.CounterpartsCancel | src/core/trade_preview.py:333-678 | for every surface, tenor pair and override, premiums and greeks of a template and its counterpart sum to zero |
| Preview.SyntheticPremium | src/core/trade_preview.py:600-626 | a bought call and a sold put cost spot minus strike times notional, in every pricing branch |
| Preview.SyntheticGreeks | src/core/trade_preview.py:629-678 | they have no vega, gamma or theta, and the delta of full-size futures exactly outside the degenerate branch |
| Preview.BuiltSyntheticLosesDelta | src/core/trade_preview.py:333-678 | a call, a put and a future built from a surface with a negative volatility, where the pair has no delta |
| Config.DeepMerge | src/api/orchestration/config_service.py:61-69 | the key-by-key loop over a copy computes the recursive merge, in any key order |
| Config.MergeByPath | src/api/orchestration/config_service.py:61-69 | at every path the result reads as the patch where it decides and as the base elsewhere |
| Config.PathsDetermine | src/api/orchestration/config_service.py:61-69 | payloads that read the same at every path are the same, so the path law fixes the merge |
| Config.MergeIdempotent | src/api/orchestration/config_service.py:61-69 | the same patch twice is the same patch once |
| Config.MergeIdentity | src/api/orchestration/config_service.py:61-69 | the empty mapping is a two-sided identity |
| Config.MergeAssociativeIff | src/api/orchestration/config_service.py:61-69 | merging is associative exactly when the base has nothing under a leaf that the second patch covers by a mapping silent about it |
| Config.LeafBetweenDoesNotAssociate | src/api/orchestration/config_service.py:61-69 | three payloads whose two groupings differ |
| Config.MergeAssociative | src/api/orchestration/config_service.py:61-69 | in particular when the middle patch puts no leaf where both outer payloads hold mappings |
| Config.ConfigService.Publish | src/api/orchestration/config_service.py:121-122 | announces the record, or fails and announces nothing |
| Config.ConfigService.Update | src/api/orchestration/config_service.py:90-122 | a refused patch changes nothing; an accepted one appends the validated merge under the next version and announces it |
| Config.ConfigService.Revert | src/api/orchestration/config_service.py:135-169 | an unknown version changes nothing; a known one appends a copy of its payload and announces it |
| Config.StepAppends | src/api/orchestration/config_service.py:90-169 | one call leaves the state alone or appends one row and announces exactly that version unless the announcement is lost |
| Config.UpdatedHead | src/api/orchestration/config_service.py:90-122 | in every reachable state an update reads the patch over the head path by path: the result's canonical form becomes the head under the next number if it validates, and nothing changes if not |
| Config.LogGrowsByOne | src/api/orchestration/config_service.py:90-169 | over every run versions are 1, 2, 3, and announcements are of committed versions in order |
| Config.RowsNeverChange | src/api/orchestration/config_service.py:142-146 | a committed row is never changed later |
| Config.AllAnnouncedIff | src/api/orchestration/config_service.py:116-121 | the announced versions are all the committed ones exactly when no announcement was lost |
| Config.LostAnnouncement | src/api/orchestration/config_service.py:116-121 | one update that commits version 1 and announces nothing |
| Config.AnnouncedInOrder | src/api/orchestration/config_service.py:116-121 | then the i-th announcement is version i with the payload it reads as |
| Config.RevertRestores | src/api/orchestration/config_service.py:135-169 | after a revert the head reads as the target version does |
| Config.EmptyPatchKeepsConfig | src/api/orchestration/config_service.py:72-122 | an empty patch adds a version that reads as the head did |
| Symbols.Pad4Reads | src/shared/contracts.py:129 | the strike field has four digits exactly for 0 to 9999 thousandths and then reads back |
| Symbols.Pad4Injective | src/shared/contracts.py:129 | different thousandths print differently, whatever their size and sign |
| Symbols.MonthYearReads | src/shared/contracts.py:119-120 | later months have later letters, and the year digit is the last of the printed year |
| Symbols.OctoberCall | src/shared/contracts.py:107-110 | the source's example: the October 2026 call at 1.160 prints as EUUV6 C1160 |
| Symbols.OptionRoundTrip | src/shared/contracts.py:65-130 | a printed option parses to its class, multiplier, type and strike exactly for 0 to 9999 thousandths and is refused otherwise |
| Symbols.FutureRoundTrip | src/shared/contracts.py:65-126 | a printed future parses to its class and multiplier |
| Symbols.BuildRoundTrip | src/shared/contracts.py:101-130 | from the caller's fields, with strikes of 1 to 9999 exact thousandths, the parser undoes the printer |
| Symbols.PrintInjective | src/shared/contracts.py:101-130 | symbols differ unless class, month, year digit, right and thousandths agree |
| Symbols.BuildInjective | src/shared/contracts.py:101-130 | two calls that print one symbol agree on all of these |
| Symbols.AcceptedReprints | src/shared/contracts.py:41-130 | printing the parsed fields of an accepted plain-ASCII symbol, with its month and year digit, gives the symbol back |
| Symbols.PrintoutIffPlain | src/shared/contracts.py:41-130 | an accepted symbol is a printout exactly when it is plain ASCII without a newline |
| Symbols.NewlineIsAccepted | src/shared/contracts.py:41-43 | a printed future with a newline after it is accepted and is no printout |
| Symbols.NewlineIgnored | src/shared/contracts.py:41-43 | one trailing newline never changes what the parser answers |

## Left out

- Routers, authentication, middleware, Redis and HTTP clients, tracing, metrics, log lines and the whole frontend.
- P&L attribution in `rollups.py`, `pretrade_gate.py` and `greek_caps.py`, and the hedge, repricing and mark-to-market parts of `position_monitor.py`, whose deciding functions lie in other components.
- `cancel_trade` and `close_trade` beyond the plan, and the admission guard and order pricing of the single-leg close; the protocol takes that close's side and quantity as inputs.
- Floating-point error and `round(...)`; the results are those before rounding.
- Races between sessions that overlap under READ COMMITTED: each session is one atomic step, in the monitor as in the close and configuration services.
- Shutdown.EveryEventInOneBatch: events arriving after the call are not modelled, since the service stops its subscriber first; dead letters of overlapping calls are left out, those of one call are in `Writer.WriteBatchWithRetries`.
- Overtaking.ShutdownIsCleanIff: speaks of the row stored under each key and not of the order of rows in a table, and of runs in which no batch call raised, which drops its batch, or skipped a row that should have landed, which drops that row.
- WriterLoop.AsyncDatabaseWriter.CollectBatch: the queue is unbounded, so a full queue that blocks or drops producers is not modelled, and time is only a window that may close at any poll.
- Writer.WriteBatchWithRetries: after a skipped row and more than one attempt it says where each event is but not which row of a key is stored; it says nothing on the contents of the two tables without a natural key after more than one attempt, since re-sent rows may be appended again there; sleeps between attempts are left out.
- Writer.Database.Insert: an `open_position` row without an id, for which SQLite would make one up, is refused like any row without its key; a statement that does not compile is a failure that is not retried, which drops the batch.
- Rollup.RealizedByDay: booked positions are a list of closings; a day that has closings but no account sample gets no row, as in the source.
- Rollup.RollingEqualsRebuild: `computed_at` differs between the two and is not compared, and two samples with one timestamp are not modelled.
- Legs.LegBook.RebuildLeg: the time stamp `rebuilt_at` is not kept.
- Close.CloseDesk.InitiatePositionClose: contract metadata, limit prices and the call to the execution engine after the commit are not kept; entry sides are Buy or Sell by type.
- CloseProtocol.StepCurrentIff: an execution is on its order's own side, and repeated execution ids, which the handler drops, do not occur; a booking is a step of its own, whatever state its orders are in.
- OrderBook.CurrentIff: which stuck order matches which broker position is left open, so any stuck order may be reconciled from one.
- Preview.BuildStructure: product labels, hand-built leg lists, tenor snapping and scenarios are left out; expiry is a day number.
- Config.ConfigService.Update: author, comment and time stamp of a row are not kept.
- Regime patterns, products, market hours, back-off, throttles and retention: finite tables or short state updates.

# Hobo: a verified model

Hobo is an event-sourced pre-trade risk engine. Every change to its risk state is an event in an append-only,
crash-safe log, and the state is the deterministic fold of that log. A gate previews what an order would do to the
state before letting it out, and one admission gate lets each exchange fill in at most once. This project models those
parts and proves how they fit together:

- **The durable log** (`Format`, `LogMachine`, `LogWriting`): length-prefixed frames in a growable zero-filled file,
  copied a byte at a time, committed in two steps. `LogMachine` is a machine of small steps over two images of the
  file, the one a killed process leaves and the one power loss leaves. The class `LogWriter` takes one machine step at
  each store, so what is proved of every run of the machine holds at every point inside every method.
- **State as a fold** (`Fold`, `FoldRuns`, `PnlAttribution`, `StateJson`, `Snapshots`, `Recovery`, `StateStoring`,
  `Replica`): `FoldAll` is the one pure function that the live state, the recovered state and the polling replica all
  have to equal.
- **The risk core** (`RiskMath`, `PositionRuns`, `RiskState`, `Gate`, `Gateway`): nonlinear PnL arithmetic over exact
  reals, the incremental preview of book and desk aggregates, the seven limit checks.
- **The order and fill pipeline** (`Bus`, `Pipeline`, `FillIngestion`, `FillReconciliation`, `Decimal`, `Health`,
  `Reconciling`): the re-entrant queue, the paper-trading cycle, deduplication, backfill paging, attribution of client
  order ids, the feed-stale halt, and the position patch script.

Where the source assigns fields, the model has a class whose methods do the same assignments and are proved against a
specification function; run-level theorems are then about those functions and about machines over them. `Wrappers`,
`RiskModel`, `MapSums` and `Division` hold the shared data types, sums over maps and division by a product.

Five places where the code and what is said of it need care, each with its exact condition proved:

- Attribution of a client order id to a book undoes minting if and only if no two book ids collide (`NoCollision`).
  That allows a little more than "no id is another plus digits": ten or more added digits of which the first is 0 do
  no harm, since no minted number looks like that.
- The replica's documentation says it cannot get ahead of what a restart would find durable. Its pointer is visible
  before it is synced, so it can be ahead of the committed pointer on disk, exactly while that pointer is not written
  back (`AheadOfDiskIff`, reached in `PollBetweenStoreAndSync`). The claim still holds of a restart, because reopening
  also scans past the pointer (`ReplicaNeverAheadOfRestart`).
- A `commit()` that finds nothing to do returns false, and means that everything is promised exactly when this process
  has completed a commit or found all promised (`QuietPromiseIff`); after a kill in the pointer window it does not
  (`KilledBeforePointerSync`). Reopening after power loss still finds everything (`QuietIsFound`).
- The gate checks an order against what is folded. The position cap holds on every run where no order is placed
  while a fill for its own book and instrument waits (`PositionCapHolds`); once the bus has drained, an order placed
  while one does has kept the cap if and only if it fits together with what waited (`CapAfterDrainIff`), and
  `TwoOrdersPerEventBreakTheCap` is a run from the start where it does not.
- Backfilling fills late leaves quantities and realized plus unrealized PnL as they would have been, but a book's total
  only if the funding it received is the same (`BackfilledTotals`, `LateFillMissesFunding`).

Assumptions about the world: a rename, a file removal and the 16-byte store of the committed pointer are atomic; a
frame's bytes reach the mapping in ascending order; the length set by ftruncate is durable; the file is at least
header plus capacity long. Clocks, exchange pages, strategies' decisions and what bus handlers publish are inputs.
WebSocket callbacks and the fill reconciler run on the event loop, hence never inside a drain
(hobo/adapters/okx/execution.py:66-84, hobo/core/fill_reconciler.py:48-51); the paper client answers inside the drain
its order came from, with fills that carry no trade id (hobo/execution/paper.py:12-22).

## Model

| member | source | states |
|---|---|---|
| Format.HeaderRoundTrip | hobo/log/format.py:41-53 | packing the header and reading it back gives the same capacity, pointer and sequence number, whatever data follows it |
| Format.HeaderLayout | hobo/log/format.py:16-23 | the header page byte by byte: magic, version 1, then capacity, committed offset and sequence number, each in eight bytes, least significant first, at 12, 20 and 28; zeros after |
| Format.HeaderStores | hobo/log/format.py:56-61 | each in-place header store changes the fields it names; every other field, and every byte of the file outside its own slots, stays |
| Format.HalfCreatedFileIsCorrupt | hobo/log/format.py:47-53 | a file killed between its creation and its header write, zeros of whatever length, is refused as corrupt when its header is read, never taken for an empty log (a file of no bytes at all is recreated before any header is read) |
| Format.FrameLayout | hobo/log/format.py:64-66 | a frame byte by byte: the text's length in four bytes, least significant first, the text, a newline |
| Format.DecodeEncoded | hobo/log/format.py:64-91 | an encoded envelope decodes to itself and to the offset just past its frame, wherever in a buffer it stands |
| Format.DecodesExactly | hobo/log/format.py:69-91 | a frame is found if and only if a whole one stands below the limit, not empty, ended by a newline, whose text decodes, its length read from the four bytes |
| Format.LeftoversAreNoFrame | hobo/log/format.py:69-91 | bytes with no newline from four past the offset on are never taken for a frame: the trailing-byte check rejects every torn write and every older leftover |
| Format.IterFramesWithOffsets | hobo/log/format.py:94-103 | the generator's loop yields exactly the frame list the parsing lemmas are about |
| Format.ParseSuffix | hobo/log/format.py:94-103 | parsing from any frame boundary gives exactly the envelopes from there on, each with the offset at which its own frame ends |
| Format.FindsRemaining | hobo/log/format.py:94-103 | with arbitrary bytes after the held frames, what parsing finds from a boundary still begins with exactly the remaining envelopes |
| Format.ScanAhead | hobo/log/format.py:106-120 | the loop returns the end, sequence number and count of the last frame found, or its arguments when there is none |
| Format.ScanFindsAll | hobo/log/format.py:106-120 | from any committed boundary, over frames then leftovers, the scan returns the end of the last frame, n, and the number past the boundary |
| Format.ReplayBetween | hobo/log/reader.py:34-38 | replaying the bytes between two frame boundaries gives exactly the envelopes between them |
| Format.StreamRoundTrip | hobo/log/reader.py:26-31 | encoding a list of envelopes and replaying the bytes gives the list back |
| LogMachine.StepKeepsInv | hobo/log/writer.py:49-96 | every byte store, growth, commit, kill, reopening and write-back step keeps the log invariant, at whose heart no newline lies past the next length prefix |
| LogMachine.RecoveryExact | hobo/log/writer.py:49-54 | wherever the process died, reopening finds the end of the landed frames, their number, and how many were uncommitted; replaying up to there gives them in order |
| LogMachine.LandedIsRecorded | hobo/log/writer.py:58-68 | the landed envelopes are, read off the steps alone, those whose every byte was put before a kill |
| LogMachine.ProcessCrashRecovery | hobo/log/writer.py:49-68 | over every run of appends, growths, commits, write-backs, kills and reopenings, reopening recovers exactly the envelopes all of whose bytes were put, in order, numbered 1 to n |
| LogMachine.DiskReplaysPrefix | hobo/log/writer.py:83-96 | whichever bytes were written back, the surviving pointer is a frame boundary and replaying up to it gives a prefix holding all that was promised |
| LogMachine.PowerLossSafety | hobo/log/writer.py:83-96 | the same over every run from a new log: power loss at any moment keeps a prefix of what was appended that includes every envelope covered by a commit that completed its pointer sync |
| LogMachine.RestartFindsPointer | hobo/log/writer.py:90-96 | data reaches disk before the pointer that claims it: reopening what power loss leaves finds at least every envelope below the pointer readers could see |
| LogMachine.QuietPromiseIff | hobo/log/writer.py:83-88 | exactly when a commit that finds nothing to do means that all is promised: this process has completed a commit since it opened the file, or what it opened was promised already |
| LogMachine.QuietIsFound | hobo/log/writer.py:83-88 | whenever the write offset is at the committed offset, so whatever commit returned, reopening what power loss leaves finds everything landed |
| LogMachine.KilledBeforePointerSync | hobo/log/writer.py:90-96 | the other case happens: from any state with something uncommitted, a kill between storing and syncing the pointer, then reopening, leaves nothing to commit while the pointer on disk misses envelopes no commit has promised |
| LogWriting.LogFile.Create | hobo/log/writer.py:34-41 | a new file is the machine's starting image: zeros of the given capacity, header naming it, nothing committed |
| LogWriting.LogWriter.constructor | hobo/log/writer.py:43-56 | opening a file, new or old, recovers all landed frames, counts those past the last commit, and leaves them committed |
| LogWriting.LogWriter.Append | hobo/log/writer.py:58-68 | one more envelope with the next sequence number has landed, the write offset moved by its frame, the committed pointer did not move |
| LogWriting.LogWriter.CopyFrame | hobo/log/writer.py:64-65 | the byte-by-byte copy is a run of machine steps at whose end the envelope has landed and no other has |
| LogWriting.LogWriter.EnsureCapacity | hobo/log/writer.py:70-72 | growth terminates for a factor of at least two with room for the frame, losing no landed envelope |
| LogWriting.LogWriter.Grow | hobo/log/writer.py:74-81 | capacity is multiplied and strictly larger, the log file as a machine step keeps everything written |
| LogWriting.LogWriter.Commit | hobo/log/writer.py:83-88 | true exactly when there was something new, and then all landed envelopes are promised; false promises them exactly when this writer has completed a commit or found all promised; after either the pointer is at the write offset and reopening after power loss finds everything landed |
| LogWriting.LogWriter.DoCommit | hobo/log/writer.py:90-96 | the three stores in their order are enabled machine steps, after which every landed envelope is promised |
| Replica.ReplicaConverges | hobo/replica/tail.py:29-43 | for every interleaving of polls with the writer's byte-sized steps, a replica started fresh holds the fold of exactly the first k envelopes, which end at its offset, a committed frame boundary |
| Replica.NewEventsAre | hobo/replica/tail.py:39-41 | a poll past its remap has the bytes it needs mapped, and reads exactly the envelopes between its offset and the pointer it read: none skipped, none twice |
| Replica.PollReachesCommitted | hobo/replica/tail.py:29-43 | a poll with no commit in between brings the replica to the fold of everything committed |
| Replica.ReplicaNeverAheadOfRestart | hobo/replica/tail.py:1-5 | what the replica has folded is a prefix of what reopening the file would find, even after power loss |
| Replica.AheadOfDiskIff | hobo/replica/tail.py:29-43 | after a quiet poll the replica is ahead of the committed pointer power loss would leave if and only if the visible pointer has not reached the disk |
| Replica.PollBetweenStoreAndSync | hobo/log/writer.py:90-96 | such a poll exists from every state with something to commit: between the writer's pointer store and its sync |
| Replica.ReplicaTail.constructor | hobo/replica/tail.py:23-27 | a fresh replica over an existing log starts in the invariant the convergence theorem needs |
| Replica.ReplicaTail.PollOnce | hobo/replica/tail.py:29-43 | is one quiet poll, returning how many events it folded |
| StateJson.LimitsRoundTrip | hobo/risk/model/portfolio.py:18-23 | limits read back from their dictionary are the same limits |
| StateJson.BookRoundTrip | hobo/risk/model/portfolio.py:67-84 | a book with its nested positions and limits survives serialisation |
| StateJson.DeskRoundTrip | hobo/risk/model/portfolio.py:98-117 | a desk with its nested books survives serialisation |
| StateJson.StateRoundTrip | hobo/risk/state.py:85-106 | every risk state read back from its snapshot dictionary is itself |
| StateJson.StateKeys | hobo/risk/state.py:85-95 | under which keys a snapshot holds marks, their times, funding rates, the desk, the sequence number and the stale flag |
| StateJson.DeskKeys | hobo/risk/model/portfolio.py:98-107 | under which keys a desk is stored |
| StateJson.BookKeys | hobo/risk/model/portfolio.py:67-75 | under which keys a book is stored |
| StateJson.PositionKeys | hobo/risk/model/portfolio.py:35-37 | under which keys a position is stored |
| StateJson.LimitKeys | hobo/risk/model/portfolio.py:18-19 | limits are keyed by their names, and only the configured ones are there |
| Snapshots.SnapshotDir.WriteSnapshot | hobo/log/snapshot.py:25-39 | leaves the new snapshot among the newest kept, and loading if none is newer; in every directory a crash inside the call could leave, each finished snapshot is an old one unchanged or the new one whole, the newest is not lost, and what loads is what loaded before or the new state |
| Snapshots.SurvivorLoads | hobo/log/snapshot.py:60-73 | a directory whose finished snapshots are the old ones unchanged or the new one whole, newest kept, loads the old newest state or the new one, never a torn one |
| Snapshots.SnapshotDir.PruneOldSnapshots | hobo/log/snapshot.py:53-57 | removes exactly the oldest beyond the number kept, one at a time, never the newest |
| Snapshots.SnapshotDir.ListSnapshots | hobo/log/snapshot.py:42-50 | the sorted sequence numbers of exactly the finished snapshots, temporary files left out |
| Snapshots.SnapshotDir.LoadLatestState | hobo/log/snapshot.py:60-73 | the state of the finished snapshot with the largest number, or none when there is none |
| Snapshots.KeepsTheNewest | hobo/log/snapshot.py:53-57 | a finished snapshot outlives pruning if and only if it is among the newest ones kept, or none are to be pruned |
| Recovery.ReplaySkipsFolded | hobo/log/recovery.py:46-51 | onto the fold of a prefix, replaying the whole log and skipping old sequence numbers gives the fold of the whole log |
| Recovery.ReplayTakesNext | hobo/log/recovery.py:46-51 | events numbered on from a state are all replayed onto it, none skipped |
| Recovery.RecoversSnapshot | hobo/log/recovery.py:42-51 | with nothing newer in the log, what is recovered is the loaded snapshot itself |
| Recovery.RecoverIsFullReplay | hobo/log/recovery.py:42-51 | newest snapshot plus tail equals the fold of everything that landed, from any state the engine and its directory can be in |
| Recovery.SnapshotPlusTailIsFullReplay | hobo/log/recovery.py:42-51 | over every run of appends, folds, commits, snapshots, prunings, kills and reopenings, recovery gives the fold of the whole log: the killed process's live state or exactly one appended-but-unfolded event ahead |
| Recovery.NewestSnapshotSurvives | hobo/log/snapshot.py:25-57 | after every single step of the engine, so at every point a crash can strike, each finished snapshot is whole and unchanged, and the newest or a later one is there and loads as the fold of the log up to its number |
| StateStoring.StateStore.Record | hobo/core/state_store.py:21-24 | appends then folds the same envelope, keeping the live state equal to the fold of the log |
| StateStoring.RecoverState | hobo/log/recovery.py:42-66 | the loop builds the recovered state the theorems are about; on a numbered log it replays exactly the events past the snapshot |
| RiskMath.FillCashFlow | hobo/risk/math.py:50-83 | in all of add, reduce, close and flip, realized plus unrealized PnL moves by multiplier times quantity times (mark less price): a fill makes or loses no value of its own |
| PositionRuns.CashFlowIdentity | hobo/risk/math.py:50-83 | over any run of fills the quantity is the sum of signed fills and PnL at any mark moves by their value at the mark less their cost |
| PositionRuns.CashFlowFromFlat | hobo/risk/math.py:50-83 | from flat, realized plus unrealized equals multiplier times (quantity at the mark less total cost) |
| PositionRuns.FillOrderIrrelevant | hobo/risk/math.py:50-83 | two orders of the same fills end at one quantity and one PnL at every mark |
| PositionRuns.PartialFillsCompose | hobo/risk/math.py:63-83 | two same-sign fills at one price give the same quantity, entry and realized PnL as one, even across flat or a flip |
| PositionRuns.EntryWithinBuildingPrices | hobo/risk/math.py:63-83 | after any run a flat position has entry 0 and an open one's entry lies between the prices of the fills that built it |
| RiskState.TotalIsSumOfPositions | hobo/risk/state.py:44-69 | a book's total, computed as four separate sums, is the sum of what each position contributes |
| RiskState.ReplacePnl | hobo/risk/state.py:62-69 | replacing one position moves the book's total by exactly that position's change |
| RiskState.ReplaceBook | hobo/risk/state.py:76-80 | replacing one book moves the desk's PnL and gross notional by exactly that book's change |
| RiskState.NotionalIsGross | hobo/risk/math.py:12-14 | a book's notional adds up, over its positions, the size of quantity times contract value times multiplier times mark: shorts count in full and cancel nothing |
| RiskState.DeskNotionalIsGross | hobo/risk/state.py:79-80 | the desk's gross notional adds up its books', and is at least any one of them |
| RiskState.TotalSpelledOut | hobo/risk/state.py:62-77 | a book's total adds up, position by position, realized plus funding less fees plus quantity times contract size times the mark's distance from entry; the desk's adds up its books' |
| Fold.FoldConcat | hobo/risk/fold.py:16-22 | folding a log in two sittings is folding it once |
| Fold.LiveState.Apply | hobo/risk/fold.py:16-22 | dispatching in place gives the state the pure fold gives, sequence number included |
| Fold.LiveState.ApplyMark | hobo/risk/fold.py:30-33 | the in-place mark update, with its high-water marks, agrees with the fold |
| Fold.LiveState.ApplyFill | hobo/risk/fold.py:36-52 | the in-place fill, creating the position when absent, agrees with the fold, whose accounts OneEventLedger gives one by one |
| Fold.LiveState.ApplyFunding | hobo/risk/fold.py:55-68 | the loop over books pays funding on exactly the open positions in the instrument, from each one's own quantity |
| Fold.LiveState.ApplyLimitChange | hobo/risk/fold.py:71-78 | the in-place limit change touches the one book's or the desk's limit it names |
| Fold.LiveState.ApplyKillSwitch | hobo/risk/fold.py:81-88 | the in-place switch touches the one book's or the desk's switch it names |
| Fold.LiveState.UpdateHighWaterMarks | hobo/risk/fold.py:91-98 | raising books' marks one by one and the desk's after them equals raising all from the totals at entry |
| Fold.LiveState.GetOrCreate | hobo/risk/model/portfolio.py:60-65 | returns what the read-only lookup returns, and stores a flat position only when there was none |
| FoldRuns.PositionIsRunOfItsFills | hobo/risk/fold.py:36-52 | in any folded state each position is the run of exactly its own book's fills in its instrument, in log order, untouched by all other events |
| FoldRuns.OneEventLedger | hobo/risk/fold.py:36-68 | what one event writes in one position, account by account: a bought or sold quantity and its fee for the position's own fill, funding for its instrument's update, nothing otherwise |
| FoldRuns.LedgerOverLogs | hobo/risk/fold.py:46-68 | over any log a position's fees are its start plus the fees of its own fills, and its funding is its start minus, at each update of its instrument, quantity held times contract size times mark times rate |
| FoldRuns.BackfillOrderIrrelevant | hobo/core/fill_reconciler.py:75-79 | logs with the same fills in any order agree on each position's quantity and on its realized plus unrealized PnL at every mark |
| FoldRuns.NetQuantityConserved | hobo/risk/fold.py:36-52 | per instrument the books together hold exactly the sum of signed fill quantities in the log |
| FoldRuns.BookMarkIsRunningMax | hobo/risk/fold.py:91-98 | over any log, a book's high-water mark is the running maximum of where it started (0 in the initial state) and its total after each mark, fill or funding event |
| FoldRuns.DeskMarkIsRunningMax | hobo/risk/fold.py:91-98 | the same for the desk's high-water mark and the desk's total |
| FoldRuns.DeskDrawdownWithinBooks | hobo/risk/state.py:71-83 | on every run the desk's mark is at most the sum of the books' marks, so its drawdown is at most the sum of theirs |
| PnlAttribution.PnlIsSumOfGains | hobo/risk/fold.py:30-68 | over any log a book's PnL is the sum of mark moves on held quantity, fills' gain over their price, less fees, less funding |
| PnlAttribution.ValuedAt | hobo/risk/fold.py:36-68 | after any log and at any marks a book is worth what it started with, plus each fill's worth at those marks less its fee, plus its funding |
| PnlAttribution.BackfilledTotals | hobo/core/fill_reconciler.py:75-79 | logs with the same fills and fees in any order and the same last marks give book totals that differ by exactly the funding received, so they agree if and only if the funding does |
| PnlAttribution.LateFillMissesFunding | hobo/risk/fold.py:55-68 | a fill backfilled after a funding update instead of before it changes the total by exactly the funding on the filled quantity |
| PnlAttribution.LastWriteWins | hobo/risk/fold.py:71-88 | after any log, book limits, book and desk switches and marks are the last values written to them, or the starting ones |
| PnlAttribution.LastDeskWriteWins | hobo/risk/fold.py:71-88 | the same of desk limits and of the reason given with the desk switch |
| PnlAttribution.FeedsAreLatest | hobo/risk/fold.py:30-56 | after any log an instrument's funding rate and mark time are the last ones the log holds |
| Gate.PreviewRefinesFold | hobo/risk/gate/context.py:34-66 | the five previewed numbers equal, recomputed from scratch, those of the state after folding the order's fill at the mark without fee |
| Gate.PreviewDrawdowns | hobo/risk/gate/checks.py:73-100 | drawdown previewed against the old high-water marks equals drawdown after the fold has raised them |
| Gate.SevenInOrder | hobo/risk/gate/engine.py:37-55 | the walk over the rule list reports the first of the seven limits broken, in their documented order, with the value and the limit each check reports |
| Gate.VerdictIsPostFillVerdict | hobo/risk/gate/engine.py:37-55 | an order is approved exactly when both switches are off, it is within the size cap and the post-fill state is within every limit; otherwise the first broken limit is named |
| Gate.ApprovedSizeWithinLimits | hobo/risk/gate/checks.py:65-91 | a flat book's order, bought or sold, is approved only if its quantity times contract value times multiplier times mark is within the book's notional limit and the desk's |
| Gate.ApprovedGrossWithinLimits | hobo/risk/gate/checks.py:65-91 | whatever is held, an approved order's fill leaves the gross notional of book and desk, shorts in full, within their limits |
| Gateway.BuildContext | hobo/risk/gate/context.py:34-66 | computes the preview from the live state, changing nothing |
| Gateway.RiskEngine.Check | hobo/risk/gate/engine.py:37-43 | the loop's decision is that of the first rejecting rule, with its detail, or approval |
| Gateway.CheckIgnoresAudit | hobo/core/gateway.py:36-41 | recording the request first does not change the verdict |
| Gateway.OrderGateway.Place | hobo/core/gateway.py:34-67 | logs the caller's request and then the decision field by field under one order id, book id, dash and number; decides as the state before the call deserves; moves no risk state; submits the caller's order at the mark exactly when approved |
| Gateway.OrderIdsDiffer | hobo/core/gateway.py:57-67 | orders of different books or different numbers have different ids, so no two of one process agree |
| Gateway.HandleEvent | hobo/core/strategy_runner.py:21-29 | the gateway calls made are the strategies' actions in order, each strategy shown the state that the orders before it left, other books' own events skipped |
| Gateway.CallsAsAsked | hobo/core/strategy_runner.py:21-29 | strategy by strategy and action by action: each order call carries the action's instrument, side, quantity and type with the strategy's own book, each cancel its id |
| Gateway.NoneSeesOrdersInFlight | hobo/risk/gate/engine.py:9-11 | strategies that do not read the sequence number all answer as if asked alone on the state the event left: none sees what the others have just ordered |
| Gateway.NoCrossTalk | hobo/core/strategy_runner.py:32-34 | a fill or order update leads to orders for its own book only |
| Pipeline.PaperFillIsPreviewedFill | hobo/execution/paper.py:11-22 | the fill the paper client emits is the order's own, at the mark, without fee or trade id; once recorded it folds to a state showing exactly the numbers the gate previewed |
| Pipeline.RecordedAsArrived | hobo/core/recorder.py:15-19 | every mark, funding and fill event is logged with each of its fields as it arrived |
| Pipeline.RestartSeesRecorded | hobo/core/fill_ingestor.py:22-28 | recording a fill adds exactly its trade id to what a restart will have seen |
| Pipeline.ApprovedFits | hobo/risk/gate/checks.py:57-62 | approval means the order's fill leaves the book within its position limit |
| Pipeline.PipeStepKeepsInv | hobo/core/bus.py:41-60 | every step of the order cycle keeps the caps and keeps each waiting fill alone for its book and instrument and fitting, if an order placed has no such fill waiting |
| Pipeline.PositionCapHolds | hobo/core/gateway.py:34-52 | in every run where no order is placed while a fill for the same book and instrument waits, and limits are never lowered, no book exceeds its position limit in any instrument at any point, however many orders one event leads to |
| Pipeline.OneOrderPerEventIsFresh | hobo/core/strategy_runner.py:21-29 | if each bus event leads to at most one order, nothing at all is waiting whenever the gate is asked, so that condition holds |
| Pipeline.RunIsRecordable | hobo/core/bus.py:56-60 | in every run all that waits can be recorded, so the drain results below apply at every point of it |
| Pipeline.CapAfterDrainIff | hobo/risk/gate/checks.py:57-62 | the exact condition: an approved order, placed from any point of a run and then drained, leaves the cap holding if and only if folded quantity, all that waited for the pair, and the order are together within the limit |
| Pipeline.TwoInFlight | hobo/risk/gate/engine.py:9-11 | two approved orders for one book and instrument on one event drain, on a run of the machine, to a state within the cap if and only if both together are within the limit |
| Pipeline.TwoOrdersPerEventBreakTheCap | hobo/risk/gate/engine.py:9-11 | a run from any just-started engine: an order within the limit but over half of it, placed twice on one event, is approved both times and the drain leaves the book past its limit |
| Bus.EventBus.Publish | hobo/core/bus.py:41-60 | from inside a drain only queues, or counts a drop when full; from outside also drains: the queue ends empty, the guard clear, and every admitted event has reached each of its subscribers once, event by event and in subscription order |
| Bus.EventBus.Deliver | hobo/core/bus.py:62-73 | adds one call for each subscriber of the event's type, the i-th to the i-th subscriber, whatever they publish |
| Bus.DeliveriesInOrder | hobo/core/bus.py:56-71 | all calls for earlier events come before an event's own, and those before all later ones |
| FillIngestion.FillIngestor.SeedFromLog | hobo/core/fill_ingestor.py:22-28 | after a restart exactly the logged exchange ids are seen, and the newest such fill's time is known |
| FillIngestion.FillIngestor.Submit | hobo/core/fill_ingestor.py:41-49 | admits exactly fills without an id or with an unseen one and marks the id seen either way; an admitted fill published from outside a drain is delivered if the bus has any room, and is dropped only from inside a drain whose queue is at its bound |
| FillIngestion.LastFillIsNewest | hobo/core/fill_ingestor.py:30-34 | no id-bearing logged fill is later than that time, and one has it unless it is zero |
| FillIngestion.AtMostOnce | hobo/core/fill_ingestor.py:22-49 | over any interleaving of WS fills, paper fills, polls with stale copies, deliveries and restarts no two logged fills share an id, and admitted fills are, with multiplicity, the logged, the queued, the dropped and the lost |
| FillIngestion.DropsOnlyInsideFullDrain | hobo/core/bus.py:41-55 | a step drops a fill if and only if the paper client answers inside a drain whose queue is at its bound |
| FillIngestion.ExchangeFillsNeverDropped | hobo/core/fill_ingestor.py:41-49 | over every run, on a bus with any room no exchange fill is dropped: each admitted is, with multiplicity, logged, or queued in a running drain, or was queued when the process died |
| FillIngestion.DropsExchangeFillsIffNoRoom | hobo/core/bus.py:41-50 | some run drops an exchange fill if and only if the bus was built with a bound of zero |
| FillIngestion.DroppedThenRefused | hobo/core/fill_ingestor.py:44-48 | that run: the WebSocket fill is dropped and the REST poll that brings it again is refused |
| FillIngestion.RefusedUntilRestart | hobo/core/fill_ingestor.py:44-48 | along every run a seen id is refused from every source until the next restart |
| FillIngestion.RestartReadmits | hobo/core/fill_ingestor.py:22-28 | a restart readmits exactly the exchange fills the log does not hold, among them every one lost with the queue |
| FillReconciliation.RestartBackfillsGap | hobo/core/fill_reconciler.py:41-45 | after a restart an id-bearing exchange fill is asked for if and only if the log lacks it and it is no older than a minute before the log's newest (or than the start, in a log without one) |
| FillReconciliation.FetchNew | hobo/core/fill_reconciler.py:59-73 | returns, in history order, exactly the fills of the first ten pages that are no older than the baseline and carry an id not yet seen; whenever the baseline or the end is within ten pages, exactly those of all pages |
| FillReconciliation.BeyondBaseline | hobo/core/fill_reconciler.py:69-70 | once a page reaches behind the baseline no later page holds anything wanted |
| FillReconciliation.Attribute | hobo/core/fill_reconciler.py:101-107 | the longest book id that is followed in the client order id by one or more digits and nothing else, or none when no book id is |
| FillReconciliation.AttributionInvertsMinting | hobo/core/fill_reconciler.py:101-107 | attribution undoes minting for every book and order number if and only if no two book ids collide, for numbers of any length |
| FillReconciliation.OnlyCollisionsMislead | hobo/adapters/okx/execution.py:46 | an order attributed to the wrong book, or to none, must be due to a colliding id |
| FillReconciliation.CollisionMisleads | hobo/core/fill_reconciler.py:101-107 | for any two colliding ids, a concrete order number whose order is charged to the wrong book |
| FillReconciliation.AdoptsEachMissedFillOnce | hobo/core/fill_reconciler.py:75-98 | oldest first, one event for each attributable unseen fill ten seconds old, with each of the fill's fields, charged to the book that minted its order, no id twice, none left unseen |
| FillReconciliation.SubmitAll | hobo/core/fill_reconciler.py:75-98 | the loop publishes exactly those events through the ingestor and counts them, and all are delivered if the bus has any room |
| Decimal.ValueOfFixed | hobo/adapters/okx/execution.py:46 | zero-padding loses nothing: the digits determine the number |
| Decimal.DigitAt | hobo/core/gateway.py:60 | digit i from the right is the character for what the number has of the i-th power of ten |
| Decimal.WidthIs | hobo/core/gateway.py:60 | a number's text has as many digits as it needs and no more |
| Decimal.PaddedOfValue | hobo/adapters/okx/execution.py:46 | every string of ten digits, or of more without a leading zero, is the padded text of its value, so some order number carries it |
| Health.StalenessWatchdog.RecordMessage | hobo/risk/staleness.py:26-31 | the watchdog is fresh as of now, and the result says whether it had been stale |
| Health.StalenessWatchdog.Check | hobo/risk/staleness.py:33-41 | trips if and only if a tick was seen, the watchdog is fresh and the silence has reached the threshold |
| Health.FeedHealthMonitor.constructor | hobo/core/health.py:18-26 | seeds the watchdog stale exactly when the recovered desk is halted for staleness |
| Health.FeedHealthMonitor.OnMessage | hobo/core/health.py:28-30 | after a tick the desk is not halted; a desk switch is logged, off, exactly if the feed had been stale |
| Health.FeedHealthMonitor.Check | hobo/core/health.py:32-34 | watchdog and switch stay in step; the desk is halted as feed stale, and that logged, exactly if the silence of a fresh feed has reached the threshold |
| Health.StaleMatchesSwitch | hobo/core/health.py:18-37 | in every run, restarts in mid-step included, watchdog staleness equals the desk switch after every step |
| Health.SilenceHalts | hobo/core/health.py:32-37 | in every run a check that finds the threshold reached leaves the watchdog stale and the desk halted as feed stale |
| Health.HaltedUntilTick | hobo/risk/gate/checks.py:35-42 | from the tripping check to the next tick every order is rejected with KILL_SWITCH, across restarts |
| Reconciling.EnginePositions | scripts/reconcile.py:46-49 | the nested loops compute each instrument's net quantity over all books |
| Reconciling.Gaps | scripts/reconcile.py:52-59 | exactly the instruments whose exchange quantity less the engine's is beyond a millionth either way, with that difference |
| Reconciling.PatchKeepsPnl | scripts/reconcile.py:72-80 | adopting a position at the mark leaves every book's PnL as it was |
| Reconciling.Patch | scripts/reconcile.py:72-82 | the appended envelopes, numbered on from the state, pair an audit with a fill of the gap at the mark without fee or trade id; they replay if and only if every gapped instrument is known, and then close each gap exactly |
| Reconciling.Reconcile | scripts/reconcile.py:46-84 | in sync exactly when nothing differs; after a patch that replays, net equals the exchange for each gap and is unchanged elsewhere, and no book's PnL moves |

## Left out

- JSON text: encoding and decoding are an abstract pair; an envelope may be appended when decoding undoes encoding for it and its text is non-empty, shorter than 2^32 bytes and free of raw newlines (section 7 of RFC 8259 requires control characters to be escaped). A longer text makes the source raise.
- IEEE rounding: all quantities are exact reals, so sums do not depend on dictionary order; equalities are not claimed of floats.
- 64-bit overflow of header fields: the byte codec of the header is proved for values that fit, and the log machine holds the header decoded, with offsets relative to the data region.
- The window between creating a log file and writing its header: the machine starts after it; HalfCreatedFileIsCorrupt shows what reopening does with such a file.
- Power loss combined with a snapshot ahead of the durable log or with appending after scanning past the pointer: the source does not guarantee these, and nothing is claimed; power-loss results are about replay of the committed region and about what one reopening finds.
- The builder's replica wiring, which hands an already recovered state to a tail that starts at offset 0: convergence is proved for a fresh state.
- Start-up reconciliation of roster, specs and marks (hobo/log/recovery.py:69-128): recovery is modelled with those optional arguments absent.
- Malformed payloads (unknown book, instrument or limit; order for an unknown book): the fold theorems ask for well-formed events, which is what the source can fold without raising.
- Fold.LiveState: books and positions are values inside one object, so sharing of book objects between callers is not captured; the desk's fields are inlined into it.
- Bus.EventBus.Publish: handlers' behaviour is a finite script of what each call publishes; handler exceptions, which the source logs and swallows, and unbounded re-publishing are not modelled; subscribing is done while wiring, before the first delivery.
- StateStoring.RecoverState: asks that finished snapshots load; a snapshot corrupted from outside makes the source raise.
- Snapshots.SnapshotDir.ListSnapshots: file names are values, final or temporary with a number; the regular expression and decimal text are not modelled.
- Reconciling.Patch: takes the gaps in any order, not sorted; prints, the final commit and the clock part of the order id are left out.
- FillReconciliation.Attribute: ASCII digits only; the source's digit test also accepts other Unicode digits.
- FillReconciliation.FetchNew: asks for the history as the exchange serves it: newest first, in non-empty pages with distinct cursors.
- Health.StaleMatchesSwitch: manual desk halts overwrite the same flag and reason and are kept out of its runs.
- Pipeline.PositionCapHolds: asks that limits are never lowered and that no order is placed while a fill for the same book and instrument waits; without the latter CapAfterDrainIff says when the cap still holds.
- Gateway.HandleEvent: a strategy is a function of the event and the state shown to it; memory of its own is not modelled.
- PnlAttribution.BackfilledTotals: asks for the same marks at the end of both logs.
- Exchange transport, OKX parsing, order bridge and order manager, HTTP server, dashboard, metrics, logging, configuration, asyncio scheduling, blotter, exchange reconciler display, oscillator strategy, liquidation distance, start-up drift warnings: input and output, or members that would only be easy.

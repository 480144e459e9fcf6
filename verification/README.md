# Quote-Ticker: a verified model

The service turns a stream of trades into candlestick rows (klines) of seven window kinds, keeps the open rows in
memory, checkpoints them into one REPLACE-style table per symbol, rebuilds missing long windows from one-minute rows, commits
Kafka offsets although its workers finish out of order, caches recent rows, and fans trades out over WebSockets.
This project models those parts in Dafny and proves what they promise together.

## How the model is laid out

| files | part of the service |
|---|---|
| `Int64`, `Decimal`, `DecimalText`, `DecimalRoundTrip` | fixed-point decimals on wrapped 64-bit integers, their parser and printers |
| `Calendar`, `Intervals` | UTC dates on the proleptic Gregorian calendar and the seven window kinds |
| `Klines`, `WeightedAverage`, `Windows` | the fold of trades into a row; "group by window and fold", the specification of everything below |
| `Buckets`, `Aggregators` | the open buckets and the aggregator, as classes with the loops of the source |
| `Pipeline`, `Refinement`, `Counts` | trades, buffer appends, checkpoint stages, rebuilds, restarts and crashes as interleaved steps, and the invariants of every run |
| `Guarantees`, `Rebuilds`, `Shutdown`, `Batches` | what those give: the overlay, the rows that the continuity checker saves, Close, and the parallel saves |
| `Replay` | a process that ends without Close, the committed offset, and what the next process makes of it |
| `Runs`, `OutOfOrder` | trades in any order: grouping, conservation, and exactly when a window survives REPLACE |
| `Recovery` | the loaders of `recoverLocked` with the lock that they and their caller take |
| `Tables`, `Backfill`, `Continuity` | REPLACE and SELECT on a map, rebuilding a long window, the backward scan |
| `Cache`, `Repository`, `ReadBack` | the sorted slice, its coupling to the table, rows as decimal text |
| `Coupling` | cache and table while saves and queries overlap |
| `Committer` | contiguous commits over a channel that drops |
| `Deduper`, `Race` | the filter for redelivered trades, for one worker and shared by several |
| `Hub`, `FanOut` | subscriptions and the three lossy queues |

Code that changes state step by step is a class or a method with the loops of the source, and its contract ties the new
state to a function (`Updated`, `Closed`, `SaveAll`, `PutAll`, `Flushed`, `MergeRows`, `Parse`, `Show`, …); the lemmas are
about those functions. What several goroutines do is a machine: a state, a list of actions, `Enabled` and `Step`, and
theorems over every run `Possible(START, run)`. Some fields only record the past (`history`, `lost`, `tainted`, `processed`,
`signalled`, `acks`, `pumped`): they decide neither whether a step is possible nor what it does to the other fields.

In the pipeline machine `Update` is the part of `ProcessTrade` under the bucket lock and `Append` the part under the buffer
lock, so other trades, drains, snapshots and saves may come between them; loads and saves may fail, and a non-leader drops
what it completed. The continuity checker writes the same table, in two steps that anything may come between: it reads stored
minutes of a window, and later saves the row merged from them. A process ends with `Close` or without. Trades come in any
order; what holds only for some orders has the order as a hypothesis, per window where possible. Two fields record the harm:
`lost` has the windows whose final row was dropped or replaced by a shorter one, `tainted` those whose bucket was begun
without some of their trades. Symbols share neither buckets nor buffer entries nor tables, so the machine follows one symbol;
`Aggregators.Aggregator` holds all of them, and its `Valid()` says of each that its buckets, buffer and table are those of a
state that the machine reaches.

## What the code does and its comments do not say

* `Add` is documented to panic on overflow; it saturates (`Decimal.AddSaturates`). `Quo` wraps silently beyond a dividend of
  92233720368 raw units (`Decimal.QuoExact`).
* The two paths of `Mul` round negative products differently (`Decimal.MulRounding`).
* `String` is wrong for the most negative decimal and only for it (`DecimalRoundTrip.RoundTrip`).
* Recovery at the first trade of a symbol is described as loading stored rows; as locked, it returns exactly when no row is found,
  and otherwise waits for ever (`Recovery.ReturnsExactly`). The pipeline reads recovery as the sequential load it is meant to be.
* A late trade re-opens an old window, and REPLACE then loses the window's earlier trades; a window is whole exactly when its
  trades come in one stretch (`OutOfOrder.WholeExactly`).
* The continuity checker can replace a final row by a shorter one: it reads minutes of a window, trades and a checkpoint come in
  between, and then it saves (`Rebuilds.LateBackfillSpoils`). Its save leaves the window right exactly when it has counted all
  trades that the window has by then (`Rebuilds.BackfillExactly`).
* A load that fails during recovery is only logged; the bucket begins anew, and is right exactly if no row was stored for its
  window (`Guarantees.FailedLoadExactly`).
* `Close` does not wait for a running checkpoint, it cancels it. Completed rows that the checkpoint has drained and not committed
  are then neither saved by the checkpoint nor found by `Close`: such a window is right exactly if the table already has a row of
  it that has counted all of its trades (`Shutdown.DrainedRight`), and it happens that the table has none (`Shutdown.DrainedLost`).
* An offset is committed when a trade is processed, not when its row is stored. After a crash a window is right exactly if its stored
  row had counted as many of its trades as lie before the offset from which the next process is fed; otherwise trades are lost or
  counted twice (`Replay.FailureExactly`), and both happen (`Replay.TradeLost`, `Replay.CountedTwice`). Without any commit the next
  process begins at the end of the partition (`Replay.NeverFed`).
* A query that puts its rows into the cache late can put an older row over a newer one (`Coupling.LateQueryIsStale`); a cached row is
  stale exactly when its key was committed after what the last put of it carried was committed or read (`Coupling.CachedExactly`).
* The trade count wraps at 32 bits and its column is unsigned. `Close` and the checkpoints skip an open row with a count of zero or
  below, and a completed row with a negative one makes its whole batch fail (`Shutdown.CloseExact`).
* A window rebuilt from a partial one-minute answer is wrong (`Backfill.MergeExactly`); a cache hit is the database's answer exactly
  when the cache knows all rows of that answer (`Repository.HitExact`).
* A partition first seen at an offset above zero is never committed (`Committer.CommitsFromZero`).
* A trade redelivered after its entry in the filter has expired is handed on again (`Deduper.HandedAfter`), and without expiry
  two workers both hand it on exactly when the second one looks before the first has recorded it (`Race.TwiceExactly`).
* Near the epoch the backward scan stays at zero, because the aligner truncates toward zero (`Continuity.ScanIsConsecutive`).

## Model

| member | source | states |
|---|---|---|
| Decimal.AddSaturates | internal/decimal/decimal.go:83-92 | the sign-bit test on the wrapped 64-bit sum is clamping of the true sum, for all operands |
| Decimal.Sum | internal/decimal/decimal.go:83-92 | the branching addition of the source returns the clamped true sum |
| Decimal.GroupedSum | internal/decimal/decimal.go:83-92 | any bracketing of saturating additions of nonnegative decimals gives the smaller of the true sum and the largest decimal |
| Decimal.SumOrderIrrelevant | internal/decimal/decimal.go:83-92 | two bracketings of the same nonnegative decimals, in any two orders, give the same saturated sum |
| Decimal.MixedSignsOrderMatters | internal/decimal/decimal.go:83-92 | with mixed signs they need not: a concrete counterexample |
| Decimal.MulExact | internal/decimal/decimal.go:98-108 | for nonnegative operands Mul is less than one unit below the exact scaled product, exactly when that fits in 64 bits |
| Decimal.MulRounding | internal/decimal/decimal.go:98-108 | Mul is the floor of the scaled product, exactly unless both factors take the direct path and the product is negative and does not divide evenly; then it is one unit above |
| Decimal.QuoExact | internal/decimal/decimal.go:111-116 | Quo is the truncated quotient of the scaled dividend exactly when the raw dividend is at most 92233720368 in size |
| DecimalText.ScanIsParse | internal/decimal/decimal.go:36-68 | the left-to-right scan with its wrapping accumulators computes the declarative reading of sign, integer part and eight fraction digits |
| DecimalText.ReadBody | internal/decimal/decimal.go:40-68 | the loop over the characters returns that scan, including its rejections |
| DecimalText.FromString | internal/decimal/decimal.go:23-69 | the parser, with the empty string and both signs, returns the declarative reading |
| DecimalText.PadLoop | internal/decimal/decimal.go:179-185 | prepending zeros until eight characters are there gives the padded text |
| DecimalText.String | internal/decimal/decimal.go:143-160 | the printer with its wrapping negation returns the declarative text |
| DecimalText.TrimLoop | internal/decimal/decimal.go:163-174 | cutting zeros from the end one by one gives the text without its trailing fraction zeros |
| DecimalText.Trimmed | internal/decimal/decimal.go:163-174 | the short printer returns the trimmed text |
| DecimalRoundTrip.ParseMeaning | internal/decimal/decimal.go:23-69 | a text of an optional sign and digits on either side of an optional dot denotes the number of units that its digits spell, rounded towards zero, with either side possibly empty and a plus as good as no sign |
| DecimalRoundTrip.AcceptedForm | internal/decimal/decimal.go:40-56 | and every other text is rejected |
| DecimalRoundTrip.PlusDropped | internal/decimal/decimal.go:28-34 | a leading plus changes nothing, whatever follows it |
| DecimalRoundTrip.RoundTrip | internal/decimal/decimal.go:23-69 | parsing the printed text followed by any number of zeros gives the decimal back, exactly when it is not the most negative one |
| DecimalRoundTrip.TrimmedRoundTrip | internal/decimal/decimal.go:163-174 | the same for the short text |
| DecimalRoundTrip.TrimmedInjective | internal/decimal/decimal.go:163-174 | different decimals have different short texts |
| DecimalRoundTrip.TrimmedIsTight | internal/decimal/decimal.go:163-174 | the short text ends neither in a fraction zero nor in a dot |
| DecimalRoundTrip.ColumnRoundTrip | internal/repository/kline_repo.go:209-212 | a DECIMAL(40,20) column, which reads back with twelve more zeros, returns the decimal written, exactly when it is not the most negative one |
| Tables.PersistedExactly | internal/repository/kline_repo.go:67-81 | a row that is written and read back is the same row exactly when none of its nine decimals is the most negative one and its count, whose column is unsigned, is not negative |
| ReadBack.RowReadBack | internal/repository/kline_repo.go:131-139 | a window's row is read back as it was written exactly when its average did not wrap to the most negative value and its count not below zero; a small enough amount rules out the first, fewer than 2^31 trades the second |
| Calendar.YearStartClosed | internal/kline/interval.go:54-56 | counting days year by year with the leap rule of Appendix C of RFC 3339 has the usual closed form |
| Calendar.MonthStartClosed | internal/kline/interval.go:50-52 | counting days month by month has a closed form too, in which only March and later depend on the year: no length of a month is taken for granted |
| Calendar.CivilRoundTrip | internal/kline/interval.go:47-52 | year, month and day of a day number are a date of the calendar, the day within its month, and name that day again |
| Calendar.DateParts | internal/kline/interval.go:47-52 | and a date of the calendar is that of a day number exactly when its year, month and day are that day's |
| Calendar.KnownDates | internal/kline/interval.go:41-56 | anchors of the calendar: the epoch is a Thursday and the first of January 1970, and the centuries follow the leap rule |
| Intervals.Tiling | internal/kline/continuity.go:253-265 | for all seven kinds the window of a time contains it, closes one millisecond before start plus length, and the next start is itself aligned |
| Intervals.DaySlots | internal/kline/interval.go:12-16 | every day from 1970 on holds exactly 1440, 144, 48 and 24 windows of the four fixed kinds, one after the other from midnight, and each time of a slot aligns to its start |
| Intervals.WeekSlots | internal/kline/interval.go:41-48 | a week runs from one Monday to the next |
| Intervals.MonthSlots | internal/kline/interval.go:50-56 | a month from its first day to the first of the next, and a year from January to January |
| Intervals.JulyTrade | internal/kline/interval.go:50-56 | a trade in July 2024 aligns to 1719792000000, the first instant of that July, and the year to that of its January |
| Intervals.WindowUnique | internal/kline/interval.go:33-56 | every time between a start and its end aligns to that start |
| Intervals.AlignIdempotent | internal/kline/interval.go:33-56 | aligning an aligned time changes nothing |
| Intervals.AlignMonotone | internal/kline/interval.go:33-56 | later times align to the same or a later start |
| Intervals.Nesting | internal/kline/interval.go:12-20 | a window of a nested kind lies inside one window of the outer kind |
| Intervals.NestsExactly | internal/kline/interval.go:12-20 | which kinds nest in which, both ways: every other pair has a time at which a window straddles a boundary |
| Klines.Kline.Update | internal/model/kline.go:49-68 | the field assignments are the fold step |
| Klines.Kline.ComputeAvg | internal/model/kline.go:71-75 | the average is set only for a positive volume |
| Klines.FoldMeaning | internal/model/kline.go:32-68 | field by field, what the row of a window of trades holds: first and last price, extremes, sums capped once, wrapped count |
| Klines.FoldConcat | internal/model/kline.go:49-68 | folding in two parts is folding in one |
| Klines.TickRoundTrip | internal/model/trade.go:21-35 | a pushed tick read back is the trade, exactly when no decimal is the most negative one and the amount is the product |
| Klines.TickMeaning | internal/model/trade.go:21-35 | a tick with the texts of two decimals is the trade with that price and quantity and their product as amount, its taker a buyer for the side BUY and not for SELL |
| Klines.PushMeaning | internal/ws/hub.go:139-149 | what is pushed for a trade has BUY for a taker who bought and SELL otherwise, and texts that read back as its price and quantity |
| WeightedAverage.AverageBounds | internal/model/kline.go:71-75 | the stored average lies between the lowest price, less the rounding of n products, and the highest |
| WeightedAverage.AverageBelowLow | internal/model/trade.go:33-33 | it can lie below the lowest price: a trade whose product is less than one unit averages to zero |
| Windows.WindowMember | internal/kline/aggregator.go:140-142 | the trades of a window are exactly those that align to it |
| Buckets.SymbolBuckets.Switch | internal/kline/aggregator.go:145-155 | a bucket of another window is handed over and replaced; one of the trade's window is kept |
| Buckets.SymbolBuckets.UpdateInterval | internal/kline/aggregator.go:140-158 | one round changes one bucket as specified and no other |
| Buckets.SymbolBuckets.UpdateAll | internal/kline/aggregator.go:139-160 | the loop over the intervals produces all seven next buckets and the completed rows in list order |
| Buckets.SymbolBuckets.UpdateBuckets | internal/kline/aggregator.go:126-161 | with recovery for empty buckets in front |
| Buckets.SymbolBuckets.Recover | internal/kline/aggregator.go:166-188 | read sequentially, recovery loads the stored rows of the windows the trade is in, except those whose load fails |
| Buckets.SymbolBuckets.Snapshot | internal/kline/aggregator.go:296-308 | a snapshot has each bucket with trades once, in some order |
| Buckets.ClosedExact | internal/kline/aggregator.go:147-150 | the completed rows are exactly the buckets of windows other than the trade's |
| Aggregators.Aggregator.ProcessTrade | internal/kline/aggregator.go:97-124 | the trade's symbol gets its next buckets and, if this instance writes, its completed rows; other symbols and the tables do not change, and each symbol stays in a state that the machine reaches |
| Aggregators.Aggregator.UpdateBuckets | internal/kline/aggregator.go:126-161 | the same for the buckets alone, admitting a new symbol |
| Aggregators.Aggregator.DrainBuffer | internal/kline/aggregator.go:283-289 | the batch takes over each symbol's buffered rows and the buffer is empty |
| Aggregators.Aggregator.Collect | internal/kline/aggregator.go:292-315 | one entry per symbol with rows to save, each a snapshot of its buckets |
| Aggregators.Aggregator.SaveBatch | internal/kline/aggregator.go:322-335 | each symbol's table receives its own entries, those that succeed |
| Aggregators.Aggregator.Checkpoint | internal/kline/aggregator.go:267-338 | the whole checkpoint: completed rows, then open ones, per symbol, with failures; nothing without leadership; each symbol stays in a state that the machine reaches |
| Aggregators.Aggregator.FlushOpen | internal/kline/aggregator.go:380-394 | every open row saved by itself |
| Aggregators.Aggregator.Close | internal/kline/aggregator.go:358-396 | buffered rows, then open rows; nothing without leadership; if all saves succeed, each symbol's table is the one that the machine's restart step leaves |
| Aggregators.TradeRuns | internal/kline/aggregator.go:109-122 | what the method does to a symbol is an update step followed by an append step of the machine |
| Aggregators.CheckpointRuns | internal/kline/aggregator.go:267-338 | what a checkpoint does to it is a drain, a snapshot and the save steps of the machine |
| Aggregators.CloseSaves | internal/kline/aggregator.go:369-394 | saving the buffer and then every open row by itself gives the table of the machine's restart step |
| Aggregators.SymbolOverlay | internal/kline/aggregator.go:97-338 | so in every valid aggregator, for each symbol, buckets over buffer over table hold the fold of every window whose trades come in one stretch, except for recorded losses |
| Aggregators.ClosedTableRight | internal/kline/aggregator.go:358-396 | and after Close the table alone does |
| Aggregators.NextProcess | internal/kline/aggregator.go:358-396 | and on that table the next process begins in a state that the machine reaches, so that the guarantee spans processes |
| Pipeline.ClosedStays | internal/kline/aggregator.go:147-150 | a closed window whose trades come in one stretch gets no more trades |
| Refinement.UpdateCore | internal/kline/aggregator.go:126-188 | a trade keeps the invariant, also the first one of a process, which finds its buckets in the table or, where loads fail, does not |
| Refinement.AppendCore | internal/kline/aggregator.go:115-122 | so does an append in any order, by a leader or not |
| Refinement.DrainCore | internal/kline/aggregator.go:283-289 | so does a drain |
| Refinement.SnapshotCore | internal/kline/aggregator.go:292-315 | so does a snapshot in any order of the map, or one that misses the symbol |
| Refinement.SaveDrainedCore | internal/kline/aggregator.go:330-332 | so does a save of completed rows, or its failure |
| Refinement.SaveSnapCore | internal/kline/aggregator.go:330-332 | a save of open rows overwrites no final row that will not be written again |
| Refinement.GatherCore | internal/kline/continuity.go:189-200 | the continuity checker may read some of the stored minutes of a window at any time |
| Refinement.BackfillCore | internal/kline/continuity.go:200-205 | and save the row merged from them at any later time, or fail; what that harms is recorded |
| Refinement.RestartCore | internal/kline/aggregator.go:358-396 | so does Close followed by a new process |
| Refinement.CrashCore | internal/kline/aggregator.go:131-134 | and a new process without Close, which loses the rows not yet saved |
| Refinement.RunInv | internal/kline/aggregator.go:97-338 | every state that a run reaches satisfies the invariant, whatever the order of the trades |
| Counts.RunCounts | internal/kline/aggregator.go:139-158 | and every row, in memory or stored, has counted some of its window's trades and, in a run of one process without drops, all of them only if they come in one stretch |
| Guarantees.Overlay | internal/kline/aggregator.go:97-338 | in every reachable state open buckets over in-flight rows over the buffer over the batch over the table hold, for every window of every kind whose trades come in one stretch, exactly the fold of its trades, and nothing for others, except for recorded losses |
| Guarantees.OverlayInOrder | internal/kline/aggregator.go:97-338 | for trades in time order that is every window |
| Guarantees.LeaderOverlay | internal/kline/aggregator.go:115-122 | a leader whose loads and saves of completed rows succeed, and for whom nothing is rebuilt, has no losses before the trades leave 31 bits, even if saves of open rows fail |
| Guarantees.TableIsSound | internal/repository/kline_repo.go:67-85 | whatever fails, a stored row of a window whose bucket saw all of its trades was the window's row at some time or, for a kind that is rebuilt, was merged from rows that its minutes had at some time |
| Guarantees.FailedLoadExactly | internal/kline/aggregator.go:172-186 | the bucket that the first trade of a process begins is right exactly unless its load failed and a row was stored |
| Rebuilds.StoredExactly | internal/kline/aggregator.go:283-335 | a stored row, also one that is recorded lost, is the window's final one exactly when it has counted all of the window's trades |
| Rebuilds.BackfillExactly | internal/kline/continuity.go:191-205 | for every run in time order, a rebuilt row, whenever it is saved, leaves its window right exactly when it has counted all trades that the window has by then |
| Rebuilds.SettledStays | internal/kline/aggregator.go:283-335 | once a window is over and written, its row is the final one, and stays so through every further step exactly unless a rebuilt row that lacks trades is saved over it |
| Rebuilds.CrashExactly | internal/kline/aggregator.go:126-136 | a process that ends without Close takes the row of a window with it exactly if the crash is recorded for it, unless a completed row of the window was still to be saved; those are all recorded |
| Rebuilds.LateBackfillSpoils | internal/kline/continuity.go:191-205 | which happens: a concrete family of runs in which the continuity checker, having read a window's minutes, saves after the window's final row is written |
| Shutdown.CloseExact | internal/kline/aggregator.go:358-396 | for every run, with trades in flight, lost windows and a checkpoint that Close cuts short anywhere: the table after Close holds a window's fold, and nothing for a key without trades, exactly unless Close does not write the window and its final row is not there when Close begins to write |
| Shutdown.CloseRight | internal/kline/aggregator.go:250-396 | so with fewer than 2^31 trades it is right exactly unless its completed row is with a trade still being processed, or with a checkpoint whose save fails, and its final row is not in the table |
| Shutdown.QuietClose | internal/kline/aggregator.go:358-396 | and when nothing else runs, every window is right |
| Shutdown.DrainedRight | internal/kline/aggregator.go:283-332 | a window whose row a checkpoint has drained, and whose save Close cancels, is right after Close exactly if the table already has a row of it that has counted all of its trades |
| Shutdown.DrainedLost | internal/kline/aggregator.go:358-377 | which happens: a concrete family of runs in which nothing has failed, a checkpoint has drained a minute, and after Close the minute is not in the table |
| Batches.BatchOnce | internal/kline/aggregator.go:283-315 | in no reachable state has a checkpoint's batch two rows of a window whose trades come in one stretch |
| Batches.BatchDistinct | internal/kline/aggregator.go:283-315 | for trades in time order no two of its rows share a primary key |
| Batches.AppendsCommute | internal/kline/aggregator.go:115-122 | two calls of ProcessTrade may append their completed rows in either order, and a batch saved after it leaves the same row of such a window |
| Batches.SaveOrderIrrelevant | internal/kline/aggregator.go:322-335 | so the parallel saves, whichever of them succeed, leave the same row of such a window in either order |
| Batches.SameTable | internal/kline/aggregator.go:322-335 | and for trades in time order the same table |
| Batches.SavesCommute | internal/repository/kline_repo.go:59-81 | saves commute, on any table, under a key that only one of them has |
| Replay.ReplayedRow | internal/kline/aggregator.go:126-188 | what a new process makes of a window is the fold of the trades that its stored row has counted and of those that the process is fed, in every interleaving with its own checkpoints |
| Replay.ReplayExactly | internal/kafka/consumer.go:122-142 | after a run without Close, from whatever offset the next process is fed, a window is the fold of its distinct trades exactly if its stored row had counted as many of its trades as lie before that offset, or if it begins after the first trade that is fed |
| Replay.ServesExactly | internal/kafka/consumer.go:122-142 | a service that begins has processed the trades of the partition from the first on, as many as it was fed, and what is committed is its last commit |
| Replay.ResumesExactly | internal/kafka/consumer.go:40-49 | the process after a failure processes the trades from the committed offset on, and if nothing is committed those from the end of the partition on |
| Replay.FailureExactly | internal/kafka/consumer.go:40-49 | the same for the service of feeding, committing and storing, over every run with one failure: right exactly if the stored row had counted the trades before the committed offset, or before the end of the partition if nothing is committed, or the window begins after the first trade fed then |
| Replay.TradeLost | internal/kafka/consumer.go:122-142 | a trade whose offset is committed before its row is stored is lost, and so is one if nothing is committed |
| Replay.NeverFed | internal/kafka/consumer.go:40-49 | a trade that enters the partition while no process runs and nothing is committed is never processed |
| Replay.StoredAhead | internal/kline/aggregator.go:267-338 | a run in which a checkpoint has stored two trades of a minute of which only the first is committed |
| Replay.CountedTwice | internal/kafka/consumer.go:122-142 | if that process fails, the row of the minute is wrong for good once the next one has caught up |
| Runs.Grouping | internal/kline/aggregator.go:126-161 | for trades in any order the completed rows of a kind and then the open one are the folds of the maximal runs with one aligned start |
| Runs.RunsAreMaximal | internal/kline/aggregator.go:147-150 | those runs partition the trades, and no two neighbours belong together |
| Runs.Conservation | internal/model/kline.go:58-65 | absent saturation and count overflow, volume, amount, taker sums and count of the rows of a kind add up to those of the trades |
| Runs.IntervalsAgree | internal/kline/interval.go:12-20 | so all seven kinds agree |
| OutOfOrder.WholeExactly | internal/kline/aggregator.go:147-155 | for trades in any order and every run of the machine within one process, with appends in any order, checkpoints at any time and failing saves of open rows, the table after Close has a window's true row exactly when the window's trades come in one stretch |
| Windows.OrderedContiguous | internal/kline/aggregator.go:147-155 | trades in time order always do |
| Windows.ContiguousSnoc | internal/kline/aggregator.go:145-150 | and with one more trade they do exactly if they did and that trade does not come back to a window that is closed |
| OutOfOrder.LateTradeLoses | internal/kline/aggregator.go:147-155 | a late trade loses trades of its minute, whatever checkpoints come in between: a concrete family |
| Recovery.ReturnsExactly | internal/kline/aggregator.go:131-188 | as locked, recovery ends within nine steps and its caller has returned exactly when no load found a row; otherwise both wait for ever |
| Backfill.MergeOneMKlines | internal/kline/continuity.go:210-251 | the merging loop, with the close taken from the last row, returns the merge of the rows, or nothing for none |
| Backfill.Absorb | internal/kline/continuity.go:233-245 | merging in a row is folding the trades it was folded from, also when sums saturate |
| Backfill.MergeEqualsFold | internal/kline/continuity.go:210-251 | merging a window's minute rows gives, in every field, the row of folding its trades directly |
| Backfill.MergeExactly | internal/kline/continuity.go:191-199 | and merging only some of its minutes gives that row exactly when no minute with trades is left out |
| Tables.Query | internal/repository/kline_repo.go:161-166 | the ranged, ordered, limited selection picks the first rows of the range |
| Tables.SelectFacts | internal/repository/kline_repo.go:161-166 | an answer is ascending, in range, and complete if the limit is not reached |
| Continuity.Scan | internal/kline/continuity.go:168-181 | the backward loop reports the visited windows that are not in the existing set |
| Continuity.MissingExact | internal/kline/continuity.go:173-181 | exactly those |
| Continuity.ScanIsConsecutive | internal/kline/continuity.go:173-181 | the visited windows are distinct and consecutive exactly when that many fit after the epoch |
| Continuity.FewMinutes | internal/kline/continuity.go:191-191 | a window of at most an hour has at most sixty minute rows, so the limit of a thousand never cuts the answer |
| Continuity.RebuiltKinds | internal/kline/continuity.go:108-108 | the kinds that are rebuilt are exactly those of fixed length above the minute and below the day, by name 10m, 30m and 1h |
| Continuity.ContinuityChecker.BackfillWindow | internal/kline/continuity.go:189-206 | a missing window whose stored minutes are complete gets its correct row if it has trades, unless its count has wrapped below zero, and nothing is written if it has none |
| Continuity.ContinuityChecker.CheckAndBackfill | internal/kline/continuity.go:149-208 | if the minutes of the visited windows are stored, a check changes no stored row, adds only correct ones for visited windows, and if no save is refused leaves one for every visited window that has trades; with fewer than 2^31 trades none is |
| Cache.Search | internal/repository/cache.go:71-73 | binary search finds the first row that does not start earlier |
| Cache.UpsertAt | internal/repository/cache.go:74-80 | overwriting or shifting at that place is the upsert |
| Cache.KlineCache.Put | internal/repository/cache.go:55-88 | the stored slice becomes the old one with all rows upserted, trimmed to its newest |
| Cache.KlineCache.Get | internal/repository/cache.go:92-122 | the first `limit` cached rows of the range, all of them for a limit of zero or less, and a miss for none |
| Cache.PutTop | internal/repository/cache.go:70-85 | a put keeps the slice the newest rows of everything put |
| Cache.TopOfEverything | internal/repository/cache.go:55-88 | over any run of puts the slice is the newest rows of the map of everything put, each with its latest value, as if trimmed once at the end |
| Cache.TopUnique | internal/repository/cache.go:83-85 | which determines the slice |
| Cache.CacheKeyInjective | internal/repository/cache.go:43-43 | the text key tells symbol and interval apart |
| Repository.GroupByInterval | internal/repository/kline_repo.go:89-92 | groups the averaged rows by interval, in order |
| Repository.KlineRepo.BatchSave | internal/repository/kline_repo.go:39-98 | a committed batch replaces its rows in the symbol's table and upserts them into the cache; a failed one, also one with a negative count, changes nothing; every cached row stays the stored row, as written or as read back |
| Repository.KlineRepo.Warm | internal/repository/kline_repo.go:89-95 | each group is put once, in any order of the groups |
| Repository.KlineRepo.Query | internal/repository/kline_repo.go:147-207 | hit or miss, the answer is an ascending list of stored rows in the range, as written or as read back; a miss gives the database's answer, read back, and warms the cache; a hit gives it exactly when the cache knows every row of it |
| Repository.KlineRepo.LoadKline | internal/repository/kline_repo.go:101-142 | what a window's row reads back as, or nothing; it is the stored row exactly when none of its decimals is the most negative one |
| Repository.TellsExactly | internal/repository/kline_repo.go:131-139 | a cached row is the stored row itself unless a decimal of it is the most negative one |
| Coupling.CachedExactly | internal/repository/kline_repo.go:83-95 | for every run of commits, reads, puts and expiries that overlap, a cached row is that of the newest commit of its key exactly when no commit of the key comes after the commit or read that its last put carried, and then it tells the stored row |
| Coupling.CacheSinceExpiry | internal/repository/cache.go:55-88 | and the cache is what everything put since it last expired leaves, in the order of the puts |
| Coupling.CallsFresh | internal/repository/kline_repo.go:39-207 | if saves and queries come one after the other, no cached row is ever stale |
| Coupling.LateQueryIsStale | internal/repository/kline_repo.go:201-204 | a run in which a query's late put leaves the cache with the older row and the table with the newer |
| Repository.HitExact | internal/repository/kline_repo.go:151-153 | a hit with a positive limit is the database's answer exactly when the cache knows every row of it |
| Repository.HitComplete | internal/repository/kline_repo.go:151-153 | in particular when it knows every stored row of the range |
| Repository.BatchCurrent | internal/repository/kline_repo.go:67-95 | table and cache keep the same last row of a batch for each key |
| Committer.PartOffsets.HighestContiguous | internal/kafka/consumer.go:74-82 | the loop finds the end of the contiguous stretch |
| Committer.StretchUnique | internal/kafka/consumer.go:72-82 | the one offset up to which everything is pending and after which the next is not |
| Committer.PartOffsets.Flush | internal/kafka/consumer.go:124-142 | commits and forgets what is contiguous, or changes nothing when there is nothing new or the commit fails |
| Committer.Offsets.Complete | internal/kafka/consumer.go:104-114 | a signal becomes pending in its partition, which is created at minus one |
| Committer.Offsets.FlushCommits | internal/kafka/consumer.go:122-144 | each partition is flushed for itself, whatever fails elsewhere |
| Committer.CommitsSafe | internal/kafka/consumer.go:86-144 | in every run a committed offset implies that all offsets from zero to it were processed without error, and the commits of a partition strictly increase |
| Committer.CommittedIsAcked | internal/kafka/consumer.go:122-142 | what the committer holds as committed is what it last committed successfully |
| Committer.FlushForgets | internal/kafka/consumer.go:134-140 | a flush that commits forgets the offsets up to the commit and no others |
| Committer.FlushReachesPrefix | internal/kafka/consumer.go:122-142 | whatever the order, duplicates, drops, failed commits and deletions, a successful flush commits the longest stretch from zero of everything ever signalled |
| Committer.AllAccounted | internal/kafka/consumer.go:166-232 | over every run each fetched message, as often as it was fetched, is on its way, or a worker failed on it, or its signal found the channel of 16384 full, or it has arrived at the committer |
| Committer.FlushReachesProcessed | internal/kafka/consumer.go:226-230 | in a run in which no signal finds the channel full, once the signals have arrived a flush commits the longest stretch from zero of everything that was processed without error |
| Committer.FlushReachesFetched | internal/kafka/consumer.go:210-232 | and if no worker fails either and nothing is on its way, of everything that was fetched |
| Committer.AllCanCommit | internal/kafka/consumer.go:122-232 | which can always come about: after any run without a failure or a drop there are steps after which the longest stretch of what was fetched is committed |
| Committer.LaterFirst | internal/kafka/consumer.go:74-82 | a later message may arrive first; then nothing is committed until the earlier one arrives, and then both are at once |
| Committer.NeverPassed | internal/kafka/consumer.go:226-230 | an offset never signalled is never passed |
| Committer.CommitsFromZero | internal/kafka/consumer.go:108-111 | a partition is ever committed exactly when its offset zero was signalled |
| Deduper.Filter.Seen | internal/kafka/deduper.go:28-35 | reports and records an id |
| Deduper.Filter.Work | internal/kafka/consumer.go:235-246 | one worker, with entries expiring in between, hands on the filtered trades, in order |
| Deduper.HandedAfter | internal/kafka/deduper.go:20-35 | one more event hands on its trade exactly if it is a delivery and no earlier delivery of its id is still remembered; an entry that has expired is not |
| Deduper.HandedExactly | internal/kafka/deduper.go:28-35 | a delivery is handed on exactly when no earlier delivery of its id is still remembered |
| Deduper.RedeliveryInvisible | internal/kafka/deduper.go:28-35 | for one worker, with unique ids and no expiry in between, any redeliveries leave trades, open buckets and completed rows as they were without them |
| Race.TwiceExactly | internal/kafka/deduper.go:28-35 | with several workers and no expiry, as many of them hand an id on as looked it up before it was first recorded, so it is handed on twice exactly when a second lookup precedes the first recording |
| Race.OncePerWorker | internal/kafka/consumer.go:161-164 | that is at most once per worker |
| Race.BothHandOn | internal/kafka/deduper.go:28-35 | and two workers do hand on one redelivered trade |
| Race.PassExactly | internal/kafka/deduper.go:28-35 | with several workers and whatever expires, a worker that looks an id up goes on to hand its trade on exactly when the id was not recorded yet or has expired since |
| Race.HandedInOrder | internal/kafka/consumer.go:235-246 | and trades are handed on in the order in which their ids are recorded |
| Hub.Connection.Subscribe | internal/ws/hub.go:181-189 | the connection is listed under the symbol, and nothing else changes |
| Hub.Connection.Unsubscribe | internal/ws/hub.go:198-208 | and no longer, with empty sets removed |
| Hub.Connection.RemoveConn | internal/ws/hub.go:222-239 | no trace of the connection is left in its writer, and no other's listing is touched |
| Hub.Listing.Delete | internal/ws/hub.go:201-206 | one pair leaves the nested maps |
| Hub.ListedExactly | internal/ws/hub.go:181-248 | in every run, between requests a writer lists its connection under a symbol exactly when it has subscribed; after removal nobody does |
| Hub.ListedAsAsked | internal/ws/hub.go:181-208 | and that is when the last of its requests about the symbol was to subscribe |
| Hub.NoSendOnClosed | internal/ws/hub.go:57-69 | so no writer is ever about to send on a closed channel, in any interleaving |
| FanOut.PipeStep | internal/ws/hub.go:138-176 | each step moves a symbol's trades along, adds the next one, or drops one |
| FanOut.PathStep | internal/ws/hub.go:57-69 | so what a client has been handed, what waits in its channel and what is on its way to it stay in order |
| FanOut.OrderKept | internal/ws/hub.go:57-176 | in every run the trades of a symbol that a client has been handed, followed by those that wait in its channel, are in the order in which they entered the symbol's channel, none twice |
| FanOut.PathKept | internal/ws/hub.go:57-69 | a step drops a trade for a connection only if encoding fails, a queue on its way is full, or it is not listed when the writer takes its lock; any other step keeps the whole path |
| FanOut.AllArrive | internal/ws/hub.go:138-176 | so through any steps that drop nothing for a connection, what its client has been handed, what waits in its channel and what is on its way grow by exactly the trades that entered |
| FanOut.AllCanArrive | internal/ws/hub.go:57-69 | and all of that can arrive: from every state there are steps, none of which drops a trade for the connection, after which a listed connection's client has been handed all of it, in order |
| FanOut.SubscriberServed | internal/ws/hub.go:181-189 | so in every run a connection whose last request was to subscribe can be served completely |
| FanOut.FirstTrade | internal/ws/hub.go:170-189 | beginning with the first trade after it subscribes |
| FanOut.CanLeave | internal/ws/hub.go:198-248 | and a connection can always unsubscribe and leave: no full channel holds up the lock it needs |

## Left out

- Guarantees.Overlay: needs quantities and amounts that are not negative, as do all statements about the machine, and speaks of a window whose trades come in one stretch; `OutOfOrder.WholeExactly` says what remains of others.
- OutOfOrder.WholeExactly: speaks of one process. After a restart a window may be whole although its trades came in several stretches, because recovery takes its stored row up again.
- Shutdown.CloseExact: takes Close as one step: trades that are processed between its two halves or after it are not covered. A save of the cancelled checkpoint that is already committing is taken to land before what Close writes to the same rows, because it holds their locks.
- Rebuilds.BackfillExactly: asks for trades in time order and for minutes that have lost none; the machine has one rebuild of a symbol under way at a time, as the continuity checker has.
- Refinement.RestartCore: Close with a failing save, followed by a new process, is not a step of its own; `Refinement.CrashCore` is the step that saves nothing.
- Replay.FailureExactly: one worker, one symbol in the partition, one failure, and no rebuild, load error or further end of a process after it; the stored row is one that the aggregator wrote, not one that was rebuilt. To `Refinement.CrashCore` trades that are delivered again are new trades.
- Refinement.GatherCore: the continuity checker reads some of the rows that the table then has. A cached row that is older, which `Coupling.LateQueryIsStale` shows, is not among them.
- Repository.KlineRepo.Query: the calls of the class come one after the other; `Coupling` has them overlap, for one symbol and interval.
- Coupling.CachedExactly: a put is one step. In the source it is a Get and a Set of a slice that is shared and changed in place, without a lock, so two puts into one key that overlap may also lose or mix rows.
- Continuity.ContinuityChecker.CheckAndBackfill: asks that all stored rows reflect one history and that nothing comes in between; what may come in between is in `Rebuilds`. Its queries read the table directly, and what a partial answer from the cache does is `Backfill.MergeExactly`.
- Race.TwiceExactly: says nothing of an id that expires during the run; `Race.PassExactly` does, lookup by lookup.
- The most negative decimal is printed as malformed text; what the database makes of it is not known, and the model reads it back as it was written.
- Klines.Kline.Update: creation and update times are readings of the wall clock and are not part of a row.
- Klines leave the buckets as values. The source shares them by reference, so a later trade can still change a row that waits to be saved, and a cached row of an open window is the live bucket; these races are not modelled.
- Times before 1970 and negative quantities: the aligners truncate toward zero there. Weeks, months and years that begin before 1970 and hold later times are covered.
- The narrowing of products beyond 64 bits in `Mul` is covered by an exactness condition, not by a value.
- Symbols whose names differ only in case share a table in the source; the model assumes that they do not occur.
- Kafka, SQL, etcd and WebSocket clients, protobuf and JSON, HTTP handlers, configuration, metrics and logs. A failing call is a flag or a step; the database is a map.
- Leader election: leadership is an input of each step.
- The subscriber totals of the hub, which duplicate requests make inexact.
- The stale-trade alarm, the dirty set, debugging snapshots, table creation, symbol discovery and the gap log of the one-minute check.
- The bound on the channel of fetched messages and the number of workers: a fetch and a take are possible at any time.
- Tickers and times to live: a flush, a checkpoint or an expiry is a step that may come at any time.

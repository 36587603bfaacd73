# chain-data-service: ingestion, storage and query model

A Dafny model of the service that polls Solana for transactions of tracked addresses, batches them through a worker
pool into SQLite, and answers paged queries through a cache. `dafny verify dfyconfig.toml` checks the whole project.

| file | what it models |
|---|---|
| Transactions.dfy | rows, options, and the sequence facts several files need |
| Batching.dfy | `BatchManager` and its locked buffer |
| Pipeline.dfy | the `WorkerPool` and its channel; buffer, channel and workers as one system of atomic steps, and every run of it |
| ManagerLock.dfy | the mutex around the batch manager: what it orders, and what it keeps out |
| Service.dfy | the two objects put together: any calls on them are a run of that system |
| Store.dfy | the two tables, their foreign keys, and the database operations |
| Redelivery.dfy | storing the same transactions again, regrouped or reordered |
| Processor.dfy | one worker's batch: fetch, filter, register, store |
| Ingest.dfy | workers and API requests interleaving on the tables, and every run of that |
| EndToEnd.dfy | pipeline and tables joined: what happens to a transaction from its addition to its row |
| Submission.dfy | `process_transaction_signatures`: feeding the batch manager |
| Sorting.dfy | the order of signatures, sort and dedup |
| Polling.dfy | ten-slot sub-ranges, polling for new transactions, and the limit on an answer's length |
| SlotCursor.dfy | the slot cursor, and whole runs of polling |
| History.dfy | the walk back through one address's history |
| Balances.dfy | inferring a transfer from balance changes |
| Queries.dfy | counts, time order, pages |
| CacheKeys.dfy | cache keys and their text |
| QueryCache.dfy | cached answers beside a growing store, and every run of that |

Conventions. Objects the service updates in place are classes whose methods are proved against functions or relations
on values; the same functions and relations make up the steps of the interleaving systems and of the cache system,
and the main results are about all their runs. The order in which a hash map or set is iterated is arbitrary. Clocks,
RPC answers, storage faults and address validity are parameters, so every result holds for all of them. Fields described
as history exist only to state properties. Amounts are exact reals and inferred amounts are lamports.

Where the service does less than it says, the model follows the code, and the result says exactly when the promise holds:

- The task that flushes on a timer holds the mutex around the batch manager from its start until shutdown, although the
  comments beside it say briefly; meanwhile polling cannot add anything (`CanAddMeaning`, `NothingAdded`), and after it has ended, what is pending stays
  until something more is polled (`CanDeliverMeaning`, with a run in `ShutdownStrands`).
- The flush at shutdown is the gated check (`ShutdownFlush`, with a run that leaves a transaction behind).
- A polling round reports success even when the tracked addresses could not be read or every call failed, so the cursor
  can pass slots nobody looked at (`EverySlotLookedAt`, with a run in `FailedCallsPassed`).
- A poll asks for an address's newest hundred entries only, and the cursor passes what was cut off, unless another
  tracked address shows it (`AnswerComplete`, `PollReaches`, with inputs in `OldestMissed` and `OldestShared`).
- In a build without overflow checks the end of the last ten-slot piece can wrap (`SubRangesPartition`, with an input);
  a build with checks stops with a panic whenever the last piece starts within ten slots of 2^64.
- The historical walk drops a page whose last entry is too old, and with it up to 49 entries that are not
  (`AllInAgeSubmitted`, with an input in `FortyNineLeftOut`); an entry without a time counts as too old
  (`MissingTimeStops`).
- Balance changes are computed in 64 bits, so a change of 2^63 or more is misread (`ScanFindsExtremes`, `ScanCanWrap`).
- Rows with equal block times come in any order, so two requests may disagree about a page boundary (`SafeSplit`, with
  an input in `TiedSplitRepeats`).
- The per-entry time to live is only logged, nothing invalidates the cache when rows are stored, and the cache is built
  without the support predicate invalidation needs (`BoundedStaleness`, `HitCanBeStale`, `WithoutInvalidation`).

## Model

| member | source | states |
|---|---|---|
| Batching.BatchManager.CollectForFlush | src/blockchain/batch_manager.rs:99-112 | draining yields every pending list once, for some order of the addresses, and resets buffer, counter and flush time |
| Batching.BatchManager.AddTransaction | src/blockchain/batch_manager.rs:60-96 | an added transaction goes behind its address's others; when the counter reaches max_batch_size or the interval has passed, everything pending and it go out as one batch and buffer, counter and flush time are reset; otherwise nothing else changes |
| Batching.BatchManager.PerformFlushCheck | src/blockchain/batch_manager.rs:152-180 | the timer's check sends everything pending out as one batch exactly when something is pending and the counter has reached max_batch_size or the interval has passed; otherwise nothing changes |
| Batching.BatchManager.ForceFlush | src/blockchain/batch_manager.rs:183-192 | afterwards everything ever added has been handed out as batches |
| Batching.DrainsAll | src/blockchain/batch_manager.rs:103-105 | any drain order yields exactly the pending transactions, with multiplicity |
| Batching.DrainsInOrder | src/blockchain/batch_manager.rs:103-105 | in any drain order, one address's transactions come out complete and in the order they were added |
| Batching.FilledWellFormed | src/blockchain/batch_manager.rs:70-86 | the counter equals the pending total, entries sit under their source, and no batch exceeds max(1, max_batch_size) |
| Batching.ShutdownFlush | src/blockchain/batch_manager.rs:142-146 | the check at shutdown leaves nothing pending exactly when the buffer was empty, the counter had reached max_batch_size or the interval had passed |
| Batching.ShutdownFlushCanLeave | src/blockchain/batch_manager.rs:142-146 | a shutdown that leaves a transaction in the buffer |
| Pipeline.WorkerPool.constructor | src/blockchain/worker_pool.rs:24-46 | a new pool has an empty channel and that many workers, all idle |
| Pipeline.SendKeeps | src/blockchain/batch_manager.rs:115-128 | a send puts exactly its batch into the pool, lost if no worker is left, keeping the capacity and the order of the channel |
| Pipeline.ReceiveKeeps | src/blockchain/worker_pool.rs:86-95 | a receive moves the oldest batch into one worker's hands and neither loses nor copies any |
| Pipeline.FinishKeeps | src/blockchain/worker_pool.rs:97-99 | a finished batch leaves its worker's hands once; the pool still accounts for the same batches |
| Pipeline.LeaveKeeps | src/blockchain/worker_pool.rs:30-33 | an ending worker, with the queue if it is the last, loses batches only into the account of lost ones |
| Pipeline.WorkersShare | src/blockchain/worker_pool.rs:28-39 | min(n, worker_count) of n queued batches can be in the hands of as many different workers at once |
| Pipeline.Conservation | src/blockchain/batch_manager.rs:60-128 | in every run, the multiset ever added is pending + unsent + queued + in hand + finished + lost |
| Pipeline.OnePlace | src/blockchain/worker_pool.rs:82-103 | in every run, a batch is in one place only: never with two workers, never processed twice |
| Pipeline.PerAddressOrder | src/blockchain/batch_manager.rs:70-112 | in every run, the batches restricted to an address, then what is pending, are its additions in order |
| Pipeline.FirstInFirstOut | src/blockchain/worker_pool.rs:25-26 | in every run, workers have taken a prefix of what was sent, and the channel holds the rest in order |
| Pipeline.Bounds | src/blockchain/worker_pool.rs:25 | in every run, batches have 1 to max(1, max_batch_size) items and the channel at most 1000 times that |
| Pipeline.NotStuck | src/blockchain/batch_manager.rs:152-180 | a state with undelivered work has an enabled step that moves it along, by the timer's check alone once the interval has passed, or by forced flushes; with a full channel and without workers too |
| Pipeline.QuietDecreases | src/blockchain/worker_pool.rs:82-103 | while nothing is added, no step raises the measure of remaining work, every delivering one, a collecting check included, lowers it, and nothing is lost while a worker lives |
| Pipeline.EverySchedulingDrains | src/blockchain/batch_manager.rs:130-192 | in every schedule, with timer checks anywhere, work moves a bounded number of times; when the timer, or a flush, has nothing left to move, everything not lost before is finished |
| Pipeline.EveryRunDrains | src/blockchain/batch_manager.rs:130-192 | the same from any moment of any run, and a schedule that drains exists by the timer alone and by forced flushes alone |
| ManagerLock.RunsPipeline | src/blockchain/polling.rs:39-56 | with the mutex around the batch manager the service still makes runs of the pipeline, so all safety results about those hold |
| ManagerLock.WorkersInOrder | src/blockchain/polling.rs:404-412 | since the mutex is held over the send, at most one batch is on its way, and workers take each address's transactions in the order they were added |
| ManagerLock.SendsCanCross | src/blockchain/batch_manager.rs:90-128 | without the mutex, a run in which two batches reach the channel in the other order |
| ManagerLock.NothingAdded | src/blockchain/polling.rs:47-54 | while the flushing task holds the mutex and no shutdown comes, no run adds anything |
| ManagerLock.CanAddMeaning | src/blockchain/polling.rs:47-54 | from any moment of any run, something can be added before a shutdown exactly when the flushing task does not hold the mutex, or shutdown was signalled |
| ManagerLock.CanDeliverMeaning | src/blockchain/batch_manager.rs:130-150 | from any moment of any run, without more polling, everything can be delivered exactly when nothing is pending, the flushing task has not ended, or a polling task holds the mutex and has yet to add |
| ManagerLock.ShutdownStrands | src/blockchain/batch_manager.rs:142-146 | a run after which a pending transaction can no longer be delivered: the last check comes before a flush is due |
| ManagerLock.FlushingDrains | src/blockchain/batch_manager.rs:130-180 | while the flushing task runs and nothing is added, every schedule moves work a bounded number of times, and when none is left everything not lost before is finished |
| Service.IngestService.constructor | src/blockchain/polling.rs:28-41 | the objects as polling sets them up are the start of a pipeline run |
| Service.IngestService.Add | src/blockchain/batch_manager.rs:60-96 | what the call does to the objects is the next step of the same run |
| Service.IngestService.Check | src/blockchain/batch_manager.rs:152-180 | the timer's check on the objects is the next step of the same run |
| Service.IngestService.Send | src/blockchain/batch_manager.rs:115-128 | handing a collected batch to the channel is the next step of the same run |
| Service.IngestService.Perform | src/blockchain/batch_manager.rs:60-192 | each request that can go on appends its step to the run: a send while the channel holds less than 1000 or nobody receives, a receive by an idle worker of a non-empty channel, a finish by a busy one |
| Service.Serve | src/blockchain/polling.rs:28-58 | after any sequence of calls the objects account for everything added, each address's batches in the order of its additions |
| Store.InsertAllMeaning | src/db/transaction.rs:10-33 | a batch is accepted exactly when each row really inserted has tracked endpoints; then the first row of a signature wins and stored rows stay |
| Store.KeysMeaning | src/db/mod.rs:23-24 | a batch meets the foreign keys exactly when source and, if present, destination of each row really inserted are tracked |
| Store.Database.AddTransactions | src/db/transaction.rs:6-39 | commits exactly when each row really inserted has tracked endpoints and neither a statement nor the commit fails; any failure leaves both tables unchanged |
| Store.Database.AddAddress | src/db/address.rs:13-37 | tracks a valid address, refreshing its time; an invalid one or a fault changes nothing |
| Store.Database.RemoveAddress | src/db/address.rs:39-49 | removes a tracked address no row mentions; reports an untracked one; refuses one still mentioned; a fault changes nothing |
| Store.RemoveUndoesAdd | src/db/address.rs:13-49 | removing a newly added address restores the tables; one that some row mentions stays |
| Store.CommitKeeps | src/db/mod.rs:23-24 | a commit, or a rolled-back one, keeps every row's endpoints tracked and every stored row unchanged |
| Store.RemoveKeeps | src/db/address.rs:39-49 | a removal, successful or refused, keeps every row's endpoints tracked |
| Redelivery.DeliverAllHolds | src/db/transaction.rs:6-39 | after any deliveries the table is the old one, unchanged, plus exactly the transactions that landed |
| Redelivery.SameTables | src/db/transaction.rs:10-36 | if rows are functions of their signatures and endpoints are registered, the tables depend only on which transactions landed: regrouping, reordering and repetition change nothing |
| Redelivery.OrderMattersOnlyOnDisagreement | src/db/transaction.rs:15-20 | two deliveries commute exactly when they do not disagree about one signature |
| Processor.ProcessTransactionBatch | src/blockchain/processor.rs:13-96 | fetch and filter in chunks, register endpoints in any order, store; the tables and the reported count |
| Processor.RegisterEndpoints | src/blockchain/processor.rs:72-81 | in whatever order, exactly the valid endpoints storage does not refuse become tracked, with the current time, one failure not stopping the rest |
| Processor.RelevantMeaning | src/blockchain/processor.rs:99-113 | a transaction is kept exactly when it was extracted and has an endpoint in the snapshot |
| Processor.RelevantOrder | src/blockchain/processor.rs:28-55 | what is kept are the answers with an endpoint in the snapshot, in the order of the answers, each once |
| Processor.BatchCommits | src/blockchain/processor.rs:57-92 | a batch is stored whole exactly when storage holds and every row really inserted has registrable endpoints; otherwise no row changes and zero is reported; what could be registered stays either way |
| Processor.BatchSucceeds | src/blockchain/processor.rs:28-95 | if the endpoints of relevant transactions can be registered, every extracted relevant signature is stored and the count is right |
| Processor.ReprocessingKeeps | src/blockchain/processor.rs:57-92 | processing stored transactions again keeps the rows and the set of tracked addresses, refreshing only times |
| Processor.RedeliveryKeeps | src/blockchain/processor.rs:57-92 | whatever a committed batch stored, processing it once more leaves the same rows and addresses |
| Ingest.ReferentialIntegrity | src/db/mod.rs:23-24 | under any interleaving of API requests and workers, every stored row's endpoints are tracked and stored rows never change |
| Ingest.RemovalSucceeds | src/db/address.rs:39-49 | at any moment, a removal leaves an address untracked exactly when no stored row mentions it |
| Ingest.TrackingReachable | src/blockchain/processor.rs:36-81 | tracked addresses and stored endpoints are joined to initially tracked or API-added ones by paths of observed transactions, despite stale snapshots and removals |
| Ingest.InsertCommits | src/blockchain/worker_pool.rs:112-136 | a job whose registrations succeeded and were not undone by others commits its batch |
| Ingest.UninterruptedJob | src/blockchain/worker_pool.rs:112-136 | when nobody interferes, one job's interleaved steps change the tables exactly as the sequential function does, whatever the registration order |
| EndToEnd.FinishedStored | src/blockchain/worker_pool.rs:105-140 | at any moment of any run, what a finished batch's call fetched and found relevant is stored, if every endpoint was registered and still was at the insert and storage did not fail |
| EndToEnd.DeliveredStored | src/blockchain/worker_pool.rs:82-140 | once nothing is left to deliver and nothing was lost, every transaction ever added is in a batch whose call returned, and is stored if that call met no failure and found it relevant |
| EndToEnd.StoredWasAdded | src/blockchain/worker_pool.rs:121-131 | every row not there at the start carries the signature of a transaction that was added to the batch manager |
| EndToEnd.CanStore | src/blockchain/worker_pool.rs:105-140 | from any moment of any run, a batch just taken can be finished by a call without failures, which stores whatever it fetched that touches the addresses tracked then |
| Submission.ProcessTransactionSignatures | src/blockchain/polling.rs:365-420 | what is added to the manager is what fetching gave for exactly the positions of the list that could be fetched, in order, and the count is their number |
| Submission.ExtractedAllMeaning | src/blockchain/polling.rs:377-412 | over several lists, everything that could be fetched is handed over, list by list and in order, each place once |
| Sorting.DedupDistinct | src/blockchain/polling.rs:344-346 | removing neighbouring repetitions from a sorted list leaves each element once |
| Sorting.SortSorted | src/blockchain/polling.rs:345 | sorting orders the signatures and keeps their set |
| Sorting.LeqMeaning | src/blockchain/polling.rs:345 | the order is that of the dictionary: a prefix first, otherwise the first different character decides |
| Polling.PollSubRange | src/blockchain/polling.rs:311-346 | a sub-range yields exactly the signatures some successful call reported in it, whatever other calls did, sorted, each once |
| Polling.PollNewTransactions | src/blockchain/polling.rs:275-362 | the lists submitted belong to the sub-ranges that found something, in order; every listed signature that can be fetched is in the manager, and the count is what was added; nothing is submitted, with success, if the addresses cannot be read |
| Polling.SubmitsMeaning | src/blockchain/polling.rs:308-355 | each list holds exactly what some successful call reported in its sub-range, sorted and once |
| Polling.SubRangesPartition | src/blockchain/polling.rs:304-309 | the stepped ranges cut the slots into consecutive pieces of at most ten exactly when the last end does not wrap |
| Polling.SubRangesCanMiss | src/blockchain/polling.rs:309 | an input whose slot is missed |
| Polling.SubRangesRefineOneFilter | src/blockchain/polling.rs:308-355 | against a fixed node, each signature in the range is submitted exactly once, as one filter over the whole range would |
| Polling.AnswerComplete | src/blockchain/polling.rs:315-331 | the newest hundred entries hold all those of a range exactly when at most a hundred are as new as its start, or none is in it |
| Polling.PollReaches | src/blockchain/polling.rs:304-346 | a poll submits every signature of the range exactly when each entry too old for its address's answer is among the newest hundred of some tracked address; histories may share transactions |
| Polling.SeparatePollReaches | src/blockchain/polling.rs:304-346 | when no tracked addresses share a transaction, it does exactly when every tracked address has at most a hundred entries from the start of the range on, or none in it |
| Polling.OldestMissed | src/blockchain/polling.rs:315-320 | a hundred and one entries in one slot, the oldest of which is missed |
| Polling.NewestFound | src/blockchain/polling.rs:315-331 | the newest hundred entries of a tracked address are always found |
| Polling.OldestShared | src/blockchain/polling.rs:311-331 | the same entry is found when another tracked address has it as its only one |
| SlotCursor.PollingLoop | src/blockchain/polling.rs:104-149 | exactly the ticks that see a later slot move the cursor, each to that slot, whatever failed in the round; each round polls and feeds the manager |
| SlotCursor.CursorCovers | src/blockchain/polling.rs:104-149 | for all answers and failures the cursor never goes back, and reported ranges cover everything passed, sharing only endpoints |
| SlotCursor.EverySlotLookedAt | src/blockchain/polling.rs:286-338 | the cursor leaves no slot behind for an address exactly when it was read, every call about it succeeded and no end wrapped, up to endpoints the neighbouring rounds make up for |
| SlotCursor.FailedCallsPassed | src/blockchain/polling.rs:334-337 | a run that passes slots while every call fails |
| SlotCursor.LookedAtSubmitted | src/blockchain/polling.rs:313-338 | over any run with any failures, a round submits a signature exactly when a successful call of it showed it in its sub-range; so whatever is reported for a slot looked at is submitted |
| SlotCursor.CleanRunSubmitsAll | src/blockchain/polling.rs:104-362 | over a whole run without failures each round submits exactly what is reported in its range, once; nothing passed is missed, and only a signature in a shared slot is submitted by two rounds, which follow each other |
| History.ProcessHistoricalAddress | src/blockchain/polling.rs:188-272 | the loop ends and submits exactly the pages of the walk |
| History.WalkMeaning | src/blockchain/polling.rs:211-269 | whatever the node answers, each page is what its answer has that no page before had, in order, under the cursor of the last answer; the walk goes on after full answers only and stops at a failed, empty, too old or stale one |
| History.PagesDisjoint | src/blockchain/polling.rs:211-269 | whatever the node answers, no signature is submitted in two pages and there are at most as many pages as signatures |
| History.WalkSubmitsPrefix | src/blockchain/polling.rs:211-269 | against any newest-first history, with or without times, whole pages of a prefix are submitted, up to the first page that ends too old |
| History.StopMeaning | src/blockchain/polling.rs:234-241 | the walk stops at the first page boundary whose page ends too old or without a time, or at the end |
| History.TimedStop | src/blockchain/polling.rs:229-241 | with all times known, what is submitted is all in age and at most 49 in-age entries are left out |
| History.MissingTimeStops | src/blockchain/polling.rs:229-241 | an entry without a time at the end of the first page ends the walk, whatever is in age |
| History.FortyNineLeftOut | src/blockchain/polling.rs:234-241 | a history of fifty with 49 in age of which nothing is submitted |
| History.AllInAgeSubmitted | src/blockchain/polling.rs:234-241 | no entry at most 7,776,000 seconds old is left out exactly when all entries are in age or their number is a multiple of 50 |
| Balances.ScanFindsExtremes | src/blockchain/models.rs:161-175 | for all balances, the scan finds the first largest gain and the first largest loss exactly when every change is below 2^63 |
| Balances.SmallBalances | src/blockchain/models.rs:161-175 | in particular it does whenever all balances are below 2^63 |
| Balances.ScanCanWrap | src/blockchain/models.rs:167 | a change of 2^63 on which the scan fails: the gain is taken for a loss |
| Balances.InferTransfer | src/blockchain/models.rs:159-184 | the loop computes the inference, in 64-bit arithmetic, for all inputs |
| Balances.InferenceMeaning | src/blockchain/models.rs:177-183 | if the changes sum to at most zero and each is below 2^63, a transfer is inferred exactly when some account gained and the gainer is listed; it names the first largest gain; lists may differ in length |
| Balances.InferenceExact | src/blockchain/models.rs:177-183 | for all balances with changes below 2^63, a transfer is inferred exactly when some account lost and the first largest gainer is listed; it names that account and gain |
| Balances.InferenceOfTotals | src/blockchain/models.rs:177-183 | the same for lists of one length whose total did not grow, as after paying a fee |
| Queries.CountIsLength | src/db/transaction.rs:62-70 | the total count is the number of rows the pages range over |
| Queries.MatchesMeaning | src/db/transaction.rs:62-82 | a row answers a query about each of its endpoints over every window holding its block time, and no other |
| Queries.InsertedIsFound | src/db/transaction.rs:62-82 | a row a batch really inserts is in the pages put together exactly for its endpoints and the windows that hold its time, and only once |
| Queries.PageLength | src/db/transaction.rs:73-89 | for all integers, a page starts at max(0, offset) and has min(limit, rest) rows, the whole rest if limit is negative |
| Queries.PagesConcatenate | src/db/transaction.rs:79-80 | for one tie order, consecutive pages concatenate to exactly the ordered rows |
| Queries.CountsAdd | src/db/transaction.rs:112-133 | counts over adjacent windows add up |
| Queries.SafeSplit | src/db/transaction.rs:79-80 | a page boundary is the same for all tie orders exactly when no equal block times lie across it |
| Queries.TiedSplitRepeats | src/db/transaction.rs:79-80 | two pages of a tied table that repeat one row and lose the other |
| Queries.SomeOrder | src/db/transaction.rs:79-80 | every table has an order the query may return |
| CacheKeys.ParseDisplay | src/cache/keys.rs:53-63 | a right-to-left parser undoes the text form, for every address and all integers |
| CacheKeys.DisplayExamples | src/cache/keys.rs:53-63 | the texts of two keys, written out |
| CacheKeys.DisplayInjective | src/cache/keys.rs:53-63 | keys with the same text are equal |
| QueryCache.TransactionCacheManager.constructor | src/cache/transaction.rs:20-30 | a new cache is empty and lacks support for predicate invalidation |
| QueryCache.AddedMatches | src/db/transaction.rs:10-33 | a batch adds to a query exactly the rows it really inserts that match; none exactly when no first occurrence matches |
| QueryCache.TransactionCacheManager.Insert | src/cache/transaction.rs:44-55 | stores the answer; the time to live passed in has no effect |
| QueryCache.TransactionCacheManager.InvalidateForAddress | src/cache/transaction.rs:58-71 | removes exactly the address's entries if the cache supports it, else nothing |
| QueryCache.TransactionCacheManager.GetTransactions | src/db/transaction.rs:41-110 | an entry younger than the default time to live answers; otherwise the count is the number of rows with the address at either end in the window, the page holds such rows, oldest first, and the answer is kept |
| QueryCache.BoundedStaleness | src/db/transaction.rs:50-109 | in every run, a hit is younger than the time to live, its count and page come from nested earlier tables, its rows are still stored, and the whole answer is one of the current tables exactly when no matching row was added since the count |
| QueryCache.PagingGoesOn | src/db/transaction.rs:73-90 | in every run, a reader that has counted can go on to its page |
| QueryCache.KeptForTtl | src/db/transaction.rs:106-109 | what a query read is kept under its key and served for exactly the default time to live |
| QueryCache.HitCanBeStale | src/db/transaction.rs:55-58 | a run that serves an answer missing a committed row |
| QueryCache.InsertFrame | src/db/transaction.rs:62-90 | storing a batch changes the matching rows of no address outside it |
| QueryCache.InvalidationRestores | src/cache/transaction.rs:58-71 | removing the batch's addresses from an exact cache makes it exact again |
| QueryCache.WithoutInvalidation | src/cache/transaction.rs:20-30 | as built, the cache stays exact exactly when no row the batch really inserts matches a cached query |

## Left out

- The RPC client, its rate limiter and retries: its answers are arbitrary, with an ordered history only where stated.
- HTTP routing, response bodies and error mapping; base58 decoding, which is an arbitrary predicate on addresses.
- SQL text, indices, write-ahead logging and migrations: only the tables, keys and query meaning are modelled.
- Floating-point rounding of amounts, and reading the destination out of parsed instructions.
- The cache library's eviction policy: any entries may go at any time.
- Fairness among tasks waiting for the mutex: any of them may be next.
- The second batch manager and worker pool in src/main.rs, which nothing feeds; shutdown timeouts and configuration.
- `AddressCacheManager`, `batch_transactions` and `get_ttl_for_time_range`, which have no effect on the behaviour above; `is_address_tracked`, a plain lookup.
- The worker's receive loop is a step of the pipeline system and not a loop of its own, since it interleaves with the other workers.
- Pipeline.EveryRunDrains: finished means that the worker's call returned, since `process_batch` drops what it cannot fetch, filter or store; EndToEnd.DeliveredStored and Processor.BatchCommits say when it stores.
- History.ProcessHistoricalAddress: signatures come from a finite set, without which the loop need not end; the age difference does not overflow 64 bits.
- Balances.InferTransfer: arithmetic wraps, as in a build without overflow checks; a build with checks stops where the subtraction would wrap.
- SlotCursor.CleanRunSubmitsAll: of the slots of a round, the node reports what it will ever report of them; entries that appear late under an old slot are not covered.
- Polling.PollReaches: the answer cut to a hundred entries is assumed to stay the same throughout one poll.

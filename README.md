# Transaction sync engine: a verified Dafny model

The system pulls transaction records from a paginated, rate-limited
transaction source and stores them in a ledger keyed by `transactionId`.
It then answers two read queries over the ledger: one user's aggregate
(earned, spent, payout, balance, paid out) and the list of requested
payouts per user. It does this in two ways:

- **Queue-based sync.**
  - A once-a-minute scheduler adds one parent job for the window from the persisted watermark up to now.
  - The parent job probes page 1 to learn how many pages the window has, then adds one page job for each page.
  - Each page job fetches its page through the rate-limited source and stores the items. Ids that are already stored are skipped.
- **In-process sync.** An older service does the sync itself. It has a single-flight flag and a watermark held in memory. It fetches only page 1 from a fixed eight-transaction source.

Modules, one per part of the program:

| module | file | models |
|---|---|---|
| `Types` | types.dfy | the transaction item, the ledger row, the read models, the page metadata |
| `RateLimit` | rate_limiter.dfy | `RedisService.checkRateLimit`, the sliding-window log |
| `Pagination` | pagination.dfy | the filter, slice and metadata shared by both mock sources |
| `MockApi` | mock_api.dfy | the rate-limited mock source |
| `LegacyMockApi` | legacy_mock_api.dfy | the in-process mock source with eight fixed transactions |
| `LedgerStore` | ledger.dfy | the ledger, the unordered `insertMany` with duplicate suppression, and the store step both syncs share |
| `Aggregation` | aggregation.dfy | the two aggregation pipelines; both aggregator services run the same ones |
| `Jobs` | jobs.dfy | job names, payloads and options, and the queue as the record of the jobs added to it |
| `SyncProcessor` | sync_processor.dfy | the queue processor: the parent handler and the page handler |
| `SyncScheduler` | sync_scheduler.dfy | the scheduler and the sync-state store |
| `LegacyAggregator` | legacy_aggregator.dfy | the in-process aggregator service |

Conventions:

- Timestamps are epoch milliseconds (`nat`).
- Amounts are `real`.
- An exception becomes the `Err` of a `Result`.
- The outside world of each step is a parameter:
  - the clock reading (`now`);
  - which Redis command throws (`StoreFault`);
  - whether the ledger store fails (`writeFault`);
  - whether the queue rejects an add;
  - which step of a scheduler tick fails (`TickFault`).

## Where the code differs from its design description

The model follows the code.

- **Rate limiter admission bound.** A sliding-window limiter is meant to admit at most L requests in any W seconds. The code stores each request under the decimal string of its millisecond timestamp. Checks in the same millisecond therefore collapse into one entry and are all admitted (`RateLimit.BurstAllAdmitted`). The bound holds only for pairwise distinct request times (`RateLimit.AdmissionBound`).
- **Fan-out pages.** A probe of page 1 that learns N would be followed by page jobs for pages 2..N only. The code adds page jobs for pages 1..N, so page 1 is fetched twice (`SyncProcessor.PageOneFetchedTwice`). A window with N pages costs 1 + N source calls, and the probe's items are not stored.
- **Scheduler watermark.** A watermark would normally move once its window is stored. The scheduler moves it as soon as the parent job has been added, not when the job completes. A job that finally fails leaves its window behind for good. The watermark is `now`, so it only moves forward when the clock does.
- **Skipped in-process sync.** A single-flight flag is meant to be cleared by every run. A skipped in-process sync (flag already set) returns before the `try`. It leaves the flag set, for the run that set it to clear.

## Model

| member | source | states |
|---|---|---|
| RateLimit.Prune | src/modules/core/services/redis.service.ts:57-58 | removes exactly the scores in [0, windowStart]: the result is a subset of the log, every entry left is above windowStart, and every entry above it stays |
| RateLimit.Recorded | src/modules/core/services/redis.service.ts:54-58 | after the add and the prune the log holds `now` (for W > 0); every entry is above now − W·1000; every entry is an old one or `now`; old entries inside the window survive |
| RateLimit.Decide | src/modules/core/services/redis.service.ts:61-67 | allowed iff count ≤ limit; remaining is max(0, limit − count): exactly limit − count when count ≤ limit, and 0 on a denial; so 0 ≤ remaining ≤ limit |
| RateLimit.LogsAfterCheck | src/modules/core/services/redis.service.ts:53-64 | a check leaves every other key's log unchanged; unless the add threw, the key's log holds `now` |
| RateLimit.RateLimiter.CheckRateLimit | src/modules/core/services/redis.service.ts:45-82 | the answer is the decision on the post-insert, post-prune count of the key's log, or exactly (true, 1) when any command throws; the logs become those added-then-pruned, up to the failing command; the expiry is set only when every command ran |
| RateLimit.LogAfterIsWindow | src/modules/core/services/redis.service.ts:50-61 | with a clock that does not go back, a key's log after a run of checks is exactly the run's request times inside the last check's window |
| RateLimit.AdmissionBound | src/modules/core/services/redis.service.ts:55-67 | with pairwise distinct, increasing request times, no trailing window of W seconds holds more than L admitted requests |
| RateLimit.SameMillisecondBurst | src/modules/core/services/redis.service.ts:55 | any number of checks in one millisecond leave one entry in the log |
| RateLimit.BurstAllAdmitted | src/modules/core/services/redis.service.ts:55-67 | every check of a same-millisecond burst is admitted with L − 1 remaining: the bound needs distinct times |
| RateLimit.SixRapidChecks | src/modules/core/services/redis.service.ts:55-67 | six checks one second apart on a fresh key with L = 5 and W = 60 answer (true,4), (true,3), (true,2), (true,1), (true,0), (false,0), and the denied check is still recorded |
| Pagination.Filter | src/modules/api-integration/services/mock-transaction-api.service.ts:103-106 | the filter keeps exactly the stored items with start ≤ createdAt ≤ end, both bounds inclusive |
| Pagination.FilterAppend | src/services/mock-transaction-api.service.ts:82-85 | the filter of a concatenation is the concatenation of the filters: stored order is kept |
| Pagination.JsSlice | src/modules/api-integration/services/mock-transaction-api.service.ts:108-113 | `Array.prototype.slice` with clamped and negative indices; for 0 ≤ start ≤ end it is the clamped subsequence, of length at most end − start |
| Pagination.CeilDiv | src/modules/api-integration/services/mock-transaction-api.service.ts:121 | `Math.ceil(n / limit)`: the least r with n ≤ r·limit, which is 0 exactly when n is 0 |
| Pagination.GetPage | src/modules/api-integration/services/mock-transaction-api.service.ts:100-122 | the items lie in the window and come from the stored list; for page ≥ 1 they are the slice [(page−1)·limit, page·limit) of the filtered list, so at most limit; totalItems, itemCount, itemsPerPage, currentPage and totalPages = ceil(totalItems/limit) are as the source reports them; a page past totalPages is empty; pages before the last are full |
| Pagination.PagesArePrefix | src/modules/api-integration/services/mock-transaction-api.service.ts:108-113 | pages 1..k concatenated are the first k·limit filtered items, in order, with no gap and no overlap |
| Pagination.PaginationComplete | src/modules/api-integration/services/mock-transaction-api.service.ts:108-121 | pages 1..totalPages concatenate to the filtered list, and every later page is empty |
| Pagination.ItemOnPage | src/services/mock-transaction-api.service.ts:87-100 | the i-th filtered item is on page i / limit + 1, which lies between 1 and totalPages |
| MockApi.Answer | src/modules/api-integration/services/mock-transaction-api.service.ts:84-129 | the call fails iff the limiter denied it; the failure is a 429 with 60 remaining seconds; a success carries the page and its metadata plus the rate-limit block (5, the limiter's remaining, 60) |
| MockApi.MockTransactionApi.GetTransactions | src/modules/api-integration/services/mock-transaction-api.service.ts:67-130 | each call makes one limiter check under the fixed key "mock-api:rate-limit" with 5 requests per 60 seconds; its answer is `Answer` for that check's decision; the limiter state changes as the check does |
| MockApi.SixCallsInOneMinute | src/modules/api-integration/services/mock-transaction-api.service.ts:75-127 | on a fresh limiter, five calls within a minute succeed with 4, 3, 2, 1, 0 remaining, and the sixth is rejected with 429 |
| LegacyMockApi.GetTransactions | src/services/mock-transaction-api.service.ts:70-104 | over the eight fixed transactions: for page ≥ 1 the items are the page's slice of the filtered list, so in the inclusive window and at most limit; totalItems is the filtered count (at most 8); itemsPerPage = limit, currentPage = page; no pages exactly when no match; no rate-limit block |
| LegacyMockApi.FirstPageIsWhole | src/services/mock-transaction-api.service.ts:70-92 | with the default page 1 and limit 1000 a call returns the whole filtered list |
| LegacyMockApi.FilterKeepsAll | src/services/mock-transaction-api.service.ts:82-85 | a window holding every stored item filters nothing out |
| LegacyMockApi.WindowQuery | src/services/mock-transaction-api.service.spec.ts:20-33 | the window 2023-03-14T00:00:00.000Z to 2023-03-16T23:59:59.999Z returns stored items 0, 2, 3, 4, 5 in stored order, on one page |
| LegacyMockApi.FirstPageOfMarch | src/services/mock-transaction-api.service.spec.ts:35-51 | for March 2023 with page 1 and limit 2 the page holds the first two stored items, totalItems is 8 and totalPages is 4 |
| LedgerStore.ToRecord | src/modules/sync/processors/transaction-sync.processor.ts:151-157 | the row takes transactionId from the item's id and copies userId, createdAt, type and amount |
| LedgerStore.ToRecords | src/modules/sync/processors/transaction-sync.processor.ts:151-157 | the mapping is element-wise and keeps length and order |
| LedgerStore.ToRecordsAppend | src/services/transaction-aggregator.service.ts:50-56 | mapping a concatenation is concatenating the mappings |
| LedgerStore.NewRecords | src/modules/sync/processors/transaction-sync.processor.ts:160-161 | the records an unordered insert writes are drawn from the batch and are at most as many; the lemmas below say which |
| LedgerStore.NewRecordsAreNew | src/modules/sync/processors/transaction-sync.processor.ts:160-161 | every record an insert adds is from the batch and has an id the ledger did not hold |
| LedgerStore.NewRecordsIds | src/modules/sync/processors/transaction-sync.processor.ts:160-161 | after the insert the ledger's ids are its old ids plus all of the batch's ids: every new id is stored |
| LedgerStore.NewRecordsUnique | src/modules/transaction/schemas/transaction.schema.ts:9 | an insert keeps transactionId unique in the ledger |
| LedgerStore.InsertAgainAddsNothing | src/services/transaction-aggregator.service.ts:59-69 | inserting the same batch a second time adds no row |
| LedgerStore.NoneNew | src/services/transaction-aggregator.service.ts:59-69 | a batch whose ids are all stored adds nothing |
| LedgerStore.NewRecordsAppend | src/modules/sync/processors/transaction-sync.processor.ts:160-161 | inserting a + b in one batch adds what inserting a and then b adds |
| LedgerStore.AllNew | src/modules/sync/processors/transaction-sync.processor.ts:160-161 | a batch of pairwise distinct ids the ledger does not hold is added whole |
| LedgerStore.Ledger.InsertMany | src/modules/sync/processors/transaction-sync.processor.ts:160-161 | with no storage fault every batch record with a new id is appended, and error 11000 is reported iff a record was skipped; a storage fault writes nothing and is reported; ids stay unique |
| LedgerStore.StoreItems | src/modules/sync/processors/transaction-sync.processor.ts:150-177 | an empty page performs no insert; a non-empty one is mapped and inserted; error 11000 is swallowed and any other error is passed on with the ledger unchanged; success leaves exactly the new-id records appended |
| Aggregation.StrLessIrreflexive | src/modules/transaction/services/transaction-aggregator.service.ts:112 | the userId order is irreflexive |
| Aggregation.StrLessTransitive | src/modules/transaction/services/transaction-aggregator.service.ts:112 | the userId order is transitive |
| Aggregation.StrLessTotal | src/modules/transaction/services/transaction-aggregator.service.ts:112 | any two distinct userIds are ordered one way or the other |
| Aggregation.StrLess | src/modules/transaction/services/transaction-aggregator.service.ts:112 | the `$sort` order on userIds: a string never sorts before itself, and a proper prefix sorts first |
| Aggregation.GroupSums | src/modules/transaction/services/transaction-aggregator.service.ts:27-59 | the `$match`/`$group` fold gives, per kind, the sum of the user's amounts of that kind |
| Aggregation.AggregatedDataByUserId | src/modules/transaction/services/transaction-aggregator.service.ts:23-92 | the returned userId is the requested one; earned, spent and payout are the user's sums by kind; balance = earned − (spent + payout); paidOut = payout; with no record of the user it is all zeros |
| Aggregation.NoRecordsSumZero | src/modules/transaction/services/transaction-aggregator.service.ts:76-85 | a user with no records has every sum 0 |
| Aggregation.SumOfKindAppend | src/modules/transaction/services/transaction-aggregator.service.ts:28-58 | the per-kind sum is additive over concatenated ledgers |
| Aggregation.OtherUsersIrrelevant | src/modules/transaction/services/transaction-aggregator.service.ts:27 | rows of other users never change a user's aggregate |
| Aggregation.AggregateExample | src/services/transaction-aggregator.service.spec.ts:65-103 | earned 100, spent 30 and payout 20 give balance 50 and paidOut 20 |
| Aggregation.AddToGroup | src/modules/transaction/services/transaction-aggregator.service.ts:99-104 | one `$group` step: the list grows by at most one entry, and by exactly one for a user not yet listed |
| Aggregation.AddToGroupUsers | src/modules/transaction/services/transaction-aggregator.service.ts:99-104 | grouping one more payout adds its user to the listed users and no other |
| Aggregation.AddToGroupSorted | src/modules/transaction/services/transaction-aggregator.service.ts:112 | grouping one more payout keeps the list strictly sorted by userId |
| Aggregation.AddToGroupAmounts | src/modules/transaction/services/transaction-aggregator.service.ts:102 | grouping one more payout adds its amount to its user's entry only |
| Aggregation.RequestedPayouts | src/modules/transaction/services/transaction-aggregator.service.ts:94-117 | the payouts pipeline gives at most one entry per record; `RequestedPayoutsSpec` states its order, users and amounts |
| Aggregation.RequestedPayoutsFold | src/modules/transaction/services/transaction-aggregator.service.ts:98-112 | the payouts list is strictly sorted, lists exactly the users with a payout record, and lists each user's payout sum |
| Aggregation.RequestedPayoutsSpec | src/modules/transaction/services/transaction-aggregator.service.ts:94-117 | entries are in strictly ascending userId order, so each user appears at most once; a user is listed iff it has a payout record; each amount is that user's payout sum; other kinds never contribute |
| Aggregation.PayoutsExample | src/services/transaction-aggregator.service.spec.ts:108-132 | payouts of 50 for 074092 and 30 for 074093 list as [(074092, 50), (074093, 30)] |
| Jobs.JobQueue.Add | src/modules/sync/processors/transaction-sync.processor.ts:84-101 | a successful add appends the job with the next id, its name, payload and options; a rejected add changes nothing; ids stay increasing |
| Jobs.JobQueue.GetJob | src/modules/sync/processors/transaction-sync.processor.ts:109-112 | the lookup returns an added job with the requested id, or nothing when no job has that id |
| Jobs.SameIdSameJob | src/modules/sync/processors/transaction-sync.processor.ts:102-112 | ids are unique, so the job found by an id is the one added under it |
| SyncProcessor.PageJobs | src/modules/sync/processors/transaction-sync.processor.ts:83-101 | the fan-out adds n page jobs, each carrying a page payload; `PageJobsAt` states each one in full |
| SyncProcessor.PageJobsAt | src/modules/sync/processors/transaction-sync.processor.ts:84-100 | the k-th page job is for page k + 1, carries the parent's startDate, endDate and id as parentJobId, and has attempts 3, exponential backoff 1000, removeOnComplete true and removeOnFail false |
| SyncProcessor.OnePageJobPerPage | src/modules/sync/processors/transaction-sync.processor.ts:83-103 | every page 1..totalPages has exactly one page job, and no other page has any, so totalPages = 0 adds none |
| SyncProcessor.FanOutCoversWindow | src/modules/sync/processors/transaction-sync.processor.ts:78-91 | every transaction of the window is on the page of one of the page jobs |
| SyncProcessor.PageRequestsAt | src/modules/sync/processors/transaction-sync.processor.ts:142-147 | the k-th page call asks for page k + 1 of the parent's window with limit 1000 |
| SyncProcessor.PageOneFetchedTwice | src/modules/sync/processors/transaction-sync.processor.ts:71-90 | with at least one page, the probe call and the first page job's call are the same request |
| SyncProcessor.StoreNextPage | src/modules/sync/processors/transaction-sync.processor.ts:150-170 | storing pages 1..k and then page k + 1 leaves the ledger as storing pages 1..k+1 in one batch would |
| SyncProcessor.TransactionSyncProcessor.MakeApiCallWithDelay | src/modules/sync/processors/transaction-sync.processor.ts:35-59 | exactly one source call, whose answer (a 429 included) is returned unchanged, with no retry |
| SyncProcessor.TransactionSyncProcessor.SyncTransactionsPage | src/modules/sync/processors/transaction-sync.processor.ts:133-187 | one source call for the job's page with limit 1000; a source error is passed on with the ledger unchanged; otherwise the page's items are stored (new ids appended, 11000 swallowed, any other storage error passed on with the ledger unchanged) |
| SyncProcessor.TransactionSyncProcessor.EnqueuePageJobs | src/modules/sync/processors/transaction-sync.processor.ts:82-103 | adds page jobs for pages 1, 2, … in page order, returning their ids; the queue gains exactly the page jobs of the pages added; every add is accepted iff none of pages 1..totalPages is rejected, and then all totalPages jobs are added; otherwise it stops at the first rejected page, keeping the jobs before it |
| SyncProcessor.TransactionSyncProcessor.RunPageJob | src/modules/sync/processors/transaction-sync.processor.ts:109-112 | the page job added under the id is found and its handler run: one call and one limiter check for its page; it succeeds iff the source answers and the page is empty or stored without a storage fault; a source error or a storage error is passed on with the ledger unchanged; on success the ledger gains exactly that page's records with new ids |
| SyncProcessor.AwaitStep | src/modules/sync/processors/transaction-sync.processor.ts:105-115 | running one more page job moves the wait from page i to page i + 1: one more call and check, the first failure kept, and while none has failed the stored pages grow by that page |
| SyncProcessor.FailOpenPageSucceeds | src/modules/core/services/redis.service.ts:74-81 | a page job whose limiter store fails is let through and, with no storage fault, succeeds |
| SyncProcessor.DeniedPageFails | src/modules/api-integration/services/mock-transaction-api.service.ts:84-95 | a page job the limiter denies fails with the source's 429 (60 seconds), passed on with no retry |
| SyncProcessor.TransactionSyncProcessor.AwaitPageJob | src/modules/sync/processors/transaction-sync.processor.ts:109-112 | one page job of the wait is run: the wait's account of calls, logs, first failure and stored pages moves from page i to page i + 1 |
| SyncProcessor.TransactionSyncProcessor.AwaitPageJobs | src/modules/sync/processors/transaction-sync.processor.ts:105-115 | every page job is looked up and run once, in page order, making calls for pages 1..n and moving the limiter's logs check by check; the wait succeeds iff every page job succeeds, and otherwise fails with the first failing page's error; with no failure the ledger holds pages 1..n of the window as one batch would store them |
| SyncProcessor.TransactionSyncProcessor.SyncTransactions | src/modules/sync/processors/transaction-sync.processor.ts:65-126 | one probe call for page 1 with limit 1000; a failed probe adds no job and writes nothing; a rejected add fails the job before any page job runs, keeping the page jobs added before it; once every add is accepted, the queue holds exactly the page jobs for pages 1..totalPages and the calls are the probe then pages 1..totalPages, whatever the pages do; the job succeeds iff the probe, every add and every page job succeed, fails with the first failing page's error otherwise, and on success the ledger gained exactly the window's records with new ids |
| SyncScheduler.SyncStateStore.FindOne | src/modules/sync/services/transaction-sync.service.ts:32-35 | the record's lastSyncTime when the key has a record, nothing otherwise |
| SyncScheduler.SyncStateStore.Save | src/modules/sync/services/transaction-sync.service.ts:63-65 | the found record gets the new lastSyncTime |
| SyncScheduler.SyncStateStore.Create | src/modules/sync/services/transaction-sync.service.ts:66-70 | a record is created for a key that had none, so the key has exactly one record |
| SyncScheduler.TransactionSyncService.ScheduleTransactionSync | src/modules/sync/services/transaction-sync.service.ts:27-81 | a tick adds one parent job for [stored lastSyncTime or 0, now] with attempts 3 and exponential backoff 1000; the watermark becomes now only after a successful add and write; a failed read or add leaves queue and watermark as they were; the tick never fails |
| SyncScheduler.TwoTicks | src/modules/sync/services/transaction-sync.service.ts:35-70 | two successful ticks on an empty store add the windows [0, t1] and [t1, t2]: the second starts where the first ended |
| SyncScheduler.FailedAddThenTick | src/modules/sync/services/transaction-sync.service.ts:44-72 | a tick whose add fails keeps the watermark, so the next tick's window starts at the old watermark |
| LegacyAggregator.TransactionAggregatorService.constructor | src/services/transaction-aggregator.service.ts:19-20 | the watermark starts at epoch 0 and the flag is clear |
| LegacyAggregator.TransactionAggregatorService.SyncTransactions | src/services/transaction-aggregator.service.ts:28-81 | with the flag set the call touches nothing; otherwise it fetches page 1 with limit 1000 over [lastSyncTime, now] and stores the items; it succeeds iff the page is empty or the store has no fault; lastSyncTime becomes now only on success, and the flag is always cleared |
| LegacyAggregator.TransactionAggregatorService.SyncTransactionsJob | src/services/transaction-aggregator.service.ts:155-167 | a sync whose error is swallowed: with the flag set nothing changes and the flag stays set; otherwise one fetch of page 1 over [lastSyncTime, now], and when the page is empty or the store has no fault the watermark becomes now and the ledger gains the page's records with new ids, while a failed store leaves both as they were; the flag is cleared |
| LegacyAggregator.TransactionAggregatorService.GetAggregatedDataByUserId | src/services/transaction-aggregator.service.ts:83-152 | the requested userId, the user's sums by kind, balance = earned − (spent + payout), paidOut = payout, all zeros for a user with no records |
| LegacyAggregator.TransactionAggregatorService.GetRequestedPayouts | src/services/transaction-aggregator.service.ts:169-192 | strictly ascending by userId; a user is listed iff it has a payout record; each amount is its payout sum |
| LegacyAggregator.FirstWindowHoldsAll | src/services/transaction-aggregator.service.ts:36-46 | a sync at the time of the latest stored transaction, from epoch 0, fetches all eight stored transactions |
| LegacyAggregator.NextWindowRepeatsLatest | src/services/mock-transaction-api.service.ts:82-85 | the transaction stamped exactly at the watermark is fetched again by the next window, because both bounds are inclusive |
| LegacyAggregator.ResyncAddsNothing | src/services/transaction-aggregator.service.ts:59-69 | once every stored transaction's id is in the ledger, syncing any of them adds nothing |
| LegacyAggregator.FirstSyncIds | src/services/transaction-aggregator.service.ts:59-69 | a first sync into an empty ledger stores every id of its batch |
| LegacyAggregator.SameRecordSyncedTwice | src/services/transaction-aggregator.service.spec.ts:219-257 | two syncs a minute apart: the second window starts at the first one's now and fetches the transaction stamped at it again, yet the ledger is unchanged and keeps one row per id |

## Left out

- Bull's queue engine is not part of this model. Retries and attempt counting, backoff timing, the effects of removeOnComplete and removeOnFail, `job.finished()`, `Promise.all` and processor concurrency are all missing. The options travel as data. Waiting for the page jobs is modelled as running each page job's handler once, in page order. Every page job runs even after one fails, and the first failure is the parent's result.
- The queue never drops a job in the model, so a page job looked up by id is always found. The source's treatment of a missing job as finished is therefore never exercised.
- When a page-job add fails, the jobs added before it stay in the queue. The model does not run them, because Bull would run them outside the parent handler.
- The waits (12 s before each processor call, 200 ms and 1 s inside the mock sources) are left out. They only pace the calls.
- Redis: the key's expiry is recorded as a value, but keys never expire. Client connection and configuration are left out.
- The generator of the rate-limited source's 6000 random transactions is left out (it uses `Math.random`). The stored transactions are a constructor parameter.
- Dates and numbers:
  - ISO-8601 strings and `Date` parsing are replaced by epoch milliseconds;
  - floating-point amounts are `real`, with no rounding;
  - `limit` must be at least 1 (with 0 the source's `Math.ceil` gives a page count of `Infinity` when items match and `NaN` when none do);
  - non-integer pages and limits are not modelled.
- The MongoDB pipeline engine and the driver are left out. A storage failure other than a duplicate key is modelled as writing nothing, although a real unordered `insertMany` may write part of the batch before it throws.
- Concurrency is left out. An overlapping in-process sync is expressed as a call made while its flag is set.
- Module wiring, controllers, configuration, logging, `job.progress` and the HTTP tests are left out.
- SyncProcessor.TransactionSyncProcessor.SyncTransactions: the limiter's logs and expiry after a run are not stated. After a page job fails, the ledger is only stated to keep unique ids, not which of the other pages were stored.
- SyncProcessor.TransactionSyncProcessor.AwaitPageJobs: the limiter's expiry after the run is not stated, and after a failure the ledger is only stated to keep unique ids.
- LegacyAggregator.SameRecordSyncedTwice: it states the set of stored ids after the first sync, not the rows themselves.

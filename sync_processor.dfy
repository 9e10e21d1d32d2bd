/**
 * The queue processor of the sync module (`TransactionSyncProcessor`).
 *
 * A parent job asks the rate-limited source for page 1 to learn how many
 * pages its window has, adds one page job per page 1..totalPages, and then
 * waits for all of them. A page job fetches its page and stores it in the
 * ledger, skipping ids already stored. Every source call goes through
 * `MakeApiCallWithDelay`, which makes one call and passes any error on.
 *
 * The outside world of each call (the clock, whether the limiter's store or
 * the ledger's store fails, whether the queue rejects an add) is a `CallEnv`
 * parameter. Waiting for the page jobs is modelled as running each page
 * job's handler once, in page order.
 */
module SyncProcessor {
  import opened Types
  import opened Jobs
  import opened RateLimit
  import opened MockApi
  import opened LedgerStore
  import Pagination

  /** The page size of every call the processor makes. */
  const PageLimit := 1000

  /** What one source call and the step after it meet: the clock, a failing
      limiter store, a failing ledger store and a failing queue. */
  datatype CallEnv = CallEnv(now: nat, limiterFault: StoreFault, writeFault: Option<int>, enqueueFails: bool)

  datatype SyncError =
    | SourceFailed(source: SourceError)
    | WriteFailed(write: WriteError)
    | EnqueueFailed(queue: QueueError)

  /** A storage fault is never the duplicate-key code, which the driver only
      reports for skipped duplicates. */
  ghost predicate StorageFaults(envs: nat -> CallEnv)
  {
    forall p: nat :: envs(p).writeFault != Some(DuplicateKey)
  }

  /** The answer the source gives to `req` when the limiter holds `logs`. */
  function Fetch(transactions: seq<Transaction>, logs: map<string, set<nat>>, req: Request, env: CallEnv)
    : (r: Result<TransactionResponse, SourceError>)
    requires req.limit >= 1
  {
    Answer(transactions, CheckAnswer(logs, RateLimitKey, RateLimitMax, RateLimitWindow, env.now, env.limiterFault),
           req.startDate, req.endDate, req.page, req.limit)
  }

  /** The page jobs a parent job adds for pages 1..n, the first one under
      id `firstId`. */
  function PageJobs(firstId: nat, parent: Job, n: nat): (r: seq<Job>)
    ensures |r| == n
    ensures forall k :: 0 <= k < n ==> r[k].data.PageData?
  {
    if n == 0 then []
    else PageJobs(firstId, parent, n - 1)
         + [Job(firstId + n - 1, SyncTransactionsPage,
                PageData(parent.data.startDate, parent.data.endDate, n, parent.id), RetryOptions)]
  }

  /** The source calls the page jobs of pages 1..n make. */
  function PageRequests(startDate: nat, endDate: nat, n: nat): seq<Request>
  {
    if n == 0 then [] else PageRequests(startDate, endDate, n - 1) + [Request(startDate, endDate, n, PageLimit)]
  }

  /** Every add of pages 1..n is accepted by the queue. */
  predicate AllAdded(envs: nat -> CallEnv, n: nat)
  {
    forall p: nat :: 1 <= p <= n ==> !envs(p).enqueueFails
  }

  /** The add of page k + 1 is the first the queue rejects. */
  predicate FirstRejected(envs: nat -> CallEnv, k: nat)
  {
    envs(k + 1).enqueueFails && AllAdded(envs, k)
  }

  /** The limiter's logs after the calls of page jobs 1..k, starting from
      `logs`; page p calls in the world `envs(p)`. */
  function PageLogs(logs: map<string, set<nat>>, envs: nat -> CallEnv, k: nat): map<string, set<nat>>
  {
    if k == 0 then logs
    else LogsAfterCheck(PageLogs(logs, envs, k - 1), RateLimitKey, RateLimitWindow, envs(k).now, envs(k).limiterFault)
  }

  /** The answer page job k + 1 gets from the source. */
  function PageAnswer(transactions: seq<Transaction>, logs: map<string, set<nat>>, envs: nat -> CallEnv,
                      startDate: nat, endDate: nat, k: nat): Result<TransactionResponse, SourceError>
  {
    Fetch(transactions, PageLogs(logs, envs, k), Request(startDate, endDate, k + 1, PageLimit), envs(k + 1))
  }

  /** Page job k + 1 succeeds: the source answers, and its page is empty or
      is stored with no storage fault. */
  predicate PageSucceeds(transactions: seq<Transaction>, logs: map<string, set<nat>>, envs: nat -> CallEnv,
                         startDate: nat, endDate: nat, k: nat)
  {
    var a := PageAnswer(transactions, logs, envs, startDate, endDate, k);
    a.Ok? && (a.value.items == [] || envs(k + 1).writeFault.None?)
  }

  /** The error page job k + 1 fails with. */
  function PageFailure(transactions: seq<Transaction>, logs: map<string, set<nat>>, envs: nat -> CallEnv,
                       startDate: nat, endDate: nat, k: nat): SyncError
    requires !PageSucceeds(transactions, logs, envs, startDate, endDate, k)
  {
    var a := PageAnswer(transactions, logs, envs, startDate, endDate, k);
    if a.Err? then SourceFailed(a.error) else WriteFailed(WriteError(envs(k + 1).writeFault.value))
  }

  /** Page job k + 1 is the first of the page jobs to fail. */
  predicate FirstFailure(transactions: seq<Transaction>, logs: map<string, set<nat>>, envs: nat -> CallEnv,
                         startDate: nat, endDate: nat, k: nat)
  {
    !PageSucceeds(transactions, logs, envs, startDate, endDate, k) && AllSucceed(transactions, logs, envs, startDate, endDate, k)
  }

  /** Page jobs 1..n all succeed. */
  predicate AllSucceed(transactions: seq<Transaction>, logs: map<string, set<nat>>, envs: nat -> CallEnv,
                       startDate: nat, endDate: nat, n: nat)
  {
    forall k: nat :: k < n ==> PageSucceeds(transactions, logs, envs, startDate, endDate, k)
  }

  lemma AllSucceedSnoc(transactions: seq<Transaction>, logs: map<string, set<nat>>, envs: nat -> CallEnv,
                       startDate: nat, endDate: nat, n: nat)
    ensures AllSucceed(transactions, logs, envs, startDate, endDate, n + 1)
        <==> AllSucceed(transactions, logs, envs, startDate, endDate, n)
             && PageSucceeds(transactions, logs, envs, startDate, endDate, n)
  {
  }

  /** A page job whose limiter store fails is let through (the limiter
      fails open), so with no storage fault it succeeds. */
  lemma FailOpenPageSucceeds(transactions: seq<Transaction>, logs: map<string, set<nat>>, envs: nat -> CallEnv,
                             startDate: nat, endDate: nat, k: nat)
    requires envs(k + 1).limiterFault != NoFault && envs(k + 1).writeFault.None?
    ensures PageSucceeds(transactions, logs, envs, startDate, endDate, k)
  {
  }

  /** A page job the limiter denies fails with the source's 429, which
      reaches the queue unchanged. */
  lemma DeniedPageFails(transactions: seq<Transaction>, logs: map<string, set<nat>>, envs: nat -> CallEnv,
                        startDate: nat, endDate: nat, k: nat)
    requires !CheckAnswer(PageLogs(logs, envs, k), RateLimitKey, RateLimitMax, RateLimitWindow,
                          envs(k + 1).now, envs(k + 1).limiterFault).allowed
    ensures !PageSucceeds(transactions, logs, envs, startDate, endDate, k)
    ensures PageFailure(transactions, logs, envs, startDate, endDate, k) == SourceFailed(TooManyRequests(429, 60))
  {
  }

  /** The k-th page job is for page k + 1, carries the parent's window and
      id and the retry options, and has the k-th id from `firstId`. */
  lemma {:induction false} PageJobsAt(firstId: nat, parent: Job, n: nat)
    ensures |PageJobs(firstId, parent, n)| == n
    ensures forall k :: 0 <= k < n ==>
      PageJobs(firstId, parent, n)[k]
      == Job(firstId + k, SyncTransactionsPage,
             PageData(parent.data.startDate, parent.data.endDate, k + 1, parent.id), RetryOptions)
  {
    if n > 0 {
      PageJobsAt(firstId, parent, n - 1);
    }
  }

  /** The k-th page call asks for page k + 1 of the same window. */
  lemma {:induction false} PageRequestsAt(startDate: nat, endDate: nat, n: nat)
    ensures |PageRequests(startDate, endDate, n)| == n
    ensures forall k :: 0 <= k < n ==>
      PageRequests(startDate, endDate, n)[k] == Request(startDate, endDate, k + 1, PageLimit)
  {
    if n > 0 {
      PageRequestsAt(startDate, endDate, n - 1);
    }
  }

  /** Page 1 is asked for twice: by the probe and by the first page job. */
  lemma PageOneFetchedTwice(requests: seq<Request>, startDate: nat, endDate: nat, n: nat)
    requires n >= 1
    ensures var calls := requests + [Request(startDate, endDate, 1, PageLimit)] + PageRequests(startDate, endDate, n);
      calls[|requests|] == calls[|requests| + 1]
  {
    PageRequestsAt(startDate, endDate, n);
  }

  /** Every page 1..n has exactly one page job, and no other page has one. */
  lemma OnePageJobPerPage(firstId: nat, parent: Job, n: nat, page: int)
    ensures var jobs := PageJobs(firstId, parent, n);
      && (1 <= page <= n ==> |set k | 0 <= k < n && jobs[k].data.page == page| == 1)
      && (!(1 <= page <= n) ==> forall k :: 0 <= k < n ==> jobs[k].data.page != page)
  {
    var jobs := PageJobs(firstId, parent, n);
    PageJobsAt(firstId, parent, n);
    if 1 <= page <= n {
      assert (set k | 0 <= k < n && jobs[k].data.page == page) == {page - 1};
    }
  }

  /** Each transaction of the window lies on the page of one of the page
      jobs, so the fan-out misses none. */
  lemma FanOutCoversWindow(transactions: seq<Transaction>, firstId: nat, parent: Job, i: nat)
    requires i < |Pagination.Filter(transactions, parent.data.startDate, parent.data.endDate)|
    ensures var s, e := parent.data.startDate, parent.data.endDate;
      var n := Pagination.GetPage(transactions, s, e, 1, PageLimit).meta.totalPages;
      exists k :: 0 <= k < n
        && Pagination.Filter(transactions, s, e)[i]
           in Pagination.GetPage(transactions, s, e, PageJobs(firstId, parent, n)[k].data.page, PageLimit).items
  {
    var s, e := parent.data.startDate, parent.data.endDate;
    var n := Pagination.GetPage(transactions, s, e, 1, PageLimit).meta.totalPages;
    Pagination.ItemOnPage(transactions, s, e, PageLimit, i);
    PageJobsAt(firstId, parent, n);
    var k := i / PageLimit;
    assert PageJobs(firstId, parent, n)[k].data.page == i / PageLimit + 1;
  }

  /** Storing page k + 1 after pages 1..k stores what storing pages 1..k+1
      at once would. */
  lemma StoreNextPage(existing: seq<TransactionRecord>, filtered: seq<Transaction>, k: nat)
    ensures var done := existing + NewRecords(existing, ToRecords(Pagination.Pages(filtered, k, PageLimit)));
      done + NewRecords(done, ToRecords(Pagination.PageSlice(filtered, k + 1, PageLimit)))
      == existing + NewRecords(existing, ToRecords(Pagination.Pages(filtered, k + 1, PageLimit)))
  {
    var a := ToRecords(Pagination.Pages(filtered, k, PageLimit));
    var b := ToRecords(Pagination.PageSlice(filtered, k + 1, PageLimit));
    ToRecordsAppend(Pagination.Pages(filtered, k, PageLimit), Pagination.PageSlice(filtered, k + 1, PageLimit));
    NewRecordsAppend(existing, a, b);
  }

  /** Where the wait stands after page jobs 1..i, from `requests0`, `logs0`
      and `records0`: the calls made, the limiter's logs, whether a page has
      failed and which failed first, and, while none has, what is stored. */
  ghost predicate Waited(transactions: seq<Transaction>, startDate: nat, endDate: nat, envs: nat -> CallEnv,
                         requests0: seq<Request>, logs0: map<string, set<nat>>, records0: seq<TransactionRecord>, i: nat,
                         requests: seq<Request>, logs: map<string, set<nat>>, records: seq<TransactionRecord>,
                         failure: Option<SyncError>, failedAt: nat)
  {
    && requests == requests0 + PageRequests(startDate, endDate, i)
    && logs == PageLogs(logs0, envs, i)
    && (failure.None? <==> AllSucceed(transactions, logs0, envs, startDate, endDate, i))
    && (failure.Some? ==>
          && failedAt < i && FirstFailure(transactions, logs0, envs, startDate, endDate, failedAt)
          && failure == Some(PageFailure(transactions, logs0, envs, startDate, endDate, failedAt)))
    && (failure.None? ==>
          var filtered := Pagination.Filter(transactions, startDate, endDate);
          records == records0 + NewRecords(records0, ToRecords(Pagination.Pages(filtered, i, PageLimit))))
  }

  /** One more page job run: its call, its check and its outcome move the
      wait from page i to page i + 1; the first failure is kept. */
  lemma AwaitStep(transactions: seq<Transaction>, startDate: nat, endDate: nat, envs: nat -> CallEnv,
                  requests0: seq<Request>, logs0: map<string, set<nat>>, records0: seq<TransactionRecord>, i: nat,
                  requests: seq<Request>, logs: map<string, set<nat>>, records: seq<TransactionRecord>,
                  failure: Option<SyncError>, failedAt: nat, result: Result<(), SyncError>,
                  requests': seq<Request>, logs': map<string, set<nat>>, records': seq<TransactionRecord>,
                  failure': Option<SyncError>, failedAt': nat)
    requires Waited(transactions, startDate, endDate, envs, requests0, logs0, records0, i,
                    requests, logs, records, failure, failedAt)
    requires requests' == requests + [Request(startDate, endDate, i + 1, PageLimit)]
    requires logs' == LogsAfterCheck(logs, RateLimitKey, RateLimitWindow, envs(i + 1).now, envs(i + 1).limiterFault)
    requires var answer := Fetch(transactions, logs, Request(startDate, endDate, i + 1, PageLimit), envs(i + 1));
      && (result.Ok? <==> answer.Ok? && (answer.value.items == [] || envs(i + 1).writeFault.None?))
      && (answer.Err? ==> result == Err(SourceFailed(answer.error)))
      && (answer.Ok? && result.Err? ==> result == Err(WriteFailed(WriteError(envs(i + 1).writeFault.value))))
    requires var filtered := Pagination.Filter(transactions, startDate, endDate);
      result.Ok? ==> records' == records + NewRecords(records, ToRecords(Pagination.PageSlice(filtered, i + 1, PageLimit)))
    requires failure.None? && result.Err? ==> failure' == Some(result.error) && failedAt' == i
    requires !(failure.None? && result.Err?) ==> failure' == failure && failedAt' == failedAt
    ensures Waited(transactions, startDate, endDate, envs, requests0, logs0, records0, i + 1,
                   requests', logs', records', failure', failedAt')
  {
    var filtered := Pagination.Filter(transactions, startDate, endDate);
    assert PageRequests(startDate, endDate, i + 1) == PageRequests(startDate, endDate, i) + [Request(startDate, endDate, i + 1, PageLimit)];
    assert result.Ok? <==> PageSucceeds(transactions, logs0, envs, startDate, endDate, i);
    AllSucceedSnoc(transactions, logs0, envs, startDate, endDate, i);
    if failure.None? && result.Ok? {
      StoreNextPage(records0, filtered, i);
    }
  }

  class TransactionSyncProcessor {
    const api: MockTransactionApi
    const ledger: Ledger
    const queue: JobQueue

    ghost predicate Valid()
      reads this, ledger, queue
    {
      ledger.Valid() && queue.Valid()
    }

    constructor (api: MockTransactionApi, ledger: Ledger, queue: JobQueue)
      ensures this.api == api && this.ledger == ledger && this.queue == queue
    {
      this.api := api;
      this.ledger := ledger;
      this.queue := queue;
    }

    /** One source call; a 429 or any other error is passed on unchanged,
        with no retry (retries belong to the queue). */
    method MakeApiCallWithDelay(startDate: nat, endDate: nat, page: int, limit: int, env: CallEnv)
      returns (r: Result<TransactionResponse, SourceError>)
      requires limit >= 1
      modifies api, api.limiter
      ensures api.requests == old(api.requests) + [Request(startDate, endDate, page, limit)]
      ensures api.limiter.logs == LogsAfterCheck(old(api.limiter.logs), RateLimitKey, RateLimitWindow, env.now, env.limiterFault)
      ensures api.limiter.ttl == if env.limiterFault == NoFault then old(api.limiter.ttl)[RateLimitKey := RateLimitWindow] else old(api.limiter.ttl)
      ensures r == Fetch(api.transactions, old(api.limiter.logs), Request(startDate, endDate, page, limit), env)
    {
      r := api.GetTransactions(startDate, endDate, page, limit, env.now, env.limiterFault);
    }

    /** The page job handler: fetch the job's page and store its items. A
        source error leaves the ledger as it was; a storage error other than
        a duplicate key is passed on. */
    method SyncTransactionsPage(job: Job, env: CallEnv) returns (r: Result<(), SyncError>)
      requires job.data.PageData? && Valid() && env.writeFault != Some(DuplicateKey)
      modifies api, api.limiter, ledger
      ensures Valid()
      ensures var req := Request(job.data.startDate, job.data.endDate, job.data.page, PageLimit);
        && api.requests == old(api.requests) + [req]
        && api.limiter.logs == LogsAfterCheck(old(api.limiter.logs), RateLimitKey, RateLimitWindow, env.now, env.limiterFault)
      ensures api.limiter.ttl == if env.limiterFault == NoFault then old(api.limiter.ttl)[RateLimitKey := RateLimitWindow] else old(api.limiter.ttl)
      ensures var req := Request(job.data.startDate, job.data.endDate, job.data.page, PageLimit);
        var answer := Fetch(api.transactions, old(api.limiter.logs), req, env);
        && (answer.Err? ==> r == Err(SourceFailed(answer.error)) && ledger.records == old(ledger.records))
        && (answer.Ok? && r.Ok? ==>
              ledger.records == old(ledger.records) + NewRecords(old(ledger.records), ToRecords(answer.value.items)))
        && (answer.Ok? && r.Err? ==>
              && answer.value.items != [] && env.writeFault.Some?
              && r == Err(WriteFailed(WriteError(env.writeFault.value)))
              && ledger.records == old(ledger.records))
        && (answer.Ok? ==> (r.Ok? <==> answer.value.items == [] || env.writeFault.None?))
    {
      var response := MakeApiCallWithDelay(job.data.startDate, job.data.endDate, job.data.page, PageLimit, env);
      if response.Err? {
        return Err(SourceFailed(response.error));
      }
      var stored := StoreItems(ledger, response.value.items, env.writeFault);
      if stored.Err? {
        return Err(WriteFailed(stored.error));
      }
      r := Ok(());
    }

    /** The fan-out loop of the parent handler: add one page job per page
        1..totalPages, in page order, each carrying the parent's window and
        id and the retry options; stop at the first add the queue rejects,
        keeping the jobs already added. */
    method EnqueuePageJobs(job: Job, totalPages: nat, envs: nat -> CallEnv)
      returns (pageJobs: seq<JobId>, err: Option<QueueError>)
      requires job.data.SyncData? && queue.Valid()
      modifies queue
      ensures queue.Valid()
      ensures |pageJobs| <= totalPages
      ensures queue.jobs == old(queue.jobs) + PageJobs(old(queue.nextId), job, |pageJobs|)
      ensures queue.nextId == old(queue.nextId) + |pageJobs|
      ensures forall k :: 0 <= k < |pageJobs| ==> pageJobs[k] == old(queue.nextId) + k
      ensures err.None? <==> AllAdded(envs, totalPages)
      ensures err.None? ==> |pageJobs| == totalPages
      ensures err.Some? ==> err == Some(QueueUnavailable) && FirstRejected(envs, |pageJobs|)
    {
      ghost var jobs0, firstId := queue.jobs, queue.nextId;
      pageJobs := [];
      var page := 1;
      while page <= totalPages
        invariant 1 <= page <= totalPages + 1 && |pageJobs| == page - 1
        invariant queue.Valid()
        invariant queue.jobs == jobs0 + PageJobs(firstId, job, page - 1) && queue.nextId == firstId + page - 1
        invariant forall k :: 0 <= k < |pageJobs| ==> pageJobs[k] == firstId + k
        invariant AllAdded(envs, page - 1)
      {
        var pageJob := queue.Add(JobName.SyncTransactionsPage, PageData(job.data.startDate, job.data.endDate, page, job.id),
                                 RetryOptions, envs(page).enqueueFails);
        if pageJob.Err? {
          return pageJobs, Some(pageJob.error);
        }
        assert PageJobs(firstId, job, page) == PageJobs(firstId, job, page - 1) + [pageJob.value];
        assert queue.jobs == jobs0 + PageJobs(firstId, job, page) by {
          assert queue.jobs == (jobs0 + PageJobs(firstId, job, page - 1)) + [pageJob.value];
        }
        pageJobs := pageJobs + [pageJob.value.id];
        page := page + 1;
      }
      err := None;
    }

    /** Waiting for one page job: look the job up by its id and run its
        handler. */
    method RunPageJob(id: JobId, ghost expected: Job, env: CallEnv) returns (result: Result<(), SyncError>)
      requires Valid() && expected in queue.jobs && expected.id == id
      requires expected.data.PageData? && expected.data.page >= 1
      requires env.writeFault != Some(DuplicateKey)
      modifies api, api.limiter, ledger
      ensures Valid()
      ensures var d := expected.data;
        api.requests == old(api.requests) + [Request(d.startDate, d.endDate, d.page, PageLimit)]
      ensures api.limiter.logs == LogsAfterCheck(old(api.limiter.logs), RateLimitKey, RateLimitWindow, env.now, env.limiterFault)
      ensures api.limiter.ttl == if env.limiterFault == NoFault then old(api.limiter.ttl)[RateLimitKey := RateLimitWindow] else old(api.limiter.ttl)
      ensures var d := expected.data;
        var answer := Fetch(api.transactions, old(api.limiter.logs), Request(d.startDate, d.endDate, d.page, PageLimit), env);
        && (result.Ok? <==> answer.Ok? && (answer.value.items == [] || env.writeFault.None?))
        && (answer.Err? ==> result == Err(SourceFailed(answer.error)) && ledger.records == old(ledger.records))
        && (answer.Ok? && result.Err? ==>
              result == Err(WriteFailed(WriteError(env.writeFault.value))) && ledger.records == old(ledger.records))
      ensures var d := expected.data;
        var items := Pagination.PageSlice(Pagination.Filter(api.transactions, d.startDate, d.endDate), d.page, PageLimit);
        result.Ok? ==> ledger.records == old(ledger.records) + NewRecords(old(ledger.records), ToRecords(items))
    {
      var found := queue.GetJob(id);
      // The job was added under this id, so the lookup finds it.
      assert found.Some?;
      SameIdSameJob(queue.jobs, queue.nextId, found.value, expected);
      result := SyncTransactionsPage(found.value, env);
    }

    /** One step of the wait: run page job i + 1 and keep the first
        failure. */
    method AwaitPageJob(job: Job, id: JobId, ghost expected: Job, envs: nat -> CallEnv, i: nat,
                        ghost requests0: seq<Request>, ghost logs0: map<string, set<nat>>,
                        ghost records0: seq<TransactionRecord>, failure: Option<SyncError>, ghost failedAt: nat)
      returns (failure': Option<SyncError>, ghost failedAt': nat)
      requires job.data.SyncData? && Valid() && StorageFaults(envs)
      requires expected in queue.jobs && expected.id == id
      requires expected.data == PageData(job.data.startDate, job.data.endDate, i + 1, job.id)
      requires Waited(api.transactions, job.data.startDate, job.data.endDate, envs, requests0, logs0, records0, i,
                      api.requests, api.limiter.logs, ledger.records, failure, failedAt)
      modifies api, api.limiter, ledger
      ensures Valid()
      ensures Waited(api.transactions, job.data.startDate, job.data.endDate, envs, requests0, logs0, records0, i + 1,
                     api.requests, api.limiter.logs, ledger.records, failure', failedAt')
    {
      ghost var requests, logs, records := api.requests, api.limiter.logs, ledger.records;
      var result := RunPageJob(id, expected, envs(i + 1));
      failure', failedAt' := failure, failedAt;
      if result.Err? && failure.None? {
        failure', failedAt' := Some(result.error), i;
      }
      AwaitStep(api.transactions, job.data.startDate, job.data.endDate, envs, requests0, logs0, records0, i,
                requests, logs, records, failure, failedAt, result,
                api.requests, api.limiter.logs, ledger.records, failure', failedAt');
    }

    /** The wait of the parent handler: every page job is looked up by id
        and its handler run once, in page order; the first failure, if any,
        is the result. With no failure the ledger holds pages 1..n of the
        window, stored as one batch would be. */
    method AwaitPageJobs(job: Job, pageJobs: seq<JobId>, ghost firstId: nat, envs: nat -> CallEnv)
      returns (failure: Option<SyncError>)
      requires job.data.SyncData? && Valid() && StorageFaults(envs)
      requires forall j :: j in PageJobs(firstId, job, |pageJobs|) ==> j in queue.jobs
      requires forall k :: 0 <= k < |pageJobs| ==> pageJobs[k] == firstId + k
      modifies api, api.limiter, ledger
      ensures Valid()
      ensures api.requests == old(api.requests) + PageRequests(job.data.startDate, job.data.endDate, |pageJobs|)
      ensures api.limiter.logs == PageLogs(old(api.limiter.logs), envs, |pageJobs|)
      ensures var s, e := job.data.startDate, job.data.endDate;
        failure.None? <==> AllSucceed(api.transactions, old(api.limiter.logs), envs, s, e, |pageJobs|)
      ensures var s, e := job.data.startDate, job.data.endDate;
        failure.Some? ==>
          exists k: nat :: k < |pageJobs| && FirstFailure(api.transactions, old(api.limiter.logs), envs, s, e, k)
                       && failure == Some(PageFailure(api.transactions, old(api.limiter.logs), envs, s, e, k))
      ensures failure.None? ==>
        var filtered := Pagination.Filter(api.transactions, job.data.startDate, job.data.endDate);
        ledger.records
        == old(ledger.records) + NewRecords(old(ledger.records), ToRecords(Pagination.Pages(filtered, |pageJobs|, PageLimit)))
    {
      ghost var records0, logs0 := ledger.records, api.limiter.logs;
      ghost var s, e := job.data.startDate, job.data.endDate;
      ghost var filtered := Pagination.Filter(api.transactions, s, e);
      ghost var added := PageJobs(firstId, job, |pageJobs|);
      PageJobsAt(firstId, job, |pageJobs|);
      failure := None;
      ghost var failedAt: nat := 0;
      var i := 0;
      assert records0 + [] == records0;
      while i < |pageJobs|
        invariant 0 <= i <= |pageJobs|
        invariant Valid()
        invariant Waited(api.transactions, s, e, envs, old(api.requests), logs0, records0, i,
                         api.requests, api.limiter.logs, ledger.records, failure, failedAt)
      {
        assert added[i] in added;
        failure, failedAt := AwaitPageJob(job, pageJobs[i], added[i], envs, i, old(api.requests), logs0, records0,
                                          failure, failedAt);
        i := i + 1;
      }
    }

    /** The parent job handler: probe page 1 for totalPages, add a page job
        for every page 1..totalPages, then run every page job and fail if
        any of them failed. `envs(0)` is the probe's world and `envs(p)` that
        of page p's add and page p's job. */
    method SyncTransactions(job: Job, envs: nat -> CallEnv) returns (r: Result<(), SyncError>)
      requires job.data.SyncData? && Valid() && StorageFaults(envs)
      modifies api, api.limiter, ledger, queue
      ensures Valid()
      ensures var probeReq := Request(job.data.startDate, job.data.endDate, 1, PageLimit);
        var probe := Fetch(api.transactions, old(api.limiter.logs), probeReq, envs(0));
        && |old(api.requests)| < |api.requests|
        && api.requests[..|old(api.requests)| + 1] == old(api.requests) + [probeReq]
        && (probe.Err? ==>
              && r == Err(SourceFailed(probe.error))
              && api.requests == old(api.requests) + [probeReq]
              && queue.jobs == old(queue.jobs) && ledger.records == old(ledger.records))
      ensures var s, e := job.data.startDate, job.data.endDate;
        var probe := Fetch(api.transactions, old(api.limiter.logs), Request(s, e, 1, PageLimit), envs(0));
        r.Ok? ==>
          && probe.Ok?
          && var n := probe.value.meta.totalPages;
          && queue.jobs == old(queue.jobs) + PageJobs(old(queue.nextId), job, n)
          && api.requests == old(api.requests) + [Request(s, e, 1, PageLimit)] + PageRequests(s, e, n)
          && ledger.records
             == old(ledger.records) + NewRecords(old(ledger.records), ToRecords(Pagination.Filter(api.transactions, s, e)))
      ensures var s, e := job.data.startDate, job.data.endDate;
        var probe := Fetch(api.transactions, old(api.limiter.logs), Request(s, e, 1, PageLimit), envs(0));
        var logs1 := LogsAfterCheck(old(api.limiter.logs), RateLimitKey, RateLimitWindow, envs(0).now, envs(0).limiterFault);
        r.Ok? <==>
          && probe.Ok?
          && AllAdded(envs, probe.value.meta.totalPages)
          && AllSucceed(api.transactions, logs1, envs, s, e, probe.value.meta.totalPages)
      ensures var s, e := job.data.startDate, job.data.endDate;
        var probe := Fetch(api.transactions, old(api.limiter.logs), Request(s, e, 1, PageLimit), envs(0));
        var logs1 := LogsAfterCheck(old(api.limiter.logs), RateLimitKey, RateLimitWindow, envs(0).now, envs(0).limiterFault);
        probe.Ok? && AllAdded(envs, probe.value.meta.totalPages) ==>
          var n := probe.value.meta.totalPages;
          && queue.jobs == old(queue.jobs) + PageJobs(old(queue.nextId), job, n)
          && api.requests == old(api.requests) + [Request(s, e, 1, PageLimit)] + PageRequests(s, e, n)
          && (r.Err? ==>
                exists k: nat :: k < n && FirstFailure(api.transactions, logs1, envs, s, e, k)
                             && r == Err(PageFailure(api.transactions, logs1, envs, s, e, k)))
      ensures var s, e := job.data.startDate, job.data.endDate;
        var probe := Fetch(api.transactions, old(api.limiter.logs), Request(s, e, 1, PageLimit), envs(0));
        probe.Ok? && !AllAdded(envs, probe.value.meta.totalPages) ==>
          && r == Err(EnqueueFailed(QueueUnavailable))
          && api.requests == old(api.requests) + [Request(s, e, 1, PageLimit)]
          && ledger.records == old(ledger.records)
          && exists k: nat :: k < probe.value.meta.totalPages && FirstRejected(envs, k)
                          && queue.jobs == old(queue.jobs) + PageJobs(old(queue.nextId), job, k)
    {
      var startDate, endDate := job.data.startDate, job.data.endDate;
      ghost var firstId := queue.nextId;

      var initialResponse := MakeApiCallWithDelay(startDate, endDate, 1, PageLimit, envs(0));
      if initialResponse.Err? {
        return Err(SourceFailed(initialResponse.error));
      }
      var totalPages := initialResponse.value.meta.totalPages;
      assert totalPages == Pagination.GetPage(api.transactions, startDate, endDate, 1, PageLimit).meta.totalPages;

      var pageJobs, enqueueError := EnqueuePageJobs(job, totalPages, envs);
      if enqueueError.Some? {
        return Err(EnqueueFailed(enqueueError.value));
      }
      var failure := AwaitPageJobs(job, pageJobs, firstId, envs);
      if failure.Some? {
        return Err(failure.value);
      }
      Pagination.PaginationComplete(api.transactions, startDate, endDate, PageLimit);
      r := Ok(());
    }
  }
}

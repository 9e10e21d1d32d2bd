/**
 * The rate-limited mock transaction source of the api-integration module
 * (`MockTransactionApiService.getTransactions`): every call first asks the
 * shared rate limiter, under the fixed key "mock-api:rate-limit" with 5
 * requests per 60 seconds, and throws HTTP 429 when it is not allowed;
 * otherwise it answers with one page of its stored transactions and a
 * rate-limit block in the metadata. The stored transactions are the
 * generated ones; how they are generated is not modelled.
 */
module MockApi {
  import opened Types
  import opened RateLimit
  import Pagination

  const RateLimitKey := "mock-api:rate-limit"
  const RateLimitMax := 5
  const RateLimitWindow := 60

  /** One call made to the source. */
  datatype Request = Request(startDate: nat, endDate: nat, page: int, limit: int)

  /** The answer of one call, given the limiter's decision for it. */
  function Answer(transactions: seq<Transaction>, decision: RateLimitResult,
                  startDate: nat, endDate: nat, page: int, limit: int)
    : (r: Result<TransactionResponse, SourceError>)
    requires limit >= 1
    ensures r.Err? <==> !decision.allowed
    ensures r.Err? ==> r.error == TooManyRequests(429, RateLimitWindow)
    ensures r.Ok? ==>
      && r.value.items == Pagination.GetPage(transactions, startDate, endDate, page, limit).items
      && r.value.meta == Pagination.GetPage(transactions, startDate, endDate, page, limit).meta.(
           rateLimit := Some(RateLimitMeta(RateLimitMax, decision.remaining, RateLimitWindow)))
  {
    if !decision.allowed then Err(TooManyRequests(429, RateLimitWindow))
    else
      var p := Pagination.GetPage(transactions, startDate, endDate, page, limit);
      Ok(TransactionResponse(p.items,
        p.meta.(rateLimit := Some(RateLimitMeta(RateLimitMax, decision.remaining, RateLimitWindow)))))
  }

  class MockTransactionApi {
    const transactions: seq<Transaction>
    const limiter: RateLimiter
    /** Every call made, in order (a ghost record of the calls). */
    ghost var requests: seq<Request>

    constructor (transactions: seq<Transaction>, limiter: RateLimiter)
      ensures this.transactions == transactions && this.limiter == limiter && requests == []
    {
      this.transactions := transactions;
      this.limiter := limiter;
      requests := [];
    }

    /** getTransactions(startDate, endDate, page, limit) at time `now`, with
        `fault` the limiter's store failure, if any. */
    method GetTransactions(startDate: nat, endDate: nat, page: int, limit: int, now: nat, fault: StoreFault)
      returns (r: Result<TransactionResponse, SourceError>)
      requires limit >= 1
      modifies this, limiter
      ensures requests == old(requests) + [Request(startDate, endDate, page, limit)]
      ensures limiter.logs == LogsAfterCheck(old(limiter.logs), RateLimitKey, RateLimitWindow, now, fault)
      ensures limiter.ttl == if fault == NoFault then old(limiter.ttl)[RateLimitKey := RateLimitWindow] else old(limiter.ttl)
      ensures r == Answer(transactions, CheckAnswer(old(limiter.logs), RateLimitKey, RateLimitMax, RateLimitWindow, now, fault),
                          startDate, endDate, page, limit)
    {
      requests := requests + [Request(startDate, endDate, page, limit)];
      var rateLimitResult := limiter.CheckRateLimit(RateLimitKey, RateLimitMax, RateLimitWindow, now, fault);
      if !rateLimitResult.allowed {
        return Err(TooManyRequests(429, RateLimitWindow));
      }
      var filtered := Pagination.Filter(transactions, startDate, endDate);
      var items := Pagination.JsSlice(filtered, (page - 1) * limit, page * limit);
      r := Ok(TransactionResponse(items, PageMeta(|filtered|, |items|, limit, Pagination.CeilDiv(|filtered|, limit), page,
        Some(RateLimitMeta(RateLimitMax, rateLimitResult.remaining, RateLimitWindow)))));
    }
  }

  /** Against a fresh limiter the first five calls within a minute succeed
      with 4, 3, 2, 1 and 0 calls remaining; the sixth is rejected with 429. */
  method SixCallsInOneMinute(transactions: seq<Transaction>, t0: nat) returns (answers: seq<Result<TransactionResponse, SourceError>>)
    ensures |answers| == 6
    ensures forall i :: 0 <= i < 5 ==> answers[i].Ok? && answers[i].value.meta.rateLimit == Some(RateLimitMeta(5, 4 - i, 60))
    ensures answers[5] == Err(TooManyRequests(429, 60))
  {
    var limiter := new RateLimiter();
    var api := new MockTransactionApi(transactions, limiter);
    answers := [];
    var i := 0;
    while i < 6
      invariant 0 <= i <= 6 && |answers| == i
      invariant LogOf(limiter.logs, RateLimitKey) == set j | 0 <= j < i :: t0 + 1000 * j
      invariant forall j :: 0 <= j < i && j < 5 ==> answers[j].Ok? && answers[j].value.meta.rateLimit == Some(RateLimitMeta(5, 4 - j, 60))
      invariant i == 6 ==> answers[5] == Err(TooManyRequests(429, 60))
    {
      var before := set j | 0 <= j < i :: t0 + 1000 * j;
      var after := set j | 0 <= j < i + 1 :: t0 + 1000 * j;
      var a := api.GetTransactions(0, t0, 1, 1000, t0 + 1000 * i, NoFault);
      assert Recorded(before, t0 + 1000 * i, 60) == after;
      Spaced(t0, i + 1);
      answers := answers + [a];
      i := i + 1;
    }
  }
}

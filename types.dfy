/**
 * The value types shared by every part of the sync engine: the transaction
 * items the source serves, the rows the ledger stores, the read models, and
 * the Option/Result wrappers that stand for the source's exceptions.
 *
 * Timestamps are epoch milliseconds (`nat`); the ISO-8601 strings of the
 * source are not modelled. Amounts are `real`; floating point is not modelled.
 */
module Types {

  datatype Option<+T> = None | Some(value: T)

  /** The outcome of an operation that may throw: `Err` carries what it threw. */
  datatype Result<+T, +E> = Ok(value: T) | Err(error: E)

  /** The three kinds of transaction (`TransactionType`: earned, spent, payout). */
  datatype TransactionType = Earned | Spent | Payout

  /** An item as the transaction source serves it (`Transaction`); the field
      `type` of the source is called `kind` here. */
  datatype Transaction = Transaction(
    id: string,
    userId: string,
    createdAt: nat,
    kind: TransactionType,
    amount: real)

  /** A ledger row (the `Transaction` schema): keyed by `transactionId`,
      which the schema declares unique. */
  datatype TransactionRecord = TransactionRecord(
    transactionId: string,
    userId: string,
    createdAt: nat,
    kind: TransactionType,
    amount: real)

  /** The per-user read model (`AggregatedData`). */
  datatype AggregatedData = AggregatedData(
    userId: string,
    balance: real,
    earned: real,
    spent: real,
    payout: real,
    paidOut: real)

  /** One entry of the pending-payouts read model (`PayoutRequest`). */
  datatype PayoutRequest = PayoutRequest(userId: string, amount: real)

  /** The rate-limit block that the limited source adds to its page metadata. */
  datatype RateLimitMeta = RateLimitMeta(limit: int, remaining: int, resetInSeconds: int)

  /** The page metadata (`TransactionResponse.meta`); `rateLimit` is present
      only in the answers of the rate-limited source. */
  datatype PageMeta = PageMeta(
    totalItems: nat,
    itemCount: nat,
    itemsPerPage: int,
    totalPages: nat,
    currentPage: int,
    rateLimit: Option<RateLimitMeta>)

  /** One page of a source answer (`TransactionResponse`). */
  datatype TransactionResponse = TransactionResponse(items: seq<Transaction>, meta: PageMeta)

  /** What a failed call to the source throws: the HttpException with status
      429 (a limiter failure lets the call through, so nothing else is thrown). */
  datatype SourceError = TooManyRequests(status: int, remainingSeconds: int)
}

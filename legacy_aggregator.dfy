/**
 * The in-process aggregator service (`src/services`
 * `TransactionAggregatorService`): a once-a-minute sync from the in-process
 * mock source into the ledger, guarded by a single-flight flag and driven by
 * an in-memory watermark, and the two ledger queries.
 *
 * A sync asks the source for page 1 with the default limit over the window
 * from the watermark to now, stores the items, and only then moves the
 * watermark to now; the flag is cleared on the way out, whatever happened.
 * The in-process source cannot fail, so the only failure is a storage
 * fault, the `writeFault` parameter. The clock reading is `now`.
 */
module LegacyAggregator {
  import opened Types
  import opened LedgerStore
  import LegacyMockApi
  import Pagination
  import Aggregation

  class TransactionAggregatorService {
    /** The watermark, epoch ms; it starts at epoch 0. */
    var lastSyncTime: nat
    var syncInProgress: bool
    const ledger: Ledger
    /** The windows asked of the source, in order. */
    ghost var fetches: seq<(nat, nat)>

    constructor (ledger: Ledger)
      ensures this.ledger == ledger && lastSyncTime == 0 && !syncInProgress && fetches == []
    {
      this.ledger := ledger;
      lastSyncTime := 0;
      syncInProgress := false;
      fetches := [];
    }

    /** One sync at time `now`. While another sync holds the flag the call
        does nothing at all. */
    method SyncTransactions(now: nat, writeFault: Option<int>) returns (r: Result<(), WriteError>)
      requires ledger.Valid() && writeFault != Some(DuplicateKey)
      modifies this, ledger
      ensures ledger.Valid()
      ensures old(syncInProgress) ==>
        && r.Ok? && syncInProgress
        && lastSyncTime == old(lastSyncTime) && fetches == old(fetches) && ledger.records == old(ledger.records)
      ensures !old(syncInProgress) ==>
        && !syncInProgress
        && fetches == old(fetches) + [(old(lastSyncTime), now)]
        && var items := LegacyMockApi.GetTransactions(old(lastSyncTime), now, LegacyMockApi.DefaultPage, LegacyMockApi.DefaultLimit).items;
        && (r.Ok? ==>
              && lastSyncTime == now
              && ledger.records == old(ledger.records) + NewRecords(old(ledger.records), ToRecords(items)))
        && (r.Err? ==>
              && lastSyncTime == old(lastSyncTime) && ledger.records == old(ledger.records)
              && items != [] && writeFault.Some? && r.error == WriteError(writeFault.value))
        && (r.Ok? <==> items == [] || writeFault.None?)
    {
      if syncInProgress {
        return Ok(());
      }
      syncInProgress := true;
      var startDate, endDate := lastSyncTime, now;
      fetches := fetches + [(startDate, endDate)];
      var response := LegacyMockApi.GetTransactions(startDate, endDate, LegacyMockApi.DefaultPage, LegacyMockApi.DefaultLimit);
      r := StoreItems(ledger, response.items, writeFault);
      if r.Ok? {
        lastSyncTime := now;
      }
      syncInProgress := false;
    }

    /** The scheduled entry point: a sync whose error is caught and dropped. */
    method SyncTransactionsJob(now: nat, writeFault: Option<int>)
      requires ledger.Valid() && writeFault != Some(DuplicateKey)
      modifies this, ledger
      ensures ledger.Valid()
      ensures old(syncInProgress) ==>
        && syncInProgress
        && lastSyncTime == old(lastSyncTime) && fetches == old(fetches) && ledger.records == old(ledger.records)
      ensures !old(syncInProgress) ==>
        && !syncInProgress
        && fetches == old(fetches) + [(old(lastSyncTime), now)]
        && var items := LegacyMockApi.GetTransactions(old(lastSyncTime), now, LegacyMockApi.DefaultPage, LegacyMockApi.DefaultLimit).items;
        && (items == [] || writeFault.None? ==>
              && lastSyncTime == now
              && ledger.records == old(ledger.records) + NewRecords(old(ledger.records), ToRecords(items)))
        && (items != [] && writeFault.Some? ==>
              lastSyncTime == old(lastSyncTime) && ledger.records == old(ledger.records))
    {
      var _ := SyncTransactions(now, writeFault);
    }

    /** getAggregatedDataByUserId(userId) over the ledger. */
    method GetAggregatedDataByUserId(userId: string) returns (r: AggregatedData)
      ensures r.userId == userId
      ensures r.earned == Aggregation.SumOfKind(ledger.records, userId, Earned)
      ensures r.spent == Aggregation.SumOfKind(ledger.records, userId, Spent)
      ensures r.payout == Aggregation.SumOfKind(ledger.records, userId, Payout)
      ensures r.balance == r.earned - (r.spent + r.payout) && r.paidOut == r.payout
      ensures !Aggregation.HasRecordOf(ledger.records, userId) ==> r == AggregatedData(userId, 0.0, 0.0, 0.0, 0.0, 0.0)
    {
      r := Aggregation.AggregatedDataByUserId(ledger.records, userId);
    }

    /** getRequestedPayouts() over the ledger. */
    method GetRequestedPayouts() returns (r: seq<PayoutRequest>)
      ensures forall i, j :: 0 <= i < j < |r| ==> Aggregation.StrLess(r[i].userId, r[j].userId)
      ensures forall u :: (exists i :: 0 <= i < |r| && r[i].userId == u) <==> Aggregation.HasPayoutOf(ledger.records, u)
      ensures forall i :: 0 <= i < |r| ==> r[i].amount == Aggregation.SumOfKind(ledger.records, r[i].userId, Payout)
    {
      r := Aggregation.RequestedPayouts(ledger.records);
      Aggregation.RequestedPayoutsSpec(ledger.records);
      Aggregation.RequestedPayoutsFold(ledger.records);
      Aggregation.SortedPairwise(r);
      assert forall u :: u in Aggregation.UsersOf(r) <==> exists i :: 0 <= i < |r| && r[i].userId == u;
    }
  }

  /** Every stored transaction lies within [0, t], so the first page of
      that window is the whole stored list. */
  lemma FirstWindowHoldsAll(t: nat)
    requires t == 1678969991000
    ensures LegacyMockApi.GetTransactions(0, t, LegacyMockApi.DefaultPage, LegacyMockApi.DefaultLimit).items
         == LegacyMockApi.FixedTransactions
  {
    assert forall x :: x in LegacyMockApi.FixedTransactions ==> 0 <= x.createdAt <= t;
    LegacyMockApi.FilterKeepsAll(LegacyMockApi.FixedTransactions, 0, t);
    LegacyMockApi.FirstPageIsWhole(0, t);
  }

  /** The transaction stamped exactly at `t` is also in the next window,
      which starts at `t`. */
  lemma NextWindowRepeatsLatest(t: nat, t': nat)
    requires t == 1678969991000 && t <= t'
    ensures LegacyMockApi.FixedTransactions[0].createdAt == t
    ensures LegacyMockApi.FixedTransactions[0]
         in LegacyMockApi.GetTransactions(t, t', LegacyMockApi.DefaultPage, LegacyMockApi.DefaultLimit).items
  {
    var fixed := LegacyMockApi.FixedTransactions;
    assert fixed[0] in fixed && Pagination.InWindow(fixed[0], t, t');
    LegacyMockApi.FirstPageIsWhole(t, t');
  }

  /** Once every stored transaction is in the ledger, a sync of any of them
      adds nothing. */
  lemma {:induction false} ResyncAddsNothing(existing: seq<TransactionRecord>, all: seq<Transaction>, items: seq<Transaction>)
    requires Ids(ToRecords(all)) <= Ids(existing)
    requires forall x :: x in items ==> x in all
    ensures NewRecords(existing, ToRecords(items)) == []
  {
    IdsOfSubset(items, all);
    NoneNew(existing, ToRecords(items));
  }

  /** A first sync into an empty ledger stores every id of its batch. */
  lemma FirstSyncIds(items: seq<Transaction>, records: seq<TransactionRecord>)
    requires records == [] + NewRecords([], ToRecords(items))
    ensures Ids(records) == Ids(ToRecords(items))
  {
    NewRecordsIds([], ToRecords(items));
  }

  /** Two syncs against an empty ledger, the first at the time of the
      latest stored transaction and the second a minute later. Both windows
      include that transaction (their bounds are inclusive and the second
      starts at the first one's now), yet the ledger keeps one row for it:
      the second sync adds nothing. */
  method SameRecordSyncedTwice(now1: nat, now2: nat)
    returns (starts: seq<nat>, firstItems: seq<Transaction>, secondItems: seq<Transaction>,
             afterFirst: seq<TransactionRecord>, afterSecond: seq<TransactionRecord>)
    requires now1 == 1678969991000 && now2 == now1 + 60000
    ensures starts == [0, now1]
    ensures firstItems == LegacyMockApi.FixedTransactions
    ensures LegacyMockApi.FixedTransactions[0] in secondItems
    ensures Ids(afterFirst) == Ids(ToRecords(firstItems))
    ensures afterSecond == afterFirst
    ensures UniqueIds(afterSecond) && LegacyMockApi.FixedTransactions[0].id in Ids(afterSecond)
  {
    var ledger := new Ledger();
    var service := new TransactionAggregatorService(ledger);

    var start1 := service.lastSyncTime;
    firstItems := LegacyMockApi.GetTransactions(start1, now1, LegacyMockApi.DefaultPage, LegacyMockApi.DefaultLimit).items;
    var _ := service.SyncTransactions(now1, None);
    afterFirst := ledger.records;
    FirstSyncIds(firstItems, afterFirst);

    var start2 := service.lastSyncTime;
    secondItems := LegacyMockApi.GetTransactions(start2, now2, LegacyMockApi.DefaultPage, LegacyMockApi.DefaultLimit).items;
    var _ := service.SyncTransactions(now2, None);
    afterSecond := ledger.records;
    FirstWindowHoldsAll(now1);
    NextWindowRepeatsLatest(now1, now2);
    ResyncAddsNothing(afterFirst, firstItems, secondItems);
    assert afterSecond == afterFirst + [];
    starts := [start1, start2];
    assert ToRecords(firstItems)[0] in ToRecords(firstItems);
  }
}

/**
 * The in-process mock transaction source (`src/services`
 * `MockTransactionApiService`): a pure filter-and-slice over eight fixed
 * transactions, with no rate limiter (its pacing delay is not modelled).
 */
module LegacyMockApi {
  import opened Types
  import Pagination

  const DefaultPage := 1
  const DefaultLimit := 1000

  /** The eight stored transactions, in stored order; dates as epoch ms. */
  const FixedTransactions: seq<Transaction> := [
    Transaction("41bbdf81-735c-4aea-beb3-3e5f433a30c5", "074092", 1678969991000, Payout, 30.0),  // 2023-03-16T12:33:11Z
    Transaction("41bbdf81-735c-4aea-beb3-3e5fasfsdfef", "074092", 1678624391000, Spent, 12.0),   // 2023-03-12T12:33:11Z
    Transaction("41bbdf81-735c-4aea-beb3-342jhj234nj234", "074092", 1678883591000, Earned, 1.2), // 2023-03-15T12:33:11Z
    Transaction("a1b2c3d4-e5f6-7890-abcd-ef1234567890", "074093", 1678788922000, Earned, 50.0),  // 2023-03-14T10:15:22Z
    Transaction("b2c3d4e5-f6a7-8901-bcde-f12345678901", "074093", 1678890153000, Spent, 15.0),   // 2023-03-15T14:22:33Z
    Transaction("c3d4e5f6-a7b8-9012-cdef-123456789012", "074093", 1678959911000, Payout, 20.0),  // 2023-03-16T09:45:11Z
    Transaction("d4e5f6a7-b8c9-0123-defg-2345678901234", "074094", 1678437201000, Earned, 100.0), // 2023-03-10T08:33:21Z
    Transaction("e5f6a7b8-c9d0-1234-efgh-3456789012345", "074094", 1678639495000, Spent, 35.0)   // 2023-03-12T16:44:55Z
  ]

  /** getTransactions(startDate, endDate, page, limit). */
  function GetTransactions(startDate: nat, endDate: nat, page: int, limit: int): (r: TransactionResponse)
    requires limit >= 1
    ensures forall x :: x in r.items ==> x in FixedTransactions && startDate <= x.createdAt <= endDate
    ensures |r.items| <= limit && r.meta.itemCount == |r.items|
    ensures r.meta.itemsPerPage == limit && r.meta.currentPage == page
    ensures r.meta.totalItems == |Pagination.Filter(FixedTransactions, startDate, endDate)| <= |FixedTransactions|
    ensures 1 <= page ==>
      r.items == Pagination.PageSlice(Pagination.Filter(FixedTransactions, startDate, endDate), page, limit)
    ensures r.meta.totalPages == 0 <==> r.meta.totalItems == 0
    ensures r.meta.rateLimit == None
  {
    Pagination.GetPage(FixedTransactions, startDate, endDate, page, limit)
  }

  /** With the default page and limit one call returns the whole filtered
      list: eight transactions never fill a page of 1000. */
  lemma FirstPageIsWhole(lo: nat, hi: nat)
    ensures GetTransactions(lo, hi, DefaultPage, DefaultLimit).items == Pagination.Filter(FixedTransactions, lo, hi)
  {
    var f := Pagination.Filter(FixedTransactions, lo, hi);
    assert |FixedTransactions| == 8;
    assert Pagination.PageSlice(f, DefaultPage, DefaultLimit) == f[0..|f|];
  }

  /** The window 2023-03-14T00:00:00.000Z .. 2023-03-16T23:59:59.999Z holds
      five of the stored transactions, returned in stored order on one page. */
  lemma WindowQuery(lo: nat, hi: nat)
    requires lo == 1678752000000 && hi == 1679011199999
    ensures GetTransactions(lo, hi, DefaultPage, DefaultLimit).items
         == [FixedTransactions[0], FixedTransactions[2], FixedTransactions[3], FixedTransactions[4], FixedTransactions[5]]
    ensures GetTransactions(lo, hi, DefaultPage, DefaultLimit).meta.totalPages == 1
  {
    var s := FixedTransactions;
    var keep := [true, false, true, true, true, true, false, false];
    WindowMarks(lo, hi, keep);
    FilterEach(s, lo, hi, keep);
    SelectedFive(s, keep);
    SinglePage(s, lo, hi, [s[0], s[2], s[3], s[4], s[5]]);
  }

  lemma WindowMarks(lo: nat, hi: nat, keep: seq<bool>)
    requires lo == 1678752000000 && hi == 1679011199999
    requires keep == [true, false, true, true, true, true, false, false]
    ensures |keep| == |FixedTransactions|
    ensures forall i :: 0 <= i < |FixedTransactions| ==> keep[i] == (lo <= FixedTransactions[i].createdAt <= hi)
  {
  }

  lemma SelectedFive(s: seq<Transaction>, keep: seq<bool>)
    requires |s| == 8 && keep == [true, false, true, true, true, true, false, false]
    ensures Selected(s, keep) == [s[0], s[2], s[3], s[4], s[5]]
  {
    SelectedTail(s[4..], keep[4..]);
    var k := keep;
    assert s[4..][0] == s[4] && s[4..][1] == s[5];
    assert Selected(s[3..], k[3..]) == [s[3], s[4], s[5]];
    assert Selected(s[2..], k[2..]) == [s[2], s[3], s[4], s[5]];
    assert Selected(s[1..], k[1..]) == [s[2], s[3], s[4], s[5]];
  }

  /** The last four marks keep the first two of the last four items. */
  lemma SelectedTail(s: seq<Transaction>, keep: seq<bool>)
    requires |s| == 4 && keep == [true, true, false, false]
    ensures Selected(s, keep) == [s[0], s[1]]
  {
    var k := keep;
    assert Selected(s[4..], k[4..]) == [];
    assert Selected(s[3..], k[3..]) == [];
    assert Selected(s[2..], k[2..]) == [];
    assert Selected(s[1..], k[1..]) == [s[1]];
  }

  /** A filter result of at most one page is page 1, whole. */
  lemma SinglePage(s: seq<Transaction>, lo: nat, hi: nat, kept: seq<Transaction>)
    requires Pagination.Filter(s, lo, hi) == kept && 0 < |kept| <= DefaultLimit
    ensures Pagination.GetPage(s, lo, hi, DefaultPage, DefaultLimit).items == kept
    ensures Pagination.GetPage(s, lo, hi, DefaultPage, DefaultLimit).meta.totalPages == 1
  {
  }

  /** The filter of `s` keeps the items that `keep` marks as in the window. */
  lemma {:induction false} FilterEach(s: seq<Transaction>, lo: int, hi: int, keep: seq<bool>)
    requires |keep| == |s|
    requires forall i :: 0 <= i < |s| ==> keep[i] == (lo <= s[i].createdAt <= hi)
    ensures Pagination.Filter(s, lo, hi) == Selected(s, keep)
  {
    if s != [] {
      FilterEach(s[1..], lo, hi, keep[1..]);
    }
  }

  function Selected(s: seq<Transaction>, keep: seq<bool>): seq<Transaction>
    requires |keep| == |s|
  {
    if s == [] then [] else (if keep[0] then [s[0]] else []) + Selected(s[1..], keep[1..])
  }

  /** All eight lie in March 2023; with limit 2 the first page holds the
      first two stored transactions and there are four pages. */
  lemma FirstPageOfMarch(lo: nat, hi: nat)
    requires lo == 1677628800000 && hi == 1680307199999
    ensures var r := GetTransactions(lo, hi, 1, 2);
      && r.items == FixedTransactions[..2]
      && r.meta.totalItems == 8 && r.meta.totalPages == 4
  {
    FilterKeepsAll(FixedTransactions, lo, hi);
    FirstPageOfEight(FixedTransactions, lo, hi);
  }

  lemma FirstPageOfEight(s: seq<Transaction>, lo: nat, hi: nat)
    requires Pagination.Filter(s, lo, hi) == s && |s| == 8
    ensures var r := Pagination.GetPage(s, lo, hi, 1, 2);
      && r.items == s[..2] && r.meta.totalItems == 8 && r.meta.totalPages == 4
  {
    assert Pagination.CeilDiv(8, 2) == 4;
  }

  lemma {:induction false} FilterKeepsAll(s: seq<Transaction>, lo: int, hi: int)
    requires forall x :: x in s ==> lo <= x.createdAt <= hi
    ensures Pagination.Filter(s, lo, hi) == s
  {
    if s != [] {
      assert s[0] in s;
      FilterKeepsAll(s[1..], lo, hi);
    }
  }
}

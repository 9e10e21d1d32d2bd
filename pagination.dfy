/**
 * The filter-and-slice of `getTransactions`, shared by both mock transaction
 * sources: keep the items whose `createdAt` lies in the inclusive window
 * [startDate, endDate], in stored order, then return page `page` as the
 * JavaScript slice [(page - 1) * limit, page * limit) with its metadata.
 */
module Pagination {
  import opened Types

  predicate InWindow(t: Transaction, startDate: int, endDate: int)
  {
    startDate <= t.createdAt <= endDate
  }

  /** `transactions.filter(t => t.createdAt >= start && t.createdAt <= end)`. */
  function Filter(s: seq<Transaction>, startDate: int, endDate: int): (r: seq<Transaction>)
    ensures |r| <= |s|
    ensures forall x :: x in r ==> x in s && InWindow(x, startDate, endDate)
    ensures forall x :: x in s && InWindow(x, startDate, endDate) ==> x in r
  {
    if s == [] then []
    else if InWindow(s[0], startDate, endDate) then [s[0]] + Filter(s[1..], startDate, endDate)
    else Filter(s[1..], startDate, endDate)
  }

  /** The filter keeps the stored order: it distributes over concatenation. */
  lemma {:induction false} FilterAppend(a: seq<Transaction>, b: seq<Transaction>, startDate: int, endDate: int)
    ensures Filter(a + b, startDate, endDate) == Filter(a, startDate, endDate) + Filter(b, startDate, endDate)
  {
    if a != [] {
      assert (a + b)[1..] == a[1..] + b;
      FilterAppend(a[1..], b, startDate, endDate);
    } else {
      assert a + b == b;
    }
  }

  /** `Array.prototype.slice(start, end)` with JavaScript's clamping of
      negative and out-of-range indices. */
  function JsSlice<T>(s: seq<T>, start: int, end: int): (r: seq<T>)
    ensures |r| <= |s|
    ensures 0 <= start <= end ==> |r| <= end - start
    ensures 0 <= start <= end ==>
      r == s[if start < |s| then start else |s|..if end < |s| then end else |s|]
  {
    var n := |s|;
    var from := if start < 0 then (if n + start < 0 then 0 else n + start) else (if start < n then start else n);
    var to := if end < 0 then (if n + end < 0 then 0 else n + end) else (if end < n then end else n);
    if from < to then s[from..to] else []
  }

  /** `Math.ceil(n / limit)` for a count `n` and a positive page size. */
  function CeilDiv(n: nat, limit: int): (r: nat)
    requires limit >= 1
    ensures n <= r * limit
    ensures r == 0 || (r - 1) * limit < n
    ensures r == 0 <==> n == 0
  {
    if n == 0 then 0 else
      var q := (n - 1) / limit;
      assert q * limit <= n - 1 < q * limit + limit;
      assert (q + 1) * limit == q * limit + limit;
      q + 1
  }

  /** The items of page `page` of `s`. */
  function PageSlice<T>(s: seq<T>, page: int, limit: int): seq<T>
  {
    JsSlice(s, (page - 1) * limit, page * limit)
  }

  /** One answer of `getTransactions(startDate, endDate, page, limit)` over the
      source's stored items, without the rate-limit block. */
  function GetPage(transactions: seq<Transaction>, startDate: int, endDate: int, page: int, limit: int)
    : (r: TransactionResponse)
    requires limit >= 1
    ensures forall x :: x in r.items ==> x in transactions && InWindow(x, startDate, endDate)
    ensures |r.items| <= limit
    ensures r.meta.totalItems == |Filter(transactions, startDate, endDate)|
    ensures r.meta.itemCount == |r.items| && r.meta.itemsPerPage == limit && r.meta.currentPage == page
    ensures r.meta.totalPages * limit >= r.meta.totalItems
    ensures r.meta.totalPages == 0 || (r.meta.totalPages - 1) * limit < r.meta.totalItems
    ensures r.meta.rateLimit == None
    ensures 1 <= page ==> r.items == PageSlice(Filter(transactions, startDate, endDate), page, limit)
    ensures 1 <= page && r.meta.totalPages < page ==> r.items == []
    ensures 1 <= page < r.meta.totalPages ==> |r.items| == limit
  {
    var filtered := Filter(transactions, startDate, endDate);
    var items := PageSlice(filtered, page, limit);
    var totalPages := CeilDiv(|filtered|, limit);
    PageBounds(|filtered|, page, limit, totalPages);
    TransactionResponse(items, PageMeta(|filtered|, |items|, limit, totalPages, page, None))
  }

  lemma PageBounds(n: nat, page: int, limit: int, totalPages: nat)
    requires limit >= 1 && totalPages == CeilDiv(n, limit)
    ensures 1 <= page ==> 0 <= (page - 1) * limit <= page * limit
    ensures totalPages < page ==> n <= (page - 1) * limit
    ensures 1 <= page < totalPages ==> page * limit <= n
  {
    if 1 <= page {
      assert page * limit == (page - 1) * limit + limit;
    }
    if totalPages < page {
      MulMonotone(totalPages, page - 1, limit);
    }
    if 1 <= page < totalPages {
      MulMonotone(page, totalPages - 1, limit);
    }
  }

  lemma MulMonotone(a: int, b: int, limit: int)
    requires 0 <= a <= b && limit >= 1
    ensures a * limit <= b * limit
  {
    assert b * limit == a * limit + (b - a) * limit;
  }

  /** Pages 1..k of `s` concatenated. */
  function Pages<T>(s: seq<T>, k: nat, limit: int): seq<T>
  {
    if k == 0 then [] else Pages(s, k - 1, limit) + PageSlice(s, k, limit)
  }

  /** Pages 1..k are the first k * limit elements of `s`, in order, with no
      gap and no overlap. */
  lemma {:induction false} PagesArePrefix<T>(s: seq<T>, k: nat, limit: int)
    requires limit >= 1
    ensures Pages(s, k, limit) == s[..if k * limit < |s| then k * limit else |s|]
  {
    if k > 0 {
      PagesArePrefix(s, k - 1, limit);
      var lo, hi := (k - 1) * limit, k * limit;
      StepBounds(k, limit);
      var clo := if lo < |s| then lo else |s|;
      var chi := if hi < |s| then hi else |s|;
      assert PageSlice(s, k, limit) == s[clo..chi];
      assert s[..chi] == s[..clo] + s[clo..chi];
    }
  }

  lemma StepBounds(k: nat, limit: int)
    requires k >= 1 && limit >= 1
    ensures 0 <= (k - 1) * limit <= k * limit
  {
    assert k * limit == (k - 1) * limit + limit;
    MulMonotone(0, k - 1, limit);
  }

  /** Pagination completeness: pages 1..totalPages of an answer concatenate
      to the filtered list, and every later page is empty. */
  lemma PaginationComplete(transactions: seq<Transaction>, startDate: int, endDate: int, limit: int)
    requires limit >= 1
    ensures var filtered := Filter(transactions, startDate, endDate);
            var totalPages := GetPage(transactions, startDate, endDate, 1, limit).meta.totalPages;
            && Pages(filtered, totalPages, limit) == filtered
            && forall page :: page > totalPages ==> GetPage(transactions, startDate, endDate, page, limit).items == []
  {
    var filtered := Filter(transactions, startDate, endDate);
    var totalPages := CeilDiv(|filtered|, limit);
    PagesArePrefix(filtered, totalPages, limit);
    assert filtered[..|filtered|] == filtered;
  }

  lemma DivFacts(i: nat, limit: int)
    requires limit >= 1
    ensures 0 <= (i / limit) * limit <= i < (i / limit) * limit + limit
    ensures (i / limit + 1) * limit == (i / limit) * limit + limit
  {
  }

  /** Index `i` of a list of `n` items falls in the slice of page
      i / limit + 1, which is at most ceil(n / limit). */
  lemma IndexPage(n: nat, i: nat, limit: int)
    requires limit >= 1 && i < n
    ensures var q := i / limit;
      && 0 <= q * limit <= i < (q + 1) * limit
      && q + 1 <= CeilDiv(n, limit)
  {
    var q := i / limit;
    DivFacts(i, limit);
    if CeilDiv(n, limit) < q + 1 {
      MulMonotone(CeilDiv(n, limit), q, limit);
    }
  }

  /** Every filtered item is on the page its index selects, between 1 and
      totalPages. */
  lemma ItemOnPage(transactions: seq<Transaction>, startDate: int, endDate: int, limit: int, i: nat)
    requires limit >= 1 && i < |Filter(transactions, startDate, endDate)|
    ensures var page := i / limit + 1;
            var r := GetPage(transactions, startDate, endDate, page, limit);
            && 1 <= page <= r.meta.totalPages
            && Filter(transactions, startDate, endDate)[i] in r.items
  {
    var filtered := Filter(transactions, startDate, endDate);
    var page := i / limit + 1;
    IndexPage(|filtered|, i, limit);
    var lo, hi := (page - 1) * limit, page * limit;
    ItemInSlice(filtered, lo, hi, i);
  }

  lemma ItemInSlice<T>(s: seq<T>, lo: int, hi: int, i: nat)
    requires 0 <= lo <= i < hi && i < |s|
    ensures s[i] in JsSlice(s, lo, hi)
  {
    assert JsSlice(s, lo, hi)[i - lo] == s[i];
  }
}

/**
 * The two read models both `TransactionAggregatorService` classes compute
 * with MongoDB aggregation pipelines, as folds over the ledger's records:
 *   getAggregatedDataByUserId: $match userId, one $group summing amounts by
 *     type, $project balance = earned - (spent + payout), paidOut = payout;
 *     all zeros when nothing matches;
 *   getRequestedPayouts: $match type payout, $group by userId summing
 *     amounts, $sort by userId ascending.
 */
module Aggregation {
  import opened Types

  // ---------------------------------------------------------------------
  // The byte-wise string order MongoDB sorts userIds by.

  /** Lexicographic order on strings (code point order equals UTF-8 byte order). */
  function StrLess(a: string, b: string): (less: bool)
    ensures less ==> a != b
    ensures |a| < |b| && a == b[..|a|] ==> less
    decreases |a|
  {
    if |a| == 0 then |b| > 0
    else if |b| == 0 then false
    else if a[0] != b[0] then a[0] < b[0]
    else StrLess(a[1..], b[1..])
  }

  lemma {:induction false} StrLessIrreflexive(a: string)
    ensures !StrLess(a, a)
    decreases |a|
  {
    if |a| > 0 { StrLessIrreflexive(a[1..]); }
  }

  lemma {:induction false} StrLessTransitive(a: string, b: string, c: string)
    requires StrLess(a, b) && StrLess(b, c)
    ensures StrLess(a, c)
    decreases |a|
  {
    if |a| > 0 && a[0] == b[0] && b[0] == c[0] {
      StrLessTransitive(a[1..], b[1..], c[1..]);
    }
  }

  lemma {:induction false} StrLessTotal(a: string, b: string)
    requires a != b
    ensures StrLess(a, b) || StrLess(b, a)
    decreases |a|
  {
    if |a| > 0 && |b| > 0 && a[0] == b[0] {
      assert a == [a[0]] + a[1..] && b == [b[0]] + b[1..];
      StrLessTotal(a[1..], b[1..]);
    }
  }

  // ---------------------------------------------------------------------
  // Per-user aggregate.

  /** The reference definition: the sum of `userId`'s amounts of one kind. */
  function SumOfKind(records: seq<TransactionRecord>, userId: string, kind: TransactionType): real
  {
    if records == [] then 0.0
    else (if records[0].userId == userId && records[0].kind == kind then records[0].amount else 0.0)
         + SumOfKind(records[1..], userId, kind)
  }

  predicate HasRecordOf(records: seq<TransactionRecord>, userId: string)
  {
    exists r :: r in records && r.userId == userId
  }

  /** The accumulator of the $group stage. */
  datatype Sums = Sums(earned: real, spent: real, payout: real)

  /** The $match + $group stages: one pass adding each matching record's
      amount to the sum of its kind. */
  function GroupSums(records: seq<TransactionRecord>, userId: string): (s: Sums)
    ensures s.earned == SumOfKind(records, userId, Earned)
    ensures s.spent == SumOfKind(records, userId, Spent)
    ensures s.payout == SumOfKind(records, userId, Payout)
  {
    if records == [] then Sums(0.0, 0.0, 0.0)
    else
      var acc := GroupSums(records[1..], userId);
      var r := records[0];
      if r.userId != userId then acc
      else match r.kind
        case Earned => acc.(earned := acc.earned + r.amount)
        case Spent => acc.(spent := acc.spent + r.amount)
        case Payout => acc.(payout := acc.payout + r.amount)
  }

  /** getAggregatedDataByUserId(userId) over the ledger `records`. */
  function AggregatedDataByUserId(records: seq<TransactionRecord>, userId: string): (r: AggregatedData)
    ensures r.userId == userId
    ensures r.earned == SumOfKind(records, userId, Earned)
    ensures r.spent == SumOfKind(records, userId, Spent)
    ensures r.payout == SumOfKind(records, userId, Payout)
    ensures r.balance == r.earned - (r.spent + r.payout)
    ensures r.paidOut == r.payout
    ensures !HasRecordOf(records, userId) ==> r == AggregatedData(userId, 0.0, 0.0, 0.0, 0.0, 0.0)
  {
    if !HasRecordOf(records, userId) then
      NoRecordsSumZero(records, userId);
      AggregatedData(userId, 0.0, 0.0, 0.0, 0.0, 0.0)
    else
      var s := GroupSums(records, userId);
      AggregatedData(userId, s.earned - (s.spent + s.payout), s.earned, s.spent, s.payout, s.payout)
  }

  /** With no record of the user every kind sums to zero. */
  lemma {:induction false} NoRecordsSumZero(records: seq<TransactionRecord>, userId: string)
    requires !HasRecordOf(records, userId)
    ensures forall kind :: SumOfKind(records, userId, kind) == 0.0
  {
    if records != [] {
      assert !HasRecordOf(records[1..], userId) by {
        forall r | r in records[1..] ensures r.userId != userId { assert r in records; }
      }
      NoRecordsSumZero(records[1..], userId);
    }
  }

  /** The sums are additive over ledger concatenation, so records added by a
      sync add their amounts to the aggregate and nothing else. */
  lemma {:induction false} SumOfKindAppend(a: seq<TransactionRecord>, b: seq<TransactionRecord>, userId: string, kind: TransactionType)
    ensures SumOfKind(a + b, userId, kind) == SumOfKind(a, userId, kind) + SumOfKind(b, userId, kind)
  {
    if a == [] {
      assert a + b == b;
    } else {
      assert (a + b)[1..] == a[1..] + b;
      SumOfKindAppend(a[1..], b, userId, kind);
    }
  }

  /** Only the user's own records contribute: a record of another user
      changes nothing in the aggregate. */
  lemma OtherUsersIrrelevant(records: seq<TransactionRecord>, other: TransactionRecord, userId: string)
    requires other.userId != userId
    ensures AggregatedDataByUserId(records + [other], userId).earned == AggregatedDataByUserId(records, userId).earned
    ensures AggregatedDataByUserId(records + [other], userId).spent == AggregatedDataByUserId(records, userId).spent
    ensures AggregatedDataByUserId(records + [other], userId).payout == AggregatedDataByUserId(records, userId).payout
    ensures AggregatedDataByUserId(records + [other], userId).balance == AggregatedDataByUserId(records, userId).balance
  {
    forall kind ensures SumOfKind(records + [other], userId, kind) == SumOfKind(records, userId, kind) {
      SumOfKindAppend(records, [other], userId, kind);
      assert SumOfKind([other], userId, kind) == 0.0;
    }
  }

  /** The aggregate the service's own test expects: 100 earned, 30 spent and
      20 paid out give balance 50. */
  lemma AggregateExample(t: nat)
    ensures AggregatedDataByUserId([
        TransactionRecord("1", "074092", t, Earned, 100.0),
        TransactionRecord("2", "074092", t, Spent, 30.0),
        TransactionRecord("3", "074092", t, Payout, 20.0)], "074092")
      == AggregatedData("074092", 50.0, 100.0, 30.0, 20.0, 20.0)
  {
    var records := [
        TransactionRecord("1", "074092", t, Earned, 100.0),
        TransactionRecord("2", "074092", t, Spent, 30.0),
        TransactionRecord("3", "074092", t, Payout, 20.0)];
    assert records[0] in records;
    assert records[1..][1..][1..] == [];
    assert GroupSums(records[2..], "074092") == Sums(0.0, 0.0, 20.0);
    assert GroupSums(records[1..], "074092") == Sums(0.0, 30.0, 20.0);
    assert GroupSums(records, "074092") == Sums(100.0, 30.0, 20.0);
  }

  // ---------------------------------------------------------------------
  // Pending payouts.

  /** Entries in strictly ascending userId order, hence one per user. */
  predicate StrictlySorted(list: seq<PayoutRequest>)
  {
    list == [] || (LessThanAll(list[0].userId, list[1..]) && StrictlySorted(list[1..]))
  }

  predicate LessThanAll(u: string, list: seq<PayoutRequest>)
  {
    forall p :: p in list ==> StrLess(u, p.userId)
  }

  lemma {:induction false} SortedPairwise(list: seq<PayoutRequest>)
    requires StrictlySorted(list)
    ensures forall i, j :: 0 <= i < j < |list| ==> StrLess(list[i].userId, list[j].userId)
  {
    if list != [] {
      SortedPairwise(list[1..]);
      forall i, j | 0 <= i < j < |list| ensures StrLess(list[i].userId, list[j].userId) {
        if i == 0 {
          assert list[j] in list[1..];
        } else {
          assert list[i] == list[1..][i - 1] && list[j] == list[1..][j - 1];
        }
      }
    }
  }

  function UsersOf(list: seq<PayoutRequest>): set<string>
  {
    set p | p in list :: p.userId
  }

  /** The total listed for `userId` (zero when unlisted). */
  function ListedAmount(list: seq<PayoutRequest>, userId: string): real
  {
    if list == [] then 0.0
    else (if list[0].userId == userId then list[0].amount else 0.0) + ListedAmount(list[1..], userId)
  }

  /** Adds one payout amount to the user's group, keeping the groups sorted. */
  function AddToGroup(list: seq<PayoutRequest>, userId: string, amount: real): (r: seq<PayoutRequest>)
    ensures |list| <= |r| <= |list| + 1
    ensures userId !in UsersOf(list) ==> |r| == |list| + 1
  {
    if list == [] then [PayoutRequest(userId, amount)]
    else if list[0].userId == userId then [PayoutRequest(userId, list[0].amount + amount)] + list[1..]
    else if StrLess(userId, list[0].userId) then [PayoutRequest(userId, amount)] + list
    else [list[0]] + AddToGroup(list[1..], userId, amount)
  }

  lemma UsersCons(head: PayoutRequest, rest: seq<PayoutRequest>)
    ensures UsersOf([head] + rest) == {head.userId} + UsersOf(rest)
  {
    var l := [head] + rest;
    forall u | u in UsersOf(rest) ensures u in UsersOf(l) {
      var p :| p in rest && p.userId == u;
      assert p in l;
    }
  }

  lemma {:induction false} AddToGroupUsers(list: seq<PayoutRequest>, userId: string, amount: real)
    ensures UsersOf(AddToGroup(list, userId, amount)) == UsersOf(list) + {userId}
  {
    var r := AddToGroup(list, userId, amount);
    if list == [] {
      assert r == [PayoutRequest(userId, amount)];
    } else {
      var head := list[0];
      var rest := list[1..];
      assert list == [head] + rest;
      UsersCons(head, rest);
      if head.userId == userId {
        UsersCons(r[0], rest);
      } else if StrLess(userId, head.userId) {
        UsersCons(r[0], list);
      } else {
        AddToGroupUsers(rest, userId, amount);
        UsersCons(head, AddToGroup(rest, userId, amount));
      }
    }
  }

  lemma SortedCons(head: PayoutRequest, tail: seq<PayoutRequest>)
    requires LessThanAll(head.userId, tail) && StrictlySorted(tail)
    ensures StrictlySorted([head] + tail)
  {
    assert ([head] + tail)[1..] == tail;
  }

  /** A user below the head of a sorted list is below all of it. */
  lemma BelowHead(u: string, list: seq<PayoutRequest>)
    requires list != [] && StrictlySorted(list) && StrLess(u, list[0].userId)
    ensures LessThanAll(u, list)
  {
    forall p | p in list ensures StrLess(u, p.userId) {
      if p != list[0] {
        assert p in list[1..] by {
          var k :| 0 <= k < |list| && list[k] == p;
          assert list[1..][k - 1] == p;
        }
        StrLessTransitive(u, list[0].userId, p.userId);
      }
    }
  }

  /** The head stays below a tail that gained a user above it. */
  lemma BelowGrownTail(h: string, rest: seq<PayoutRequest>, tail: seq<PayoutRequest>, userId: string)
    requires LessThanAll(h, rest) && StrLess(h, userId)
    requires UsersOf(tail) == UsersOf(rest) + {userId}
    ensures LessThanAll(h, tail)
  {
    forall p | p in tail ensures StrLess(h, p.userId) {
      assert p.userId in UsersOf(tail);
      if p.userId != userId {
        var q :| q in rest && q.userId == p.userId;
      }
    }
  }

  lemma {:induction false} AddToGroupSorted(list: seq<PayoutRequest>, userId: string, amount: real)
    requires StrictlySorted(list)
    ensures StrictlySorted(AddToGroup(list, userId, amount))
  {
    if list == [] {
      SortedCons(PayoutRequest(userId, amount), []);
      assert [PayoutRequest(userId, amount)] + [] == [PayoutRequest(userId, amount)];
    } else {
      var head := list[0];
      var rest := list[1..];
      if head.userId == userId {
        SortedCons(PayoutRequest(userId, head.amount + amount), rest);
      } else if StrLess(userId, head.userId) {
        BelowHead(userId, list);
        SortedCons(PayoutRequest(userId, amount), list);
      } else {
        StrLessTotal(userId, head.userId);
        var tail := AddToGroup(rest, userId, amount);
        AddToGroupSorted(rest, userId, amount);
        AddToGroupUsers(rest, userId, amount);
        BelowGrownTail(head.userId, rest, tail, userId);
        SortedCons(head, tail);
      }
    }
  }

  lemma {:induction false} AddToGroupAmounts(list: seq<PayoutRequest>, userId: string, amount: real, u: string)
    ensures ListedAmount(AddToGroup(list, userId, amount), u)
         == ListedAmount(list, u) + (if u == userId then amount else 0.0)
  {
    var r := AddToGroup(list, userId, amount);
    if list == [] {
      assert r[1..] == [];
    } else if list[0].userId == userId {
      assert r[1..] == list[1..];
    } else if StrLess(userId, list[0].userId) {
      assert r[1..] == list;
    } else {
      AddToGroupAmounts(list[1..], userId, amount, u);
      assert r[1..] == AddToGroup(list[1..], userId, amount);
    }
  }

  /** A user listed at index i of a sorted list is listed there alone. */
  lemma {:induction false} ListedAmountAt(list: seq<PayoutRequest>, i: nat)
    requires StrictlySorted(list) && i < |list|
    ensures ListedAmount(list, list[i].userId) == list[i].amount
  {
    var u := list[i].userId;
    if i == 0 {
      UnlistedZero(list[1..], u);
    } else {
      assert list[i] in list[1..] by { assert list[1..][i - 1] == list[i]; }
      assert list[0].userId != u by { StrLessIrreflexive(u); }
      ListedAmountAt(list[1..], i - 1);
    }
  }

  lemma {:induction false} UnlistedZero(list: seq<PayoutRequest>, u: string)
    requires LessThanAll(u, list)
    ensures ListedAmount(list, u) == 0.0
  {
    if list != [] {
      StrLessIrreflexive(u);
      assert list[0] in list;
      forall p | p in list[1..] ensures StrLess(u, p.userId) { assert p in list; }
      UnlistedZero(list[1..], u);
    }
  }

  predicate HasPayoutOf(records: seq<TransactionRecord>, userId: string)
  {
    exists r :: r in records && r.userId == userId && r.kind == Payout
  }

  /** getRequestedPayouts() over the ledger `records`: every payout record's
      amount is added to its user's group. */
  function RequestedPayouts(records: seq<TransactionRecord>): (r: seq<PayoutRequest>)
    ensures |r| <= |records|
  {
    if records == [] then []
    else
      var rest := RequestedPayouts(records[1..]);
      if records[0].kind == Payout then AddToGroup(rest, records[0].userId, records[0].amount) else rest
  }

  /** The payouts list is sorted strictly by userId, lists exactly the users
      with at least one payout record, and gives each the sum of that user's
      payout amounts; other kinds never contribute. */
  lemma {:induction false} RequestedPayoutsSpec(records: seq<TransactionRecord>)
    ensures var r := RequestedPayouts(records);
      && (forall i, j :: 0 <= i < j < |r| ==> StrLess(r[i].userId, r[j].userId))
      && (forall u :: u in UsersOf(r) <==> HasPayoutOf(records, u))
      && (forall i :: 0 <= i < |r| ==> r[i].amount == SumOfKind(records, r[i].userId, Payout))
  {
    RequestedPayoutsFold(records);
    var r := RequestedPayouts(records);
    SortedPairwise(r);
    forall i | 0 <= i < |r| ensures r[i].amount == SumOfKind(records, r[i].userId, Payout) {
      ListedAmountAt(r, i);
    }
  }

  lemma {:induction false} RequestedPayoutsFold(records: seq<TransactionRecord>)
    ensures var r := RequestedPayouts(records);
      && StrictlySorted(r)
      && (forall u :: u in UsersOf(r) <==> HasPayoutOf(records, u))
      && (forall u :: ListedAmount(r, u) == SumOfKind(records, u, Payout))
  {
    if records != [] {
      var head := records[0];
      var tail := records[1..];
      RequestedPayoutsFold(tail);
      var rest := RequestedPayouts(tail);
      assert forall u :: HasPayoutOf(records, u) <==> HasPayoutOf(tail, u) || (head.userId == u && head.kind == Payout) by {
        forall u ensures HasPayoutOf(records, u) ==> HasPayoutOf(tail, u) || (head.userId == u && head.kind == Payout) {
          if HasPayoutOf(records, u) {
            var x :| x in records && x.userId == u && x.kind == Payout;
            if x != head {
              var k :| 0 <= k < |records| && records[k] == x;
              assert k != 0;
              assert tail[k - 1] == x;
            }
          }
        }
        forall u | HasPayoutOf(tail, u) ensures HasPayoutOf(records, u) {
          var x :| x in tail && x.userId == u && x.kind == Payout;
          assert x in records;
        }
        assert head in records;
      }
      if head.kind == Payout {
        AddToGroupSorted(rest, head.userId, head.amount);
        AddToGroupUsers(rest, head.userId, head.amount);
        forall u ensures ListedAmount(RequestedPayouts(records), u) == SumOfKind(records, u, Payout) {
          AddToGroupAmounts(rest, head.userId, head.amount, u);
        }
      }
    }
  }

  /** The payouts the service's own test expects, in userId order. */
  lemma PayoutsExample(t: nat)
    ensures RequestedPayouts([
        TransactionRecord("1", "074092", t, Payout, 50.0),
        TransactionRecord("2", "074093", t, Payout, 30.0)])
      == [PayoutRequest("074092", 50.0), PayoutRequest("074093", 30.0)]
  {
    var records := [
        TransactionRecord("1", "074092", t, Payout, 50.0),
        TransactionRecord("2", "074093", t, Payout, 30.0)];
    assert records[1..] == [records[1]];
    assert records[1..][1..] == [];
    assert RequestedPayouts(records[1..]) == [PayoutRequest("074093", 30.0)];
    assert "074092" != "074093" by { assert "074092"[5] != "074093"[5]; }
    assert StrLess("074092", "074093") by {
      assert "074092"[1..] == "74092" && "074093"[1..] == "74093";
      assert "74092"[1..] == "4092" && "74093"[1..] == "4093";
      assert "4092"[1..] == "092" && "4093"[1..] == "093";
      assert "092"[1..] == "92" && "093"[1..] == "93";
      assert "92"[1..] == "2" && "93"[1..] == "3";
    }
  }
}

/**
 * The transaction ledger (the `transactions` collection, unique on
 * `transactionId`) and the store step both sync paths share: map each
 * source item to a record and `insertMany(records, { ordered: false })`,
 * swallowing the duplicate-key error 11000 and rethrowing any other.
 */
module LedgerStore {
  import opened Types

  /** MongoDB's duplicate-key error code. */
  const DuplicateKey := 11000

  /** `{ transactionId: item.id, userId, createdAt, type, amount }`. */
  function ToRecord(item: Transaction): (r: TransactionRecord)
    ensures r.transactionId == item.id && r.userId == item.userId && r.createdAt == item.createdAt
    ensures r.kind == item.kind && r.amount == item.amount
  {
    TransactionRecord(item.id, item.userId, item.createdAt, item.kind, item.amount)
  }

  function ToRecords(items: seq<Transaction>): (r: seq<TransactionRecord>)
    ensures |r| == |items|
    ensures forall i :: 0 <= i < |items| ==> r[i] == ToRecord(items[i])
  {
    if items == [] then [] else [ToRecord(items[0])] + ToRecords(items[1..])
  }

  lemma {:induction false} ToRecordsAppend(a: seq<Transaction>, b: seq<Transaction>)
    ensures ToRecords(a + b) == ToRecords(a) + ToRecords(b)
  {
    assert |ToRecords(a + b)| == |ToRecords(a) + ToRecords(b)|;
    forall i | 0 <= i < |a + b| ensures ToRecords(a + b)[i] == (ToRecords(a) + ToRecords(b))[i] {
      if i < |a| { assert (a + b)[i] == a[i]; } else { assert (a + b)[i] == b[i - |a|]; }
    }
  }

  function Ids(records: seq<TransactionRecord>): set<string>
  {
    set r | r in records :: r.transactionId
  }

  predicate UniqueIds(records: seq<TransactionRecord>)
  {
    forall i, j :: 0 <= i < j < |records| ==> records[i].transactionId != records[j].transactionId
  }

  /** Items drawn from `b` carry ids of `b`'s records. */
  lemma {:induction false} IdsOfSubset(a: seq<Transaction>, b: seq<Transaction>)
    requires forall x :: x in a ==> x in b
    ensures Ids(ToRecords(a)) <= Ids(ToRecords(b))
  {
    if a != [] {
      assert forall x :: x in a[1..] ==> x in a;
      IdsOfSubset(a[1..], b);
      IdsCons(ToRecord(a[0]), ToRecords(a[1..]));
      assert ToRecords(a) == [ToRecord(a[0])] + ToRecords(a[1..]);
      assert a[0] in b;
      var j :| 0 <= j < |b| && b[j] == a[0];
      assert ToRecords(b)[j] in ToRecords(b);
    }
  }

  /** The records an unordered insertMany of `batch` adds to `existing`: each
      batch record whose id is neither stored already nor taken by an earlier
      record of the batch. */
  function NewRecords(existing: seq<TransactionRecord>, batch: seq<TransactionRecord>)
    : (r: seq<TransactionRecord>)
    ensures |r| <= |batch|
    ensures forall x :: x in r ==> x in batch
    decreases |batch|
  {
    if batch == [] then []
    else if batch[0].transactionId in Ids(existing) then NewRecords(existing, batch[1..])
    else [batch[0]] + NewRecords(existing + [batch[0]], batch[1..])
  }

  lemma IdsCons(head: TransactionRecord, rest: seq<TransactionRecord>)
    ensures Ids([head] + rest) == {head.transactionId} + Ids(rest)
  {
    var s := [head] + rest;
    forall x | x in Ids(rest) ensures x in Ids(s) {
      var r :| r in rest && r.transactionId == x;
      assert r in s;
    }
  }

  lemma IdsSnoc(existing: seq<TransactionRecord>, x: TransactionRecord)
    ensures Ids(existing + [x]) == Ids(existing) + {x.transactionId}
  {
    var s := existing + [x];
    assert x in s;
    forall y | y in Ids(existing) ensures y in Ids(s) {
      var r :| r in existing && r.transactionId == y;
      assert r in s;
    }
  }

  /** An insert adds only batch records whose ids the ledger lacks. */
  lemma {:induction false} NewRecordsAreNew(existing: seq<TransactionRecord>, batch: seq<TransactionRecord>)
    ensures forall x :: x in NewRecords(existing, batch) ==> x in batch && x.transactionId !in Ids(existing)
    decreases |batch|
  {
    if batch != [] {
      var head := batch[0];
      var rest := batch[1..];
      if head.transactionId in Ids(existing) {
        NewRecordsAreNew(existing, rest);
      } else {
        var e' := existing + [head];
        NewRecordsAreNew(e', rest);
        IdsSnoc(existing, head);
      }
    }
  }

  /** One step of an insert: the ledger after inserting `batch` is the
      ledger after inserting its tail into `existing`, grown by the head when
      the head's id is new. */
  lemma NewRecordsStep(existing: seq<TransactionRecord>, batch: seq<TransactionRecord>)
    requires batch != []
    ensures batch[0].transactionId in Ids(existing) ==>
      existing + NewRecords(existing, batch) == existing + NewRecords(existing, batch[1..])
    ensures batch[0].transactionId !in Ids(existing) ==>
      existing + NewRecords(existing, batch)
      == (existing + [batch[0]]) + NewRecords(existing + [batch[0]], batch[1..])
  {
  }

  /** After an insert the ledger holds exactly its old ids and the batch's. */
  lemma {:induction false} NewRecordsIds(existing: seq<TransactionRecord>, batch: seq<TransactionRecord>)
    ensures Ids(existing + NewRecords(existing, batch)) == Ids(existing) + Ids(batch)
    decreases |batch|
  {
    if batch == [] {
      assert existing + [] == existing;
    } else {
      var head := batch[0];
      var rest := batch[1..];
      assert batch == [head] + rest;
      IdsCons(head, rest);
      NewRecordsStep(existing, batch);
      if head.transactionId in Ids(existing) {
        NewRecordsIds(existing, rest);
      } else {
        NewRecordsIds(existing + [head], rest);
        IdsSnoc(existing, head);
      }
    }
  }

  /** An insert keeps the ids of the ledger unique (the unique index). */
  lemma {:induction false} NewRecordsUnique(existing: seq<TransactionRecord>, batch: seq<TransactionRecord>)
    requires UniqueIds(existing)
    ensures UniqueIds(existing + NewRecords(existing, batch))
    decreases |batch|
  {
    if batch == [] {
      assert existing + [] == existing;
    } else {
      var head := batch[0];
      var rest := batch[1..];
      NewRecordsStep(existing, batch);
      if head.transactionId in Ids(existing) {
        NewRecordsUnique(existing, rest);
      } else {
        UniqueSnoc(existing, head);
        NewRecordsUnique(existing + [head], rest);
      }
    }
  }

  /** Appending a record with a new id keeps the ids unique. */
  lemma UniqueSnoc(existing: seq<TransactionRecord>, x: TransactionRecord)
    requires UniqueIds(existing) && x.transactionId !in Ids(existing)
    ensures UniqueIds(existing + [x])
  {
    forall k | 0 <= k < |existing| ensures existing[k].transactionId != x.transactionId {
      assert existing[k] in existing;
    }
  }

  /** Inserting a batch again adds nothing: syncing the same items twice
      leaves one row per transaction id. */
  lemma InsertAgainAddsNothing(existing: seq<TransactionRecord>, batch: seq<TransactionRecord>)
    ensures NewRecords(existing + NewRecords(existing, batch), batch) == []
  {
    NewRecordsIds(existing, batch);
    NoneNew(existing + NewRecords(existing, batch), batch);
  }

  /** A batch whose ids are all stored adds nothing. */
  lemma {:induction false} NoneNew(existing: seq<TransactionRecord>, batch: seq<TransactionRecord>)
    requires Ids(batch) <= Ids(existing)
    ensures NewRecords(existing, batch) == []
    decreases |batch|
  {
    if batch != [] {
      assert batch[0].transactionId in Ids(batch);
      assert Ids(batch[1..]) <= Ids(batch) by {
        forall x | x in batch[1..] ensures x in batch { }
      }
      NoneNew(existing, batch[1..]);
    }
  }

  /** Inserting a + b in one batch adds what inserting a, then b, adds. */
  lemma {:induction false} NewRecordsAppend(existing: seq<TransactionRecord>, a: seq<TransactionRecord>, b: seq<TransactionRecord>)
    ensures NewRecords(existing, a + b)
         == NewRecords(existing, a) + NewRecords(existing + NewRecords(existing, a), b)
    decreases |a|
  {
    if a == [] {
      assert a + b == b;
      assert existing + [] == existing;
    } else {
      var head := a[0];
      var ab := a + b;
      assert ab[0] == head;
      assert ab[1..] == a[1..] + b;
      if head.transactionId in Ids(existing) {
        assert NewRecords(existing, ab) == NewRecords(existing, a[1..] + b);
        assert NewRecords(existing, a) == NewRecords(existing, a[1..]);
        NewRecordsAppend(existing, a[1..], b);
      } else {
        var e' := existing + [head];
        assert NewRecords(existing, ab) == [head] + NewRecords(e', a[1..] + b);
        var tail := NewRecords(e', a[1..]);
        assert NewRecords(existing, a) == [head] + tail;
        NewRecordsAppend(e', a[1..], b);
        assert existing + NewRecords(existing, a) == e' + tail;
      }
    }
  }

  /** A batch of fresh, pairwise distinct ids is added whole. */
  lemma {:induction false} AllNew(existing: seq<TransactionRecord>, batch: seq<TransactionRecord>)
    requires UniqueIds(batch) && Ids(batch) !! Ids(existing)
    ensures NewRecords(existing, batch) == batch
    decreases |batch|
  {
    if batch != [] {
      var head := batch[0];
      assert head.transactionId in Ids(batch);
      var rest := batch[1..];
      assert UniqueIds(rest);
      assert Ids(rest) !! Ids(existing + [head]) by {
        forall x | x in rest ensures x.transactionId != head.transactionId && x.transactionId !in Ids(existing) {
          var k :| 0 <= k < |rest| && rest[k] == x;
          assert batch[k + 1] == x;
        }
      }
      AllNew(existing + [head], rest);
    }
  }

  datatype WriteError = WriteError(code: int)

  class Ledger {
    var records: seq<TransactionRecord>

    /** The unique index on transactionId. */
    ghost predicate Valid()
      reads this
    {
      UniqueIds(records)
    }

    constructor ()
      ensures Valid() && records == []
    {
      records := [];
    }

    /** The driver's `insertMany(batch, { ordered: false })`. With no storage
        fault every batch record with a new id is written and, if any record
        was skipped as a duplicate, the call throws error 11000. `fault` is a
        storage failure other than a duplicate key: nothing is written and its
        code is thrown. */
    method InsertMany(batch: seq<TransactionRecord>, fault: Option<int>) returns (err: Option<WriteError>)
      requires Valid() && fault != Some(DuplicateKey)
      modifies this
      ensures Valid()
      ensures fault.Some? ==> records == old(records) && err == Some(WriteError(fault.value))
      ensures fault.None? ==> records == old(records) + NewRecords(old(records), batch)
      ensures fault.None? ==> err == if |NewRecords(old(records), batch)| < |batch| then Some(WriteError(DuplicateKey)) else None
    {
      if fault.Some? {
        return Some(WriteError(fault.value));
      }
      var added := NewRecords(records, batch);
      NewRecordsUnique(records, batch);
      records := records + added;
      err := if |added| < |batch| then Some(WriteError(DuplicateKey)) else None;
    }
  }

  /** The store step of a sync: map the items, insert them unordered, swallow
      error 11000 and rethrow any other; an empty page performs no insert. */
  method StoreItems(ledger: Ledger, items: seq<Transaction>, fault: Option<int>) returns (r: Result<(), WriteError>)
    requires ledger.Valid() && fault != Some(DuplicateKey)
    modifies ledger
    ensures ledger.Valid()
    ensures r.Ok? ==> ledger.records == old(ledger.records) + NewRecords(old(ledger.records), ToRecords(items))
    ensures r.Err? ==>
      && ledger.records == old(ledger.records) && items != [] && fault.Some?
      && r.error.code == fault.value
    ensures r.Ok? <==> items == [] || fault.None?
  {
    if |items| > 0 {
      var transactions := ToRecords(items);
      var err := ledger.InsertMany(transactions, fault);
      if err.Some? && err.value.code != DuplicateKey {
        return Err(err.value);
      }
    } else {
      assert ToRecords(items) == [];
      assert ledger.records + NewRecords(ledger.records, []) == ledger.records;
    }
    r := Ok(());
  }
}

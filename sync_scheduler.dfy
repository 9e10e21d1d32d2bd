/**
 * The once-a-minute scheduler of the sync module (`TransactionSyncService`).
 * Each tick reads the persisted watermark of the key "transaction-sync"
 * (epoch 0 when there is none), adds one parent sync job for the window
 * from the watermark to now, and only then moves the watermark to now,
 * saving the record or creating it. Any failure is caught, so a tick never
 * fails; a failure before the write leaves the watermark where it was.
 * The clock reading is the `now` parameter and the failing step, if any,
 * the `fault` parameter.
 */
module SyncScheduler {
  import opened Types
  import opened Jobs

  const SyncStateKey := "transaction-sync"

  /** The sync-state collection, whose key is unique: at most one
      lastSyncTime (epoch ms) per key. */
  class SyncStateStore {
    var lastSyncTimes: map<string, nat>

    constructor ()
      ensures lastSyncTimes == map[]
    {
      lastSyncTimes := map[];
    }

    /** findOne({ key }): the record's lastSyncTime, if there is a record. */
    method FindOne(key: string) returns (r: Option<nat>)
      ensures r.Some? <==> key in lastSyncTimes
      ensures r.Some? ==> r.value == lastSyncTimes[key]
    {
      if key in lastSyncTimes {
        r := Some(lastSyncTimes[key]);
      } else {
        r := None;
      }
    }

    /** save() on the found record, with a new lastSyncTime. */
    method Save(key: string, lastSyncTime: nat)
      requires key in lastSyncTimes
      modifies this
      ensures lastSyncTimes == old(lastSyncTimes)[key := lastSyncTime]
    {
      lastSyncTimes := lastSyncTimes[key := lastSyncTime];
    }

    /** create({ key, lastSyncTime }) for a key that has no record yet (the
        unique index admits no second one). */
    method Create(key: string, lastSyncTime: nat)
      requires key !in lastSyncTimes
      modifies this
      ensures lastSyncTimes == old(lastSyncTimes)[key := lastSyncTime]
      ensures |lastSyncTimes| == |old(lastSyncTimes)| + 1
    {
      lastSyncTimes := lastSyncTimes[key := lastSyncTime];
    }
  }

  /** The step of a tick that fails, if any. */
  datatype TickFault = NoTickFault | FindFails | AddFails | WriteFails

  /** The start of the next window: the stored watermark, or epoch 0. */
  function WindowStart(lastSyncTimes: map<string, nat>): nat
  {
    if SyncStateKey in lastSyncTimes then lastSyncTimes[SyncStateKey] else 0
  }

  /** The parent job a tick adds at time `now` under id `id`. */
  function TickJob(id: JobId, lastSyncTimes: map<string, nat>, now: nat): Job
  {
    Job(id, SyncTransactions, SyncData(WindowStart(lastSyncTimes), now), RetryOptions)
  }

  class TransactionSyncService {
    const queue: JobQueue
    const store: SyncStateStore

    constructor (queue: JobQueue, store: SyncStateStore)
      ensures this.queue == queue && this.store == store
    {
      this.queue := queue;
      this.store := store;
    }

    /** One tick at time `now`. */
    method ScheduleTransactionSync(now: nat, fault: TickFault)
      requires queue.Valid()
      modifies queue, store
      ensures queue.Valid()
      ensures fault == FindFails || fault == AddFails ==>
        queue.jobs == old(queue.jobs) && queue.nextId == old(queue.nextId) && store.lastSyncTimes == old(store.lastSyncTimes)
      ensures fault == NoTickFault || fault == WriteFails ==>
        && queue.jobs == old(queue.jobs) + [TickJob(old(queue.nextId), old(store.lastSyncTimes), now)]
        && queue.nextId == old(queue.nextId) + 1
      ensures fault == NoTickFault ==> store.lastSyncTimes == old(store.lastSyncTimes)[SyncStateKey := now]
      ensures fault != NoTickFault ==> store.lastSyncTimes == old(store.lastSyncTimes)
    {
      if fault == FindFails {
        return;
      }
      var syncState := store.FindOne(SyncStateKey);
      var lastSyncTime := if syncState.Some? then syncState.value else 0;
      var startDate, endDate := lastSyncTime, now;
      var added := queue.Add(SyncTransactions, SyncData(startDate, endDate), RetryOptions, fault == AddFails);
      if added.Err? {
        return;
      }
      if fault == WriteFails {
        return;
      }
      if syncState.Some? {
        store.Save(SyncStateKey, now);
      } else {
        store.Create(SyncStateKey, now);
      }
    }
  }

  /** Two successful ticks at t1 and then t2 on an empty store add the
      windows [0, t1] and [t1, t2]: the second starts where the first ended. */
  method TwoTicks(t1: nat, t2: nat) returns (jobs: seq<Job>, watermark: Option<nat>)
    ensures |jobs| == 2
    ensures jobs[0].data == SyncData(0, t1) && jobs[1].data == SyncData(t1, t2)
    ensures jobs[1].data.startDate == jobs[0].data.endDate
    ensures jobs[0].id < jobs[1].id
    ensures watermark == Some(t2)
  {
    var queue := new JobQueue();
    var store := new SyncStateStore();
    var service := new TransactionSyncService(queue, store);
    service.ScheduleTransactionSync(t1, NoTickFault);
    service.ScheduleTransactionSync(t2, NoTickFault);
    jobs := queue.jobs;
    watermark := store.FindOne(SyncStateKey);
  }

  /** A tick whose add fails leaves the watermark, so the next successful
      tick covers the missed window as well. */
  method FailedAddThenTick(t1: nat, t2: nat) returns (jobs: seq<Job>)
    ensures |jobs| == 1 && jobs[0].data == SyncData(0, t2)
  {
    var queue := new JobQueue();
    var store := new SyncStateStore();
    var service := new TransactionSyncService(queue, store);
    service.ScheduleTransactionSync(t1, AddFails);
    service.ScheduleTransactionSync(t2, NoTickFault);
    jobs := queue.jobs;
  }
}

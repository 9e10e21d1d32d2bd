/**
 * The transaction-sync job queue: the two job kinds, their payloads and the
 * options each job is enqueued with. The queue engine itself (scheduling,
 * retries, backoff timing, completion and removal) is not modelled; the
 * queue is the ordered record of the jobs added to it, each given the next
 * id, and a lookup of a job by id.
 */
module Jobs {
  import opened Types

  type JobId = nat

  datatype JobName = SyncTransactions | SyncTransactionsPage

  /** The payload of a parent job and of a page job; dates as epoch ms. */
  datatype JobData =
    | SyncData(startDate: nat, endDate: nat)
    | PageData(startDate: nat, endDate: nat, page: int, parentJobId: JobId)

  datatype BackoffType = Exponential
  datatype Backoff = Backoff(kind: BackoffType, delay: nat)
  datatype JobOptions = JobOptions(attempts: nat, backoff: Backoff, removeOnComplete: bool, removeOnFail: bool)

  /** Three attempts, exponential backoff from 1000 ms, completed jobs
      removed, failed jobs kept: the options of every job this system adds. */
  const RetryOptions := JobOptions(3, Backoff(Exponential, 1000), true, false)

  datatype Job = Job(id: JobId, name: JobName, data: JobData, opts: JobOptions)

  /** The queue could not take the job (its store is unreachable). */
  datatype QueueError = QueueUnavailable

  /** Ids are handed out in increasing order and never reused. */
  ghost predicate IdsIncreasing(jobs: seq<Job>, nextId: nat)
  {
    && (forall i, j :: 0 <= i < j < |jobs| ==> jobs[i].id < jobs[j].id)
    && (forall i :: 0 <= i < |jobs| ==> jobs[i].id < nextId)
  }

  class JobQueue {
    /** Every job added, in order. */
    var jobs: seq<Job>
    var nextId: nat

    ghost predicate Valid()
      reads this
    {
      IdsIncreasing(jobs, nextId)
    }

    constructor ()
      ensures Valid() && jobs == [] && nextId == 1
    {
      jobs := [];
      nextId := 1;
    }

    /** queue.add(name, data, opts); `fails` says whether the queue's store
        rejects the call. */
    method Add(name: JobName, data: JobData, opts: JobOptions, fails: bool) returns (r: Result<Job, QueueError>)
      requires Valid()
      modifies this
      ensures Valid()
      ensures fails ==> r == Err(QueueUnavailable) && jobs == old(jobs) && nextId == old(nextId)
      ensures !fails ==>
        && r == Ok(Job(old(nextId), name, data, opts))
        && jobs == old(jobs) + [r.value]
        && nextId == old(nextId) + 1
    {
      if fails {
        return Err(QueueUnavailable);
      }
      var job := Job(nextId, name, data, opts);
      jobs := jobs + [job];
      nextId := nextId + 1;
      r := Ok(job);
    }

    /** queue.getJob(id): the job with that id, if it was added. */
    method GetJob(id: JobId) returns (r: Option<Job>)
      requires Valid()
      ensures r.Some? ==> r.value in jobs && r.value.id == id
      ensures r.None? ==> forall j :: j in jobs ==> j.id != id
    {
      var i := 0;
      while i < |jobs|
        invariant 0 <= i <= |jobs|
        invariant forall k :: 0 <= k < i ==> jobs[k].id != id
      {
        if jobs[i].id == id {
          return Some(jobs[i]);
        }
        i := i + 1;
      }
      return None;
    }
  }

  /** Ids are unique, so a job found by id is the one added under it. */
  lemma SameIdSameJob(jobs: seq<Job>, nextId: nat, a: Job, b: Job)
    requires IdsIncreasing(jobs, nextId) && a in jobs && b in jobs && a.id == b.id
    ensures a == b
  {
    var i :| 0 <= i < |jobs| && jobs[i] == a;
    var j :| 0 <= j < |jobs| && jobs[j] == b;
    IdsOrdered(jobs, nextId, i, j);
    IdsOrdered(jobs, nextId, j, i);
  }

  lemma IdsOrdered(jobs: seq<Job>, nextId: nat, i: nat, j: nat)
    requires IdsIncreasing(jobs, nextId) && i < |jobs| && j < |jobs|
    ensures i < j ==> jobs[i].id < jobs[j].id
  {
  }
}

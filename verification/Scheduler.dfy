/** `JobScheduler` as an object: a queue of waiting ids, a map from runner pids to active ids and
    the job store, updated in place by operations that hold the mutex from start to end. */
module Scheduler {
  import opened Decimal
  import opened Scheduling
  import JobStore

  class JobScheduler<J> {
    const limit: nat
    const db: JobStore.DataBase<J>
    var waitQueue: seq<nat>
    var activeJobs: map<int, nat>
    var hasCallback: bool
    var events: seq<(string, string)>    // calls of the job-finished callback
    var exited: bool
    ghost const base: nat                // the first id of this lifetime
    ghost var started: seq<nat>
    ghost var erased: seq<nat>
    ghost var reported: seq<nat>

    ghost function View(): Sched
      reads this, db
    {
      Sched(waitQueue, activeJobs, db.jobId, hasCallback, started, erased, reported, exited)
    }

    ghost predicate Valid()
      reads this, db
    {
      && 1 <= limit
      && !exited
      && Good(limit, base, View())
      && Announced()
    }

    /** The callback was told exactly the reported ids, in order. */
    ghost predicate Announced()
      reads this
    {
      && |events| == |reported|
      && forall i :: 0 <= i < |events| ==> events[i] == ("JobFinishedEvent", ToString(reported[i]))
    }

    constructor (db: JobStore.DataBase<J>, limit: nat, hasCallback: bool)
      requires 1 <= limit
      ensures this.db == db && this.limit == limit && this.base == db.jobId
      ensures Valid() && View() == Initial(db.jobId, hasCallback)
    {
      this.db, this.limit, this.hasCallback, this.base := db, limit, hasCallback, db.jobId;
      waitQueue, activeJobs, events, exited := [], map[], [], false;
      started, erased, reported := [], [], [];
      new;
      InitiallyGood(limit, db.jobId, hasCallback);
    }

    method Schedule(fork: Fork)
      requires !exited
      modifies this
      ensures View() == Scheduling.Schedule(limit, old(View()), fork)
      ensures events == old(events)
    {
      if waitQueue == [] {
        return;
      }
      if |activeJobs| >= limit {
        return;
      }
      var jobId := waitQueue[0];
      waitQueue := waitQueue[1..];
      match fork
      case NoChild => exited := true;
      case Child(pid) =>
        activeJobs := activeJobs[pid := jobId];
        started := started + [jobId];
    }

    method Create(request: string, fork: Fork) returns (newJobId: nat)
      requires Valid() && Scheduling.Valid(limit, View(), Op.Create(request, fork))
      modifies this, db, db.disk
      ensures View() == Apply(limit, old(View()), Op.Create(request, fork))
      ensures !exited ==> Valid()
      ensures newJobId == old(db.jobId)
      ensures db.disk.requests == old(db.disk.requests)[ToString(newJobId) := request]
    {
      GoodStep(limit, base, View(), Op.Create(request, fork));
      newJobId := db.NewJob(request);
      waitQueue := waitQueue + [newJobId];
      Schedule(fork);
    }

    /** The part of `JobFinished` before its call of `Schedule`: report and erase the entry. */
    method Complete(pid: int)
      requires pid in activeJobs && Announced()
      modifies this
      ensures View() == Scheduling.Complete(old(View()), pid)
      ensures Announced()
    {
      var id := activeJobs[pid];
      if hasCallback {
        events := events + [("JobFinishedEvent", ToString(id))];
        reported := reported + [id];
      }
      activeJobs := activeJobs - {pid};
      erased := erased + [id];
    }

    method JobFinished(pid: int, fork: Fork)
      requires Valid() && Scheduling.Valid(limit, View(), Finished(pid, fork))
      modifies this
      ensures View() == Apply(limit, old(View()), Finished(pid, fork))
      ensures !exited ==> Valid()
    {
      GoodStep(limit, base, View(), Finished(pid, fork));
      if pid in activeJobs {
        Complete(pid);
      }
      Schedule(fork);
    }
  }
}

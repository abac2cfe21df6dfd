/** The job scheduler as a sequential machine: each public operation is one atomic step.
    `fork` is the environment's answer to the one `fork()` a step may make. */
module Scheduling {
  /** `NoChild` is a failed `fork`, or a step that never reached `fork`. */
  datatype Fork = Child(pid: int) | NoChild

  datatype Op =
    | Create(request: string, fork: Fork)
    | Finished(pid: int, fork: Fork)

  /** Scheduler state, with three histories: job ids in the order they were started,
      erased from `activeJobs`, and passed to the job-finished callback. */
  datatype Sched = Sched(
    queue: seq<nat>, active: map<int, nat>, next: nat, callback: bool,
    started: seq<nat>, erased: seq<nat>, reported: seq<nat>, exited: bool)

  /** What an operation does before it calls `schedule`. */
  function Enter(s: Sched, op: Op): Sched {
    match op
    case Create(_, _) => s.(queue := s.queue + [s.next], next := s.next + 1)
    case Finished(pid, _) => if pid in s.active then Complete(s, pid) else s
  }

  function Complete(s: Sched, pid: int): Sched
    requires pid in s.active
  {
    var id := s.active[pid];
    s.(active := s.active - {pid},
       erased := s.erased + [id],
       reported := if s.callback then s.reported + [id] else s.reported)
  }

  predicate Dispatches(limit: nat, s: Sched) {
    s.queue != [] && |s.active| < limit
  }

  /** At most one job is started; a failed `fork` ends the process. */
  function Schedule(limit: nat, s: Sched, fork: Fork): Sched {
    if !Dispatches(limit, s) then s else
      var popped := s.(queue := s.queue[1..]);
      match fork
      case NoChild => popped.(exited := true)
      case Child(pid) => popped.(active := s.active[pid := s.queue[0]], started := s.started + [s.queue[0]])
  }

  function Apply(limit: nat, s: Sched, op: Op): Sched {
    Schedule(limit, Enter(s, op), op.fork)
  }

  /** `fork` never returns a pid that is still a key of `activeJobs`. */
  predicate Valid(limit: nat, s: Sched, op: Op) {
    && !s.exited
    && (Dispatches(limit, Enter(s, op)) && op.fork.Child? ==> op.fork.pid !in Enter(s, op).active)
  }

  function Run(limit: nat, s: Sched, ops: seq<Op>): Sched {
    if ops == [] then s else Apply(limit, Run(limit, s, ops[..|ops| - 1]), ops[|ops| - 1])
  }

  predicate ValidRun(limit: nat, s: Sched, ops: seq<Op>) {
    ops == [] ||
    (ValidRun(limit, s, ops[..|ops| - 1]) && Valid(limit, Run(limit, s, ops[..|ops| - 1]), ops[|ops| - 1]))
  }

  // ---------------------------------------------------------------------------
  // What every run keeps

  /** Ids are issued from `base` upwards and started in that order: the started ids and the
      queue together are base, base+1, .., next-1. */
  ghost predicate Fifo(base: nat, s: Sched) {
    && base + |s.started| + |s.queue| == s.next
    && (forall i :: 0 <= i < |s.started| ==> s.started[i] == base + i)
    && (forall i :: 0 <= i < |s.queue| ==> s.queue[i] == base + |s.started| + i)
  }

  ghost predicate NoDuplicates<T>(xs: seq<T>) {
    forall i, j :: 0 <= i < j < |xs| ==> xs[i] != xs[j]
  }

  /** Every started id is active under exactly one pid, or erased exactly once, never both. */
  ghost predicate Tracked(active: map<int, nat>, started: seq<nat>, erased: seq<nat>) {
    && (forall p, q :: p in active && q in active && active[p] == active[q] ==> p == q)
    && NoDuplicates(erased)
    && (forall p :: p in active ==> active[p] in started && active[p] !in erased)
    && (forall id :: id in erased ==> id in started)
    && (forall id :: id in started ==> id in erased || HasPid(active, id))
  }

  ghost predicate HasPid(active: map<int, nat>, id: nat) {
    exists p :: p in active && active[p] == id
  }

  ghost predicate Conserved(s: Sched) {
    Tracked(s.active, s.started, s.erased)
  }

  /** Capacity and work conservation: a job waits only while every slot is taken. */
  ghost predicate Busy(limit: nat, s: Sched) {
    && |s.active| <= limit
    && (s.queue != [] ==> |s.active| == limit)
  }

  ghost predicate Good(limit: nat, base: nat, s: Sched) {
    Fifo(base, s) && Conserved(s) && Busy(limit, s) && (s.callback ==> s.reported == s.erased)
  }

  function Initial(base: nat, callback: bool): Sched {
    Sched([], map[], base, callback, [], [], [], false)
  }

  lemma InitiallyGood(limit: nat, base: nat, callback: bool)
    ensures Good(limit, base, Initial(base, callback))
  {
  }

  lemma TrackErase(active: map<int, nat>, started: seq<nat>, erased: seq<nat>, pid: int)
    requires Tracked(active, started, erased) && pid in active
    ensures Tracked(active - {pid}, started, erased + [active[pid]])
    ensures |active - {pid}| == |active| - 1
  {
    var erased' := erased + [active[pid]];
    forall id | id in started
      ensures id in erased' || HasPid(active - {pid}, id)
    {
      if id !in erased' {
        var p :| p in active && active[p] == id;
        assert p in active - {pid};
      }
    }
    assert (active - {pid}).Keys == active.Keys - {pid};
    assert |(active - {pid}).Keys| == |active.Keys| - 1;
  }

  lemma TrackStart(active: map<int, nat>, started: seq<nat>, erased: seq<nat>, pid: int, id: nat)
    requires Tracked(active, started, erased) && pid !in active && id !in started
    ensures Tracked(active[pid := id], started + [id], erased)
    ensures |active[pid := id]| == |active| + 1
  {
    var active' := active[pid := id];
    forall i | i in started + [id]
      ensures i in erased || HasPid(active', i)
    {
      if i == id {
        assert pid in active' && active'[pid] == i;
      } else if i !in erased {
        var p :| p in active && active[p] == i;
        assert p in active' && active'[p] == i;
      }
    }
    assert active'.Keys == active.Keys + {pid};
  }

  /** `Complete` moves one id from the active map to the erased list. */
  lemma CompleteConserves(s: Sched, pid: int)
    requires Conserved(s) && pid in s.active
    ensures Conserved(Complete(s, pid))
    ensures |Complete(s, pid).active| == |s.active| - 1
  {
    TrackErase(s.active, s.started, s.erased, pid);
  }

  /** Starting the front of the queue under a pid that is not in use. */
  lemma StartConserves(limit: nat, base: nat, s: Sched, pid: int)
    requires Fifo(base, s) && Conserved(s) && Dispatches(limit, s) && pid !in s.active
    ensures Conserved(Schedule(limit, s, Child(pid)))
    ensures |Schedule(limit, s, Child(pid)).active| == |s.active| + 1
  {
    assert s.queue[0] !in s.started;
    TrackStart(s.active, s.started, s.erased, pid, s.queue[0]);
  }

  /** One operation keeps the invariant; exiting on a failed `fork` ends the run. */
  lemma GoodStep(limit: nat, base: nat, s: Sched, op: Op)
    requires 1 <= limit && Good(limit, base, s) && Valid(limit, s, op)
    ensures !Apply(limit, s, op).exited ==> Good(limit, base, Apply(limit, s, op))
  {
    var e := Enter(s, op);
    EnterKeeps(limit, base, s, op);
    if Dispatches(limit, e) && op.fork.Child? {
      StartConserves(limit, base, e, op.fork.pid);
      FifoStart(limit, base, e, op.fork.pid);
    }
  }

  /** Before `schedule` at most one slot is free while jobs wait. */
  lemma EnterKeeps(limit: nat, base: nat, s: Sched, op: Op)
    requires 1 <= limit && Good(limit, base, s)
    ensures var e := Enter(s, op);
            && Fifo(base, e) && Conserved(e) && (e.callback ==> e.reported == e.erased)
            && |e.active| <= limit
            && (e.queue != [] ==> |e.active| >= limit - 1 || |e.queue| == 1)
  {
    if op.Finished? && op.pid in s.active {
      CompleteConserves(s, op.pid);
    }
  }

  lemma FifoStart(limit: nat, base: nat, s: Sched, pid: int)
    requires Fifo(base, s) && Dispatches(limit, s)
    ensures Fifo(base, Schedule(limit, s, Child(pid)))
  {
  }

  /** FIFO order, conservation, capacity, work conservation and exactly-once reporting hold
      after every run of creates, completions and stray completions. */
  lemma {:induction false} GoodRun(limit: nat, base: nat, s: Sched, ops: seq<Op>)
    requires 1 <= limit && Good(limit, base, s) && ValidRun(limit, s, ops)
    ensures !Run(limit, s, ops).exited ==> Good(limit, base, Run(limit, s, ops))
  {
    if ops != [] {
      GoodRun(limit, base, s, ops[..|ops| - 1]);
      GoodStep(limit, base, Run(limit, s, ops[..|ops| - 1]), ops[|ops| - 1]);
    }
  }

  /** The freshness of the forked pid is exactly what conservation needs: recording a new job
      under a pid that is still active drops the job recorded there before. */
  lemma ReusedPidLosesJob(limit: nat, base: nat, s: Sched, pid: int)
    requires Fifo(base, s) && Conserved(s) && Dispatches(limit, s)
    ensures Conserved(Schedule(limit, s, Child(pid))) <==> pid !in s.active
  {
    var t := Schedule(limit, s, Child(pid));
    if pid in s.active {
      var lost := s.active[pid];
      assert lost in s.started && lost in t.started && lost !in t.erased;
      assert lost != s.queue[0];
      assert forall p :: p in t.active && t.active[p] == lost ==> p in s.active && p == pid;
      assert !HasPid(t.active, lost);
    } else {
      StartConserves(limit, base, s, pid);
    }
  }

  // ---------------------------------------------------------------------------
  // How long a job waits

  predicate Matches(s: Sched, op: Op) {
    op.Finished? && op.pid in s.active
  }

  /** How many operations of a run are completions of an active pid. */
  function Completions(limit: nat, s: Sched, ops: seq<Op>): nat {
    if ops == [] then 0 else
      Completions(limit, s, ops[..|ops| - 1]) +
      if Matches(Run(limit, s, ops[..|ops| - 1]), ops[|ops| - 1]) then 1 else 0
  }

  /** With every slot taken only a completion starts a job, and it starts one if one is waiting. */
  lemma StartRate(limit: nat, base: nat, s: Sched, op: Op)
    requires 1 <= limit && Good(limit, base, s) && Valid(limit, s, op) && !Apply(limit, s, op).exited
    ensures var t := Apply(limit, s, op);
            && t.next >= s.next && |t.started| >= |s.started|
            && (|s.active| == limit && !Matches(s, op) ==> |t.started| == |s.started| && |t.active| == limit)
            && (s.queue != [] && Matches(s, op) ==> |t.started| == |s.started| + 1 && |t.active| == limit)
  {
    EnterKeeps(limit, base, s, op);
    if Matches(s, op) {
      CompleteConserves(s, op.pid);
    }
    var e := Enter(s, op);
    if Dispatches(limit, e) {
      StartConserves(limit, base, e, op.fork.pid);
    }
  }

  /** While the jobs that were queued at the start drain, each completion starts exactly one job
      and nothing else does. */
  lemma {:induction false} DrainRate(limit: nat, base: nat, s: Sched, ops: seq<Op>)
    requires 1 <= limit && Good(limit, base, s) && s.queue != [] && ValidRun(limit, s, ops)
    requires !Run(limit, s, ops).exited
    ensures Run(limit, s, ops).next >= s.next
    ensures var t := Run(limit, s, ops);
            var m := Completions(limit, s, ops);
            if m <= |s.queue| then |t.started| == |s.started| + m && |t.active| == limit
            else |t.started| >= |s.started| + |s.queue|
  {
    if ops != [] {
      var before := Run(limit, s, ops[..|ops| - 1]);
      DrainRate(limit, base, s, ops[..|ops| - 1]);
      GoodRun(limit, base, s, ops[..|ops| - 1]);
      StartRate(limit, base, before, ops[|ops| - 1]);
    }
  }

  /** A job with q jobs ahead of it has been started exactly when q+1 completions of active pids
      have happened, whatever creates and stray completions are interleaved; until then it has
      moved up one place per completion. */
  lemma WaitingBound(limit: nat, base: nat, s: Sched, ops: seq<Op>, q: nat)
    requires 1 <= limit && Good(limit, base, s) && q < |s.queue| && ValidRun(limit, s, ops)
    requires !Run(limit, s, ops).exited
    ensures var t := Run(limit, s, ops);
            var m := Completions(limit, s, ops);
            && (s.queue[q] in t.started <==> m >= q + 1)
            && (m <= q ==> q - m < |t.queue| && t.queue[q - m] == s.queue[q])
  {
    var t := Run(limit, s, ops);
    GoodRun(limit, base, s, ops);
    DrainRate(limit, base, s, ops);
    var k := |s.started| + q;
    if k < |t.started| {
      assert t.started[k] == s.queue[q];
    }
  }

  /** The operation that starts a queued job is the (q+1)-th completion and no other one. */
  lemma StartsExactlyOn(limit: nat, base: nat, s: Sched, ops: seq<Op>, op: Op, q: nat)
    requires 1 <= limit && Good(limit, base, s) && q < |s.queue| && ValidRun(limit, s, ops + [op])
    requires !Run(limit, s, ops + [op]).exited
    ensures var before := Run(limit, s, ops);
            (s.queue[q] !in before.started && s.queue[q] in Apply(limit, before, op).started) <==>
            (Matches(before, op) && Completions(limit, s, ops) == q)
  {
    assert (ops + [op])[..|ops|] == ops;
    WaitingBound(limit, base, s, ops, q);
    WaitingBound(limit, base, s, ops + [op], q);
  }

  /** Runs compose. */
  lemma {:induction false} RunConcat(limit: nat, s: Sched, ops: seq<Op>, more: seq<Op>)
    requires ValidRun(limit, s, ops + more)
    ensures ValidRun(limit, s, ops) && ValidRun(limit, Run(limit, s, ops), more)
    ensures Run(limit, s, ops + more) == Run(limit, Run(limit, s, ops), more)
  {
    if more == [] {
      assert ops + more == ops;
    } else {
      var n := |more| - 1;
      assert (ops + more)[..|ops + more| - 1] == ops + more[..n];
      RunConcat(limit, s, ops, more[..n]);
    }
  }
}

/** What the service guarantees in every reachable state, for every interleaving of threads,
    runner processes and signals. `limit` is the number of concurrent jobs, `base` the first id. */
module ServiceTheorems {
  import opened Decimal
  import opened Scheduling
  import opened Service
  import opened ServiceSafety
  import EventStream

  /** The scheduler state seen whenever the mutex is free comes from running whole operations one
      after the other. */
  lemma Linearizable(limit: nat, base: nat, es: seq<Event>)
    requires 1 <= limit && Runs(limit, Start(base), es) && After(limit, Start(base), es).pc.Free?
    ensures var s := After(limit, Start(base), es);
            && ValidRun(limit, Initial(base, true), s.past.ops)
            && s.sched == Run(limit, Initial(base, true), s.past.ops)
            && Good(limit, base, s.sched)
  {
    StartInv(limit, base);
    RunInv(limit, base, Start(base), es);
    GoodSnap(limit, base, After(limit, Start(base), es));
  }

  lemma GoodSnap(limit: nat, base: nat, s: State)
    requires 1 <= limit && Inv(limit, base, s)
    ensures Good(limit, base, s.past.snap)
  {
    InitiallyGood(limit, base, true);
    GoodRun(limit, base, Initial(base, true), s.past.ops);
  }

  lemma {:induction false} OpsGrow(limit: nat, s: State, es: seq<Event>)
    requires Runs(limit, s, es)
    ensures s.past.ops <= After(limit, s, es).past.ops
  {
    if es != [] {
      OpsGrow(limit, s, es[..|es| - 1]);
      OpsStep(limit, After(limit, s, es[..|es| - 1]), es[|es| - 1]);
    }
  }

  lemma OpsStep(limit: nat, s: State, e: Event)
    requires Enabled(s, e)
    ensures s.past.ops <= Step(limit, s, e).past.ops
  {
  }

  /** The waiting bound in the service itself: between two moments at which the mutex is free, a job
      with q jobs ahead of it has been started exactly if at least q+1 of the operations in between
      completed an active pid. */
  lemma ServiceWaitingBound(limit: nat, base: nat, es: seq<Event>, more: seq<Event>, q: nat)
    requires 1 <= limit && Runs(limit, Start(base), es) && Runs(limit, After(limit, Start(base), es), more)
    requires var s := After(limit, Start(base), es);
             s.pc.Free? && After(limit, s, more).pc.Free? && q < |s.sched.queue|
    ensures var s := After(limit, Start(base), es);
            var t := After(limit, s, more);
            && s.past.ops <= t.past.ops
            && (s.sched.queue[q] in t.sched.started <==>
                  Completions(limit, s.sched, t.past.ops[|s.past.ops|..]) >= q + 1)
  {
    var s := After(limit, Start(base), es);
    StartInv(limit, base);
    RunInv(limit, base, Start(base), es);
    RunInv(limit, base, s, more);
    OpsGrow(limit, s, more);
    var t := After(limit, s, more);
    WaitingBetween(limit, base, s.sched, s.past.ops, t.sched, t.past.ops, q);
  }

  lemma WaitingBetween(limit: nat, base: nat, s: Sched, ops: seq<Op>, t: Sched, more: seq<Op>, q: nat)
    requires 1 <= limit && History(limit, base, s, ops) && History(limit, base, t, more)
    requires ops <= more && q < |s.queue| && !s.exited && !t.exited
    ensures s.queue[q] in t.started <==> Completions(limit, s, more[|ops|..]) >= q + 1
  {
    var suffix := more[|ops|..];
    assert more == ops + suffix;
    RunConcat(limit, Initial(base, true), ops, suffix);
    InitiallyGood(limit, base, true);
    GoodRun(limit, base, Initial(base, true), ops);
    WaitingBound(limit, base, s, suffix, q);
  }

  /** No completion is lost: when the signal thread looks up the pid it has reaped, the pid is active
      exactly if it was a runner, and it is found under the job that runner ran, even if the runner
      ended before the thread that forked it recorded it. */
  lemma NoLostCompletion(limit: nat, base: nat, es: seq<Event>)
    requires Runs(limit, Start(base), es) && After(limit, Start(base), es).pc.Looking?
    ensures var s := After(limit, Start(base), es);
            var h := s.kernel.handler;
            && h.Reaped? && h.pid == s.pc.pid
            && (h.process.Runner? <==> s.pc.pid in s.sched.active)
            && (h.process.Runner? ==> s.sched.active[s.pc.pid] == h.process.id)
  {
    StartInv(limit, base);
    RunInv(limit, base, Start(base), es);
    var s := After(limit, Start(base), es);
    ReapedIsRecorded(s.kernel, s.sched.active, s.pc);
  }

  lemma ReapedIsRecorded(k: Kernel, active: map<int, nat>, pc: Pc)
    requires Distinct(k) && Recorded(k, active, pc) && pc.Looking? && k.handler.Reaped? && k.handler.pid == pc.pid
    ensures k.handler.process.Runner? <==> pc.pid in active
    ensures k.handler.process.Runner? ==> active[pc.pid] == k.handler.process.id
  {
    assert Is(k, pc.pid, k.handler.process);
    assert pc.pid in active ==> Is(k, pc.pid, Runner(active[pc.pid]));
  }

  /** The slots in use, counting a runner that is forked and not recorded yet. */
  lemma ActiveBound(limit: nat, base: nat, pc: Pc, sched: Sched, snap: Sched)
    requires 1 <= limit && Linear(limit, pc, sched, snap) && Good(limit, base, snap)
    ensures |sched.active| <= limit
    ensures pc.Recording? ==> |sched.active| < limit
  {
    if pc.Leaving? || pc.Halted? {
      var op := ToOp(pc.call, if pc.Leaving? then pc.fork else NoChild);
      GoodStep(limit, base, snap, op);
      EnterBound(snap, op);
    } else if pc.Testing? || pc.Forking? || pc.Recording? {
      EnterBound(snap, ToOp(pc.call, NoChild));
    }
  }

  lemma EnterBound(s: Sched, op: Op)
    ensures |Enter(s, op).active| <= |s.active|
  {
    if op.Finished? && op.pid in s.active {
      assert Enter(s, op).active.Keys == s.active.Keys - {op.pid};
      assert |Enter(s, op).active.Keys| <= |s.active.Keys|;
    }
  }

  ghost function LiveRunners(s: State): set<int> {
    set p | p in s.kernel.live && s.kernel.live[p].Runner?
  }

  lemma SubsetSize<T>(a: set<T>, b: set<T>)
    requires a <= b
    ensures |a| <= |b|
  {
    assert b == a + (b - a);
  }

  lemma LiveRunnersBound(limit: nat, base: nat, s: State)
    requires 1 <= limit && Inv(limit, base, s)
    ensures |LiveRunners(s)| <= limit
  {
    GoodSnap(limit, base, s);
    ActiveBound(limit, base, s.pc, s.sched, s.past.snap);
    var forked := if s.pc.Recording? then {s.pc.child} else {};
    var slots := s.sched.active.Keys + forked;
    RunnersHaveSlots(s, slots);
    SubsetSize(LiveRunners(s), slots);
    assert |slots| <= |s.sched.active.Keys| + |forked|;
  }

  lemma RunnersHaveSlots(s: State, slots: set<int>)
    requires Children(s) && s.sched.active.Keys <= slots && (s.pc.Recording? ==> s.pc.child in slots)
    ensures LiveRunners(s) <= slots
  {
    forall p | p in LiveRunners(s)
      ensures p in slots
    {
      assert Is(s.kernel, p, Runner(s.kernel.live[p].id));
    }
  }

  /** At every instant at most `limit` runner processes of this lifetime are alive. */
  lemma Capacity(limit: nat, base: nat, es: seq<Event>)
    requires 1 <= limit && Runs(limit, Start(base), es)
    ensures |LiveRunners(After(limit, Start(base), es))| <= limit
  {
    StartInv(limit, base);
    RunInv(limit, base, Start(base), es);
    LiveRunnersBound(limit, base, After(limit, Start(base), es));
  }

  /** Exactly-once reporting at every instant, not only when the mutex is free: no id is announced
      twice, each announcement is its own message, and when the mutex is free the announced ids
      are the started ids that are no longer active. */
  lemma ExactlyOnce(limit: nat, base: nat, es: seq<Event>)
    requires 1 <= limit && Runs(limit, Start(base), es)
    ensures var s := After(limit, Start(base), es);
            && NoDuplicates(s.sched.reported)
            && OnTheWire(s.sched.reported, s.past.wire, s.ed.log)
            && (s.pc.Free? ==> forall id :: id in s.sched.reported <==>
                  id in s.sched.started && forall p :: p in s.sched.active ==> s.sched.active[p] != id)
  {
    StartInv(limit, base);
    RunInv(limit, base, Start(base), es);
    var s := After(limit, Start(base), es);
    GoodSnap(limit, base, s);
    NoneTwice(limit, base, s.pc, s.sched, s.past.snap);
  }

  lemma NoneTwice(limit: nat, base: nat, pc: Pc, sched: Sched, snap: Sched)
    requires Linear(limit, pc, sched, snap) && Good(limit, base, snap)
    ensures NoDuplicates(sched.reported)
  {
    if pc.Leaving? || pc.Halted? {
      ReportedBy(limit, snap, ToOp(pc.call, if pc.Leaving? then pc.fork else NoChild));
    } else if pc.Testing? || pc.Forking? || pc.Recording? {
      ReportedBy(limit, snap, ToOp(pc.call, NoChild));
    }
  }

  /** An operation announces at most the id of its pid, which was not announced before. */
  lemma ReportedBy(limit: nat, s: Sched, op: Op)
    requires Conserved(s) && s.callback && s.reported == s.erased
    ensures NoDuplicates(Enter(s, op).reported)
    ensures Apply(limit, s, op).reported == Enter(s, op).reported
  {
    if op.Finished? && op.pid in s.active {
      assert s.active[op.pid] !in s.erased;
    }
  }

  /** What the browser makes of an announcement: the event with the printed id. */
  lemma AnnouncementArrives(id: nat)
    ensures EventStream.Received(EventStream.Frame(Announcement(id))) ==
            [Some(EventStream.Event("JobFinishedEvent", ToString(id)))]
  {
    var e := EventStream.Event("JobFinishedEvent", ToString(id));
    EventStream.PlainEventArrives(e);
  }

  /** End to end: the i-th completion announced in any run stands in the dispatcher's history as a
      message from which the browser reads back exactly that job's id. */
  lemma BrowserLearnsId(limit: nat, base: nat, es: seq<Event>, i: nat)
    requires 1 <= limit && Runs(limit, Start(base), es) && i < |After(limit, Start(base), es).sched.reported|
    ensures var s := After(limit, Start(base), es);
            && i < |s.past.wire| && s.past.wire[i] < |s.ed.log|
            && var got := EventStream.Received(s.ed.log[s.past.wire[i]]);
            && |got| == 1 && got[0].Some? && got[0].value.name == "JobFinishedEvent"
            && Stoi(got[0].value.data) == Some(s.sched.reported[i])
  {
    ExactlyOnce(limit, base, es);
    var id := After(limit, Start(base), es).sched.reported[i];
    AnnouncementArrives(id);
    RoundTrip(id);
  }

  // ---------------------------------------------------------------------------
  // Signals

  function Bit(b: bool): nat { if b then 1 else 0 }

  /** Zombies are one per set flag, one per wake-up still owed a `wait`, and one per exit that found
      the flag already set. */
  ghost predicate Accounted(k: Kernel) {
    |k.zombies| == Bit(k.pending) + Bit(k.handler.Reaping?) + k.coalesced
  }

  lemma KernelAccounted(k: Kernel, e: KernelStep)
    requires Accounted(k) && Distinct(k) && CanKernel(k, e)
    ensures Accounted(KernelNext(k, e))
  {
    var k' := KernelNext(k, e);
    if e.ChildExits? {
      assert k'.zombies.Keys == k.zombies.Keys + {e.pid};
      assert |k'.zombies.Keys| == |k.zombies.Keys| + 1;
    } else if e.Reap? {
      assert k'.zombies.Keys == k.zombies.Keys - {e.pid};
      assert |k'.zombies.Keys| == |k.zombies.Keys| - 1;
    }
  }

  /** The other steps leave the zombies alone and never move the signal thread to or from its `wait`. */
  lemma StepAccounted(limit: nat, s: State, e: Event)
    requires Accounted(s.kernel) && Distinct(s.kernel) && Control(s.pc, s.kernel.handler, s.ed.owner) && Enabled(s, e)
    ensures Accounted(Step(limit, s, e).kernel)
  {
    if e.InKernel? {
      KernelAccounted(s.kernel, e.kernel);
    } else {
      var k := Step(limit, s, e).kernel;
      assert k.zombies == s.kernel.zombies && k.coalesced == s.kernel.coalesced && k.pending == s.kernel.pending;
      assert k.handler.Reaping? <==> s.kernel.handler.Reaping?;
    }
  }

  /** SIGCHLD does not count: a child that exits while the flag is set leaves a zombie that no wake-up
      of the signal thread will pay for. */
  lemma {:induction false} SignalAccount(limit: nat, base: nat, es: seq<Event>)
    requires Runs(limit, Start(base), es)
    ensures Accounted(After(limit, Start(base), es).kernel)
  {
    if es != [] {
      SignalAccount(limit, base, es[..|es| - 1]);
      StartInv(limit, base);
      RunInv(limit, base, Start(base), es[..|es| - 1]);
      StepAccounted(limit, After(limit, Start(base), es[..|es| - 1]), es[|es| - 1]);
    }
  }

  lemma SomeElement<T>(a: set<T>) returns (x: T)
    requires |a| > 0
    ensures x in a
  {
    x :| x in a;
  }

  /** When `sigwait` has returned there is a zombie, so `wait` neither blocks nor fails. */
  lemma WaitNeverBlocks(limit: nat, base: nat, es: seq<Event>)
    requires Runs(limit, Start(base), es) && After(limit, Start(base), es).kernel.handler.Reaping?
    requires !After(limit, Start(base), es).pc.Halted?
    ensures exists pid :: Enabled(After(limit, Start(base), es), InKernel(Reap(pid)))
  {
    SignalAccount(limit, base, es);
    var s := After(limit, Start(base), es);
    assert |s.kernel.zombies.Keys| == |s.kernel.zombies|;
    var pid := SomeElement(s.kernel.zombies.Keys);
    assert Enabled(s, InKernel(Reap(pid)));
  }

  /** Nothing left to do: the mutex is free and the signal thread has no signal to take. */
  predicate Quiescent(s: State) {
    s.pc.Free? && s.kernel.handler.SigWaiting? && !s.kernel.pending
  }

  /** Jobs whose runner has ended. */
  ghost predicate Ended(s: State, id: nat) {
    id in s.sched.started && forall p :: p in s.kernel.live ==> s.kernel.live[p] != Runner(id)
  }

  /** The job's runner is a zombie. */
  ghost predicate Unreaped(k: Kernel, id: nat) {
    exists p :: p in k.zombies && k.zombies[p] == Runner(id)
  }

  /** Every job whose runner has ended has been announced. */
  ghost predicate AllAnnounced(s: State) {
    forall id :: Ended(s, id) ==> id in s.sched.reported
  }

  /** As many zombies are left over as exits found the signal already pending; a job whose runner ended
      has been announced exactly if its runner is not one of them. */
  ghost predicate Settled(s: State) {
    && |s.kernel.zombies| == s.kernel.coalesced
    && (forall id :: Ended(s, id) ==> (id in s.sched.reported <==> !Unreaped(s.kernel, id)))
    && (s.kernel.coalesced == 0 ==> AllAnnounced(s))
    && ((forall p :: p in s.kernel.zombies ==> s.kernel.zombies[p].Runner?) ==>
          (AllAnnounced(s) <==> s.kernel.coalesced == 0))
  }

  /** A runner that is a zombie at rest belongs to a job that has ended and was not announced. */
  lemma ZombieUnannounced(limit: nat, base: nat, s: State, p: int)
    requires Quiescent(s) && Good(limit, base, s.sched) && s.sched.callback && Children(s)
    requires p in s.kernel.zombies && s.kernel.zombies[p].Runner?
    ensures Ended(s, s.kernel.zombies[p].id) && s.kernel.zombies[p].id !in s.sched.reported
  {
    var id := s.kernel.zombies[p].id;
    assert Is(s.kernel, p, Runner(id));
    assert p in s.sched.active && s.sched.active[p] == id;
    assert forall q :: Is(s.kernel, q, Runner(id)) ==> q in s.sched.active && s.sched.active[q] == id;
    forall q | q in s.kernel.live
      ensures s.kernel.live[q] != Runner(id)
    {
      assert Is(s.kernel, q, s.kernel.live[q]);
    }
  }

  lemma SettledAtRest(limit: nat, base: nat, s: State)
    requires Quiescent(s) && Accounted(s.kernel) && Good(limit, base, s.sched) && s.sched.callback && Children(s)
    ensures Settled(s)
  {
    assert |s.kernel.zombies| == s.kernel.coalesced;
    NoZombies(s.kernel);
    forall id | Ended(s, id) && id !in s.sched.reported
      ensures Unreaped(s.kernel, id)
    {
      var p :| p in s.sched.active && s.sched.active[p] == id;
      assert Is(s.kernel, p, Runner(id));
    }
    forall p | p in s.kernel.zombies && s.kernel.zombies[p].Runner?
      ensures Ended(s, s.kernel.zombies[p].id) && s.kernel.zombies[p].id !in s.sched.reported
    {
      ZombieUnannounced(limit, base, s, p);
    }
    if s.kernel.coalesced > 0 {
      assert |s.kernel.zombies.Keys| > 0;
      var p := SomeElement(s.kernel.zombies.Keys);
      assert p in s.kernel.zombies;
    }
  }

  lemma NoZombies(k: Kernel)
    ensures k.zombies == map[] <==> |k.zombies| == 0
    ensures k.zombies == map[] ==> forall id :: !Unreaped(k, id)
  {
    if |k.zombies| == 0 {
      assert |k.zombies.Keys| == 0;
      assert k.zombies.Keys == {};
    }
  }

  /** At quiescence the service is settled: when only runners are left unreaped, the jobs that have
      ended are all announced exactly if no exit was coalesced. */
  lemma QuiescenceIff(limit: nat, base: nat, es: seq<Event>)
    requires 1 <= limit && Runs(limit, Start(base), es) && Quiescent(After(limit, Start(base), es))
    ensures Settled(After(limit, Start(base), es))
  {
    SignalAccount(limit, base, es);
    Linearizable(limit, base, es);
    StartInv(limit, base);
    RunInv(limit, base, Start(base), es);
    SettledAtRest(limit, base, After(limit, Start(base), es));
  }
}

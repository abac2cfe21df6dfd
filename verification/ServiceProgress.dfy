/** Who can always run, and who may wait forever. */
module ServiceProgress {
  import opened Scheduling
  import opened Service
  import opened ServiceSafety
  import opened ServiceTheorems
  import Dispatcher

  // ---------------------------------------------------------------------------
  // Deadlock freedom over the scheduler's and the dispatcher's mutex

  /** Steps only the current holder of one of the two mutexes can take. */
  predicate ByHolder(e: Event) {
    match e
    case Arrive(_, _) => false
    case InCreate(c) => !c.LockCreate?
    case InFinish(f) => !f.LockFinish?
    case InSchedule(d) => !d.ForkFails?
    case InKernel(_) => false
    case InDispatcher(d) => d.Register? || d.Deliver? || d.Send? || d.SendUnlock?
  }

  /** Steps the holder of the scheduler's mutex still has to take. */
  function PcRank(pc: Pc): nat {
    match pc
    case Free => 0
    case Halted(_) => 0
    case Leaving(_, _) => 1
    case Recording(_, _, _) => 2
    case Forking(_, _) => 3
    case Testing(_) => 4
    case Erasing(_, _) => 5
    case Pushing(_, _, _) => 5
    case Entered(_, _) => 6
    case Sent(_, _) => 6
    case Sending(_, _) => 7
    case Calling(_, _) => 8
    case Looking(_) => 9
  }

  function OwnerRank(ed: Dispatcher.State): nat {
    match ed.owner
    case Nobody => 0
    case Sender(_, sent) => if sent then 1 else 2
    case Waiter(w) => if Dispatcher.WaitOf(ed, w).Ready? then 1 else 2
  }

  function Rank(s: State): nat {
    3 * PcRank(s.pc) + OwnerRank(s.ed)
  }

  predicate BothFree(s: State) {
    s.pc.Free? && s.ed.owner.Nobody?
  }

  lemma {:induction false} FreshAbove(a: set<int>) returns (bound: int)
    ensures forall x :: x in a ==> x < bound
  {
    if |a| == 0 {
      bound := 0;
    } else {
      var x := SomeElement(a);
      var b := FreshAbove(a - {x});
      bound := if x < b then b else x + 1;
      assert forall y :: y in a ==> y == x || y in a - {x};
    }
  }

  lemma UnusedPid(k: Kernel) returns (pid: int)
    ensures Unused(k, pid)
  {
    var held := if k.handler.Reaped? then {k.handler.pid} else {};
    pid := FreshAbove(k.live.Keys + k.zombies.Keys + held);
  }

  /** If the dispatcher's mutex is held by another thread than the signal thread, that thread can run. */
  lemma OwnerCanRun(ed: Dispatcher.State) returns (d: Dispatcher.Event)
    requires Dispatcher.Inv(ed) && !ed.owner.Nobody?
    requires !(ed.owner.Sender? && ed.owner.source.SignalThread?)
    ensures Dispatcher.Enabled(ed, d) && NotSignalThread(ed, d) && ByHolder(InDispatcher(d))
    ensures OwnerRank(Dispatcher.Step(ed, d)) < OwnerRank(ed)
  {
    match ed.owner
    case Sender(_, sent) => d := if sent then Dispatcher.SendUnlock else Dispatcher.Send("");
    case Waiter(w) =>
      assert Dispatcher.WaitOf(ed, w).Entered? || Dispatcher.WaitOf(ed, w).Ready?;
      d := if Dispatcher.WaitOf(ed, w).Ready? then Dispatcher.Deliver(w, true) else Dispatcher.Register(w);
  }

  /** Until it has erased its pid the signal thread can run: in the callback it has, or can take, the
      dispatcher's mutex. */
  lemma FinishCanRun(s: State) returns (f: FinishStep)
    requires Control(s.pc, s.kernel.handler, s.ed.owner) && Completing(s.pc)
    requires s.pc.Calling? ==> s.ed.owner.Nobody?
    ensures CanFinish(s, f) && f != LockFinish && Rank(FinishNext(s, f)) < Rank(s)
  {
    match s.pc
    case Looking(_) => f := Find;
    case Calling(_, _) => f := CallbackLocks;
    case Sending(_, _) => f := CallbackSends;
    case Sent(_, _) => f := CallbackUnlocks;
    case Erasing(_, _) => f := Erase;
  }

  /** Inside `schedule` nothing blocks. */
  lemma ScheduleCanRun(limit: nat, s: State) returns (d: ScheduleStep)
    requires s.pc.Testing? || s.pc.Forking? || s.pc.Recording? || s.pc.Leaving?
    ensures CanSchedule(s, d) && d != ForkFails && Rank(ScheduleNext(limit, s, d)) < Rank(s)
  {
    match s.pc
    case Testing(_) => d := Test;
    case Forking(_, _) =>
      var pid := UnusedPid(s.kernel);
      d := ForkChild(pid);
    case Recording(_, _, _) => d := Record;
    case Leaving(_, _) => d := Unlock;
  }

  lemma CreateCanRun(s: State) returns (c: CreateStep)
    requires s.pc.Entered? || s.pc.Pushing?
    ensures CanCreate(s, c) && !c.LockCreate? && Rank(CreateNext(s, c)) < Rank(s)
  {
    c := if s.pc.Entered? then NewJob else Push;
  }

  /** If nobody else holds the dispatcher's mutex, the holder of the scheduler's mutex can run. */
  lemma HolderCanRun(limit: nat, s: State) returns (e: Event)
    requires Control(s.pc, s.kernel.handler, s.ed.owner) && !s.pc.Halted? && !s.pc.Free?
    requires s.pc.Calling? ==> s.ed.owner.Nobody?
    ensures Enabled(s, e) && ByHolder(e) && Rank(Step(limit, s, e)) < Rank(s)
  {
    if Completing(s.pc) {
      var f := FinishCanRun(s);
      e := InFinish(f);
    } else if s.pc.Entered? || s.pc.Pushing? {
      var c := CreateCanRun(s);
      e := InCreate(c);
    } else {
      var d := ScheduleCanRun(limit, s);
      e := InSchedule(d);
    }
  }

  /** While one of the mutexes is held, some holder can take a step that brings the release closer:
      no cycle of threads waits for each other. */
  lemma SomeHolderCanRun(limit: nat, base: nat, s: State) returns (e: Event)
    requires Inv(limit, base, s) && !s.pc.Halted? && !BothFree(s)
    ensures Enabled(s, e) && ByHolder(e) && Rank(Step(limit, s, e)) < Rank(s)
  {
    if s.ed.owner.Nobody? || (s.ed.owner.Sender? && s.ed.owner.source.SignalThread?) {
      assert s.ed.owner.Sender? ==> s.pc.Sending? || s.pc.Sent? by {
        assert s.ed.owner.Sender? ==> s.ed.owner == Dispatcher.Sender(Dispatcher.SignalThread, s.ed.owner.sent);
      }
      e := HolderCanRun(limit, s);
    } else {
      var d := OwnerCanRun(s.ed);
      e := InDispatcher(d);
    }
  }

  lemma RunsCons(limit: nat, s: State, e: Event, es: seq<Event>)
    requires Enabled(s, e) && Runs(limit, Step(limit, s, e), es)
    ensures Runs(limit, s, [e] + es) && After(limit, s, [e] + es) == After(limit, Step(limit, s, e), es)
  {
    if es == [] {
      assert ([e] + es)[..0] == [];
      assert [e] + es == [e];
    } else {
      var n := |es| - 1;
      RunsCons(limit, s, e, es[..n]);
      assert ([e] + es)[..n + 1] == [e] + es[..n];
    }
  }

  lemma HolderDoesNotHalt(limit: nat, s: State, e: Event)
    requires Enabled(s, e) && ByHolder(e)
    ensures !Step(limit, s, e).pc.Halted?
  {
  }

  lemma HolderStep(limit: nat, base: nat, s: State) returns (e: Event)
    requires Inv(limit, base, s) && !s.pc.Halted? && !BothFree(s)
    ensures Enabled(s, e) && ByHolder(e) && Rank(Step(limit, s, e)) < Rank(s)
    ensures Inv(limit, base, Step(limit, s, e)) && !Step(limit, s, e).pc.Halted?
  {
    e := SomeHolderCanRun(limit, base, s);
    HolderDoesNotHalt(limit, s, e);
    StepInv(limit, base, s, e);
  }

  predicate ByHolders(es: seq<Event>) {
    forall i :: 0 <= i < |es| ==> ByHolder(es[i])
  }

  /** The holders alone have run from `s` to a state in which both mutexes are free. */
  ghost predicate Released(limit: nat, s: State, es: seq<Event>) {
    Runs(limit, s, es) && ByHolders(es) && BothFree(After(limit, s, es))
  }

  lemma ReleasedCons(limit: nat, s: State, e: Event, es: seq<Event>)
    requires Enabled(s, e) && ByHolder(e) && Released(limit, Step(limit, s, e), es)
    ensures Released(limit, s, [e] + es)
  {
    RunsCons(limit, s, e, es);
  }

  /** From every reachable state the holders alone can run, in at most `Rank(s)` steps, to a state in
      which both mutexes are free, so that any thread blocked on either one can take it. */
  lemma {:induction false} MutexesGetFree(limit: nat, base: nat, s: State) returns (es: seq<Event>)
    requires Inv(limit, base, s) && !s.pc.Halted?
    ensures Released(limit, s, es) && |es| <= Rank(s)
    decreases Rank(s)
  {
    es := [];
    if !BothFree(s) {
      var e := HolderStep(limit, base, s);
      var rest := MutexesGetFree(limit, base, Step(limit, s, e));
      ReleasedCons(limit, s, e, rest);
      es := [e] + rest;
    }
  }

  /** The threads blocked in `s` are blocked in `t` as well, or can go. */
  ghost predicate StillThere(s: State, t: State) {
    && t.creators == s.creators
    && (s.kernel.handler.Reaped? && !Completing(s.pc) ==> t.kernel.handler == s.kernel.handler && !Completing(t.pc))
    && (forall w :: Dispatcher.WaitOf(s.ed, w).Entering? ==> Dispatcher.WaitOf(t.ed, w).Entering?)
    && (forall w :: Dispatcher.WaitOf(s.ed, w).Sleeping? ==> Dispatcher.WaitOf(t.ed, w) == Dispatcher.WaitOf(s.ed, w))
    && (!s.pc.Halted? ==> !t.pc.Halted?)
  }

  lemma DispatcherKeepsBlocked(ed: Dispatcher.State, d: Dispatcher.Event)
    requires Dispatcher.Enabled(ed, d) && (d.Register? || d.Deliver? || d.Send? || d.SendUnlock? || d.SendLock?)
    ensures forall w :: Dispatcher.WaitOf(ed, w).Entering? || Dispatcher.WaitOf(ed, w).Sleeping? ==>
              Dispatcher.WaitOf(Dispatcher.Step(ed, d), w) == Dispatcher.WaitOf(ed, w)
  {
  }

  lemma FinishKeepsBlocked(s: State, f: FinishStep)
    requires Control(s.pc, s.kernel.handler, s.ed.owner) && CanFinish(s, f) && !f.LockFinish?
    ensures StillThere(s, FinishNext(s, f))
  {
    if f.CallbackLocks? || f.CallbackSends? || f.CallbackUnlocks? {
      DispatcherKeepsBlocked(s.ed, CallbackEvent(s, f));
    }
  }

  lemma HolderKeepsBlocked(limit: nat, s: State, e: Event)
    requires Control(s.pc, s.kernel.handler, s.ed.owner) && Enabled(s, e) && ByHolder(e)
    ensures StillThere(s, Step(limit, s, e))
  {
    if e.InFinish? {
      FinishKeepsBlocked(s, e.finish);
    } else if e.InDispatcher? {
      DispatcherKeepsBlocked(s.ed, e.event);
    } else {
      assert Step(limit, s, e).ed == s.ed;
    }
  }

  /** Holders do not disturb the threads that wait for them. */
  lemma {:induction false} BlockedStayBlocked(limit: nat, base: nat, s: State, es: seq<Event>)
    requires Inv(limit, base, s) && Runs(limit, s, es) && ByHolders(es)
    ensures StillThere(s, After(limit, s, es))
  {
    if es != [] {
      var before := After(limit, s, es[..|es| - 1]);
      BlockedStayBlocked(limit, base, s, es[..|es| - 1]);
      RunInv(limit, base, s, es[..|es| - 1]);
      HolderKeepsBlocked(limit, before, es[|es| - 1]);
    }
  }

  /** A connection that has been woken up for its message and has to take the dispatcher's mutex back. */
  predicate Woken(ed: Dispatcher.State, w: nat) {
    Dispatcher.WaitOf(ed, w).Sleeping? && ed.cid == Dispatcher.WaitOf(ed, w).ticket
  }

  /** Every thread that is blocked on a mutex in `s` can take it in `t`. A woken connection then goes on
      exactly if no further message was sent in between; otherwise it goes back to sleep. */
  ghost predicate Unblocked(s: State, t: State) {
    && (forall tid :: tid in s.creators ==> Enabled(t, InCreate(LockCreate(tid))))
    && (s.kernel.handler.Reaped? && !Completing(s.pc) ==> Enabled(t, InFinish(LockFinish)))
    && (s.pc.Calling? ==> !t.pc.Calling?)
    && (forall w :: Dispatcher.WaitOf(s.ed, w).Entering? ==> Enabled(t, InDispatcher(Dispatcher.TakeLock(w))))
    && (forall w :: Woken(s.ed, w) ==> (Enabled(t, InDispatcher(Dispatcher.Wake(w))) <==> t.ed.id == s.ed.id))
    && Enabled(t, InDispatcher(Dispatcher.SendLock(Dispatcher.ReplThread)))
  }

  lemma FreeUnblocks(s: State, t: State)
    requires StillThere(s, t) && BothFree(t) && Dispatcher.Tickets(s.ed) && Dispatcher.Tickets(t.ed)
    ensures Unblocked(s, t)
  {
  }

  /** Deadlock freedom: whoever is blocked on a mutex in a reachable state, there is a continuation of
      steps by the holders after which the blocked thread can take the mutex. */
  lemma NoDeadlock(limit: nat, base: nat, es: seq<Event>) returns (more: seq<Event>)
    requires Runs(limit, Start(base), es) && !After(limit, Start(base), es).pc.Halted?
    ensures var s := After(limit, Start(base), es);
            && Runs(limit, s, more) && |more| <= Rank(s) && ByHolders(more)
            && Unblocked(s, After(limit, s, more))
  {
    StartInv(limit, base);
    RunInv(limit, base, Start(base), es);
    var s := After(limit, Start(base), es);
    more := MutexesGetFree(limit, base, s);
    BlockedStayBlocked(limit, base, s, more);
    RunInv(limit, base, s, more);
    FreeUnblocks(s, After(limit, s, more));
  }

  // ---------------------------------------------------------------------------
  // Paths without new foreign children

  predicate StraysStart(e: Event) {
    e.InKernel? && e.kernel.StrayStarts?
  }

  predicate NoStrays(es: seq<Event>) {
    forall i :: 0 <= i < |es| ==> !StraysStart(es[i])
  }

  ghost predicate Path(limit: nat, s: State, t: State) {
    exists es :: Runs(limit, s, es) && NoStrays(es) && After(limit, s, es) == t
  }

  lemma NoPath(limit: nat, s: State)
    ensures Path(limit, s, s)
  {
    assert Runs(limit, s, []) && NoStrays([]) && After(limit, s, []) == s;
  }

  lemma Next(limit: nat, s: State, t: State, e: Event)
    requires Path(limit, s, t) && Enabled(t, e) && !StraysStart(e)
    ensures Path(limit, s, Step(limit, t, e))
  {
    var es :| Runs(limit, s, es) && NoStrays(es) && After(limit, s, es) == t;
    assert (es + [e])[..|es|] == es;
    assert Runs(limit, s, es + [e]) && NoStrays(es + [e]);
  }

  /** A thread calls `create` and takes the mutex. */
  lemma Enters(limit: nat, from: State, s: State, tid: nat, request: string) returns (t: State)
    requires Path(limit, from, s) && s.pc.Free? && tid !in s.creators
    ensures Path(limit, from, t) && t == s.(pc := Entered(tid, request))
  {
    Next(limit, from, s, Arrive(tid, request));
    t := s.(creators := s.creators[tid := request]);
    assert t.creators - {tid} == s.creators;
    Next(limit, from, t, InCreate(LockCreate(tid)));
    t := CreateNext(t, LockCreate(tid));
  }

  /** A thread calls `create` and comes to `schedule`. */
  lemma Creates(limit: nat, from: State, s: State, tid: nat, request: string) returns (t: State)
    requires Path(limit, from, s) && s.pc.Free? && tid !in s.creators
    ensures Path(limit, from, t)
    ensures t == s.(pc := Testing(CreateCall(tid, request)), sched := Enter(s.sched, Create(request, NoChild)))
  {
    t := Enters(limit, from, s, tid, request);
    Next(limit, from, t, InCreate(NewJob));
    t := CreateNext(t, NewJob);
    Next(limit, from, t, InCreate(Push));
    t := CreateNext(t, Push);
  }

  /** `schedule` starts the front of the queue and the mutex is released. */
  lemma Starts(limit: nat, from: State, s: State, pid: int) returns (t: State)
    requires Path(limit, from, s) && s.pc.Testing? && Dispatches(limit, s.sched) && Unused(s.kernel, pid)
    ensures Path(limit, from, t) && t.pc.Free? && t.creators == s.creators
    ensures t.kernel == s.kernel.(live := s.kernel.live[pid := Runner(s.sched.queue[0])],
                                  handler := if s.pc.call.FinishCall? then SigWaiting else s.kernel.handler)
    ensures t.sched == Schedule(limit, s.sched, Child(pid))
  {
    Next(limit, from, s, InSchedule(Test));
    var s1 := ScheduleNext(limit, s, Test);
    Next(limit, from, s1, InSchedule(ForkChild(pid)));
    var s2 := ScheduleNext(limit, s1, ForkChild(pid));
    Next(limit, from, s2, InSchedule(Record));
    var s3 := ScheduleNext(limit, s2, Record);
    Next(limit, from, s3, InSchedule(Unlock));
    t := ScheduleNext(limit, s3, Unlock);
  }

  /** `schedule` starts nothing and the mutex is released. */
  lemma Skips(limit: nat, from: State, s: State) returns (t: State)
    requires Path(limit, from, s) && s.pc.Testing? && !Dispatches(limit, s.sched)
    ensures Path(limit, from, t) && t.pc.Free? && t.creators == s.creators && t.sched == s.sched
    ensures t.kernel == s.kernel.(handler := if s.pc.call.FinishCall? then SigWaiting else s.kernel.handler)
  {
    Next(limit, from, s, InSchedule(Test));
    var s1 := ScheduleNext(limit, s, Test);
    Next(limit, from, s1, InSchedule(Unlock));
    t := ScheduleNext(limit, s1, Unlock);
  }

  lemma NextKernel(limit: nat, from: State, s: State, e: KernelStep) returns (t: State)
    requires Path(limit, from, s) && !s.pc.Halted? && CanKernel(s.kernel, e) && !e.StrayStarts?
    ensures Path(limit, from, t) && t == s.(kernel := KernelNext(s.kernel, e))
  {
    Next(limit, from, s, InKernel(e));
    t := s.(kernel := KernelNext(s.kernel, e));
  }

  /** The signal thread finds that the pid is not a job's. */
  lemma NotFound(limit: nat, from: State, s: State) returns (t: State)
    requires Path(limit, from, s) && s.pc.Free? && s.kernel.handler.Reaped? && s.kernel.handler.pid !in s.sched.active
    ensures Path(limit, from, t)
    ensures t == s.(pc := Testing(FinishCall(s.kernel.handler.pid)), kernel := s.kernel.(handler := Processed))
  {
    Next(limit, from, s, InFinish(LockFinish));
    var s1 := FinishNext(s, LockFinish);
    Next(limit, from, s1, InFinish(Find));
    t := FinishNext(s1, Find);
  }

  // ---------------------------------------------------------------------------
  // Lost signals stall the queue

  /** No slot is free, no child is alive and no signal is on its way. */
  predicate Stuck(limit: nat, s: State) {
    && s.kernel.handler.SigWaiting? && !s.kernel.pending && s.kernel.live == map[]
    && |s.sched.active| >= limit
    && !s.pc.Forking? && !s.pc.Recording?
  }

  lemma StuckStep(limit: nat, s: State, e: Event)
    requires Stuck(limit, s) && Control(s.pc, s.kernel.handler, s.ed.owner) && Enabled(s, e) && !StraysStart(e)
    ensures Stuck(limit, Step(limit, s, e)) && Step(limit, s, e).sched.started == s.sched.started
  {
    assert !Completing(s.pc) && !FinishCalls(s.pc);
  }

  lemma {:induction false} StuckForever(limit: nat, base: nat, s: State, es: seq<Event>)
    requires Stuck(limit, s) && Inv(limit, base, s) && Runs(limit, s, es) && NoStrays(es)
    ensures Stuck(limit, After(limit, s, es)) && After(limit, s, es).sched.started == s.sched.started
  {
    if es != [] {
      StuckForever(limit, base, s, es[..|es| - 1]);
      RunInv(limit, base, s, es[..|es| - 1]);
      StuckStep(limit, After(limit, s, es[..|es| - 1]), es[|es| - 1]);
    }
  }

  /** Runners that have ended and that nobody has reaped. */
  ghost function UnreapedRunners(k: Kernel): set<int> {
    set p | p in k.zombies && k.zombies[p].Runner?
  }

  /** At rest with no child alive a slot is taken exactly by a runner left a zombie. */
  lemma SlotsOfZombies(k: Kernel, active: map<int, nat>, pc: Pc)
    requires Recorded(k, active, pc) && k.live == map[] && !k.handler.Reaped? && !pc.Recording?
    ensures active.Keys == UnreapedRunners(k) && |active| == |UnreapedRunners(k)| <= |k.zombies|
  {
    forall p
      ensures p in active <==> p in UnreapedRunners(k)
    {
      if p in active {
        assert Is(k, p, Runner(active[p]));
      }
      if p in UnreapedRunners(k) {
        assert Is(k, p, Runner(k.zombies[p].id));
      }
    }
    assert active.Keys == UnreapedRunners(k);
    SubsetSize(UnreapedRunners(k), k.zombies.Keys);
    assert |active.Keys| == |active| && |k.zombies.Keys| == |k.zombies|;
  }

  /** A new job can start from a state at rest with a free slot. */
  lemma StartsAnother(limit: nat, base: nat, s: State, request: string) returns (t: State)
    requires Good(limit, base, s.sched) && Quiescent(s) && |s.sched.active| < limit
    ensures Path(limit, s, t) && t.sched.started == s.sched.started + [s.sched.next]
  {
    NoPath(limit, s);
    var tids := set n: nat | n in s.creators :: n as int;
    var bound := FreshAbove(tids);
    var tid: nat := if bound < 0 then 0 else bound;
    assert tid in s.creators ==> tid as int in tids;
    t := Creates(limit, s, s, tid, request);
    var pid := UnusedPid(t.kernel);
    t := Starts(limit, s, t, pid);
  }

  /** A further job is started in some continuation. */
  ghost predicate CanStart(limit: nat, s: State) {
    exists more :: Runs(limit, s, more) && NoStrays(more) && After(limit, s, more).sched.started != s.sched.started
  }

  lemma CanStartIff(limit: nat, base: nat, s: State)
    requires Inv(limit, base, s) && Good(limit, base, s.sched) && Quiescent(s) && s.kernel.live == map[]
    ensures CanStart(limit, s) <==> |s.sched.active| < limit
  {
    if |s.sched.active| < limit {
      var t := StartsAnother(limit, base, s, "");
      var more :| Runs(limit, s, more) && NoStrays(more) && After(limit, s, more) == t;
      assert |After(limit, s, more).sched.started| != |s.sched.started|;
    } else {
      forall more | Runs(limit, s, more) && NoStrays(more)
        ensures After(limit, s, more).sched.started == s.sched.started
      {
        StuckForever(limit, base, s, more);
      }
    }
  }

  /** At rest with no child alive, the service has stopped for good, whatever is created later, exactly when
      `limit` runners were left unreaped. Each of them is an exit whose signal was lost. */
  lemma StallIff(limit: nat, base: nat, es: seq<Event>)
    requires 1 <= limit && Runs(limit, Start(base), es)
    requires var s := After(limit, Start(base), es); Quiescent(s) && s.kernel.live == map[]
    ensures var s := After(limit, Start(base), es);
            && s.sched.active.Keys == UnreapedRunners(s.kernel)
            && |UnreapedRunners(s.kernel)| <= s.kernel.coalesced
            && (CanStart(limit, s) <==> |UnreapedRunners(s.kernel)| < limit)
  {
    var s := After(limit, Start(base), es);
    StartInv(limit, base);
    RunInv(limit, base, Start(base), es);
    Linearizable(limit, base, es);
    SignalAccount(limit, base, es);
    SlotsOfZombies(s.kernel, s.sched.active, s.pc);
    CanStartIff(limit, base, s);
  }

  // ---------------------------------------------------------------------------
  // Such a state is reachable, whatever the limit

  /** `k` jobs under the pids 1 .. k. */
  function Jobs(base: nat, k: nat): map<int, nat> {
    map p: int | 1 <= p <= k :: JobOf(base, p)
  }

  function JobOf(base: nat, pid: int): nat {
    if pid >= 1 then base + pid - 1 else base
  }

  /** The runners of the jobs `from` .. `to`. */
  function Runners(base: nat, from: nat, to: nat): map<int, Process>
    requires from >= 1
  {
    map p: int | from <= p <= to :: Runner(JobOf(base, p))
  }

  lemma {:induction false} JobsCount(base: nat, k: nat)
    ensures |Jobs(base, k)| == k
  {
    if k == 0 {
      assert Jobs(base, k) == map[];
    } else {
      JobsCount(base, k - 1);
      assert Jobs(base, k).Keys == Jobs(base, k - 1).Keys + {k};
      assert |Jobs(base, k).Keys| == |Jobs(base, k - 1).Keys| + 1;
    }
  }

  /** The service with one foreign child. */
  function Beginning(base: nat): State {
    Start(base).(kernel := Start(base).kernel.(live := map[0 := Stray]))
  }

  /** `k` jobs have been started beside the foreign child and nothing has ended. */
  ghost predicate Running(base: nat, k: nat, s: State) {
    && Quiescent(s) && s.creators == map[]
    && s.kernel == Kernel(Runners(base, 1, k)[0 := Stray], map[], false, SigWaiting, 0)
    && s.sched.active == Jobs(base, k) && s.sched.queue == [] && s.sched.next == base + k
    && |s.sched.started| == k && s.sched.reported == []
  }

  lemma {:induction false} ManyJobs(limit: nat, base: nat, request: string, k: nat) returns (s: State)
    requires k <= limit
    ensures Path(limit, Beginning(base), s) && Running(base, k, s)
  {
    var from := Beginning(base);
    if k == 0 {
      NoPath(limit, from);
      s := from;
      assert Jobs(base, 0) == map[] && Runners(base, 1, 0) == map[];
    } else {
      s := ManyJobs(limit, base, request, k - 1);
      s := OneMoreJob(limit, base, request, k - 1, s);
    }
  }

  lemma OneMoreJob(limit: nat, base: nat, request: string, k: nat, s: State) returns (t: State)
    requires Path(limit, Beginning(base), s) && Running(base, k, s) && k < limit
    ensures Path(limit, Beginning(base), t) && Running(base, k + 1, t)
  {
    JobsCount(base, k);
    t := Creates(limit, Beginning(base), s, 0, request);
    assert t.sched.queue == [base + k];
    OneMoreSlot(base, k);
    t := Starts(limit, Beginning(base), t, k + 1);
  }

  lemma OneMoreSlot(base: nat, k: nat)
    ensures Jobs(base, k)[k + 1 := base + k] == Jobs(base, k + 1)
    ensures Runners(base, 1, k)[0 := Stray][k + 1 := Runner(base + k)] == Runners(base, 1, k + 1)[0 := Stray]
  {
  }

  /** The foreign child and all runners are alive. */
  function NoneExited(base: nat, limit: nat): Kernel {
    Kernel(Runners(base, 1, limit)[0 := Stray], map[], false, SigWaiting, 0)
  }

  /** The foreign child has exited first and then `j` runners, all before the signal thread ran. */
  function Exiting(base: nat, limit: nat, j: nat): Kernel {
    Kernel(Runners(base, j + 1, limit), Runners(base, 1, j)[0 := Stray], true, SigWaiting, j)
  }

  lemma ExitFirst(limit: nat, base: nat)
    ensures var k := NoneExited(base, limit);
            CanKernel(k, ChildExits(0)) && KernelNext(k, ChildExits(0)) == Exiting(base, limit, 0)
  {
    assert Runners(base, 1, 0) == map[];
    assert Runners(base, 1, limit)[0 := Stray] - {0} == Runners(base, 1, limit);
  }

  lemma ExitNext(limit: nat, base: nat, j: nat)
    requires 1 <= j <= limit
    ensures var k := Exiting(base, limit, j - 1);
            CanKernel(k, ChildExits(j)) && KernelNext(k, ChildExits(j)) == Exiting(base, limit, j)
  {
    assert Runners(base, j, limit) - {j} == Runners(base, j + 1, limit);
    assert Runners(base, 1, j - 1)[0 := Stray][j as int := Runner(JobOf(base, j))] == Runners(base, 1, j)[0 := Stray];
  }

  lemma {:induction false} AllExit(limit: nat, base: nat, s: State, j: nat) returns (t: State)
    requires Path(limit, Beginning(base), s) && s.pc.Free? && s.kernel == NoneExited(base, limit) && j <= limit
    ensures Path(limit, Beginning(base), t) && t == s.(kernel := Exiting(base, limit, j))
  {
    if j == 0 {
      ExitFirst(limit, base);
      t := NextKernel(limit, Beginning(base), s, ChildExits(0));
    } else {
      var before := AllExit(limit, base, s, j - 1);
      t := OneMoreExit(limit, base, s, before, j);
    }
  }

  lemma OneMoreExit(limit: nat, base: nat, s: State, before: State, j: nat) returns (t: State)
    requires s.pc.Free? && 1 <= j <= limit
    requires Path(limit, Beginning(base), before) && before == s.(kernel := Exiting(base, limit, j - 1))
    ensures Path(limit, Beginning(base), t) && t == s.(kernel := Exiting(base, limit, j))
  {
    ExitNext(limit, base, j);
    t := NextKernel(limit, Beginning(base), before, ChildExits(j));
  }

  /** The one signal left is spent on the foreign child. */
  lemma ReapsForeign(limit: nat, base: nat, s: State) returns (t: State)
    requires Path(limit, Beginning(base), s) && Running(base, limit, s)
    ensures Path(limit, Beginning(base), t) && t.pc.Free? && t.creators == map[] && t.sched == s.sched
    ensures t.kernel == Kernel(map[], Runners(base, 1, limit), false, SigWaiting, limit)
  {
    var from := Beginning(base);
    t := AllExit(limit, base, s, limit);
    t := NextKernel(limit, from, t, SigWait);
    t := NextKernel(limit, from, t, Reap(0));
    assert t.kernel.zombies == Runners(base, 1, limit);
    assert t.kernel.live == map[];
    t := NotFound(limit, from, t);
    t := Skips(limit, from, t);
  }

  lemma FromStart(limit: nat, base: nat, s: State)
    requires Path(limit, Beginning(base), s)
    ensures exists es :: Runs(limit, Start(base), es) && After(limit, Start(base), es) == s
  {
    var es :| Runs(limit, Beginning(base), es) && NoStrays(es) && After(limit, Beginning(base), es) == s;
    var e := InKernel(StrayStarts(0));
    assert Step(limit, Start(base), e) == Beginning(base);
    RunsCons(limit, Start(base), e, es);
  }

  /** For every limit the service can stop for good: if all slots are taken and the runners end together
      with one other child, no job is ever announced and the next one never starts. */
  lemma StallReachable(limit: nat, base: nat, request: string) returns (es: seq<Event>)
    requires 1 <= limit
    ensures Runs(limit, Start(base), es)
    ensures var s := After(limit, Start(base), es);
            && Quiescent(s) && s.kernel.live == map[] && |UnreapedRunners(s.kernel)| == limit && !CanStart(limit, s)
            && s.sched.queue == [base + limit] && |s.sched.started| == limit && s.sched.reported == []
  {
    var from := Beginning(base);
    var s := ManyJobs(limit, base, request, limit);
    s := ReapsForeign(limit, base, s);
    JobsCount(base, limit);
    s := Creates(limit, from, s, 0, request);
    s := Skips(limit, from, s);
    FromStart(limit, base, s);
    es :| Runs(limit, Start(base), es) && After(limit, Start(base), es) == s;
    StallIff(limit, base, es);
    assert |s.sched.active.Keys| == |s.sched.active|;
  }
}

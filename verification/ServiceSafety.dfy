/** What every interleaving of the service keeps. Each part of the invariant names the part of the
    state it is about; the lemmas follow the groups of steps. */
module ServiceSafety {
  import opened Scheduling
  import opened Service
  import Dispatcher
  import EventStream

  // ---------------------------------------------------------------------------
  // Threads and locks

  /** The signal thread holds the mutex and has not erased its pid yet. */
  predicate Completing(pc: Pc) {
    pc.Looking? || pc.Calling? || pc.Sending? || pc.Sent? || pc.Erasing?
  }

  predicate FinishCalls(pc: Pc) {
    (pc.Testing? || pc.Forking? || pc.Recording? || pc.Leaving? || pc.Halted?) && pc.call.FinishCall?
  }

  /** The signal thread is in one place only, and holds the dispatcher's mutex only in the callback. */
  predicate Control(pc: Pc, handler: Handler, owner: Dispatcher.Owner) {
    && (Completing(pc) ==> handler.Reaped? && handler.pid == pc.pid)
    && (FinishCalls(pc) <==> handler.Processed?)
    && (pc.Sending? <==> owner == Dispatcher.Sender(Dispatcher.SignalThread, false))
    && (pc.Sent? <==> owner == Dispatcher.Sender(Dispatcher.SignalThread, true))
  }

  lemma CreateControl(s: State, e: CreateStep)
    requires Control(s.pc, s.kernel.handler, s.ed.owner) && CanCreate(s, e)
    ensures var t := CreateNext(s, e); Control(t.pc, t.kernel.handler, t.ed.owner)
  {
  }

  lemma FinishControl(s: State, e: FinishStep)
    requires Control(s.pc, s.kernel.handler, s.ed.owner) && CanFinish(s, e)
    ensures var t := FinishNext(s, e); Control(t.pc, t.kernel.handler, t.ed.owner)
  {
  }

  lemma ScheduleControl(limit: nat, s: State, e: ScheduleStep)
    requires Control(s.pc, s.kernel.handler, s.ed.owner) && CanSchedule(s, e)
    ensures var t := ScheduleNext(limit, s, e); Control(t.pc, t.kernel.handler, t.ed.owner)
  {
  }

  lemma KernelControl(pc: Pc, owner: Dispatcher.Owner, k: Kernel, e: KernelStep)
    requires Control(pc, k.handler, owner) && CanKernel(k, e)
    ensures Control(pc, KernelNext(k, e).handler, owner)
  {
  }

  /** Another thread's dispatcher step cannot touch the dispatcher's mutex while the callback holds it. */
  lemma DispatcherControl(pc: Pc, handler: Handler, ed: Dispatcher.State, d: Dispatcher.Event)
    requires Dispatcher.Mutex(ed) && Control(pc, handler, ed.owner)
    requires Dispatcher.Enabled(ed, d) && NotSignalThread(ed, d)
    ensures Control(pc, handler, Dispatcher.Step(ed, d).owner)
  {
    assert d.Register? || d.Deliver? ==> ed.owner == Dispatcher.Waiter(d.w);
  }

  // ---------------------------------------------------------------------------
  // Children

  /** The process a pid stands for: live, a zombie, or reaped and not yet processed. */
  predicate Is(k: Kernel, pid: int, p: Process) {
    || (pid in k.live && k.live[pid] == p)
    || (pid in k.zombies && k.zombies[pid] == p)
    || k.handler == Reaped(pid, p)
  }

  /** Each pid stands for at most one process. */
  ghost predicate Distinct(k: Kernel) {
    && (forall p :: p in k.live ==> p !in k.zombies)
    && (k.handler.Reaped? ==> k.handler.pid !in k.live && k.handler.pid !in k.zombies)
  }

  /** An unrecorded runner exists only between `fork` and the insertion, and every recorded one still
      exists. */
  ghost predicate Recorded(k: Kernel, active: map<int, nat>, pc: Pc) {
    && (forall p, id :: Is(k, p, Runner(id)) ==>
          (p in active && active[p] == id) || (pc.Recording? && pc.child == p && pc.id == id))
    && (forall p :: p in active ==> Is(k, p, Runner(active[p])))
    && (pc.Recording? ==> pc.child !in active && Is(k, pc.child, Runner(pc.id)))
  }

  ghost predicate Children(s: State) {
    Distinct(s.kernel) && Recorded(s.kernel, s.sched.active, s.pc)
  }

  /** `k'` has the same processes under the same pids. */
  lemma SameProcesses(k: Kernel, k': Kernel, active: map<int, nat>, pc: Pc, pc': Pc)
    requires Recorded(k, active, pc) && forall p, q :: Is(k', p, q) <==> Is(k, p, q)
    requires pc.Recording? || pc'.Recording? ==> pc' == pc
    ensures Recorded(k', active, pc')
  {
  }

  lemma KernelProcesses(k: Kernel, e: KernelStep, p: int, q: Process)
    requires Distinct(k) && CanKernel(k, e)
    ensures Distinct(KernelNext(k, e))
    ensures Is(KernelNext(k, e), p, q) <==> Is(k, p, q) || (e.StrayStarts? && e.pid == p && q == Stray)
    ensures e.StrayStarts? ==> !Is(k, e.pid, q)
  {
  }

  lemma KernelChildren(s: State, e: KernelStep)
    requires Children(s) && CanKernel(s.kernel, e)
    ensures Children(s.(kernel := KernelNext(s.kernel, e)))
  {
    KernelProcesses(s.kernel, e, 0, Stray);
    forall p, id
      ensures Is(KernelNext(s.kernel, e), p, Runner(id)) <==> Is(s.kernel, p, Runner(id))
    {
      KernelProcesses(s.kernel, e, p, Runner(id));
    }
  }

  lemma ForkChildren(limit: nat, s: State, pid: int)
    requires Children(s) && CanSchedule(s, ForkChild(pid))
    ensures Children(ScheduleNext(limit, s, ForkChild(pid)))
  {
    var k := s.kernel;
    var k' := ScheduleNext(limit, s, ForkChild(pid)).kernel;
    assert pid in s.sched.active ==> Is(k, pid, Runner(s.sched.active[pid]));
    assert forall p, q :: Is(k', p, q) <==> Is(k, p, q) || (p == pid && q == Runner(s.pc.id));
  }

  lemma ScheduleChildren(limit: nat, s: State, e: ScheduleStep)
    requires Children(s) && Control(s.pc, s.kernel.handler, s.ed.owner) && CanSchedule(s, e) && !e.ForkChild?
    ensures Children(ScheduleNext(limit, s, e))
  {
    var t := ScheduleNext(limit, s, e);
    assert forall p, q :: Is(t.kernel, p, q) <==> Is(s.kernel, p, q);
    if !e.Record? {
      assert t.sched.active == s.sched.active;
      SameProcesses(s.kernel, t.kernel, s.sched.active, s.pc, t.pc);
    }
  }

  lemma FinishChildren(s: State, e: FinishStep)
    requires Children(s) && Control(s.pc, s.kernel.handler, s.ed.owner) && CanFinish(s, e)
    ensures Children(FinishNext(s, e))
  {
    var t := FinishNext(s, e);
    if t.kernel.handler.Processed? {
      assert forall p, q :: Is(t.kernel, p, q) <==> Is(s.kernel, p, q) && p != s.pc.pid;
    } else {
      assert t.kernel == s.kernel && t.sched.active == s.sched.active;
      SameProcesses(s.kernel, t.kernel, s.sched.active, s.pc, t.pc);
    }
  }

  // ---------------------------------------------------------------------------
  // Every critical section is one atomic operation

  ghost predicate Found(s: Sched, pid: int, id: nat) {
    pid in s.active && s.active[pid] == id
  }

  ghost predicate Popped(limit: nat, sched: Sched, snap: Sched, call: Call, id: nat) {
    var entered := Enter(snap, ToOp(call, NoChild));
    && Dispatches(limit, entered)
    && id == entered.queue[0]
    && sched == entered.(queue := entered.queue[1..])
  }

  /** How far the operation that holds the mutex has come, measured from `snap`, the scheduler state
      it found. */
  ghost predicate Linear(limit: nat, pc: Pc, sched: Sched, snap: Sched) {
    && !snap.exited
    && snap.callback
    && match pc
       case Free => sched == snap
       case Entered(_, _) => sched == snap
       case Looking(_) => sched == snap
       case Pushing(_, _, id) => id == snap.next && sched == snap.(next := id + 1)
       case Calling(pid, id) => Found(snap, pid, id) && sched == snap
       case Sending(pid, id) => Found(snap, pid, id) && sched == snap
       case Sent(pid, id) => Found(snap, pid, id) && sched == snap.(reported := snap.reported + [id])
       case Erasing(pid, id) => Found(snap, pid, id) && sched == snap.(reported := snap.reported + [id])
       case Testing(call) => sched == Enter(snap, ToOp(call, NoChild))
       case Forking(call, id) => Popped(limit, sched, snap, call, id)
       case Recording(call, id, _) => Popped(limit, sched, snap, call, id)
       case Leaving(call, fork) =>
         Valid(limit, snap, ToOp(call, fork)) && sched == Apply(limit, snap, ToOp(call, fork)) && !sched.exited
       case Halted(call) =>
         Valid(limit, snap, ToOp(call, NoChild)) && sched == Apply(limit, snap, ToOp(call, NoChild)) && sched.exited
  }

  /** The scheduler state at the last moment the mutex was free is the result of running the completed
      operations one after the other. */
  ghost predicate History(limit: nat, base: nat, snap: Sched, ops: seq<Op>) {
    ValidRun(limit, Initial(base, true), ops) && snap == Run(limit, Initial(base, true), ops)
  }

  lemma CreateLinear(limit: nat, s: State, e: CreateStep)
    requires Linear(limit, s.pc, s.sched, s.past.snap) && CanCreate(s, e)
    ensures var t := CreateNext(s, e); Linear(limit, t.pc, t.sched, t.past.snap)
  {
  }

  lemma FinishLinear(limit: nat, s: State, e: FinishStep)
    requires Linear(limit, s.pc, s.sched, s.past.snap) && CanFinish(s, e)
    ensures var t := FinishNext(s, e); Linear(limit, t.pc, t.sched, t.past.snap)
  {
  }

  lemma TestLinear(limit: nat, s: State)
    requires Linear(limit, s.pc, s.sched, s.past.snap) && CanSchedule(s, Test)
    ensures var t := ScheduleNext(limit, s, Test); Linear(limit, t.pc, t.sched, t.past.snap)
  {
  }

  lemma RecordLinear(limit: nat, s: State)
    requires Linear(limit, s.pc, s.sched, s.past.snap) && CanSchedule(s, Record) && s.pc.child !in s.sched.active
    ensures var t := ScheduleNext(limit, s, Record); Linear(limit, t.pc, t.sched, t.past.snap)
  {
    var op := ToOp(s.pc.call, Child(s.pc.child));
    var entered := Enter(s.past.snap, ToOp(s.pc.call, NoChild));
    assert Enter(s.past.snap, op) == entered;
    assert ScheduleNext(limit, s, Record).sched == Schedule(limit, entered, Child(s.pc.child));
  }

  lemma ScheduleLinear(limit: nat, s: State, e: ScheduleStep)
    requires Linear(limit, s.pc, s.sched, s.past.snap) && CanSchedule(s, e)
    requires s.pc.Recording? ==> s.pc.child !in s.sched.active
    ensures var t := ScheduleNext(limit, s, e); Linear(limit, t.pc, t.sched, t.past.snap)
  {
    match e
    case Test => TestLinear(limit, s);
    case Record => RecordLinear(limit, s);
    case ForkFails => FailedForkLinear(limit, s);
    case ForkChild(_) =>
    case Unlock =>
  }

  lemma FailedForkLinear(limit: nat, s: State)
    requires Linear(limit, s.pc, s.sched, s.past.snap) && CanSchedule(s, ForkFails)
    ensures var t := ScheduleNext(limit, s, ForkFails); Linear(limit, t.pc, t.sched, t.past.snap)
  {
    var op := ToOp(s.pc.call, NoChild);
    assert ScheduleNext(limit, s, ForkFails).sched == Schedule(limit, Enter(s.past.snap, op), NoChild);
  }

  lemma UnlockHistory(limit: nat, base: nat, s: State)
    requires Linear(limit, s.pc, s.sched, s.past.snap) && History(limit, base, s.past.snap, s.past.ops) && s.pc.Leaving?
    ensures var p := ScheduleNext(limit, s, Unlock).past; History(limit, base, p.snap, p.ops)
  {
    var op := ToOp(s.pc.call, s.pc.fork);
    assert (s.past.ops + [op])[..|s.past.ops|] == s.past.ops;
  }

  // ---------------------------------------------------------------------------
  // What goes out

  /** Each reported id went out once, as its own message, in order. */
  ghost predicate OnTheWire(reported: seq<nat>, wire: seq<nat>, log: seq<string>) {
    && |wire| == |reported|
    && (forall i :: 0 <= i < |wire| ==>
          wire[i] < |log| && log[wire[i]] == EventStream.Frame(Announcement(reported[i])))
    && (forall i, j :: 0 <= i < j < |wire| ==> wire[i] < wire[j])
  }

  lemma LogGrows(ed: Dispatcher.State, d: Dispatcher.Event)
    requires Dispatcher.Enabled(ed, d)
    ensures ed.log <= Dispatcher.Step(ed, d).log
  {
  }

  lemma WireStays(reported: seq<nat>, wire: seq<nat>, log: seq<string>, log': seq<string>)
    requires OnTheWire(reported, wire, log) && log <= log'
    ensures OnTheWire(reported, wire, log')
  {
  }

  lemma WireGrows(reported: seq<nat>, wire: seq<nat>, log: seq<string>, id: nat, frame: string)
    requires OnTheWire(reported, wire, log) && frame == EventStream.Frame(Announcement(id))
    ensures OnTheWire(reported + [id], wire + [|log|], log + [frame])
  {
  }

  lemma FinishOnTheWire(s: State, e: FinishStep)
    requires Dispatcher.Tickets(s.ed) && OnTheWire(s.sched.reported, s.past.wire, s.ed.log) && CanFinish(s, e)
    ensures var t := FinishNext(s, e); OnTheWire(t.sched.reported, t.past.wire, t.ed.log)
  {
    if e.CallbackSends? {
      var frame := EventStream.Frame(Announcement(s.pc.id));
      WireGrows(s.sched.reported, s.past.wire, s.ed.log, s.pc.id, frame);
    } else if e.CallbackLocks? || e.CallbackUnlocks? {
      assert FinishNext(s, e).ed.log == s.ed.log;
    }
  }

  // ---------------------------------------------------------------------------
  // The invariant

  ghost predicate Inv(limit: nat, base: nat, s: State) {
    && Dispatcher.Inv(s.ed)
    && Control(s.pc, s.kernel.handler, s.ed.owner)
    && Children(s)
    && Linear(limit, s.pc, s.sched, s.past.snap)
    && History(limit, base, s.past.snap, s.past.ops)
    && OnTheWire(s.sched.reported, s.past.wire, s.ed.log)
  }

  lemma StartInv(limit: nat, base: nat)
    ensures Inv(limit, base, Start(base))
  {
    Dispatcher.InitialInv();
  }

  lemma CreateInv(limit: nat, base: nat, s: State, e: CreateStep)
    requires Inv(limit, base, s) && CanCreate(s, e)
    ensures Inv(limit, base, CreateNext(s, e))
  {
    var t := CreateNext(s, e);
    CreateControl(s, e);
    CreateLinear(limit, s, e);
    assert t.kernel == s.kernel && t.ed == s.ed && t.past == s.past && t.sched.active == s.sched.active;
    SameProcesses(s.kernel, s.kernel, s.sched.active, s.pc, t.pc);
  }

  lemma FinishInv(limit: nat, base: nat, s: State, e: FinishStep)
    requires Inv(limit, base, s) && CanFinish(s, e)
    ensures Inv(limit, base, FinishNext(s, e))
  {
    var t := FinishNext(s, e);
    FinishControl(s, e);
    FinishLinear(limit, s, e);
    FinishChildren(s, e);
    FinishOnTheWire(s, e);
    assert t.past.snap == s.past.snap && t.past.ops == s.past.ops;
    if e.CallbackLocks? || e.CallbackSends? || e.CallbackUnlocks? {
      Dispatcher.StepKeepsInv(s.ed, CallbackEvent(s, e));
    } else {
      assert t.ed == s.ed;
    }
  }

  lemma ScheduleInv(limit: nat, base: nat, s: State, e: ScheduleStep)
    requires Inv(limit, base, s) && CanSchedule(s, e)
    ensures Inv(limit, base, ScheduleNext(limit, s, e))
  {
    var t := ScheduleNext(limit, s, e);
    ScheduleControl(limit, s, e);
    ScheduleLinear(limit, s, e);
    if e.ForkChild? {
      ForkChildren(limit, s, e.pid);
    } else {
      ScheduleChildren(limit, s, e);
    }
    assert t.ed == s.ed && t.sched.reported == s.sched.reported && t.past.wire == s.past.wire;
    if e.Unlock? {
      UnlockHistory(limit, base, s);
    } else {
      assert t.past == s.past;
    }
  }

  lemma KernelInv(limit: nat, base: nat, s: State, e: KernelStep)
    requires Inv(limit, base, s) && CanKernel(s.kernel, e)
    ensures Inv(limit, base, s.(kernel := KernelNext(s.kernel, e)))
  {
    KernelControl(s.pc, s.ed.owner, s.kernel, e);
    KernelChildren(s, e);
  }

  lemma DispatcherInv(limit: nat, base: nat, s: State, d: Dispatcher.Event)
    requires Inv(limit, base, s) && Dispatcher.Enabled(s.ed, d) && NotSignalThread(s.ed, d)
    ensures Inv(limit, base, s.(ed := Dispatcher.Step(s.ed, d)))
  {
    Dispatcher.StepKeepsInv(s.ed, d);
    DispatcherControl(s.pc, s.kernel.handler, s.ed, d);
    LogGrows(s.ed, d);
    WireStays(s.sched.reported, s.past.wire, s.ed.log, Dispatcher.Step(s.ed, d).log);
  }

  lemma StepInv(limit: nat, base: nat, s: State, e: Event)
    requires Inv(limit, base, s) && Enabled(s, e)
    ensures Inv(limit, base, Step(limit, s, e))
  {
    match e
    case Arrive(_, _) =>
    case InCreate(c) => CreateInv(limit, base, s, c);
    case InFinish(f) => FinishInv(limit, base, s, f);
    case InSchedule(d) => ScheduleInv(limit, base, s, d);
    case InKernel(k) => KernelInv(limit, base, s, k);
    case InDispatcher(d) => DispatcherInv(limit, base, s, d);
  }

  /** The invariant holds after every run. */
  lemma {:induction false} RunInv(limit: nat, base: nat, s: State, es: seq<Event>)
    requires Inv(limit, base, s) && Runs(limit, s, es)
    ensures Inv(limit, base, After(limit, s, es))
  {
    if es != [] {
      RunInv(limit, base, s, es[..|es| - 1]);
      StepInv(limit, base, After(limit, s, es[..|es| - 1]), es[|es| - 1]);
    }
  }
}

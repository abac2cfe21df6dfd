/** The running service as a machine of fine steps. HTTP threads create jobs, the signal thread
    reaps children and completes jobs, runner processes live and exit, and event senders and
    connections share the dispatcher. Every step is code between two points where another thread
    or the kernel can act. */
module Service {
  import opened Decimal
  import opened Scheduling
  import Dispatcher
  import EventStream

  /** A child process of the service: the runner of a job, or any other child. */
  datatype Process = Runner(id: nat) | Stray

  /** An operation inside its call of `schedule`. */
  datatype Call = CreateCall(tid: nat, request: string) | FinishCall(pid: int)

  /** Where the holder of the scheduler's mutex is; `Free` when nobody holds it. */
  datatype Pc =
    | Free
    | Entered(tid: nat, request: string)           // create: before newJob
    | Pushing(tid: nat, request: string, id: nat)  // create: newJob has returned
    | Looking(pid: int)                            // jobFinished: before activeJobs.find
    | Calling(pid: int, id: nat)                   // found; before the callback takes m_
    | Sending(pid: int, id: nat)                   // callback, holding m_
    | Sent(pid: int, id: nat)                      // callback, message sent, holding m_
    | Erasing(pid: int, id: nat)                   // callback returned
    | Testing(call: Call)                          // schedule: before its tests
    | Forking(call: Call, id: nat)                 // schedule: front popped
    | Recording(call: Call, id: nat, child: int)   // schedule: fork returned, not recorded yet
    | Leaving(call: Call, fork: Fork)              // before the guard is destroyed
    | Halted(call: Call)                           // fork failed, the process has exited

  /** The signal thread, as far as it is not described by `Pc`. */
  datatype Handler =
    | SigWaiting
    | Reaping                                      // sigwait returned, wait not called yet
    | Reaped(pid: int, process: Process)           // the pid is not yet looked up or erased
    | Processed

  /** Children and signals. `pending` is the SIGCHLD pending flag; `coalesced` counts the children
      that exited while the flag was already set. */
  datatype Kernel = Kernel(
    live: map<int, Process>, zombies: map<int, Process>, pending: bool, handler: Handler, coalesced: nat)

  /** Histories: the scheduler state when the mutex was last free, the operations completed so far,
      and the dispatcher tickets under which the callback's messages went out. */
  datatype Past = Past(snap: Sched, ops: seq<Op>, wire: seq<nat>)

  /** `creators` are the threads blocked at the mutex in `create`. */
  datatype State = State(
    sched: Sched, pc: Pc, creators: map<nat, string>, kernel: Kernel, ed: Dispatcher.State, past: Past)

  datatype CreateStep = LockCreate(tid: nat) | NewJob | Push

  datatype FinishStep = LockFinish | Find | CallbackLocks | CallbackSends | CallbackUnlocks | Erase

  datatype ScheduleStep = Test | ForkChild(pid: int) | ForkFails | Record | Unlock

  datatype KernelStep = ChildExits(pid: int) | StrayStarts(pid: int) | SigWait | Reap(pid: int)

  datatype Event =
    | Arrive(tid: nat, request: string)            // an HTTP thread calls create
    | InCreate(create: CreateStep)
    | InFinish(finish: FinishStep)
    | InSchedule(schedule: ScheduleStep)
    | InKernel(kernel: KernelStep)
    | InDispatcher(event: Dispatcher.Event)        // a dispatcher step of another thread

  function Start(base: nat): State {
    State(Initial(base, true), Free, map[], Kernel(map[], map[], false, SigWaiting, 0), Dispatcher.Initial(),
          Past(Initial(base, true), [], []))
  }

  /** A pid `fork` may return. The kernel excludes live children and zombies; that it also does not
      hand out the pid just reaped before the signal thread has looked it up is an assumption. */
  predicate Unused(k: Kernel, pid: int) {
    pid !in k.live && pid !in k.zombies && !(k.handler.Reaped? && k.handler.pid == pid)
  }

  function ToOp(call: Call, fork: Fork): Op {
    match call
    case CreateCall(_, request) => Create(request, fork)
    case FinishCall(pid) => Finished(pid, fork)
  }

  // ---------------------------------------------------------------------------
  // create

  predicate CanCreate(s: State, e: CreateStep) {
    match e
    case LockCreate(tid) => s.pc.Free? && tid in s.creators
    case NewJob => s.pc.Entered?
    case Push => s.pc.Pushing?
  }

  function CreateNext(s: State, e: CreateStep): State
    requires CanCreate(s, e)
  {
    match e
    case LockCreate(tid) => s.(pc := Entered(tid, s.creators[tid]), creators := s.creators - {tid})
    case NewJob =>
      s.(pc := Pushing(s.pc.tid, s.pc.request, s.sched.next), sched := s.sched.(next := s.sched.next + 1))
    case Push =>
      s.(pc := Testing(CreateCall(s.pc.tid, s.pc.request)), sched := s.sched.(queue := s.sched.queue + [s.pc.id]))
  }

  // ---------------------------------------------------------------------------
  // jobFinished and the callback it makes while holding the mutex

  function Announcement(id: nat): string {
    EventStream.Payload(EventStream.Event("JobFinishedEvent", ToString(id)))
  }

  /** The dispatcher step a callback step makes. */
  function CallbackEvent(s: State, e: FinishStep): Dispatcher.Event {
    match e
    case CallbackLocks => Dispatcher.SendLock(Dispatcher.SignalThread)
    case CallbackSends => Dispatcher.Send(if s.pc.Sending? then Announcement(s.pc.id) else "")
    case _ => Dispatcher.SendUnlock
  }

  predicate CanFinish(s: State, e: FinishStep) {
    match e
    case LockFinish => s.kernel.handler.Reaped? && s.pc.Free?
    case Find => s.pc.Looking?
    case CallbackLocks => s.pc.Calling? && Dispatcher.Enabled(s.ed, CallbackEvent(s, e))
    case CallbackSends => s.pc.Sending? && Dispatcher.Enabled(s.ed, CallbackEvent(s, e))
    case CallbackUnlocks => s.pc.Sent? && Dispatcher.Enabled(s.ed, CallbackEvent(s, e))
    case Erase => s.pc.Erasing?
  }

  function FinishNext(s: State, e: FinishStep): State
    requires CanFinish(s, e)
  {
    match e
    case LockFinish => s.(pc := Looking(s.kernel.handler.pid))
    case Find =>
      if s.pc.pid in s.sched.active then s.(pc := Calling(s.pc.pid, s.sched.active[s.pc.pid]))
      else s.(pc := Testing(FinishCall(s.pc.pid)), kernel := s.kernel.(handler := Processed))
    case CallbackLocks => s.(pc := Sending(s.pc.pid, s.pc.id), ed := Dispatcher.Step(s.ed, CallbackEvent(s, e)))
    case CallbackSends =>
      s.(pc := Sent(s.pc.pid, s.pc.id), ed := Dispatcher.Step(s.ed, CallbackEvent(s, e)),
         sched := s.sched.(reported := s.sched.reported + [s.pc.id]),
         past := s.past.(wire := s.past.wire + [s.ed.id]))
    case CallbackUnlocks => s.(pc := Erasing(s.pc.pid, s.pc.id), ed := Dispatcher.Step(s.ed, CallbackEvent(s, e)))
    case Erase =>
      s.(pc := Testing(FinishCall(s.pc.pid)), kernel := s.kernel.(handler := Processed),
         sched := s.sched.(active := s.sched.active - {s.pc.pid}, erased := s.sched.erased + [s.pc.id]))
  }

  // ---------------------------------------------------------------------------
  // schedule and the release of the mutex

  predicate CanSchedule(s: State, e: ScheduleStep) {
    match e
    case Test => s.pc.Testing?
    case ForkChild(pid) => s.pc.Forking? && Unused(s.kernel, pid)
    case ForkFails => s.pc.Forking?
    case Record => s.pc.Recording?
    case Unlock => s.pc.Leaving?
  }

  function ScheduleNext(limit: nat, s: State, e: ScheduleStep): State
    requires CanSchedule(s, e)
  {
    match e
    case Test =>
      if !Dispatches(limit, s.sched) then s.(pc := Leaving(s.pc.call, NoChild))
      else s.(pc := Forking(s.pc.call, s.sched.queue[0]), sched := s.sched.(queue := s.sched.queue[1..]))
    case ForkChild(pid) =>
      s.(pc := Recording(s.pc.call, s.pc.id, pid),
         kernel := s.kernel.(live := s.kernel.live[pid := Runner(s.pc.id)]))
    case ForkFails => s.(pc := Halted(s.pc.call), sched := s.sched.(exited := true))
    case Record =>
      s.(pc := Leaving(s.pc.call, Child(s.pc.child)),
         sched := s.sched.(active := s.sched.active[s.pc.child := s.pc.id], started := s.sched.started + [s.pc.id]))
    case Unlock =>
      s.(pc := Free,
         past := s.past.(snap := s.sched, ops := s.past.ops + [ToOp(s.pc.call, s.pc.fork)]),
         kernel := s.kernel.(handler := if s.pc.call.FinishCall? then SigWaiting else s.kernel.handler))
  }

  // ---------------------------------------------------------------------------
  // Processes, signals, and the signal thread's sigwait and wait

  predicate CanKernel(k: Kernel, e: KernelStep) {
    match e
    case ChildExits(pid) => pid in k.live
    case StrayStarts(pid) => Unused(k, pid)
    case SigWait => k.handler.SigWaiting? && k.pending
    case Reap(pid) => k.handler.Reaping? && pid in k.zombies
  }

  function KernelNext(k: Kernel, e: KernelStep): Kernel
    requires CanKernel(k, e)
  {
    match e
    case ChildExits(pid) =>
      k.(zombies := k.zombies[pid := k.live[pid]], live := k.live - {pid}, pending := true,
         coalesced := k.coalesced + if k.pending then 1 else 0)
    case StrayStarts(pid) => k.(live := k.live[pid := Stray])
    case SigWait => k.(handler := Reaping, pending := false)
    case Reap(pid) => k.(handler := Reaped(pid, k.zombies[pid]), zombies := k.zombies - {pid})
  }

  // ---------------------------------------------------------------------------
  // The whole machine

  /** Dispatcher steps that are not the signal thread's. */
  predicate NotSignalThread(ed: Dispatcher.State, e: Dispatcher.Event) {
    match e
    case SendLock(source) => source.ReplThread?
    case Send(_) => ed.owner.Sender? && ed.owner.source.ReplThread?
    case SendUnlock => ed.owner.Sender? && ed.owner.source.ReplThread?
    case _ => true
  }

  predicate Enabled(s: State, e: Event) {
    && !s.pc.Halted?
    && match e
       case Arrive(tid, _) => tid !in s.creators
       case InCreate(c) => CanCreate(s, c)
       case InFinish(f) => CanFinish(s, f)
       case InSchedule(d) => CanSchedule(s, d)
       case InKernel(k) => CanKernel(s.kernel, k)
       case InDispatcher(d) => Dispatcher.Enabled(s.ed, d) && NotSignalThread(s.ed, d)
  }

  function Step(limit: nat, s: State, e: Event): State
    requires Enabled(s, e)
  {
    match e
    case Arrive(tid, request) => s.(creators := s.creators[tid := request])
    case InCreate(c) => CreateNext(s, c)
    case InFinish(f) => FinishNext(s, f)
    case InSchedule(d) => ScheduleNext(limit, s, d)
    case InKernel(k) => s.(kernel := KernelNext(s.kernel, k))
    case InDispatcher(d) => s.(ed := Dispatcher.Step(s.ed, d))
  }

  predicate Runs(limit: nat, s: State, es: seq<Event>)
    decreases |es|, 0
  {
    es == [] || (Runs(limit, s, es[..|es| - 1]) && Enabled(After(limit, s, es[..|es| - 1]), es[|es| - 1]))
  }

  function After(limit: nat, s: State, es: seq<Event>): State
    requires Runs(limit, s, es)
    decreases |es|, 1
  {
    if es == [] then s else Step(limit, After(limit, s, es[..|es| - 1]), es[|es| - 1])
  }
}

/** The whole system over all its lifetimes: the service and its threads, the job store, the runner
    processes, and crashes of the service at any point. Runners survive a crash; the queue does not. */
module System {
  import opened Decimal
  import opened Scheduling
  import opened ServiceSafety
  import opened ServiceTheorems
  import Service
  import JobStore
  import ServiceProgress

  datatype World<J> = World(service: Service.State, store: JobStore.Store<J>)

  datatype Event =
    | Write                                            // create: the request file is written, not yet counted
    | Serve(step: Service.Event)                       // any step of the service but the end of a runner
    | RunnerExits(pid: int, ending: JobStore.Ending)   // a runner of this lifetime ends
    | OrphanEnds(id: nat, ending: JobStore.Ending)     // a runner of an earlier lifetime ends
    | Crash(recovered: nat)                            // the service dies and is started again

  /** What an event does to the store. */
  function StoreEvent(s: Service.State, e: Event): Option<JobStore.Event> {
    match e
    case Write => if s.pc.Entered? then Some(JobStore.WriteRequest(s.pc.request)) else None
    case Serve(step) =>
      if step == Service.InCreate(Service.NewJob) then Some(JobStore.CountJob)
      else if Forks(step) && s.pc.Forking? then Some(JobStore.StartRunner(s.pc.id))
      else None
    case RunnerExits(pid, ending) =>
      if pid in s.kernel.live && s.kernel.live[pid].Runner? then Some(JobStore.RunnerEnds(s.kernel.live[pid].id, ending))
      else None
    case OrphanEnds(id, ending) => Some(JobStore.RunnerEnds(id, ending))
    case Crash(n) => Some(JobStore.Restart(n))
  }

  predicate Forks(step: Service.Event) { step.InSchedule? && step.schedule.ForkChild? }

  predicate RunnerStops(s: Service.State, step: Service.Event) {
    && step.InKernel? && step.kernel.ChildExits?
    && step.kernel.pid in s.kernel.live && s.kernel.live[step.kernel.pid].Runner?
  }

  /** Whether the service, its processes and the crash allow the event. */
  predicate Possible<J>(w: World<J>, e: Event) {
    match e
    case Write => w.service.pc.Entered?
    case Serve(step) => Service.Enabled(w.service, step) && !RunnerStops(w.service, step)
    case RunnerExits(pid, _) =>
      Service.Enabled(w.service, Service.InKernel(Service.ChildExits(pid))) && w.service.kernel.live[pid].Runner?
    case OrphanEnds(id, _) => id < w.store.first
    case Crash(_) => true
  }

  ghost predicate Enabled<J>(w: World<J>, e: Event) {
    && Possible(w, e)
    && var f := StoreEvent(w.service, e);
       f.Some? ==> JobStore.Enabled(w.store, f.value)
  }

  function ServiceNext<J>(limit: nat, w: World<J>, e: Event): Service.State
    requires Possible(w, e)
  {
    match e
    case Write => w.service
    case Serve(step) => Service.Step(limit, w.service, step)
    case RunnerExits(pid, _) => Service.Step(limit, w.service, Service.InKernel(Service.ChildExits(pid)))
    case OrphanEnds(_, _) => w.service
    case Crash(n) => Service.Start(n)
  }

  ghost function StoreNext<J>(parse: string -> Option<J>, w: World<J>, e: Event): JobStore.Store<J>
    requires Enabled(w, e)
  {
    match StoreEvent(w.service, e)
    case None => w.store
    case Some(f) => JobStore.Step(parse, w.store, f)
  }

  ghost function Step<J>(limit: nat, parse: string -> Option<J>, w: World<J>, e: Event): World<J>
    requires Enabled(w, e)
  {
    World(ServiceNext(limit, w, e), StoreNext(parse, w, e))
  }

  ghost predicate Runs<J(!new)>(limit: nat, parse: string -> Option<J>, w: World<J>, es: seq<Event>)
    decreases |es|, 0
  {
    es == [] ||
    (Runs(limit, parse, w, es[..|es| - 1]) && Enabled(After(limit, parse, w, es[..|es| - 1]), es[|es| - 1]))
  }

  ghost function After<J(!new)>(limit: nat, parse: string -> Option<J>, w: World<J>, es: seq<Event>): World<J>
    requires Runs(limit, parse, w, es)
    decreases |es|, 1
  {
    if es == [] then w else Step(limit, parse, After(limit, parse, w, es[..|es| - 1]), es[|es| - 1])
  }

  function Beginning<J>(): World<J> {
    World(Service.Start(0), JobStore.Empty())
  }

  // ---------------------------------------------------------------------------
  // How the parts fit together

  /** The scheduler's next id is the store's, and the ids of this lifetime are issued without a gap. */
  ghost predicate Counter<J>(next: nat, pc: Service.Pc, store: JobStore.Store<J>) {
    && next == store.jobId
    && (store.pc.Written? ==> pc.Entered? && pc.request == store.pc.request)
    && (forall id: nat :: store.first <= id ==> (id in store.issued <==> id < store.jobId))
  }

  /** The jobs of this lifetime with a runner are the started ones and the one just forked. */
  ghost predicate StartedOnly(first: nat, launched: set<nat>, started: seq<nat>, pc: Service.Pc) {
    forall id: nat :: first <= id ==> (id in launched <==> id in started || (pc.Recording? && pc.id == id))
  }

  /** Each job has one process, and the runners of this lifetime that are alive are the live children. */
  ghost predicate Processes(k: Service.Kernel, first: nat, launched: set<nat>, runners: set<nat>) {
    && (forall p, id :: Is(k, p, Service.Runner(id)) ==> first <= id && id in launched)
    && (forall p, q, id :: Is(k, p, Service.Runner(id)) && Is(k, q, Service.Runner(id)) ==> p == q)
    && (forall id: nat :: first <= id && id in runners ==> Alive(k, id))
    && (forall id: nat :: Alive(k, id) ==> id in runners)
  }

  ghost predicate Alive(k: Service.Kernel, id: nat) {
    exists p :: p in k.live && k.live[p] == Service.Runner(id)
  }

  /** A job is announced only after its runner has ended. */
  ghost predicate Told(reported: seq<nat>, launched: set<nat>, runners: set<nat>) {
    forall id :: id in reported ==> id in launched && id !in runners
  }

  ghost predicate Fits<J>(w: World<J>) {
    && Counter(w.service.sched.next, w.service.pc, w.store)
    && StartedOnly(w.store.first, w.store.launched, w.service.sched.started, w.service.pc)
    && Processes(w.service.kernel, w.store.first, w.store.launched, w.store.runners)
    && Told(w.service.sched.reported, w.store.launched, w.store.runners)
  }

  ghost predicate Joint<J>(limit: nat, parse: string -> Option<J>, w: World<J>) {
    && 1 <= limit
    && Inv(limit, w.store.first, w.service)
    && JobStore.Inv(parse, w.store)
    && Fits(w)
  }

  // ---------------------------------------------------------------------------
  // Steps of the service that leave the store alone

  predicate Quiet(s: Service.State, step: Service.Event) {
    step != Service.InCreate(Service.NewJob) && !Forks(step) && !RunnerStops(s, step)
  }

  lemma QuietCounter<J>(limit: nat, s: Service.State, step: Service.Event, store: JobStore.Store<J>)
    requires Service.Enabled(s, step) && Quiet(s, step) && Counter(s.sched.next, s.pc, store)
    ensures var t := Service.Step(limit, s, step); Counter(t.sched.next, t.pc, store)
  {
  }

  lemma QuietStarted(limit: nat, s: Service.State, step: Service.Event, first: nat, launched: set<nat>)
    requires Service.Enabled(s, step) && Quiet(s, step) && StartedOnly(first, launched, s.sched.started, s.pc)
    ensures var t := Service.Step(limit, s, step); StartedOnly(first, launched, t.sched.started, t.pc)
  {
    var t := Service.Step(limit, s, step);
    if step == Service.InSchedule(Service.Record) {
      assert t.sched.started == s.sched.started + [s.pc.id];
    } else {
      assert t.sched.started == s.sched.started && (t.pc.Recording? <==> s.pc.Recording?);
      assert s.pc.Recording? ==> t.pc == s.pc;
    }
  }

  /** No runner appears, and those alive stay alive. */
  ghost predicate NoNewRunner(k: Service.Kernel, k': Service.Kernel) {
    && (forall p, id :: Is(k', p, Service.Runner(id)) ==> Is(k, p, Service.Runner(id)))
    && (forall id: nat :: Alive(k', id) <==> Alive(k, id))
  }

  lemma KernelNoNew(k: Service.Kernel, e: Service.KernelStep)
    requires Distinct(k) && Service.CanKernel(k, e) && !(e.ChildExits? && k.live[e.pid].Runner?)
    ensures NoNewRunner(k, Service.KernelNext(k, e))
  {
    var k' := Service.KernelNext(k, e);
    forall p, id
      ensures Is(k', p, Service.Runner(id)) ==> Is(k, p, Service.Runner(id))
    {
      KernelProcesses(k, e, p, Service.Runner(id));
    }
    forall id: nat
      ensures Alive(k', id) <==> Alive(k, id)
    {
      assert forall p :: p in k.live && k.live[p] == Service.Runner(id) ==> p in k'.live && k'.live[p] == k.live[p];
    }
  }

  lemma QuietNoNew(limit: nat, s: Service.State, step: Service.Event)
    requires Service.Enabled(s, step) && Quiet(s, step) && Distinct(s.kernel)
    ensures NoNewRunner(s.kernel, Service.Step(limit, s, step).kernel)
  {
    if step.InKernel? {
      KernelNoNew(s.kernel, step.kernel);
    } else {
      assert Service.Step(limit, s, step).kernel.live == s.kernel.live;
    }
  }

  lemma QuietProcesses(k: Service.Kernel, k': Service.Kernel, first: nat, launched: set<nat>, runners: set<nat>)
    requires Processes(k, first, launched, runners) && NoNewRunner(k, k')
    ensures Processes(k', first, launched, runners)
  {
  }

  /** When the callback sends, the reaped process is the runner of the job it announces. */
  lemma SentIsReaped(limit: nat, s: Service.State)
    requires Linear(limit, s.pc, s.sched, s.past.snap) && Children(s)
    requires Control(s.pc, s.kernel.handler, s.ed.owner) && s.pc.Sending?
    ensures s.kernel.handler == Service.Reaped(s.pc.pid, Service.Runner(s.pc.id))
  {
    assert Found(s.past.snap, s.pc.pid, s.pc.id);
    assert Is(s.kernel, s.pc.pid, Service.Runner(s.pc.id));
  }

  lemma ReapedNotAlive(k: Service.Kernel, first: nat, launched: set<nat>, runners: set<nat>, pid: int, id: nat)
    requires Processes(k, first, launched, runners) && Distinct(k) && k.handler == Service.Reaped(pid, Service.Runner(id))
    ensures id in launched && id !in runners
  {
    assert Is(k, pid, Service.Runner(id));
    if Alive(k, id) {
      var p :| p in k.live && k.live[p] == Service.Runner(id);
      assert Is(k, p, Service.Runner(id));
    }
  }

  lemma QuietTold(limit: nat, base: nat, s: Service.State, step: Service.Event, launched: set<nat>, runners: set<nat>)
    requires Inv(limit, base, s) && Service.Enabled(s, step) && Processes(s.kernel, base, launched, runners)
    requires Told(s.sched.reported, launched, runners)
    ensures Told(Service.Step(limit, s, step).sched.reported, launched, runners)
  {
    ReportedNext(limit, s, step);
    if step == Service.InFinish(Service.CallbackSends) {
      SentIsReaped(limit, s);
      ReapedNotAlive(s.kernel, base, launched, runners, s.pc.pid, s.pc.id);
    }
  }

  lemma ReportedNext(limit: nat, s: Service.State, step: Service.Event)
    requires Service.Enabled(s, step)
    ensures var t := Service.Step(limit, s, step);
            if step == Service.InFinish(Service.CallbackSends) then
              s.pc.Sending? && t.sched.reported == s.sched.reported + [s.pc.id]
            else t.sched.reported == s.sched.reported
  {
  }

  lemma QuietFits<J>(limit: nat, parse: string -> Option<J>, w: World<J>, step: Service.Event)
    requires Joint(limit, parse, w) && Service.Enabled(w.service, step) && Quiet(w.service, step)
    ensures Fits(w.(service := Service.Step(limit, w.service, step)))
  {
    QuietCounter(limit, w.service, step, w.store);
    QuietStarted(limit, w.service, step, w.store.first, w.store.launched);
    QuietNoNew(limit, w.service, step);
    QuietProcesses(w.service.kernel, Service.Step(limit, w.service, step).kernel,
                   w.store.first, w.store.launched, w.store.runners);
    QuietTold(limit, w.store.first, w.service, step, w.store.launched, w.store.runners);
  }

  // ---------------------------------------------------------------------------
  // Steps of both

  lemma CountCounter<J>(parse: string -> Option<J>, next: nat, pc: Service.Pc, store: JobStore.Store<J>, pc': Service.Pc)
    requires Counter(next, pc, store) && store.pc.Written? && store.pc.id == store.jobId
    ensures Counter(next + 1, pc', JobStore.Step(parse, store, JobStore.CountJob))
  {
  }

  lemma NewJobFits<J>(limit: nat, parse: string -> Option<J>, w: World<J>)
    requires Fits(w) && Enabled(w, Serve(Service.InCreate(Service.NewJob))) && w.store.pc.id == w.store.jobId
    ensures Fits(Step(limit, parse, w, Serve(Service.InCreate(Service.NewJob))))
  {
    var t := Service.CreateNext(w.service, Service.NewJob);
    CountCounter(parse, w.service.sched.next, w.service.pc, w.store, t.pc);
  }

  /** The job about to be forked is the next one in the order of issue: it is of this lifetime and has never
      had a runner. */
  lemma FrontIsNew(limit: nat, base: nat, s: Service.State)
    requires 1 <= limit && Inv(limit, base, s) && s.pc.Forking?
    ensures base <= s.pc.id < s.sched.next && s.pc.id !in s.sched.started
  {
    GoodSnap(limit, base, s);
    EnterKeeps(limit, base, s.past.snap, Service.ToOp(s.pc.call, NoChild));
  }

  /** A fork never needs permission from the store: the scheduler starts ids of this lifetime once. */
  lemma ForkAllowed<J>(limit: nat, parse: string -> Option<J>, w: World<J>)
    requires Joint(limit, parse, w) && w.service.pc.Forking?
    ensures JobStore.Enabled(w.store, JobStore.StartRunner(w.service.pc.id))
  {
    FrontIsNew(limit, w.store.first, w.service);
  }

  lemma ForkProcesses(k: Service.Kernel, first: nat, launched: set<nat>, runners: set<nat>, pid: int, id: nat)
    requires Processes(k, first, launched, runners) && Service.Unused(k, pid) && first <= id && id !in launched
    ensures Processes(k.(live := k.live[pid := Service.Runner(id)]), first, launched + {id}, runners + {id})
  {
    var k' := k.(live := k.live[pid := Service.Runner(id)]);
    forall p, i
      ensures Is(k', p, Service.Runner(i)) <==> Is(k, p, Service.Runner(i)) || (p == pid && i == id)
    {
    }
    forall i: nat
      ensures Alive(k', i) <==> Alive(k, i) || i == id
    {
      if Alive(k, i) {
        var p :| p in k.live && k.live[p] == Service.Runner(i);
        assert k'.live[p] == Service.Runner(i);
      }
      if i == id {
        assert k'.live[pid] == Service.Runner(i);
      }
    }
  }

  lemma ForkStarted(first: nat, launched: set<nat>, started: seq<nat>, pc: Service.Pc, pid: int)
    requires StartedOnly(first, launched, started, pc) && pc.Forking?
    ensures StartedOnly(first, launched + {pc.id}, started, Service.Recording(pc.call, pc.id, pid))
  {
  }

  lemma ForkTold(reported: seq<nat>, launched: set<nat>, runners: set<nat>, id: nat)
    requires Told(reported, launched, runners) && id !in launched
    ensures Told(reported, launched + {id}, runners + {id})
  {
  }

  lemma ForkFits<J>(limit: nat, parse: string -> Option<J>, w: World<J>, pid: int)
    requires Fits(w) && Enabled(w, Serve(Service.InSchedule(Service.ForkChild(pid))))
    ensures Fits(Step(limit, parse, w, Serve(Service.InSchedule(Service.ForkChild(pid)))))
  {
    var id := w.service.pc.id;
    ForkProcesses(w.service.kernel, w.store.first, w.store.launched, w.store.runners, pid, id);
    ForkStarted(w.store.first, w.store.launched, w.service.sched.started, w.service.pc, pid);
    ForkTold(w.service.sched.reported, w.store.launched, w.store.runners, id);
  }

  /** The end of a runner changes what the store knows about runners and results only. */
  lemma EndsEffect<J>(parse: string -> Option<J>, s: JobStore.Store<J>, id: nat, ending: JobStore.Ending)
    requires id in s.runners
    ensures var t := JobStore.Step(parse, s, JobStore.RunnerEnds(id, ending));
            && t.runners == s.runners - {id} && t.launched == s.launched && t.first == s.first
            && t.jobId == s.jobId && t.pc == s.pc && t.issued == s.issued
  {
  }

  lemma ExitProcesses(k: Service.Kernel, first: nat, launched: set<nat>, runners: set<nat>, pid: int, id: nat)
    requires Processes(k, first, launched, runners) && Distinct(k) && pid in k.live && k.live[pid] == Service.Runner(id)
    ensures Processes(Service.KernelNext(k, Service.ChildExits(pid)), first, launched, runners - {id})
  {
    var k' := Service.KernelNext(k, Service.ChildExits(pid));
    forall p, i
      ensures Is(k', p, Service.Runner(i)) <==> Is(k, p, Service.Runner(i))
    {
      KernelProcesses(k, Service.ChildExits(pid), p, Service.Runner(i));
    }
    assert Is(k, pid, Service.Runner(id));
    forall i: nat
      ensures Alive(k', i) <==> Alive(k, i) && i != id
    {
      if Alive(k, i) {
        var p :| p in k.live && k.live[p] == Service.Runner(i);
        assert Is(k, p, Service.Runner(i));
        assert i != id ==> p in k'.live && k'.live[p] == Service.Runner(i);
      }
      if Alive(k', i) {
        var p :| p in k'.live && k'.live[p] == Service.Runner(i);
        assert Is(k, p, Service.Runner(i)) && k.live[p] == Service.Runner(i);
      }
    }
  }

  lemma ExitFits<J>(limit: nat, parse: string -> Option<J>, w: World<J>, pid: int, ending: JobStore.Ending)
    requires Fits(w) && Distinct(w.service.kernel) && Enabled(w, RunnerExits(pid, ending))
    ensures Fits(Step(limit, parse, w, RunnerExits(pid, ending)))
  {
    var id := w.service.kernel.live[pid].id;
    EndsEffect(parse, w.store, id, ending);
    ExitProcesses(w.service.kernel, w.store.first, w.store.launched, w.store.runners, pid, id);
  }

  lemma OrphanProcesses(k: Service.Kernel, first: nat, launched: set<nat>, runners: set<nat>, id: nat)
    requires Processes(k, first, launched, runners) && id < first
    ensures Processes(k, first, launched, runners - {id})
  {
    if Alive(k, id) {
      var p :| p in k.live && k.live[p] == Service.Runner(id);
      assert Is(k, p, Service.Runner(id));
    }
  }

  lemma OrphanFits<J>(limit: nat, parse: string -> Option<J>, w: World<J>, id: nat, ending: JobStore.Ending)
    requires Fits(w) && Enabled(w, OrphanEnds(id, ending))
    ensures Fits(Step(limit, parse, w, OrphanEnds(id, ending)))
  {
    EndsEffect(parse, w.store, id, ending);
    OrphanProcesses(w.service.kernel, w.store.first, w.store.launched, w.store.runners, id);
  }

  lemma CrashFits<J>(limit: nat, parse: string -> Option<J>, w: World<J>, n: nat)
    requires JobStore.Inv(parse, w.store) && Enabled(w, Crash(n))
    ensures Fits(Step(limit, parse, w, Crash(n)))
  {
    RestartedStore(parse, w.store, n);
    NoProcesses(n, w.store.launched, w.store.runners);
  }

  lemma RestartedStore<J>(parse: string -> Option<J>, s: JobStore.Store<J>, n: nat)
    requires JobStore.Inv(parse, s) && JobStore.Enabled(s, JobStore.Restart(n))
    ensures Counter(n, Service.Free, JobStore.Step(parse, s, JobStore.Restart(n)))
    ensures forall id :: id in s.launched || id in s.runners ==> id < n
  {
    JobStore.DenseFirstMissing(s.requests, JobStore.Files(s), n);
  }

  /** A new service has no children. */
  lemma NoProcesses(n: nat, launched: set<nat>, runners: set<nat>)
    requires forall id :: id in launched || id in runners ==> id < n
    ensures Processes(Service.Start(n).kernel, n, launched, runners)
    ensures StartedOnly(n, launched, [], Service.Free)
  {
    assert forall p, q :: !Is(Service.Start(n).kernel, p, q);
  }

  lemma StepFits<J>(limit: nat, parse: string -> Option<J>, w: World<J>, e: Event)
    requires Joint(limit, parse, w) && Enabled(w, e)
    ensures Fits(Step(limit, parse, w, e))
  {
    match e
    case Write =>
    case Serve(step) =>
      if step == Service.InCreate(Service.NewJob) {
        NewJobFits(limit, parse, w);
      } else if Forks(step) {
        ForkFits(limit, parse, w, step.schedule.pid);
      } else {
        QuietFits(limit, parse, w, step);
      }
    case RunnerExits(pid, ending) => ExitFits(limit, parse, w, pid, ending);
    case OrphanEnds(id, ending) => OrphanFits(limit, parse, w, id, ending);
    case Crash(n) => CrashFits(limit, parse, w, n);
  }

  lemma ServiceStepInv<J>(limit: nat, w: World<J>, e: Event)
    requires Inv(limit, w.store.first, w.service) && Enabled(w, e)
    ensures Inv(limit, if e.Crash? then e.recovered else w.store.first, ServiceNext(limit, w, e))
  {
    match e
    case Serve(step) => StepInv(limit, w.store.first, w.service, step);
    case RunnerExits(pid, _) => StepInv(limit, w.store.first, w.service, Service.InKernel(Service.ChildExits(pid)));
    case Crash(n) => StartInv(limit, n);
    case _ =>
  }

  lemma FirstStays<J>(parse: string -> Option<J>, w: World<J>, e: Event)
    requires Enabled(w, e)
    ensures StoreNext(parse, w, e).first == if e.Crash? then e.recovered else w.store.first
  {
  }

  lemma StepJoint<J>(limit: nat, parse: string -> Option<J>, w: World<J>, e: Event)
    requires Joint(limit, parse, w) && Enabled(w, e)
    ensures Joint(limit, parse, Step(limit, parse, w, e))
  {
    StepFits(limit, parse, w, e);
    ServiceStepInv(limit, w, e);
    FirstStays(parse, w, e);
    var f := StoreEvent(w.service, e);
    if f.Some? {
      JobStore.StepKeepsInv(parse, w.store, f.value);
    }
  }

  /** Over every lifetime, crash and interleaving the service, its processes and the store fit together. */
  lemma {:induction false} RunJoint<J(!new)>(limit: nat, parse: string -> Option<J>, w: World<J>, es: seq<Event>)
    requires Joint(limit, parse, w) && Runs(limit, parse, w, es)
    ensures Joint(limit, parse, After(limit, parse, w, es))
  {
    if es != [] {
      RunJoint(limit, parse, w, es[..|es| - 1]);
      StepJoint(limit, parse, After(limit, parse, w, es[..|es| - 1]), es[|es| - 1]);
    }
  }

  lemma BeginningJoint<J>(limit: nat, parse: string -> Option<J>)
    requires 1 <= limit
    ensures Joint(limit, parse, Beginning())
  {
    StartInv(limit, 0);
    JobStore.EmptyInv(parse);
  }

  ghost predicate Reached<J(!new)>(limit: nat, parse: string -> Option<J>, w: World<J>) {
    exists es :: Runs(limit, parse, Beginning(), es) && After(limit, parse, Beginning(), es) == w
  }

  lemma ReachedJoint<J(!new)>(limit: nat, parse: string -> Option<J>, w: World<J>)
    requires 1 <= limit && Reached(limit, parse, w)
    ensures Joint(limit, parse, w)
  {
    var es :| Runs(limit, parse, Beginning(), es) && After(limit, parse, Beginning(), es) == w;
    BeginningJoint(limit, parse);
    RunJoint(limit, parse, Beginning(), es);
  }

  // ---------------------------------------------------------------------------
  // What an announcement means

  /** When a job is announced, in any lifetime, its runner has ended; its result file exists exactly if the
      request parses and the runner ended normally, and then tells the truth about the request. */
  lemma AnnouncedIsOver<J(!new)>(limit: nat, parse: string -> Option<J>, w: World<J>, id: nat)
    requires 1 <= limit && Reached(limit, parse, w) && id in w.service.sched.reported
    ensures var s := w.store;
            && id in s.issued && id in s.endings && id !in s.runners
            && (ToString(id) in s.finished <==> JobStore.EndsNormally(s.endings[id]) && parse(s.issued[id]).Some?)
            && (ToString(id) in s.finished ==> JobStore.Truthful(parse, s, id))
  {
    ReachedJoint(limit, parse, w);
    assert id in w.store.launched && id !in w.store.runners;
    JobStore.ResultOf(parse, w.store, id);
  }

  // ---------------------------------------------------------------------------
  // What a crash loses

  lemma {:induction false} LostForever<J(!new)>(limit: nat, parse: string -> Option<J>, w: World<J>, es: seq<Event>, id: nat)
    requires JobStore.Inv(parse, w.store) && Runs(limit, parse, w, es) && JobStore.Lost(parse, w.store, id)
    ensures var t := After(limit, parse, w, es).store; JobStore.Inv(parse, t) && JobStore.Lost(parse, t, id)
  {
    if es != [] {
      LostForever(limit, parse, w, es[..|es| - 1], id);
      var before := After(limit, parse, w, es[..|es| - 1]);
      var f := StoreEvent(before.service, es[|es| - 1]);
      if f.Some? {
        JobStore.StepKeepsInv(parse, before.store, f.value);
        JobStore.StaysLost(parse, before.store, f.value, id);
      }
    }
  }

  /** The job gets a result in some continuation. */
  ghost predicate CanFinish<J(!new)>(limit: nat, parse: string -> Option<J>, w: World<J>, id: nat) {
    exists more :: Runs(limit, parse, w, more) && ToString(id) in After(limit, parse, w, more).store.finished
  }

  lemma FinishesIff<J(!new)>(limit: nat, parse: string -> Option<J>, w: World<J>, id: nat)
    requires JobStore.Inv(parse, w.store) && id in w.store.issued && id < w.store.first && ToString(id) !in w.store.finished
    ensures CanFinish(limit, parse, w, id) <==> id in w.store.runners && parse(w.store.issued[id]).Some?
  {
    if id in w.store.runners && parse(w.store.issued[id]).Some? {
      OrphanFinishes(limit, parse, w, id);
    } else {
      forall more | Runs(limit, parse, w, more)
        ensures ToString(id) !in After(limit, parse, w, more).store.finished
      {
        LostForever(limit, parse, w, more, id);
      }
    }
  }

  /** After a crash, a job issued before it and still without a result can get one exactly if its runner is
      alive and its request parses, whatever the service does later. */
  lemma CrashLosesIff<J(!new)>(limit: nat, parse: string -> Option<J>, w: World<J>, n: nat, id: nat)
    requires 1 <= limit && Reached(limit, parse, w) && Enabled(w, Crash(n))
    requires id in w.store.issued && ToString(id) !in w.store.finished
    ensures CanFinish(limit, parse, Step(limit, parse, w, Crash(n)), id) <==>
            id in w.store.runners && parse(w.store.issued[id]).Some?
  {
    ReachedStore(limit, parse, w);
    CrashedStore(parse, w.store, n);
    var t := Step(limit, parse, w, Crash(n));
    assert t.store == JobStore.Step(parse, w.store, JobStore.Restart(n));
    FinishesIff(limit, parse, t, id);
  }

  lemma ReachedStore<J(!new)>(limit: nat, parse: string -> Option<J>, w: World<J>)
    requires 1 <= limit && Reached(limit, parse, w)
    ensures JobStore.Inv(parse, w.store)
  {
    ReachedJoint(limit, parse, w);
  }

  /** All ids issued before a crash are of an earlier lifetime after it. */
  lemma CrashedStore<J>(parse: string -> Option<J>, s: JobStore.Store<J>, n: nat)
    requires JobStore.Inv(parse, s) && JobStore.Enabled(s, JobStore.Restart(n))
    ensures var t := JobStore.Step(parse, s, JobStore.Restart(n));
            && JobStore.Inv(parse, t) && t.issued == s.issued && t.runners == s.runners && t.finished == s.finished
            && forall id :: id in t.issued ==> id < t.first
  {
    JobStore.StepKeepsInv(parse, s, JobStore.Restart(n));
    JobStore.DenseFirstMissing(s.requests, JobStore.Files(s), n);
  }

  lemma OrphanFinishes<J(!new)>(limit: nat, parse: string -> Option<J>, w: World<J>, id: nat)
    requires JobStore.Inv(parse, w.store) && id in w.store.runners && id < w.store.first
    requires parse(w.store.issued[id]).Some?
    ensures CanFinish(limit, parse, w, id)
  {
    JobStore.RunnerMayFinish(parse, w.store, id);
    var e := OrphanEnds(id, JobStore.Success(id).ending);
    assert [e][..0] == [];
    assert Runs(limit, parse, w, []) && After(limit, parse, w, []) == w;
    assert Runs(limit, parse, w, [e]) && After(limit, parse, w, [e]) == Step(limit, parse, w, e);
  }

  /** A job in the queue has no runner. */
  lemma WaitingHasNoRunner<J(!new)>(limit: nat, parse: string -> Option<J>, w: World<J>, id: nat)
    requires Joint(limit, parse, w) && w.service.pc.Free? && id in w.service.sched.queue
    ensures id in w.store.issued && id !in w.store.launched && id !in w.store.runners && ToString(id) !in w.store.finished
  {
    GoodSnap(limit, w.store.first, w.service);
    assert w.service.sched == w.service.past.snap;
    var i :| 0 <= i < |w.service.sched.queue| && w.service.sched.queue[i] == id;
    assert w.store.first <= id && id !in w.service.sched.started;
    assert JobStore.Exact(parse, w.store, id);
  }

  /** Every job that waits in the queue when the service dies is lost: it never gets a result. */
  lemma QueueIsLost<J(!new)>(limit: nat, parse: string -> Option<J>, w: World<J>, n: nat, id: nat)
    requires 1 <= limit && Reached(limit, parse, w) && Enabled(w, Crash(n))
    requires w.service.pc.Free? && id in w.service.sched.queue
    ensures id in w.store.issued && !CanFinish(limit, parse, Step(limit, parse, w, Crash(n)), id)
  {
    ReachedJoint(limit, parse, w);
    WaitingHasNoRunner(limit, parse, w, id);
    CrashLosesIff(limit, parse, w, n, id);
  }

  // ---------------------------------------------------------------------------
  // It happens, whatever the limit

  lemma Next<J(!new)>(limit: nat, parse: string -> Option<J>, w: World<J>, e: Event)
    requires Reached(limit, parse, w) && Enabled(w, e)
    ensures Reached(limit, parse, Step(limit, parse, w, e))
  {
    var es :| Runs(limit, parse, Beginning(), es) && After(limit, parse, Beginning(), es) == w;
    assert (es + [e])[..|es|] == es;
    assert Runs(limit, parse, Beginning(), es + [e]);
  }

  lemma Serves<J(!new)>(limit: nat, parse: string -> Option<J>, w: World<J>, step: Service.Event) returns (t: World<J>)
    requires Reached(limit, parse, w) && Service.Enabled(w.service, step) && Quiet(w.service, step)
    ensures t == w.(service := Service.Step(limit, w.service, step)) && Reached(limit, parse, t)
  {
    Next(limit, parse, w, Serve(step));
    t := Step(limit, parse, w, Serve(step));
  }

  /** Nobody is in `create`. */
  predicate AtRest<J>(w: World<J>) {
    w.service.pc.Free? && w.service.creators == map[] && w.store.pc.Idle?
  }

  lemma Enters<J(!new)>(limit: nat, parse: string -> Option<J>, w: World<J>, request: string) returns (t: World<J>)
    requires Reached(limit, parse, w) && AtRest(w)
    ensures Reached(limit, parse, t) && t == w.(service := w.service.(pc := Service.Entered(0, request)))
  {
    t := Serves(limit, parse, w, Service.Arrive(0, request));
    assert t.service.creators - {0} == map[];
    t := Serves(limit, parse, t, Service.InCreate(Service.LockCreate(0)));
  }

  /** A whole `create` up to its call of `schedule`. */
  lemma Submits<J(!new)>(limit: nat, parse: string -> Option<J>, w: World<J>, request: string) returns (t: World<J>)
    requires Reached(limit, parse, w) && AtRest(w)
    ensures Reached(limit, parse, t) && t.store.pc.Idle?
    ensures t.store.issued == w.store.issued[w.store.jobId := request]
    ensures t.service == w.service.(pc := Service.Testing(Service.CreateCall(0, request)),
                                    sched := Enter(w.service.sched, Create(request, NoChild)))
  {
    t := Enters(limit, parse, w, request);
    Next(limit, parse, t, Write);
    t := Step(limit, parse, t, Write);
    Next(limit, parse, t, Serve(Service.InCreate(Service.NewJob)));
    t := Step(limit, parse, t, Serve(Service.InCreate(Service.NewJob)));
    t := Serves(limit, parse, t, Service.InCreate(Service.Push));
  }

  lemma ForkEnabled<J(!new)>(limit: nat, parse: string -> Option<J>, w: World<J>, pid: int)
    requires 1 <= limit && Reached(limit, parse, w) && w.service.pc.Forking? && Service.Unused(w.service.kernel, pid)
    ensures Enabled(w, Serve(Service.InSchedule(Service.ForkChild(pid))))
  {
    FrontMayStart(limit, parse, w);
    ForkPossible(w, pid);
  }

  lemma FrontMayStart<J(!new)>(limit: nat, parse: string -> Option<J>, w: World<J>)
    requires 1 <= limit && Reached(limit, parse, w) && w.service.pc.Forking?
    ensures JobStore.Enabled(w.store, JobStore.StartRunner(w.service.pc.id))
  {
    ReachedJoint(limit, parse, w);
    ForkAllowed(limit, parse, w);
  }

  lemma ForkPossible<J>(w: World<J>, pid: int)
    requires w.service.pc.Forking? && Service.Unused(w.service.kernel, pid)
    requires JobStore.Enabled(w.store, JobStore.StartRunner(w.service.pc.id))
    ensures Enabled(w, Serve(Service.InSchedule(Service.ForkChild(pid))))
  {
  }

  lemma ForksOne<J(!new)>(limit: nat, parse: string -> Option<J>, w: World<J>) returns (t: World<J>, pid: int)
    requires 1 <= limit && Reached(limit, parse, w) && w.service.pc.Forking?
    ensures Reached(limit, parse, t) && t.store.pc == w.store.pc && pid !in w.service.sched.active
    ensures Service.Unused(w.service.kernel, pid)
    ensures t.service == Service.ScheduleNext(limit, w.service, Service.ForkChild(pid))
  {
    pid := FreePid(w.service.kernel, w.service.sched.active);
    ForkEnabled(limit, parse, w, pid);
    Next(limit, parse, w, Serve(Service.InSchedule(Service.ForkChild(pid))));
    t := Step(limit, parse, w, Serve(Service.InSchedule(Service.ForkChild(pid))));
  }

  lemma Starts<J(!new)>(limit: nat, parse: string -> Option<J>, w: World<J>) returns (t: World<J>, pid: int)
    requires 1 <= limit && Reached(limit, parse, w) && w.store.pc.Idle? && w.service.creators == map[]
    requires w.service.pc.Testing? && Dispatches(limit, w.service.sched)
    ensures Reached(limit, parse, t) && AtRest(t) && pid !in w.service.sched.active
    ensures t.service.sched == Schedule(limit, w.service.sched, Child(pid))
  {
    t := Serves(limit, parse, w, Service.InSchedule(Service.Test));
    t, pid := ForksOne(limit, parse, t);
    t := Serves(limit, parse, t, Service.InSchedule(Service.Record));
    t := Serves(limit, parse, t, Service.InSchedule(Service.Unlock));
  }

  lemma FreePid(k: Service.Kernel, active: map<int, nat>) returns (pid: int)
    ensures Service.Unused(k, pid) && pid !in active
  {
    var held := if k.handler.Reaped? then {k.handler.pid} else {};
    pid := ServiceProgress.FreshAbove(k.live.Keys + k.zombies.Keys + held + active.Keys);
  }

  lemma Skips<J(!new)>(limit: nat, parse: string -> Option<J>, w: World<J>) returns (t: World<J>)
    requires Reached(limit, parse, w) && w.store.pc.Idle? && w.service.creators == map[]
    requires w.service.pc.Testing? && !Dispatches(limit, w.service.sched)
    ensures Reached(limit, parse, t) && AtRest(t) && t.service.sched == w.service.sched && t.store == w.store
  {
    t := Serves(limit, parse, w, Service.InSchedule(Service.Test));
    t := Serves(limit, parse, t, Service.InSchedule(Service.Unlock));
  }

  /** `k` jobs have been created and all of them started. */
  ghost predicate Busily<J>(w: World<J>, k: nat) {
    AtRest(w) && w.service.sched.queue == [] && |w.service.sched.active| == k
  }

  lemma {:induction false} ManyJobs<J(!new)>(limit: nat, parse: string -> Option<J>, request: string, k: nat) returns (w: World<J>)
    requires 1 <= limit && k <= limit
    ensures Reached(limit, parse, w) && Busily(w, k)
  {
    if k == 0 {
      w := Beginning();
      assert Runs(limit, parse, w, []) && After(limit, parse, w, []) == w;
    } else {
      w := ManyJobs(limit, parse, request, k - 1);
      w := Submits(limit, parse, w, request);
      var sched := w.service.sched;
      var pid;
      w, pid := Starts(limit, parse, w);
      OneMore(sched.active, pid, sched.queue[0]);
    }
  }

  lemma ReachedCounter<J(!new)>(limit: nat, parse: string -> Option<J>, w: World<J>)
    requires 1 <= limit && Reached(limit, parse, w)
    ensures w.service.sched.next == w.store.jobId
  {
    ReachedJoint(limit, parse, w);
  }

  lemma OneMore(active: map<int, nat>, pid: int, id: nat)
    requires pid !in active
    ensures |active[pid := id]| == |active| + 1
  {
    assert active[pid := id].Keys == active.Keys + {pid};
  }

  /** For every limit and every parser there is a run that loses a request: the service has answered it with
      an id, every slot is taken, the service dies, and the job never gets a result. */
  lemma RequestLost<J(!new)>(limit: nat, parse: string -> Option<J>, request: string) returns (w: World<J>, n: nat, id: nat)
    requires 1 <= limit
    ensures Reached(limit, parse, w) && AtRest(w) && Enabled(w, Crash(n))
    ensures id in w.store.issued && w.store.issued[id] == request
    ensures !CanFinish(limit, parse, Step(limit, parse, w, Crash(n)), id)
  {
    w := ManyJobs(limit, parse, request, limit);
    id := w.service.sched.next;
    ReachedCounter(limit, parse, w);
    w := Submits(limit, parse, w, request);
    w := Skips(limit, parse, w);
    assert w.service.sched.queue == [id];
    ReachedStore(limit, parse, w);
    n := JobStore.Files(w.store);
    JobStore.DenseFirstMissing(w.store.requests, n, n);
    QueueIsLost(limit, parse, w, n, id);
  }
}

/** The file-backed job store: the request and result directories, which outlive the process, the
    id counter, which does not, and the runner processes that turn a request into a result. */
module JobStore {
  import opened Decimal

  /** How `load` or `eval` of a script ended. Only OPC and standard exceptions are caught. */
  datatype Attempt = Completed | OpcException | StdException | OtherException

  datatype JobStatus = INIT | PENDING | RUNNING | FINISHED | ABORTED

  /** Clock readings a runner takes. */
  datatype Clock = Clock(start: int, stop: int, runtimeMs: real)

  /** How a runner's attempts ended, and the clock it saw. */
  datatype Ending = Ending(load: Attempt, eval: Attempt, clock: Clock)

  /** A result file. `J` is the type of parsed JSON documents. */
  datatype Record<J> = Record(id: int, tsStart: int, tsStop: int, runtimeMs: real, ok: bool, request: J)

  /** The files under the working directory's `jobs`. */
  class Disk<J> {
    var hasJobs: bool
    var requests: map<string, string>
    var finished: map<string, Record<J>>

    ghost predicate Valid()
      reads this
    {
      !hasJobs ==> requests == map[] && finished == map[]
    }
  }

  // ---------------------------------------------------------------------------
  // The store process

  /** `n` is the first id without a request file. */
  ghost predicate FirstMissing(requests: map<string, string>, n: nat) {
    ToString(n) !in requests && forall i: nat :: i < n ==> ToString(i) in requests
  }

  /** The request directory holds exactly the files 0 .. n-1. */
  ghost predicate Dense(requests: map<string, string>, n: nat) {
    && (forall i: nat :: i < n ==> ToString(i) in requests)
    && (forall name :: name in requests ==> exists i: nat :: i < n && name == ToString(i))
  }

  lemma DenseFirstMissing(requests: map<string, string>, n: nat, m: nat)
    requires Dense(requests, n)
    ensures FirstMissing(requests, m) <==> m == n
  {
    if ToString(n) in requests {
      var i: nat :| i < n && ToString(n) == ToString(i);
      Injective(n, i);
    }
  }

  class DataBase<J> {
    const disk: Disk<J>
    var jobId: nat

    /** Opens the store. The counter is recovered by looking for the first unused file name;
        the search ends whatever the directory holds. */
    constructor (disk: Disk<J>)
      requires disk.Valid()
      modifies disk
      ensures this.disk == disk && disk.Valid() && disk.hasJobs
      ensures disk.requests == old(disk.requests) && disk.finished == old(disk.finished)
      ensures FirstMissing(disk.requests, jobId)
    {
      this.disk := disk;
      jobId := 0;
      new;
      if !disk.hasJobs {
        disk.hasJobs := true;
      } else {
        var lastId := 0;
        ghost var seen: set<string> := {};
        while ToString(lastId) in disk.requests
          invariant forall i: nat :: i < lastId ==> ToString(i) in disk.requests
          invariant seen <= disk.requests.Keys
          invariant forall name :: name in seen ==> exists i: nat :: i < lastId && name == ToString(i)
          decreases disk.requests.Keys - seen
        {
          assert ToString(lastId) !in seen by {
            if ToString(lastId) in seen {
              var i: nat :| i < lastId && ToString(lastId) == ToString(i);
              Injective(lastId, i);
            }
          }
          seen := seen + {ToString(lastId)};
          lastId := lastId + 1;
        }
        jobId := lastId;
      }
    }

    method NewJob(request: string) returns (newJobId: nat)
      modifies this, disk
      ensures forall s: Store<J>, parse: string -> Option<J> ::
                Shows(s, old(disk.requests), old(disk.finished), old(jobId)) ==>
                Shows(Created(parse, s, request), disk.requests, disk.finished, jobId)
      ensures newJobId == old(jobId) && jobId == newJobId + 1
      ensures disk.requests == old(disk.requests)[ToString(newJobId) := request]
      ensures disk.hasJobs == old(disk.hasJobs) && disk.finished == old(disk.finished)
    {
      newJobId := jobId;
      disk.requests := disk.requests[ToString(newJobId) := request];
      jobId := jobId + 1;
    }
  }

  /** The state `s` of the machine below shows these files and this counter, between two operations. */
  ghost predicate Shows<J>(s: Store<J>, requests: map<string, string>, finished: map<string, Record<J>>, jobId: nat) {
    s.pc.Idle? && s.requests == requests && s.finished == finished && s.jobId == jobId
  }

  /** `NewJob` as steps of the machine below, when no crash comes between its two effects. */
  ghost function Created<J>(parse: string -> Option<J>, s: Store<J>, request: string): Store<J>
    requires s.pc.Idle?
  {
    Step(parse, Step(parse, s, WriteRequest(request)), CountJob)
  }

  // ---------------------------------------------------------------------------
  // The runner process

  class Job {
    var status: JobStatus
    var start: int
    var stop: int
    var runtimeMs: real

    constructor ()
      ensures status == INIT && start == 0 && stop == 0 && runtimeMs == 0.0
    {
      status, start, stop, runtimeMs := INIT, 0, 0, 0.0;
    }

    /** Returns false if an exception leaves the function, which ends the process. */
    method Execute(load: Attempt, eval: Attempt, clock: Clock) returns (returned: bool)
      requires status == INIT && start == 0 && stop == 0 && runtimeMs == 0.0
      modifies this
      ensures returned <==> !load.OtherException? && (load.Completed? ==> !eval.OtherException?)
      ensures status == FINISHED <==> load.Completed? && eval.Completed?
      ensures returned && status != FINISHED ==> status == ABORTED
      ensures start == if load.Completed? then clock.start else 0
      ensures stop == if status == FINISHED then clock.stop else 0
      ensures runtimeMs == if status == FINISHED then clock.runtimeMs else 0.0
    {
      if load.OtherException? {
        return false;
      }
      if !load.Completed? {
        status := ABORTED;
        return true;
      }
      start := clock.start;
      status := RUNNING;
      if eval.OtherException? {
        return false;
      }
      if !eval.Completed? {
        status := ABORTED;
        return true;
      }
      stop := clock.stop;
      runtimeMs := clock.runtimeMs;
      status := FINISHED;
      return true;
    }

    method AddResult<J>(request: J, id: int) returns (r: Record<J>)
      ensures r == Record(id, start, stop, runtimeMs, status == FINISHED, request)
    {
      var ok := true;
      if status != FINISHED {
        ok := false;
      }
      r := Record(id, start, stop, runtimeMs, ok, request);
    }
  }

  /** The result a runner writes for the job called `name`, if it gets that far. `parse` is the
      JSON parser with the check for the members a job must have. */
  function RunnerOutput<J>(parse: string -> Option<J>, requests: map<string, string>, name: string, e: Ending): Option<Record<J>>
  {
    if name !in requests || parse(requests[name]).None? || Stoi(name).None? then None
    else if e.load.OtherException? || (e.load.Completed? && e.eval.OtherException?) then None
    else
      var done := e.load.Completed? && e.eval.Completed?;
      Some(Record(Stoi(name).value,
                  if e.load.Completed? then e.clock.start else 0,
                  if done then e.clock.stop else 0,
                  if done then e.clock.runtimeMs else 0.0,
                  done, parse(requests[name]).value))
  }

  /** The runner's `main`: create the job, execute it, write the result under the same name. */
  method RunTestRunner<J>(disk: Disk<J>, parse: string -> Option<J>, name: string, e: Ending)
    modifies disk
    ensures disk.hasJobs == old(disk.hasJobs) && disk.requests == old(disk.requests)
    ensures disk.finished ==
            match RunnerOutput(parse, old(disk.requests), name, e)
            case None => old(disk.finished)
            case Some(r) => old(disk.finished)[name := r]
    ensures name in old(disk.requests) && parse(old(disk.requests)[name]).Some? && Stoi(name).Some? && EndsNormally(e) ==>
              && disk.finished.Keys == old(disk.finished).Keys + {name}
              && disk.finished[name].id == Stoi(name).value
              && disk.finished[name].request == parse(old(disk.requests)[name]).value
              && Describes(disk.finished[name], e)
    ensures !(name in old(disk.requests) && parse(old(disk.requests)[name]).Some? && Stoi(name).Some? && EndsNormally(e)) ==>
              disk.finished == old(disk.finished)
  {
    if name !in disk.requests || parse(disk.requests[name]).None? {
      return;
    }
    var job := new Job();
    var returned := job.Execute(e.load, e.eval, e.clock);
    if !returned || Stoi(name).None? {
      return;
    }
    var r := job.AddResult(parse(disk.requests[name]).value, Stoi(name).value);
    disk.finished := disk.finished[name := r];
  }

  // ---------------------------------------------------------------------------
  // Runs with crashes and restarts

  /** `NewJob` between its two effects, or not. */
  datatype Pc = Idle | Written(id: nat, request: string)

  /** `first` is the first id of this lifetime of the service. `issued` is what `create` returned for each
      request, over all lifetimes; `launched` are the jobs a runner was started for, `runners` those whose
      runner is alive, which survives a crash of the service; `endings` is how the others ended. */
  datatype Store<J> = Store(
    requests: map<string, string>, finished: map<string, Record<J>>, jobId: nat, pc: Pc,
    first: nat, issued: map<nat, string>, launched: set<nat>, runners: set<nat>, endings: map<nat, Ending>)

  datatype Event =
    | WriteRequest(request: string)
    | CountJob
    | Restart(recovered: nat)            // a crash at any point, then a new process
    | StartRunner(id: nat)
    | RunnerEnds(id: nat, ending: Ending)

  function Empty<J>(): Store<J> {
    Store(map[], map[], 0, Idle, 0, map[], {}, {}, map[])
  }

  /** The queue holds ids of this lifetime only, and starts each of them once. */
  ghost predicate Enabled<J>(s: Store<J>, e: Event) {
    match e
    case WriteRequest(_) => s.pc.Idle?
    case CountJob => s.pc.Written?
    case Restart(n) => FirstMissing(s.requests, n)
    case StartRunner(id) => id in s.issued && s.first <= id && id !in s.launched
    case RunnerEnds(id, _) => id in s.runners
  }

  ghost function Step<J>(parse: string -> Option<J>, s: Store<J>, e: Event): Store<J>
    requires Enabled(s, e)
  {
    match e
    case WriteRequest(request) =>
      s.(requests := s.requests[ToString(s.jobId) := request], pc := Written(s.jobId, request))
    case CountJob => s.(jobId := s.jobId + 1, pc := Idle, issued := s.issued[s.pc.id := s.pc.request])
    case Restart(n) => s.(jobId := n, first := n, pc := Idle)
    case StartRunner(id) => s.(runners := s.runners + {id}, launched := s.launched + {id})
    case RunnerEnds(id, ending) =>
      var ended := s.(runners := s.runners - {id}, endings := s.endings[id := ending]);
      match RunnerOutput(parse, s.requests, ToString(id), ending)
      case None => ended
      case Some(r) => ended.(finished := s.finished[ToString(id) := r])
  }

  ghost predicate Runs<J(!new)>(parse: string -> Option<J>, s: Store<J>, es: seq<Event>)
    decreases |es|, 0
  {
    es == [] ||
    (Runs(parse, s, es[..|es| - 1]) && Enabled(After(parse, s, es[..|es| - 1]), es[|es| - 1]))
  }

  ghost function After<J(!new)>(parse: string -> Option<J>, s: Store<J>, es: seq<Event>): Store<J>
    requires Runs(parse, s, es)
    decreases |es|, 1
  {
    if es == [] then s else Step(parse, After(parse, s, es[..|es| - 1]), es[|es| - 1])
  }

  /** Number of request files. */
  function Files<J>(s: Store<J>): nat {
    if s.pc.Written? then s.jobId + 1 else s.jobId
  }

  ghost predicate Counted<J>(s: Store<J>) {
    && Dense(s.requests, Files(s))
    && (s.pc.Written? ==> s.pc.id == s.jobId && s.requests[ToString(s.jobId)] == s.pc.request)
    && s.first <= s.jobId
    && (forall id :: id in s.issued ==> id < s.jobId)
  }

  /** Every issued id leads to the request it was issued for, unaltered. */
  ghost predicate Kept<J>(s: Store<J>) {
    forall id :: id in s.issued ==> ToString(id) in s.requests && s.requests[ToString(id)] == s.issued[id]
  }

  /** Runners run issued jobs, one runner per job, and each is alive or has ended. */
  ghost predicate Launched(issued: map<nat, string>, launched: set<nat>, runners: set<nat>, endings: map<nat, Ending>) {
    && (forall id :: id in launched ==> id in issued)
    && (forall id :: id in launched <==> id in runners || id in endings)
    && (forall id :: id in runners ==> id !in endings)
  }

  /** What the runner of an issued job has written. */
  ghost function Result<J>(parse: string -> Option<J>, s: Store<J>, id: nat): Option<Record<J>> {
    if id in s.endings then RunnerOutput(parse, s.requests, ToString(id), s.endings[id]) else None
  }

  /** The result file of an issued job is exactly what its runner wrote, if it wrote anything. */
  ghost predicate Exact<J>(parse: string -> Option<J>, s: Store<J>, id: nat) {
    if ToString(id) in s.finished then Result(parse, s, id) == Some(s.finished[ToString(id)])
    else Result(parse, s, id) == None
  }

  ghost predicate Integrity<J>(parse: string -> Option<J>, s: Store<J>) {
    && (forall id: nat :: Exact(parse, s, id))
    && (forall name :: name in s.finished ==> exists id :: id in s.endings && name == ToString(id))
  }

  ghost predicate Inv<J>(parse: string -> Option<J>, s: Store<J>) {
    Counted(s) && Kept(s) && Launched(s.issued, s.launched, s.runners, s.endings) && Integrity(parse, s)
  }

  lemma DenseSnoc(requests: map<string, string>, n: nat, request: string)
    requires Dense(requests, n)
    ensures Dense(requests[ToString(n) := request], n + 1)
  {
    var more := requests[ToString(n) := request];
    forall name | name in more
      ensures exists i: nat :: i < n + 1 && name == ToString(i)
    {
      if name in requests {
        var i: nat :| i < n && name == ToString(i);
      }
    }
  }

  lemma RestartCounted<J>(parse: string -> Option<J>, s: Store<J>, n: nat)
    requires Counted(s) && Enabled(s, Restart(n))
    ensures Counted(Step(parse, s, Restart(n))) && n == Files(s)
  {
    DenseFirstMissing(s.requests, Files(s), n);
  }

  lemma StepCounted<J>(parse: string -> Option<J>, s: Store<J>, e: Event)
    requires Counted(s) && Enabled(s, e)
    ensures Counted(Step(parse, s, e))
  {
    var t := Step(parse, s, e);
    match e
    case WriteRequest(request) => DenseSnoc(s.requests, s.jobId, request);
    case Restart(n) => RestartCounted(parse, s, n);
    case CountJob => assert Dense(t.requests, Files(t));
    case StartRunner(_) =>
    case RunnerEnds(_, _) => assert t.requests == s.requests && t.pc == s.pc && t.jobId == s.jobId && t.issued == s.issued;
  }

  lemma StepKept<J>(parse: string -> Option<J>, s: Store<J>, e: Event)
    requires Counted(s) && Kept(s) && Enabled(s, e)
    ensures Kept(Step(parse, s, e))
  {
    if e.WriteRequest? {
      forall id | id in s.issued
        ensures ToString(id) != ToString(s.jobId)
      {
        Injective(id, s.jobId);
      }
    }
  }

  lemma StepLaunched<J>(parse: string -> Option<J>, s: Store<J>, e: Event)
    requires Launched(s.issued, s.launched, s.runners, s.endings) && Enabled(s, e)
    ensures var t := Step(parse, s, e); Launched(t.issued, t.launched, t.runners, t.endings)
  {
  }

  /** A runner's own name is free until it ends. */
  lemma EndExact<J>(parse: string -> Option<J>, s: Store<J>, e: Event, id: nat)
    requires Launched(s.issued, s.launched, s.runners, s.endings) && Exact(parse, s, id) && Enabled(s, e) && e.RunnerEnds?
    ensures Exact(parse, Step(parse, s, e), id)
  {
    if id != e.id {
      Injective(id, e.id);
    } else {
      assert id !in s.endings;
    }
  }

  lemma OtherExact<J>(parse: string -> Option<J>, s: Store<J>, e: Event, id: nat)
    requires Counted(s) && Launched(s.issued, s.launched, s.runners, s.endings)
    requires Exact(parse, s, id) && Enabled(s, e) && !e.RunnerEnds?
    ensures Exact(parse, Step(parse, s, e), id)
  {
    if e.WriteRequest? {
      Injective(id, s.jobId);
      assert id in s.endings ==> id in s.issued && id < s.jobId;
    }
  }

  lemma StepIntegrity<J>(parse: string -> Option<J>, s: Store<J>, e: Event)
    requires Inv(parse, s) && Enabled(s, e)
    ensures Integrity(parse, Step(parse, s, e))
  {
    var t := Step(parse, s, e);
    forall id: nat
      ensures Exact(parse, t, id)
    {
      assert Exact(parse, s, id);
      if e.RunnerEnds? {
        EndExact(parse, s, e, id);
      } else {
        OtherExact(parse, s, e, id);
      }
    }
    forall name | name in t.finished
      ensures exists id :: id in t.endings && name == ToString(id)
    {
      if name in s.finished {
        var id :| id in s.endings && name == ToString(id);
        assert id in t.endings;
      } else {
        assert e.id in t.endings && name == ToString(e.id);
      }
    }
  }

  lemma StepKeepsInv<J>(parse: string -> Option<J>, s: Store<J>, e: Event)
    requires Inv(parse, s) && Enabled(s, e)
    ensures Inv(parse, Step(parse, s, e))
  {
    StepCounted(parse, s, e);
    StepKept(parse, s, e);
    StepLaunched(parse, s, e);
    StepIntegrity(parse, s, e);
  }

  /** Whatever is created, run, crashed and restarted, the request directory is exactly 0 .. n-1,
      every issued id keeps its request, and the result files are exactly what the runners wrote. */
  lemma {:induction false} StoreInvariant<J(!new)>(parse: string -> Option<J>, s: Store<J>, es: seq<Event>)
    requires Inv(parse, s) && Runs(parse, s, es)
    ensures Inv(parse, After(parse, s, es))
  {
    if es != [] {
      StoreInvariant(parse, s, es[..|es| - 1]);
      StepKeepsInv(parse, After(parse, s, es[..|es| - 1]), es[|es| - 1]);
    }
  }

  lemma EmptyInv<J>(parse: string -> Option<J>)
    ensures Inv(parse, Empty())
  {
  }

  /** A result file tells the truth about the job: its request, its id, whether it succeeded, and when it
      ran. */
  ghost predicate Truthful<J>(parse: string -> Option<J>, s: Store<J>, id: nat)
    requires id in s.issued && id in s.endings && ToString(id) in s.finished
  {
    var r := s.finished[ToString(id)];
    && r.id == id
    && parse(s.issued[id]) == Some(r.request)
    && Describes(r, s.endings[id])
  }

  /** The record says how the attempts ended and what the clock showed. Without a loaded script there is no
      start, without a completed run neither a stop nor a duration. */
  predicate Describes<J(==)>(r: Record<J>, e: Ending) {
    && (r.ok <==> e.load.Completed? && e.eval.Completed?)
    && r.tsStart == (if e.load.Completed? then e.clock.start else 0)
    && r.tsStop == (if e.load.Completed? && e.eval.Completed? then e.clock.stop else 0)
    && r.runtimeMs == (if e.load.Completed? && e.eval.Completed? then e.clock.runtimeMs else 0.0)
  }

  /** The runner's attempts ended in completion or in an exception it catches. */
  predicate EndsNormally(e: Ending) {
    !e.load.OtherException? && (e.load.Completed? ==> !e.eval.OtherException?)
  }

  lemma ResultOf<J>(parse: string -> Option<J>, s: Store<J>, id: nat)
    requires Inv(parse, s) && id in s.issued
    ensures ToString(id) in s.finished <==>
            id in s.endings && EndsNormally(s.endings[id]) && parse(s.issued[id]).Some?
    ensures ToString(id) in s.finished ==> Truthful(parse, s, id)
  {
    assert Exact(parse, s, id);
    RoundTrip(id);
  }

  /** Result integrity for one id: if `create` returned n for request r, a result n exists exactly if r
      parses and a runner for n has ended normally; it then carries the parse of r, the id n, and Ok exactly
      if load and eval completed. The next id has no result yet. */
  lemma ResultIntegrity<J(!new)>(parse: string -> Option<J>, es: seq<Event>, n: nat)
    requires Runs(parse, Empty(), es)
    ensures var s := After(parse, Empty(), es);
            n in s.issued ==>
              && (ToString(n) in s.finished <==>
                    n in s.endings && EndsNormally(s.endings[n]) && parse(s.issued[n]).Some?)
              && (ToString(n) in s.finished ==> Truthful(parse, s, n))
    ensures var s := After(parse, Empty(), es); ToString(s.jobId) !in s.finished
  {
    EmptyInv(parse);
    StoreInvariant(parse, Empty(), es);
    var s := After(parse, Empty(), es);
    if n in s.issued {
      ResultOf(parse, s, n);
    }
    assert Exact(parse, s, s.jobId);
    assert s.jobId in s.endings ==> s.jobId in s.issued;
  }

  /** A restart, at any point of any run, finds the counter past every request file ever written. */
  lemma RestartRecovers<J(!new)>(parse: string -> Option<J>, es: seq<Event>, n: nat)
    requires Runs(parse, Empty(), es)
    ensures var s := After(parse, Empty(), es);
            Enabled(s, Restart(n)) <==> n == Files(s)
    ensures Dense(After(parse, Empty(), es).requests, Files(After(parse, Empty(), es)))
  {
    EmptyInv(parse);
    StoreInvariant(parse, Empty(), es);
    var s := After(parse, Empty(), es);
    DenseFirstMissing(s.requests, Files(s), n);
  }

  ghost predicate Extends<J>(s: Store<J>, t: Store<J>) {
    && (forall name :: name in s.requests ==> name in t.requests && t.requests[name] == s.requests[name])
    && (forall id :: id in s.issued ==> id in t.issued && t.issued[id] == s.issued[id])
  }

  lemma StepExtends<J>(parse: string -> Option<J>, s: Store<J>, e: Event)
    requires Counted(s) && Enabled(s, e)
    ensures Extends(s, Step(parse, s, e))
  {
    if e.WriteRequest? {
      DenseFirstMissing(s.requests, s.jobId, s.jobId);
    }
  }

  /** No request file is ever overwritten or lost, and no id is ever issued for a second request. */
  lemma {:induction false} NothingOverwritten<J(!new)>(parse: string -> Option<J>, s: Store<J>, es: seq<Event>)
    requires Inv(parse, s) && Runs(parse, s, es)
    ensures Extends(s, After(parse, s, es))
  {
    if es != [] {
      NothingOverwritten(parse, s, es[..|es| - 1]);
      StoreInvariant(parse, s, es[..|es| - 1]);
      StepExtends(parse, After(parse, s, es[..|es| - 1]), es[|es| - 1]);
    }
  }

  // ---------------------------------------------------------------------------
  // What a restart loses

  /** The job has no result and will never get one. */
  ghost predicate Lost<J>(parse: string -> Option<J>, s: Store<J>, id: nat) {
    && id in s.issued && id < s.first && ToString(id) !in s.finished
    && (id !in s.runners || parse(s.issued[id]).None?)
  }

  lemma StaysLost<J>(parse: string -> Option<J>, s: Store<J>, e: Event, id: nat)
    requires Counted(s) && Kept(s) && Enabled(s, e) && Lost(parse, s, id)
    ensures Lost(parse, Step(parse, s, e), id)
  {
    if e.Restart? {
      DenseFirstMissing(s.requests, Files(s), e.recovered);
    } else if e.RunnerEnds? {
      Injective(id, e.id);
    }
  }

  /** The end of a runner that completes. */
  function Success(id: nat): Event {
    RunnerEnds(id, Ending(Completed, Completed, Clock(0, 0, 0.0)))
  }

  lemma RunnerMayFinish<J>(parse: string -> Option<J>, s: Store<J>, id: nat)
    requires Inv(parse, s) && id in s.runners && parse(s.issued[id]).Some?
    ensures Enabled(s, Success(id)) && ToString(id) in Step(parse, s, Success(id)).finished
  {
    RoundTrip(id);
  }
}

/** Whose request is whose job: over the list of events of any run of the whole system, crashes included,
    the request a thread called `create` with is the one stored under the id that call took. */
module Requests {
  import opened Decimal
  import opened System
  import Service
  import JobStore

  const TAKES_ID: Event := Serve(Service.InCreate(Service.NewJob))

  function Arrives(tid: nat, request: string): Event { Serve(Service.Arrive(tid, request)) }

  function Locks(tid: nat): Event { Serve(Service.InCreate(Service.LockCreate(tid))) }

  // ---------------------------------------------------------------------------
  // The states along a run

  ghost predicate StepsTo<J>(limit: nat, parse: string -> Option<J>, w: World<J>, e: Event, t: World<J>) {
    Enabled(w, e) && t == Step(limit, parse, w, e)
  }

  ghost predicate Follows<J>(limit: nat, parse: string -> Option<J>, es: seq<Event>, ws: seq<World<J>>, j: nat)
    requires |ws| == |es| + 1 && j < |es|
  {
    StepsTo(limit, parse, ws[j], es[j], ws[j + 1])
  }

  /** `ws[j]` is the state before event `j` of a run from the beginning. */
  ghost predicate Trace<J>(limit: nat, parse: string -> Option<J>, es: seq<Event>, ws: seq<World<J>>) {
    && |ws| == |es| + 1 && ws[0] == Beginning()
    && forall j :: 0 <= j < |es| ==> Follows(limit, parse, es, ws, j)
  }

  /** Every run has its trace. */
  lemma {:induction false} TraceOf<J(!new)>(limit: nat, parse: string -> Option<J>, es: seq<Event>) returns (ws: seq<World<J>>)
    requires Runs(limit, parse, Beginning(), es)
    ensures Trace(limit, parse, es, ws) && ws[|es|] == After(limit, parse, Beginning(), es)
  {
    if es == [] {
      ws := [Beginning()];
    } else {
      var n := |es| - 1;
      var front := TraceOf(limit, parse, es[..n]);
      ws := front + [After(limit, parse, Beginning(), es)];
      forall j | 0 <= j < |es|
        ensures Follows(limit, parse, es, ws, j)
      {
        assert j < n ==> Follows(limit, parse, es[..n], front, j);
      }
    }
  }

  lemma {:induction false} TraceReached<J(!new)>(limit: nat, parse: string -> Option<J>, es: seq<Event>, ws: seq<World<J>>, j: nat)
    requires Trace(limit, parse, es, ws) && j <= |es|
    ensures Reached(limit, parse, ws[j])
  {
    if j == 0 {
      assert Runs(limit, parse, Beginning(), []) && After(limit, parse, Beginning(), []) == ws[0];
    } else {
      TraceReached(limit, parse, es, ws, j - 1);
      assert Follows(limit, parse, es, ws, j - 1);
      Next(limit, parse, ws[j - 1], es[j - 1]);
    }
  }

  /** What the two counters and the files have to do with each other. */
  ghost predicate Counts<J>(w: World<J>) {
    JobStore.Counted(w.store) && Counter(w.service.sched.next, w.service.pc, w.store)
  }

  lemma ReachedCounts<J(!new)>(limit: nat, parse: string -> Option<J>, w: World<J>)
    requires 1 <= limit && Reached(limit, parse, w)
    ensures Counts(w)
  {
    ReachedJoint(limit, parse, w);
  }

  lemma TraceCounts<J(!new)>(limit: nat, parse: string -> Option<J>, es: seq<Event>, ws: seq<World<J>>, j: nat)
    requires 1 <= limit && Trace(limit, parse, es, ws) && j <= |es|
    ensures Counts(ws[j])
  {
    TraceReached(limit, parse, es, ws, j);
    ReachedCounts(limit, parse, ws[j]);
  }

  // ---------------------------------------------------------------------------
  // From the call to the id

  /** Thread `tid` calls `create` with `request` at `a` and has not been let in before `l`. */
  predicate Waits(es: seq<Event>, a: nat, l: nat, tid: nat, request: string) {
    && a < l <= |es| && es[a] == Arrives(tid, request)
    && forall j :: a < j < l ==> !es[j].Crash? && es[j] != Locks(tid)
  }

  /** It takes the mutex at `l`, and up to `i` the service neither died nor gave out an id. */
  predicate LetIn(es: seq<Event>, l: nat, i: nat, tid: nat) {
    && l < i <= |es| && es[l] == Locks(tid)
    && forall j :: l < j < i ==> !es[j].Crash? && es[j] != TAKES_ID
  }

  /** The call of `create` that takes an id at `i`. */
  predicate IsCall(es: seq<Event>, a: nat, l: nat, i: nat, tid: nat, request: string) {
    Waits(es, a, l, tid, request) && LetIn(es, l, i, tid) && i < |es| && es[i] == TAKES_ID
  }

  /** A step other than a crash leaves a waiting thread waiting, unless it lets that thread in. */
  lemma WaitingStep<J>(limit: nat, parse: string -> Option<J>, w: World<J>, e: Event, tid: nat)
    requires Enabled(w, e) && !e.Crash? && e != Locks(tid) && tid in w.service.creators
    ensures var t := Step(limit, parse, w, e).service; tid in t.creators && t.creators[tid] == w.service.creators[tid]
  {
  }

  lemma {:induction false} StillWaiting<J>(limit: nat, parse: string -> Option<J>, es: seq<Event>, ws: seq<World<J>>,
                                                 a: nat, l: nat, tid: nat, request: string)
    requires Trace(limit, parse, es, ws) && Waits(es, a, l, tid, request)
    ensures var s := ws[l].service; tid in s.creators && s.creators[tid] == request
    decreases l
  {
    assert Follows(limit, parse, es, ws, l - 1);
    if l > a + 1 {
      StillWaiting(limit, parse, es, ws, a, l - 1, tid, request);
      WaitingStep(limit, parse, ws[l - 1], es[l - 1], tid);
    }
  }

  /** A step other than a crash leaves the thread in `create` where it is, unless it takes its id. */
  lemma EnteredStep<J>(limit: nat, parse: string -> Option<J>, w: World<J>, e: Event)
    requires Enabled(w, e) && !e.Crash? && e != TAKES_ID && w.service.pc.Entered?
    ensures Step(limit, parse, w, e).service.pc == w.service.pc
  {
  }

  lemma {:induction false} StillEntered<J>(limit: nat, parse: string -> Option<J>, es: seq<Event>, ws: seq<World<J>>,
                                                 a: nat, l: nat, i: nat, tid: nat, request: string)
    requires Trace(limit, parse, es, ws) && Waits(es, a, l, tid, request) && LetIn(es, l, i, tid)
    ensures ws[i].service.pc == Service.Entered(tid, request)
    decreases i
  {
    assert Follows(limit, parse, es, ws, i - 1);
    if i == l + 1 {
      StillWaiting(limit, parse, es, ws, a, l, tid, request);
    } else {
      StillEntered(limit, parse, es, ws, a, l, i - 1, tid, request);
      EnteredStep(limit, parse, ws[i - 1], es[i - 1]);
    }
  }

  // ---------------------------------------------------------------------------
  // From the id to the files

  /** The request is stored under the id. */
  ghost predicate Stored<J>(s: JobStore.Store<J>, id: nat, request: string) {
    && id in s.issued && s.issued[id] == request
    && ToString(id) in s.requests && s.requests[ToString(id)] == request
  }

  lemma TakesStored<J>(limit: nat, parse: string -> Option<J>, w: World<J>, tid: nat, request: string)
    requires Counts(w) && Enabled(w, TAKES_ID) && w.service.pc == Service.Entered(tid, request)
    ensures Stored(Step(limit, parse, w, TAKES_ID).store, w.store.jobId, request)
  {
    assert w.store.pc.Written? && w.store.pc.request == request && w.store.pc.id == w.store.jobId;
  }

  lemma StaysStored<J>(limit: nat, parse: string -> Option<J>, w: World<J>, e: Event, id: nat, request: string)
    requires Counts(w) && Enabled(w, e) && Stored(w.store, id, request)
    ensures Stored(Step(limit, parse, w, e).store, id, request)
  {
    var f := StoreEvent(w.service, e);
    if f.Some? {
      JobStore.StepExtends(parse, w.store, f.value);
    }
  }

  lemma StoredNext<J(!new)>(limit: nat, parse: string -> Option<J>, es: seq<Event>, ws: seq<World<J>>, j: nat, id: nat, request: string)
    requires 1 <= limit && Trace(limit, parse, es, ws) && j < |es| && Stored(ws[j].store, id, request)
    ensures Stored(ws[j + 1].store, id, request)
  {
    TraceCounts(limit, parse, es, ws, j);
    assert Follows(limit, parse, es, ws, j);
    StaysStored(limit, parse, ws[j], es[j], id, request);
  }

  lemma {:induction false} StoredAfter<J(!new)>(limit: nat, parse: string -> Option<J>, es: seq<Event>, ws: seq<World<J>>,
                                                i: nat, j: nat, id: nat, request: string)
    requires 1 <= limit && Trace(limit, parse, es, ws) && i <= j <= |es|
    requires Stored(ws[i].store, id, request)
    ensures Stored(ws[j].store, id, request)
    decreases j
  {
    if i < j {
      StoredAfter(limit, parse, es, ws, i, j - 1, id, request);
      StoredNext(limit, parse, es, ws, j - 1, id, request);
    }
  }

  /** If a thread called `create` with a request and that call took id n, then from that moment on, through
      every later crash, n was issued for exactly that request and the request file n holds it. */
  lemma RequestStored<J(!new)>(limit: nat, parse: string -> Option<J>, es: seq<Event>, ws: seq<World<J>>,
                               a: nat, l: nat, i: nat, tid: nat, request: string, j: nat)
    requires 1 <= limit && Trace(limit, parse, es, ws) && IsCall(es, a, l, i, tid, request) && i < j <= |es|
    ensures Stored(ws[j].store, ws[i].store.jobId, request)
  {
    StillEntered(limit, parse, es, ws, a, l, i, tid, request);
    TraceCounts(limit, parse, es, ws, i);
    assert Follows(limit, parse, es, ws, i);
    TakesStored(limit, parse, ws[i], tid, request);
    StoredAfter(limit, parse, es, ws, i + 1, j, ws[i].store.jobId, request);
  }

  // ---------------------------------------------------------------------------
  // Every id has its call, and every call its own id

  lemma {:induction false} WaiterArrived<J>(limit: nat, parse: string -> Option<J>, es: seq<Event>, ws: seq<World<J>>, j: nat, tid: nat)
    returns (a: nat)
    requires Trace(limit, parse, es, ws) && j <= |es| && tid in ws[j].service.creators
    ensures Waits(es, a, j, tid, ws[j].service.creators[tid])
    decreases j
  {
    assert Follows(limit, parse, es, ws, j - 1);
    var before := ws[j - 1].service;
    if tid in before.creators {
      a := WaiterArrived(limit, parse, es, ws, j - 1, tid);
      NotLetIn(limit, parse, ws[j - 1], es[j - 1], tid);
    } else {
      a := j - 1;
      NewWaiter(limit, parse, ws[j - 1], es[j - 1], tid);
    }
  }

  lemma NotLetIn<J>(limit: nat, parse: string -> Option<J>, w: World<J>, e: Event, tid: nat)
    requires Enabled(w, e) && tid in w.service.creators && tid in Step(limit, parse, w, e).service.creators
    ensures !e.Crash? && e != Locks(tid)
    ensures Step(limit, parse, w, e).service.creators[tid] == w.service.creators[tid]
  {
  }

  lemma NewWaiter<J>(limit: nat, parse: string -> Option<J>, w: World<J>, e: Event, tid: nat)
    requires Enabled(w, e) && tid !in w.service.creators && tid in Step(limit, parse, w, e).service.creators
    ensures e == Arrives(tid, Step(limit, parse, w, e).service.creators[tid])
  {
  }

  lemma {:induction false} EnteredCame<J>(limit: nat, parse: string -> Option<J>, es: seq<Event>, ws: seq<World<J>>, j: nat)
    returns (a: nat, l: nat)
    requires Trace(limit, parse, es, ws) && j <= |es| && ws[j].service.pc.Entered?
    ensures var pc := ws[j].service.pc;
            Waits(es, a, l, pc.tid, pc.request) && LetIn(es, l, j, pc.tid)
    decreases j
  {
    assert Follows(limit, parse, es, ws, j - 1);
    var before := ws[j - 1];
    ComesIn(limit, parse, before, es[j - 1]);
    if before.service.pc.Entered? {
      a, l := EnteredCame(limit, parse, es, ws, j - 1);
    } else {
      l := j - 1;
      a := WaiterArrived(limit, parse, es, ws, l, ws[j].service.pc.tid);
    }
  }

  /** A thread is in `create`, before its id, because it was already or because this step let it in. */
  lemma ComesIn<J>(limit: nat, parse: string -> Option<J>, w: World<J>, e: Event)
    requires Enabled(w, e) && Step(limit, parse, w, e).service.pc.Entered?
    ensures var pc := Step(limit, parse, w, e).service.pc;
            if w.service.pc.Entered? then pc == w.service.pc && !e.Crash? && e != TAKES_ID
            else e == Locks(pc.tid) && pc.tid in w.service.creators && pc.request == w.service.creators[pc.tid]
  {
  }

  /** Every id was taken by the call of some thread. */
  lemma EveryIdHasACall<J>(limit: nat, parse: string -> Option<J>, es: seq<Event>, ws: seq<World<J>>, i: nat)
    returns (a: nat, l: nat, tid: nat, request: string)
    requires Trace(limit, parse, es, ws) && i < |es| && es[i] == TAKES_ID
    ensures IsCall(es, a, l, i, tid, request)
  {
    assert Follows(limit, parse, es, ws, i);
    var pc := ws[i].service.pc;
    a, l := EnteredCame(limit, parse, es, ws, i);
    tid, request := pc.tid, pc.request;
  }

  lemma CounterStep<J>(limit: nat, parse: string -> Option<J>, w: World<J>, e: Event)
    requires Counts(w) && Enabled(w, e)
    ensures Step(limit, parse, w, e).store.jobId >= w.store.jobId + if e == TAKES_ID then 1 else 0
  {
    if e.Crash? {
      JobStore.RestartCounted(parse, w.store, e.recovered);
    }
  }

  lemma {:induction false} CounterGrows<J(!new)>(limit: nat, parse: string -> Option<J>, es: seq<Event>, ws: seq<World<J>>, i: nat, j: nat)
    requires 1 <= limit && Trace(limit, parse, es, ws) && i < j <= |es| && es[i] == TAKES_ID
    ensures ws[i].store.jobId < ws[j].store.jobId
    decreases j
  {
    assert Follows(limit, parse, es, ws, j - 1);
    TraceCounts(limit, parse, es, ws, j - 1);
    CounterStep(limit, parse, ws[j - 1], es[j - 1]);
    if i < j - 1 {
      CounterGrows(limit, parse, es, ws, i, j - 1);
    }
  }

  /** Two calls take different ids, the smaller one for the thread that took the mutex first, in whatever
      order and lifetime they called. */
  lemma IdsInOrder<J(!new)>(limit: nat, parse: string -> Option<J>, es: seq<Event>, ws: seq<World<J>>,
                            a: nat, l: nat, i: nat, tid: nat, request: string,
                            a': nat, l': nat, i': nat, tid': nat, request': string)
    requires 1 <= limit && Trace(limit, parse, es, ws) && i != i'
    requires IsCall(es, a, l, i, tid, request) && IsCall(es, a', l', i', tid', request')
    ensures l < l' <==> ws[i].store.jobId < ws[i'].store.jobId
    ensures ws[i].store.jobId != ws[i'].store.jobId
  {
    if i < i' {
      CounterGrows(limit, parse, es, ws, i, i');
      assert l' >= i;
    } else {
      CounterGrows(limit, parse, es, ws, i', i);
      assert l >= i';
    }
  }

  /** No id was issued in any other way. */
  lemma {:induction false} IssuedByCall<J(!new)>(limit: nat, parse: string -> Option<J>, es: seq<Event>, ws: seq<World<J>>, j: nat, id: nat)
    returns (i: nat)
    requires 1 <= limit && Trace(limit, parse, es, ws) && j <= |es|
    requires id in ws[j].store.issued
    ensures i < j && es[i] == TAKES_ID && ws[i].store.jobId == id
    decreases j
  {
    assert Follows(limit, parse, es, ws, j - 1);
    var before := ws[j - 1];
    if id in before.store.issued {
      i := IssuedByCall(limit, parse, es, ws, j - 1, id);
    } else {
      i := j - 1;
      TraceCounts(limit, parse, es, ws, j - 1);
      IssuedNow(limit, parse, before, es[j - 1], id);
    }
  }

  lemma IssuedNow<J>(limit: nat, parse: string -> Option<J>, w: World<J>, e: Event, id: nat)
    requires Counts(w) && Enabled(w, e)
    requires id !in w.store.issued && id in Step(limit, parse, w, e).store.issued
    ensures e == TAKES_ID && w.store.jobId == id
  {
    if e == TAKES_ID {
      assert w.store.pc.id == w.store.jobId;
    }
  }
}

/** `EventDispatcher`: a ticket protocol over one mutex and one condition variable. Senders
    overwrite a single message; every open connection waits for the message after the ticket it
    took. Each step below is one stretch of code between two points where threads can switch. */
module Dispatcher {
  import EventStream

  datatype Source = SignalThread | ReplThread

  /** Who holds the mutex `m_`. */
  datatype Owner = Nobody | Sender(source: Source, sent: bool) | Waiter(w: nat)

  /** Where a connection is in `wait_event`. */
  datatype Wait = Outside | Entering | Entered | Sleeping(ticket: nat) | Ready(ticket: nat)

  datatype Delivery = Delivery(ticket: nat, message: string)

  /** `log` is the history of all messages, `delivered` what was written to each connection. */
  datatype State = State(
    owner: Owner, id: nat, cid: int, message: string, waits: map<nat, Wait>,
    log: seq<string>, delivered: map<nat, seq<Delivery>>)

  datatype Event =
    | Call(w: nat)                       // the connection calls wait_event
    | TakeLock(w: nat)
    | Register(w: nat)                   // reads id_, tests the predicate, goes to sleep
    | Wake(w: nat)                       // takes the mutex back with the predicate true
    | Deliver(w: nat, writable: bool)
    | SendLock(source: Source)
    | Send(payload: string)
    | SendUnlock

  function Initial(): State {
    State(Nobody, 0, -1, "", map[], [], map[])
  }

  function WaitOf(s: State, w: nat): Wait {
    if w in s.waits then s.waits[w] else Outside
  }

  function DeliveredTo(s: State, w: nat): seq<Delivery> {
    if w in s.delivered then s.delivered[w] else []
  }

  predicate Enabled(s: State, e: Event) {
    match e
    case Call(w) => WaitOf(s, w).Outside?
    case TakeLock(w) => WaitOf(s, w).Entering? && s.owner.Nobody?
    case Register(w) => WaitOf(s, w).Entered?
    case Wake(w) => WaitOf(s, w).Sleeping? && s.owner.Nobody? && s.cid == WaitOf(s, w).ticket
    case Deliver(w, _) => WaitOf(s, w).Ready?
    case SendLock(_) => s.owner.Nobody?
    case Send(_) => s.owner.Sender? && !s.owner.sent
    case SendUnlock => s.owner.Sender? && s.owner.sent
  }

  function Step(s: State, e: Event): State
    requires Enabled(s, e)
  {
    match e
    case Call(w) => s.(waits := s.waits[w := Entering])
    case TakeLock(w) => s.(owner := Waiter(w), waits := s.waits[w := Entered])
    case Register(w) =>
      if s.cid == s.id then s.(waits := s.waits[w := Ready(s.id)])
      else s.(owner := Nobody, waits := s.waits[w := Sleeping(s.id)])
    case Wake(w) => s.(owner := Waiter(w), waits := s.waits[w := Ready(s.waits[w].ticket)])
    case Deliver(w, writable) =>
      var d := if writable then [Delivery(s.waits[w].ticket, s.message)] else [];
      s.(owner := Nobody, waits := s.waits[w := Outside], delivered := s.delivered[w := DeliveredTo(s, w) + d])
    case SendLock(source) => s.(owner := Sender(source, false))
    case Send(payload) =>
      var m := EventStream.Frame(payload);
      s.(owner := s.owner.(sent := true), message := m, cid := s.id, id := s.id + 1, log := s.log + [m])
    case SendUnlock => s.(owner := Nobody)
  }

  predicate Runs(s: State, es: seq<Event>)
    decreases |es|, 0
  {
    es == [] || (Runs(s, es[..|es| - 1]) && Enabled(After(s, es[..|es| - 1]), es[|es| - 1]))
  }

  function After(s: State, es: seq<Event>): State
    requires Runs(s, es)
    decreases |es|, 1
  {
    if es == [] then s else Step(After(s, es[..|es| - 1]), es[|es| - 1])
  }

  // ---------------------------------------------------------------------------
  // What every run keeps

  ghost predicate Tickets(s: State) {
    && s.cid == s.id - 1
    && |s.log| == s.id
    && (s.id > 0 ==> s.message == s.log[s.id - 1])
  }

  /** At most one thread is inside, and it is where `owner` says. */
  ghost predicate Mutex(s: State) {
    forall w :: (WaitOf(s, w).Entered? || WaitOf(s, w).Ready?) <==> s.owner == Waiter(w)
  }

  ghost predicate Waits(s: State) {
    && (forall w :: WaitOf(s, w).Sleeping? ==> WaitOf(s, w).ticket <= s.id)
    && (forall w :: WaitOf(s, w).Ready? ==> WaitOf(s, w).ticket == s.id - 1)
  }

  /** A connection got messages in sending order, each one at most once and unaltered. */
  ghost predicate Ordered(d: seq<Delivery>, wait: Wait, log: seq<string>) {
    && (forall i :: 0 <= i < |d| ==> d[i].ticket < |log| && d[i].message == log[d[i].ticket])
    && (forall i, j :: 0 <= i < j < |d| ==> d[i].ticket < d[j].ticket)
    && (wait.Sleeping? || wait.Ready? ==> forall i :: 0 <= i < |d| ==> d[i].ticket < wait.ticket)
  }

  ghost predicate InOrder(s: State) {
    forall w :: Ordered(DeliveredTo(s, w), WaitOf(s, w), s.log)
  }

  ghost predicate Inv(s: State) {
    Tickets(s) && Mutex(s) && Waits(s) && InOrder(s)
  }

  lemma StepTickets(s: State, e: Event)
    requires Tickets(s) && Waits(s) && Enabled(s, e)
    ensures Tickets(Step(s, e))
  {
  }

  lemma StepMutex(s: State, e: Event)
    requires Tickets(s) && Mutex(s) && Enabled(s, e)
    ensures Mutex(Step(s, e))
  {
    var t := Step(s, e);
    forall w
      ensures (WaitOf(t, w).Entered? || WaitOf(t, w).Ready?) <==> t.owner == Waiter(w)
    {
      assert (WaitOf(s, w).Entered? || WaitOf(s, w).Ready?) <==> s.owner == Waiter(w);
    }
  }

  lemma StepWaits(s: State, e: Event)
    requires Tickets(s) && Mutex(s) && Waits(s) && Enabled(s, e)
    ensures Waits(Step(s, e))
  {
    var t := Step(s, e);
    forall w
      ensures WaitOf(t, w).Sleeping? ==> WaitOf(t, w).ticket <= t.id
      ensures WaitOf(t, w).Ready? ==> WaitOf(t, w).ticket == t.id - 1
    {
      assert WaitOf(s, w).Ready? ==> s.owner == Waiter(w);
    }
  }

  lemma StepLog(s: State, e: Event)
    requires Enabled(s, e)
    ensures s.log <= Step(s, e).log
  {
  }

  /** How a connection's place in `wait_event` may change while its deliveries stay the same. */
  predicate MayBecome(wait: Wait, wait': Wait, id: nat) {
    || wait' == wait
    || wait'.Outside? || wait'.Entering? || wait'.Entered?
    || (wait.Entered? && wait' == Sleeping(id))
    || (id > 0 && wait == Sleeping(id - 1) && wait' == Ready(id - 1))
  }

  /** A step appends the message of its ticket to what a connection has, or leaves it. */
  lemma StepDelivered(s: State, e: Event, w: nat)
    requires Tickets(s) && Waits(s) && Enabled(s, e)
    ensures !(e.Deliver? && e.w == w) ==>
              DeliveredTo(Step(s, e), w) == DeliveredTo(s, w) && MayBecome(WaitOf(s, w), WaitOf(Step(s, e), w), s.id)
    ensures e.Deliver? && e.w == w ==>
              && s.id > 0 && WaitOf(s, w) == Ready(s.id - 1) && WaitOf(Step(s, e), w).Outside?
              && Step(s, e).log == s.log
              && DeliveredTo(Step(s, e), w) ==
                 DeliveredTo(s, w) + if e.writable then [Delivery(s.id - 1, s.log[s.id - 1])] else []
  {
    if !(e.Deliver? && e.w == w) {
      assert DeliveredTo(Step(s, e), w) == DeliveredTo(s, w);
    }
  }

  lemma OrderedStays(d: seq<Delivery>, wait: Wait, wait': Wait, log: seq<string>, log': seq<string>)
    requires Ordered(d, wait, log) && log <= log' && MayBecome(wait, wait', |log|)
    ensures Ordered(d, wait', log')
  {
  }

  lemma OrderedAppend(d: seq<Delivery>, k: nat, log: seq<string>)
    requires k < |log| && Ordered(d, Ready(k), log)
    ensures Ordered(d + [Delivery(k, log[k])], Outside, log)
  {
  }

  lemma StepOrdered(s: State, e: Event, w: nat)
    requires Tickets(s) && Waits(s) && Ordered(DeliveredTo(s, w), WaitOf(s, w), s.log) && Enabled(s, e)
    ensures Ordered(DeliveredTo(Step(s, e), w), WaitOf(Step(s, e), w), Step(s, e).log)
  {
    StepLog(s, e);
    StepDelivered(s, e, w);
    if e.Deliver? && e.w == w && e.writable {
      OrderedAppend(DeliveredTo(s, w), s.id - 1, s.log);
    } else {
      OrderedStays(DeliveredTo(s, w), WaitOf(s, w), WaitOf(Step(s, e), w), s.log, Step(s, e).log);
    }
  }

  lemma StepKeepsInv(s: State, e: Event)
    requires Inv(s) && Enabled(s, e)
    ensures Inv(Step(s, e))
  {
    StepTickets(s, e);
    StepMutex(s, e);
    StepWaits(s, e);
    forall w
      ensures Ordered(DeliveredTo(Step(s, e), w), WaitOf(Step(s, e), w), Step(s, e).log)
    {
      StepOrdered(s, e, w);
    }
  }

  /** The ticket protocol holds in every reachable state. */
  lemma {:induction false} Reachable(s: State, es: seq<Event>)
    requires Inv(s) && Runs(s, es)
    ensures Inv(After(s, es))
  {
    if es != [] {
      Reachable(s, es[..|es| - 1]);
      StepKeepsInv(After(s, es[..|es| - 1]), es[|es| - 1]);
    }
  }

  lemma InitialInv()
    ensures Inv(Initial())
  {
  }

  function Sends(es: seq<Event>): nat {
    if es == [] then 0 else Sends(es[..|es| - 1]) + if es[|es| - 1].Send? then 1 else 0
  }

  lemma {:induction false} SendsCount(s: State, es: seq<Event>)
    requires Runs(s, es)
    ensures After(s, es).id == s.id + Sends(es)
  {
    if es != [] {
      SendsCount(s, es[..|es| - 1]);
    }
  }

  /** Whether event `e` is a step of connection `w`. */
  predicate Of(e: Event, w: nat) {
    (e.Call? || e.TakeLock? || e.Register? || e.Wake? || e.Deliver?) && e.w == w
  }

  lemma OthersLeave(s: State, e: Event, w: nat)
    requires Enabled(s, e) && !Of(e, w)
    ensures WaitOf(Step(s, e), w) == WaitOf(s, w) && DeliveredTo(Step(s, e), w) == DeliveredTo(s, w)
  {
  }

  lemma {:induction false} StillSleeping(s: State, es: seq<Event>, w: nat)
    requires Runs(s, es) && WaitOf(s, w).Sleeping? && forall i :: 0 <= i < |es| ==> !Of(es[i], w)
    ensures WaitOf(After(s, es), w) == WaitOf(s, w)
  {
    if es != [] {
      StillSleeping(s, es[..|es| - 1], w);
      OthersLeave(After(s, es[..|es| - 1]), es[|es| - 1], w);
    }
  }

  /** A connection that registered at the current ticket can run exactly when the mutex is free and
      one message has been sent since; it then delivers that message. */
  lemma WakesAfterExactlyOneSend(s: State, es: seq<Event>, w: nat)
    requires Inv(s) && WaitOf(s, w) == Sleeping(s.id)
    requires Runs(s, es) && forall i :: 0 <= i < |es| ==> !Of(es[i], w)
    ensures var t := After(s, es);
            && (Enabled(t, Wake(w)) <==> t.owner.Nobody? && Sends(es) == 1)
            && (Enabled(t, Wake(w)) ==>
                  var r := Step(t, Wake(w));
                  && |t.log| == s.id + 1
                  && Enabled(r, Deliver(w, true))
                  && DeliveredTo(Step(r, Deliver(w, true)), w) ==
                       DeliveredTo(s, w) + [Delivery(s.id, t.log[s.id])])
  {
    StillSleeping(s, es, w);
    SendsCount(s, es);
    Reachable(s, es);
    NotDelivered(s, es, w);
  }

  lemma {:induction false} NotDelivered(s: State, es: seq<Event>, w: nat)
    requires Runs(s, es) && forall i :: 0 <= i < |es| ==> !Of(es[i], w)
    ensures DeliveredTo(After(s, es), w) == DeliveredTo(s, w)
  {
    if es != [] {
      NotDelivered(s, es[..|es| - 1], w);
      OthersLeave(After(s, es[..|es| - 1]), es[|es| - 1], w);
    }
  }

  /** A connection overtaken by a second message sleeps forever, in every continuation. */
  lemma {:induction false} OvertakenNeverWakes(s: State, es: seq<Event>, w: nat)
    requires Inv(s) && Overtaken(s, w) && Runs(s, es)
    ensures WaitOf(After(s, es), w) == WaitOf(s, w) && !Enabled(After(s, es), Wake(w))
  {
    Reachable(s, es);
    SendsCount(s, es);
    if es != [] {
      var before := After(s, es[..|es| - 1]);
      OvertakenNeverWakes(s, es[..|es| - 1], w);
      SleeperStays(before, es[|es| - 1], w);
    }
  }

  lemma SleeperStays(s: State, e: Event, w: nat)
    requires Enabled(s, e) && WaitOf(s, w).Sleeping? && !Enabled(s, Wake(w))
    ensures WaitOf(Step(s, e), w) == WaitOf(s, w)
  {
  }

  /** Such a connection exists: it registers, and two messages are sent before it runs again. */
  lemma OvertakenReachable(first: string, second: string) returns (s: State)
    ensures Reached(s) && Overtaken(s, 0)
  {
    RegisteredReached(0);
    var registered := Registered(Initial(), 0);
    SentReached(registered, ReplThread, first);
    var once := Sent(registered, ReplThread, first);
    SentReached(once, ReplThread, second);
    s := Sent(once, ReplThread, second);
  }

  ghost predicate Reached(s: State) {
    exists es :: Runs(Initial(), es) && After(Initial(), es) == s
  }

  lemma ReachedStep(s: State, e: Event)
    requires Reached(s) && Enabled(s, e)
    ensures Reached(Step(s, e))
  {
    var es :| Runs(Initial(), es) && After(Initial(), es) == s;
    assert (es + [e])[..|es|] == es;
    assert Runs(Initial(), es + [e]);
  }

  lemma RegisteredReached(w: nat)
    ensures var t := Registered(Initial(), w);
            Reached(t) && t.owner.Nobody? && t.id == 0 && WaitOf(t, w) == Sleeping(0)
  {
    assert Runs(Initial(), []) && After(Initial(), []) == Initial();
    ReachedStep(Initial(), Call(w));
    ReachedStep(Step(Initial(), Call(w)), TakeLock(w));
    ReachedStep(Step(Step(Initial(), Call(w)), TakeLock(w)), Register(w));
  }

  lemma SentReached(s: State, source: Source, payload: string)
    requires Reached(s) && s.owner.Nobody?
    ensures var t := Sent(s, source, payload);
            Reached(t) && t.owner.Nobody? && t.id == s.id + 1 && t.waits == s.waits
  {
    ReachedStep(s, SendLock(source));
    ReachedStep(Step(s, SendLock(source)), Send(payload));
    ReachedStep(Step(Step(s, SendLock(source)), Send(payload)), SendUnlock);
  }

  /** The connection sleeps on a ticket and at least two messages were sent since it took it. */
  predicate Overtaken(s: State, w: nat) {
    WaitOf(s, w).Sleeping? && s.id >= WaitOf(s, w).ticket + 2
  }

  /** A whole `send_event`. */
  function Sent(s: State, source: Source, payload: string): State
    requires s.owner.Nobody?
  {
    Step(Step(Step(s, SendLock(source)), Send(payload)), SendUnlock)
  }

  /** The part of `wait_event` before the connection sleeps. */
  function Registered(s: State, w: nat): State
    requires s.owner.Nobody? && WaitOf(s, w).Outside?
  {
    Step(Step(Step(s, Call(w)), TakeLock(w)), Register(w))
  }

  /** The part of `wait_event` after it wakes up. */
  function Delivered(s: State, w: nat, writable: bool): State
    requires Enabled(s, Wake(w))
  {
    Step(Step(s, Wake(w)), Deliver(w, writable))
  }

  // ---------------------------------------------------------------------------
  // Which messages a connection loses

  /** 1 when the last message is on its way to the connection. */
  function PendingFor(wait: Wait, id: nat): nat {
    match wait
    case Sleeping(k) => if k + 1 == id then 1 else 0
    case Ready(_) => 1
    case _ => 0
  }

  function Pending(s: State, w: nat): nat {
    PendingFor(WaitOf(s, w), s.id)
  }

  /** A message is lost to a connection that is not registered for it when it is sent, or that is
      registered and is overtaken by the next one, or whose sink is not writable. */
  function Loss(s: State, e: Event, w: nat): nat {
    match e
    case Send(_) => if WaitOf(s, w) == Sleeping(s.id) then 0 else 1 + Pending(s, w)
    case Deliver(v, writable) => if v == w && !writable then 1 else 0
    case _ => 0
  }

  function Losses(s: State, es: seq<Event>, w: nat): nat
    requires Runs(s, es)
  {
    if es == [] then 0
    else Losses(s, es[..|es| - 1], w) + Loss(After(s, es[..|es| - 1]), es[|es| - 1], w)
  }

  lemma SendAccount(s: State, payload: string, w: nat)
    requires Mutex(s) && Waits(s) && Enabled(s, Send(payload))
    ensures var t := Step(s, Send(payload));
            && DeliveredTo(t, w) == DeliveredTo(s, w)
            && Pending(t, w) + Loss(s, Send(payload), w) == Pending(s, w) + 1
  {
    assert !WaitOf(s, w).Ready?;
    assert WaitOf(Step(s, Send(payload)), w) == WaitOf(s, w);
  }

  lemma DeliverAccount(s: State, w: nat, writable: bool)
    requires Tickets(s) && Waits(s) && Enabled(s, Deliver(w, writable))
    ensures var t := Step(s, Deliver(w, writable));
            && Pending(s, w) == 1 && Pending(t, w) == 0
            && |DeliveredTo(t, w)| == |DeliveredTo(s, w)| + if writable then 1 else 0
  {
    StepDelivered(s, Deliver(w, writable), w);
  }

  /** A step that neither sends nor delivers to `w` keeps what is pending for it. */
  lemma OtherPending(wait: Wait, wait': Wait, id: nat)
    requires MayBecome(wait, wait', id) && (wait.Ready? || wait.Sleeping? ==> wait'.Ready? || wait'.Sleeping?)
    ensures PendingFor(wait', id) == PendingFor(wait, id)
  {
  }

  lemma OtherAccount(s: State, e: Event, w: nat)
    requires Tickets(s) && Waits(s) && Enabled(s, e) && !e.Send? && !(e.Deliver? && e.w == w)
    ensures var t := Step(s, e);
            t.id == s.id && DeliveredTo(t, w) == DeliveredTo(s, w) && Pending(t, w) == Pending(s, w)
  {
    StepDelivered(s, e, w);
    OtherPending(WaitOf(s, w), WaitOf(Step(s, e), w), s.id);
  }

  lemma AccountStep(s: State, e: Event, w: nat)
    requires Inv(s) && Enabled(s, e)
    ensures var t := Step(s, e);
            |DeliveredTo(t, w)| + Pending(t, w) + Loss(s, e, w) ==
            |DeliveredTo(s, w)| + Pending(s, w) + if e.Send? then 1 else 0
  {
    if e.Send? {
      SendAccount(s, e.payload, w);
    } else if e.Deliver? && e.w == w {
      DeliverAccount(s, w, e.writable);
    } else {
      OtherAccount(s, e, w);
    }
  }

  /** Conservation: every message sent is delivered, pending or lost, for each connection. */
  lemma {:induction false} DeliveryAccount(s: State, es: seq<Event>, w: nat)
    requires Inv(s) && Runs(s, es)
    ensures var t := After(s, es);
            |DeliveredTo(t, w)| + Pending(t, w) + Losses(s, es, w) ==
            |DeliveredTo(s, w)| + Pending(s, w) + Sends(es)
  {
    if es != [] {
      Reachable(s, es[..|es| - 1]);
      DeliveryAccount(s, es[..|es| - 1], w);
      AccountStep(After(s, es[..|es| - 1]), es[|es| - 1], w);
    }
  }

  /** `before` was delivered before message `lo` was sent, the rest of the deliveries are later
      messages, and an older registration is dead. */
  ghost predicate Since(d: seq<Delivery>, wait: Wait, before: seq<Delivery>, lo: nat) {
    && before <= d
    && (forall i :: |before| <= i < |d| ==> lo <= d[i].ticket)
    && (wait.Sleeping? ==> lo <= wait.ticket || wait.ticket + 2 <= lo)
    && (wait.Ready? ==> lo <= wait.ticket)
  }

  lemma SinceStays(d: seq<Delivery>, wait: Wait, wait': Wait, id: nat, before: seq<Delivery>, lo: nat)
    requires Since(d, wait, before, lo) && lo <= id && MayBecome(wait, wait', id)
    ensures Since(d, wait', before, lo)
  {
  }

  lemma SinceStep(s: State, e: Event, w: nat, before: seq<Delivery>, lo: nat)
    requires Inv(s) && Enabled(s, e) && lo <= s.id && Since(DeliveredTo(s, w), WaitOf(s, w), before, lo)
    ensures Since(DeliveredTo(Step(s, e), w), WaitOf(Step(s, e), w), before, lo)
  {
    StepDelivered(s, e, w);
    if !(e.Deliver? && e.w == w) {
      SinceStays(DeliveredTo(s, w), WaitOf(s, w), WaitOf(Step(s, e), w), s.id, before, lo);
    }
  }

  lemma {:induction false} NewDeliveries(s: State, es: seq<Event>, w: nat)
    requires Inv(s) && Runs(s, es) && Pending(s, w) == 0
    ensures var t := After(s, es); Since(DeliveredTo(t, w), WaitOf(t, w), DeliveredTo(s, w), s.id)
  {
    if es != [] {
      Reachable(s, es[..|es| - 1]);
      NewDeliveries(s, es[..|es| - 1], w);
      SendsCount(s, es[..|es| - 1]);
      SinceStep(After(s, es[..|es| - 1]), es[|es| - 1], w, DeliveredTo(s, w), s.id);
    }
  }

  /** Strictly increasing numbers that fill an interval are consecutive. */
  lemma {:induction false} Consecutive(d: seq<Delivery>, lo: nat)
    requires forall i, j :: 0 <= i < j < |d| ==> d[i].ticket < d[j].ticket
    requires forall i :: 0 <= i < |d| ==> lo <= d[i].ticket < lo + |d|
    ensures forall i :: 0 <= i < |d| ==> d[i].ticket == lo + i
  {
    if d != [] {
      var n := |d| - 1;
      AtLeast(d, lo, n);
      Consecutive(d[..n], lo);
    }
  }

  lemma {:induction false} AtLeast(d: seq<Delivery>, lo: nat, k: nat)
    requires k < |d| && forall i, j :: 0 <= i < j < |d| ==> d[i].ticket < d[j].ticket
    requires forall i :: 0 <= i < |d| ==> lo <= d[i].ticket
    ensures lo + k <= d[k].ticket
  {
    if k > 0 {
      AtLeast(d, lo, k - 1);
    }
  }

  /** From any moment with nothing pending, a connection's further deliveries are gap-free, up to the
      message still pending, exactly when it loses none: it is registered for every message when it
      is sent, runs before the next one, and its sink is writable. */
  lemma GapFreeIff(s: State, es: seq<Event>, w: nat)
    requires Inv(s) && Runs(s, es) && Pending(s, w) == 0
    ensures DeliveredTo(s, w) <= DeliveredTo(After(s, es), w)
    ensures var t := After(s, es);
            var later := DeliveredTo(t, w)[|DeliveredTo(s, w)|..];
            Losses(s, es, w) == 0 <==>
              (|later| + Pending(t, w) == t.id - s.id && forall i :: 0 <= i < |later| ==> later[i].ticket == s.id + i)
  {
    var t := After(s, es);
    Reachable(s, es);
    DeliveryAccount(s, es, w);
    SendsCount(s, es);
    NewDeliveries(s, es, w);
    assert Ordered(DeliveredTo(t, w), WaitOf(t, w), t.log);
    if Losses(s, es, w) == 0 {
      Consecutive(DeliveredTo(t, w)[|DeliveredTo(s, w)|..], s.id);
    }
  }

  // ---------------------------------------------------------------------------
  // The object itself, one critical section per method

  /** `wait_event` appears as its two critical sections, before and after the sleep. The view is the
      state of the machine between two critical sections; who waits for what is history. */
  class EventDispatcher {
    var id: nat
    var cid: int
    var message: string
    ghost var waits: map<nat, Wait>
    ghost var log: seq<string>
    ghost var delivered: map<nat, seq<Delivery>>

    ghost function View(): State
      reads this
    {
      State(Nobody, id, cid, message, waits, log, delivered)
    }

    ghost predicate Valid()
      reads this
    {
      Inv(View())
    }

    constructor ()
      ensures Valid() && View() == Initial()
    {
      id, cid, message, waits, log, delivered := 0, -1, "", map[], [], map[];
      new;
      InitialInv();
    }

    method SendEvent(payload: string, ghost source: Source)
      requires Valid()
      modifies this
      ensures Valid() && View() == Sent(old(View()), source, payload)
      ensures log == old(log) + [EventStream.Frame(payload)]
    {
      SentKeeps(View(), source, payload);
      message := EventStream.Frame(payload);
      cid := id;
      id := id + 1;
      log := log + [message];
    }

    /** The callback handed to the scheduler and to the console. */
    method EventCallback(name: string, data: string, ghost source: Source)
      requires Valid()
      modifies this
      ensures Valid()
      ensures View() == Sent(old(View()), source, EventStream.Payload(EventStream.Event(name, data)))
      ensures |log| == |old(log)| + 1 && log[..|old(log)|] == old(log)
      ensures EventStream.PlainText(name) ==>
                (EventStream.AllArrived([EventStream.Event(name, data)], EventStream.Received(log[|old(log)|])) <==>
                 EventStream.SafeData(data))
    {
      ghost var e := EventStream.Event(name, data);
      if EventStream.PlainText(name) {
        EventStream.FrameRoundTripIff(e);
      }
      var result := EventStream.ReplaceNewlineRuns(data, "\\n");
      var payload := "{\"event\": \"" + name + "\", \"data\": \"" + result + "\"}";
      SendEvent(payload, source);
    }

    /** The predicate of the condition variable. */
    predicate MayWake(ticket: nat)
      reads this
    {
      cid == ticket
    }

    /** Takes the ticket of the next message, which cannot have been sent yet. */
    method BeginWait(ghost w: nat) returns (ticket: nat)
      requires Valid() && WaitOf(View(), w).Outside?
      modifies this`waits
      ensures Valid() && View() == Registered(old(View()), w)
      ensures WaitOf(View(), w) == Sleeping(ticket) && ticket == |log| && !MayWake(ticket)
    {
      ghost var s := View();
      StepKeepsInv(s, Call(w));
      StepKeepsInv(Step(s, Call(w)), TakeLock(w));
      StepKeepsInv(Step(Step(s, Call(w)), TakeLock(w)), Register(w));
      ticket := id;
      waits := waits[w := Entering][w := Entered][w := Sleeping(id)];
    }

    /** Writes the message the ticket stands for. */
    method EndWait(ghost w: nat, ticket: nat, writable: bool) returns (written: seq<string>)
      requires Valid() && MayWake(ticket) && WaitOf(View(), w) == Sleeping(ticket)
      modifies this`waits, this`delivered
      ensures Valid() && View() == Delivered(old(View()), w, writable)
      ensures ticket < |log| && written == if writable then [log[ticket]] else []
    {
      ghost var s := View();
      StepKeepsInv(s, Wake(w));
      StepKeepsInv(Step(s, Wake(w)), Deliver(w, writable));
      written := [];
      if writable {
        written := [message];
      }
      waits := waits[w := Ready(ticket)][w := Outside];
      delivered := delivered[w := DeliveredTo(s, w) + if writable then [Delivery(ticket, message)] else []];
    }
  }

  lemma SentKeeps(s: State, source: Source, payload: string)
    requires Inv(s) && s.owner.Nobody?
    ensures Inv(Sent(s, source, payload))
  {
    StepKeepsInv(s, SendLock(source));
    StepKeepsInv(Step(s, SendLock(source)), Send(payload));
    StepKeepsInv(Step(Step(s, SendLock(source)), Send(payload)), SendUnlock);
  }
}

/** The account-status probe of the end-to-end hooks: promises that wait for a status, each with a timer. */
module StatusWaiters {

  datatype Status = Connected | Disconnected | Connecting

  type Waiter = nat

  datatype Promise = Pending | Resolved(statuses: seq<Status>) | Rejected(reason: Reason)

  datatype Reason = TimedOut | Stopped | StreamFailed

  /** `wants` and `promises` have an entry for every wait ever asked for; `armed` are the running timers. */
  datatype State = State(
    subscribed: bool, statuses: seq<Status>, waiters: set<Waiter>, armed: set<Waiter>,
    wants: map<Waiter, Status>, promises: map<Waiter, Promise>)

  const FRESH := State(false, [], {}, {}, map[], map[])

  datatype Event =
    | Wait(waiter: Waiter, status: Status)  // `waitForAccountConnectionStatus`, as a new promise
    | Notify(status: Status)
    | TimerFires(waiter: Waiter)
    | StreamError
    | Stop
    | StartProbe(hasClient: bool)            // without a client it throws after clearing

  predicate Possible(s: State, e: Event) {
    match e
    case Wait(w, _) => w !in s.promises
    case TimerFires(w) => w in s.armed
    case _ => true
  }

  /** Settles the promises of `ws`, clears their timers and takes them out of the set. */
  function SettleAll(s: State, ws: set<Waiter>, p: Promise): (r: State) {
    s.(waiters := s.waiters - ws, armed := s.armed - ws, promises := s.promises + map w | w in ws :: p)
  }

  function Matching(s: State, status: Status): (ws: set<Waiter>) {
    set w | w in s.waiters && w in s.wants && s.wants[w] == status
  }

  function Stopping(s: State): (r: State) {
    SettleAll(s, s.waiters, Rejected(Stopped)).(subscribed := false)
  }

  function Step(s: State, e: Event): (r: State) {
    match e
    case Wait(w, status) =>
      var asked := s.(wants := s.wants[w := status]);
      if status in s.statuses then asked.(promises := s.promises[w := Resolved(s.statuses)])
      else asked.(promises := s.promises[w := Pending], waiters := s.waiters + {w}, armed := s.armed + {w})
    case Notify(status) =>
      var seen := s.(statuses := s.statuses + [status]);
      SettleAll(seen, Matching(s, status), Resolved(seen.statuses))
    case TimerFires(w) => SettleAll(s, {w}, Rejected(TimedOut))
    case StreamError => SettleAll(s, s.waiters, Rejected(StreamFailed))
    case Stop => Stopping(s)
    case StartProbe(hasClient) => Stopping(s).(statuses := [], subscribed := hasClient)
  }

  function Run(s: State, events: seq<Event>): (r: State)
    decreases |events|
  {
    if events == [] then s
    else Run(if Possible(s, events[0]) then Step(s, events[0]) else s, events[1..])
  }

  ghost predicate Inv(s: State) {
    Tracked(s) && forall w :: w in s.waiters ==> s.wants[w] !in s.statuses
  }

  /** A waiter is in the set exactly when its promise is open and its timer armed. */
  ghost predicate Tracked(s: State) {
    && s.wants.Keys == s.promises.Keys
    && s.waiters <= s.promises.Keys
    && s.armed == s.waiters
    && (forall w :: w in s.promises ==> (w in s.waiters <==> s.promises[w] == Pending))
    && (forall w :: w in s.promises && s.promises[w].Resolved? ==> s.wants[w] in s.promises[w].statuses)
  }

  /** A promise that was settled keeps its result. */
  ghost predicate SettledStay(s: State, later: State) {
    forall w :: w in s.promises ==>
      w in later.promises && (s.promises[w] != Pending ==> later.promises[w] == s.promises[w])
  }

  lemma SettleKeepsTracked(s: State, ws: set<Waiter>, p: Promise)
    requires Tracked(s) && ws <= s.waiters && p != Pending
    requires p.Resolved? ==> forall w :: w in ws ==> s.wants[w] in p.statuses
    ensures Tracked(SettleAll(s, ws, p)) && SettledStay(s, SettleAll(s, ws, p))
  {
  }

  lemma StepKeepsInv(s: State, e: Event)
    requires Inv(s) && Possible(s, e)
    ensures Inv(Step(s, e)) && SettledStay(s, Step(s, e))
  {
    match e
    case Wait(w, _) =>
    case Notify(status) =>
      SettleKeepsTracked(s.(statuses := s.statuses + [status]), Matching(s, status), Resolved(s.statuses + [status]));
    case TimerFires(w) => SettleKeepsTracked(s, {w}, Rejected(TimedOut));
    case StreamError => SettleKeepsTracked(s, s.waiters, Rejected(StreamFailed));
    case Stop => SettleKeepsTracked(s, s.waiters, Rejected(Stopped));
    case StartProbe(_) => SettleKeepsTracked(s, s.waiters, Rejected(Stopped));
  }

  /**
    In every reachable state: a waiter is in the set exactly when its promise is open and its timer runs;
    none waits for a status already seen; a resolved one got a history with its status in it; and what
    is settled once stays so.
   */
  lemma {:induction false} RunKeepsInv(s: State, events: seq<Event>)
    requires Inv(s)
    ensures Inv(Run(s, events)) && SettledStay(s, Run(s, events))
    decreases |events|
  {
    if events == [] {
    } else if Possible(s, events[0]) {
      StepKeepsInv(s, events[0]);
      RunKeepsInv(Step(s, events[0]), events[1..]);
    } else {
      RunKeepsInv(s, events[1..]);
    }
  }

  /** No notification is missed: it resolves exactly the open promises that wait for it, with the full history. */
  lemma NotifyResolvesExactly(events: seq<Event>, status: Status, w: Waiter)
    requires w in Run(FRESH, events).promises
    ensures var s := Run(FRESH, events);
            var next := Step(s, Notify(status));
            w in next.promises && w in s.wants &&
            next.promises[w] == if s.promises[w] == Pending && s.wants[w] == status
                                then Resolved(s.statuses + [status]) else s.promises[w]
  {
    RunKeepsInv(FRESH, events);
  }

  /** The statuses notified since the probe was last started. */
  function SeenSince(events: seq<Event>): (r: seq<Status>) {
    if events == [] then []
    else
      var last := |events| - 1;
      match events[last]
      case StartProbe(_) => []
      case Notify(status) => SeenSince(events[..last]) + [status]
      case _ => SeenSince(events[..last])
  }

  /** Whether the latest start found a client and was not stopped since. */
  predicate Listening(events: seq<Event>) {
    events != [] &&
      var last := |events| - 1;
      match events[last]
      case StartProbe(hasClient) => hasClient
      case Stop => false
      case _ => Listening(events[..last])
  }

  lemma {:induction false} RunSnoc(s: State, events: seq<Event>, e: Event)
    ensures var end := Run(s, events); Run(s, events + [e]) == if Possible(end, e) then Step(end, e) else end
    decreases |events|
  {
    hide Possible, Step;
    if events == [] {
      assert [e][1..] == [];
    } else {
      assert (events + [e])[1..] == events[1..] + [e];
      RunSnoc(if Possible(s, events[0]) then Step(s, events[0]) else s, events[1..], e);
    }
  }

  /** Starting the probe forgets the old history: only what was notified since then counts. */
  lemma {:induction false} HistoryIsSinceStart(events: seq<Event>)
    ensures Run(FRESH, events).statuses == SeenSince(events)
    ensures Run(FRESH, events).subscribed <==> Listening(events)
    decreases |events|
  {
    if events != [] {
      hide Run;
      var last := |events| - 1;
      HistoryIsSinceStart(events[..last]);
      RunSnoc(FRESH, events[..last], events[last]);
      assert events == events[..last] + [events[last]];
    }
  }

  /** What each event makes of a promise: settled ones stay, and of the open ones exactly these are settled. */
  lemma WhatSettles(events: seq<Event>, e: Event, w: Waiter)
    requires Possible(Run(FRESH, events), e)
    ensures var s, next := Run(FRESH, events), Step(Run(FRESH, events), e);
            && s.promises.Keys == s.wants.Keys
            && (w in next.promises <==> w in s.promises || (e.Wait? && e.waiter == w))
            && (e.Wait? && e.waiter == w ==>
                  && next.wants[w] == e.status
                  && next.promises[w] == if e.status in SeenSince(events) then Resolved(SeenSince(events)) else Pending)
            && (w in s.promises ==>
                  && next.wants[w] == s.wants[w]
                  && next.promises[w] ==
                     if s.promises[w] != Pending then s.promises[w]
                     else
                       match e
                       case Wait(_, _) => Pending
                       case Notify(status) =>
                         if s.wants[w] == status then Resolved(SeenSince(events) + [status]) else Pending
                       case TimerFires(v) => if v == w then Rejected(TimedOut) else Pending
                       case StreamError => Rejected(StreamFailed)
                       case Stop => Rejected(Stopped)
                       case StartProbe(_) => Rejected(Stopped))
  {
    RunKeepsInv(FRESH, events);
    HistoryIsSinceStart(events);
  }

  class Probe {
    var subscribed: bool
    var accountStatuses: seq<Status>
    var waiters: set<Waiter>
    var armed: set<Waiter>
    var wants: map<Waiter, Status>
    var promises: map<Waiter, Promise>

    function Contents(): (s: State)
      reads this
    {
      State(subscribed, accountStatuses, waiters, armed, wants, promises)
    }

    constructor ()
      ensures Contents() == FRESH
    {
      subscribed, accountStatuses, waiters, armed, wants, promises := false, [], {}, {}, map[], map[];
    }

    method NotifyAccountStatus(status: Status)
      requires Inv(Contents())
      modifies this
      ensures Contents() == Step(old(Contents()), Notify(status))
    {
      ghost var before := Contents();
      accountStatuses := accountStatuses + [status];
      var todo := waiters;
      ghost var done: set<Waiter> := {};
      while todo != {}
        invariant todo <= before.waiters && done <= before.waiters && done !! todo
        invariant forall w :: w in before.waiters && w !in todo ==> (w in done <==> before.wants[w] == status)
        invariant waiters == before.waiters - done && armed == before.armed - done
        invariant promises.Keys == before.promises.Keys
        invariant forall w :: w in promises ==>
                    promises[w] == if w in done then Resolved(accountStatuses) else before.promises[w]
        invariant accountStatuses == before.statuses + [status]
        invariant subscribed == before.subscribed && wants == before.wants
        decreases todo
      {
        var w :| w in todo;
        todo := todo - {w};
        if wants[w] == status {
          armed := armed - {w};
          waiters := waiters - {w};
          promises := promises[w := Resolved(accountStatuses)];
          done := done + {w};
        }
      }
      assert done == Matching(before, status);
      hide Matching;
      assert promises == before.promises + map w | w in done :: Resolved(accountStatuses);
    }

    /** The loop shared by the error handler and by stopping: reject everyone, then clear the set. */
    method RejectAll(reason: Reason)
      requires Inv(Contents())
      modifies this
      ensures Contents() == SettleAll(old(Contents()), old(Contents()).waiters, Rejected(reason))
    {
      ghost var before := Contents();
      var todo := waiters;
      while todo != {}
        invariant todo <= before.waiters && waiters == before.waiters
        invariant armed == before.armed - (before.waiters - todo)
        invariant promises == before.promises + map w | w in before.waiters - todo :: Rejected(reason)
        invariant subscribed == before.subscribed && accountStatuses == before.statuses && wants == before.wants
        decreases todo
      {
        var w :| w in todo;
        todo := todo - {w};
        armed := armed - {w};
        promises := promises[w := Rejected(reason)];
      }
      assert before.waiters - {} == before.waiters;
      waiters := {};
    }

    method StopAccountConnectionStatusProbe()
      requires Inv(Contents())
      modifies this
      ensures Contents() == Stopping(old(Contents()))
    {
      subscribed := false;
      RejectAll(Stopped);
    }

    method StartAccountConnectionStatusProbe(hasClient: bool) returns (threw: bool)
      requires Inv(Contents())
      modifies this
      ensures Contents() == Step(old(Contents()), StartProbe(hasClient)) && threw == !hasClient
    {
      StopAccountConnectionStatusProbe();
      accountStatuses := [];
      if !hasClient {
        return true;
      }
      subscribed := true;
      threw := false;
    }

    method WaitForAccountConnectionStatus(w: Waiter, status: Status)
      requires Possible(Contents(), Wait(w, status))
      modifies this
      ensures Contents() == Step(old(Contents()), Wait(w, status))
    {
      wants := wants[w := status];
      if status in accountStatuses {
        promises := promises[w := Resolved(accountStatuses)];
        return;
      }
      promises := promises[w := Pending];
      armed := armed + {w};
      waiters := waiters + {w};
    }
  }
}

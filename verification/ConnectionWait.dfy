/** `waitForConnectionStatus`: a promise, a timer and a subscription whose callback may fire while it is being made. */
module ConnectionWait {

  datatype Status = Connecting | Connected | Disconnected

  datatype Promise = Pending | Resolved(status: Status) | Rejected(reason: Reason)

  datatype Reason = TimedOut(current: Status) | SubscribeThrew

  /** `Before` until `subscribeConnectionStatus` returns (`Live`); `Absent` when it threw or was not called. */
  datatype Subscription = Before | Live | Absent

  /** The variables of the call; `wanted` is the status asked for, `unsubscribes` counts calls of what was returned. */
  datatype State = State(
    wanted: Status, hostStatus: Status, done: bool, subscription: Subscription,
    unsubscribeAfterSubscribe: bool, timerArmed: bool, promise: Promise, unsubscribes: nat)

  datatype Event =
    | Callback(next: Status)  // from the subscription, also while it is being made or after it threw
    | SubscribeReturns
    | SubscribeThrows
    | TimerFires

  /** The state in which the subscription is about to be made; with the status already there nothing is subscribed. */
  function Begin(hostStatus: Status, wanted: Status): (s: State) {
    if hostStatus == wanted then State(wanted, hostStatus, true, Absent, false, false, Resolved(hostStatus), 0)
    else State(wanted, hostStatus, false, Before, false, true, Pending, 0)
  }

  function Finish(s: State, next: Promise): (r: State) {
    if s.done then s
    else
      var stopped := s.(done := true, timerArmed := false, promise := next);
      if s.subscription.Live? then stopped.(unsubscribes := s.unsubscribes + 1)
      else stopped.(unsubscribeAfterSubscribe := true)
  }

  function OnCallback(s: State, next: Status): (r: State) {
    var seen := s.(hostStatus := next);
    if next == s.wanted then Finish(seen, Resolved(next)) else seen
  }

  function OnSubscribed(s: State): (r: State) {
    var live := s.(subscription := Live);
    if s.unsubscribeAfterSubscribe then live.(unsubscribes := s.unsubscribes + 1) else live
  }

  /** The timer and the rest of the executor's events only run once `subscribe` has returned or thrown. */
  predicate Possible(s: State, e: Event) {
    match e
    case Callback(_) => true
    case SubscribeReturns => s.subscription.Before?
    case SubscribeThrows => s.subscription.Before?
    case TimerFires => s.timerArmed && !s.subscription.Before?
  }

  function Step(s: State, e: Event): (r: State) {
    match e
    case Callback(next) => OnCallback(s, next)
    case SubscribeReturns => OnSubscribed(s)
    case SubscribeThrows => Finish(s, Rejected(SubscribeThrew)).(subscription := Absent)
    case TimerFires => Finish(s, Rejected(TimedOut(s.hostStatus)))
  }

  function Run(s: State, events: seq<Event>): (r: State)
    decreases |events|
  {
    if events == [] then s
    else Run(if Possible(s, events[0]) then Step(s, events[0]) else s, events[1..])
  }

  predicate Inv(s: State) {
    && (s.done <==> s.promise != Pending)
    && (s.timerArmed <==> !s.done)
    && (s.promise.Resolved? ==> s.promise.status == s.wanted)
    && s.unsubscribes == (if s.done && s.subscription.Live? then 1 else 0)
    && (s.subscription.Absent? ==> s.done)
    && (s.subscription.Before? ==> (s.unsubscribeAfterSubscribe <==> s.done))
  }

  /**
    In every run: the timer runs exactly until the promise settles; it resolves only with the status asked
    for; and whenever the subscription was made, it is unsubscribed from exactly once after settling,
    also if the callback fired before `subscribe` returned.
   */
  lemma {:induction false} RunKeepsInv(s: State, events: seq<Event>)
    requires Inv(s)
    ensures var end := Run(s, events);
            && Inv(end)
            && end.wanted == s.wanted
            && (s.promise != Pending ==> end.promise == s.promise)
    decreases |events|
  {
    if events == [] {
    } else {
      RunKeepsInv(if Possible(s, events[0]) then Step(s, events[0]) else s, events[1..]);
    }
  }

  /** Once the subscription is made, the status asked for settles the promise, and so does the timer. */
  lemma NeverStuck(hostStatus: Status, wanted: Status, events: seq<Event>)
    requires Run(Begin(hostStatus, wanted), events).subscription.Live?
    ensures var s := Run(Begin(hostStatus, wanted), events);
            && Step(s, Callback(wanted)).promise != Pending
            && Step(s, Callback(wanted)).unsubscribes == 1
            && (s.promise == Pending ==>
                  && Possible(s, TimerFires)
                  && Step(s, Callback(wanted)).promise == Resolved(wanted)
                  && Step(s, TimerFires).promise == Rejected(TimedOut(s.hostStatus)))
  {
    RunKeepsInv(Begin(hostStatus, wanted), events);
  }

  /** The status of the host as last told. */
  function LastTold(hostStatus: Status, events: seq<Event>): (r: Status) {
    if events == [] then hostStatus
    else
      var last := |events| - 1;
      if events[last].Callback? then events[last].next else LastTold(hostStatus, events[..last])
  }

  lemma {:induction false} RunSnoc(s: State, events: seq<Event>, e: Event)
    ensures var end := Run(s, events); Run(s, events + [e]) == if Possible(end, e) then Step(end, e) else end
    decreases |events|
  {
    hide Possible, Step;
    if events == [] {
      assert [e][1..] == [];
    } else {
      assert (events + [e])[1..] == events[1..] + [e];
      RunSnoc(if Possible(s, events[0]) then Step(s, events[0]) else s, events[1..], e);
    }
  }

  lemma {:induction false} HostStatusIsLastTold(hostStatus: Status, wanted: Status, events: seq<Event>)
    ensures Run(Begin(hostStatus, wanted), events).hostStatus == LastTold(hostStatus, events)
    decreases |events|
  {
    if events != [] {
      var last := |events| - 1;
      HostStatusIsLastTold(hostStatus, wanted, events[..last]);
      RunSnoc(Begin(hostStatus, wanted), events[..last], events[last]);
      assert events == events[..last] + [events[last]];
    }
  }

  /**
    With the status asked for already there, the promise is resolved with it at once: nothing is subscribed
    to, no timer runs, and nothing that happens later matters. Otherwise it is open at first, and this is
    what each event makes of an open promise.
   */
  lemma WhatSettles(hostStatus: Status, wanted: Status, events: seq<Event>, e: Event)
    ensures var s := Run(Begin(hostStatus, wanted), events);
            && (hostStatus == wanted ==>
                  s.promise == Resolved(wanted) && !s.timerArmed && s.subscription.Absent? && s.unsubscribes == 0)
            && (hostStatus != wanted ==> Begin(hostStatus, wanted).promise == Pending)
            && (s.promise == Pending && Possible(s, e) ==>
                  Step(s, e).promise ==
                  match e
                  case Callback(next) => if next == wanted then Resolved(wanted) else Pending
                  case SubscribeReturns => Pending
                  case SubscribeThrows => Rejected(SubscribeThrew)
                  case TimerFires => Rejected(TimedOut(LastTold(hostStatus, events))))
  {
    RunKeepsInv(Begin(hostStatus, wanted), events);
    HostStatusIsLastTold(hostStatus, wanted, events);
    if hostStatus == wanted {
      StaysUnsubscribed(Begin(hostStatus, wanted), events);
    }
  }

  lemma {:induction false} StaysUnsubscribed(s: State, events: seq<Event>)
    requires s.done && s.subscription.Absent?
    ensures var end := Run(s, events); end.done && end.subscription.Absent? && end.unsubscribes == s.unsubscribes
    decreases |events|
  {
    if events == [] {
    } else {
      StaysUnsubscribed(if Possible(s, events[0]) then Step(s, events[0]) else s, events[1..]);
    }
  }

  class Waiting {
    const wanted: Status
    var hostStatus: Status
    var done: bool
    var subscription: Subscription
    var unsubscribeAfterSubscribe: bool
    var timerArmed: bool
    var promise: Promise
    var unsubscribes: nat

    function Contents(): (s: State)
      reads this
    {
      State(wanted, hostStatus, done, subscription, unsubscribeAfterSubscribe, timerArmed, promise, unsubscribes)
    }

    constructor (hostStatus: Status, wanted: Status)
      requires hostStatus != wanted
      ensures Contents() == Begin(hostStatus, wanted)
    {
      this.wanted, this.hostStatus := wanted, hostStatus;
      done, subscription, unsubscribeAfterSubscribe, timerArmed := false, Before, false, true;
      promise, unsubscribes := Pending, 0;
    }

    method FinishWith(result: Promise)
      modifies this
      ensures Contents() == Finish(old(Contents()), result)
    {
      if done {
        return;
      }
      done := true;
      timerArmed := false;
      if subscription.Live? {
        unsubscribes := unsubscribes + 1;
      } else {
        unsubscribeAfterSubscribe := true;
      }
      promise := result;
    }

    method OnStatus(next: Status)
      modifies this
      ensures Contents() == OnCallback(old(Contents()), next)
    {
      hostStatus := next;
      if next == wanted {
        FinishWith(Resolved(next));
      }
    }

    /**
      The `try` block: `early` are the callbacks that `subscribeConnectionStatus` makes before it
      returns, or throws.
     */
    method Subscribe(early: seq<Status>, throws: bool)
      requires subscription == Before
      modifies this
      ensures Contents() ==
              Step(Run(old(Contents()), seq(|early|, i requires 0 <= i < |early| => Callback(early[i]))),
                   if throws then SubscribeThrows else SubscribeReturns)
    {
      ghost var events := seq(|early|, i requires 0 <= i < |early| => Callback(early[i]));
      assert events[0..] == events;
      for i := 0 to |early|
        invariant subscription == Before
        invariant Run(Contents(), events[i..]) == Run(old(Contents()), events)
      {
        assert events[i..][0] == Callback(early[i]) && events[i..][1..] == events[i + 1..];
        OnStatus(early[i]);
      }
      if throws {
        FinishWith(Rejected(SubscribeThrew));
        subscription := Absent;
        return;
      }
      subscription := Live;
      if unsubscribeAfterSubscribe {
        unsubscribes := unsubscribes + 1;
      }
    }
  }
}

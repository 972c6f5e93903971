/** The worker's render streams: instances wait for the id of the custom message, then the matching ones are served. */
module RenderInstances {
  import opened Optionals

  /** Instances are numbered in the order in which they subscribed. */
  type Instance = nat

  /**
    `requests[i]` is the message id that instance `i` asks for, `looping` says that
    `activatePendingRenderInstances` is under way; `served` lists the instances handed a tree, in order,
    and `errors` those whose observer was called with the mismatch error; `rejected` are the latter, as a set.
   */
  datatype State = State(
    customMessageId: Maybe<string>, requests: seq<string>, pending: seq<Instance>, active: set<Instance>,
    disposed: set<Instance>, looping: bool, served: seq<Instance>, rejected: set<Instance>,
    errors: seq<Instance>)

  const FRESH := State(None, [], [], {}, {}, false, [], {}, [])

  /**
    Observer callbacks are the last thing an activation does to this state, so a handler that a callback
    calls is an event of its own, between two `Visit`s of a loop if need be.
   */
  datatype Event =
    | Subscribe(messageId: string)
    | Unsubscribe(instance: Instance)
    | Posted(id: string)         // `customMessageId` is set and the activation loop starts
    | Visit                      // one iteration of that loop, or its end
    | Rerender(instance: Instance) // `renderActiveMessages` reaches an instance

  /** The truth value of `customMessageId`: unset and empty both count as no id. */
  predicate HasId(s: State) { s.customMessageId.Some? && s.customMessageId.value != "" }

  predicate Matches(s: State, i: Instance) {
    i < |s.requests| && s.customMessageId == Some(s.requests[i])
  }

  function Without(s: seq<Instance>, i: Instance): (r: seq<Instance>)
    ensures forall j :: j in r <==> j in s && j != i
  {
    if s == [] then []
    else if s[0] == i then Without(s[1..], i)
    else [s[0]] + Without(s[1..], i)
  }

  function Activate(s: State, i: Instance): (r: State) {
    if i in s.disposed then s
    else if !Matches(s, i) then s.(rejected := s.rejected + {i}, errors := s.errors + [i])
    else s.(active := s.active + {i}, served := s.served + [i])
  }

  function OnSubscribe(s: State, messageId: string): (r: State) {
    var i := |s.requests|;
    var known := s.(requests := s.requests + [messageId]);
    if HasId(s) then Activate(known, i) else known.(pending := s.pending + [i])
  }

  function OnUnsubscribe(s: State, i: Instance): (r: State) {
    s.(disposed := s.disposed + {i}, pending := Without(s.pending, i), active := s.active - {i})
  }

  function OnVisit(s: State): (r: State) {
    if s.pending == [] then s.(looping := false)
    else Activate(s.(pending := s.pending[1..]), s.pending[0])
  }

  predicate Possible(s: State, e: Event) {
    match e
    case Subscribe(_) => true
    case Unsubscribe(i) => i < |s.requests|
    case Posted(_) => s.customMessageId.None?
    case Visit => s.looping
    case Rerender(i) => i in s.active
  }

  function Step(s: State, e: Event): (r: State) {
    match e
    case Subscribe(messageId) => OnSubscribe(s, messageId)
    case Unsubscribe(i) => OnUnsubscribe(s, i)
    case Posted(id) => s.(customMessageId := Some(id), looping := true)
    case Visit => OnVisit(s)
    case Rerender(i) => s.(served := s.served + [i])
  }

  predicate Increasing(s: seq<Instance>) { forall j, k :: 0 <= j < k < |s| ==> s[j] < s[k] }

  /** Where every instance stands; those in `moving` are between two places. */
  ghost predicate Placed(s: State, moving: set<Instance>) {
    && Increasing(s.pending)
    && (forall k :: 0 <= k < |s.pending| ==>
                      var i := s.pending[k];
                      i < |s.requests| && i !in s.active && i !in s.disposed && i !in s.rejected)
    && (forall i :: i in s.active ==> i !in s.disposed && i !in s.rejected && Matches(s, i))
    && (forall i :: i in s.disposed ==> i < |s.requests|)
    && (forall i :: i in s.rejected ==> i < |s.requests| && !Matches(s, i))
    && (forall i :: i in moving ==> i < |s.requests| && i !in s.pending && i !in s.active && i !in s.rejected)
    && (forall i :: 0 <= i < |s.requests| && i !in moving ==>
                      i in s.pending || i in s.active || i in s.disposed || i in s.rejected)
    && (HasId(s) && !s.looping ==> s.pending == [])
    && (s.customMessageId.None? ==> !s.looping && s.active == {} && s.rejected == {})
  }

  ghost predicate Inv(s: State) { Placed(s, {}) }

  lemma {:induction false} WithoutIncreasing(s: seq<Instance>, i: Instance)
    requires Increasing(s)
    ensures Increasing(Without(s, i))
  {
    if s == [] {
    } else {
      WithoutIncreasing(s[1..], i);
      var rest := Without(s[1..], i);
      forall k | 0 <= k < |rest| ensures s[0] < rest[k] {
        assert rest[k] in s[1..];
        var j :| 0 <= j < |s[1..]| && s[1..][j] == rest[k];
        assert s[j + 1] == rest[k];
      }
    }
  }

  lemma ActivateKeepsInv(s: State, i: Instance)
    requires i < |s.requests| && s.customMessageId.Some? && Placed(s, {i})
    ensures Inv(Activate(s, i))
  {
  }

  lemma SubscribedIsMoving(s: State, messageId: string)
    requires Inv(s)
    ensures Placed(s.(requests := s.requests + [messageId]), {|s.requests|})
  {
    hide Increasing;
  }

  lemma HeadIsMoving(s: State)
    requires Inv(s) && s.pending != [] && s.looping
    ensures Placed(s.(pending := s.pending[1..]), {s.pending[0]})
  {
    var head, rest := s.pending[0], s.pending[1..];
    assert Increasing(rest) && head !in rest;
    hide Increasing;
    assert s.pending == [head] + rest;
    assert forall k :: 0 <= k < |rest| ==> rest[k] == s.pending[k + 1];
  }

  lemma SubscribeKeepsInv(s: State, messageId: string)
    requires Inv(s)
    ensures Inv(OnSubscribe(s, messageId))
  {
    var i := |s.requests|;
    var known := s.(requests := s.requests + [messageId]);
    SubscribedIsMoving(s, messageId);
    if HasId(s) {
      ActivateKeepsInv(known, i);
    } else {
      assert forall j :: j in s.pending + [i] <==> j in s.pending || j == i;
    }
  }

  lemma UnsubscribeKeepsInv(s: State, i: Instance)
    requires Inv(s) && i < |s.requests|
    ensures Inv(OnUnsubscribe(s, i))
  {
    WithoutIncreasing(s.pending, i);
    hide Increasing, Without;
    var kept := Without(s.pending, i);
    forall k | 0 <= k < |kept| ensures kept[k] in s.pending && kept[k] != i {
      assert kept[k] in kept;
    }
  }

  lemma VisitKeepsInv(s: State)
    requires Inv(s) && s.looping
    ensures Inv(OnVisit(s))
  {
    hide Increasing, Activate;
    if s.pending != [] {
      HeadIsMoving(s);
      assert s.pending[0] < |s.requests|;
      ActivateKeepsInv(s.(pending := s.pending[1..]), s.pending[0]);
    }
  }

  lemma StepKeepsInv(s: State, e: Event)
    requires Inv(s) && Possible(s, e)
    ensures Inv(Step(s, e))
  {
    match e
    case Subscribe(messageId) => SubscribeKeepsInv(s, messageId);
    case Unsubscribe(i) => UnsubscribeKeepsInv(s, i);
    case Visit => VisitKeepsInv(s);
    case Posted(_) =>
    case Rerender(_) =>
  }

  function Run(s: State, events: seq<Event>): (r: State)
    decreases |events|
  {
    if events == [] then s
    else Run(if Possible(s, events[0]) then Step(s, events[0]) else s, events[1..])
  }

  lemma {:induction false} RunKeepsInv(s: State, events: seq<Event>)
    requires Inv(s)
    ensures Inv(Run(s, events))
    decreases |events|
  {
    hide Inv, Step;
    if events == [] {
    } else if Possible(s, events[0]) {
      StepKeepsInv(s, events[0]);
      RunKeepsInv(Step(s, events[0]), events[1..]);
    } else {
      RunKeepsInv(s, events[1..]);
    }
  }

  function CountIn(s: seq<Instance>, i: Instance): (n: nat) { multiset(s)[i] }

  /** Each rejected instance has been told so once, and no other has. */
  ghost predicate Told(s: State) {
    && (forall i :: CountIn(s.errors, i) == if i in s.rejected then 1 else 0)
    && (forall i :: i in s.rejected ==> i < |s.requests|)
  }

  lemma StepKeepsTold(s: State, e: Event)
    requires Inv(s) && Told(s) && Possible(s, e)
    ensures Told(Step(s, e))
  {
    if e.Visit? && s.pending != [] {
      assert s.pending[0] !in s.rejected && s.pending[0] < |s.requests|;
    }
    hide Inv, Without;
  }

  lemma {:induction false} RunKeepsTold(s: State, events: seq<Event>)
    requires Inv(s) && Told(s)
    ensures Told(Run(s, events))
    decreases |events|
  {
    hide Inv, Step, Told;
    if events == [] {
    } else if Possible(s, events[0]) {
      StepKeepsInv(s, events[0]);
      StepKeepsTold(s, events[0]);
      RunKeepsTold(Step(s, events[0]), events[1..]);
    } else {
      RunKeepsTold(s, events[1..]);
    }
  }

  /**
    Whatever the handlers do and in whatever order: once the id is known and the loop has ended, an
    instance is active exactly if it is still subscribed and asked for that id, and a subscribed one that
    asked for another has been told so, once.
   */
  lemma FatesAreSettled(events: seq<Event>, i: Instance)
    requires i < |Run(FRESH, events).requests|
    requires HasId(Run(FRESH, events)) && !Run(FRESH, events).looping
    ensures var s := Run(FRESH, events);
            && s.pending == []
            && (i in s.active <==> i !in s.disposed && Some(s.requests[i]) == s.customMessageId)
            && (i !in s.disposed ==>
                  CountIn(s.errors, i) == if Some(s.requests[i]) == s.customMessageId then 0 else 1)
  {
    RunKeepsInv(FRESH, events);
    RunKeepsTold(FRESH, events);
  }

  // ---------------------------------------------------------------------------------------------
  // The same, going by the events
  // ---------------------------------------------------------------------------------------------

  /** The message ids asked for, in the order of subscribing. */
  function AskedFor(events: seq<Event>): (r: seq<string>) {
    if events == [] then []
    else AskedFor(events[..|events| - 1]) + match events[|events| - 1] case Subscribe(id) => [id] case _ => []
  }

  /** The id of the first `Posted`. */
  function FirstPosted(events: seq<Event>): (r: Maybe<string>) {
    if events == [] then None
    else
      var before := FirstPosted(events[..|events| - 1]);
      if before.Some? then before else match events[|events| - 1] case Posted(id) => Some(id) case _ => None
  }

  /** Instance `i` has unsubscribed after having subscribed. */
  predicate HasLeft(events: seq<Event>, i: Instance) {
    exists k :: 0 <= k < |events| && events[k] == Unsubscribe(i) && i < |AskedFor(events[..k])|
  }

  lemma StepRecords(s: State, e: Event, i: Instance)
    ensures var next := if Possible(s, e) then Step(s, e) else s;
            && next.requests == s.requests + (match e case Subscribe(id) => [id] case _ => [])
            && next.customMessageId ==
               (if s.customMessageId.Some? then s.customMessageId
                else match e case Posted(id) => Some(id) case _ => None)
            && (i in next.disposed <==> i in s.disposed || (e == Unsubscribe(i) && i < |s.requests|))
  {
    hide Without;
    assert s.requests + [] == s.requests;
  }

  lemma {:induction false} RunRecords(events: seq<Event>, i: Instance)
    ensures var s := Run(FRESH, events);
            && s.requests == AskedFor(events) && s.customMessageId == FirstPosted(events)
            && (i in s.disposed <==> HasLeft(events, i))
    decreases |events|
  {
    if events != [] {
      hide Step, Possible, Run;
      var n := |events| - 1;
      RunRecords(events[..n], i);
      RunLast(events);
      StepRecords(Run(FRESH, events[..n]), events[n], i);
      LeftGrows(events, i);
    }
  }

  lemma RunLast(events: seq<Event>)
    requires events != []
    ensures var n := |events| - 1;
            var s := Run(FRESH, events[..n]);
            Run(FRESH, events) == if Possible(s, events[n]) then Step(s, events[n]) else s
  {
    hide Step, Possible;
    var n := |events| - 1;
    assert events == events[..n] + [events[n]];
    RunAppends(FRESH, events[..n], [events[n]]);
    assert [events[n]][1..] == [];
  }

  lemma LeftGrows(events: seq<Event>, i: Instance)
    requires events != []
    ensures var n := |events| - 1;
            HasLeft(events, i) <==>
              HasLeft(events[..n], i) || (events[n] == Unsubscribe(i) && i < |AskedFor(events[..n])|)
  {
    hide AskedFor;
    var n := |events| - 1;
    if HasLeft(events, i) {
      var k :| 0 <= k < |events| && events[k] == Unsubscribe(i) && i < |AskedFor(events[..k])|;
      if k < n {
        assert events[..n][k] == events[k] && events[..n][..k] == events[..k];
      }
    }
    if HasLeft(events[..n], i) {
      var k :| 0 <= k < n && events[..n][k] == Unsubscribe(i) && i < |AskedFor(events[..n][..k])|;
      assert events[k] == Unsubscribe(i) && events[..n][..k] == events[..k];
    }
  }

  /**
    Once a nonempty id was posted and the loop has ended, whatever else was done in whatever order: active
    are exactly the instances that asked for the first id posted and have not unsubscribed, and exactly
    the other ones still subscribed have been told of the mismatch, once each.
   */
  lemma FatesByEvents(events: seq<Event>, i: Instance)
    requires FirstPosted(events).Some? && FirstPosted(events).value != "" && !Run(FRESH, events).looping
    requires i < |AskedFor(events)|
    ensures var s, matches := Run(FRESH, events), AskedFor(events)[i] == FirstPosted(events).value;
            && s.pending == []
            && (i in s.active <==> matches && !HasLeft(events, i))
            && (!HasLeft(events, i) ==> CountIn(s.errors, i) == if matches then 0 else 1)
  {
    RunRecords(events, i);
    FatesAreSettled(events, i);
  }

  lemma DisposedStep(s: State, e: Event, i: Instance)
    requires Inv(s) && i in s.disposed && Possible(s, e)
    ensures var next := Step(s, e);
            && i in next.disposed && CountIn(next.served, i) == CountIn(s.served, i)
            && CountIn(next.errors, i) == CountIn(s.errors, i)
  {
    hide Increasing, Without;
  }

  /** After `unsubscribe` an instance is in neither set and its observer is not called again. */
  lemma {:induction false} DisposedStaysSilent(s: State, events: seq<Event>, i: Instance)
    requires Inv(s) && i in s.disposed
    ensures var end := Run(s, events);
            && i in end.disposed && i !in end.pending && i !in end.active
            && CountIn(end.served, i) == CountIn(s.served, i)
            && CountIn(end.errors, i) == CountIn(s.errors, i)
    decreases |events|
  {
    hide Step, CountIn, Increasing;
    if events == [] {
    } else if Possible(s, events[0]) {
      StepKeepsInv(s, events[0]);
      DisposedStep(s, events[0], i);
      DisposedStaysSilent(Step(s, events[0]), events[1..], i);
    } else {
      DisposedStaysSilent(s, events[1..], i);
    }
  }

  /** The instances of `waiting` that asked for the id. */
  function Matching(s: State, waiting: seq<Instance>): (r: seq<Instance>) {
    if waiting == [] then []
    else (if Matches(s, waiting[0]) then [waiting[0]] else []) + Matching(s, waiting[1..])
  }

  lemma VisitServes(s: State)
    requires Inv(s) && s.looping && s.pending != []
    ensures var next := OnVisit(s);
            && next.looping && next.pending == s.pending[1..]
            && next.served == s.served + Matching(s, s.pending[..1])
            && next.customMessageId == s.customMessageId && next.requests == s.requests
  {
    hide Increasing;
    assert s.pending[..1] == [s.pending[0]] && s.pending[..1][1..] == [];
  }

  /** An undisturbed loop ends after one visit per waiting instance, and serves the matching ones in their order. */
  lemma {:induction false} LoopServesInOrder(s: State)
    requires Inv(s) && s.looping
    ensures var end := Run(s, seq(|s.pending| + 1, _ => Visit));
            && !end.looping && end.pending == []
            && end.served == s.served + Matching(s, s.pending)
            && end.customMessageId == s.customMessageId && end.requests == s.requests
    decreases |s.pending|
  {
    hide Inv, Matches;
    var visits := seq(|s.pending| + 1, _ => Visit);
    StepKeepsInv(s, Visit);
    var next := Step(s, Visit);
    assert Run(s, visits) == Run(next, visits[1..]);
    if s.pending == [] {
      assert visits[1..] == [];
    } else {
      VisitServes(s);
      assert visits[1..] == seq(|next.pending| + 1, _ => Visit);
      LoopServesInOrder(next);
      MatchingDependsOnRequests(s, next, s.pending[1..]);
      MatchingSplits(s, s.pending);
    }
  }

  lemma MatchingSplits(s: State, waiting: seq<Instance>)
    requires waiting != []
    ensures Matching(s, waiting) == Matching(s, waiting[..1]) + Matching(s, waiting[1..])
  {
    assert waiting[..1][1..] == [];
  }

  lemma {:induction false} MatchingDependsOnRequests(s: State, s': State, waiting: seq<Instance>)
    requires s.requests == s'.requests && s.customMessageId == s'.customMessageId
    ensures Matching(s, waiting) == Matching(s', waiting)
  {
    if waiting == [] {
    } else {
      MatchingDependsOnRequests(s, s', waiting[1..]);
    }
  }

  /** An id that is the empty string counts as none: later subscribers wait for good, as no loop starts again. */
  lemma EmptyIdStrands(s: State, events: seq<Event>, messageId: string)
    requires Inv(s) && s.customMessageId == Some("") && !s.looping
    requires Unsubscribe(|s.requests|) !in events
    ensures |s.requests| in Run(Step(s, Subscribe(messageId)), events).pending
  {
    StepKeepsInv(s, Subscribe(messageId));
    StrandedStays(Step(s, Subscribe(messageId)), events, |s.requests|);
  }

  lemma {:induction false} StrandedStays(s: State, events: seq<Event>, i: Instance)
    requires Inv(s) && s.customMessageId == Some("") && !s.looping && i in s.pending
    requires Unsubscribe(i) !in events
    ensures i in Run(s, events).pending
    decreases |events|
  {
    if events == [] {
    } else if Possible(s, events[0]) {
      StepKeepsInv(s, events[0]);
      StrandedStays(Step(s, events[0]), events[1..], i);
    } else {
      StrandedStays(s, events[1..], i);
    }
  }

  /** Every tree handed to an active instance comes from one event: its activation, or one rerendering. */
  lemma ServedByOne(s: State, e: Event, i: Instance)
    requires Inv(s) && Possible(s, e)
    ensures var next := Step(s, e);
            CountIn(next.served, i) ==
            CountIn(s.served, i) + if e == Rerender(i) || (i in next.active && i !in s.active) then 1 else 0
  {
    hide Increasing, Without;
  }

  lemma {:induction false} RunAppends(s: State, events: seq<Event>, more: seq<Event>)
    ensures Run(s, events + more) == Run(Run(s, events), more)
    decreases |events|
  {
    if events == [] {
      assert events + more == more;
    } else {
      assert (events + more)[1..] == events[1..] + more;
      RunAppends(if Possible(s, events[0]) then Step(s, events[0]) else s, events[1..], more);
    }
  }

  lemma RunSingle(s: State, e: Event)
    requires Possible(s, e)
    ensures Run(s, [e]) == Step(s, e)
  {
    assert [e][1..] == [];
  }

  lemma RunOne(s: State, events: seq<Event>, e: Event)
    requires Possible(Run(s, events), e)
    ensures Run(s, events + [e]) == Step(Run(s, events), e)
  {
    RunAppends(s, events, [e]);
    RunSingle(Run(s, events), e);
  }

  /** The activation loop and the unsubscriptions made from its callbacks. */
  predicate OfLoop(events: seq<Event>, id: string) {
    forall e :: e in events ==> e == Posted(id) || e == Visit || e.Unsubscribe?
  }

  lemma OfLoopGrows(events: seq<Event>, id: string)
    ensures OfLoop([Posted(id)], id)
    ensures OfLoop(events, id) ==> OfLoop(events + [Visit], id)
  {
  }

  class Worker {
    var customMessageId: Maybe<string>
    var requests: seq<string>
    var pending: seq<Instance>
    var active: set<Instance>
    var disposed: set<Instance>
    var served: seq<Instance>
    var rejected: set<Instance>
    var errors: seq<Instance>
    ghost var looping: bool

    ghost function Contents(): (s: State)
      reads this
    {
      State(customMessageId, requests, pending, active, disposed, looping, served, rejected, errors)
    }

    constructor ()
      ensures Contents() == FRESH
    {
      customMessageId, requests, pending, active, disposed := None, [], [], {}, {};
      served, rejected, errors, looping := [], {}, [], false;
    }

    method ActivateRenderInstance(instance: Instance)
      requires instance < |requests|
      modifies this`active, this`served, this`rejected, this`errors
      ensures Contents() == Activate(old(Contents()), instance)
    {
      if instance in disposed {
        return;
      }
      if customMessageId != Some(requests[instance]) {
        rejected := rejected + {instance};
        errors := errors + [instance];
        return;
      }
      active := active + {instance};
      served := served + [instance];
    }

    method OnSubscribed(messageId: string) returns (instance: Instance)
      modifies this
      ensures Contents() == Step(old(Contents()), Subscribe(messageId)) && instance == |old(requests)|
    {
      instance := |requests|;
      requests := requests + [messageId];
      if customMessageId.Some? && customMessageId.value != "" {
        ActivateRenderInstance(instance);
      } else {
        pending := pending + [instance];
      }
    }

    method OnUnsubscribed(instance: Instance)
      modifies this`disposed, this`pending, this`active
      ensures Contents() == Step(old(Contents()), Unsubscribe(instance))
    {
      disposed := disposed + {instance};
      pending := Without(pending, instance);
      active := active - {instance};
    }

    /** The body of the loop: the instance leaves the pending set before it is activated. */
    method VisitHead()
      requires pending != [] && pending[0] < |requests|
      modifies this`pending, this`active, this`served, this`rejected, this`errors
      ensures Contents() == OnVisit(old(Contents())) && |pending| == |old(pending)| - 1
    {
      var instance := pending[0];
      pending := pending[1..];
      ActivateRenderInstance(instance);
    }

    /**
      The id arrives and the loop over the pending set runs; `reactions[k]` are the instances that the
      callback of the k-th activation unsubscribes. `events` is the run the call amounts to.
     */
    method ActivatePending(id: string, reactions: seq<seq<Instance>>) returns (ghost events: seq<Event>)
      requires Inv(Contents()) && customMessageId == None
      requires forall k, j :: 0 <= k < |reactions| && 0 <= j < |reactions[k]| ==> reactions[k][j] < |requests|
      modifies this
      ensures Contents() == Run(old(Contents()), events) && Inv(Contents())
      ensures customMessageId == Some(id) && pending == [] && !looping && requests == old(requests)
      ensures OfLoop(events, id)
      ensures reactions == [] ==> events == [Posted(id)] + seq(|old(pending)| + 1, _ => Visit)
    {
      hide Inv, Run, OnVisit, OfLoop, OnSubscribe, OnUnsubscribe, HasId;
      ghost var start := Contents();
      customMessageId := Some(id);
      looping := true;
      events := [Posted(id)];
      RunSingle(start, Posted(id));
      OfLoopGrows(events, id);
      StepKeepsInv(start, Posted(id));
      var visits := 0;
      while pending != []
        invariant Inv(Contents()) && Contents() == Run(start, events)
        invariant customMessageId == Some(id) && looping && requests == old(requests)
        invariant OfLoop(events, id)
        invariant visits >= 0
        invariant reactions == [] ==>
                    visits + |pending| == |old(pending)| && events == [Posted(id)] + seq(visits, _ => Visit)
        decreases |pending|
      {
        RunOne(start, events, Visit);
        OfLoopGrows(events, id);
        StepKeepsInv(Contents(), Visit);
        HeadInRange(Contents());
        VisitHead();
        events := events + [Visit];
        if visits < |reactions| {
          events := React(start, events, id, reactions[visits]);
        }
        visits := visits + 1;
      }
      RunOne(start, events, Visit);
      OfLoopGrows(events, id);
      StepKeepsInv(Contents(), Visit);
      EndOfLoop(Contents());
      events := events + [Visit];
      looping := false;
    }

    method React(ghost start: State, ghost before: seq<Event>, ghost id: string, reaction: seq<Instance>)
      returns (ghost events: seq<Event>)
      requires Inv(Contents()) && Contents() == Run(start, before)
      requires forall j :: 0 <= j < |reaction| ==> reaction[j] < |requests|
      requires OfLoop(before, id)
      modifies this`disposed, this`pending, this`active
      ensures Inv(Contents()) && Contents() == Run(start, events) && |pending| <= |old(pending)|
      ensures OfLoop(events, id)
    {
      events := before;
      for j := 0 to |reaction|
        invariant Inv(Contents()) && Contents() == Run(start, events) && |pending| <= |old(pending)|
        invariant OfLoop(events, id)
      {
        RunOne(start, events, Unsubscribe(reaction[j]));
        StepKeepsInv(Contents(), Unsubscribe(reaction[j]));
        WithoutShorter(pending, reaction[j]);
        OnUnsubscribed(reaction[j]);
        events := events + [Unsubscribe(reaction[j])];
      }
    }
  }

  lemma HeadInRange(s: State)
    requires Inv(s) && s.pending != []
    ensures s.pending[0] < |s.requests|
  {
  }

  lemma EndOfLoop(s: State)
    requires s.pending == []
    ensures OnVisit(s) == s.(looping := false)
  {
  }

  lemma {:induction false} WithoutShorter(s: seq<Instance>, i: Instance)
    ensures |Without(s, i)| <= |s|
  {
    if s == [] {
    } else {
      WithoutShorter(s[1..], i);
    }
  }
}

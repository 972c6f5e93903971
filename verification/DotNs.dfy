/**
  The DotNS lookup: follow events are chained through a promise queue, so that each handler, including
  its wait for the unary response, ends before the next begins.
 */
module DotNs {
  import opened Optionals

  datatype Id = Id(text: string)

  /** Keys are compared without regard to case; `folded` stands for the lower-case text. */
  datatype Key = Key(folded: string)

  datatype Entry = Entry(key: Key, value: Maybe<string>)

  datatype Reason = HostError(message: string) | LimitHit | NoAccount | OperationFailed(message: string)
    | Inaccessible | StreamStopped | StreamCompleted | HandlerThrew(message: string)

  datatype Response = Refused(message: string) | LimitReached | Started(id: Id) | Threw(message: string)

  /** What arrives on the stream; the queue also takes its completion. */
  datatype Item =
    | Initialized
    | StorageItems(id: Id, items: seq<Entry>)
    | StorageDone(id: Id)
    | OperationError(id: Id, message: string)
    | OperationInaccessible(id: Id)
    | Stop
    | Completed
    | Other

  datatype Outcome = Account(value: string) | Failure(reason: Reason)

  /** What the handlers share: the operation to match, and the promise. */
  datatype Lookup = Lookup(operation: Maybe<Id>, outcome: Maybe<Outcome>, unsubscribes: nat)

  const UNSETTLED := Lookup(None, None, 0)

  function FindStorageValue(items: seq<Entry>, key: Key): (r: Maybe<string>) {
    if items == [] then None
    else if items[0].key == key then items[0].value
    else FindStorageValue(items[1..], key)
  }

  /** Item `i` is the first under the key. */
  predicate FirstUnder(items: seq<Entry>, key: Key, i: int) {
    0 <= i < |items| && items[i].key == key && forall j :: 0 <= j < i ==> items[j].key != key
  }

  /** The value found is that of the first item under the key; without any there is none. */
  lemma {:induction false} FindsTheFirst(items: seq<Entry>, key: Key) returns (i: nat)
    ensures i < |items| ==> FirstUnder(items, key, i) && FindStorageValue(items, key) == items[i].value
    ensures i >= |items| ==>
              FindStorageValue(items, key) == None && forall j :: 0 <= j < |items| ==> items[j].key != key
  {
    i := 0;
    if items != [] && items[0].key != key {
      i := FindsTheFirst(items[1..], key);
      i := i + 1;
      assert forall j :: 0 < j < |items| ==> items[j] == items[1..][j - 1];
    }
  }

  function Settle(l: Lookup, o: Outcome): (r: Lookup) {
    if l.outcome.Some? then l else l.(outcome := Some(o), unsubscribes := l.unsubscribes + 1)
  }

  function Fail(l: Lookup, reason: Reason): (r: Lookup) { Settle(l, Failure(reason)) }

  /** The rest of the `Initialized` handler, once the response is there. */
  function OnResponse(l: Lookup, r: Response): (next: Lookup) {
    match r
    case Refused(m) => Fail(l, HostError(m))
    case LimitReached => Fail(l, LimitHit)
    case Started(id) => l.(operation := Some(id))
    case Threw(m) => Fail(l, HandlerThrew(m))
  }

  /** The handlers that do not wait. An empty value counts as no account. */
  function HandleNow(l: Lookup, key: Key, item: Item): (next: Lookup) {
    match item
    case StorageItems(id, items) =>
      if l.operation != Some(id) then l
      else
        var found := FindStorageValue(items, key);
        if found.None? || found.value == "" then Fail(l, NoAccount) else Settle(l, Account(found.value))
    case StorageDone(id) => if l.operation == Some(id) then Fail(l, NoAccount) else l
    case OperationError(id, m) => if l.operation == Some(id) then Fail(l, OperationFailed(m)) else l
    case OperationInaccessible(id) => if l.operation == Some(id) then Fail(l, Inaccessible) else l
    case Stop => Fail(l, StreamStopped)
    case Completed => Fail(l, StreamCompleted)
    case Initialized => l
    case Other => l
  }

  // ---------------------------------------------------------------------------------------------
  // The queue, with responses and arrivals interleaved
  // ---------------------------------------------------------------------------------------------

  /** `queue` holds the items whose handlers have not begun; `awaiting` says that one is suspended. */
  datatype State = State(
    lookup: Lookup, queue: seq<Item>, awaiting: bool, arrived: seq<Item>, responses: seq<Response>,
    errored: bool)

  const START := State(UNSETTLED, [], false, [], [], false)

  datatype Event =
    | Arrive(item: Item)        // `next` or `complete` of the subscription
    | Dispatch                  // the queue moves on to its next item
    | Respond(response: Response)
    | StreamError(message: string) // settles at once, ahead of the queue

  predicate Possible(s: State, e: Event) {
    match e
    case Dispatch => !s.awaiting && s.queue != []
    case Respond(_) => s.awaiting
    case _ => true
  }

  function Step(s: State, key: Key, e: Event): (r: State)
    requires Possible(s, e)
  {
    match e
    case Arrive(item) => s.(queue := s.queue + [item], arrived := s.arrived + [item])
    case Dispatch =>
      var next := s.(queue := s.queue[1..]);
      if s.queue[0].Initialized? then next.(awaiting := true)
      else next.(lookup := HandleNow(s.lookup, key, s.queue[0]))
    case Respond(r) =>
      s.(lookup := OnResponse(s.lookup, r), awaiting := false, responses := s.responses + [r])
    case StreamError(m) => s.(lookup := Fail(s.lookup, HostError(m)), errored := true)
  }

  function Run(s: State, key: Key, events: seq<Event>): (r: State)
    decreases |events|
  {
    if events == [] then s
    else Run(if Possible(s, events[0]) then Step(s, key, events[0]) else s, key, events[1..])
  }

  /**
    The sequential reading of the same program: handle the items in the order of arrival, each
    `Initialized` with its response on the spot. It stops where the responses run out.
   */
  function InOrder(l: Lookup, key: Key, items: seq<Item>, responses: seq<Response>): (r: Lookup)
    decreases |items|
  {
    if items == [] then l
    else if items[0].Initialized? then
      if responses == [] then l
      else InOrder(OnResponse(l, responses[0]), key, items[1..], responses[1..])
    else InOrder(HandleNow(l, key, items[0]), key, items[1..], responses)
  }

  function Asked(items: seq<Item>): (n: nat) {
    if items == [] then 0 else (if items[0].Initialized? then 1 else 0) + Asked(items[1..])
  }

  lemma {:induction false} AskedAppend(items: seq<Item>, item: Item)
    ensures Asked(items + [item]) == Asked(items) + if item.Initialized? then 1 else 0
  {
    if items == [] {
    } else {
      assert (items + [item])[1..] == items[1..] + [item];
      AskedAppend(items[1..], item);
    }
  }

  /** Handling one more item comes last; a further response only matters to the item that waits for it. */
  lemma {:induction false} InOrderAppend(l: Lookup, key: Key, items: seq<Item>, responses: seq<Response>, item: Item)
    requires |responses| == Asked(items)
    ensures !item.Initialized? ==>
              InOrder(l, key, items + [item], responses) == HandleNow(InOrder(l, key, items, responses), key, item)
    ensures item.Initialized? ==>
              && InOrder(l, key, items + [item], responses) == InOrder(l, key, items, responses)
              && (forall r :: InOrder(l, key, items + [item], responses + [r]) ==
                              OnResponse(InOrder(l, key, items, responses), r))
    decreases |items|
  {
    if items == [] {
      assert [item][1..] == [];
      forall r
        ensures item.Initialized? ==> InOrder(l, key, [item], [r]) == OnResponse(l, r)
      {
        assert [r][1..] == [];
      }
      assert items + [item] == [item] && responses == [] && forall r :: responses + [r] == [r];
    } else {
      assert (items + [item])[1..] == items[1..] + [item];
      if items[0].Initialized? {
        assert forall r :: (responses + [r])[1..] == responses[1..] + [r];
        InOrderAppend(OnResponse(l, responses[0]), key, items[1..], responses[1..], item);
      } else {
        InOrderAppend(HandleNow(l, key, items[0]), key, items[1..], responses, item);
      }
    }
  }

  /** The items whose handlers have begun. */
  function Begun(s: State): (items: seq<Item>)
    requires |s.queue| <= |s.arrived|
  {
    s.arrived[..|s.arrived| - |s.queue|]
  }

  /** An error of the stream can only turn an open lookup into a failure. */
  predicate UpToErrors(l: Lookup, sequential: Lookup, errored: bool) {
    && l.operation == sequential.operation
    && l.unsubscribes == (if l.outcome.Some? then 1 else 0)
    && (l.outcome == sequential.outcome || (errored && l.outcome.Some? && l.outcome.value.Failure?))
  }

  ghost predicate Serialised(s: State, key: Key) {
    && |s.queue| <= |s.arrived|
    && s.arrived == Begun(s) + s.queue
    && (s.awaiting ==> Begun(s) != [] && Begun(s)[|Begun(s)| - 1].Initialized?)
    && Asked(Begun(s)) == |s.responses| + (if s.awaiting then 1 else 0)
    && UpToErrors(s.lookup, InOrder(UNSETTLED, key, Begun(s), s.responses), s.errored)
  }

  lemma ArriveKeepsSerialised(s: State, key: Key, item: Item)
    requires Serialised(s, key)
    ensures Serialised(Step(s, key, Arrive(item)), key)
  {
    assert Begun(Step(s, key, Arrive(item))) == Begun(s);
  }

  lemma HandlingKeepsUpToErrors(l: Lookup, sequential: Lookup, errored: bool, key: Key, item: Item)
    requires UpToErrors(l, sequential, errored)
    ensures UpToErrors(HandleNow(l, key, item), HandleNow(sequential, key, item), errored)
  {
    hide FindStorageValue;
  }

  lemma DispatchBegins(s: State, key: Key)
    requires Serialised(s, key) && Possible(s, Dispatch)
    ensures var next, item := Step(s, key, Dispatch), s.queue[0];
            && |next.queue| <= |next.arrived|
            && Begun(next) == Begun(s) + [item]
            && next.arrived == Begun(next) + next.queue
  {
    hide InOrder, Asked, HandleNow, UpToErrors;
    assert s.arrived == (Begun(s) + [s.queue[0]]) + s.queue[1..];
  }

  lemma DispatchKeepsSerialised(s: State, key: Key)
    requires Serialised(s, key) && Possible(s, Dispatch)
    ensures Serialised(Step(s, key, Dispatch), key)
  {
    var item := s.queue[0];
    DispatchBegins(s, key);
    AskedAppend(Begun(s), item);
    InOrderAppend(UNSETTLED, key, Begun(s), s.responses, item);
    hide InOrder, Asked, HandleNow, UpToErrors, Begun;
    HandlingKeepsUpToErrors(s.lookup, InOrder(UNSETTLED, key, Begun(s), s.responses), s.errored, key, item);
  }

  lemma RespondKeepsSerialised(s: State, key: Key, r: Response)
    requires Serialised(s, key) && Possible(s, Respond(r))
    ensures Serialised(Step(s, key, Respond(r)), key)
  {
    var next, n := Step(s, key, Respond(r)), |Begun(s)| - 1;
    var before, item := Begun(s)[..n], Begun(s)[n];
    assert Begun(next) == Begun(s) == before + [item];
    AskedAppend(before, item);
    InOrderAppend(UNSETTLED, key, before, s.responses, item);
    hide InOrder, Asked;
  }

  lemma StepKeepsSerialised(s: State, key: Key, e: Event)
    requires Serialised(s, key) && Possible(s, e)
    ensures Serialised(Step(s, key, e), key)
  {
    match e
    case Arrive(item) => ArriveKeepsSerialised(s, key, item);
    case Dispatch => DispatchKeepsSerialised(s, key);
    case Respond(r) => RespondKeepsSerialised(s, key, r);
    case StreamError(_) => assert Begun(Step(s, key, e)) == Begun(s);
  }

  lemma {:induction false} RunIsSerialised(s: State, key: Key, events: seq<Event>)
    requires Serialised(s, key)
    ensures Serialised(Run(s, key, events), key)
    decreases |events|
  {
    hide Serialised;
    if events == [] {
    } else if Possible(s, events[0]) {
      StepKeepsSerialised(s, key, events[0]);
      RunIsSerialised(Step(s, key, events[0]), key, events[1..]);
    } else {
      RunIsSerialised(s, key, events[1..]);
    }
  }

  lemma StartIsSerialised(key: Key)
    ensures Serialised(START, key)
  {
  }

  /**
    However arrivals, responses and the queue interleave: as soon as nothing is pending, the lookup is
    what handling the items one by one in the order of arrival gives. No item is dropped for having
    arrived before the response.
   */
  lemma QuiescentRunsAreSequential(key: Key, events: seq<Event>)
    requires var s := Run(START, key, events); s.queue == [] && !s.awaiting && !s.errored
    ensures var s := Run(START, key, events); s.lookup == InOrder(UNSETTLED, key, s.arrived, s.responses)
  {
    hide Run, InOrder, Asked;
    StartIsSerialised(key);
    RunIsSerialised(START, key, events);
    var s := Run(START, key, events);
    assert Begun(s) == s.arrived;
    InOrderSettlesOnce(UNSETTLED, key, s.arrived, s.responses);
  }

  lemma {:induction false} InOrderSettlesOnce(l: Lookup, key: Key, items: seq<Item>, responses: seq<Response>)
    requires l.unsubscribes == (if l.outcome.Some? then 1 else 0)
    ensures var r := InOrder(l, key, items, responses);
            && r.unsubscribes == (if r.outcome.Some? then 1 else 0)
            && (l.outcome.Some? ==> r.outcome == l.outcome)
    decreases |items|
  {
    if items == [] {
    } else if items[0].Initialized? {
      if responses != [] {
        InOrderSettlesOnce(OnResponse(l, responses[0]), key, items[1..], responses[1..]);
      }
    } else {
      InOrderSettlesOnce(HandleNow(l, key, items[0]), key, items[1..], responses);
    }
  }

  /** The promise resolves once and unsubscribes once, in every run, stream errors included. */
  lemma {:induction false} SettlesOnce(s: State, key: Key, events: seq<Event>)
    requires s.lookup.unsubscribes == (if s.lookup.outcome.Some? then 1 else 0)
    ensures var l := Run(s, key, events).lookup;
            && l.unsubscribes == (if l.outcome.Some? then 1 else 0)
            && (s.lookup.outcome.Some? ==> l.outcome == s.lookup.outcome)
    decreases |events|
  {
    if events == [] {
    } else {
      SettlesOnce(if Possible(s, events[0]) then Step(s, key, events[0]) else s, key, events[1..]);
    }
  }

  // ---------------------------------------------------------------------------------------------
  // When the lookup succeeds
  // ---------------------------------------------------------------------------------------------

  /** The items that end a lookup for operation `id`. */
  predicate Decides(id: Id, item: Item) {
    match item
    case StorageItems(i, _) => i == id
    case StorageDone(i) => i == id
    case OperationError(i, _) => i == id
    case OperationInaccessible(i) => i == id
    case Stop => true
    case Completed => true
    case _ => false
  }

  function FirstDecision(id: Id, items: seq<Item>): (r: Maybe<Item>) {
    if items == [] then None else if Decides(id, items[0]) then Some(items[0]) else FirstDecision(id, items[1..])
  }

  /** The items behind the first `Initialized`, unless the stream ended before it. */
  function AfterInitialized(items: seq<Item>): (r: Maybe<seq<Item>>) {
    if items == [] || items[0].Stop? || items[0].Completed? then None
    else if items[0].Initialized? then Some(items[1..])
    else AfterInitialized(items[1..])
  }

  /** The first storage items of the operation hold a non-empty value in their first entry under the key. */
  predicate Finds(key: Key, decision: Maybe<Item>, v: string) {
    && decision.Some? && decision.value.StorageItems?
    && v != ""
    && exists i :: 0 <= i < |decision.value.items| && FirstUnder(decision.value.items, key, i)
                   && decision.value.items[i].value == Some(v)
  }

  lemma FoundIsFinds(id: Id, items: seq<Entry>, key: Key, v: string)
    ensures Finds(key, Some(StorageItems(id, items)), v) <==> FindStorageValue(items, key) == Some(v) && v != ""
  {
    var first := FindsTheFirst(items, key);
  }

  lemma {:induction false} InOrderAfterStart(l: Lookup, key: Key, items: seq<Item>, v: string)
    requires l.outcome == None && l.operation.Some? && l.unsubscribes == 0 && Asked(items) == 0
    ensures InOrder(l, key, items, []).outcome == Some(Account(v)) <==>
              Finds(key, FirstDecision(l.operation.value, items), v)
    decreases |items|
  {
    if items == [] {
    } else if Decides(l.operation.value, items[0]) {
      if items[0].StorageItems? {
        FoundIsFinds(l.operation.value, items[0].items, key, v);
        hide Finds, FindStorageValue;
      }
      InOrderSettlesOnce(HandleNow(l, key, items[0]), key, items[1..], []);
    } else {
      InOrderAfterStart(l, key, items[1..], v);
    }
  }

  lemma {:induction false} InOrderSucceedsIff(key: Key, items: seq<Item>, responses: seq<Response>, v: string)
    requires Asked(items) <= 1 && |responses| <= Asked(items)
    ensures InOrder(UNSETTLED, key, items, responses).outcome == Some(Account(v)) <==>
              && |responses| == 1 && responses[0].Started?
              && AfterInitialized(items).Some?
              && Finds(key, FirstDecision(responses[0].id, AfterInitialized(items).value), v)
    decreases |items|
  {
    if items == [] {
    } else if items[0].Initialized? {
      if responses != [] {
        var l := OnResponse(UNSETTLED, responses[0]);
        assert responses[1..] == [];
        if responses[0].Started? {
          InOrderAfterStart(l, key, items[1..], v);
        } else {
          InOrderSettlesOnce(l, key, items[1..], []);
        }
      }
    } else if items[0].Stop? || items[0].Completed? {
      InOrderSettlesOnce(HandleNow(UNSETTLED, key, items[0]), key, items[1..], responses);
    } else {
      InOrderSucceedsIff(key, items[1..], responses, v);
    }
  }

  /**
    With a single `Initialized` event, the lookup succeeds with `v` exactly when the stream had not ended
    before it, the response started an operation, and the first item after it that concerns that
    operation or ends the stream is a storage event with `v` under the key. Whether that event came
    before the response makes no difference.
   */
  lemma SucceedsIff(key: Key, events: seq<Event>, v: string)
    requires var s := Run(START, key, events);
             s.queue == [] && !s.awaiting && !s.errored && Asked(s.arrived) <= 1
    ensures var s := Run(START, key, events);
            s.lookup.outcome == Some(Account(v)) <==>
              && |s.responses| == 1 && s.responses[0].Started?
              && AfterInitialized(s.arrived).Some?
              && Finds(key, FirstDecision(s.responses[0].id, AfterInitialized(s.arrived).value), v)
  {
    hide Run, InOrder, Asked, Finds, FirstDecision, AfterInitialized;
    QuiescentRunsAreSequential(key, events);
    StartIsSerialised(key);
    RunIsSerialised(START, key, events);
    var s := Run(START, key, events);
    assert Begun(s) == s.arrived;
    InOrderSucceedsIff(key, s.arrived, s.responses, v);
  }

  // ---------------------------------------------------------------------------------------------
  // And what it ends with otherwise
  // ---------------------------------------------------------------------------------------------

  /** How the stream ended before its first `Initialized`, if it did. */
  function EndBefore(items: seq<Item>): (r: Maybe<Reason>) {
    if items == [] || items[0].Initialized? then None
    else if items[0].Stop? then Some(StreamStopped)
    else if items[0].Completed? then Some(StreamCompleted)
    else EndBefore(items[1..])
  }

  /** What the deciding item makes of the lookup. */
  predicate Decided(key: Key, item: Item, outcome: Outcome) {
    match item
    case StorageItems(_, items) =>
      if outcome.Account? then Finds(key, Some(item), outcome.value)
      else
        && outcome == Failure(NoAccount)
        && forall i :: 0 <= i < |items| && FirstUnder(items, key, i) ==> items[i].value in {None, Some("")}
    case StorageDone(_) => outcome == Failure(NoAccount)
    case OperationError(_, m) => outcome == Failure(OperationFailed(m))
    case OperationInaccessible(_) => outcome == Failure(Inaccessible)
    case Stop => outcome == Failure(StreamStopped)
    case Completed => outcome == Failure(StreamCompleted)
    case _ => false
  }

  lemma HandlingDecides(l: Lookup, key: Key, id: Id, item: Item)
    requires l.outcome == None && l.operation == Some(id) && Decides(id, item)
    ensures var o := HandleNow(l, key, item).outcome; o.Some? && Decided(key, item, o.value)
  {
    if item.StorageItems? {
      var first := FindsTheFirst(item.items, key);
      var found := FindStorageValue(item.items, key);
      if found.Some? {
        FoundIsFinds(id, item.items, key, found.value);
      }
      hide Finds, FindStorageValue;
    }
  }

  lemma {:induction false} DecidedAfterStart(l: Lookup, key: Key, id: Id, items: seq<Item>)
    requires l.outcome == None && l.operation == Some(id) && l.unsubscribes == 0 && Asked(items) == 0
    ensures var o, decision := InOrder(l, key, items, []).outcome, FirstDecision(id, items);
            if decision.None? then o == None else o.Some? && Decided(key, decision.value, o.value)
    decreases |items|
  {
    hide Decided;
    if items == [] {
    } else if Decides(id, items[0]) {
      HandlingDecides(l, key, id, items[0]);
      InOrderSettlesOnce(HandleNow(l, key, items[0]), key, items[1..], []);
    } else {
      DecidedAfterStart(l, key, id, items[1..]);
    }
  }

  /** The outcome of a lookup with one `Initialized`, read off the items and the response. */
  predicate Outcomes(key: Key, items: seq<Item>, responses: seq<Response>, outcome: Maybe<Outcome>) {
    if EndBefore(items).Some? then outcome == Some(Failure(EndBefore(items).value))
    else if responses == [] || AfterInitialized(items).None? then outcome == None
    else
      match responses[0]
      case Refused(m) => outcome == Some(Failure(HostError(m)))
      case LimitReached => outcome == Some(Failure(LimitHit))
      case Threw(m) => outcome == Some(Failure(HandlerThrew(m)))
      case Started(id) =>
        var decision := FirstDecision(id, AfterInitialized(items).value);
        if decision.None? then outcome == None else outcome.Some? && Decided(key, decision.value, outcome.value)
  }

  lemma {:induction false} InOrderOutcome(key: Key, items: seq<Item>, responses: seq<Response>)
    requires Asked(items) <= 1 && |responses| <= Asked(items)
    ensures Outcomes(key, items, responses, InOrder(UNSETTLED, key, items, responses).outcome)
    decreases |items|
  {
    hide Decided;
    if items == [] {
    } else if items[0].Initialized? {
      if responses != [] {
        var l := OnResponse(UNSETTLED, responses[0]);
        assert responses[1..] == [];
        if responses[0].Started? {
          DecidedAfterStart(l, key, responses[0].id, items[1..]);
        } else {
          InOrderSettlesOnce(l, key, items[1..], []);
        }
      }
    } else if items[0].Stop? || items[0].Completed? {
      InOrderSettlesOnce(HandleNow(UNSETTLED, key, items[0]), key, items[1..], responses);
    } else {
      InOrderOutcome(key, items[1..], responses);
    }
  }

  /** The full account: success or failure, and for which reason, whatever the order of arrivals and responses. */
  lemma LookupOutcome(key: Key, events: seq<Event>)
    requires var s := Run(START, key, events);
             s.queue == [] && !s.awaiting && !s.errored && Asked(s.arrived) <= 1
    ensures var s := Run(START, key, events); Outcomes(key, s.arrived, s.responses, s.lookup.outcome)
  {
    hide Run, InOrder, Asked, Outcomes;
    QuiescentRunsAreSequential(key, events);
    StartIsSerialised(key);
    RunIsSerialised(START, key, events);
    var s := Run(START, key, events);
    assert Begun(s) == s.arrived;
    InOrderOutcome(key, s.arrived, s.responses);
  }

  /** An error of the stream settles an open lookup at once, whatever is still queued, and nothing settles it again. */
  lemma StreamErrorSettles(key: Key, before: seq<Event>, message: string, after: seq<Event>)
    requires Run(START, key, before).lookup.outcome == None
    ensures var l := Run(Step(Run(START, key, before), key, StreamError(message)), key, after).lookup;
            l.outcome == Some(Failure(HostError(message))) && l.unsubscribes == 1
  {
    SettlesOnce(START, key, before);
    SettlesOnce(Step(Run(START, key, before), key, StreamError(message)), key, after);
  }

  /** In any run at all, stream errors and unhandled items included, a success is one the sequential reading gives. */
  lemma SuccessIsSequential(key: Key, events: seq<Event>, v: string)
    requires Run(START, key, events).lookup.outcome == Some(Account(v))
    ensures var s := Run(START, key, events);
            && |s.queue| <= |s.arrived|
            && InOrder(UNSETTLED, key, Begun(s), s.responses).outcome == Some(Account(v))
  {
    RunIsSerialised(START, key, events);
  }
}

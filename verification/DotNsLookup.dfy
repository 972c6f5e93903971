/** The DotNS lookup as it is coded: the variables its handlers share, and the queue they are chained through. */
module DotNsLookup {
  import opened Optionals
  import opened DotNs

  class Promise {
    const key: Key
    var operationId: Maybe<Id>
    var outcome: Maybe<Outcome>
    var unsubscribes: nat
    var eventQueue: seq<Item>
    var awaiting: bool
    ghost var arrived: seq<Item>
    ghost var responses: seq<Response>
    ghost var errored: bool

    ghost function Contents(): (s: State)
      reads this
    {
      State(Lookup(operationId, outcome, unsubscribes), eventQueue, awaiting, arrived, responses, errored)
    }

    constructor (key: Key)
      ensures Contents() == START && this.key == key
    {
      this.key := key;
      operationId, outcome, unsubscribes, eventQueue, awaiting := None, None, 0, [], false;
      arrived, responses, errored := [], [], false;
    }

    method FailWith(reason: Reason)
      modifies this`outcome, this`unsubscribes
      ensures Contents().lookup == Fail(old(Contents().lookup), reason)
    {
      if outcome.Some? {
        return;
      }
      outcome := Some(Failure(reason));
      unsubscribes := unsubscribes + 1;
    }

    method Succeed(account: string)
      modifies this`outcome, this`unsubscribes
      ensures Contents().lookup == Settle(old(Contents().lookup), Account(account))
    {
      if outcome.Some? {
        return;
      }
      outcome := Some(Account(account));
      unsubscribes := unsubscribes + 1;
    }

    method FindValue(items: seq<Entry>) returns (value: Maybe<string>)
      ensures forall i :: FirstUnder(items, key, i) ==> value == items[i].value
      ensures (forall i :: 0 <= i < |items| ==> items[i].key != key) ==> value == None
      ensures value == FindStorageValue(items, key)
    {
      ghost var first := FindsTheFirst(items, key);
      for i := 0 to |items|
        invariant forall j :: 0 <= j < i ==> items[j].key != key
      {
        if items[i].key == key {
          assert FirstUnder(items, key, i);
          return items[i].value;
        }
      }
      value := None;
    }

    /** The handler of one item; with `Initialized` it ends at its `await`. */
    method HandleItem(item: Item)
      modifies this`outcome, this`unsubscribes, this`awaiting
      ensures item.Initialized? ==> awaiting && Contents().lookup == old(Contents().lookup)
      ensures !item.Initialized? ==>
                awaiting == old(awaiting) && Contents().lookup == HandleNow(old(Contents().lookup), key, item)
    {
      match item {
        case Initialized =>
          awaiting := true;
        case StorageItems(id, items) =>
          if Some(id) == operationId {
            var account := FindValue(items);
            if account.None? || account.value == "" {
              FailWith(NoAccount);
              return;
            }
            Succeed(account.value);
          }
        case StorageDone(id) =>
          if Some(id) == operationId {
            FailWith(NoAccount);
          }
        case OperationError(id, message) =>
          if Some(id) == operationId {
            FailWith(OperationFailed(message));
          }
        case OperationInaccessible(id) =>
          if Some(id) == operationId {
            FailWith(Inaccessible);
          }
        case Stop =>
          FailWith(StreamStopped);
        case Completed =>
          FailWith(StreamCompleted);
        case Other =>
      }
    }

    /** Behind the `await`, up to where the queue may move on. */
    method ResumeWith(result: Response)
      requires awaiting
      modifies this`operationId, this`outcome, this`unsubscribes, this`awaiting, this`responses
      ensures Contents() == Step(old(Contents()), key, Respond(result))
    {
      awaiting := false;
      responses := responses + [result];
      match result {
        case Refused(message) =>
          FailWith(HostError(message));
        case LimitReached =>
          FailWith(LimitHit);
        case Started(id) =>
          operationId := Some(id);
        case Threw(message) =>
          FailWith(HandlerThrew(message));
      }
    }

    /** `next` and `complete` only extend the queue. */
    method OnNext(item: Item)
      modifies this`eventQueue, this`arrived
      ensures Contents() == Step(old(Contents()), key, Arrive(item))
    {
      eventQueue := eventQueue + [item];
      arrived := arrived + [item];
    }

    method OnError(message: string)
      modifies this`outcome, this`unsubscribes, this`errored
      ensures Contents() == Step(old(Contents()), key, StreamError(message))
    {
      errored := true;
      FailWith(HostError(message));
    }

    /** The queue runs handler after handler until it is empty or one awaits: as many `Dispatch` steps as it took. */
    method RunQueue() returns (ghost dispatched: seq<Event>)
      requires !awaiting
      modifies this`outcome, this`unsubscribes, this`awaiting, this`eventQueue
      ensures Contents() == Run(old(Contents()), key, dispatched)
      ensures forall e :: e in dispatched ==> e == Dispatch
      ensures awaiting || eventQueue == []
    {
      dispatched := [];
      while !awaiting && eventQueue != []
        invariant Contents() == Run(old(Contents()), key, dispatched)
        invariant forall e :: e in dispatched ==> e == Dispatch
        decreases |eventQueue|
      {
        RunAppends(old(Contents()), key, dispatched, Dispatch);
        var item := eventQueue[0];
        eventQueue := eventQueue[1..];
        HandleItem(item);
        dispatched := dispatched + [Dispatch];
      }
    }
  }

  lemma {:induction false} RunAppends(s: State, key: Key, events: seq<Event>, e: Event)
    ensures var end := Run(s, key, events);
            Run(s, key, events + [e]) == if Possible(end, e) then Step(end, key, e) else end
    decreases |events|
  {
    if events == [] {
      assert [e][1..] == [];
    } else {
      assert (events + [e])[1..] == events[1..] + [e];
      RunAppends(if Possible(s, events[0]) then Step(s, key, events[0]) else s, key, events[1..], e);
    }
  }
}

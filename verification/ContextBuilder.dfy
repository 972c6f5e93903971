/** The closures of `buildTransactionContext`, updating the variables they share. */
module ContextBuilder {
  import opened Optionals
  import opened ChainHead
  import opened TransactionContext
  import opened TransactionOutcome

  class Builder {
    const decoders: Decoders
    var subscribed: bool
    var closed: bool
    var initialized: bool
    var settled: bool
    var joined: bool
    var completedOperations: map<Id, Result<Hex>>
    var operationWaiters: map<Id, Slot>
    var metadata: Call
    var nonce: Call
    var runtime: Maybe<Runtime>
    var outcome: Maybe<Result<Context>>
    var unsubscribes: nat
    var unpins: nat
    ghost var terminals: map<Id, Result<Hex>>

    ghost function Contents(): (s: State)
      reads this
    {
      State(Rendezvous(completedOperations, operationWaiters, metadata, nonce, terminals),
            subscribed, closed, initialized, joined, settled, runtime, outcome, unsubscribes, unpins)
    }

    constructor (decoders: Decoders)
      ensures this.decoders == decoders && Contents() == INITIAL
    {
      this.decoders := decoders;
      subscribed, closed, initialized, settled, joined := false, false, false, false, false;
      completedOperations, operationWaiters := map[], map[];
      metadata, nonce := FRESH, FRESH;
      runtime, outcome := None, None;
      unsubscribes, unpins := 0, 0;
      terminals := map[];
    }

    method SettlePromise(result: Result<Context>)
      modifies this
      ensures Contents() == Settle(old(Contents()), result)
    {
      if settled {
        return;
      }
      settled := true;
      if subscribed {
        unsubscribes := unsubscribes + 1;
      }
      outcome := Some(result);
    }

    method SetCall(slot: Slot, c: Call)
      modifies this`metadata, this`nonce
      ensures Contents().ops == old(Contents()).ops.With(slot, c)
    {
      match slot {
        case MetadataCall => metadata := c;
        case NonceCall => nonce := c;
      }
    }

    method FinishOperation(id: Id, result: Result<Hex>)
      modifies this
      ensures Contents() == old(Contents()).(ops := AfterFinish(old(Contents()).ops, id, result))
    {
      hide Receive;
      ghost var o := Contents().ops;
      if id in operationWaiters {
        var waiter := operationWaiters[id];
        operationWaiters := operationWaiters - {id};
        var call := if waiter.MetadataCall? then metadata else nonce;
        assert call == o.At(waiter) && Contents().ops == o.(waiters := o.waiters - {id});
        SetCall(waiter, Receive(call, result));
      } else {
        completedOperations := completedOperations[id := result];
      }
      assert Contents().ops == ChainHead.FinishOperation(o, id, result);
      terminals := terminals[id := result];
    }

    method WaitForOperation(slot: Slot, id: Id)
      modifies this
      ensures Contents() == old(Contents()).(ops := ChainHead.WaitForOperation(old(Contents()).ops, slot, id))
    {
      var call := if slot.MetadataCall? then metadata else nonce;
      if id in completedOperations {
        var completed := completedOperations[id];
        completedOperations := completedOperations - {id};
        SetCall(slot, Receive(call, completed));
      } else {
        operationWaiters := operationWaiters[id := slot];
        SetCall(slot, call.(progress := Awaiting(id)));
      }
    }

    /** `callHead` up to its `await`. */
    method StartCall(slot: Slot)
      modifies this
      ensures Contents() == CallHead(old(Contents()), slot)
    {
      var call := if slot.MetadataCall? then metadata else nonce;
      if !subscribed {
        SetCall(slot, call.(progress := Delivered(Err(NotSubscribed))));
      } else {
        SetCall(slot, call.(progress := Requested));
      }
    }

    /** `callHead` from its `await` on. */
    method ResumeCall(slot: Slot, response: Response)
      modifies this
      ensures Contents() == old(Contents()).(ops := ChainHead.OnResponse(old(Contents()).ops, slot, response))
    {
      var call := if slot.MetadataCall? then metadata else nonce;
      match response {
        case Refused(e) => SetCall(slot, call.(progress := Delivered(Err(e))));
        case LimitReached => SetCall(slot, call.(progress := Delivered(Err(CallLimit))));
        case Started(id) => WaitForOperation(slot, id);
      }
    }

    /** The same, with the response recorded. */
    method OnResponse(slot: Slot, response: Response)
      modifies this
      ensures Contents() == old(Contents()).(ops := AfterResponse(old(Contents()).ops, slot, response))
    {
      hide ChainHead.OnResponse;
      ResumeCall(slot, response);
      var answered := if slot.MetadataCall? then metadata else nonce;
      SetCall(slot, answered.(response := Some(response)));
    }

    method OnInitialized(hash: Maybe<Hex>, runtimeSpec: Result<Runtime>)
      modifies this
      ensures Contents() == HandleInitialized(old(Contents()), hash, runtimeSpec)
    {
      if initialized {
        return;
      }
      initialized := true;
      if hash.None? {
        SettlePromise(Err(NoFinalizedHash));
        return;
      }
      match runtimeSpec {
        case Err(e) => SettlePromise(Err(e));
        case Ok(spec) =>
          runtime := Some(spec);
          StartCall(MetadataCall);
          StartCall(NonceCall);
      }
    }

    /** The rest of `handleInitialized`, after `Promise.all`. */
    method OnBothResults()
      requires BothDelivered(Contents())
      modifies this
      ensures Contents() == OnJoined(decoders, old(Contents()))
      ensures !old(settled) ==>
                && outcome.Some?
                && Comes(decoders, old(metadata.progress.result), old(nonce.progress.result), old(runtime.value),
                         outcome.value)
                && unpins == old(unpins) + (if outcome.value.Ok? && subscribed then 1 else 0)
    {
      joined := true;
      var metadataResult, nonceResult := metadata.progress.result, nonce.progress.result;
      if metadataResult.Err? {
        SettlePromise(Err(metadataResult.error));
        return;
      }
      if nonceResult.Err? {
        SettlePromise(Err(nonceResult.error));
        return;
      }
      var rawMetadata := decoders.unwrapMetadata(metadataResult.value);
      if rawMetadata.Err? {
        SettlePromise(Err(rawMetadata.error));
        return;
      }
      var decodedNonce := decoders.nonceOf(nonceResult.value);
      if decodedNonce.Err? {
        SettlePromise(Err(decodedNonce.error));
        return;
      }
      if subscribed {
        unpins := unpins + 1;
      }
      SettlePromise(Ok(Context(rawMetadata.value, decodedNonce.value, runtime.value)));
    }

    /** One event of the host, as long as it can happen here. */
    method Handle(e: Event)
      requires Possible(Contents(), e)
      modifies this
      ensures Contents() == Step(decoders, old(Contents()), e)
    {
      hide HandleInitialized, OnJoined, AfterResponse, AfterFinish;
      match e {
        case Subscribed =>
          subscribed := true;
        case Initialized(hash, runtimeSpec) =>
          OnInitialized(hash, runtimeSpec);
        case Responded(slot, response) =>
          OnResponse(slot, response);
        case Finished(id, result) =>
          FinishOperation(id, result);
        case Stopped(reason) =>
          SettlePromise(Err(reason));
        case Closed(reason) =>
          closed := true;
          SettlePromise(Err(reason));
        case Joined =>
          OnBothResults();
      }
    }
  }

  /** A builder fed with the events of the host; `settled` is what the caller of the promise sees. */
  method BuildContext(decoders: Decoders, events: seq<Event>)
    returns (builder: Builder, settled: Maybe<Result<Context>>)
    requires forall k :: 0 <= k < |events| ==> Possible(Run(decoders, INITIAL, events[..k]), events[k])
    ensures fresh(builder) && builder.Contents() == Run(decoders, INITIAL, events)
    ensures settled == Run(decoders, INITIAL, events).outcome
    ensures Inv(decoders, builder.Contents())
    ensures settled.Some? <==> exists k: nat :: Settling(decoders, events, k)
    ensures settled.Some? ==>
              exists k: nat :: FirstSettling(decoders, events, k) && Gives(decoders, events, k, settled.value)
    ensures settled.Some? && settled.value.Ok? ==> Holds(decoders, events, settled.value.value)
  {
    builder := new Builder(decoders);
    hide Step, Possible, Paired;
    for k := 0 to |events|
      invariant builder.decoders == decoders && fresh(builder)
      invariant builder.Contents() == Run(decoders, INITIAL, events[..k])
    {
      assert events[..k + 1] == events[..k] + [events[k]];
      RunAppends(decoders, INITIAL, events[..k], [events[k]]);
      RunOne(decoders, Run(decoders, INITIAL, events[..k]), events[k]);
      builder.Handle(events[k]);
    }
    assert events[..|events|] == events;
    InitialIsFine(decoders);
    RunKeepsInv(decoders, INITIAL, events);
    settled := builder.outcome;
    OutcomeOfEvents(decoders, events);
  }

  lemma RunOne(d: Decoders, s: State, e: Event)
    requires Possible(s, e)
    ensures Run(d, s, [e]) == Step(d, s, e)
  {
    hide Possible, Step;
    assert [e][1..] == [];
  }

  lemma InitialIsFine(d: Decoders)
    ensures Inv(d, INITIAL)
  {
  }
}

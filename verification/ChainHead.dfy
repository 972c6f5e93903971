/**
  The heart of `buildTransactionContext`: two runtime calls whose unary responses race with the follow
  events that carry their results, paired up by operation id.
 */
module ChainHead {
  import opened Optionals

  datatype Id = Id(text: string)
  datatype Hex = Hex(text: string)
  datatype Error = NotSubscribed | CallLimit | NoFinalizedHash | OtherError(message: string)

  datatype Result<+T> = Ok(value: T) | Err(error: Error)

  // ---------------------------------------------------------------------------------------------
  // The rendezvous of responses and terminal events
  // ---------------------------------------------------------------------------------------------

  /** The two calls made once the head is initialized. */
  datatype Slot = MetadataCall | NonceCall

  datatype Response = Refused(error: Error) | LimitReached | Started(id: Id)

  datatype Progress = NotCalled | Requested | Awaiting(id: Id) | Delivered(result: Result<Hex>)

  /** One of the two calls; `response` and `deliveries` record what happened to it. */
  datatype Call = Call(progress: Progress, response: Maybe<Response>, deliveries: nat)

  /** Both maps and both calls; `terminals` records the terminal events sent so far. */
  datatype Rendezvous = Rendezvous(
    completed: map<Id, Result<Hex>>, waiters: map<Id, Slot>, metadata: Call, nonce: Call,
    terminals: map<Id, Result<Hex>>)
  {
    function At(slot: Slot): (c: Call) { if slot.MetadataCall? then metadata else nonce }

    function With(slot: Slot, c: Call): (r: Rendezvous) {
      if slot.MetadataCall? then this.(metadata := c) else this.(nonce := c)
    }

    predicate StartedSomewhere(id: Id) {
      metadata.response == Some(Started(id)) || nonce.response == Some(Started(id))
    }
  }

  /** The waiter of a call resolves its promise: the result is delivered. */
  function Receive(c: Call, result: Result<Hex>): (r: Call) {
    c.(progress := Delivered(result), deliveries := c.deliveries + 1)
  }

  function FinishOperation(o: Rendezvous, id: Id, result: Result<Hex>): (r: Rendezvous) {
    if id in o.waiters then
      o.(waiters := o.waiters - {id}).With(o.waiters[id], Receive(o.At(o.waiters[id]), result))
    else o.(completed := o.completed[id := result])
  }

  function WaitForOperation(o: Rendezvous, slot: Slot, id: Id): (r: Rendezvous) {
    if id in o.completed then
      o.(completed := o.completed - {id}).With(slot, Receive(o.At(slot), o.completed[id]))
    else o.(waiters := o.waiters[id := slot]).With(slot, o.At(slot).(progress := Awaiting(id)))
  }

  /** `callHead` from its response on. */
  function OnResponse(o: Rendezvous, slot: Slot, response: Response): (r: Rendezvous) {
    match response
    case Refused(e) => o.With(slot, o.At(slot).(progress := Delivered(Err(e))))
    case LimitReached => o.With(slot, o.At(slot).(progress := Delivered(Err(CallLimit))))
    case Started(id) => WaitForOperation(o, slot, id)
  }

  /** The same steps with the host's words recorded. */
  function AfterResponse(o: Rendezvous, slot: Slot, response: Response): (r: Rendezvous) {
    var next := OnResponse(o, slot, response);
    next.With(slot, next.At(slot).(response := Some(response)))
  }

  function AfterFinish(o: Rendezvous, id: Id, result: Result<Hex>): (r: Rendezvous) {
    FinishOperation(o, id, result).(terminals := o.terminals[id := result])
  }

  /** Where a call has to stand, going by what the host has said and by nothing else. */
  function Expected(response: Response, terminals: map<Id, Result<Hex>>): (p: Progress) {
    match response
    case Refused(e) => Delivered(Err(e))
    case LimitReached => Delivered(Err(CallLimit))
    case Started(id) => if id in terminals then Delivered(terminals[id]) else Awaiting(id)
  }

  predicate CallMatches(c: Call, terminals: map<Id, Result<Hex>>) {
    && (c.response.Some? ==> c.progress == Expected(c.response.value, terminals))
    && (c.response.None? ==>
          c.progress == NotCalled || c.progress == Requested || c.progress == Delivered(Err(NotSubscribed)))
    && c.deliveries ==
       (if c.response.Some? && c.response.value.Started? && c.response.value.id in terminals then 1 else 0)
  }

  /** Both maps hold exactly what they are for: open waiters, and results nobody has asked for yet. */
  ghost predicate MapsMatch(o: Rendezvous) {
    && (forall id :: id in o.waiters <==> o.StartedSomewhere(id) && id !in o.terminals)
    && (forall id :: id in o.waiters ==> o.At(o.waiters[id]).response == Some(Started(id)))
    && (forall id :: id in o.completed <==> id in o.terminals && !o.StartedSomewhere(id))
    && (forall id :: id in o.completed ==> o.completed[id] == o.terminals[id])
  }

  /** The two calls were not given the same operation. */
  predicate IdsDistinct(o: Rendezvous) {
    o.metadata.response.Some? && o.metadata.response.value.Started? ==> o.nonce.response != o.metadata.response
  }

  ghost predicate Paired(o: Rendezvous) {
    && CallMatches(o.metadata, o.terminals)
    && CallMatches(o.nonce, o.terminals)
    && MapsMatch(o)
    && IdsDistinct(o)
  }

  /** One answer for each request, and an operation of its own for each call. */
  predicate MayRespond(o: Rendezvous, slot: Slot, r: Response) {
    o.At(slot).progress == Requested && (r.Started? ==> !o.StartedSomewhere(r.id))
  }

  /** One terminal event for each operation. */
  predicate MayFinish(o: Rendezvous, id: Id) { id !in o.terminals }

  lemma ResponseEffect(o: Rendezvous, slot: Slot, r: Response)
    requires Paired(o) && MayRespond(o, slot, r)
    ensures var next := AfterResponse(o, slot, r);
            && next.At(slot) ==
               Call(Expected(r, o.terminals), Some(r), if r.Started? && r.id in o.terminals then 1 else 0)
            && (forall other :: other != slot ==> next.At(other) == o.At(other))
            && o.At(slot).response == None
  {
  }

  lemma ResponseKeepsPaired(o: Rendezvous, slot: Slot, r: Response)
    requires Paired(o) && MayRespond(o, slot, r)
    ensures Paired(AfterResponse(o, slot, r))
  {
    ResponseEffect(o, slot, r);
    var next := AfterResponse(o, slot, r);
    assert next.At(MetadataCall) == next.metadata && next.At(NonceCall) == next.nonce;
    assert o.At(MetadataCall) == o.metadata && o.At(NonceCall) == o.nonce;
    assert forall id :: next.StartedSomewhere(id) <==> o.StartedSomewhere(id) || r == Started(id);
  }

  lemma FinishEffect(o: Rendezvous, id: Id, result: Result<Hex>, slot: Slot)
    requires Paired(o) && MayFinish(o, id)
    ensures AfterFinish(o, id, result).At(slot) ==
            if o.At(slot).response == Some(Started(id)) then Receive(o.At(slot), result) else o.At(slot)
  {
  }

  lemma FinishMoves(o: Rendezvous, id: Id, result: Result<Hex>)
    ensures var next := AfterFinish(o, id, result);
            && next.terminals == o.terminals[id := result] && next.waiters == o.waiters - {id}
            && next.completed == if id in o.waiters then o.completed else o.completed[id := result]
  {
    if id !in o.waiters {
      assert o.waiters - {id} == o.waiters;
    }
  }

  lemma FinishKeepsMaps(o: Rendezvous, next: Rendezvous, id: Id, result: Result<Hex>)
    requires MapsMatch(o) && MayFinish(o, id)
    requires next.terminals == o.terminals[id := result] && next.waiters == o.waiters - {id}
    requires next.completed == if id in o.waiters then o.completed else o.completed[id := result]
    requires next.metadata.response == o.metadata.response && next.nonce.response == o.nonce.response
    ensures MapsMatch(next)
  {
    assert forall i :: next.StartedSomewhere(i) <==> o.StartedSomewhere(i);
    assert forall slot: Slot :: next.At(slot).response == o.At(slot).response;
  }

  lemma FinishKeepsCalls(o: Rendezvous, next: Rendezvous, id: Id, result: Result<Hex>)
    requires CallMatches(o.metadata, o.terminals) && CallMatches(o.nonce, o.terminals) && MayFinish(o, id)
    requires next.terminals == o.terminals[id := result]
    requires next.metadata ==
             if o.metadata.response == Some(Started(id)) then Receive(o.metadata, result) else o.metadata
    requires next.nonce == if o.nonce.response == Some(Started(id)) then Receive(o.nonce, result) else o.nonce
    ensures CallMatches(next.metadata, next.terminals) && CallMatches(next.nonce, next.terminals)
  {
  }

  lemma FinishKeepsPaired(o: Rendezvous, id: Id, result: Result<Hex>)
    requires Paired(o) && MayFinish(o, id)
    ensures Paired(AfterFinish(o, id, result))
  {
    FinishEffect(o, id, result, MetadataCall);
    FinishEffect(o, id, result, NonceCall);
    FinishMoves(o, id, result);
    hide MapsMatch, FinishOperation, CallMatches, AfterFinish;
    var next := AfterFinish(o, id, result);
    assert next.At(MetadataCall) == next.metadata && next.At(NonceCall) == next.nonce;
    assert o.At(MetadataCall) == o.metadata && o.At(NonceCall) == o.nonce;
    FinishKeepsMaps(o, next, id, result);
    FinishKeepsCalls(o, next, id, result);
  }
}

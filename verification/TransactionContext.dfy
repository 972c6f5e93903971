/**
  `buildTransactionContext` as a whole: the subscription, the two calls and the promise. Handlers run to
  completion one at a time, in any order the host produces.
 */
module TransactionContext {
  import opened Optionals
  import opened ChainHead

  datatype Runtime = Runtime(specVersion: nat, transactionVersion: nat)

  datatype Context = Context(metadata: seq<int>, nonce: nat, runtime: Runtime)

  /** Decoding the outputs is left to libraries; a failure or exception there is an `Err`. */
  datatype Decoders = Decoders(unwrapMetadata: Hex -> Result<seq<int>>, nonceOf: Hex -> Result<nat>)

  datatype Event =
    | Subscribed                                                // `subscribe` returned; until then all is synchronous
    | Initialized(hash: Maybe<Hex>, runtime: Result<Runtime>)
    | Responded(slot: Slot, response: Response)
    | Finished(id: Id, result: Result<Hex>)                     // call done, operation error or inaccessible
    | Stopped(reason: Error)                                    // a stop item; the stream itself stays open
    | Closed(reason: Error)                                     // stream error or completion
    | Joined                                                    // `Promise.all` of both calls continues

  datatype State = State(
    ops: Rendezvous, subscribed: bool, closed: bool, initialized: bool, joined: bool, settled: bool,
    runtime: Maybe<Runtime>, outcome: Maybe<Result<Context>>, unsubscribes: nat, unpins: nat)

  const FRESH := Call(NotCalled, None, 0)
  const INITIAL := State(
    Rendezvous(map[], map[], FRESH, FRESH, map[]), false, false, false, false, false, None, None, 0, 0)

  function Settle(s: State, result: Result<Context>): (r: State) {
    if s.settled then s
    else s.(settled := true, outcome := Some(result), unsubscribes := s.unsubscribes + if s.subscribed then 1 else 0)
  }

  /** What `callHead` does up to its first `await`. */
  function CallHead(s: State, slot: Slot): (r: State) {
    var p := if s.subscribed then Requested else Delivered(Err(NotSubscribed));
    s.(ops := s.ops.With(slot, s.ops.At(slot).(progress := p)))
  }

  function HandleInitialized(s: State, hash: Maybe<Hex>, runtime: Result<Runtime>): (r: State) {
    if s.initialized then s
    else
      var s := s.(initialized := true);
      if hash.None? then Settle(s, Err(NoFinalizedHash))
      else if runtime.Err? then Settle(s, Err(runtime.error))
      else CallHead(CallHead(s.(runtime := Some(runtime.value)), MetadataCall), NonceCall)
  }

  predicate BothDelivered(s: State) {
    s.ops.metadata.progress.Delivered? && s.ops.nonce.progress.Delivered? && s.runtime.Some?
  }

  function Built(d: Decoders, metadata: Result<Hex>, nonce: Result<Hex>, runtime: Runtime): (r: Result<Context>) {
    if metadata.Err? then Err(metadata.error)
    else if nonce.Err? then Err(nonce.error)
    else
      var raw := d.unwrapMetadata(metadata.value);
      if raw.Err? then Err(raw.error)
      else
        var n := d.nonceOf(nonce.value);
        if n.Err? then Err(n.error) else Ok(Context(raw.value, n.value, runtime))
  }

  function BuiltFrom(d: Decoders, s: State): (r: Result<Context>)
    requires BothDelivered(s)
  {
    Built(d, s.ops.metadata.progress.result, s.ops.nonce.progress.result, s.runtime.value)
  }

  /** What the results of both calls come to: the first failure in this order, or a context of their decodings. */
  predicate Comes(d: Decoders, metadata: Result<Hex>, nonce: Result<Hex>, runtime: Runtime, out: Result<Context>) {
    && (metadata.Err? ==> out == Err(metadata.error))
    && (metadata.Ok? && nonce.Err? ==> out == Err(nonce.error))
    && (metadata.Ok? && nonce.Ok? ==>
          var m, n := d.unwrapMetadata(metadata.value), d.nonceOf(nonce.value);
          && (m.Err? ==> out == Err(m.error))
          && (m.Ok? && n.Err? ==> out == Err(n.error))
          && (m.Ok? && n.Ok? ==>
                out.Ok? && m == Ok(out.value.metadata) && n == Ok(out.value.nonce) && out.value.runtime == runtime))
  }

  lemma BuiltComes(d: Decoders, metadata: Result<Hex>, nonce: Result<Hex>, runtime: Runtime)
    ensures Comes(d, metadata, nonce, runtime, Built(d, metadata, nonce, runtime))
  {
  }

  /** The rest of `handleInitialized`, once both calls have their results; the block is unpinned on success. */
  function OnJoined(d: Decoders, s: State): (r: State)
    requires BothDelivered(s)
  {
    var result := BuiltFrom(d, s);
    Settle(s.(joined := true, unpins := s.unpins + if result.Ok? && s.subscribed then 1 else 0), result)
  }

  // ---------------------------------------------------------------------------------------------
  // Runs
  // ---------------------------------------------------------------------------------------------

  /** What the host may do next. */
  predicate Possible(s: State, e: Event) {
    match e
    case Subscribed => !s.subscribed
    case Responded(slot, r) => MayRespond(s.ops, slot, r)
    case Finished(id, _) => MayFinish(s.ops, id)
    case Joined => s.subscribed && !s.joined && BothDelivered(s) // later than everything synchronous
    case _ => true
  }

  function Step(d: Decoders, s: State, e: Event): (r: State)
    requires Possible(s, e)
  {
    match e
    case Subscribed => s.(subscribed := true)
    case Initialized(hash, runtime) => HandleInitialized(s, hash, runtime)
    case Responded(slot, r) => s.(ops := AfterResponse(s.ops, slot, r))
    case Finished(id, result) => s.(ops := AfterFinish(s.ops, id, result))
    case Stopped(reason) => Settle(s, Err(reason))
    case Closed(reason) => Settle(s.(closed := true), Err(reason))
    case Joined => OnJoined(d, s)
  }

  /** A run; events that the host cannot produce are skipped. */
  function Run(d: Decoders, s: State, events: seq<Event>): (r: State)
    decreases |events|
  {
    if events == [] then s
    else Run(d, if Possible(s, events[0]) then Step(d, s, events[0]) else s, events[1..])
  }

  predicate SettlementMatches(d: Decoders, s: State) {
    && (s.settled <==> s.outcome.Some?)
    && s.unsubscribes <= (if s.settled && s.subscribed then 1 else 0)
    && (s.joined ==> s.settled && BothDelivered(s))
    && (s.settled && s.outcome.value.Ok? ==> s.joined && BothDelivered(s) && s.outcome.value == BuiltFrom(d, s))
    && (!s.initialized ==> s.runtime == None && s.ops.metadata.progress == NotCalled
                            && s.ops.nonce.progress == NotCalled)
  }

  ghost predicate Inv(d: Decoders, s: State) { Paired(s.ops) && SettlementMatches(d, s) }

  lemma CallHeadKeepsPaired(s: State, slot: Slot)
    requires Paired(s.ops) && s.ops.At(slot).progress == NotCalled
    ensures Paired(CallHead(s, slot).ops)
  {
    var next := CallHead(s, slot).ops;
    assert s.ops.At(slot).response == None;
    assert forall id :: next.StartedSomewhere(id) <==> s.ops.StartedSomewhere(id);
    assert forall other :: next.At(other).response == s.ops.At(other).response;
  }

  lemma InitializedKeepsInv(d: Decoders, s: State, hash: Maybe<Hex>, runtime: Result<Runtime>)
    requires Inv(d, s)
    ensures Inv(d, HandleInitialized(s, hash, runtime))
  {
    hide Paired, BuiltFrom;
    if !s.initialized && hash.Some? && runtime.Ok? {
      var called := s.(initialized := true, runtime := Some(runtime.value));
      CallHeadKeepsPaired(called, MetadataCall);
      CallHeadKeepsPaired(CallHead(called, MetadataCall), NonceCall);
    }
  }

  lemma StepKeepsInv(d: Decoders, s: State, e: Event)
    requires Inv(d, s) && Possible(s, e)
    ensures Inv(d, Step(d, s, e))
  {
    match e
    case Initialized(hash, runtime) => InitializedKeepsInv(d, s, hash, runtime);
    case Responded(slot, r) =>
      ResponseKeepsPaired(s.ops, slot, r);
      PairingKeepsSettlement(d, s, AfterResponse(s.ops, slot, r));
    case Finished(id, r) =>
      FinishKeepsPaired(s.ops, id, r);
      PairingKeepsSettlement(d, s, AfterFinish(s.ops, id, r));
    case _ =>
  }

  lemma PairingKeepsSettlement(d: Decoders, s: State, o: Rendezvous)
    requires Inv(d, s)
    requires (exists slot, r :: MayRespond(s.ops, slot, r) && o == AfterResponse(s.ops, slot, r))
             || (exists id, r :: MayFinish(s.ops, id) && o == AfterFinish(s.ops, id, r))
    ensures SettlementMatches(d, s.(ops := o))
  {
    assert s.ops.At(MetadataCall) == s.ops.metadata && s.ops.At(NonceCall) == s.ops.nonce;
    assert o.At(MetadataCall) == o.metadata && o.At(NonceCall) == o.nonce;
  }

  lemma {:induction false} RunKeepsInv(d: Decoders, s: State, events: seq<Event>)
    requires Inv(d, s)
    ensures Inv(d, Run(d, s, events))
    decreases |events|
  {
    hide Inv;
    if events == [] {
    } else if Possible(s, events[0]) {
      StepKeepsInv(d, s, events[0]);
      RunKeepsInv(d, Step(d, s, events[0]), events[1..]);
    } else {
      RunKeepsInv(d, s, events[1..]);
    }
  }

  // ---------------------------------------------------------------------------------------------
  // What this gives for every interleaving
  // ---------------------------------------------------------------------------------------------

  /**
    Whether the terminal event or the unary response comes first: a call that started an operation is
    delivered that operation's result exactly once, as soon as both are there, and nothing else before
    or after. No id is ever in both maps.
   */
  lemma DeliveredExactlyOnce(d: Decoders, events: seq<Event>, slot: Slot)
    ensures var o := Run(d, INITIAL, events).ops;
            var c := o.At(slot);
            && (c.response.Some? && c.response.value.Started? ==>
                  var id := c.response.value.id;
                  if id in o.terminals then c.progress == Delivered(o.terminals[id]) && c.deliveries == 1
                  else c.progress == Awaiting(id) && c.deliveries == 0 && id in o.waiters && o.waiters[id] == slot)
            && (!(c.response.Some? && c.response.value.Started?) ==> c.deliveries == 0)
            && (forall id :: !(id in o.waiters && id in o.completed))
  {
    RunKeepsInv(d, INITIAL, events);
    var o := Run(d, INITIAL, events).ops;
    assert CallMatches(o.At(slot), o.terminals);
  }

  /** Calls and maps depend on what the host has said, not on the order in which it said it. */
  lemma OrderDoesNotMatter(d: Decoders, first: seq<Event>, second: seq<Event>)
    requires var o, p := Run(d, INITIAL, first).ops, Run(d, INITIAL, second).ops;
             && o.terminals == p.terminals
             && o.metadata.response.Some? && o.nonce.response.Some?
             && o.metadata.response == p.metadata.response && o.nonce.response == p.nonce.response
    ensures Run(d, INITIAL, first).ops == Run(d, INITIAL, second).ops
  {
    RunKeepsInv(d, INITIAL, first);
    RunKeepsInv(d, INITIAL, second);
    SameWordsSameState(Run(d, INITIAL, first).ops, Run(d, INITIAL, second).ops);
  }

  lemma SameWordsSameState(o: Rendezvous, p: Rendezvous)
    requires Paired(o) && Paired(p) && o.terminals == p.terminals
    requires o.metadata.response.Some? && o.nonce.response.Some?
    requires o.metadata.response == p.metadata.response && o.nonce.response == p.nonce.response
    ensures o == p
  {
    assert forall id :: o.StartedSomewhere(id) <==> p.StartedSomewhere(id);
    assert o.completed == p.completed;
    forall id | id in o.waiters
      ensures id in p.waiters && o.waiters[id] == p.waiters[id]
    {
      assert o.At(o.waiters[id]).response == Some(Started(id)) == p.At(p.waiters[id]).response;
    }
    assert o.waiters == p.waiters;
  }

  /** Once both results are in and `subscribe` has returned, the continuation can run, and settles the promise. */
  lemma JoinSettles(d: Decoders, events: seq<Event>)
    requires BothDelivered(Run(d, INITIAL, events))
    ensures var s := Run(d, INITIAL, events);
            var t := if s.subscribed then s else Step(d, s, Subscribed);
            && (s.joined ==> s.settled)
            && (!s.joined ==> Possible(t, Joined) && Step(d, t, Joined).settled)
            && (!s.settled ==>
                  var end := Step(d, t, Joined);
                  && end.outcome.Some?
                  && Comes(d, s.ops.metadata.progress.result, s.ops.nonce.progress.result, s.runtime.value,
                           end.outcome.value)
                  && end.unpins == s.unpins + if end.outcome.value.Ok? then 1 else 0)
  {
    RunKeepsInv(d, INITIAL, events);
    var s := Run(d, INITIAL, events);
    BuiltComes(d, s.ops.metadata.progress.result, s.ops.nonce.progress.result, s.runtime.value);
    hide Comes, Built, Run;
  }

  /** A context is only ever built from the results of the operations the two calls started. */
  lemma ContextHoldsMatchingPair(d: Decoders, events: seq<Event>)
    requires var s := Run(d, INITIAL, events); s.outcome.Some? && s.outcome.value.Ok?
    ensures var s := Run(d, INITIAL, events);
            var m, n := s.ops.metadata.response, s.ops.nonce.response;
            && m.Some? && m.value.Started? && m.value.id in s.ops.terminals
            && n.Some? && n.value.Started? && n.value.id in s.ops.terminals
            && m.value.id != n.value.id
            && s.runtime.Some?
            && Comes(d, s.ops.terminals[m.value.id], s.ops.terminals[n.value.id], s.runtime.value, s.outcome.value)
  {
    RunKeepsInv(d, INITIAL, events);
    var s := Run(d, INITIAL, events);
    assert CallMatches(s.ops.metadata, s.ops.terminals) && CallMatches(s.ops.nonce, s.ops.terminals);
    var m, n := s.ops.metadata.response.value.id, s.ops.nonce.response.value.id;
    BuiltComes(d, s.ops.terminals[m], s.ops.terminals[n], s.runtime.value);
  }

  /** The promise settles once: a settled outcome survives the rest of any run, with at most one unsubscribe. */
  lemma {:induction false} SettlesOnce(d: Decoders, s: State, events: seq<Event>)
    requires Inv(d, s) && s.settled
    ensures var end := Run(d, s, events);
            end.settled && end.outcome == s.outcome && end.unsubscribes == s.unsubscribes <= 1
    decreases |events|
  {
    hide Paired, BuiltFrom;
    if events == [] {
    } else if Possible(s, events[0]) {
      StepKeepsInv(d, s, events[0]);
      SettlesOnce(d, Step(d, s, events[0]), events[1..]);
    } else {
      SettlesOnce(d, s, events[1..]);
    }
  }

  /** If nothing happens before `subscribe` returns, settling unsubscribes exactly once. */
  lemma {:induction false} UnsubscribesWhenSettled(d: Decoders, s: State, events: seq<Event>)
    requires s.subscribed && s.unsubscribes == (if s.settled then 1 else 0)
    ensures var end := Run(d, s, events); end.unsubscribes == if end.settled then 1 else 0
    decreases |events|
  {
    if events == [] {
    } else {
      UnsubscribesWhenSettled(d, if Possible(s, events[0]) then Step(d, s, events[0]) else s, events[1..]);
    }
  }

  lemma {:induction false} RunAppends(d: Decoders, s: State, events: seq<Event>, more: seq<Event>)
    ensures Run(d, s, events + more) == Run(d, Run(d, s, events), more)
    decreases |events|
  {
    hide Possible, Step;
    if events == [] {
      assert events + more == more;
    } else {
      assert (events + more)[1..] == events[1..] + more;
      RunAppends(d, if Possible(s, events[0]) then Step(d, s, events[0]) else s, events[1..], more);
    }
  }

  /** A stop, an end of the stream, or a first `Initialized` without hash or runtime. */
  predicate SettlesEarly(events: seq<Event>, initialized: bool) {
    events != [] &&
      match events[0]
      case Stopped(_) => true
      case Closed(_) => true
      case Initialized(hash, runtime) =>
        (!initialized && (hash.None? || runtime.Err?)) || SettlesEarly(events[1..], true)
      case _ => SettlesEarly(events[1..], initialized)
  }

  lemma {:induction false} BeforeSubscribing(d: Decoders, s: State, events: seq<Event>)
    requires !s.subscribed && s.unsubscribes == 0 && Subscribed !in events
    ensures var end := Run(d, s, events);
            && !end.subscribed && end.unsubscribes == 0
            && (end.settled <==> s.settled || SettlesEarly(events, s.initialized))
    decreases |events|
  {
    if events == [] {
    } else {
      BeforeSubscribing(d, if Possible(s, events[0]) then Step(d, s, events[0]) else s, events[1..]);
    }
  }

  lemma {:induction false} ClosedIffTold(d: Decoders, s: State, events: seq<Event>)
    ensures Run(d, s, events).closed <==> s.closed || exists e :: e in events && e.Closed?
    decreases |events|
  {
    if events == [] {
    } else {
      ClosedIffTold(d, if Possible(s, events[0]) then Step(d, s, events[0]) else s, events[1..]);
      assert events == [events[0]] + events[1..];
    }
  }

  /** The promise is settled, but the stream goes on and is never unsubscribed from. */
  predicate Leaked(s: State) { s.settled && !s.closed && s.unsubscribes == 0 }

  /**
    Settling unsubscribes exactly unless it happened before `subscribe` returned; and that is when one of
    the events sent by then is a stop, an end, or a first `Initialized` that cannot be used. The
    subscription leaks exactly then, unless the stream closes by itself.
   */
  lemma LeaksIff(d: Decoders, before: seq<Event>, after: seq<Event>)
    requires Subscribed !in before && Run(d, INITIAL, before + [Subscribed] + after).settled
    ensures var end := Run(d, INITIAL, before + [Subscribed] + after);
            && end.unsubscribes == (if SettlesEarly(before, false) then 0 else 1)
            && (Leaked(end) <==> SettlesEarly(before, false) && forall e :: e in before + after ==> !e.Closed?)
  {
    var early := Run(d, INITIAL, before);
    BeforeSubscribing(d, INITIAL, before);
    RunAppends(d, INITIAL, before + [Subscribed], after);
    RunAppends(d, INITIAL, before, [Subscribed]);
    assert [Subscribed][1..] == [];
    var open := Step(d, early, Subscribed);
    assert Run(d, INITIAL, before + [Subscribed]) == open;
    ClosedIffTold(d, INITIAL, before + [Subscribed] + after);
    assert forall e :: e in before + [Subscribed] + after <==> e in before + after || e == Subscribed;
    if early.settled {
      RunKeepsInv(d, INITIAL, before + [Subscribed]);
      SettlesOnce(d, open, after);
    } else {
      UnsubscribesWhenSettled(d, open, after);
    }
  }
}

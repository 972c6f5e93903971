/**
  What the events of a run of `TransactionContext` say about how its promise settles, without going
  through the states in between.
 */
module TransactionOutcome {
  import opened Optionals
  import opened ChainHead
  import opened TransactionContext

  /** Event `k` is one that the host could produce where it stands. */
  ghost predicate Happens(d: Decoders, events: seq<Event>, k: nat) {
    k < |events| && Possible(Run(d, INITIAL, events[..k]), events[k])
  }

  /** The unary call of `slot` was answered with `response`. */
  ghost predicate Answered(d: Decoders, events: seq<Event>, slot: Slot, response: Response) {
    exists k :: 0 <= k < |events| && events[k] == Responded(slot, response) && Happens(d, events, k)
  }

  /** Operation `id` ended with `result`. */
  ghost predicate Ended(d: Decoders, events: seq<Event>, id: Id, result: Result<Hex>) {
    exists k :: 0 <= k < |events| && events[k] == Finished(id, result) && Happens(d, events, k)
  }

  /** Event `k` is the first `Initialized`. */
  predicate FirstInitialized(events: seq<Event>, k: nat) {
    k < |events| && events[k].Initialized? && forall j :: 0 <= j < k ==> !events[j].Initialized?
  }

  /** The runtime is the one that the first `Initialized` carries. */
  predicate HasRuntime(events: seq<Event>, runtime: Runtime) {
    exists k :: 0 <= k < |events| && FirstInitialized(events, k) &&
                events[k].hash.Some? && events[k].runtime == Ok(runtime)
  }

  /** The first `Initialized` came while `subscribe` was still running. */
  predicate InitializedTooEarly(events: seq<Event>) {
    exists k :: 0 <= k < |events| && FirstInitialized(events, k) && Subscribed !in events[..k]
  }

  /** What `callHead` resolves to for `slot`. */
  ghost predicate Received(d: Decoders, events: seq<Event>, slot: Slot, result: Result<Hex>) {
    || (result.Err? && Answered(d, events, slot, Refused(result.error)))
    || (result == Err(CallLimit) && Answered(d, events, slot, LimitReached))
    || (exists id :: Answered(d, events, slot, Started(id)) && Ended(d, events, id, result))
    || (result == Err(NotSubscribed) && InitializedTooEarly(events))
  }

  /** Event `k` settles the promise, if none did before. */
  ghost predicate Settling(d: Decoders, events: seq<Event>, k: nat) {
    Happens(d, events, k) &&
      match events[k]
      case Stopped(_) => true
      case Closed(_) => true
      case Joined => true
      case Initialized(hash, runtime) => FirstInitialized(events, k) && (hash.None? || runtime.Err?)
      case _ => false
  }

  /** The one event that counts. */
  ghost predicate FirstSettling(d: Decoders, events: seq<Event>, k: nat) {
    k < |events| && Settling(d, events, k) && forall j: nat :: j < k ==> !Settling(d, events, j)
  }

  /** The outcome that event `k` settles the promise with. */
  ghost predicate Gives(d: Decoders, events: seq<Event>, k: nat, out: Result<Context>)
    requires k < |events|
  {
    match events[k]
    case Stopped(reason) => out == Err(reason)
    case Closed(reason) => out == Err(reason)
    case Initialized(hash, runtime) => out == Err(if hash.Some? && runtime.Err? then runtime.error else NoFinalizedHash)
    case Joined =>
      exists metadata, nonce, runtime ::
        && Received(d, events[..k], MetadataCall, metadata)
        && Received(d, events[..k], NonceCall, nonce)
        && HasRuntime(events[..k], runtime)
        && Comes(d, metadata, nonce, runtime, out)
    case _ => false
  }

  // ---------------------------------------------------------------------------------------------
  // Runs that grow at the end
  // ---------------------------------------------------------------------------------------------

  lemma LastEvent(d: Decoders, events: seq<Event>)
    requires events != []
    ensures var n := |events| - 1;
            var s := Run(d, INITIAL, events[..n]);
            && events == events[..n] + [events[n]]
            && Run(d, INITIAL, events) == (if Possible(s, events[n]) then Step(d, s, events[n]) else s)
            && (Possible(s, events[n]) <==> Happens(d, events, n))
  {
    hide Possible, Step;
    var n := |events| - 1;
    assert events == events[..n] + [events[n]];
    RunAppends(d, INITIAL, events[..n], [events[n]]);
    assert [events[n]][1..] == [];
  }

  lemma HappensEarlier(d: Decoders, events: seq<Event>, n: nat, k: nat)
    requires k < n <= |events|
    ensures Happens(d, events[..n], k) <==> Happens(d, events, k)
    ensures FirstInitialized(events[..n], k) <==> FirstInitialized(events, k)
    ensures Settling(d, events[..n], k) <==> Settling(d, events, k)
  {
    assert events[..n][..k] == events[..k];
  }

  lemma AnsweredLater(d: Decoders, events: seq<Event>, n: nat, slot: Slot, response: Response)
    requires n <= |events| && Answered(d, events[..n], slot, response)
    ensures Answered(d, events, slot, response)
  {
    hide Happens;
    var k :| 0 <= k < n && events[..n][k] == Responded(slot, response) && Happens(d, events[..n], k);
    HappensEarlier(d, events, n, k);
    assert events[k] == Responded(slot, response);
  }

  lemma EndedLater(d: Decoders, events: seq<Event>, n: nat, id: Id, result: Result<Hex>)
    requires n <= |events| && Ended(d, events[..n], id, result)
    ensures Ended(d, events, id, result)
  {
    hide Happens;
    var k :| 0 <= k < n && events[..n][k] == Finished(id, result) && Happens(d, events[..n], k);
    HappensEarlier(d, events, n, k);
    assert events[k] == Finished(id, result);
  }

  /** What one event does to the words of the host that are kept. */
  lemma StepRecords(d: Decoders, s: State, e: Event, slot: Slot)
    requires Possible(s, e)
    ensures var o, p := s.ops, Step(d, s, e).ops;
            && (p.At(slot).response == o.At(slot).response ||
                (e.Responded? && e.slot == slot && p.At(slot).response == Some(e.response)))
            && p.terminals == if e.Finished? then o.terminals[e.id := e.result] else o.terminals
  {
    match e
    case Responded(other, r) => ResponseRecords(s.ops, other, r, slot);
    case Finished(id, r) => FinishRecords(s.ops, id, r, slot);
    case _ =>
  }

  lemma ResponseRecords(o: Rendezvous, other: Slot, r: Response, slot: Slot)
    ensures var p := AfterResponse(o, other, r);
            && p.At(slot).response == (if slot == other then Some(r) else o.At(slot).response)
            && p.terminals == o.terminals
  {
    var p := OnResponse(o, other, r);
    assert p.terminals == o.terminals && p.At(slot).response == o.At(slot).response;
    hide OnResponse;
  }

  lemma FinishRecords(o: Rendezvous, id: Id, r: Result<Hex>, slot: Slot)
    ensures var p := AfterFinish(o, id, r);
            p.At(slot).response == o.At(slot).response && p.terminals == o.terminals[id := r]
  {
  }

  lemma {:induction false} ResponseWasGiven(d: Decoders, events: seq<Event>, slot: Slot)
    requires Run(d, INITIAL, events).ops.At(slot).response.Some?
    ensures Answered(d, events, slot, Run(d, INITIAL, events).ops.At(slot).response.value)
    decreases |events|
  {
    hide Possible, Step, Happens;
    if events != [] {
      var n := |events| - 1;
      var s, response := Run(d, INITIAL, events[..n]), Run(d, INITIAL, events).ops.At(slot).response;
      LastEvent(d, events);
      if Possible(s, events[n]) {
        StepRecords(d, s, events[n], slot);
      }
      if response == s.ops.At(slot).response {
        ResponseWasGiven(d, events[..n], slot);
        AnsweredLater(d, events, n, slot, response.value);
      }
    }
  }

  lemma {:induction false} TerminalWasSent(d: Decoders, events: seq<Event>, id: Id)
    requires id in Run(d, INITIAL, events).ops.terminals
    ensures Ended(d, events, id, Run(d, INITIAL, events).ops.terminals[id])
    decreases |events|
  {
    hide Possible, Step, Happens;
    if events != [] {
      var n := |events| - 1;
      var s := Run(d, INITIAL, events[..n]);
      LastEvent(d, events);
      if Possible(s, events[n]) {
        StepRecords(d, s, events[n], MetadataCall);
      }
      if !(Possible(s, events[n]) && events[n].Finished? && events[n].id == id) {
        TerminalWasSent(d, events[..n], id);
        EndedLater(d, events, n, id, s.ops.terminals[id]);
      }
    }
  }

  /** A call that was delivered something without having been answered. */
  predicate Unanswered(c: Call) { c.response.None? && c.progress.Delivered? }

  lemma StepKeepsAnswered(d: Decoders, s: State, e: Event, slot: Slot)
    requires Possible(s, e) && Paired(s.ops) && Unanswered(Step(d, s, e).ops.At(slot))
    ensures Unanswered(s.ops.At(slot)) || (e.Initialized? && !s.initialized && !s.subscribed)
  {
    match e
    case Responded(other, r) =>
      ResponseEffect(s.ops, other, r);
      hide AfterResponse, Paired;
    case Finished(id, r) =>
      FinishEffect(s.ops, id, r, slot);
      hide AfterFinish, Paired;
    case _ => hide Paired;
  }

  lemma StepInforms(d: Decoders, s: State, e: Event)
    requires Possible(s, e)
    ensures var next := Step(d, s, e);
            && next.subscribed == (s.subscribed || e.Subscribed?)
            && next.initialized == (s.initialized || e.Initialized?)
            && (next.runtime == s.runtime ||
                (&& e.Initialized? && !s.initialized && e.hash.Some? && e.runtime.Ok?
                 && next.runtime == Some(e.runtime.value)))
  {
    hide AfterResponse, AfterFinish, BuiltFrom;
  }

  /** The flags and the runtime say what the events so far say. */
  ghost predicate Informed(events: seq<Event>, s: State) {
    && (s.subscribed <==> Subscribed in events)
    && (s.initialized <==> exists k :: 0 <= k < |events| && events[k].Initialized?)
    && (s.runtime.Some? ==> HasRuntime(events, s.runtime.value))
    && (Unanswered(s.ops.metadata) || Unanswered(s.ops.nonce) ==> InitializedTooEarly(events))
  }

  lemma InitializedNow(events: seq<Event>, s: State)
    requires events != [] && events[|events| - 1].Initialized? && !s.initialized
    requires Informed(events[..|events| - 1], s)
    ensures FirstInitialized(events, |events| - 1)
    ensures !s.subscribed ==> InitializedTooEarly(events)
    ensures var e := events[|events| - 1];
            e.hash.Some? && e.runtime.Ok? ==> HasRuntime(events, e.runtime.value)
  {
    var n := |events| - 1;
    forall j | 0 <= j < n
      ensures !events[j].Initialized?
    {
      assert events[..n][j] == events[j];
    }
  }

  lemma StaysInformed(events: seq<Event>, n: nat, runtime: Runtime)
    requires n <= |events|
    ensures HasRuntime(events[..n], runtime) ==> HasRuntime(events, runtime)
    ensures InitializedTooEarly(events[..n]) ==> InitializedTooEarly(events)
  {
    if HasRuntime(events[..n], runtime) {
      var k :| 0 <= k < n && FirstInitialized(events[..n], k) &&
               events[..n][k].hash.Some? && events[..n][k].runtime == Ok(runtime);
      assert FirstInitialized(events, k);
    }
    if InitializedTooEarly(events[..n]) {
      var k :| 0 <= k < n && FirstInitialized(events[..n], k) && Subscribed !in events[..n][..k];
      assert FirstInitialized(events, k) && events[..n][..k] == events[..k];
    }
  }

  lemma StepKeepsInformed(d: Decoders, events: seq<Event>, s: State)
    requires events != [] && Informed(events[..|events| - 1], s) && Inv(d, s)
    requires Possible(s, events[|events| - 1])
    ensures Informed(events, Step(d, s, events[|events| - 1]))
  {
    var n := |events| - 1;
    var e := events[n];
    var next := Step(d, s, e);
    assert Paired(s.ops);
    hide Step, Possible, Inv, HasRuntime, InitializedTooEarly;
    assert events == events[..n] + [e];
    StepInforms(d, s, e);
    StaysInformed(events, n, if s.runtime.Some? then s.runtime.value else Runtime(0, 0));
    assert s.ops.At(MetadataCall) == s.ops.metadata && s.ops.At(NonceCall) == s.ops.nonce;
    assert next.ops.At(MetadataCall) == next.ops.metadata && next.ops.At(NonceCall) == next.ops.nonce;
    if Unanswered(next.ops.metadata) {
      StepKeepsAnswered(d, s, e, MetadataCall);
    }
    if Unanswered(next.ops.nonce) {
      StepKeepsAnswered(d, s, e, NonceCall);
    }
    if e.Initialized? && !s.initialized {
      InitializedNow(events, s);
    }
    hide Unanswered;
    InitializedSomewhere(events);
  }

  lemma InitializedSomewhere(events: seq<Event>)
    requires events != []
    ensures var n := |events| - 1;
            (exists k :: 0 <= k < |events| && events[k].Initialized?) <==>
            events[n].Initialized? || (exists k :: 0 <= k < n && events[..n][k].Initialized?)
  {
    var n := |events| - 1;
    if k :| 0 <= k < |events| && events[k].Initialized? {
      assert k < n ==> events[..n][k].Initialized?;
    }
    if k :| 0 <= k < n && events[..n][k].Initialized? {
      assert events[k].Initialized?;
    }
  }

  lemma SkipKeepsInformed(events: seq<Event>, s: State)
    requires events != [] && Informed(events[..|events| - 1], s) && !Possible(s, events[|events| - 1])
    ensures Informed(events, s)
  {
    var n := |events| - 1;
    assert events == events[..n] + [events[n]];
    assert !events[n].Initialized? && (events[n].Subscribed? ==> s.subscribed);
    hide Possible, HasRuntime, InitializedTooEarly, Unanswered;
    StaysInformed(events, n, if s.runtime.Some? then s.runtime.value else Runtime(0, 0));
    InitializedSomewhere(events);
  }

  lemma {:induction false} RunInforms(d: Decoders, events: seq<Event>)
    ensures Informed(events, Run(d, INITIAL, events)) && Inv(d, Run(d, INITIAL, events))
    decreases |events|
  {
    RunKeepsInv(d, INITIAL, events);
    if events != [] {
      hide Possible, Step, Happens, Inv, Informed;
      var n := |events| - 1;
      var s := Run(d, INITIAL, events[..n]);
      RunInforms(d, events[..n]);
      LastEvent(d, events);
      if Possible(s, events[n]) {
        StepKeepsInformed(d, events, s);
      } else {
        SkipKeepsInformed(events, s);
      }
    }
  }

  // ---------------------------------------------------------------------------------------------
  // The outcome
  // ---------------------------------------------------------------------------------------------

  lemma ReceivedBy(d: Decoders, events: seq<Event>, slot: Slot)
    requires Run(d, INITIAL, events).ops.At(slot).progress.Delivered?
    ensures Received(d, events, slot, Run(d, INITIAL, events).ops.At(slot).progress.result)
  {
    var o := Run(d, INITIAL, events).ops;
    RunInforms(d, events);
    assert CallMatches(o.At(slot), o.terminals);
    hide Run, Happens, Answered, Ended;
    if o.At(slot).response.Some? {
      ResponseWasGiven(d, events, slot);
      var r := o.At(slot).response.value;
      if r.Started? {
        TerminalWasSent(d, events, r.id);
      }
    } else {
      assert Unanswered(o.At(slot));
    }
  }

  /** Event `e` settles an open promise. */
  predicate SettlesHere(s: State, e: Event) {
    match e
    case Stopped(_) => true
    case Closed(_) => true
    case Joined => true
    case Initialized(hash, runtime) => !s.initialized && (hash.None? || runtime.Err?)
    case _ => false
  }

  lemma StepSettles(d: Decoders, s: State, e: Event)
    requires Inv(d, s) && Possible(s, e)
    ensures var next := Step(d, s, e);
            && (next.settled <==> s.settled || SettlesHere(s, e))
            && (s.settled ==> next.outcome == s.outcome)
            && (!s.settled && SettlesHere(s, e) ==>
                  match e
                  case Stopped(reason) => next.outcome == Some(Err(reason))
                  case Closed(reason) => next.outcome == Some(Err(reason))
                  case Initialized(hash, runtime) =>
                    next.outcome == Some(Err(if hash.Some? && runtime.Err? then runtime.error else NoFinalizedHash))
                  case _ => BothDelivered(s) && next.outcome == Some(BuiltFrom(d, s)))
  {
    hide Paired, AfterResponse, AfterFinish, BuiltFrom;
  }

  lemma SettlingHere(d: Decoders, events: seq<Event>)
    requires events != []
    ensures var n := |events| - 1;
            var s := Run(d, INITIAL, events[..n]);
            Settling(d, events, n) <==> Possible(s, events[n]) && SettlesHere(s, events[n])
  {
    var n := |events| - 1;
    var s := Run(d, INITIAL, events[..n]);
    RunInforms(d, events[..n]);
    LastEvent(d, events);
    hide Possible, Inv, Run;
    if s.initialized {
      var k :| 0 <= k < n && events[..n][k].Initialized?;
      assert events[k].Initialized?;
    } else {
      forall j | 0 <= j < n ensures !events[j].Initialized? {
        assert events[..n][j] == events[j];
      }
    }
  }

  lemma JoinGives(d: Decoders, events: seq<Event>, k: nat)
    requires k < |events| && events[k].Joined? && BothDelivered(Run(d, INITIAL, events[..k]))
    ensures Gives(d, events, k, BuiltFrom(d, Run(d, INITIAL, events[..k])))
  {
    var s := Run(d, INITIAL, events[..k]);
    ReceivedBy(d, events[..k], MetadataCall);
    ReceivedBy(d, events[..k], NonceCall);
    RunInforms(d, events[..k]);
    hide Received, HasRuntime, Comes, Run;
    BuiltComes(d, s.ops.metadata.progress.result, s.ops.nonce.progress.result, s.runtime.value);
  }

  /** The promise settles exactly with the first event of the run that settles it, and as that event says. */
  lemma {:induction false} SettledByFirst(d: Decoders, events: seq<Event>) returns (k: nat)
    requires Run(d, INITIAL, events).settled
    ensures FirstSettling(d, events, k) && Run(d, INITIAL, events).outcome.Some?
    ensures Gives(d, events, k, Run(d, INITIAL, events).outcome.value)
    decreases |events|
  {
    hide Possible, Step, Settling, Inv, BuiltFrom;
    assert events != [];
    var n := |events| - 1;
    var s := Run(d, INITIAL, events[..n]);
    RunInforms(d, events[..n]);
    LastEvent(d, events);
    SettlingHere(d, events);
    if s.settled {
      if Possible(s, events[n]) {
        StepSettles(d, s, events[n]);
      }
      k := SettledByFirst(d, events[..n]);
      FirstEarlier(d, events, n, k);
      GivesLater(d, events, n, k, Run(d, INITIAL, events).outcome.value);
    } else {
      k := n;
      StepSettles(d, s, events[n]);
      if events[n].Joined? {
        JoinGives(d, events, n);
      }
      NoneBefore(d, events, n);
    }
  }

  lemma FirstEarlier(d: Decoders, events: seq<Event>, n: nat, k: nat)
    requires k < n <= |events|
    requires FirstSettling(d, events[..n], k)
    ensures FirstSettling(d, events, k)
  {
    hide Settling;
    HappensEarlier(d, events, n, k);
    forall j: nat | j < k ensures !Settling(d, events, j) {
      HappensEarlier(d, events, n, j);
    }
  }

  lemma GivesLater(d: Decoders, events: seq<Event>, n: nat, k: nat, out: Result<Context>)
    requires k < n <= |events| && Gives(d, events[..n], k, out)
    ensures Gives(d, events, k, out)
  {
    assert events[..n][..k] == events[..k];
    hide Received, HasRuntime, Comes;
  }

  lemma {:induction false} SettlingSettles(d: Decoders, events: seq<Event>, k: nat)
    requires Settling(d, events, k)
    ensures Run(d, INITIAL, events).settled
    decreases |events|
  {
    assert k < |events|;
    hide Possible, Step, Settling, Inv;
    var n := |events| - 1;
    var s := Run(d, INITIAL, events[..n]);
    RunInforms(d, events[..n]);
    LastEvent(d, events);
    SettlingHere(d, events);
    if k < n {
      HappensEarlier(d, events, n, k);
      SettlingSettles(d, events[..n], k);
    }
    if Possible(s, events[n]) {
      StepSettles(d, s, events[n]);
    }
  }

  lemma NoneBefore(d: Decoders, events: seq<Event>, n: nat)
    requires n <= |events| && !Run(d, INITIAL, events[..n]).settled
    ensures forall j: nat :: j < n ==> !Settling(d, events, j)
  {
    hide Settling, Run;
    forall j: nat | j < n ensures !Settling(d, events, j) {
      HappensEarlier(d, events, n, j);
      if Settling(d, events[..n], j) {
        SettlingSettles(d, events[..n], j);
      }
    }
  }

  /** Whether the promise is settled, and with what, going by the events alone. */
  lemma FirstSettlingDecides(d: Decoders, events: seq<Event>, k: nat)
    requires FirstSettling(d, events, k)
    ensures Run(d, INITIAL, events).settled && Run(d, INITIAL, events).outcome.Some?
    ensures Gives(d, events, k, Run(d, INITIAL, events).outcome.value)
  {
    hide Settling, Run, Gives;
    SettlingSettles(d, events, k);
    var first := SettledByFirst(d, events);
    assert first == k;
  }

  /**
    What a context holds: the metadata decoded from the result of the operation started for the metadata
    call, the nonce decoded from that of the other call, and the runtime of the first `Initialized`.
   */
  ghost predicate Holds(d: Decoders, events: seq<Event>, c: Context) {
    exists i, j, m, n ::
      && Answered(d, events, MetadataCall, Started(i)) && Ended(d, events, i, Ok(m))
      && Answered(d, events, NonceCall, Started(j)) && Ended(d, events, j, Ok(n))
      && i != j
      && d.unwrapMetadata(m) == Ok(c.metadata) && d.nonceOf(n) == Ok(c.nonce)
      && HasRuntime(events, c.runtime)
  }

  lemma ContextHoldsWhatWasSent(d: Decoders, events: seq<Event>)
    requires var s := Run(d, INITIAL, events); s.outcome.Some? && s.outcome.value.Ok?
    ensures Holds(d, events, Run(d, INITIAL, events).outcome.value.value)
  {
    var s := Run(d, INITIAL, events);
    ContextHoldsMatchingPair(d, events);
    RunInforms(d, events);
    hide Run, Answered, Ended, HasRuntime, Inv;
    var i, j := s.ops.metadata.response.value.id, s.ops.nonce.response.value.id;
    var m, n := s.ops.terminals[i], s.ops.terminals[j];
    ResponseWasGiven(d, events, MetadataCall);
    ResponseWasGiven(d, events, NonceCall);
    TerminalWasSent(d, events, i);
    TerminalWasSent(d, events, j);
    BuiltComes(d, m, n, s.runtime.value);
    assert m.Ok? && n.Ok?;
    assert m == Ok(m.value) && n == Ok(n.value);
  }

  /** All of it in one: settled or not, by which event and with what. */
  lemma OutcomeOfEvents(d: Decoders, events: seq<Event>)
    ensures var outcome := Run(d, INITIAL, events).outcome;
            && (outcome.Some? <==> exists k: nat :: Settling(d, events, k))
            && (outcome.Some? ==>
                  exists k: nat :: FirstSettling(d, events, k) && Gives(d, events, k, outcome.value))
            && (outcome.Some? && outcome.value.Ok? ==> Holds(d, events, outcome.value.value))
  {
    var s := Run(d, INITIAL, events);
    RunInforms(d, events);
    assert s.settled <==> s.outcome.Some?;
    hide Settling, Run, Gives, Inv, Holds;
    if s.settled {
      var first := SettledByFirst(d, events);
      if s.outcome.value.Ok? {
        ContextHoldsWhatWasSent(d, events);
      }
    }
    if k: nat :| Settling(d, events, k) {
      SettlingSettles(d, events, k);
    }
  }
}

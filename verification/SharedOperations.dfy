/**
  The two calls of a transaction context when the host may answer both with one operation: the
  `ChainHead` steps without the demand that the ids differ.
 */
module SharedOperations {
  import opened Optionals
  import opened ChainHead

  datatype Word =
    | Answer(slot: Slot, response: Response)
    | Terminal(id: Id, result: Result<Hex>)

  /** Both calls have been made and nothing was said yet. */
  const ASKED := Rendezvous(map[], map[], Call(Requested, None, 0), Call(Requested, None, 0), map[])

  /** One answer for each call, and one terminal event for each operation. */
  predicate Possible(o: Rendezvous, w: Word) {
    match w
    case Answer(slot, _) => o.At(slot).progress == Requested
    case Terminal(id, _) => MayFinish(o, id)
  }

  function After(o: Rendezvous, w: Word): (r: Rendezvous) {
    match w
    case Answer(slot, response) => AfterResponse(o, slot, response)
    case Terminal(id, result) => AfterFinish(o, id, result)
  }

  function Run(o: Rendezvous, words: seq<Word>): (r: Rendezvous)
    decreases |words|
  {
    if words == [] then o else Run(if Possible(o, words[0]) then After(o, words[0]) else o, words[1..])
  }

  /** The call holds its result; otherwise it waits. */
  predicate Served(c: Call, id: Id, terminals: map<Id, Result<Hex>>) {
    id in terminals && c.progress == Delivered(terminals[id]) && c.deliveries == 1
  }

  predicate Waits(c: Call, id: Id) { c.progress == Awaiting(id) && c.deliveries == 0 }

  /** Both calls were given operation `id`: until it ends both wait, and then one is served and the other waits on. */
  ghost predicate Shared(o: Rendezvous, id: Id) {
    && o.metadata.response == Some(Started(id)) && o.nonce.response == Some(Started(id))
    && id !in o.completed
    && (forall i :: i in o.waiters ==> i == id)
    && (id !in o.terminals ==> Waits(o.metadata, id) && Waits(o.nonce, id) && id in o.waiters)
    && (id in o.terminals ==>
          || (Served(o.metadata, id, o.terminals) && Waits(o.nonce, id))
          || (Served(o.nonce, id, o.terminals) && Waits(o.metadata, id)))
  }

  ghost predicate Fine(o: Rendezvous) {
    Paired(o) || (o.metadata.response.Some? && o.metadata.response.value.Started? &&
                  Shared(o, o.metadata.response.value.id))
  }

  /** The second answer names the operation of the first. */
  lemma SecondAnswerShares(o: Rendezvous, slot: Slot, id: Id)
    requires Paired(o) && o.At(slot).progress == Requested && o.StartedSomewhere(id)
    ensures Shared(AfterResponse(o, slot, Started(id)), id)
  {
    var other := if slot.MetadataCall? then NonceCall else MetadataCall;
    assert o.At(slot).response == None;
    assert o.At(other).response == Some(Started(id));
    assert CallMatches(o.At(other), o.terminals);
    assert id !in o.completed;
    assert forall i :: i in o.waiters ==> i == id;
  }

  lemma AnswerKeepsFine(o: Rendezvous, slot: Slot, r: Response)
    requires Fine(o) && o.At(slot).progress == Requested
    ensures Fine(AfterResponse(o, slot, r))
  {
    if !Paired(o) {
      assert false;
    } else if r.Started? && o.StartedSomewhere(r.id) {
      SecondAnswerShares(o, slot, r.id);
      var next := AfterResponse(o, slot, r);
      assert next.metadata.response == Some(Started(r.id));
    } else {
      ResponseKeepsPaired(o, slot, r);
    }
  }

  lemma TerminalKeepsShared(o: Rendezvous, shared: Id, id: Id, result: Result<Hex>)
    requires Shared(o, shared) && MayFinish(o, id)
    ensures Shared(AfterFinish(o, id, result), shared)
  {
    if id == shared {
      assert o.waiters[id].MetadataCall? || o.waiters[id].NonceCall?;
    }
  }

  lemma {:induction false} RunKeepsFine(o: Rendezvous, words: seq<Word>)
    requires Fine(o)
    ensures Fine(Run(o, words))
    decreases |words|
  {
    hide Paired, Shared, AfterResponse, AfterFinish;
    if words == [] {
    } else {
      var w := words[0];
      if Possible(o, w) {
        if w.Answer? {
          AnswerKeepsFine(o, w.slot, w.response);
        } else if Paired(o) {
          FinishKeepsPaired(o, w.id, w.result);
        } else {
          TerminalKeepsShared(o, o.metadata.response.value.id, w.id, w.result);
          SharedNames(o, w.id, w.result);
        }
        RunKeepsFine(After(o, w), words[1..]);
      } else {
        RunKeepsFine(o, words[1..]);
      }
    }
  }

  lemma SharedNames(o: Rendezvous, id: Id, result: Result<Hex>)
    ensures AfterFinish(o, id, result).metadata.response == o.metadata.response
  {
  }

  /**
    In any order of the answers and events, and however the run goes on: once both calls started an
    operation and those operations have ended, both calls are served exactly if the two operations
    differ. With one operation for both, exactly one call is served, and the other waits for ever.
   */
  lemma BothServedIff(words: seq<Word>)
    requires var o := Run(ASKED, words);
             && o.metadata.response.Some? && o.metadata.response.value.Started?
             && o.nonce.response.Some? && o.nonce.response.value.Started?
             && o.metadata.response.value.id in o.terminals && o.nonce.response.value.id in o.terminals
    ensures var o := Run(ASKED, words);
            var m, n := o.metadata.response.value.id, o.nonce.response.value.id;
            && (Served(o.metadata, m, o.terminals) && Served(o.nonce, n, o.terminals) <==> m != n)
            && (m == n ==>
                  || (Served(o.metadata, m, o.terminals) && Waits(o.nonce, n))
                  || (Served(o.nonce, n, o.terminals) && Waits(o.metadata, m)))
  {
    assert Paired(ASKED);
    RunKeepsFine(ASKED, words);
  }
}

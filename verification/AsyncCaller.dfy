/** One async call as it is coded: poll with a fresh continuation until the result is READY. */
module AsyncCaller {
  import opened Optionals
  import opened Handles
  import opened HandleMap
  import opened AsyncCalls
  import Calls = AsyncCalls

  /** The polls a call takes when Rust answers them with `results`: up to and including the first READY. */
  function PollsNeeded(results: seq<int>): (n: nat)
    requires READY in results
    ensures 1 <= n <= |results| && results[n - 1] == READY && READY !in results[..n - 1]
  {
    if results[0] == READY then 1 else 1 + PollsNeeded(results[1..])
  }

  /**
    The steps of the system that one call takes when nothing comes in between: a turn for each result, the
    first with the continuation `first`.
   */
  function Turns(c: CallId, first: Handle, results: seq<int>): (steps: seq<Step>) {
    if results == [] then []
    else
      var n := |results| - 1;
      Turns(c, first, results[..n]) + [Poll(c), Callback(first + DELTA * n, results[n]), Continue(c)]
  }

  /** One turn of the loop. */
  lemma TurnIsPossible(s: System, c: CallId, result: int)
    requires c in s.calls && s.calls[c] == Polling && s.waiting.current + DELTA <= MAX_UINT64
    requires s.waiting.current !in s.waiting.live
    ensures var h := s.waiting.current;
            var end := Calls.Run(s, [Poll(c), Callback(h, result), Continue(c)]);
            && end.Some?
            && end.value.waiting == Table(s.waiting.live, h + DELTA)
            && end.value.calls == s.calls[c := if result == READY then Ready(h) else Polling]
            && end.value.completions == s.completions && end.value.frees == s.frees
  {
    hide Calls.Run;
    var h := s.waiting.current;
    var waiting := Do(s, Poll(c)).value;
    RunCons(s, Poll(c), [Callback(h, result), Continue(c)]);
    assert [Poll(c), Callback(h, result), Continue(c)] == [Poll(c)] + [Callback(h, result), Continue(c)];
    WaitingGoesOn(waiting, c, result);
    assert waiting.waiting.live - {h} == s.waiting.live;
  }

  lemma CallBegun(before: System, c: CallId) returns (now: System)
    requires c !in before.calls
    ensures Calls.Run(before, [Begin(c)] + Turns(c, before.waiting.current, [])) == Some(now)
    ensures now == before.(calls := before.calls[c := Polling])
  {
    assert [Begin(c)] + [] == [Begin(c)];
    RunSingle(before, Begin(c));
    now := Do(before, Begin(c)).value;
  }

  lemma CallTurned(before: System, now: System, c: CallId, first: Handle, results: seq<int>, done: nat)
    returns (next: System)
    requires done < |results| && now.waiting.current == first + DELTA * done
    requires Calls.Run(before, [Begin(c)] + Turns(c, first, results[..done])) == Some(now)
    requires c in now.calls && now.calls[c] == Polling && now.waiting.current + DELTA <= MAX_UINT64
    requires now.waiting.current !in now.waiting.live
    ensures Calls.Run(before, [Begin(c)] + Turns(c, first, results[..done + 1])) == Some(next)
    ensures next.waiting == Table(now.waiting.live, now.waiting.current + DELTA)
    ensures next.calls == now.calls[c := if results[done] == READY then Ready(now.waiting.current) else Polling]
    ensures next.completions == now.completions && next.frees == now.frees
  {
    hide Calls.Run;
    var turn := [Poll(c), Callback(first + DELTA * done, results[done]), Continue(c)];
    assert results[..done + 1][..done] == results[..done];
    var sofar := [Begin(c)] + Turns(c, first, results[..done]);
    assert [Begin(c)] + Turns(c, first, results[..done + 1]) == sofar + turn;
    Calls.RunAppends(before, sofar, turn);
    TurnIsPossible(now, c, results[done]);
    next := Calls.Run(now, turn).value;
  }

  lemma CallEnded(before: System, now: System, c: CallId, first: Handle, results: seq<int>, done: nat, lifts: bool)
    returns (end: System)
    requires done <= |results|
    requires Calls.Run(before, [Begin(c)] + Turns(c, first, results[..done])) == Some(now)
    requires c in now.calls && now.calls[c].Ready?
    ensures Calls.Run(before, [Begin(c)] + Turns(c, first, results[..done]) + [Complete(c, lifts), Free(c)]) ==
            Some(end)
    ensures end == now.(calls := now.calls[c := Returned(now.calls[c].last, lifts)],
                        completions := now.completions + multiset{c}, frees := now.frees + multiset{c})
  {
    hide Calls.Run;
    Calls.RunAppends(before, [Begin(c)] + Turns(c, first, results[..done]), [Complete(c, lifts), Free(c)]);
    RunCons(now, Complete(c, lifts), [Free(c)]);
    assert [Complete(c, lifts), Free(c)] == [Complete(c, lifts)] + [Free(c)];
    RunSingle(Do(now, Complete(c, lifts)).value, Free(c));
    end := Do(Do(now, Complete(c, lifts)).value, Free(c)).value;
  }

  lemma {:induction false} TurnsSplit(c: CallId, first: Handle, results: seq<int>, done: nat)
    requires done <= |results|
    ensures Turns(c, first, results[..done]) <= Turns(c, first, results)
    ensures done < |results| ==>
              Turns(c, first, results[..done]) + [Poll(c)] <= Turns(c, first, results)
    decreases |results|
  {
    if done == |results| {
      assert results[..done] == results;
    } else {
      var n := |results| - 1;
      assert results[..n][..done] == results[..done];
      TurnsSplit(c, first, results[..n], done);
    }
  }

  /** A poll that traps ends the run: nothing after it happens. */
  lemma TrapsFrom(
    before: System, now: System, c: CallId, first: Handle, results: seq<int>, done: nat, n: nat, lifts: bool)
    requires done < n <= |results|
    requires Calls.Run(before, [Begin(c)] + Turns(c, first, results[..done])) == Some(now)
    requires c in now.calls && now.calls[c] == Polling && now.waiting.current + DELTA > MAX_UINT64
    ensures Calls.Run(before, [Begin(c)] + Turns(c, first, results[..n]) + [Complete(c, lifts), Free(c)]) == None
  {
    hide Calls.Run;
    var sofar := [Begin(c)] + Turns(c, first, results[..done]);
    var all := [Begin(c)] + Turns(c, first, results[..n]) + [Complete(c, lifts), Free(c)];
    assert results[..n][..done] == results[..done];
    TurnsSplit(c, first, results[..n], done);
    assert sofar + [Poll(c)] <= all;
    var k := |sofar| + 1;
    assert all == (sofar + [Poll(c)]) + all[k..];
    Calls.RunSnoc(before, sofar, Poll(c));
    Calls.RunAppends(before, sofar + [Poll(c)], all[k..]);
  }

  class Caller {
    const continuations: UniffiHandleMap<CallId>
    var completions: seq<CallId>
    var frees: seq<CallId>

    constructor (continuations: UniffiHandleMap<CallId>)
      ensures this.continuations == continuations && completions == [] && frees == []
    {
      this.continuations := continuations;
      completions, frees := [], [];
    }

    /** Resumes the continuation behind the handle, if there still is one. */
    method UniffiFutureContinuationCallback(handle: Handle, pollResult: int) returns (resumed: Maybe<(CallId, int)>)
      modifies continuations
      ensures handle in old(continuations.Contents()).live ==>
                && resumed == Some((old(continuations.Contents()).live[handle], pollResult))
                && continuations.Contents() ==
                   old(continuations.Contents()).(live := old(continuations.Contents()).live - {handle})
      ensures handle !in old(continuations.Contents()).live ==>
                resumed == None && continuations.Contents() == old(continuations.Contents())
    {
      var continuation := continuations.Remove(handle);
      resumed := if continuation.Fine? then Some((continuation.value, pollResult)) else None;
    }

    /**
      `results` is what Rust passes to the callback of each poll in turn, `lifts` whether the completed
      result can be lifted. Unless the handle counter runs out, the call polls up to the first READY, then
      completes and frees its future, once each, and leaves the map as it found it. In `AsyncCalls` that is
      a run of `before`, any system with this map and without this call; calls that run in between are
      left to the runs there.
     */
    method UniffiRustCallAsync(rustFuture: CallId, results: seq<int>, lifts: bool, ghost before: System)
      returns (polls: Maybe<nat>, ghost after: Maybe<System>)
      requires READY in results
      requires forall h :: h in continuations.Contents().live ==> h < continuations.Contents().current
      requires before.waiting == continuations.Contents() && rustFuture !in before.calls
      modifies this, continuations
      ensures polls.None? <==>
                old(continuations.Contents()).current + DELTA * PollsNeeded(results) > MAX_UINT64
      ensures polls.Some? ==>
                && polls.value == PollsNeeded(results)
                && continuations.Contents().live == old(continuations.Contents()).live
                && continuations.Contents().current == old(continuations.Contents()).current + DELTA * polls.value
                && completions == old(completions) + [rustFuture] && frees == old(frees) + [rustFuture]
      ensures polls.None? ==> completions == old(completions) && frees == old(frees)
      ensures after ==
              Calls.Run(before, [Begin(rustFuture)]
                                + Turns(rustFuture, before.waiting.current, results[..PollsNeeded(results)])
                                + [Complete(rustFuture, lifts), Free(rustFuture)])
      ensures after.Some? <==> polls.Some?
      ensures polls.Some? ==>
                && after.value.waiting == continuations.Contents()
                && after.value.completions == before.completions + multiset{rustFuture}
                && after.value.frees == before.frees + multiset{rustFuture}
                && rustFuture in after.value.calls
                && after.value.calls[rustFuture].Returned? && after.value.calls[rustFuture].ok == lifts
    {
      hide Calls.Run;
      var done := 0;
      var pollResult := READY + 1;
      ghost var first, n := before.waiting.current, PollsNeeded(results);
      ghost var now := CallBegun(before, rustFuture);
      while pollResult != READY
        invariant done <= n
        invariant pollResult == READY <==> done == n
        invariant continuations.Contents().live == old(continuations.Contents()).live
        invariant continuations.Contents().current == first + DELTA * done
        invariant continuations.Contents().current <= MAX_UINT64 || done == 0
        invariant completions == old(completions) && frees == old(frees)
        invariant Calls.Run(before, [Begin(rustFuture)] + Turns(rustFuture, first, results[..done])) == Some(now)
        invariant now.waiting == continuations.Contents() && rustFuture in now.calls
        invariant if pollResult == READY then now.calls[rustFuture].Ready? else now.calls[rustFuture] == Polling
        invariant now.completions == before.completions && now.frees == before.frees
        decreases n - done
      {
        assert results[..done + 1][..done] == results[..done];
        assert done < n - 1 ==> results[done] == results[..n - 1][done];
        var handle := continuations.Insert(rustFuture);
        if handle.Trap? {
          TrapsFrom(before, now, rustFuture, first, results, done, n, lifts);
          polls, after := None, None;
          return;
        }
        var resumed := UniffiFutureContinuationCallback(handle.value, results[done]);
        now := CallTurned(before, now, rustFuture, first, results, done);
        pollResult := resumed.value.1;
        done := done + 1;
        assert continuations.Contents().live == old(continuations.Contents()).live;
      }
      completions := completions + [rustFuture];
      frees := frees + [rustFuture];
      polls := Some(done);
      ghost var end := CallEnded(before, now, rustFuture, first, results, done, lifts);
      after := Some(end);
    }
  }
}

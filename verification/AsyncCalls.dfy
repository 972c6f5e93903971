/**
  Async calls into Rust. Any number of calls share one map of continuations; their steps, and the
  callbacks Rust makes on whatever handle it likes, interleave freely.
 */
module AsyncCalls {
  import opened Optionals
  import opened Handles

  /** A call is known by the Rust future it drives; Rust hands out a new one for each. */
  type CallId = nat

  const READY := 0

  /**
    Where a call stands. From `Resumed` on, `last` is the handle of the continuation it was resumed
    through most recently.
   */
  datatype Phase =
    | Polling
    | Waiting(handle: Handle)
    | Resumed(last: Handle, result: int)
    | Ready(last: Handle)
    | Completed(last: Handle, ok: bool)
    | Returned(last: Handle, ok: bool)

  /**
    `inserted` and `resumed` record which call each continuation was made for and what it was resumed
    with; `completions` and `frees` count the calls of `completeFunc` and `freeFunc`.
   */
  datatype System = System(
    waiting: Table<CallId>, calls: map<CallId, Phase>,
    inserted: map<Handle, CallId>, resumed: map<Handle, int>,
    completions: multiset<CallId>, frees: multiset<CallId>)

  function Idle(): (s: System) { System(Empty(), map[], map[], map[], multiset{}, multiset{}) }

  datatype Step =
    | Begin(call: CallId)
    | Poll(call: CallId)                   // inserts a fresh continuation and polls with its handle
    | Callback(handle: Handle, result: int) // made by Rust, with any handle at any time
    | Continue(call: CallId)               // the test at the foot of the loop
    | Complete(call: CallId, ok: bool)     // `completeFunc`, then lifting, which may throw
    | Free(call: CallId)                   // the deferred `freeFunc`

  predicate Enabled(s: System, e: Step) {
    match e
    case Begin(c) => c !in s.calls
    case Poll(c) => c in s.calls && s.calls[c] == Polling
    case Callback(_, _) => true
    case Continue(c) => c in s.calls && s.calls[c].Resumed?
    case Complete(c, _) => c in s.calls && s.calls[c].Ready?
    case Free(c) => c in s.calls && s.calls[c].Completed?
  }

  /** `None` when the process traps in the step: the handle counter is exhausted. */
  function Do(s: System, e: Step): (r: Maybe<System>)
    requires Enabled(s, e)
  {
    match e
    case Begin(c) => Some(s.(calls := s.calls[c := Polling]))
    case Poll(c) =>
      (match Insert(s.waiting, c)
       case Fine((t, h)) => Some(s.(waiting := t, calls := s.calls[c := Waiting(h)], inserted := s.inserted[h := c]))
       case _ => None)
    case Callback(h, result) =>
      (match Remove(s.waiting, h)
       case Fine((t, c)) =>
         Some(s.(waiting := t, calls := s.calls[c := Resumed(h, result)], resumed := s.resumed[h := result]))
       case _ => Some(s))
    case Continue(c) =>
      var p := s.calls[c];
      Some(s.(calls := s.calls[c := if p.result == READY then Ready(p.last) else Polling]))
    case Complete(c, ok) =>
      Some(s.(calls := s.calls[c := Completed(s.calls[c].last, ok)], completions := s.completions + multiset{c}))
    case Free(c) =>
      Some(s.(calls := s.calls[c := Returned(s.calls[c].last, s.calls[c].ok)], frees := s.frees + multiset{c}))
  }

  /** A run; steps that are not possible where they stand are skipped. */
  function Run(s: System, steps: seq<Step>): (r: Maybe<System>)
    decreases |steps|
  {
    if steps == [] then Some(s)
    else if !Enabled(s, steps[0]) then Run(s, steps[1..])
    else
      match Do(s, steps[0])
      case None => None
      case Some(next) => Run(next, steps[1..])
  }

  /** Which continuations are still to be resumed, and by whom they are awaited. */
  ghost predicate MapMatches(s: System) {
    && (forall h :: h in s.inserted ==> h < s.waiting.current)
    && s.waiting.live.Keys !! s.resumed.Keys
    && s.inserted.Keys == s.waiting.live.Keys + s.resumed.Keys
    && (forall h :: h in s.waiting.live ==>
          s.waiting.live[h] == s.inserted[h] && s.inserted[h] in s.calls && s.calls[s.inserted[h]] == Waiting(h))
  }

  ghost predicate PhaseMatches(s: System, c: CallId)
    requires c in s.calls
  {
    var p := s.calls[c];
    && (p.Waiting? ==> p.handle in s.waiting.live && s.waiting.live[p.handle] == c)
    && (!p.Polling? && !p.Waiting? ==>
          && p.last in s.resumed && p.last in s.inserted && s.inserted[p.last] == c
          && s.resumed[p.last] == (if p.Resumed? then p.result else READY))
    && s.completions[c] == (if p.Completed? || p.Returned? then 1 else 0)
    && s.frees[c] == (if p.Returned? then 1 else 0)
  }

  ghost predicate Inv(s: System) {
    && MapMatches(s)
    && (forall c :: c in s.calls ==> PhaseMatches(s, c))
    && (forall c :: c !in s.calls ==> s.completions[c] == 0 && s.frees[c] == 0)
  }

  /** What has been recorded stays recorded; in particular nothing is resumed twice. */
  ghost predicate Extends(later: System, s: System) {
    && (forall h :: h in s.inserted ==> h in later.inserted && later.inserted[h] == s.inserted[h])
    && (forall h :: h in s.resumed ==> h in later.resumed && later.resumed[h] == s.resumed[h])
    && s.completions <= later.completions && s.frees <= later.frees
  }

  lemma PollKeepsMap(s: System, next: System, c: CallId, h: Handle)
    requires MapMatches(s) && h == s.waiting.current && c in s.calls && s.calls[c] == Polling
    requires next == s.(waiting := Table(s.waiting.live[h := c], h + DELTA), calls := s.calls[c := Waiting(h)],
                        inserted := s.inserted[h := c])
    ensures MapMatches(next)
  {
    assert h !in s.inserted;
    assert next.waiting.live.Keys == s.waiting.live.Keys + {h};
    assert next.inserted.Keys == s.inserted.Keys + {h};
  }

  lemma PollKeepsPhase(s: System, next: System, c: CallId, h: Handle, d: CallId)
    requires h !in s.waiting.live && h !in s.inserted && c in s.calls && s.calls[c] == Polling
    requires next == s.(waiting := Table(s.waiting.live[h := c], h + DELTA), calls := s.calls[c := Waiting(h)],
                        inserted := s.inserted[h := c])
    requires d in s.calls && PhaseMatches(s, d) && PhaseMatches(s, c)
    ensures PhaseMatches(next, d)
  {
  }

  lemma PollKeepsInv(s: System, c: CallId)
    requires Inv(s) && Enabled(s, Poll(c)) && Do(s, Poll(c)).Some?
    ensures Inv(Do(s, Poll(c)).value)
  {
    var next, h := Do(s, Poll(c)).value, s.waiting.current;
    assert h !in s.inserted && h !in s.waiting.live;
    hide MapMatches, PhaseMatches;
    PollKeepsMap(s, next, c, h);
    forall d | d in next.calls
      ensures PhaseMatches(next, d)
    {
      PollKeepsPhase(s, next, c, h, d);
    }
  }

  lemma CallbackKeepsMap(s: System, next: System, h: Handle, result: int)
    requires MapMatches(s) && h in s.waiting.live
    requires next == s.(waiting := s.waiting.(live := s.waiting.live - {h}),
                        calls := s.calls[s.waiting.live[h] := Resumed(h, result)],
                        resumed := s.resumed[h := result])
    ensures MapMatches(next)
  {
    assert next.waiting.live.Keys == s.waiting.live.Keys - {h};
    assert next.resumed.Keys == s.resumed.Keys + {h};
  }

  lemma CallbackKeepsPhase(s: System, next: System, h: Handle, result: int, d: CallId)
    requires h in s.waiting.live && h in s.inserted && s.inserted[h] == s.waiting.live[h] && h !in s.resumed
    requires s.inserted[h] in s.calls && s.calls[s.inserted[h]] == Waiting(h)
    requires next == s.(waiting := s.waiting.(live := s.waiting.live - {h}),
                        calls := s.calls[s.waiting.live[h] := Resumed(h, result)],
                        resumed := s.resumed[h := result])
    requires d in s.calls && PhaseMatches(s, d) && PhaseMatches(s, s.inserted[h])
    ensures PhaseMatches(next, d)
  {
  }

  lemma CallbackKeepsInv(s: System, h: Handle, result: int)
    requires Inv(s) && h in s.waiting.live
    ensures Inv(Do(s, Callback(h, result)).value)
  {
    var next := Do(s, Callback(h, result)).value;
    assert h in s.inserted && h !in s.resumed && s.inserted[h] in s.calls && s.calls[s.inserted[h]] == Waiting(h);
    assert s.waiting.live[h] == s.inserted[h];
    hide MapMatches, PhaseMatches;
    CallbackKeepsMap(s, next, h, result);
    forall d | d in next.calls
      ensures PhaseMatches(next, d)
    {
      CallbackKeepsPhase(s, next, h, result, d);
    }
  }

  /** The steps that leave the map alone. */
  lemma OwnStepKeepsMap(s: System, e: Step)
    requires Inv(s) && Enabled(s, e) && !e.Poll? && !e.Callback?
    ensures MapMatches(Do(s, e).value)
  {
  }

  lemma OwnStepKeepsPhase(s: System, e: Step, d: CallId)
    requires Inv(s) && Enabled(s, e) && !e.Poll? && !e.Callback? && d in Do(s, e).value.calls
    ensures PhaseMatches(Do(s, e).value, d)
  {
    hide MapMatches;
    if d in s.calls {
      assert PhaseMatches(s, d);
    }
    match e
    case Begin(c) =>
    case Continue(c) =>
    case Complete(c, _) =>
    case Free(c) =>
  }

  lemma OwnStepKeepsInv(s: System, e: Step)
    requires Inv(s) && Enabled(s, e) && !e.Poll? && !e.Callback?
    ensures Inv(Do(s, e).value)
  {
    hide MapMatches, PhaseMatches;
    OwnStepKeepsMap(s, e);
    forall d | d in Do(s, e).value.calls
      ensures PhaseMatches(Do(s, e).value, d)
    {
      OwnStepKeepsPhase(s, e, d);
    }
  }

  lemma StepExtends(s: System, e: Step)
    requires MapMatches(s) && Enabled(s, e) && Do(s, e).Some?
    ensures Extends(Do(s, e).value, s)
  {
  }

  lemma StepKeepsInv(s: System, e: Step)
    requires Inv(s) && Enabled(s, e) && Do(s, e).Some?
    ensures Inv(Do(s, e).value) && Extends(Do(s, e).value, s)
  {
    StepExtends(s, e);
    hide MapMatches, PhaseMatches, Extends;
    match e
    case Poll(c) => PollKeepsInv(s, c);
    case Callback(h, result) =>
      if h in s.waiting.live {
        CallbackKeepsInv(s, h, result);
      }
    case _ => OwnStepKeepsInv(s, e);
  }

  lemma {:induction false} RunKeepsInv(s: System, steps: seq<Step>)
    requires Inv(s)
    ensures Run(s, steps).Some? ==> Inv(Run(s, steps).value) && Extends(Run(s, steps).value, s)
    decreases |steps|
  {
    if steps == [] {
    } else if !Enabled(s, steps[0]) {
      RunKeepsInv(s, steps[1..]);
    } else if Do(s, steps[0]).Some? {
      StepKeepsInv(s, steps[0]);
      RunKeepsInv(Do(s, steps[0]).value, steps[1..]);
    }
  }

  // ---------------------------------------------------------------------------------------------
  // What this gives for every interleaving
  // ---------------------------------------------------------------------------------------------

  /**
    In every reachable state: a continuation that was resumed was resumed by its own callback and is no
    longer waiting; a call has completed only after one of its continuations was resumed with READY;
    completion and free happen at most once for each call, and the free exactly when it returned; and
    a call that is not waiting has no handle left in the map.
   */
  lemma EveryRunIsOrderly(steps: seq<Step>, c: CallId)
    requires Run(Idle(), steps).Some? && c in Run(Idle(), steps).value.calls
    ensures var s := Run(Idle(), steps).value;
            && s.completions[c] <= 1
            && s.frees[c] == (if s.calls[c].Returned? then 1 else 0)
            && (s.completions[c] == 1 ==>
                  exists h :: h in s.resumed && h in s.inserted && s.inserted[h] == c && s.resumed[h] == READY)
            && (forall h :: h in s.waiting.live ==> h !in s.resumed)
            && (!s.calls[c].Waiting? ==> forall h :: h in s.waiting.live ==> s.waiting.live[h] != c)
  {
    RunKeepsInv(Idle(), steps);
    var s := Run(Idle(), steps).value;
    assert PhaseMatches(s, c);
    if s.completions[c] == 1 {
      var h := s.calls[c].last;
      assert h in s.resumed && s.inserted[h] == c && s.resumed[h] == READY;
    }
  }

  /** A callback on a handle that was resumed before, or never inserted, changes nothing at all. */
  lemma StaleCallbackIsIdle(steps: seq<Step>, h: Handle, result: int)
    requires Run(Idle(), steps).Some?
    requires var s := Run(Idle(), steps).value; h in s.resumed || h !in s.inserted
    ensures Do(Run(Idle(), steps).value, Callback(h, result)) == Run(Idle(), steps)
  {
    RunKeepsInv(Idle(), steps);
  }

  /** Once resumed, a continuation keeps the result of that one callback through the rest of any run. */
  lemma ResumedOnce(steps: seq<Step>, more: seq<Step>, h: Handle)
    requires Run(Idle(), steps).Some? && h in Run(Idle(), steps).value.resumed
    requires Run(Run(Idle(), steps).value, more).Some?
    ensures var s, later := Run(Idle(), steps).value, Run(Run(Idle(), steps).value, more).value;
            h in later.resumed && later.resumed[h] == s.resumed[h] && h !in later.waiting.live
  {
    RunKeepsInv(Idle(), steps);
    RunKeepsInv(Run(Idle(), steps).value, more);
  }

  /** A call resumed with anything but READY polls again, with a handle never used before. */
  lemma WakePollsAgain(steps: seq<Step>, c: CallId)
    requires Run(Idle(), steps).Some?
    requires var s := Run(Idle(), steps).value; c in s.calls && s.calls[c].Resumed? && s.calls[c].result != READY
    requires var s := Run(Idle(), steps).value; s.waiting.current + DELTA <= MAX_UINT64
    ensures var s := Run(Idle(), steps).value;
            var again := Do(s, Continue(c)).value;
            && Enabled(again, Poll(c))
            && Do(again, Poll(c)).Some?
            && Do(again, Poll(c)).value.calls[c].Waiting?
            && Do(again, Poll(c)).value.calls[c].handle !in s.inserted
  {
    RunKeepsInv(Idle(), steps);
  }

  /** No wake-up is lost: a waiting call can always be woken, and READY takes it through to its return. */
  lemma ReadyLeadsToReturn(steps: seq<Step>, c: CallId, ok: bool)
    requires Run(Idle(), steps).Some?
    requires var s := Run(Idle(), steps).value; c in s.calls && s.calls[c].Waiting?
    ensures var s := Run(Idle(), steps).value;
            var end := Run(s, [Callback(s.calls[c].handle, READY), Continue(c), Complete(c, ok), Free(c)]);
            && end.Some?
            && c in end.value.calls
            && end.value.calls[c] == Returned(s.calls[c].handle, ok)
            && end.value.frees[c] == s.frees[c] + 1
  {
    RunKeepsInv(Idle(), steps);
    assert PhaseMatches(Run(Idle(), steps).value, c);
    hide Inv, MapMatches, Run;
    WaitingFinishes(Run(Idle(), steps).value, c, ok);
  }

  lemma WaitingFinishes(s: System, c: CallId, ok: bool)
    requires c in s.calls && s.calls[c].Waiting?
    requires s.calls[c].handle in s.waiting.live && s.waiting.live[s.calls[c].handle] == c
    ensures var end := Run(s, [Callback(s.calls[c].handle, READY), Continue(c), Complete(c, ok), Free(c)]);
            && end.Some?
            && c in end.value.calls
            && end.value.calls[c] == Returned(s.calls[c].handle, ok)
            && end.value.frees[c] == s.frees[c] + 1
  {
    hide Run;
    var h := s.calls[c].handle;
    RunCons(s, Callback(h, READY), [Continue(c), Complete(c, ok), Free(c)]);
    ReadyFinishes(Do(s, Callback(h, READY)).value, c, ok);
    assert [Callback(h, READY), Continue(c), Complete(c, ok), Free(c)] ==
           [Callback(h, READY)] + [Continue(c), Complete(c, ok), Free(c)];
  }

  lemma ReadyFinishes(s: System, c: CallId, ok: bool)
    requires c in s.calls && s.calls[c].Resumed? && s.calls[c].result == READY
    ensures var end := Run(s, [Continue(c), Complete(c, ok), Free(c)]);
            && end.Some?
            && c in end.value.calls
            && end.value.calls[c] == Returned(s.calls[c].last, ok)
            && end.value.frees[c] == s.frees[c] + 1
  {
    hide Run;
    var s1 := Do(s, Continue(c)).value;
    RunCons(s, Continue(c), [Complete(c, ok), Free(c)]);
    assert [Continue(c), Complete(c, ok), Free(c)] == [Continue(c)] + [Complete(c, ok), Free(c)];
    var s2 := Do(s1, Complete(c, ok)).value;
    RunCons(s1, Complete(c, ok), [Free(c)]);
    assert [Complete(c, ok), Free(c)] == [Complete(c, ok)] + [Free(c)];
    RunCons(s2, Free(c), []);
    assert [Free(c)] == [Free(c)] + [];
    RunNothing(Do(s2, Free(c)).value);
  }

  lemma RunNothing(s: System)
    ensures Run(s, []) == Some(s)
  {
  }

  lemma RunCons(s: System, e: Step, rest: seq<Step>)
    requires Enabled(s, e) && Do(s, e).Some?
    ensures Run(s, [e] + rest) == Run(Do(s, e).value, rest)
  {
    assert ([e] + rest)[1..] == rest;
  }

  // ---------------------------------------------------------------------------------------------
  // What the events of a run say about its end
  // ---------------------------------------------------------------------------------------------

  lemma {:induction false} RunAppends(s: System, steps: seq<Step>, more: seq<Step>)
    ensures Run(s, steps + more) == match Run(s, steps) case None => None case Some(t) => Run(t, more)
    decreases |steps|
  {
    hide Do, Enabled;
    if steps == [] {
      assert steps + more == more;
    } else {
      assert (steps + more)[1..] == steps[1..] + more;
      if !Enabled(s, steps[0]) {
        RunAppends(s, steps[1..], more);
      } else if Do(s, steps[0]).Some? {
        RunAppends(Do(s, steps[0]).value, steps[1..], more);
      }
    }
  }

  /** One more step at the end of a run; a run that has trapped stays trapped. */
  lemma RunSnoc(s: System, steps: seq<Step>, e: Step)
    ensures Run(s, steps + [e]) ==
            match Run(s, steps)
            case None => None
            case Some(t) => if Enabled(t, e) then Do(t, e) else Some(t)
  {
    RunAppends(s, steps, [e]);
    assert [e][1..] == [];
    hide Do, Enabled;
  }

  /** The last step of a run that did not trap, and the reachable state it is taken in. */
  lemma LastStep(steps: seq<Step>)
    requires steps != [] && Run(Idle(), steps).Some?
    ensures var n := |steps| - 1;
            && steps == steps[..n] + [steps[n]]
            && Run(Idle(), steps[..n]).Some?
            && Inv(Run(Idle(), steps[..n]).value)
            && var t := Run(Idle(), steps[..n]).value;
               if Enabled(t, steps[n]) then Do(t, steps[n]) == Run(Idle(), steps) else t == Run(Idle(), steps).value
  {
    hide Inv, Do, Enabled, Run;
    var n := |steps| - 1;
    assert steps == steps[..n] + [steps[n]];
    RunSnoc(Idle(), steps[..n], steps[n]);
    IdleIsOrderly();
    RunKeepsInv(Idle(), steps[..n]);
  }

  lemma IdleIsOrderly()
    ensures Inv(Idle())
  {
  }

  /** After the first `k` steps, the continuation behind `h` has been inserted. */
  ghost predicate InsertedBy(steps: seq<Step>, k: nat, h: Handle) {
    k <= |steps| && Run(Idle(), steps[..k]).Some? && h in Run(Idle(), steps[..k]).value.inserted
  }

  ghost predicate CalledBack(steps: seq<Step>, k: nat, h: Handle) {
    k < |steps| && steps[k].Callback? && steps[k].handle == h && InsertedBy(steps, k, h)
  }

  /** Step `k` is the first callback on `h` once it was inserted. */
  ghost predicate Answers(steps: seq<Step>, k: nat, h: Handle) {
    k < |steps| && CalledBack(steps, k, h) && forall j :: 0 <= j < k ==> !CalledBack(steps, j, h)
  }

  lemma CalledBackEarlier(steps: seq<Step>, n: nat, k: nat, h: Handle)
    requires k < n <= |steps|
    ensures CalledBack(steps[..n], k, h) <==> CalledBack(steps, k, h)
  {
    assert steps[..n][..k] == steps[..k];
  }

  /** A callback on an inserted handle leaves it resumed. */
  lemma CallbackResumes(s: System, h: Handle, result: int)
    requires Inv(s) && h in s.inserted
    ensures h in Do(s, Callback(h, result)).value.resumed
    ensures h !in s.resumed ==> Do(s, Callback(h, result)).value.resumed[h] == result
  {
  }

  lemma OnlyCallbacksResume(s: System, e: Step, h: Handle)
    requires Inv(s) && Enabled(s, e) && Do(s, e).Some?
    ensures h in s.resumed ==> h in Do(s, e).value.resumed && Do(s, e).value.resumed[h] == s.resumed[h]
    ensures h !in s.resumed && h in Do(s, e).value.resumed ==>
              e == Callback(h, Do(s, e).value.resumed[h]) && h in s.inserted
  {
  }

  lemma {:induction false} CalledBackIsResumed(steps: seq<Step>, k: nat, h: Handle)
    requires Run(Idle(), steps).Some? && CalledBack(steps, k, h)
    ensures h in Run(Idle(), steps).value.resumed
    decreases |steps|
  {
    hide Inv, Do, Run;
    var n := |steps| - 1;
    LastStep(steps);
    var t := Run(Idle(), steps[..n]).value;
    if k == n {
      CallbackResumes(t, h, steps[n].result);
    } else {
      CalledBackEarlier(steps, n, k, h);
      CalledBackIsResumed(steps[..n], k, h);
      if Enabled(t, steps[n]) {
        OnlyCallbacksResume(t, steps[n], h);
      }
    }
  }

  /**
    What a continuation was resumed with is the argument of the first callback made on its handle since
    it was inserted.
   */
  lemma {:induction false} ResumedByFirstCallback(steps: seq<Step>, h: Handle) returns (k: nat)
    requires Run(Idle(), steps).Some? && h in Run(Idle(), steps).value.resumed
    ensures Answers(steps, k, h) && steps[k] == Callback(h, Run(Idle(), steps).value.resumed[h])
    decreases |steps|
  {
    hide Inv, Do, Run, CalledBack;
    assert steps != [] by {
      RunNothing(Idle());
    }
    var n := |steps| - 1;
    LastStep(steps);
    var t := Run(Idle(), steps[..n]).value;
    if Enabled(t, steps[n]) {
      OnlyCallbacksResume(t, steps[n], h);
    }
    if h in t.resumed {
      k := ResumedByFirstCallback(steps[..n], h);
      AnswersEarlier(steps, n, k, h);
    } else {
      k := n;
      CallsBack(steps, n, h);
      forall j | 0 <= j < n
        ensures !CalledBack(steps, j, h)
      {
        CalledBackEarlier(steps, n, j, h);
        if CalledBack(steps[..n], j, h) {
          CalledBackIsResumed(steps[..n], j, h);
        }
      }
    }
  }

  lemma CallsBack(steps: seq<Step>, n: nat, h: Handle)
    requires n < |steps| && steps[n].Callback? && steps[n].handle == h
    requires Run(Idle(), steps[..n]).Some? && h in Run(Idle(), steps[..n]).value.inserted
    ensures CalledBack(steps, n, h)
  {
  }

  lemma AnswersEarlier(steps: seq<Step>, n: nat, k: nat, h: Handle)
    requires k < n <= |steps|
    ensures Answers(steps[..n], k, h) <==> Answers(steps, k, h)
  {
    hide CalledBack;
    forall j | 0 <= j <= k
      ensures CalledBack(steps[..n], j, h) <==> CalledBack(steps, j, h)
    {
      CalledBackEarlier(steps, n, j, h);
    }
  }

  /** And conversely: the first callback on an inserted handle decides what its continuation is resumed with. */
  lemma FirstCallbackResumes(steps: seq<Step>, k: nat, h: Handle)
    requires Run(Idle(), steps).Some? && Answers(steps, k, h)
    ensures h in Run(Idle(), steps).value.resumed && Run(Idle(), steps).value.resumed[h] == steps[k].result
  {
    hide Run, CalledBack;
    CalledBackIsResumed(steps, k, h);
    var first := ResumedByFirstCallback(steps, h);
    assert first == k;
  }

  /** A handle is made for one call, by a poll of that call, which from then on waits with it. */
  lemma {:induction false} InsertedByPoll(steps: seq<Step>, h: Handle) returns (k: nat)
    requires Run(Idle(), steps).Some? && h in Run(Idle(), steps).value.inserted
    ensures k < |steps| && !InsertedBy(steps, k, h) && InsertedBy(steps, k + 1, h)
    ensures Run(Idle(), steps[..k]).Some?
    ensures var c := Run(Idle(), steps).value.inserted[h];
            var s := Run(Idle(), steps[..k + 1]).value;
            steps[k] == Poll(c) && c in s.calls && s.calls[c] == Waiting(h)
    decreases |steps|
  {
    hide Inv, Do, Run;
    assert steps != [] by {
      RunNothing(Idle());
    }
    var n := |steps| - 1;
    LastStep(steps);
    var t := Run(Idle(), steps[..n]).value;
    if Enabled(t, steps[n]) {
      OnlyPollsInsert(t, steps[n], h);
    }
    if h in t.inserted {
      k := InsertedByPoll(steps[..n], h);
      assert steps[..n][..k] == steps[..k] && steps[..n][..k + 1] == steps[..k + 1];
    } else {
      k := n;
      assert steps[..n + 1] == steps;
    }
  }

  lemma OnlyPollsInsert(s: System, e: Step, h: Handle)
    requires Inv(s) && Enabled(s, e) && Do(s, e).Some? && h in Do(s, e).value.inserted
    ensures var next := Do(s, e).value;
            if h in s.inserted then next.inserted[h] == s.inserted[h]
            else var c := next.inserted[h]; e == Poll(c) && c in next.calls && next.calls[c] == Waiting(h)
  {
  }

  predicate HasCompleted(s: System, c: CallId) { c in s.calls && (s.calls[c].Completed? || s.calls[c].Returned?) }

  lemma OnlyCompleteCompletes(s: System, e: Step, c: CallId)
    requires Inv(s) && Enabled(s, e) && Do(s, e).Some? && HasCompleted(Do(s, e).value, c)
    ensures var next := Do(s, e).value;
            if HasCompleted(s, c) then next.calls[c].ok == s.calls[c].ok
            else e == Complete(c, next.calls[c].ok) && c in s.calls && s.calls[c].Ready?
  {
    if c in s.calls {
      assert PhaseMatches(s, c);
    }
  }

  lemma {:induction false} CompletedByStep(steps: seq<Step>, c: CallId) returns (k: nat)
    requires Run(Idle(), steps).Some? && HasCompleted(Run(Idle(), steps).value, c)
    ensures k < |steps| && steps[k] == Complete(c, Run(Idle(), steps).value.calls[c].ok)
    ensures Run(Idle(), steps[..k]).Some?
    ensures var s := Run(Idle(), steps[..k]).value; c in s.calls && s.calls[c].Ready?
    decreases |steps|
  {
    hide Inv, Do, Run;
    assert steps != [] by {
      RunNothing(Idle());
    }
    var n := |steps| - 1;
    LastStep(steps);
    var t := Run(Idle(), steps[..n]).value;
    if Enabled(t, steps[n]) {
      OnlyCompleteCompletes(t, steps[n], c);
    }
    if HasCompleted(t, c) {
      k := CompletedByStep(steps[..n], c);
      assert steps[..n][..k] == steps[..k];
    } else {
      k := n;
    }
  }

  /**
    A call completes only after Rust has answered one of its own polls with READY: that callback was the
    first on a handle inserted by a poll of this call, and came before the completion.
   */
  lemma CompletedOnReady(steps: seq<Step>, c: CallId) returns (poll: nat, ready: nat, complete: nat)
    requires Run(Idle(), steps).Some? && HasCompleted(Run(Idle(), steps).value, c)
    ensures poll < ready < complete < |steps|
    ensures steps[complete] == Complete(c, Run(Idle(), steps).value.calls[c].ok)
    ensures steps[ready].Callback? && steps[ready].result == READY && Answers(steps, ready, steps[ready].handle)
    ensures steps[poll] == Poll(c) && InsertedBy(steps, poll + 1, steps[ready].handle)
    ensures !InsertedBy(steps, poll, steps[ready].handle)
  {
    hide Run, CalledBack, InsertedBy, Answers;
    complete := CompletedByStep(steps, c);
    var h := ReadyThrough(steps[..complete], c);
    ready := ResumedByFirstCallback(steps[..complete], h);
    AnswersInserted(steps[..complete], ready, h);
    AnswersEarlier(steps, complete, ready, h);
    InsertedEarlier(steps, complete, ready, h);
    poll := InsertedByPoll(steps[..complete], h);
    InsertedEarlier(steps, complete, poll, h);
    InsertedEarlier(steps, complete, poll + 1, h);
    assert steps[..complete][..poll] == steps[..poll];
    if ready <= poll {
      StaysInserted(steps, ready, poll, h);
    }
  }

  /** The continuation by which a call got ready. */
  lemma ReadyThrough(steps: seq<Step>, c: CallId) returns (h: Handle)
    requires Run(Idle(), steps).Some?
    requires var s := Run(Idle(), steps).value; c in s.calls && s.calls[c].Ready?
    ensures var s := Run(Idle(), steps).value;
            && h in s.resumed && s.resumed[h] == READY && h in s.inserted && s.inserted[h] == c
  {
    IdleIsOrderly();
    RunKeepsInv(Idle(), steps);
    var s := Run(Idle(), steps).value;
    hide Run, MapMatches;
    assert PhaseMatches(s, c);
    h := s.calls[c].last;
  }

  lemma InsertedEarlier(steps: seq<Step>, n: nat, k: nat, h: Handle)
    requires k <= n <= |steps|
    ensures InsertedBy(steps[..n], k, h) <==> InsertedBy(steps, k, h)
  {
    assert steps[..n][..k] == steps[..k];
  }

  lemma AnswersInserted(steps: seq<Step>, k: nat, h: Handle)
    requires Answers(steps, k, h)
    ensures k < |steps| && InsertedBy(steps, k, h)
  {
  }

  lemma {:induction false} StaysInserted(steps: seq<Step>, i: nat, j: nat, h: Handle)
    requires i <= j <= |steps| && InsertedBy(steps, i, h) && Run(Idle(), steps[..j]).Some?
    ensures InsertedBy(steps, j, h)
    decreases j
  {
    hide Inv, Do, Run;
    if i < j {
      LastStep(steps[..j]);
      assert steps[..j][..j - 1] == steps[..j - 1];
      StaysInserted(steps, i, j - 1, h);
      var t := Run(Idle(), steps[..j - 1]).value;
      if Enabled(t, steps[j - 1]) {
        StepKeepsInv(t, steps[j - 1]);
      }
    }
  }

  /** A waiting call that is called back goes on by the argument: READY ends the loop, anything else polls again. */
  lemma CallbackDecides(steps: seq<Step>, c: CallId, result: int)
    requires Run(Idle(), steps).Some?
    requires var s := Run(Idle(), steps).value; c in s.calls && s.calls[c].Waiting?
    ensures var s := Run(Idle(), steps).value;
            var h := s.calls[c].handle;
            var end := Run(s, [Callback(h, result), Continue(c)]);
            && end.Some?
            && end.value.calls == s.calls[c := if result == READY then Ready(h) else Polling]
            && end.value.waiting == s.waiting.(live := s.waiting.live - {h})
  {
    IdleIsOrderly();
    RunKeepsInv(Idle(), steps);
    var s := Run(Idle(), steps).value;
    hide Run;
    assert PhaseMatches(s, c);
    hide *;
    WaitingGoesOn(s, c, result);
  }

  lemma WaitingGoesOn(s: System, c: CallId, result: int)
    requires c in s.calls && s.calls[c].Waiting?
    requires s.calls[c].handle in s.waiting.live && s.waiting.live[s.calls[c].handle] == c
    ensures var h := s.calls[c].handle;
            var end := Run(s, [Callback(h, result), Continue(c)]);
            && end.Some?
            && end.value.calls == s.calls[c := if result == READY then Ready(h) else Polling]
            && end.value.waiting == s.waiting.(live := s.waiting.live - {h})
            && end.value.completions == s.completions && end.value.frees == s.frees
  {
    hide Run;
    var h := s.calls[c].handle;
    var next := Do(s, Callback(h, result)).value;
    RunCons(s, Callback(h, result), [Continue(c)]);
    assert [Callback(h, result), Continue(c)] == [Callback(h, result)] + [Continue(c)];
    RunSingle(next, Continue(c));
  }

  lemma RunSingle(s: System, e: Step)
    requires Enabled(s, e)
    ensures Run(s, [e]) == Do(s, e)
  {
    hide Do, Enabled;
    assert [e][1..] == [];
  }
}

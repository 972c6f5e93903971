/** Async callbacks that Rust makes into Swift: each runs as a task, reports once, and may be cancelled by a drop. */
module ForeignFutures {
  import opened Optionals
  import opened Handles
  import opened HandleMap

  /** The code each side of the FFI knows the ways a call can end by. */
  const CALL_ERROR := 1
  const CALL_UNEXPECTED_ERROR := 2

  type TaskId = nat

  /** How `makeCall` ends: with a value, with an error of the declared type, or with any other. */
  datatype Outcome = Returned(value: string) | ThrewDeclared(lowered: string, description: string)
    | ThrewOther(description: string)

  /**
    Cancelling a task sets a flag that the code under `makeCall` may look at: how the call ends if the flag
    is not set by then, and how it ends if it is. Code that never looks has the same outcome twice.
   */
  datatype Ending = Ending(undisturbed: Outcome, cancelled: Outcome) {
    function Under(flag: bool): (o: Outcome) { if flag then cancelled else undisturbed }
  }

  /** The call made into Rust: `handleSuccess` or `handleError`. */
  datatype Report = Success(value: string) | Failure(code: int, payload: string)

  /** `declares` tells `uniffiTraitInterfaceCallAsyncWithError` from the variant that knows no error type. */
  function ReportOf(declares: bool, o: Outcome): (r: Report) {
    match o
    case Returned(v) => Success(v)
    case ThrewDeclared(lowered, description) =>
      if declares then Failure(CALL_ERROR, lowered) else Failure(CALL_UNEXPECTED_ERROR, description)
    case ThrewOther(description) => Failure(CALL_UNEXPECTED_ERROR, description)
  }

  /**
    `reports` records the calls of the two handlers; `handle` is there once the task is in the map. Once the
    task has ended, `ending` says how, and `flagged` whether it found itself cancelled.
   */
  datatype TaskState = TaskState(
    declares: bool, handle: Maybe<Handle>, ending: Maybe<Ending>, flagged: bool, reports: seq<Report>)
  {
    predicate Running() { ending.None? }
  }

  datatype System = System(
    table: Table<TaskId>, tasks: map<TaskId, TaskState>, cancelled: set<TaskId>, registered: nat, drops: nat)

  const IDLE := System(Empty(), map[], {}, 0, 0)

  datatype Step =
    | Begin(task: TaskId, declares: bool)     // `Task { ... }`: from here on it may finish at any time
    | Register(task: TaskId)                  // its handle goes to Rust
    | Finish(task: TaskId, ending: Ending)
    | Dropped(handle: Handle)                 // made by Rust, with any handle at any time

  predicate Enabled(s: System, e: Step) {
    match e
    case Begin(t, _) => t !in s.tasks
    case Register(t) => t in s.tasks && s.tasks[t].handle.None?
    case Finish(t, _) => t in s.tasks && s.tasks[t].Running()
    case Dropped(_) => true
  }

  /** The body of the task behind `makeCall`. */
  function Ended(task: TaskState, ending: Ending, flag: bool): (r: TaskState) {
    task.(ending := Some(ending), flagged := flag,
          reports := task.reports + [ReportOf(task.declares, ending.Under(flag))])
  }

  /** `None` when the process traps: the handle counter is exhausted. */
  function Do(s: System, e: Step): (r: Maybe<System>)
    requires Enabled(s, e)
  {
    match e
    case Begin(t, declares) => Some(s.(tasks := s.tasks[t := TaskState(declares, None, None, false, [])]))
    case Register(t) =>
      (match Insert(s.table, t)
       case Fine((table, h)) =>
         Some(s.(table := table, tasks := s.tasks[t := s.tasks[t].(handle := Some(h))], registered := s.registered + 1))
       case _ => None)
    case Finish(t, ending) => Some(s.(tasks := s.tasks[t := Ended(s.tasks[t], ending, t in s.cancelled)]))
    case Dropped(h) =>
      (match Remove(s.table, h)
       case Fine((table, t)) => Some(s.(table := table, cancelled := s.cancelled + {t}, drops := s.drops + 1))
       case _ => Some(s))
  }

  function Run(s: System, steps: seq<Step>): (r: Maybe<System>)
    decreases |steps|
  {
    if steps == [] then Some(s)
    else if !Enabled(s, steps[0]) then Run(s, steps[1..])
    else
      match Do(s, steps[0])
      case None => None
      case Some(next) => Run(next, steps[1..])
  }

  predicate TaskMatches(s: System, t: TaskId)
    requires t in s.tasks
  {
    var task := s.tasks[t];
    && task.reports == (if task.Running() then [] else [ReportOf(task.declares, task.ending.value.Under(task.flagged))])
    && (task.flagged ==> !task.Running() && t in s.cancelled)
    && (task.handle.None? ==> t !in s.cancelled)
    && (task.handle.Some? ==>
          && task.handle.value < s.table.current
          && (t in s.cancelled <==> task.handle.value !in s.table.live)
          && (t !in s.cancelled ==> s.table.live[task.handle.value] == t))
  }

  ghost predicate Inv(s: System) {
    && (forall t :: t in s.tasks ==> TaskMatches(s, t))
    && (forall h :: h in s.table.live ==>
                      && h < s.table.current
                      && s.table.live[h] in s.tasks && s.tasks[s.table.live[h]].handle == Some(h))
    && s.cancelled <= s.tasks.Keys
    && |s.table.live| + s.drops == s.registered
  }

  lemma RegisterMatches(s: System, t: TaskId, u: TaskId)
    requires Inv(s) && Enabled(s, Register(t)) && Do(s, Register(t)).Some? && u in s.tasks
    ensures TaskMatches(Do(s, Register(t)).value, u)
  {
    assert TaskMatches(s, u) && TaskMatches(s, t);
  }

  lemma RegisterKeepsInv(s: System, t: TaskId)
    requires Inv(s) && Enabled(s, Register(t)) && Do(s, Register(t)).Some?
    ensures Inv(Do(s, Register(t)).value)
  {
    var next := Do(s, Register(t)).value;
    assert s.table.current !in s.table.live;
    forall u | u in next.tasks ensures TaskMatches(next, u) {
      RegisterMatches(s, t, u);
    }
    hide TaskMatches;
    OneMore(s.table.live, s.table.current, t);
  }

  lemma DropKeepsInv(s: System, h: Handle)
    requires Inv(s)
    ensures Inv(Do(s, Dropped(h)).value)
  {
    if h in s.table.live {
      var left := s.table.live - {h};
      assert left.Keys == s.table.live.Keys - {h};
      assert |left| == |left.Keys| == |s.table.live.Keys| - 1;
    }
  }

  lemma StepKeepsInv(s: System, e: Step)
    requires Inv(s) && Enabled(s, e) && Do(s, e).Some?
    ensures Inv(Do(s, e).value)
  {
    match e
    case Begin(_, _) =>
    case Register(t) => RegisterKeepsInv(s, t);
    case Finish(_, _) =>
    case Dropped(h) => DropKeepsInv(s, h);
  }

  /** What a task has reported, it has reported for good. */
  ghost predicate Keeps(later: System, s: System) {
    && s.cancelled <= later.cancelled
    && forall t :: t in s.tasks ==>
                     && t in later.tasks
                     && (s.tasks[t].Running() || later.tasks[t] == s.tasks[t].(handle := later.tasks[t].handle))
  }

  lemma StepKeeps(s: System, e: Step)
    requires Enabled(s, e) && Do(s, e).Some?
    ensures var next := Do(s, e).value;
            && s.cancelled <= next.cancelled
            && forall t :: t in s.tasks ==>
                             && t in next.tasks && (next.tasks[t].Running() ==> s.tasks[t].Running())
                             && (s.tasks[t].Running() || next.tasks[t] == s.tasks[t].(handle := next.tasks[t].handle))
  {
  }

  lemma {:induction false} RunKeepsInv(s: System, steps: seq<Step>)
    requires Inv(s) && Run(s, steps).Some?
    ensures Inv(Run(s, steps).value) && Keeps(Run(s, steps).value, s)
    decreases |steps|
  {
    hide Inv, Do;
    if steps == [] {
    } else if !Enabled(s, steps[0]) {
      RunKeepsInv(s, steps[1..]);
    } else {
      StepKeeps(s, steps[0]);
      StepKeepsInv(s, steps[0]);
      RunKeepsInv(Do(s, steps[0]).value, steps[1..]);
    }
  }

  /**
    In every run: a task that has ended made exactly one of the two calls, once, and one still running
    none; it is cancelled exactly if its handle was registered and dropped since; and the handles left
    are those registered and not dropped, whatever the order of finishing, registering and dropping.
   */
  lemma EveryTaskReportsOnce(steps: seq<Step>, t: TaskId)
    requires Run(IDLE, steps).Some? && t in Run(IDLE, steps).value.tasks
    ensures var s := Run(IDLE, steps).value;
            var task := s.tasks[t];
            && |task.reports| == (if task.Running() then 0 else 1)
            && (t in s.cancelled <==> task.handle.Some? && task.handle.value !in s.table.live)
            && |s.table.live| == s.registered - s.drops
  {
    RunKeepsInv(IDLE, steps);
  }

  /** Once a handle was dropped, dropping it again does nothing, then and ever after. */
  lemma SecondDropIsIdle(s: System, h: Handle, more: seq<Step>)
    requires h < s.table.current && Run(Do(s, Dropped(h)).value, more).Some?
    ensures var later := Run(Do(s, Dropped(h)).value, more).value;
            Do(later, Dropped(h)) == Some(later)
  {
    StaysDropped(Do(s, Dropped(h)).value, h, more);
  }

  lemma {:induction false} StaysDropped(s: System, h: Handle, steps: seq<Step>)
    requires h !in s.table.live && h < s.table.current && Run(s, steps).Some?
    ensures h !in Run(s, steps).value.table.live
    decreases |steps|
  {
    if steps == [] {
    } else if !Enabled(s, steps[0]) {
      StaysDropped(s, h, steps[1..]);
    } else {
      StaysDropped(Do(s, steps[0]).value, h, steps[1..]);
    }
  }

  function WithoutDrops(steps: seq<Step>): (r: seq<Step>) {
    if steps == [] then []
    else (if steps[0].Dropped? then [] else [steps[0]]) + WithoutDrops(steps[1..])
  }

  predicate SameTask(x: TaskState, y: TaskState) {
    && x.declares == y.declares && x.handle == y.handle && x.ending == y.ending && !y.flagged
    && x.reports == (if x.Running() then [] else [ReportOf(x.declares, x.ending.value.Under(x.flagged))])
    && y.reports == (if y.Running() then [] else [ReportOf(y.declares, y.ending.value.undisturbed)])
  }

  /** `b` went through the same steps as `a`, but for the drops. */
  ghost predicate SameButDrops(a: System, b: System) {
    && a.table.current == b.table.current && b.cancelled == {}
    && a.tasks.Keys == b.tasks.Keys && forall t :: t in a.tasks ==> SameTask(a.tasks[t], b.tasks[t])
  }

  lemma StepIgnoresDrops(a: System, b: System, e: Step)
    requires SameButDrops(a, b) && !e.Dropped?
    ensures Enabled(a, e) <==> Enabled(b, e)
    ensures Enabled(a, e) ==>
              && (Do(a, e).Some? <==> Do(b, e).Some?)
              && (Do(a, e).Some? ==> SameButDrops(Do(a, e).value, Do(b, e).value))
  {
    if !e.Begin? {
      assert e.task in a.tasks ==> SameTask(a.tasks[e.task], b.tasks[e.task]);
    }
  }

  lemma DropIsSame(a: System, b: System, h: Handle)
    requires SameButDrops(a, b)
    ensures Enabled(a, Dropped(h)) && Do(a, Dropped(h)).Some? && SameButDrops(Do(a, Dropped(h)).value, b)
  {
  }

  lemma {:induction false} RunIgnoresDrops(a: System, b: System, steps: seq<Step>)
    requires SameButDrops(a, b)
    ensures Run(a, steps).Some? <==> Run(b, WithoutDrops(steps)).Some?
    ensures Run(a, steps).Some? ==> SameButDrops(Run(a, steps).value, Run(b, WithoutDrops(steps)).value)
    decreases |steps|
  {
    hide Do, Enabled, SameButDrops;
    if steps == [] {
    } else if steps[0].Dropped? {
      DropIsSame(a, b, steps[0].handle);
      assert WithoutDrops(steps) == WithoutDrops(steps[1..]);
      RunIgnoresDrops(Do(a, steps[0]).value, b, steps[1..]);
    } else {
      StepIgnoresDrops(a, b, steps[0]);
      assert WithoutDrops(steps)[0] == steps[0] && WithoutDrops(steps)[1..] == WithoutDrops(steps[1..]);
      if !Enabled(a, steps[0]) {
        RunIgnoresDrops(a, b, steps[1..]);
      } else if Do(a, steps[0]).Some? {
        RunIgnoresDrops(Do(a, steps[0]).value, Do(b, steps[0]).value, steps[1..]);
      }
    }
  }

  /**
    What drops can change: never whether or how often a task reports. What it reports differs from the run
    without the drops exactly if the task was cancelled by the time it ended and its code minds the flag.
   */
  lemma DropsChangeReportsIff(steps: seq<Step>, t: TaskId)
    requires Run(IDLE, steps).Some?
    ensures Run(IDLE, WithoutDrops(steps)).Some?
    ensures var a, b := Run(IDLE, steps).value, Run(IDLE, WithoutDrops(steps)).value;
            && (t in a.tasks <==> t in b.tasks)
            && (t in a.tasks ==>
                  var x, y := a.tasks[t], b.tasks[t];
                  && |x.reports| == |y.reports| && x.ending == y.ending && x.declares == y.declares
                  && (x.flagged ==> t in a.cancelled)
                  && (x.reports != y.reports <==>
                        && !x.Running() && x.flagged
                        && ReportOf(x.declares, x.ending.value.cancelled) !=
                           ReportOf(x.declares, x.ending.value.undisturbed)))
  {
    RunIgnoresDrops(IDLE, IDLE, steps);
    RunKeepsInv(IDLE, steps);
    var a, b := Run(IDLE, steps).value, Run(IDLE, WithoutDrops(steps)).value;
    if t in a.tasks {
      assert SameTask(a.tasks[t], b.tasks[t]) && TaskMatches(a, t);
    }
  }

  lemma RunCons(s: System, e: Step, rest: seq<Step>)
    requires Enabled(s, e) && Do(s, e).Some?
    ensures Run(s, [e] + rest) == Run(Do(s, e).value, rest)
  {
    hide Do, Enabled;
    assert ([e] + rest)[1..] == rest;
  }

  /** A drop in time turns a success into an error, if the call throws on cancellation. */
  lemma DropCanChangeAReport(t: TaskId, v: string, description: string)
    ensures var end := Finish(t, Ending(Returned(v), ThrewOther(description)));
            var steps := [Begin(t, true)] + ([Register(t)] + ([Dropped(INITIAL)] + [end]));
            var with, without := Run(IDLE, steps), Run(IDLE, WithoutDrops(steps));
            && with.Some? && t in with.value.tasks
            && with.value.tasks[t].reports == [Failure(CALL_UNEXPECTED_ERROR, description)]
            && without.Some? && t in without.value.tasks
            && without.value.tasks[t].reports == [Success(v)]
  {
    var end := Finish(t, Ending(Returned(v), ThrewOther(description)));
    WithoutTheDrop(t, end);
    hide Run, WithoutDrops;
    var begun := Do(IDLE, Begin(t, true)).value;
    var there := Do(begun, Register(t)).value;
    var dropped := Do(there, Dropped(INITIAL)).value;
    RunCons(IDLE, Begin(t, true), [Register(t)] + ([Dropped(INITIAL)] + [end]));
    RunCons(begun, Register(t), [Dropped(INITIAL)] + [end]);
    RunCons(there, Dropped(INITIAL), [end]);
    RunOne(dropped, end);
    RunCons(IDLE, Begin(t, true), [Register(t)] + [end]);
    RunCons(begun, Register(t), [end]);
    RunOne(there, end);
  }

  lemma RunOne(s: System, e: Step)
    requires Enabled(s, e)
    ensures Run(s, [e]) == Do(s, e)
  {
    hide Do, Enabled;
    assert [e][1..] == [];
  }

  lemma WithoutTheDrop(t: TaskId, end: Step)
    requires end.Finish?
    ensures WithoutDrops([Begin(t, true)] + ([Register(t)] + ([Dropped(INITIAL)] + [end]))) ==
            [Begin(t, true)] + ([Register(t)] + [end])
  {
    var drop := [Dropped(INITIAL)] + [end];
    assert drop[1..] == [end] && [end][1..] == [];
    assert ([Register(t)] + drop)[1..] == drop;
    assert ([Begin(t, true)] + ([Register(t)] + drop))[1..] == [Register(t)] + drop;
    assert WithoutDrops([end]) == [end];
    assert WithoutDrops(drop) == [end];
  }

  // ---------------------------------------------------------------------------------------------
  // What a task reports, going by the steps of the run
  // ---------------------------------------------------------------------------------------------

  lemma {:induction false} RunSnoc(s: System, steps: seq<Step>, e: Step)
    ensures Run(s, steps + [e]) ==
            match Run(s, steps)
            case None => None
            case Some(t) => if Enabled(t, e) then Do(t, e) else Some(t)
    decreases |steps|
  {
    hide Do, Enabled;
    if steps == [] {
      assert [e][1..] == [];
    } else {
      assert (steps + [e])[1..] == steps[1..] + [e];
      if !Enabled(s, steps[0]) {
        RunSnoc(s, steps[1..], e);
      } else if Do(s, steps[0]).Some? {
        RunSnoc(Do(s, steps[0]).value, steps[1..], e);
      }
    }
  }

  lemma LastStep(steps: seq<Step>)
    requires steps != [] && Run(IDLE, steps).Some?
    ensures var n := |steps| - 1;
            && Run(IDLE, steps[..n]).Some?
            && var t := Run(IDLE, steps[..n]).value;
               if Enabled(t, steps[n]) then Do(t, steps[n]) == Run(IDLE, steps) else t == Run(IDLE, steps).value
  {
    hide Do, Enabled, Run;
    var n := |steps| - 1;
    assert steps == steps[..n] + [steps[n]];
    RunSnoc(IDLE, steps[..n], steps[n]);
  }

  /** A task comes from a `Begin`, and ends by a `Finish` that looks at the flag of that moment. */
  lemma StepOrigin(s: System, e: Step, t: TaskId)
    requires Enabled(s, e) && Do(s, e).Some? && t in Do(s, e).value.tasks
    ensures var task := Do(s, e).value.tasks[t];
            && (t !in s.tasks ==> e == Begin(t, task.declares) && task.Running())
            && (t in s.tasks ==>
                  && task.declares == s.tasks[t].declares
                  && (!s.tasks[t].Running() ==> task.ending == s.tasks[t].ending && task.flagged == s.tasks[t].flagged)
                  && (s.tasks[t].Running() && !task.Running() ==>
                        e == Finish(t, task.ending.value) && (task.flagged <==> t in s.cancelled)))
  {
  }

  lemma {:induction false} BegunAt(steps: seq<Step>, t: TaskId) returns (k: nat)
    requires Run(IDLE, steps).Some? && t in Run(IDLE, steps).value.tasks
    ensures k < |steps| && steps[k] == Begin(t, Run(IDLE, steps).value.tasks[t].declares)
    decreases |steps|
  {
    hide Do, Enabled;
    assert steps != [];
    hide Run;
    var n := |steps| - 1;
    LastStep(steps);
    var s := Run(IDLE, steps[..n]).value;
    if Enabled(s, steps[n]) {
      StepOrigin(s, steps[n], t);
    }
    if t in s.tasks {
      k := BegunAt(steps[..n], t);
    } else {
      k := n;
    }
  }

  lemma {:induction false} FinishedAt(steps: seq<Step>, t: TaskId) returns (k: nat)
    requires Run(IDLE, steps).Some? && t in Run(IDLE, steps).value.tasks && !Run(IDLE, steps).value.tasks[t].Running()
    ensures var task := Run(IDLE, steps).value.tasks[t];
            && k < |steps| && steps[k] == Finish(t, task.ending.value)
            && Run(IDLE, steps[..k]).Some? && (task.flagged <==> t in Run(IDLE, steps[..k]).value.cancelled)
    decreases |steps|
  {
    hide Do, Enabled;
    assert steps != [];
    hide Run;
    var n := |steps| - 1;
    LastStep(steps);
    var s := Run(IDLE, steps[..n]).value;
    if Enabled(s, steps[n]) {
      StepOrigin(s, steps[n], t);
    }
    if t in s.tasks && !s.tasks[t].Running() {
      k := FinishedAt(steps[..n], t);
      assert steps[..n][..k] == steps[..k];
    } else {
      k := n;
    }
  }

  /**
    What Rust is told: the value of a call that returned; code 1 with the lowered error of the declared type,
    where one is declared; and code 2 with the description of any other error. How the call ended goes by
    whether its handle had been dropped when it did.
   */
  lemma ReportTellsTheEnding(steps: seq<Step>, t: TaskId) returns (begin: nat, finish: nat)
    requires Run(IDLE, steps).Some? && t in Run(IDLE, steps).value.tasks && !Run(IDLE, steps).value.tasks[t].Running()
    ensures begin < |steps| && steps[begin].Begin? && steps[begin].task == t
    ensures finish < |steps| && steps[finish].Finish? && steps[finish].task == t && Run(IDLE, steps[..finish]).Some?
    ensures var ending := steps[finish].ending;
            var flag := t in Run(IDLE, steps[..finish]).value.cancelled;
            var outcome := if flag then ending.cancelled else ending.undisturbed;
            Run(IDLE, steps).value.tasks[t].reports ==
            match outcome
            case Returned(value) => [Success(value)]
            case ThrewDeclared(lowered, description) =>
              [if steps[begin].declares then Failure(1, lowered) else Failure(2, description)]
            case ThrewOther(description) => [Failure(2, description)]
  {
    begin := BegunAt(steps, t);
    finish := FinishedAt(steps, t);
    RunKeepsInv(IDLE, steps);
    assert TaskMatches(Run(IDLE, steps).value, t);
  }

  class ForeignFutureTasks {
    const handles: UniffiHandleMap<TaskId>
    var tasks: map<TaskId, TaskState>
    var cancelled: set<TaskId>
    ghost var registered: nat
    ghost var drops: nat

    ghost function Contents(): (s: System)
      reads this, handles
    {
      System(handles.Contents(), tasks, cancelled, registered, drops)
    }

    constructor ()
      ensures Contents() == IDLE && fresh(handles)
    {
      handles := new UniffiHandleMap();
      tasks, cancelled, registered, drops := map[], {}, 0, 0;
    }

    /** Starts the task, then puts it in the map; what the task does in between is left to `Step`. */
    method TraitInterfaceCallAsync(task: TaskId, declares: bool) returns (droppedHandle: Reply<Handle>)
      requires task !in tasks
      modifies this, handles
      ensures var begun := Do(old(Contents()), Begin(task, declares)).value;
              match Do(begun, Register(task))
              case Some(next) => Contents() == next && droppedHandle == Fine(old(handles.Contents()).current)
              case None => Contents() == begun && droppedHandle == Trap
    {
      tasks := tasks[task := TaskState(declares, None, None, false, [])];
      droppedHandle := handles.Insert(task);
      if droppedHandle.Fine? {
        tasks := tasks[task := tasks[task].(handle := Some(droppedHandle.value))];
        registered := registered + 1;
      }
    }

    /** The body of the task once `makeCall` has ended: one branch, one call. */
    method EndTask(task: TaskId, ending: Ending)
      requires task in tasks && tasks[task].Running()
      modifies this`tasks
      ensures Some(Contents()) == Do(old(Contents()), Finish(task, ending))
    {
      var state := tasks[task];
      var outcome := ending.undisturbed;
      if task in cancelled {
        outcome := ending.cancelled;
      }
      var report: Report;
      match outcome {
        case Returned(value) =>
          report := Success(value);
        case ThrewDeclared(lowered, description) =>
          report := Failure(CALL_UNEXPECTED_ERROR, description);
          if state.declares {
            report := Failure(CALL_ERROR, lowered);
          }
        case ThrewOther(description) =>
          report := Failure(CALL_UNEXPECTED_ERROR, description);
      }
      tasks := tasks[task := state.(ending := Some(ending), flagged := task in cancelled,
                                    reports := state.reports + [report])];
    }

    method UniffiForeignFutureDroppedCallback(handle: Handle) returns (known: bool)
      modifies this`cancelled, this`drops, handles
      ensures Some(Contents()) == Do(old(Contents()), Dropped(handle))
      ensures known <==> handle in old(handles.Contents()).live
    {
      var task := handles.Remove(handle);
      known := task.Fine?;
      if known {
        cancelled := cancelled + {task.value};
        drops := drops + 1;
      }
    }
  }
}

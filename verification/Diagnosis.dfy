/** The worker's chat diagnosis: six methods that climb from running to pass or fail, and one report when all have. */
module Diagnosis {
  import opened DiagnosisReport
  import opened Optionals

  datatype Method = CreateRoom | RegisterBot | ListSubscribe | PostMessage | ActionSubscribe | CustomMessageRender

  const METHODS: seq<Method> :=
    [CreateRoom, RegisterBot, ListSubscribe, PostMessage, ActionSubscribe, CustomMessageRender]

  const TITLE := "Truapi Chat Diagnosis"

  function Id(m: Method): (r: string) {
    match m
    case CreateRoom => "Chat/create_room"
    case RegisterBot => "Chat/register_bot"
    case ListSubscribe => "Chat/list_subscribe"
    case PostMessage => "Chat/post_message"
    case ActionSubscribe => "Chat/action_subscribe"
    case CustomMessageRender => "Chat/custom_message_render"
  }

  datatype Entry = Entry(status: Status, details: Maybe<string>)

  const ALL_RUNNING: map<Method, Entry> := map m: Method :: Entry(Running, None)

  type Table = t: map<Method, Entry> | forall m: Method :: m in t witness ALL_RUNNING

  datatype CopyStatus = IdleCopy | Copied | Unavailable

  /** The fields of the diagnosis and, of the worker, whether the final report was posted and what was posted. */
  datatype State = State(table: Table, copyStatus: CopyStatus, finalReportPosted: bool, reports: seq<string>)

  const FRESH := State(ALL_RUNNING, IdleCopy, false, [])

  datatype Event =
    | Passes(m: Method, details: string)
    | Fails(m: Method, error: string)
    | FailPending(error: string)
    | CopyDone
    | CopyFailed

  function Results(t: Table): (r: seq<Result>)
    ensures |r| == |METHODS|
  {
    seq(|METHODS|, i requires 0 <= i < |METHODS| =>
      Result(Id(METHODS[i]), t[METHODS[i]].status, t[METHODS[i]].details))
  }

  predicate Complete(t: Table) { forall m: Method :: t[m].status.Pass? || t[m].status.Fail? }

  function Markdown(t: Table): (r: string) { Report(Results(t), TITLE, false) }

  function OnPass(t: Table, m: Method, details: string): (r: Table) {
    if t[m].status.Fail? then t else t[m := Entry(Pass, Some(details))]
  }

  function OnFail(t: Table, m: Method, error: string): (r: Table) { t[m := Entry(Fail, Some(error))] }

  function OnFailPending(t: Table, error: string): (r: Table) {
    map m: Method | m in t :: if t[m].status.Running? then Entry(Fail, Some(error)) else t[m]
  }

  /** `publishFinalReportIfComplete`, up to its `await`. */
  function Publish(s: State): (r: State) {
    if Complete(s.table) && !s.finalReportPosted
    then s.(finalReportPosted := true, reports := s.reports + [Markdown(s.table)])
    else s
  }

  /** `onChange` runs after every change; a pass after a failure changes nothing. */
  function Step(s: State, e: Event): (r: State) {
    match e
    case Passes(m, details) =>
      if s.table[m].status.Fail? then s else Publish(s.(table := OnPass(s.table, m, details)))
    case Fails(m, error) => Publish(s.(table := OnFail(s.table, m, error)))
    case FailPending(error) => Publish(s.(table := OnFailPending(s.table, error)))
    case CopyDone => Publish(s.(copyStatus := Copied))
    case CopyFailed => Publish(s.(copyStatus := Unavailable))
  }

  function Run(events: seq<Event>): (r: State) {
    if events == [] then FRESH else Step(Run(events[..|events| - 1]), events[|events| - 1])
  }

  function Rank(status: Status): (r: nat) {
    match status
    case Fail => 2
    case Pass => 1
    case _ => 0
  }

  /** A run's events in their order: `events[..k]` is what came before event `k`. */
  ghost predicate PassedBefore(events: seq<Event>, k: nat, m: Method)
    requires k <= |events|
  {
    exists j :: 0 <= j < k && events[j].Passes? && events[j].m == m
  }

  ghost predicate FailedBy(events: seq<Event>, k: nat, m: Method)
    requires k < |events|
  {
    || (events[k].Fails? && events[k].m == m)
    || (events[k].FailPending? && !PassedBefore(events, k, m))
  }

  /** Which status a method must end in. */
  ghost function Verdict(events: seq<Event>, m: Method): (r: Status) {
    if exists k :: 0 <= k < |events| && FailedBy(events, k, m) then Fail
    else if PassedBefore(events, |events|, m) then Pass
    else Running
  }

  lemma VerdictGrows(events: seq<Event>, m: Method)
    requires events != []
    ensures var last := |events| - 1;
            && (forall k :: 0 <= k < last ==> (FailedBy(events, k, m) <==> FailedBy(events[..last], k, m)))
            && (PassedBefore(events, last, m) <==> PassedBefore(events[..last], last, m))
            && (PassedBefore(events, |events|, m) <==>
                  PassedBefore(events, last, m) || (events[last].Passes? && events[last].m == m))
  {
    var last := |events| - 1;
    forall k | 0 <= k <= last ensures PassedBefore(events, k, m) <==> PassedBefore(events[..last], k, m) {
      if PassedBefore(events, k, m) {
        var j :| 0 <= j < k && events[j].Passes? && events[j].m == m;
        assert events[..last][j] == events[j];
      }
    }
  }

  lemma VerdictStep(events: seq<Event>, m: Method)
    requires events != []
    ensures var last := |events| - 1;
            Verdict(events, m) ==
            if Verdict(events[..last], m).Fail? || FailedBy(events, last, m) then Fail
            else if Verdict(events[..last], m).Pass? || (events[last].Passes? && events[last].m == m) then Pass
            else Running
  {
    VerdictGrows(events, m);
    hide FailedBy, PassedBefore;
    var last := |events| - 1;
    if k :| 0 <= k < |events| && FailedBy(events, k, m) {
      assert k == last || FailedBy(events[..last], k, m);
    }
  }

  /** What an event makes of a method's entry. */
  function EntryAfter(entry: Entry, e: Event, m: Method): (r: Entry) {
    if e.Passes? && e.m == m && !entry.status.Fail? then Entry(Pass, Some(e.details))
    else if (e.Fails? && e.m == m) || (e.FailPending? && entry.status.Running?) then Entry(Fail, Some(e.error))
    else entry
  }

  lemma EntryStep(s: State, e: Event, m: Method)
    ensures Step(s, e).table[m] == EntryAfter(s.table[m], e, m)
  {
    hide Complete, Markdown;
  }

  /** The status of a method after any run: failed exactly if it failed, or the pending ones did before it passed. */
  lemma {:induction false} StatusIsVerdict(events: seq<Event>, m: Method)
    ensures Run(events).table[m].status == Verdict(events, m)
  {
    hide Step;
    if events == [] {
    } else {
      var last := |events| - 1;
      StatusIsVerdict(events[..last], m);
      EntryStep(Run(events[..last]), events[last], m);
      VerdictStep(events, m);
      VerdictGrows(events, m);
    }
  }

  /** Nothing is there while a method runs; then, the details are those of the last event that gave it its status. */
  lemma {:induction false} DetailsAreOfTheLast(events: seq<Event>, m: Method) returns (k: nat)
    ensures var entry := Run(events).table[m];
            match entry.status
            case Pass =>
              && k < |events| && events[k].Passes? && events[k].m == m && entry.details == Some(events[k].details)
              && forall j :: k < j < |events| ==> !(events[j].Passes? && events[j].m == m)
            case Fail =>
              && k < |events| && (events[k].FailPending? || (events[k].Fails? && events[k].m == m))
              && entry.details == Some(events[k].error)
              && forall j :: k < j < |events| ==> !(events[j].Fails? && events[j].m == m)
            case _ => entry.status.Running? && entry.details == None
  {
    hide Step;
    k := 0;
    if events != [] {
      var last := |events| - 1;
      k := DetailsAreOfTheLast(events[..last], m);
      EntryStep(Run(events[..last]), events[last], m);
      var before, e := Run(events[..last]).table[m], events[last];
      if (e.Passes? && e.m == m && !before.status.Fail?) || (e.Fails? && e.m == m)
         || (e.FailPending? && before.status.Running?) {
        k := last;
      }
    }
  }

  /** Without `failPending` the order of the events does not matter for any status. */
  lemma OrderDoesNotMatter(a: seq<Event>, b: seq<Event>, m: Method)
    requires forall e :: e in a <==> e in b
    requires forall e :: e in a ==> !e.FailPending?
    ensures Run(a).table[m].status == Run(b).table[m].status
  {
    StatusIsVerdict(a, m);
    StatusIsVerdict(b, m);
    SameVerdict(a, b, m);
    SameVerdict(b, a, m);
  }

  lemma SameVerdict(a: seq<Event>, b: seq<Event>, m: Method)
    requires forall e :: e in a ==> e in b && !e.FailPending?
    ensures Rank(Verdict(a, m)) <= Rank(Verdict(b, m))
  {
    if Verdict(a, m).Fail? {
      var k :| 0 <= k < |a| && FailedBy(a, k, m);
      assert a[k] in a;
      var j :| 0 <= j < |b| && b[j] == a[k];
      assert FailedBy(b, j, m);
    } else if Verdict(a, m).Pass? {
      var k :| 0 <= k < |a| && a[k].Passes? && a[k].m == m;
      assert a[k] in a;
      var j :| 0 <= j < |b| && b[j] == a[k];
      assert PassedBefore(b, |b|, m);
    }
  }

  /** A caller can see from the events alone, in any order, whether the order will matter for a method. */
  predicate OrderIsIrrelevant(events: seq<Event>, m: Method) {
    || (forall k :: 0 <= k < |events| ==> !events[k].FailPending?)
    || (exists k :: 0 <= k < |events| && events[k].Fails? && events[k].m == m)
    || (forall k :: 0 <= k < |events| ==> !(events[k].Passes? && events[k].m == m))
  }

  lemma SameElements(a: seq<Event>, b: seq<Event>, e: Event)
    requires multiset(a) == multiset(b)
    ensures e in a <==> e in b
  {
    assert e in a <==> e in multiset(a);
    assert e in b <==> e in multiset(b);
  }

  lemma IrrelevantOrder(a: seq<Event>, b: seq<Event>, m: Method)
    requires multiset(a) == multiset(b) && OrderIsIrrelevant(a, m)
    ensures Run(a).table[m].status == Run(b).table[m].status
  {
    hide Run;
    forall e ensures e in a <==> e in b {
      SameElements(a, b, e);
    }
    StatusIsVerdict(a, m);
    StatusIsVerdict(b, m);
    if k :| 0 <= k < |a| && a[k].Fails? && a[k].m == m {
      assert a[k] in b;
      var j :| 0 <= j < |b| && b[j] == a[k];
      assert FailedBy(a, k, m) && FailedBy(b, j, m);
    } else if forall k :: 0 <= k < |a| ==> !a[k].FailPending? {
      OrderDoesNotMatter(a, b, m);
    } else {
      var k :| 0 <= k < |a| && a[k].FailPending?;
      assert a[k] in b;
      var j :| 0 <= j < |b| && b[j] == a[k];
      assert forall e :: e in b ==> !(e.Passes? && e.m == m);
      assert FailedBy(a, k, m) && FailedBy(b, j, m);
    }
  }

  /** The events with number `k` moved to the front. */
  function Promoted(a: seq<Event>, k: nat): (r: seq<Event>)
    requires k < |a|
    ensures |r| == |a| && r[0] == a[k] && multiset(r) == multiset(a)
    ensures forall e :: e in r <==> e in a
  {
    assert a == a[..k] + ([a[k]] + a[k + 1..]);
    [a[k]] + (a[..k] + a[k + 1..])
  }

  lemma RelevantOrder(a: seq<Event>, m: Method) returns (passFirst: seq<Event>, failFirst: seq<Event>)
    requires !OrderIsIrrelevant(a, m)
    ensures multiset(passFirst) == multiset(failFirst) == multiset(a)
    ensures Run(passFirst).table[m].status == Pass && Run(failFirst).table[m].status == Fail
  {
    hide Run;
    var i :| 0 <= i < |a| && a[i].Passes? && a[i].m == m;
    var j :| 0 <= j < |a| && a[j].FailPending?;
    passFirst, failFirst := Promoted(a, i), Promoted(a, j);
    StatusIsVerdict(passFirst, m);
    StatusIsVerdict(failFirst, m);
    assert FailedBy(failFirst, 0, m);
    assert PassedBefore(passFirst, |passFirst|, m);
    forall k | 0 <= k < |passFirst| ensures !FailedBy(passFirst, k, m) {
      assert passFirst[k] in a;
      if passFirst[k].FailPending? {
        assert passFirst[0].Passes? && PassedBefore(passFirst, k, m);
      }
    }
  }

  /**
    Exactly when the order of the events does not matter for a method's status: there is no
    `failPending`, or the method fails by itself, or it never passes.
   */
  lemma OrderMattersIff(a: seq<Event>, m: Method)
    ensures OrderIsIrrelevant(a, m) <==>
              forall b :: multiset(b) == multiset(a) ==> Run(b).table[m].status == Run(a).table[m].status
  {
    hide Run, OrderIsIrrelevant;
    if OrderIsIrrelevant(a, m) {
      forall b | multiset(b) == multiset(a) ensures Run(b).table[m].status == Run(a).table[m].status {
        IrrelevantOrder(a, b, m);
      }
    } else {
      var passFirst, failFirst := RelevantOrder(a, m);
      assert Run(passFirst).table[m].status != Run(failFirst).table[m].status;
    }
  }

  lemma StepClimbs(s: State, e: Event, m: Method)
    ensures Rank(s.table[m].status) <= Rank(Step(s, e).table[m].status)
    ensures Complete(s.table) ==> Complete(Step(s, e).table)
  {
  }

  /** No event takes a status back, so completeness is for good. */
  lemma {:induction false} StatusesClimb(events: seq<Event>, k: nat, m: Method)
    requires k <= |events|
    ensures Rank(Run(events[..k]).table[m].status) <= Rank(Run(events).table[m].status)
    ensures Complete(Run(events[..k]).table) ==> Complete(Run(events).table)
  {
    hide Step, Complete;
    if k == |events| {
      assert events[..k] == events;
    } else {
      var last := |events| - 1;
      StatusesClimb(events[..last], k, m);
      assert events[..last][..k] == events[..k];
      StepClimbs(Run(events[..last]), events[last], m);
    }
  }

  predicate ReportedOnce(s: State) {
    && (s.finalReportPosted <==> Complete(s.table))
    && |s.reports| == (if Complete(s.table) then 1 else 0)
  }

  lemma StepReports(s: State, e: Event)
    requires ReportedOnce(s)
    ensures var next := Step(s, e);
            && ReportedOnce(next)
            && (Complete(s.table) ==> Complete(next.table) && next.reports == s.reports)
            && (!Complete(s.table) && Complete(next.table) ==> next.reports == [Markdown(next.table)])
  {
    hide Markdown;
    StepClimbs(s, e, CreateRoom);
  }

  /**
    The report is posted at most once in any run, and exactly if the diagnosis got complete: by event `k`,
    and it shows the statuses of that moment.
   */
  lemma {:induction false} ReportIsPostedOnce(events: seq<Event>) returns (k: nat)
    ensures ReportedOnce(Run(events)) && k <= |events|
    ensures Complete(Run(events).table) ==>
              && k > 0 && !Complete(Run(events[..k - 1]).table) && Complete(Run(events[..k]).table)
              && Run(events).reports == [Markdown(Run(events[..k]).table)]
  {
    hide Complete, Markdown, Step;
    if events == [] {
      NothingIsComplete();
      k := 0;
    } else {
      var last := |events| - 1;
      k := ReportIsPostedOnce(events[..last]);
      StepReports(Run(events[..last]), events[last]);
      if Complete(Run(events[..last]).table) {
        assert events[..last][..k] == events[..k] && events[..last][..k - 1] == events[..k - 1];
      } else {
        k := |events|;
        assert events[..k] == events;
      }
    }
  }

  lemma NothingIsComplete()
    ensures !Complete(FRESH.table)
  {
    assert FRESH.table[CreateRoom].status == Running;
  }

  lemma IndexOf(m: Method) returns (i: nat)
    ensures i < |METHODS| && METHODS[i] == m
  {
    i := match m
      case CreateRoom => 0
      case RegisterBot => 1
      case ListSubscribe => 2
      case PostMessage => 3
      case ActionSubscribe => 4
      case CustomMessageRender => 5;
  }

  /** In the table of any run, success and failed add up to the number of methods exactly if it is complete. */
  lemma CountsAddUpIffComplete(events: seq<Event>)
    ensures var t := Run(events).table;
            Count(Results(t), Pass) + Count(Results(t), Fail) == |METHODS| <==> Complete(t)
  {
    hide Run, Count;
    var t := Run(events).table;
    CountsCover(Results(t));
    forall i | 0 <= i < |METHODS| ensures !Results(t)[i].status.Skipped? {
      StatusIsVerdict(events, METHODS[i]);
    }
    if forall i :: 0 <= i < |METHODS| ==> Settled(Results(t)[i]) {
      forall m: Method ensures t[m].status.Pass? || t[m].status.Fail? {
        var i := IndexOf(m);
        assert Settled(Results(t)[i]);
      }
    }
  }

  lemma IdsAreOneLine(m: Method)
    ensures '\n' !in Id(m) && '\n' !in TITLE
  {
  }

  /** Every report has twelve lines, a row for each method in order. */
  lemma ReportHasARowEach(t: Table)
    ensures |Lines(Markdown(t))| == 12
    ensures Lines(Markdown(t))[6..] == Rows(Results(t), false)
  {
    forall i | 0 <= i < |METHODS| ensures '\n' !in Results(t)[i].id {
      IdsAreOneLine(METHODS[i]);
    }
    IdsAreOneLine(CreateRoom);
    ReportHasOneLineEach(Results(t), TITLE, false);
  }

  /**
    The text that is posted: each method has its row, with a check mark and the details of its last pass if
    it passed by the time the diagnosis got complete, and else with a cross and the error it failed with.
   */
  lemma PostedReportShowsVerdicts(events: seq<Event>, i: nat) returns (k: nat, j: nat)
    requires Complete(Run(events).table) && i < |METHODS|
    ensures |Run(events).reports| == 1 && j < k <= |events|
    ensures !Complete(Run(events[..k - 1]).table) && Complete(Run(events[..k]).table)
    ensures var lines, m := Lines(Run(events).reports[0]), METHODS[i];
            && |lines| == 12
            && (Verdict(events[..k], m).Pass? ==>
                  && events[j].Passes? && events[j].m == m
                  && lines[6 + i] ==
                     "| `" + Id(m) + "` | \U{2705} | " + EscapeTableCell(Some(events[j].details)) + " |")
            && (!Verdict(events[..k], m).Pass? ==>
                  && (events[j].FailPending? || (events[j].Fails? && events[j].m == m))
                  && lines[6 + i] ==
                     "| `" + Id(m) + "` | \U{274C} | " + EscapeTableCell(Some(events[j].error)) + " |")
  {
    k := ReportIsPostedOnce(events);
    var m, t := METHODS[i], Run(events[..k]).table;
    assert t[m].status.Pass? || t[m].status.Fail?;
    StatusIsVerdict(events[..k], m);
    j := DetailsAreOfTheLast(events[..k], m);
    hide Run, Complete, Verdict, Lines, EscapeTableCell;
    forall n | 0 <= n < |METHODS| ensures '\n' !in Results(t)[n].id {
      IdsAreOneLine(METHODS[n]);
    }
    IdsAreOneLine(CreateRoom);
    var passed, failed := ReportShowsResults(Results(t), TITLE, false, i);
  }

  class ChatDiagnosis {
    var results: Table
    var copyStatus: CopyStatus
    var finalReportPosted: bool
    var reports: seq<string>

    function Contents(): (s: State)
      reads this
    {
      State(results, copyStatus, finalReportPosted, reports)
    }

    constructor ()
      ensures Contents() == FRESH
    {
      results, copyStatus, finalReportPosted, reports := ALL_RUNNING, IdleCopy, false, [];
    }

    /** `results().every(...)`. */
    method IsComplete() returns (complete: bool)
      ensures complete == Complete(results)
    {
      complete := true;
      for i := 0 to |METHODS|
        invariant complete <==>
                  forall j :: 0 <= j < i ==> results[METHODS[j]].status.Pass? || results[METHODS[j]].status.Fail?
      {
        var status := results[METHODS[i]].status;
        if !(status.Pass? || status.Fail?) {
          complete := false;
        }
      }
      if complete {
        forall m: Method ensures results[m].status.Pass? || results[m].status.Fail? {
          var i := IndexOf(m);
        }
      }
    }

    method OnChange()
      modifies this`finalReportPosted, this`reports
      ensures Contents() == Publish(old(Contents()))
    {
      var complete := IsComplete();
      if !complete || finalReportPosted {
        return;
      }
      finalReportPosted := true;
      var list: seq<Result> := [];
      for i := 0 to |METHODS|
        invariant |list| == i && forall j :: 0 <= j < i ==> list[j] == Results(results)[j]
      {
        var entry := results[METHODS[i]];
        list := list + [Result(Id(METHODS[i]), entry.status, entry.details)];
      }
      assert list == Results(results);
      var text := RenderDiagnosisMarkdown(list, TITLE, false);
      reports := reports + [text];
    }

    method RecordPass(m: Method, details: string)
      modifies this
      ensures Contents() == Step(old(Contents()), Passes(m, details))
    {
      if results[m].status.Fail? {
        return;
      }
      results := results[m := Entry(Pass, Some(details))];
      OnChange();
    }

    method RecordFail(m: Method, error: string)
      modifies this
      ensures Contents() == Step(old(Contents()), Fails(m, error))
    {
      results := results[m := Entry(Fail, Some(error))];
      OnChange();
    }

    method RecordFailPending(error: string)
      modifies this
      ensures Contents() == Step(old(Contents()), Event.FailPending(error))
    {
      ghost var before := results;
      ghost var after := OnFailPending(before, error);
      for i := 0 to |METHODS|
        invariant copyStatus == old(copyStatus) && finalReportPosted == old(finalReportPosted)
        invariant reports == old(reports)
        invariant forall j :: 0 <= j < |METHODS| ==>
                                results[METHODS[j]] == (if j < i then after else before)[METHODS[j]]
      {
        if results[METHODS[i]].status.Running? {
          results := results[METHODS[i] := Entry(Fail, Some(error))];
        }
      }
      forall m: Method ensures results[m] == after[m] {
        var j := IndexOf(m);
      }
      assert results == after;
      OnChange();
    }

    method RecordCopied()
      modifies this
      ensures Contents() == Step(old(Contents()), CopyDone)
    {
      copyStatus := Copied;
      OnChange();
    }

    method RecordCopyUnavailable()
      modifies this
      ensures Contents() == Step(old(Contents()), CopyFailed)
    {
      copyStatus := Unavailable;
      OnChange();
    }
  }
}

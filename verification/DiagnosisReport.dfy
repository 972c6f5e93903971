/** The Markdown report: one table row for each result, its details escaped into a single cell. */
module DiagnosisReport {
  import opened Optionals

  datatype Status = Idle | Running | Pass | Fail | Skipped

  datatype Result = Result(id: string, status: Status, details: Maybe<string>)

  /** What `\s` matches and `trim` strips: white space and line terminators, ECMA-262 sections 12.2 and 12.3. */
  predicate IsSpace(c: char) {
    || '\t' <= c <= '\r' || c == ' ' || c == '\U{00A0}' || c == '\U{1680}' || '\U{2000}' <= c <= '\U{200A}'
    || c == '\U{2028}' || c == '\U{2029}' || c == '\U{202F}' || c == '\U{205F}' || c == '\U{3000}' || c == '\U{FEFF}'
  }

  function SkipSpaces(s: string): (r: string)
    ensures |r| <= |s|
    ensures r != "" ==> !IsSpace(r[0])
  {
    if s == "" || !IsSpace(s[0]) then s else SkipSpaces(s[1..])
  }

  /** `replace(/\s+/g, " ")`. */
  function Collapse(s: string): (r: string)
    decreases |s|
  {
    if s == "" then ""
    else if IsSpace(s[0]) then " " + Collapse(SkipSpaces(s[1..]))
    else [s[0]] + Collapse(s[1..])
  }

  /** `replace(/\|/g, "\\|")`. */
  function Escape(s: string): (r: string) {
    if s == "" then "" else (if s[0] == '|' then "\\|" else [s[0]]) + Escape(s[1..])
  }

  function TrimEnd(s: string): (r: string) {
    if s == "" || !IsSpace(s[|s| - 1]) then s else TrimEnd(s[..|s| - 1])
  }

  function Trim(s: string): (r: string) { TrimEnd(SkipSpaces(s)) }

  function EscapeTableCell(value: Maybe<string>): (r: string) {
    if value.None? then "" else Trim(Escape(Collapse(value.value)))
  }

  /** What a reader of the table does: every `\|` stands for a bar. */
  function Unescape(s: string): (r: string)
    decreases |s|
  {
    if s == "" then ""
    else if |s| >= 2 && s[0] == '\\' && s[1] == '|' then "|" + Unescape(s[2..])
    else [s[0]] + Unescape(s[1..])
  }

  lemma EscapeStart(s: string)
    ensures s != "" ==> Escape(s) != "" && (IsSpace(Escape(s)[0]) <==> IsSpace(s[0]))
    ensures Escape(s) == "" || Escape(s)[0] != '|'
  {
  }

  lemma {:induction false} UnescapeInverts(s: string)
    ensures Unescape(Escape(s)) == s
  {
    if s == "" {
    } else {
      UnescapeInverts(s[1..]);
      EscapeStart(s[1..]);
      var rest := Escape(s[1..]);
      if s[0] == '|' {
        assert ("\\|" + rest)[2..] == rest;
      } else {
        assert ([s[0]] + rest)[1..] == rest;
      }
    }
  }

  lemma {:induction false} EscapeAppends(s: string, t: string)
    ensures Escape(s + t) == Escape(s) + Escape(t)
  {
    if s == "" {
      assert s + t == t;
    } else {
      assert (s + t)[1..] == s[1..] + t;
      EscapeAppends(s[1..], t);
    }
  }

  lemma {:induction false} SkipSpacesCommutes(s: string)
    ensures SkipSpaces(Escape(s)) == Escape(SkipSpaces(s))
  {
    EscapeStart(s);
    if s != "" && IsSpace(s[0]) {
      assert Escape(s)[1..] == Escape(s[1..]);
      SkipSpacesCommutes(s[1..]);
    }
  }

  lemma {:induction false} TrimEndCommutes(s: string)
    ensures TrimEnd(Escape(s)) == Escape(TrimEnd(s))
  {
    if s == "" {
    } else {
      var init, last := s[..|s| - 1], s[|s| - 1];
      assert s == init + [last];
      EscapeAppends(init, [last]);
      assert [last][1..] == "";
      if IsSpace(last) {
        assert Escape(s)[..|Escape(s)| - 1] == Escape(init);
        TrimEndCommutes(init);
      }
    }
  }

  lemma TrimEscape(s: string)
    ensures Trim(Escape(s)) == Escape(Trim(s))
  {
    SkipSpacesCommutes(s);
    TrimEndCommutes(SkipSpaces(s));
  }

  /** The maximal runs of characters that are not white space. */
  function Words(s: string): (r: seq<string>)
    ensures s != "" && !IsSpace(s[0]) ==> r != []
  {
    if s == "" then []
    else if IsSpace(s[0]) then Words(s[1..])
    else if |s| == 1 || IsSpace(s[1]) then [[s[0]]] + Words(s[1..])
    else [[s[0]] + Words(s[1..])[0]] + Words(s[1..])[1..]
  }

  lemma {:induction false} SkipKeepsWords(s: string)
    ensures Words(SkipSpaces(s)) == Words(s)
  {
    if s != "" && IsSpace(s[0]) {
      SkipKeepsWords(s[1..]);
    }
  }

  lemma {:induction false} CollapseKeepsWords(s: string)
    ensures Words(Collapse(s)) == Words(s)
    ensures s != "" ==> Collapse(s) != "" && (IsSpace(Collapse(s)[0]) <==> IsSpace(s[0]))
    decreases |s|
  {
    if s == "" {
    } else if IsSpace(s[0]) {
      CollapseKeepsWords(SkipSpaces(s[1..]));
      SkipKeepsWords(s[1..]);
      assert (" " + Collapse(SkipSpaces(s[1..])))[1..] == Collapse(SkipSpaces(s[1..]));
    } else {
      CollapseKeepsWords(s[1..]);
      assert Collapse(s)[1..] == Collapse(s[1..]);
    }
  }

  lemma {:induction false} LastSpaceIsNoWord(s: string, c: char)
    requires IsSpace(c)
    ensures Words(s + [c]) == Words(s)
  {
    if s == "" {
      assert [c][1..] == "";
    } else {
      assert (s + [c])[1..] == s[1..] + [c];
      LastSpaceIsNoWord(s[1..], c);
    }
  }

  lemma {:induction false} TrimEndKeepsWords(s: string)
    ensures Words(TrimEnd(s)) == Words(s)
  {
    if s != "" && IsSpace(s[|s| - 1]) {
      var init, last := s[..|s| - 1], s[|s| - 1];
      assert s == init + [last];
      LastSpaceIsNoWord(init, last);
      TrimEndKeepsWords(init);
    }
  }

  /** Reading a cell back gives the details with their white space collapsed and trimmed, so the same words. */
  lemma CellRoundTrip(details: string)
    ensures Unescape(EscapeTableCell(Some(details))) == Trim(Collapse(details))
    ensures Words(Unescape(EscapeTableCell(Some(details)))) == Words(details)
  {
    var c := Collapse(details);
    TrimEscape(c);
    UnescapeInverts(Trim(c));
    CollapseKeepsWords(details);
    SkipKeepsWords(c);
    TrimEndKeepsWords(SkipSpaces(c));
  }

  /** One line, no bar without a backslash before it, and no white space but single spaces inside. */
  predicate IsCell(s: string) {
    && (forall i :: 0 <= i < |s| && IsSpace(s[i]) ==> s[i] == ' ' && 0 < i < |s| - 1 && s[i + 1] != ' ')
    && (forall i :: 0 <= i < |s| && s[i] == '|' ==> i > 0 && s[i - 1] == '\\')
  }

  /** White space is single spaces. */
  predicate Single(s: string) {
    forall i :: 0 <= i < |s| && IsSpace(s[i]) ==> s[i] == ' ' && (i + 1 < |s| ==> !IsSpace(s[i + 1]))
  }

  lemma {:induction false} CollapseIsSingle(s: string)
    ensures Single(Collapse(s))
    ensures s != "" ==> Collapse(s) != "" && (IsSpace(Collapse(s)[0]) <==> IsSpace(s[0]))
    decreases |s|
  {
    if s == "" {
    } else if IsSpace(s[0]) {
      CollapseIsSingle(SkipSpaces(s[1..]));
    } else {
      CollapseIsSingle(s[1..]);
    }
  }

  lemma {:induction false} TrimIsSlice(s: string)
    ensures exists i, j :: 0 <= i <= j <= |s| && Trim(s) == s[i..j]
    ensures Trim(s) != "" ==> !IsSpace(Trim(s)[0]) && !IsSpace(Trim(s)[|Trim(s)| - 1])
  {
    var i := SkipIsDrop(s);
    var j := TrimEndIsTake(SkipSpaces(s));
    assert Trim(s) == s[i..i + j];
  }

  lemma {:induction false} SkipIsDrop(s: string) returns (i: nat)
    ensures i <= |s| && SkipSpaces(s) == s[i..]
  {
    if s == "" || !IsSpace(s[0]) {
      i := 0;
    } else {
      i := SkipIsDrop(s[1..]);
      i := i + 1;
    }
  }

  lemma {:induction false} TrimEndIsTake(s: string) returns (j: nat)
    ensures j <= |s| && TrimEnd(s) == s[..j]
    ensures j > 0 ==> !IsSpace(s[j - 1])
  {
    if s == "" || !IsSpace(s[|s| - 1]) {
      j := |s|;
    } else {
      j := TrimEndIsTake(s[..|s| - 1]);
    }
  }

  lemma {:induction false} EscapeIsSingle(s: string)
    requires Single(s)
    ensures Single(Escape(s))
    ensures forall i :: 0 <= i < |Escape(s)| && Escape(s)[i] == '|' ==> i > 0 && Escape(s)[i - 1] == '\\'
  {
    if s == "" {
    } else {
      var rest, all := Escape(s[1..]), Escape(s);
      EscapeIsSingle(s[1..]);
      EscapeStart(s[1..]);
      var head := |all| - |rest|;
      assert forall i :: head <= i < |all| ==> all[i] == rest[i - head];
    }
  }

  lemma TrimIsSingle(s: string)
    requires Single(s)
    ensures Single(Trim(s))
  {
    hide Trim;
    TrimIsSlice(s);
    var i, j :| 0 <= i <= j <= |s| && Trim(s) == s[i..j];
    hide IsSpace;
    assert forall k :: 0 <= k < j - i ==> s[i..j][k] == s[i + k];
  }

  lemma SingleIsCell(s: string)
    requires Single(s) && (s != "" ==> !IsSpace(s[0]) && !IsSpace(s[|s| - 1]))
    requires forall i :: 0 <= i < |s| && s[i] == '|' ==> i > 0 && s[i - 1] == '\\'
    ensures IsCell(s)
  {
    assert IsSpace(' ');
    hide IsSpace;
  }

  /** Whatever the details are, they come out as one cell: the row is not broken across lines or columns. */
  lemma CellIsCell(value: Maybe<string>)
    ensures IsCell(EscapeTableCell(value))
  {
    hide IsSpace, Single, Trim, Escape, Collapse, IsCell;
    if value.Some? {
      var c := Collapse(value.value);
      CollapseIsSingle(value.value);
      TrimIsSingle(c);
      EscapeIsSingle(Trim(c));
      TrimEscape(c);
      TrimIsSlice(Escape(c));
      SingleIsCell(Trim(Escape(c)));
    } else {
      EmptyIsCell();
    }
  }

  lemma EmptyIsCell()
    ensures IsCell("")
  {
  }

  /** Decimal digits, as a template literal prints a count. */
  function Decimal(n: nat): (r: string)
    ensures r != "" && forall i :: 0 <= i < |r| ==> '0' <= r[i] <= '9'
  {
    if n < 10 then [('0' as int + n) as char] else Decimal(n / 10) + Decimal(n % 10)
  }

  function Icon(status: Status): (c: char) {
    match status
    case Pass => '\U{2705}'
    case Fail => '\U{274C}'
    case Skipped => '\U{23ED}'
    case Idle => '\U{00B7}'
    case Running => '\U{21BB}'
  }

  /** A skipped result is reported as a failure. */
  function ReportStatus(status: Status): (r: Status) { if status.Skipped? then Fail else status }

  function Count(results: seq<Result>, status: Status): (n: nat)
    ensures n <= |results|
  {
    if results == [] then 0
    else
      var last := |results| - 1;
      Count(results[..last], status) + if ReportStatus(results[last].status) == status then 1 else 0
  }

  function Row(result: Result, dropSuccessDetails: bool): (r: string) {
    var status := ReportStatus(result.status);
    var details := if dropSuccessDetails && status.Pass? then "" else EscapeTableCell(result.details);
    "| `" + result.id + "` | " + [Icon(status)] + " | " + details + " |"
  }

  function Rows(results: seq<Result>, dropSuccessDetails: bool): (r: seq<string>)
    ensures |r| == |results|
  {
    seq(|results|, i requires 0 <= i < |results| => Row(results[i], dropSuccessDetails))
  }

  function Summary(pass: nat, fail: nat): (r: string) {
    "**" + Decimal(pass) + " success \U{00B7} " + Decimal(fail) + " failed**"
  }

  function ReportLines(title: string, pass: nat, fail: nat, rows: seq<string>): (r: seq<string>) {
    ["## " + title, "", Summary(pass, fail), "", "| Method | Status | Details |", "| --- | --- | --- |"] + rows
  }

  /** `lines.join("\n")`. */
  function Join(lines: seq<string>): (r: string) {
    if lines == [] then "" else if |lines| == 1 then lines[0] else lines[0] + "\n" + Join(lines[1..])
  }

  function Report(results: seq<Result>, title: string, dropSuccessDetails: bool): (r: string) {
    Join(ReportLines(title, Count(results, Pass), Count(results, Fail), Rows(results, dropSuccessDetails)))
  }

  method RenderDiagnosisMarkdown(results: seq<Result>, title: string, dropSuccessDetails: bool) returns (r: string)
    ensures r == Report(results, title, dropSuccessDetails)
  {
    var pass, fail := 0, 0;
    var rows: seq<string> := [];
    for i := 0 to |results|
      invariant pass == Count(results[..i], Pass) && fail == Count(results[..i], Fail)
      invariant rows == Rows(results[..i], dropSuccessDetails)
    {
      var result := results[i];
      assert results[..i + 1][..i] == results[..i];
      var status := if result.status.Skipped? then Fail else result.status;
      if status.Pass? {
        pass := pass + 1;
      } else if status.Fail? {
        fail := fail + 1;
      }
      var details := "";
      if !(dropSuccessDetails && status.Pass?) {
        details := EscapeTableCell(result.details);
      }
      rows := rows + ["| `" + result.id + "` | " + [Icon(status)] + " | " + details + " |"];
    }
    assert results[..|results|] == results;
    r := Join(ReportLines(title, pass, fail, rows));
  }

  /** The lines of a text. */
  function Lines(s: string): (r: seq<string>)
    ensures r != []
  {
    if s == "" then [""]
    else
      var rest := Lines(s[1..]);
      if s[0] == '\n' then [""] + rest else [[s[0]] + rest[0]] + rest[1..]
  }

  lemma {:induction false} LinesOfOne(s: string)
    requires '\n' !in s
    ensures Lines(s) == [s]
  {
    if s == "" {
    } else {
      LinesOfOne(s[1..]);
      assert [s[0]] + s[1..] == s;
    }
  }

  lemma {:induction false} LinesOfMore(s: string, t: string)
    requires '\n' !in s
    ensures Lines(s + "\n" + t) == [s] + Lines(t)
  {
    if s == "" {
      assert s + "\n" + t == "\n" + t && ("\n" + t)[1..] == t;
    } else {
      LinesOfMore(s[1..], t);
      assert (s + "\n" + t)[1..] == s[1..] + "\n" + t;
      assert [s[0]] + s[1..] == s;
    }
  }

  lemma {:induction false} LinesOfJoin(lines: seq<string>)
    requires lines != [] && forall i :: 0 <= i < |lines| ==> '\n' !in lines[i]
    ensures Lines(Join(lines)) == lines
  {
    if |lines| == 1 {
      LinesOfOne(lines[0]);
    } else {
      LinesOfJoin(lines[1..]);
      LinesOfMore(lines[0], Join(lines[1..]));
    }
  }

  lemma RowIsOneLine(result: Result, dropSuccessDetails: bool)
    requires '\n' !in result.id
    ensures '\n' !in Row(result, dropSuccessDetails)
  {
    CellIsCell(result.details);
    assert '\n' !in EscapeTableCell(result.details) by {
      assert IsSpace('\n');
    }
  }

  lemma SummaryIsOneLine(pass: nat, fail: nat)
    ensures '\n' !in Summary(pass, fail)
  {
  }

  /**
    Without newlines in the ids and the title, whatever the details hold, the report's lines are the six
    of the heading and then one row for each result, in order; the two counts cover at most the results,
    and all of them exactly if every one is a pass, a failure or skipped.
   */
  lemma ReportHasOneLineEach(results: seq<Result>, title: string, dropSuccessDetails: bool)
    requires '\n' !in title && forall i :: 0 <= i < |results| ==> '\n' !in results[i].id
    ensures Lines(Report(results, title, dropSuccessDetails)) ==
            ReportLines(title, Count(results, Pass), Count(results, Fail), Rows(results, dropSuccessDetails))
    ensures |Lines(Report(results, title, dropSuccessDetails))| == |results| + 6
  {
    var pass, fail := Count(results, Pass), Count(results, Fail);
    var lines := ReportLines(title, pass, fail, Rows(results, dropSuccessDetails));
    SummaryIsOneLine(pass, fail);
    forall i | 0 <= i < |lines| ensures '\n' !in lines[i] {
      if i >= 6 {
        RowIsOneLine(results[i - 6], dropSuccessDetails);
      }
    }
    LinesOfJoin(lines);
  }

  predicate Settled(r: Result) { r.status.Pass? || r.status.Fail? || r.status.Skipped? }

  lemma {:induction false} CountsCover(results: seq<Result>)
    ensures Count(results, Pass) + Count(results, Fail) <= |results|
    ensures Count(results, Pass) + Count(results, Fail) == |results| <==>
            forall i :: 0 <= i < |results| ==> Settled(results[i])
  {
    if results == [] {
    } else {
      var last := |results| - 1;
      CountsCover(results[..last]);
      assert forall i :: 0 <= i < last ==> results[..last][i] == results[i];
    }
  }

  // ---------------------------------------------------------------------------------------------
  // What the report says about the results
  // ---------------------------------------------------------------------------------------------

  /** The number that decimal digits stand for. */
  function ValueOf(digits: string): (n: int) {
    if digits == "" then 0
    else
      var last := |digits| - 1;
      10 * ValueOf(digits[..last]) + (digits[last] as int - '0' as int)
  }

  /** A printed count is the numeral of that count, without leading zeros. */
  lemma {:induction false} DecimalIsNumeral(n: nat)
    ensures ValueOf(Decimal(n)) == n
    ensures n > 0 ==> Decimal(n)[0] != '0'
    ensures n < 10 ==> |Decimal(n)| == 1
  {
    if n < 10 {
      DigitValue(n);
    } else {
      var front, back := Decimal(n / 10), Decimal(n % 10);
      DecimalIsNumeral(n / 10);
      DecimalIsNumeral(n % 10);
      assert back == [back[0]];
      assert (front + back)[..|front|] == front;
      assert Decimal(n) == front + back;
      assert ValueOf(front + back) == 10 * ValueOf(front) + (back[0] as int - '0' as int);
      DigitValue(n % 10);
    }
  }

  lemma DigitValue(n: nat)
    requires n < 10
    ensures |Decimal(n)| == 1 && ValueOf(Decimal(n)) == n && Decimal(n)[0] as int - '0' as int == n
  {
    var d := Decimal(n);
    assert d[..0] == "";
  }

  function Passed(results: seq<Result>): (r: set<nat>) { set i: nat | i < |results| && results[i].status.Pass? }

  /** A skipped method counts as failed. */
  function NotPassed(results: seq<Result>): (r: set<nat>) {
    set i: nat | i < |results| && (results[i].status.Fail? || results[i].status.Skipped?)
  }

  lemma PassedGrows(results: seq<Result>)
    requires results != []
    ensures var last := |results| - 1;
            Passed(results) == Passed(results[..last]) + (if results[last].status.Pass? then {last as nat} else {})
            && last !in Passed(results[..last])
  {
  }

  lemma NotPassedGrows(results: seq<Result>)
    requires results != []
    ensures var last := |results| - 1;
            && NotPassed(results) ==
               NotPassed(results[..last])
               + (if results[last].status.Fail? || results[last].status.Skipped? then {last as nat} else {})
            && last !in NotPassed(results[..last])
  {
  }

  lemma {:induction false} CountsAreOfResults(results: seq<Result>)
    ensures Count(results, Pass) == |Passed(results)| && Count(results, Fail) == |NotPassed(results)|
  {
    if results == [] {
    } else {
      CountsAreOfResults(results[..|results| - 1]);
      PassedGrows(results);
      NotPassedGrows(results);
      hide Passed, NotPassed;
    }
  }

  /**
    The third line says how many results passed and how many failed or were skipped; the row of a result
    shows a check mark exactly if it passed, a cross exactly if it failed or was skipped, and its
    details unless it passed and those are to be dropped.
   */
  lemma ReportShowsResults(results: seq<Result>, title: string, dropSuccessDetails: bool, i: nat)
    returns (passed: string, failed: string)
    requires i < |results|
    requires '\n' !in title && forall j :: 0 <= j < |results| ==> '\n' !in results[j].id
    ensures var lines, result := Lines(Report(results, title, dropSuccessDetails)), results[i];
            && |lines| == |results| + 6
            && lines[0] == "## " + title
            && lines[2] == "**" + passed + " success \U{00B7} " + failed + " failed**"
            && ValueOf(passed) == |Passed(results)| && ValueOf(failed) == |NotPassed(results)|
            && lines[6 + i] ==
               match result.status
               case Pass =>
                 "| `" + result.id + "` | \U{2705} | "
                 + (if dropSuccessDetails then "" else EscapeTableCell(result.details)) + " |"
               case Fail => "| `" + result.id + "` | \U{274C} | " + EscapeTableCell(result.details) + " |"
               case Skipped => "| `" + result.id + "` | \U{274C} | " + EscapeTableCell(result.details) + " |"
               case Idle => "| `" + result.id + "` | \U{00B7} | " + EscapeTableCell(result.details) + " |"
               case Running => "| `" + result.id + "` | \U{21BB} | " + EscapeTableCell(result.details) + " |"
  {
    ReportHasOneLineEach(results, title, dropSuccessDetails);
    CountsAreOfResults(results);
    passed, failed := Decimal(Count(results, Pass)), Decimal(Count(results, Fail));
    DecimalIsNumeral(Count(results, Pass));
    DecimalIsNumeral(Count(results, Fail));
    hide Lines, Report, EscapeTableCell, Count, Passed, NotPassed, Decimal, ValueOf, Row;
    RowShows(results[i], dropSuccessDetails);
  }

  lemma RowShows(result: Result, dropSuccessDetails: bool)
    ensures Row(result, dropSuccessDetails) ==
            match result.status
            case Pass =>
              "| `" + result.id + "` | \U{2705} | "
              + (if dropSuccessDetails then "" else EscapeTableCell(result.details)) + " |"
            case Fail => "| `" + result.id + "` | \U{274C} | " + EscapeTableCell(result.details) + " |"
            case Skipped => "| `" + result.id + "` | \U{274C} | " + EscapeTableCell(result.details) + " |"
            case Idle => "| `" + result.id + "` | \U{00B7} | " + EscapeTableCell(result.details) + " |"
            case Running => "| `" + result.id + "` | \U{21BB} | " + EscapeTableCell(result.details) + " |"
  {
    hide EscapeTableCell;
    var line := "| `" + result.id + "` | " + [Icon(ReportStatus(result.status))] + " | ";
    match result.status
    case Pass => assert line == "| `" + result.id + "` | \U{2705} | ";
    case Fail => assert line == "| `" + result.id + "` | \U{274C} | ";
    case Skipped => assert line == "| `" + result.id + "` | \U{274C} | ";
    case Idle => assert line == "| `" + result.id + "` | \U{00B7} | ";
    case Running => assert line == "| `" + result.id + "` | \U{21BB} | ";
  }
}

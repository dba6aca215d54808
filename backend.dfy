/**
 * The gateway script: `formatSeconds`, the time-report totals, the five
 * action handlers with their input validation, and the router with its
 * error handling. A request is the query string, the form fields and the
 * decoded JSON body; a response is a status and a JSON document, or a
 * fatal error the script does not catch.
 */
module Backend {
  import opened Wrappers
  import opened Php
  import opened Records
  import opened IntDiv
  import Decimal
  import Text
  import Client
  import Factory
  import Environ
  import NativeClient
  import Timestamp

  /*
   * formatSeconds.
   */

  /** `formatSeconds`: whole hours and the minutes left over, seconds dropped. */
  function FormatSeconds(seconds: int): string {
    if seconds == 0 then "0m"
    else Compact(TruncDiv(seconds, 3600), TruncDiv(TruncRem(seconds, 3600), 60))
  }

  /** The `match (true)` of `formatSeconds`: hours shown only when positive, minutes unless hours alone. */
  function Compact(hours: int, minutes: int): string {
    if hours > 0 && minutes > 0 then Decimal.IntToString(hours) + "h " + Decimal.IntToString(minutes) + "m"
    else if hours > 0 then Decimal.IntToString(hours) + "h"
    else Decimal.IntToString(minutes) + "m"
  }

  /** A number followed by its unit letter. */
  function Amount(part: string, unit: char): Option<int> {
    if |part| >= 2 && part[|part| - 1] == unit then Decimal.ParseInt(part[..|part| - 1]) else None
  }

  /** Reads a duration written as "Hh Mm", "Hh" or "Mm" back into seconds. */
  function ParseDuration(text: string): Option<int> {
    var parts := Text.Split(text, ' ');
    if |parts| == 2 then
      var hours :- Amount(parts[0], 'h');
      var minutes :- Amount(parts[1], 'm');
      Some(hours * 3600 + minutes * 60)
    else if |parts| == 1 then
      match Amount(parts[0], 'h')
      case Some(hours) => Some(hours * 3600)
      case None =>
        var minutes :- Amount(parts[0], 'm');
        Some(minutes * 60)
    else None
  }

  lemma IntToStringFree(i: int, c: char)
    requires c == ' ' || c == 'h' || c == 'm'
    ensures Text.Free(Decimal.IntToString(i), c)
  {
    if i < 0 {
      assert Decimal.IntToString(i)[1..] == Decimal.NatToString(-i);
    }
  }

  lemma AmountOf(i: int, unit: char)
    requires unit == 'h' || unit == 'm'
    ensures Amount(Decimal.IntToString(i) + [unit], unit) == Some(i)
  {
    assert (Decimal.IntToString(i) + [unit])[..|Decimal.IntToString(i)|] == Decimal.IntToString(i);
    Decimal.IntToStringRoundTrip(i);
  }

  /** A number with a unit letter has no space, so it is one piece. */
  lemma SplitAmount(i: int, unit: char)
    requires unit == 'h' || unit == 'm'
    ensures Text.Split(Decimal.IntToString(i) + [unit], ' ') == [Decimal.IntToString(i) + [unit]]
  {
    UnitFree(i, unit);
    Text.SplitFree(Decimal.IntToString(i) + [unit], ' ');
  }

  /** The "Hh Mm" form reads back as the two amounts. */
  lemma ParseHoursMinutes(hours: int, minutes: int)
    ensures ParseDuration(Decimal.IntToString(hours) + "h " + Decimal.IntToString(minutes) + "m")
            == Some(hours * 3600 + minutes * 60)
  {
    SplitHoursMinutes(hours, minutes);
    AmountOf(hours, 'h');
    AmountOf(minutes, 'm');
  }

  /** The space between "Hh" and "Mm" is the only one, so the text splits into those two pieces. */
  lemma SplitHoursMinutes(hours: int, minutes: int)
    ensures Text.Split(Decimal.IntToString(hours) + "h " + Decimal.IntToString(minutes) + "m", ' ')
            == [Decimal.IntToString(hours) + "h", Decimal.IntToString(minutes) + "m"]
  {
    var a := Decimal.IntToString(hours) + "h";
    var b := Decimal.IntToString(minutes) + "m";
    assert Decimal.IntToString(hours) + "h " + Decimal.IntToString(minutes) + "m" == a + [' '] + b;
    UnitFree(hours, 'h');
    Text.SplitAppend(a, b, ' ');
    SplitAmount(minutes, 'm');
  }

  /** A number with its unit letter holds no space. */
  lemma UnitFree(i: int, unit: char)
    requires unit == 'h' || unit == 'm'
    ensures Text.Free(Decimal.IntToString(i) + [unit], ' ')
  {
    IntToStringFree(i, ' ');
  }

  /** "Mm" alone reads back as its minutes. */
  lemma ParseMinutes(minutes: int)
    ensures ParseDuration(Decimal.IntToString(minutes) + "m") == Some(minutes * 60)
  {
    SplitAmount(minutes, 'm');
    AmountOf(minutes, 'm');
    IntToStringFree(minutes, 'h');
    assert Amount(Decimal.IntToString(minutes) + "m", 'h') == None;
  }

  /** Hours and minutes of a non-negative count: all of it but the leftover seconds. */
  lemma HoursAndMinutes(seconds: int)
    requires seconds >= 0
    ensures var hours := TruncDiv(seconds, 3600);
      var minutes := TruncDiv(TruncRem(seconds, 3600), 60);
      && hours >= 0 && 0 <= minutes < 60
      && hours * 3600 + minutes * 60 == seconds - seconds % 60
  {
    TruncDivision(seconds, 3600);
    var hours := seconds / 3600;
    var rest := seconds % 3600;
    TruncDivision(rest, 60);
    var minutes := rest / 60;
    assert seconds == (hours * 60 + minutes) * 60 + rest % 60;
  }

  /**
   * For a non-negative count of seconds the text reads back as that count
   * rounded down to whole minutes: nothing but the leftover seconds is lost.
   */
  lemma FormatSecondsReadsBack(seconds: int)
    requires seconds >= 0
    ensures ParseDuration(FormatSeconds(seconds)) == Some(seconds - seconds % 60)
  {
    if seconds == 0 {
      ParseMinutes(0);
    } else {
      HoursAndMinutes(seconds);
      var hours := TruncDiv(seconds, 3600);
      var minutes := TruncDiv(TruncRem(seconds, 3600), 60);
      assert FormatSeconds(seconds) == Compact(hours, minutes);
      ParseCompact(hours, minutes);
    }
  }

  /** Whatever `Compact` shows reads back as the hours and minutes it was given, for non-negative hours. */
  lemma ParseCompact(hours: int, minutes: int)
    requires hours >= 0 && minutes >= 0
    ensures ParseDuration(Compact(hours, minutes)) == Some(hours * 3600 + minutes * 60)
  {
    if hours > 0 && minutes > 0 {
      ParseHoursMinutes(hours, minutes);
    } else if hours > 0 {
      ParseHours(hours);
    } else {
      ParseMinutes(minutes);
    }
  }

  /** "Hh" alone reads back as its hours. */
  lemma ParseHours(hours: int)
    ensures ParseDuration(Decimal.IntToString(hours) + "h") == Some(hours * 3600)
  {
    SplitAmount(hours, 'h');
    AmountOf(hours, 'h');
  }

  /**
   * A negative count never shows hours: only the minutes of its remainder
   * modulo an hour survive, so the text reads back as less than an hour.
   */
  lemma FormatNegativeSeconds(seconds: int)
    requires seconds < 0
    ensures var minutes := TruncDiv(TruncRem(seconds, 3600), 60);
      && -60 < minutes <= 0
      && ParseDuration(FormatSeconds(seconds)) == Some(minutes * 60)
  {
    TruncDivision(seconds, 3600);
    TruncDivision(TruncRem(seconds, 3600), 60);
    var minutes := TruncDiv(TruncRem(seconds, 3600), 60);
    assert -3600 < TruncRem(seconds, 3600) <= 0;
    ParseMinutes(minutes);
  }

  /** The cases the script's comments and callers rely on. */
  lemma FormatSecondsExamples()
    ensures FormatSeconds(0) == "0m"
    ensures FormatSeconds(30) == "0m"
    ensures FormatSeconds(3600) == "1h"
    ensures FormatSeconds(5400) == "1h 30m"
  {
  }

  /*
   * Time-report totals.
   */

  /** `array_map(fn($issue) => $issue->toArray(), $issues)`. */
  function IssueRows(issues: seq<Issue>): (rows: seq<Value>)
    ensures |rows| == |issues| && forall k :: 0 <= k < |issues| ==> rows[k] == issues[k].ToArray()
  {
    seq(|issues|, k requires 0 <= k < |issues| => issues[k].ToArray())
  }

  /** `array_sum(array_column($rows, $name))` over rows whose column holds integers. */
  function ColumnSum(rows: seq<Value>, name: string): int {
    if rows == [] then 0
    else
      (match Get(rows[0], StrKey(name))
       case Some(Int(i)) => i
       case _ => 0) + ColumnSum(rows[1..], name)
  }

  /** The reference total: a field summed over the issues themselves. */
  function SumOf(issues: seq<Issue>, field: Issue -> int): int {
    if issues == [] then 0 else field(issues[0]) + SumOf(issues[1..], field)
  }

  function OriginalEstimate(i: Issue): int { i.originalEstimate }
  function RemainingEstimate(i: Issue): int { i.remainingEstimate }
  function TimeSpent(i: Issue): int { i.timeSpent }

  lemma SummaryEntryKeys(i: Issue)
    ensures Keys(Arr(i.SummaryEntries())) == StrKeys(SummaryKeys)
  {
    IssueToArrayKeys(i, false);
    assert SummaryKeys + [] == SummaryKeys;
  }

  /** A summary name that no other summary name repeats finds its own entry of the summary array. */
  lemma SummaryColumn(i: Issue, j: nat)
    requires j < |SummaryKeys| && SummaryKeys[j] !in SummaryKeys[..j] + SummaryKeys[j + 1..]
    ensures Find(i.SummaryEntries(), StrKey(SummaryKeys[j])) == Some(i.SummaryEntries()[j].1)
  {
    SummaryEntryKeys(i);
    FindUnique(i.SummaryEntries(), SummaryKeys, j);
  }

  /** The three estimate columns of a serialised issue hold the issue's own numbers. */
  lemma IssueColumns(i: Issue)
    ensures Get(i.ToArray(), StrKey("originalEstimate")) == Some(Int(i.originalEstimate))
    ensures Get(i.ToArray(), StrKey("remainingEstimate")) == Some(Int(i.remainingEstimate))
    ensures Get(i.ToArray(), StrKey("timeSpent")) == Some(Int(i.timeSpent))
  {
    assert i.ToArray() == Arr(i.SummaryEntries());
    OriginalEstimateColumn(i);
    RemainingEstimateColumn(i);
    TimeSpentColumn(i);
  }

  lemma OriginalEstimateColumn(i: Issue)
    ensures Find(i.SummaryEntries(), StrKey("originalEstimate")) == Some(Int(i.originalEstimate))
  {
    assert SummaryKeys[15] !in SummaryKeys[..15] + SummaryKeys[16..];
    SummaryColumn(i, 15);
  }

  lemma RemainingEstimateColumn(i: Issue)
    ensures Find(i.SummaryEntries(), StrKey("remainingEstimate")) == Some(Int(i.remainingEstimate))
  {
    assert SummaryKeys[16] !in SummaryKeys[..16] + SummaryKeys[17..];
    SummaryColumn(i, 16);
  }

  lemma TimeSpentColumn(i: Issue)
    ensures Find(i.SummaryEntries(), StrKey("timeSpent")) == Some(Int(i.timeSpent))
  {
    assert SummaryKeys[17] !in SummaryKeys[..17] + SummaryKeys[18..];
    SummaryColumn(i, 17);
  }

  /**
   * The report's totals are the sums of the issues' own estimates and time
   * spent: reading the columns back out of the serialised issues loses and
   * adds nothing.
   */
  lemma {:induction false} ColumnSumsAreTotals(issues: seq<Issue>)
    ensures ColumnSum(IssueRows(issues), "originalEstimate") == SumOf(issues, OriginalEstimate)
    ensures ColumnSum(IssueRows(issues), "remainingEstimate") == SumOf(issues, RemainingEstimate)
    ensures ColumnSum(IssueRows(issues), "timeSpent") == SumOf(issues, TimeSpent)
  {
    forall i: Issue
      ensures Get(i.ToArray(), StrKey("originalEstimate")) == Some(Int(OriginalEstimate(i)))
      ensures Get(i.ToArray(), StrKey("remainingEstimate")) == Some(Int(RemainingEstimate(i)))
      ensures Get(i.ToArray(), StrKey("timeSpent")) == Some(Int(TimeSpent(i)))
    {
      IssueColumns(i);
    }
    ColumnSumIsSum(issues, "originalEstimate", OriginalEstimate);
    ColumnSumIsSum(issues, "remainingEstimate", RemainingEstimate);
    ColumnSumIsSum(issues, "timeSpent", TimeSpent);
  }

  /** One column summed over the serialised issues, when every issue serialises `field` under `name`. */
  lemma {:induction false} ColumnSumIsSum(issues: seq<Issue>, name: string, field: Issue -> int)
    requires forall i: Issue :: Get(i.ToArray(), StrKey(name)) == Some(Int(field(i)))
    ensures ColumnSum(IssueRows(issues), name) == SumOf(issues, field)
  {
    if issues != [] {
      assert IssueRows(issues)[1..] == IssueRows(issues[1..]);
      ColumnSumIsSum(issues[1..], name, field);
    }
  }

  /** The `report` of `timeReport`: the three totals, each also formatted, then the issues. */
  function ReportOf(issues: seq<Issue>): Value {
    var rows := IssueRows(issues);
    var original := ColumnSum(rows, "originalEstimate");
    var remaining := ColumnSum(rows, "remainingEstimate");
    var spent := ColumnSum(rows, "timeSpent");
    Arr([Entry("totalOriginalEstimate", Int(original)),
         Entry("totalRemainingEstimate", Int(remaining)),
         Entry("totalTimeSpent", Int(spent)),
         Entry("totalOriginalEstimateFormatted", Str(FormatSeconds(original))),
         Entry("totalRemainingEstimateFormatted", Str(FormatSeconds(remaining))),
         Entry("totalTimeSpentFormatted", Str(FormatSeconds(spent))),
         Entry("issues", List(rows))])
  }

  lemma ReportTotals(issues: seq<Issue>)
    ensures var report := ReportOf(issues).entries;
      && report[0].1 == Int(SumOf(issues, OriginalEstimate))
      && report[1].1 == Int(SumOf(issues, RemainingEstimate))
      && report[2].1 == Int(SumOf(issues, TimeSpent))
      && report[3].1 == Str(FormatSeconds(SumOf(issues, OriginalEstimate)))
      && report[4].1 == Str(FormatSeconds(SumOf(issues, RemainingEstimate)))
      && report[5].1 == Str(FormatSeconds(SumOf(issues, TimeSpent)))
  {
    ColumnSumsAreTotals(issues);
  }

  /*
   * Requests, responses and the action handlers.
   */

  /**
   * One request: the query string (`$_GET`), the form fields (`$_POST`)
   * and the JSON body as `json_decode(..., true)` reads it (`Null` when it
   * is not JSON or is JSON null).
   */
  datatype Request = Request(query: map<string, string>, form: map<string, string>, body: Value)

  /** A status with a JSON document, or a fatal error the script does not catch. */
  datatype Response = Json(status: int, document: Value) | Fatal

  function ErrorDocument(message: string): Value {
    Arr([Entry("success", Bool(false)), Entry("error", Str(message))])
  }

  /**
   * A client call's outcome inside a handler: the document built from the
   * result with status 200, a JiraException passed up to the router, or a
   * TypeError that ends the script.
   */
  function Reply<T>(r: Result<T, Thrown>, document: T -> Value): (out: Result<Response, JiraError>)
    ensures r.Success? ==> out == Success(Json(200, document(r.value)))
    ensures r.Failure? && r.error.Raised? ==> out == Failure(r.error.error)
    ensures r.Failure? && r.error.TypeError? ==> out == Success(Fatal)
  {
    match r
    case Success(v) => Success(Json(200, document(v)))
    case Failure(Raised(e)) => Failure(e)
    case Failure(TypeError) => Success(Fatal)
  }

  /** `$_GET[$name] ?? $default`. */
  function QueryText(req: Request, name: string, default: string): string {
    if name in req.query then req.query[name] else default
  }

  /** `(int) ($_GET[$name] ?? $default)`. */
  function QueryNumber(req: Request, name: string, default: int): int {
    if name in req.query then Decimal.CastToInt(req.query[name]) else default
  }

  /** `getInput()`: the decoded body, [] for none; a scalar body cannot be returned as an array. */
  function Input(req: Request): Option<seq<(Key, Value)>> {
    if req.body.Null? then Some([]) else if req.body.Arr? then Some(req.body.entries) else None
  }

  /** `$input[$name] ?? ''` compared with `=== ''`. */
  predicate Blank(o: Option<Value>) {
    o.None? || o == Some(Str(""))
  }

  const DefaultJql := "ORDER BY updated DESC"

  const SearchFields: seq<string> := [
    "summary", "status", "priority", "assignee", "reporter",
    "created", "updated", "duedate", "labels", "issuetype",
    "timeoriginalestimate", "timeestimate", "timespent", "timetracking"]

  const ReportFields: seq<string> := [
    "summary", "status", "assignee", "issuetype",
    "timeoriginalestimate", "timeestimate", "timespent", "timetracking", "worklog"]

  const ExpandFields: seq<string> := ["renderedFields", "changelog"]

  function SearchDocument(r: SearchResult): Value {
    Arr([Entry("success", Bool(true)), Entry("total", Int(r.total)), Entry("startAt", Int(r.startAt)),
         Entry("maxResults", Int(r.maxResults)), Entry("issues", List(IssueRows(r.issues)))])
  }

  /** `actionSearch`: jql, page size and offset from the query, with their defaults. */
  function ActionSearch(c: Client.JiraClient, req: Request): (out: Result<Response, JiraError>)
    ensures "jql" !in req.query && "maxResults" !in req.query && "startAt" !in req.query ==>
      out == Reply(c.search(DefaultJql, 0, 50, SearchFields), SearchDocument)
  {
    var jql := QueryText(req, "jql", DefaultJql);
    var maxResults := QueryNumber(req, "maxResults", 50);
    var startAt := QueryNumber(req, "startAt", 0);
    Reply(c.search(jql, startAt, maxResults, SearchFields), SearchDocument)
  }

  /** Numbers in PHP's `int` range written in decimal in the query reach the client unchanged. */
  lemma SearchPassesQuery(c: Client.JiraClient, req: Request, startAt: int, maxResults: int)
    requires Decimal.MinLong <= startAt <= Decimal.MaxLong && Decimal.MinLong <= maxResults <= Decimal.MaxLong
    requires "jql" in req.query
    requires "startAt" in req.query && req.query["startAt"] == Decimal.IntToString(startAt)
    requires "maxResults" in req.query && req.query["maxResults"] == Decimal.IntToString(maxResults)
    ensures ActionSearch(c, req) == Reply(c.search(req.query["jql"], startAt, maxResults, SearchFields), SearchDocument)
  {
    Decimal.CastToIntOfIntToString(startAt);
    Decimal.CastToIntOfIntToString(maxResults);
  }

  function IssueDocument(i: Issue): Value {
    Arr([Entry("success", Bool(true)), Entry("issue", i.ToArray(true))])
  }

  /** `actionGet`: a key is required; the issue is fetched with rendered fields and changelog expanded. */
  function ActionGet(c: Client.JiraClient, req: Request): (out: Result<Response, JiraError>)
    ensures QueryText(req, "key", "") == "" ==> out == Success(Json(400, ErrorDocument("Issue key is required")))
    ensures QueryText(req, "key", "") != "" ==> out == Reply(c.getIssue(req.query["key"], ExpandFields), IssueDocument)
  {
    var key := QueryText(req, "key", "");
    if key == "" then Success(Json(400, ErrorDocument("Issue key is required")))
    else Reply(c.getIssue(key, ExpandFields), IssueDocument)
  }

  function ReportDocument(r: SearchResult): Value {
    Arr([Entry("success", Bool(true)), Entry("report", ReportOf(r.issues))])
  }

  /** `actionTimeReport`: always from the first issue, 100 by default. */
  function ActionTimeReport(c: Client.JiraClient, req: Request): (out: Result<Response, JiraError>)
    ensures "jql" !in req.query && "maxResults" !in req.query ==>
      out == Reply(c.search(DefaultJql, 0, 100, ReportFields), ReportDocument)
    ensures "jql" in req.query ==>
      out == Reply(c.search(req.query["jql"], 0, QueryNumber(req, "maxResults", 100), ReportFields), ReportDocument)
    ensures "jql" !in req.query ==>
      out == Reply(c.search(DefaultJql, 0, QueryNumber(req, "maxResults", 100), ReportFields), ReportDocument)
  {
    var jql := QueryText(req, "jql", DefaultJql);
    var maxResults := QueryNumber(req, "maxResults", 100);
    Reply(c.search(jql, 0, maxResults, ReportFields), ReportDocument)
  }

  function CommentDocument(r: CommentResult): Value {
    Arr([Entry("success", Bool(true)), Entry("comment", r.ToArray())])
  }

  /** `actionAddComment`: key and comment are both required, and must be strings to reach the client. */
  function ActionAddComment(c: Client.JiraClient, req: Request): (out: Result<Response, JiraError>)
    ensures Input(req).None? ==> out == Success(Fatal)
    ensures Input(req).Some? ==>
      var key := Get(Arr(Input(req).value), StrKey("key"));
      var comment := Get(Arr(Input(req).value), StrKey("comment"));
      && (Blank(key) || Blank(comment) ==> out == Success(Json(400, ErrorDocument("Issue key and comment are required"))))
      && (!Blank(key) && !Blank(comment) && key.value.Str? && comment.value.Str? ==>
            out == Reply(c.addComment(key.value.s, comment.value.s), CommentDocument))
      && (!Blank(key) && !Blank(comment) && !(key.value.Str? && comment.value.Str?) ==> out == Success(Fatal))
  {
    match Input(req)
    case None => Success(Fatal)
    case Some(input) =>
      var key := Get(Arr(input), StrKey("key"));
      var comment := Get(Arr(input), StrKey("comment"));
      if Blank(key) || Blank(comment) then Success(Json(400, ErrorDocument("Issue key and comment are required")))
      else if key.value.Str? && comment.value.Str? then Reply(c.addComment(key.value.s, comment.value.s), CommentDocument)
      else Success(Fatal)
  }

  /** The arguments of `addWorklog` as the handler reads them; `None` when one cannot be bound. */
  datatype WorklogArguments = WorklogArguments(key: string, timeSpent: string, comment: string, started: Option<string>)

  const WorklogRequired := "Issue key and timeSpent are required"

  /**
   * Validation and binding of `actionAddWorklog`: an empty key or timeSpent
   * is rejected (an empty comment is not); `Failure(Fatal)` is a body or
   * argument of the wrong type.
   */
  function WorklogInput(req: Request): (r: Result<WorklogArguments, Response>)
    ensures r.Failure? ==> r.error == Fatal || r.error == Json(400, ErrorDocument(WorklogRequired))
    ensures r.Success? ==> r.value.key != "" && r.value.timeSpent != ""
    ensures Input(req).None? ==> r == Failure(Fatal)
    ensures Input(req).Some? ==>
      var key := Get(Arr(Input(req).value), StrKey("key"));
      var timeSpent := Get(Arr(Input(req).value), StrKey("timeSpent"));
      var comment := Get(Arr(Input(req).value), StrKey("comment"));
      var started := Get(Arr(Input(req).value), StrKey("started"));
      var bindable := !Blank(key) && !Blank(timeSpent) && key.value.Str? && timeSpent.value.Str?
                      && (comment.None? || comment.value.Str?) && (started.None? || started.value.Str?);
      && (Blank(key) || Blank(timeSpent) ==> r == Failure(Json(400, ErrorDocument(WorklogRequired))))
      && (bindable ==>
            r == Success(WorklogArguments(key.value.s, timeSpent.value.s,
                                          if comment.None? then "" else comment.value.s,
                                          if started.None? then None else Some(started.value.s))))
      && (!Blank(key) && !Blank(timeSpent) && !bindable ==> r == Failure(Fatal))
  {
    match Input(req)
    case None => Failure(Fatal)
    case Some(input) =>
      var key := Get(Arr(input), StrKey("key"));
      var timeSpent := Get(Arr(input), StrKey("timeSpent"));
      if Blank(key) || Blank(timeSpent) then Failure(Json(400, ErrorDocument(WorklogRequired)))
      else
        match (StrArg(key, ""), StrArg(timeSpent, ""), StrArg(Get(Arr(input), StrKey("comment")), ""),
               NullableStrArg(Get(Arr(input), StrKey("started"))))
        case (Some(k), Some(t), Some(comment), Some(started)) => Success(WorklogArguments(k, t, comment, started))
        case _ => Failure(Fatal)
  }

  /** A request with a key and a time spent but no comment or start passes validation with '' and null. */
  lemma WorklogCommentOptional(key: string, timeSpent: string)
    requires key != "" && timeSpent != ""
    ensures WorklogInput(Request(map[], map[], Arr([Entry("key", Str(key)), Entry("timeSpent", Str(timeSpent))])))
            == Success(WorklogArguments(key, timeSpent, "", None))
  {
    var es := [Entry("key", Str(key)), Entry("timeSpent", Str(timeSpent))];
    assert es[1..] == [Entry("timeSpent", Str(timeSpent))];
    assert es[1..][1..] == [];
    assert Find(es[1..], StrKey("timeSpent")) == Some(Str(timeSpent));
    assert Find(es, StrKey("timeSpent")) == Some(Str(timeSpent));
    assert Get(Arr(es), StrKey("key")) == Some(Str(key));
    assert Get(Arr(es), StrKey("timeSpent")) == Some(Str(timeSpent));
    assert Get(Arr(es), StrKey("comment")) == None;
    assert Get(Arr(es), StrKey("started")) == None;
  }

  function WorklogDocument(r: WorklogResult): Value {
    Arr([Entry("success", Bool(true)), Entry("worklog", WorklogResultToArray(r))])
  }

  /** `actionAddWorklog` with the serialiser it needs. */
  function ActionAddWorklog(c: Client.JiraClient, req: Request): (out: Result<Response, JiraError>)
    ensures WorklogInput(req).Failure? ==> out == Success(WorklogInput(req).error)
    ensures WorklogInput(req).Success? ==>
      var a := WorklogInput(req).value;
      out == Reply(c.addWorklog(a.key, a.timeSpent, a.comment, a.started), WorklogDocument)
  {
    match WorklogInput(req)
    case Failure(response) => Success(response)
    case Success(a) => Reply(c.addWorklog(a.key, a.timeSpent, a.comment, a.started), WorklogDocument)
  }

  /**
   * `actionAddWorklog` as the script has it: `$result->toArray()` on a
   * WorklogResult, which has no such method, so a successful call ends in
   * an uncaught Error.
   */
  function ActionAddWorklogAsWritten(c: Client.JiraClient, req: Request): (out: Result<Response, JiraError>)
    ensures WorklogInput(req).Failure? ==> out == ActionAddWorklog(c, req)
  {
    match WorklogInput(req)
    case Failure(response) => Success(response)
    case Success(a) =>
      match c.addWorklog(a.key, a.timeSpent, a.comment, a.started)
      case Success(_) => Success(Fatal)
      case Failure(Raised(e)) => Failure(e)
      case Failure(TypeError) => Success(Fatal)
  }

  /**
   * The discrepancy: whenever the worklog is created, the script as written
   * answers with a fatal error instead of the worklog; the corrected handler
   * answers 200 with a serialised result that reads back as the result.
   */
  lemma AddWorklogAsWrittenFails(c: Client.JiraClient, req: Request)
    requires WorklogInput(req).Success?
    requires var a := WorklogInput(req).value; c.addWorklog(a.key, a.timeSpent, a.comment, a.started).Success?
    ensures ActionAddWorklogAsWritten(c, req) == Success(Fatal)
    ensures var a := WorklogInput(req).value;
      var result := c.addWorklog(a.key, a.timeSpent, a.comment, a.started).value;
      && ActionAddWorklog(c, req) == Success(Json(200, WorklogDocument(result)))
      && WorklogResultOf(WorklogDocument(result).entries[1].1) == Some(result)
  {
    var a := WorklogInput(req).value;
    WorklogResultRoundTrip(c.addWorklog(a.key, a.timeSpent, a.comment, a.started).value);
  }

  const Actions: seq<string> := ["search", "get", "timeReport", "addComment", "addWorklog"]

  function UnknownDocument(): Value {
    Arr([Entry("success", Bool(false)), Entry("error", Str("Unknown action")),
         Entry("availableActions", List(seq(|Actions|, k requires 0 <= k < |Actions| => Str(Actions[k]))))])
  }

  /** The router's `match ($action)`: five handlers, anything else is unknown. */
  function Dispatch(action: string, c: Client.JiraClient, req: Request): (out: Result<Response, JiraError>)
    ensures action !in Actions ==> out == Success(Json(400, UnknownDocument()))
    ensures action == Actions[0] ==> out == ActionSearch(c, req)
    ensures action == Actions[1] ==> out == ActionGet(c, req)
    ensures action == Actions[2] ==> out == ActionTimeReport(c, req)
    ensures action == Actions[3] ==> out == ActionAddComment(c, req)
    ensures action == Actions[4] ==> out == ActionAddWorklog(c, req)
  {
    match action
    case "search" => ActionSearch(c, req)
    case "get" => ActionGet(c, req)
    case "timeReport" => ActionTimeReport(c, req)
    case "addComment" => ActionAddComment(c, req)
    case "addWorklog" => ActionAddWorklog(c, req)
    case _ => Success(Json(400, UnknownDocument()))
  }

  /** The unknown-action answer lists exactly the five actions, in order. */
  lemma UnknownListsActions()
    ensures var listed := UnknownDocument().entries[2].1;
      && |listed.entries| == |Actions|
      && forall k :: 0 <= k < |Actions| ==> listed.entries[k] == (IntKey(k), Str(Actions[k]))
  {
  }

  /** `$_GET['action'] ?? $_POST['action'] ?? ''`. */
  function Action(req: Request): string {
    if "action" in req.query then req.query["action"] else if "action" in req.form then req.form["action"] else ""
  }

  /**
   * The script from top to bottom: the client from the environment (the
   * lesstif adapter is a parameter), then the handler; a JiraException from
   * either becomes status 500 with its message.
   */
  function Handle(env: Environ.Environment, lesstif: Client.JiraClient, transport: NativeClient.Transport,
                  now: Timestamp.LocalTime, req: Request): (out: Response)
    ensures Factory.FromEnv(env).Failure? ==> out == Json(500, ErrorDocument(Factory.FromEnv(env).error.message))
    ensures Factory.FromEnv(env).Success? ==>
      var d := Dispatch(Action(req), ClientOf(Factory.FromEnv(env).value, lesstif, transport, now), req);
      && (d.Success? ==> out == d.value)
      && (d.Failure? ==> out == Json(500, ErrorDocument(d.error.message)))
  {
    match Factory.FromEnv(env)
    case Failure(e) => Json(500, ErrorDocument(e.message))
    case Success(created) =>
      match Dispatch(Action(req), ClientOf(created, lesstif, transport, now), req)
      case Success(response) => response
      case Failure(e) => Json(500, ErrorDocument(e.message))
  }

  /** The client the script works with, once the environment yields one. */
  function ClientOf(created: Factory.Created, lesstif: Client.JiraClient, transport: NativeClient.Transport,
                    now: Timestamp.LocalTime): Client.JiraClient {
    if created.NativeClientOf? then Client.Native(created.client, transport, now) else lesstif
  }

  /** A JSON answer has one of three statuses, and `success` leads the document, true exactly for 200. */
  predicate WellFormed(out: Response) {
    out.Json? ==>
      && (out.status == 200 || out.status == 400 || out.status == 500)
      && out.document.Arr? && |out.document.entries| >= 2
      && out.document.entries[0] == Entry("success", Bool(out.status == 200))
  }

  lemma ReplyWellFormed<T>(r: Result<T, Thrown>, document: T -> Value)
    requires forall v :: document(v).Arr? && |document(v).entries| >= 2 && document(v).entries[0] == Entry("success", Bool(true))
    ensures Reply(r, document).Success? ==> WellFormed(Reply(r, document).value)
  {
  }

  lemma DispatchWellFormed(action: string, c: Client.JiraClient, req: Request)
    ensures Dispatch(action, c, req).Success? ==> WellFormed(Dispatch(action, c, req).value)
  {
    match action
    case "search" => ReplyWellFormed(c.search(QueryText(req, "jql", DefaultJql), QueryNumber(req, "startAt", 0),
                                              QueryNumber(req, "maxResults", 50), SearchFields), SearchDocument);
    case "get" =>
      if QueryText(req, "key", "") != "" {
        ReplyWellFormed(c.getIssue(req.query["key"], ExpandFields), IssueDocument);
      }
    case "timeReport" =>
      ReplyWellFormed(c.search(QueryText(req, "jql", DefaultJql), 0, QueryNumber(req, "maxResults", 100), ReportFields),
                      ReportDocument);
    case "addComment" =>
      forall r: Result<CommentResult, Thrown> ensures Reply(r, CommentDocument).Success? ==> WellFormed(Reply(r, CommentDocument).value) {
        ReplyWellFormed(r, CommentDocument);
      }
    case "addWorklog" =>
      if WorklogInput(req).Success? {
        var a := WorklogInput(req).value;
        ReplyWellFormed(c.addWorklog(a.key, a.timeSpent, a.comment, a.started), WorklogDocument);
      }
    case _ =>
  }

  /** Every answer of the script is a fatal error or well formed. */
  lemma ResponseShape(env: Environ.Environment, lesstif: Client.JiraClient, transport: NativeClient.Transport,
                      now: Timestamp.LocalTime, req: Request)
    ensures WellFormed(Handle(env, lesstif, transport, now, req))
  {
    if Factory.FromEnv(env).Success? {
      DispatchWellFormed(Action(req), ClientOf(Factory.FromEnv(env).value, lesstif, transport, now), req);
    }
  }

  /** Validation answers 400 before the client is used: the answer is the same for every client. */
  lemma ValidationIgnoresClient(c: Client.JiraClient, d: Client.JiraClient, req: Request)
    ensures QueryText(req, "key", "") == "" ==> Dispatch("get", c, req) == Dispatch("get", d, req)
    ensures var input := Input(req);
      input.Some? && (Blank(Get(Arr(input.value), StrKey("key"))) || Blank(Get(Arr(input.value), StrKey("comment")))) ==>
        Dispatch("addComment", c, req) == Dispatch("addComment", d, req)
    ensures WorklogInput(req).Failure? ==> Dispatch("addWorklog", c, req) == Dispatch("addWorklog", d, req)
  {
  }
}

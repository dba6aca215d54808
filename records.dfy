/**
 * The gateway's domain records (Issue, Comment, Attachment, Worklog and the
 * results of the write operations), their `toArray` serialisers, and readers
 * that take a serialised array back to the record.
 */
module Records {
  import opened Wrappers
  import opened Php

  /** A comment on an issue; `updated` may be left out and is then null. */
  datatype Comment = Comment(
    id: string,
    author: string,
    authorAvatar: Option<string>,
    body: string,
    created: Option<string>,
    updated: Option<string> := None)
  {
    function ToArray(): Value {
      Arr([Entry("id", Str(id)), Entry("author", Str(author)), Entry("authorAvatar", OrNull(authorAvatar)),
           Entry("body", Str(body)), Entry("created", OrNull(created)), Entry("updated", OrNull(updated))])
    }
  }

  const CommentKeys: seq<string> := ["id", "author", "authorAvatar", "body", "created", "updated"]

  function CommentOf(v: Value): Option<Comment> {
    var vs :- ValuesUnder(v, CommentKeys);
    var id :- AsStr(vs[0]);
    var author :- AsStr(vs[1]);
    var authorAvatar :- AsNullableStr(vs[2]);
    var body :- AsStr(vs[3]);
    var created :- AsNullableStr(vs[4]);
    var updated :- AsNullableStr(vs[5]);
    Some(Comment(id, author, authorAvatar, body, created, updated))
  }

  /** A file attached to an issue; every argument is required. */
  datatype Attachment = Attachment(
    id: string,
    filename: string,
    size: int,
    mimeType: string,
    content: string,
    thumbnail: Option<string>,
    author: string,
    created: Option<string>)
  {
    function ToArray(): Value {
      Arr([Entry("id", Str(id)), Entry("filename", Str(filename)), Entry("size", Int(size)),
           Entry("mimeType", Str(mimeType)), Entry("content", Str(content)), Entry("thumbnail", OrNull(thumbnail)),
           Entry("author", Str(author)), Entry("created", OrNull(created))])
    }
  }

  const AttachmentKeys: seq<string> := ["id", "filename", "size", "mimeType", "content", "thumbnail", "author", "created"]

  function AttachmentOf(v: Value): Option<Attachment> {
    var vs :- ValuesUnder(v, AttachmentKeys);
    var id :- AsStr(vs[0]);
    var filename :- AsStr(vs[1]);
    var size :- AsInt(vs[2]);
    var mimeType :- AsStr(vs[3]);
    var content :- AsStr(vs[4]);
    var thumbnail :- AsNullableStr(vs[5]);
    var author :- AsStr(vs[6]);
    var created :- AsNullableStr(vs[7]);
    Some(Attachment(id, filename, size, mimeType, content, thumbnail, author, created))
  }

  /** A logged unit of work; `comment` defaults to the empty string, never null. */
  datatype Worklog = Worklog(
    id: string,
    author: string,
    authorAvatar: Option<string>,
    timeSpent: string,
    timeSpentSeconds: int,
    started: Option<string>,
    comment: string := "")
  {
    function ToArray(): Value {
      Arr([Entry("id", Str(id)), Entry("author", Str(author)), Entry("authorAvatar", OrNull(authorAvatar)),
           Entry("timeSpent", Str(timeSpent)), Entry("timeSpentSeconds", Int(timeSpentSeconds)),
           Entry("started", OrNull(started)), Entry("comment", Str(comment))])
    }
  }

  const WorklogKeys: seq<string> := ["id", "author", "authorAvatar", "timeSpent", "timeSpentSeconds", "started", "comment"]

  function WorklogOf(v: Value): Option<Worklog> {
    var vs :- ValuesUnder(v, WorklogKeys);
    var id :- AsStr(vs[0]);
    var author :- AsStr(vs[1]);
    var authorAvatar :- AsNullableStr(vs[2]);
    var timeSpent :- AsStr(vs[3]);
    var timeSpentSeconds :- AsInt(vs[4]);
    var started :- AsNullableStr(vs[5]);
    var comment :- AsStr(vs[6]);
    Some(Worklog(id, author, authorAvatar, timeSpent, timeSpentSeconds, started, comment))
  }

  /** What `addComment` returns; all four arguments are required, only `created` is nullable. */
  datatype CommentResult = CommentResult(id: string, author: string, body: string, created: Option<string>)
  {
    function ToArray(): Value {
      Arr([Entry("id", Str(id)), Entry("author", Str(author)), Entry("body", Str(body)), Entry("created", OrNull(created))])
    }
  }

  const CommentResultKeys: seq<string> := ["id", "author", "body", "created"]

  function CommentResultOf(v: Value): Option<CommentResult> {
    var vs :- ValuesUnder(v, CommentResultKeys);
    var id :- AsStr(vs[0]);
    var author :- AsStr(vs[1]);
    var body :- AsStr(vs[2]);
    var created :- AsNullableStr(vs[3]);
    Some(CommentResult(id, author, body, created))
  }

  /** What `addWorklog` returns. The record has no serialiser of its own. */
  datatype WorklogResult = WorklogResult(
    id: string,
    author: string,
    timeSpent: string,
    timeSpentSeconds: int,
    started: Option<string>,
    comment: string := "")

  /**
   * The serialiser `WorklogResult` lacks and the gateway calls: the six
   * fields under their own names, in declaration order, as the other
   * records' `toArray` do.
   */
  function WorklogResultToArray(r: WorklogResult): Value {
    Arr([Entry("id", Str(r.id)), Entry("author", Str(r.author)), Entry("timeSpent", Str(r.timeSpent)),
         Entry("timeSpentSeconds", Int(r.timeSpentSeconds)), Entry("started", OrNull(r.started)),
         Entry("comment", Str(r.comment))])
  }

  const WorklogResultKeys: seq<string> := ["id", "author", "timeSpent", "timeSpentSeconds", "started", "comment"]

  function WorklogResultOf(v: Value): Option<WorklogResult> {
    var vs :- ValuesUnder(v, WorklogResultKeys);
    var id :- AsStr(vs[0]);
    var author :- AsStr(vs[1]);
    var timeSpent :- AsStr(vs[2]);
    var timeSpentSeconds :- AsInt(vs[3]);
    var started :- AsNullableStr(vs[4]);
    var comment :- AsStr(vs[5]);
    Some(WorklogResult(id, author, timeSpent, timeSpentSeconds, started, comment))
  }

  /**
   * An issue. Summary fields are always present; the detail part
   * (description and the three collections) is filled only by a detailed
   * fetch and otherwise keeps its defaults.
   */
  datatype Issue = Issue(
    key: string,
    id: string,
    summary: string,
    status: string,
    statusCategory: string,
    priority: string,
    assignee: string,
    assigneeAvatar: Option<string>,
    reporter: string,
    created: Option<string>,
    updated: Option<string>,
    dueDate: Option<string>,
    labels: seq<(Key, Value)>,
    issueType: string,
    issueTypeIcon: Option<string>,
    originalEstimate: int,
    remainingEstimate: int,
    timeSpent: int,
    originalEstimateFormatted: Option<string>,
    remainingEstimateFormatted: Option<string>,
    timeSpentFormatted: Option<string>,
    description: Option<string> := None,
    comments: seq<Comment> := [],
    attachments: seq<Attachment> := [],
    worklogs: seq<Worklog> := [])
  {
    /** The same issue with the detail part at its constructor defaults. */
    function Summary(): Issue {
      this.(description := None, comments := [], attachments := [], worklogs := [])
    }

    /** The 21 summary entries of `toArray`, in the source's order. */
    function SummaryEntries(): seq<(Key, Value)> {
      [Entry("key", Str(key)), Entry("id", Str(id)), Entry("summary", Str(summary)),
       Entry("status", Str(status)), Entry("statusCategory", Str(statusCategory)),
       Entry("priority", Str(priority)), Entry("assignee", Str(assignee)),
       Entry("assigneeAvatar", OrNull(assigneeAvatar)), Entry("reporter", Str(reporter)),
       Entry("created", OrNull(created)), Entry("updated", OrNull(updated)),
       Entry("dueDate", OrNull(dueDate)), Entry("labels", Arr(labels)),
       Entry("issueType", Str(issueType)), Entry("issueTypeIcon", OrNull(issueTypeIcon)),
       Entry("originalEstimate", Int(originalEstimate)), Entry("remainingEstimate", Int(remainingEstimate)),
       Entry("timeSpent", Int(timeSpent)),
       Entry("originalEstimateFormatted", OrNull(originalEstimateFormatted)),
       Entry("remainingEstimateFormatted", OrNull(remainingEstimateFormatted)),
       Entry("timeSpentFormatted", OrNull(timeSpentFormatted))]
    }

    /** The four entries a detailed `toArray` adds; each collection is serialised element by element. */
    function DetailEntries(): seq<(Key, Value)> {
      [Entry("description", OrNull(description)),
       Entry("comments", CommentList(comments)),
       Entry("attachments", AttachmentList(attachments)),
       Entry("worklogs", WorklogList(worklogs))]
    }

    function ToArray(detailed: bool := false): Value {
      if detailed then Arr(SummaryEntries() + DetailEntries()) else Arr(SummaryEntries())
    }
  }

  /** `array_map(fn($c) => $c->toArray(), $comments)`: element-wise, order and length kept. */
  function CommentList(cs: seq<Comment>): Value {
    List(seq(|cs|, k requires 0 <= k < |cs| => cs[k].ToArray()))
  }

  function AttachmentList(as_: seq<Attachment>): Value {
    List(seq(|as_|, k requires 0 <= k < |as_| => as_[k].ToArray()))
  }

  function WorklogList(ws: seq<Worklog>): Value {
    List(seq(|ws|, k requires 0 <= k < |ws| => ws[k].ToArray()))
  }

  const SummaryKeys: seq<string> := [
    "key", "id", "summary", "status", "statusCategory", "priority", "assignee", "assigneeAvatar",
    "reporter", "created", "updated", "dueDate", "labels", "issueType", "issueTypeIcon",
    "originalEstimate", "remainingEstimate", "timeSpent",
    "originalEstimateFormatted", "remainingEstimateFormatted", "timeSpentFormatted"]

  const DetailKeys: seq<string> := ["description", "comments", "attachments", "worklogs"]

  function AsArray(v: Value): Option<seq<(Key, Value)>> {
    if v.Arr? then Some(v.entries) else None
  }

  function AsListOf<T>(v: Value, read: Value -> Option<T>): Option<seq<T>> {
    if v.Arr? then ReadEach(ValuesOf(v.entries), read) else None
  }

  /** A `?string` slot as the record holds it. */
  function NullableOf(v: Value): Option<string> {
    if v.Str? then Some(v.s) else None
  }

  /** Reads the 21 summary slots, in SummaryKeys order, when each holds a value of its field's type. */
  function SummaryOf(vs: seq<Value>): Option<Issue>
    requires |vs| == |SummaryKeys|
  {
    if && vs[0].Str? && vs[1].Str? && vs[2].Str? && vs[3].Str? && vs[4].Str? && vs[5].Str? && vs[6].Str?
       && (vs[7].Str? || vs[7].Null?) && vs[8].Str? && (vs[9].Str? || vs[9].Null?)
       && (vs[10].Str? || vs[10].Null?) && (vs[11].Str? || vs[11].Null?) && vs[12].Arr? && vs[13].Str?
       && (vs[14].Str? || vs[14].Null?) && vs[15].Int? && vs[16].Int? && vs[17].Int?
       && (vs[18].Str? || vs[18].Null?) && (vs[19].Str? || vs[19].Null?) && (vs[20].Str? || vs[20].Null?)
    then
      Some(Issue(vs[0].s, vs[1].s, vs[2].s, vs[3].s, vs[4].s, vs[5].s, vs[6].s, NullableOf(vs[7]), vs[8].s,
                 NullableOf(vs[9]), NullableOf(vs[10]), NullableOf(vs[11]), vs[12].entries, vs[13].s,
                 NullableOf(vs[14]), vs[15].i, vs[16].i, vs[17].i,
                 NullableOf(vs[18]), NullableOf(vs[19]), NullableOf(vs[20])))
    else None
  }

  /** Adds the four detail slots, in DetailKeys order, to a summary-read issue. */
  function WithDetail(issue: Issue, vs: seq<Value>): Option<Issue>
    requires |vs| == |DetailKeys|
  {
    var description :- AsNullableStr(vs[0]);
    var comments :- AsListOf(vs[1], CommentOf);
    var attachments :- AsListOf(vs[2], AttachmentOf);
    var worklogs :- AsListOf(vs[3], WorklogOf);
    Some(issue.(description := description, comments := comments, attachments := attachments, worklogs := worklogs))
  }

  /** Reads a serialised issue back, detailed or summary. */
  function IssueOf(v: Value): Option<Issue> {
    match ValuesUnder(v, SummaryKeys + DetailKeys)
    case Some(vs) =>
      var issue :- SummaryOf(vs[..|SummaryKeys|]);
      WithDetail(issue, vs[|SummaryKeys|..])
    case None =>
      var vs :- ValuesUnder(v, SummaryKeys);
      SummaryOf(vs)
  }

  /** One page of a search; the numbers are the backend's, the issues summary-mapped. */
  datatype SearchResult = SearchResult(total: int, startAt: int, maxResults: int, issues: seq<Issue>)

  /**
   * The one error type. `statusCode` is 0 for transport and configuration
   * failures and the HTTP status otherwise; `response` is the decoded body
   * of an HTTP error.
   */
  datatype JiraError = JiraError(message: string, statusCode: int := 0, response: Option<Value> := None)

  /**
   * What a client operation can throw: a JiraException, or an Error the
   * gateway does not catch (a TypeError when a decoded value does not fit
   * the typed parameter it is passed to).
   */
  datatype Thrown = Raised(error: JiraError) | TypeError

  /** Comment.toArray has exactly the six keys, in order, and loses nothing. */
  lemma CommentRoundTrip(c: Comment)
    ensures Keys(c.ToArray()) == StrKeys(CommentKeys)
    ensures CommentOf(c.ToArray()) == Some(c)
  {
    assert Keys(c.ToArray()) == StrKeys(CommentKeys);
  }

  lemma AttachmentRoundTrip(a: Attachment)
    ensures Keys(a.ToArray()) == StrKeys(AttachmentKeys)
    ensures AttachmentOf(a.ToArray()) == Some(a)
  {
    assert Keys(a.ToArray()) == StrKeys(AttachmentKeys);
  }

  lemma WorklogRoundTrip(w: Worklog)
    ensures Keys(w.ToArray()) == StrKeys(WorklogKeys)
    ensures WorklogOf(w.ToArray()) == Some(w)
  {
    assert Keys(w.ToArray()) == StrKeys(WorklogKeys);
  }

  lemma CommentResultRoundTrip(r: CommentResult)
    ensures Keys(r.ToArray()) == StrKeys(CommentResultKeys)
    ensures CommentResultOf(r.ToArray()) == Some(r)
  {
    assert Keys(r.ToArray()) == StrKeys(CommentResultKeys);
  }

  lemma WorklogResultRoundTrip(r: WorklogResult)
    ensures Keys(WorklogResultToArray(r)) == StrKeys(WorklogResultKeys)
    ensures WorklogResultOf(WorklogResultToArray(r)) == Some(r)
  {
    assert Keys(WorklogResultToArray(r)) == StrKeys(WorklogResultKeys);
  }

  /** The summary array has the 21 summary keys; the detailed one adds the four detail keys after them. */
  lemma IssueToArrayKeys(i: Issue, detailed: bool)
    ensures Keys(i.ToArray(detailed)) == StrKeys(SummaryKeys + if detailed then DetailKeys else [])
  {
    assert Keys(i.ToArray(detailed)) == StrKeys(SummaryKeys + if detailed then DetailKeys else []);
  }

  /** Restricting the detailed array to the summary keys gives exactly the summary array. */
  lemma IssueDetailedExtendsSummary(i: Issue)
    ensures i.ToArray(true).entries[..|SummaryKeys|] == i.ToArray(false).entries
  {
  }

  /** The summary slots read back to the summary part of the issue. */
  lemma SummaryRoundTrip(i: Issue)
    ensures |ValuesOf(i.SummaryEntries())| == |SummaryKeys|
    ensures SummaryOf(ValuesOf(i.SummaryEntries())) == Some(i.Summary())
  {
    var vs := ValuesOf(i.SummaryEntries());
    SummarySlotsHead(i);
    SummarySlotsMiddle(i);
    SummarySlotsTail(i);
    SummaryOfSlots(vs, i);
  }

  lemma SummarySlotsHead(i: Issue)
    ensures var vs := ValuesOf(i.SummaryEntries());
      && vs[0] == Str(i.key) && vs[1] == Str(i.id) && vs[2] == Str(i.summary) && vs[3] == Str(i.status)
      && vs[4] == Str(i.statusCategory) && vs[5] == Str(i.priority) && vs[6] == Str(i.assignee)
  {
  }

  lemma SummarySlotsMiddle(i: Issue)
    ensures var vs := ValuesOf(i.SummaryEntries());
      && vs[7] == OrNull(i.assigneeAvatar) && vs[8] == Str(i.reporter) && vs[9] == OrNull(i.created)
      && vs[10] == OrNull(i.updated) && vs[11] == OrNull(i.dueDate) && vs[12] == Arr(i.labels)
      && vs[13] == Str(i.issueType)
  {
  }

  lemma SummarySlotsTail(i: Issue)
    ensures var vs := ValuesOf(i.SummaryEntries());
      && vs[14] == OrNull(i.issueTypeIcon)
      && vs[15] == Int(i.originalEstimate) && vs[16] == Int(i.remainingEstimate) && vs[17] == Int(i.timeSpent)
      && vs[18] == OrNull(i.originalEstimateFormatted) && vs[19] == OrNull(i.remainingEstimateFormatted)
      && vs[20] == OrNull(i.timeSpentFormatted)
  {
  }

  /** Slots holding an issue's summary fields, each in its serialised form, read back to that issue's summary. */
  lemma SummaryOfSlots(vs: seq<Value>, i: Issue)
    requires |vs| == |SummaryKeys|
    requires vs[0] == Str(i.key) && vs[1] == Str(i.id) && vs[2] == Str(i.summary) && vs[3] == Str(i.status)
    requires vs[4] == Str(i.statusCategory) && vs[5] == Str(i.priority) && vs[6] == Str(i.assignee)
    requires vs[7] == OrNull(i.assigneeAvatar) && vs[8] == Str(i.reporter) && vs[9] == OrNull(i.created)
    requires vs[10] == OrNull(i.updated) && vs[11] == OrNull(i.dueDate) && vs[12] == Arr(i.labels)
    requires vs[13] == Str(i.issueType) && vs[14] == OrNull(i.issueTypeIcon)
    requires vs[15] == Int(i.originalEstimate) && vs[16] == Int(i.remainingEstimate) && vs[17] == Int(i.timeSpent)
    requires vs[18] == OrNull(i.originalEstimateFormatted) && vs[19] == OrNull(i.remainingEstimateFormatted)
    requires vs[20] == OrNull(i.timeSpentFormatted)
    ensures SummaryOf(vs) == Some(i.Summary())
  {
  }

  /** A serialised list of comments reads back to the comments. */
  lemma CommentsRoundTrip(cs: seq<Comment>)
    ensures AsListOf(CommentList(cs), CommentOf) == Some(cs)
  {
    var vs := seq(|cs|, k requires 0 <= k < |cs| => cs[k].ToArray());
    forall i | 0 <= i < |vs| ensures CommentOf(vs[i]) == Some(cs[i]) {
      CommentRoundTrip(cs[i]);
    }
    ReadEachOf(vs, cs, CommentOf);
    ItemsOfList(vs);
  }

  lemma AttachmentsRoundTrip(as_: seq<Attachment>)
    ensures AsListOf(AttachmentList(as_), AttachmentOf) == Some(as_)
  {
    var vs := seq(|as_|, k requires 0 <= k < |as_| => as_[k].ToArray());
    forall i | 0 <= i < |vs| ensures AttachmentOf(vs[i]) == Some(as_[i]) {
      AttachmentRoundTrip(as_[i]);
    }
    ReadEachOf(vs, as_, AttachmentOf);
    ItemsOfList(vs);
  }

  lemma WorklogsRoundTrip(ws: seq<Worklog>)
    ensures AsListOf(WorklogList(ws), WorklogOf) == Some(ws)
  {
    var vs := seq(|ws|, k requires 0 <= k < |ws| => ws[k].ToArray());
    forall i | 0 <= i < |vs| ensures WorklogOf(vs[i]) == Some(ws[i]) {
      WorklogRoundTrip(ws[i]);
    }
    ReadEachOf(vs, ws, WorklogOf);
    ItemsOfList(vs);
  }

  /**
   * Reading back: the detailed array gives the issue itself, the summary
   * array gives the issue with its detail part at the defaults.
   */
  lemma IssueRoundTrip(i: Issue)
    ensures IssueOf(i.ToArray(true)) == Some(i)
    ensures IssueOf(i.ToArray(false)) == Some(i.Summary())
  {
    DetailedIssueRoundTrip(i);
    SummaryIssueRoundTrip(i);
  }

  lemma DetailRoundTrip(i: Issue)
    ensures |ValuesOf(i.DetailEntries())| == |DetailKeys|
    ensures WithDetail(i.Summary(), ValuesOf(i.DetailEntries())) == Some(i)
  {
    var d := ValuesOf(i.DetailEntries());
    assert AsNullableStr(d[0]) == Some(i.description);
    CommentsRoundTrip(i.comments);
    AttachmentsRoundTrip(i.attachments);
    WorklogsRoundTrip(i.worklogs);
    assert AsListOf(d[1], CommentOf) == Some(i.comments);
    assert AsListOf(d[2], AttachmentOf) == Some(i.attachments);
    assert AsListOf(d[3], WorklogOf) == Some(i.worklogs);
    assert i.Summary().(description := i.description, comments := i.comments,
                        attachments := i.attachments, worklogs := i.worklogs) == i;
  }

  lemma DetailedIssueRoundTrip(i: Issue)
    ensures IssueOf(i.ToArray(true)) == Some(i)
  {
    IssueToArrayKeys(i, true);
    var vs := ValuesOf(i.SummaryEntries() + i.DetailEntries());
    assert ValuesUnder(i.ToArray(true), SummaryKeys + DetailKeys) == Some(vs);
    assert vs[..|SummaryKeys|] == ValuesOf(i.SummaryEntries());
    assert vs[|SummaryKeys|..] == ValuesOf(i.DetailEntries());
    SummaryRoundTrip(i);
    DetailRoundTrip(i);
  }

  lemma SummaryIssueRoundTrip(i: Issue)
    ensures IssueOf(i.ToArray(false)) == Some(i.Summary())
  {
    IssueToArrayKeys(i, false);
    assert |StrKeys(SummaryKeys)| != |StrKeys(SummaryKeys + DetailKeys)|;
    assert ValuesUnder(i.ToArray(false), SummaryKeys) == Some(ValuesOf(i.SummaryEntries()));
    SummaryRoundTrip(i);
  }

  /** Two issues with the same detailed serialisation are the same issue. */
  lemma IssueToArrayInjective(i: Issue, j: Issue)
    requires i.ToArray(true) == j.ToArray(true)
    ensures i == j
  {
    IssueRoundTrip(i);
    IssueRoundTrip(j);
  }
}

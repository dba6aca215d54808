/**
 * The native Jira client: credentials to base URL and Basic authorization,
 * query building for `search` and `getIssue`, classification of a finished
 * HTTP exchange, and the mapping of Jira's JSON into the domain records.
 * The HTTP transport and the clock are parameters.
 */
module NativeClient {
  import opened Wrappers
  import opened Php
  import opened Records
  import Text
  import Utf8
  import Base64
  import UrlQuery
  import Decimal
  import Timestamp
  import Environ

  /** The two strings the client keeps between calls. */
  datatype NativeJiraClient = NativeJiraClient(baseUrl: string, authHeader: string)

  const ApiPath := "/rest/api/2"
  const BasicPrefix := "Basic "

  /** The constructor: trailing slashes of the host dropped, credentials as Basic authorization. */
  function New(host: string, user: string, token: string): NativeJiraClient {
    NativeJiraClient(Text.TrimRight(host, '/') + ApiPath,
                     BasicPrefix + Base64.Encode(Utf8.Encode(user + ":" + token)))
  }

  /**
   * The base URL is the host without its trailing slashes, then the API path;
   * what was dropped was slashes only, and extra trailing slashes change nothing.
   */
  lemma BaseUrlOfHost(host: string, user: string, token: string)
    ensures var url := New(host, user, token).baseUrl;
      && |url| >= |ApiPath| && url[|url| - |ApiPath|..] == ApiPath
      && var stem := url[..|url| - |ApiPath|];
      && stem <= host
      && (stem == [] || stem[|stem| - 1] != '/')
      && (forall i :: |stem| <= i < |host| ==> host[i] == '/')
    ensures New(host + "/", user, token).baseUrl == New(host, user, token).baseUrl
  {
    var stem := Text.TrimRight(host, '/');
    assert New(host, user, token).baseUrl[..|stem|] == stem;
    assert (host + "/")[..|host|] == host;
  }

  /**
   * The header is "Basic " and the base64 of the UTF-8 bytes of "user:token"
   * (section 2 of RFC 7617); decoding gives back those bytes, and the user
   * part, when it has no ':', is what precedes the first ':'.
   */
  lemma AuthHeaderDecodes(host: string, user: string, token: string)
    ensures var header := New(host, user, token).authHeader;
      && header[..|BasicPrefix|] == BasicPrefix
      && Base64.Decode(header[|BasicPrefix|..]) == Some(Utf8.Encode(user + ":" + token))
      && Utf8.Decode(Utf8.Encode(user + ":" + token)) == Some(user + ":" + token)
    ensures Text.Free(user, ':') ==> Text.Split(user + ":" + token, ':')[0] == user
  {
    var header := New(host, user, token).authHeader;
    var encoded := Base64.Encode(Utf8.Encode(user + ":" + token));
    assert header[|BasicPrefix|..] == encoded;
    Base64.DecodeEncode(Utf8.Encode(user + ":" + token));
    Utf8.EncodeDecode(user + ":" + token);
    if Text.Free(user, ':') {
      assert user + ":" + token == user + [':'] + token;
      Text.SplitAppend(user, token, ':');
    }
  }

  const MissingCredentials := "Missing JIRA_HOST, JIRA_USER or JIRA_PASS environment variables"

  /** `fromEnv`: the three settings, each missing or falsy read as ''. */
  function FromEnv(e: Environ.Environment): (r: Result<NativeJiraClient, JiraError>)
    ensures var host := Environ.Lookup(e, "JIRA_HOST", "");
      var user := Environ.Lookup(e, "JIRA_USER", "");
      var token := Environ.Lookup(e, "JIRA_PASS", "");
      && (r.Failure? <==> host == "" || user == "" || token == "")
      && (r.Failure? ==> r.error == JiraError(MissingCredentials, 0, None))
      && (r.Success? ==> r.value == New(host, user, token))
  {
    var host := Environ.Lookup(e, "JIRA_HOST", "");
    var user := Environ.Lookup(e, "JIRA_USER", "");
    var token := Environ.Lookup(e, "JIRA_PASS", "");
    if host == "" || user == "" || token == "" then Failure(JiraError(MissingCredentials))
    else Success(New(host, user, token))
  }

  /** A setting of "0" counts as missing, wherever it comes from. */
  lemma FromEnvZeroIsMissing(e: Environ.Environment)
    requires "JIRA_PASS" in e.dotenv && e.dotenv["JIRA_PASS"] == "0"
    ensures FromEnv(e) == Failure(JiraError(MissingCredentials, 0, None))
  {
  }

  /*
   * Requests and their outcome.
   */

  /** What the client hands to cURL. `body` is the JSON document of a POST. */
  datatype HttpRequest = HttpRequest(
    verb: string, url: string, headers: seq<string>, timeoutSeconds: int, verifyPeer: bool, body: Option<Value>)

  /**
   * What cURL reports back: its error text ("" when none), the HTTP code,
   * and the body as `json_decode($body, true)` reads it (`Null` for a body
   * that is not JSON or is JSON null).
   */
  datatype Exchange = Exchange(transportError: string, httpCode: int, body: Value)

  /** The transport: given a request, what came back. */
  type Transport = HttpRequest -> Exchange

  function Request(c: NativeJiraClient, verb: string, endpoint: string, data: Option<Value>): HttpRequest {
    HttpRequest(verb, c.baseUrl + endpoint,
                ["Authorization: " + c.authHeader, "Content-Type: application/json", "Accept: application/json"],
                30, true, if verb == "POST" then data else None)
  }

  const HttpErrorPrefix := "HTTP error "

  /**
   * The message of an HTTP error: `errorMessages[0]`, else the value under
   * the first key of `errors`, else "HTTP error {code}". `None` is the
   * TypeError of a message that is not a string, or of an `errors` that is
   * set but not an array (array_key_first rejects it).
   */
  function ErrorMessage(decoded: Value, code: int): (r: Option<string>)
    ensures var first := AtIndex(Get(decoded, StrKey("errorMessages")), 0);
      first.Some? ==> r == (if first.value.Str? then Some(first.value.s) else None)
    ensures var first := AtIndex(Get(decoded, StrKey("errorMessages")), 0);
      var errors := Get(decoded, StrKey("errors"));
      first.None? && errors.Some? && errors.value.Arr? && errors.value.entries != [] ==>
        var second := Get(errors.value, errors.value.entries[0].0);
        second.Some? ==> r == (if second.value.Str? then Some(second.value.s) else None)
    ensures var first := AtIndex(Get(decoded, StrKey("errorMessages")), 0);
      var errors := Get(decoded, StrKey("errors"));
      first.None? && errors.Some? && !errors.value.Arr? ==> r.None?
    ensures var first := AtIndex(Get(decoded, StrKey("errorMessages")), 0);
      var errors := Get(decoded, StrKey("errors"));
      first.None? &&
      (errors.None? ||
       (errors.value.Arr? && (errors.value.entries == [] || Get(errors.value, errors.value.entries[0].0).None?))) ==>
        && r == Some(HttpErrorPrefix + Decimal.IntToString(code))
        && Decimal.ParseInt(r.value[|HttpErrorPrefix|..]) == Some(code)
  {
    var first := AtIndex(Get(decoded, StrKey("errorMessages")), 0);
    if first.Some? then
      (if first.value.Str? then Some(first.value.s) else None)
    else
      var errors := Get(decoded, StrKey("errors"));
      if errors.Some? && !errors.value.Arr? then None
      else
        var second := if errors.Some? && errors.value.entries != [] then Get(errors.value, errors.value.entries[0].0) else None;
        if second.Some? then
          (if second.value.Str? then Some(second.value.s) else None)
        else
          var message := HttpErrorPrefix + Decimal.IntToString(code);
          assert message[|HttpErrorPrefix|..] == Decimal.IntToString(code);
          Decimal.IntToStringRoundTrip(code);
          Some(message)
  }

  /** A string `errorMessages` is indexed as a string: its first character is the message. */
  lemma ErrorMessageOfString(decoded: Value, code: int, s: string)
    requires Get(decoded, StrKey("errorMessages")) == Some(Str(s)) && s != []
    ensures ErrorMessage(decoded, code) == Some([s[0]])
  {
  }

  /**
   * The end of `request`: a cURL error first, before anything is decoded;
   * then an HTTP error (status 400 and above) with its message, status and
   * decoded body; otherwise the decoded body, an undecodable one read as [].
   * A decoded body that is not an array cannot be returned or attached to
   * the exception: a TypeError.
   */
  function Classify(x: Exchange): (r: Result<seq<(Key, Value)>, Thrown>)
    ensures !Environ.Falsy(x.transportError) ==>
      r == Failure(Raised(JiraError("cURL error: " + x.transportError, 0, None)))
    ensures var decoded := if x.body.Null? then Arr([]) else x.body;
      Environ.Falsy(x.transportError) && x.httpCode >= 400 ==>
        && r.Failure?
        && (decoded.Arr? && ErrorMessage(decoded, x.httpCode).Some? <==> r.error.Raised?)
        && (r.error.Raised? ==> r.error.error == JiraError(ErrorMessage(decoded, x.httpCode).value, x.httpCode, Some(decoded)))
    ensures var decoded := if x.body.Null? then Arr([]) else x.body;
      Environ.Falsy(x.transportError) && x.httpCode < 400 ==>
        r == if decoded.Arr? then Success(decoded.entries) else Failure(TypeError)
  {
    if !Environ.Falsy(x.transportError) then Failure(Raised(JiraError("cURL error: " + x.transportError)))
    else
      var decoded := if x.body.Null? then Arr([]) else x.body;
      if x.httpCode >= 400 then
        match ErrorMessage(decoded, x.httpCode)
        case Some(message) =>
          if decoded.Arr? then Failure(Raised(JiraError(message, x.httpCode, Some(decoded)))) else Failure(TypeError)
        case None => Failure(TypeError)
      else if decoded.Arr? then Success(decoded.entries)
      else Failure(TypeError)
  }

  /** The status code of a raised error tells the two kinds apart: 0 exactly for a transport failure. */
  lemma ClassifyStatusCode(x: Exchange)
    requires Classify(x).Failure? && Classify(x).error.Raised?
    ensures Classify(x).error.error.statusCode == 0 <==> !Environ.Falsy(x.transportError)
    ensures Classify(x).error.error.statusCode != 0 ==> Classify(x).error.error.statusCode == x.httpCode >= 400
  {
  }

  /*
   * Query building.
   */

  /** The parameters of `search`: always jql, startAt, maxResults; fields only when there are some. */
  function SearchParams(jql: string, startAt: int, maxResults: int, fields: seq<string>): seq<(string, string)> {
    [("jql", jql), ("startAt", Decimal.IntToString(startAt)), ("maxResults", Decimal.IntToString(maxResults))]
    + (if fields != [] then [("fields", Text.Join(fields, ','))] else [])
  }

  function SearchEndpoint(jql: string, startAt: int, maxResults: int, fields: seq<string>): string {
    "/search?" + UrlQuery.BuildQuery(SearchParams(jql, startAt, maxResults, fields))
  }

  /**
   * What the server reads from the search query: jql as sent, the two
   * numbers, and -- only when fields were asked for -- the field names in
   * order (each free of ',').
   */
  lemma SearchQueryReadsBack(jql: string, startAt: int, maxResults: int, fields: seq<string>)
    ensures var endpoint := SearchEndpoint(jql, startAt, maxResults, fields);
      var params := SearchParams(jql, startAt, maxResults, fields);
      && endpoint[..8] == "/search?"
      && UrlQuery.ParseQuery(endpoint[8..]) == Some(UrlQuery.WireParams(params))
      && |params| == (if fields == [] then 3 else 4)
      && params[0] == ("jql", jql)
      && params[1].0 == "startAt" && Decimal.ParseInt(params[1].1) == Some(startAt)
      && params[2].0 == "maxResults" && Decimal.ParseInt(params[2].1) == Some(maxResults)
      && (fields != [] && (forall i :: 0 <= i < |fields| ==> Text.Free(fields[i], ',')) ==>
            params[3].0 == "fields" && Text.Split(params[3].1, ',') == fields)
  {
    var params := SearchParams(jql, startAt, maxResults, fields);
    var endpoint := SearchEndpoint(jql, startAt, maxResults, fields);
    assert endpoint[8..] == UrlQuery.BuildQuery(params);
    UrlQuery.ParseBuildQuery(params);
    Decimal.IntToStringRoundTrip(startAt);
    Decimal.IntToStringRoundTrip(maxResults);
    if fields != [] && (forall i :: 0 <= i < |fields| ==> Text.Free(fields[i], ',')) {
      Text.SplitJoin(fields, ',');
    }
  }

  /** `getIssue`'s path: the key as given, then `?expand=...` only when expand is non-empty. */
  function IssueEndpoint(key: string, expand: seq<string>): string {
    "/issue/" + key + (if expand != [] then "?" + UrlQuery.BuildQuery([("expand", Text.Join(expand, ','))]) else "")
  }

  lemma IssueEndpointReadsBack(key: string, expand: seq<string>)
    ensures expand == [] ==> IssueEndpoint(key, expand) == "/issue/" + key
    ensures var endpoint := IssueEndpoint(key, expand);
      var n := |"/issue/" + key|;
      expand != [] ==>
        && endpoint[..n] == "/issue/" + key && |endpoint| > n && endpoint[n] == '?'
        && UrlQuery.ParseQuery(endpoint[n + 1..]) == Some(UrlQuery.WireParams([("expand", Text.Join(expand, ','))]))
        && ((forall i :: 0 <= i < |expand| ==> Text.Free(expand[i], ',')) ==> Text.Split(Text.Join(expand, ','), ',') == expand)
  {
    if expand != [] {
      var endpoint := IssueEndpoint(key, expand);
      var n := |"/issue/" + key|;
      assert endpoint[n + 1..] == UrlQuery.BuildQuery([("expand", Text.Join(expand, ','))]);
      UrlQuery.ParseBuildQuery([("expand", Text.Join(expand, ','))]);
      if forall i :: 0 <= i < |expand| ==> Text.Free(expand[i], ',') {
        Text.SplitJoin(expand, ',');
      }
    }
  }

  /*
   * Mapping Jira's JSON. Every read is `$x[...] ?? default` bound to the
   * record's typed parameter; `None` is a TypeError.
   */

  /** `$x['author']['displayName'] ?? 'Unknown'`, shared by every record with an author. */
  function AuthorName(x: Option<Value>): Option<string> {
    StrArg(At(At(x, "author"), "displayName"), "Unknown")
  }

  function AuthorAvatar(x: Option<Value>): Option<Option<string>> {
    NullableStrArg(At(At(At(x, "author"), "avatarUrls"), "48x48"))
  }

  /** One element of `fields.comment.comments`; the closure takes an array. */
  function MapComment(v: Value): (r: Option<Comment>)
    ensures r.Some? ==>
      && v.Arr?
      && r.value.id == StringCastOr(At(Some(v), "id"))
      && AuthorName(Some(v)) == Some(r.value.author)
      && AuthorAvatar(Some(v)) == Some(r.value.authorAvatar)
      && StrArg(At(Some(v), "body"), "") == Some(r.value.body)
      && NullableStrArg(At(Some(v), "created")) == Some(r.value.created)
      && NullableStrArg(At(Some(v), "updated")) == Some(r.value.updated)
    ensures (v.Arr?
             && AuthorName(Some(v)).Some?
             && AuthorAvatar(Some(v)).Some?
             && StrArg(At(Some(v), "body"), "").Some?
             && NullableStrArg(At(Some(v), "created")).Some?
             && NullableStrArg(At(Some(v), "updated")).Some?) ==> r.Some?
    ensures v == Arr([]) ==> r == Some(Comment("", "Unknown", None, "", None, None))
  {
    if !v.Arr? then None
    else
      var c := Some(v);
      var author :- AuthorName(c);
      var authorAvatar :- AuthorAvatar(c);
      var body :- StrArg(At(c, "body"), "");
      var created :- NullableStrArg(At(c, "created"));
      var updated :- NullableStrArg(At(c, "updated"));
      Some(Comment(StringCastOr(At(c, "id")), author, authorAvatar, body, created, updated))
  }

  function MapAttachment(v: Value): (r: Option<Attachment>)
    ensures r.Some? ==>
      && v.Arr?
      && r.value.id == StringCastOr(At(Some(v), "id"))
      && StrArg(At(Some(v), "filename"), "") == Some(r.value.filename)
      && IntArg(At(Some(v), "size"), 0) == Some(r.value.size)
      && StrArg(At(Some(v), "mimeType"), "") == Some(r.value.mimeType)
      && StrArg(At(Some(v), "content"), "") == Some(r.value.content)
      && NullableStrArg(At(Some(v), "thumbnail")) == Some(r.value.thumbnail)
      && AuthorName(Some(v)) == Some(r.value.author)
      && NullableStrArg(At(Some(v), "created")) == Some(r.value.created)
    ensures (v.Arr?
             && StrArg(At(Some(v), "filename"), "").Some?
             && IntArg(At(Some(v), "size"), 0).Some?
             && StrArg(At(Some(v), "mimeType"), "").Some?
             && StrArg(At(Some(v), "content"), "").Some?
             && NullableStrArg(At(Some(v), "thumbnail")).Some?
             && AuthorName(Some(v)).Some?
             && NullableStrArg(At(Some(v), "created")).Some?) ==> r.Some?
    ensures v == Arr([]) ==> r == Some(Attachment("", "", 0, "", "", None, "Unknown", None))
  {
    if !v.Arr? then None
    else
      var a := Some(v);
      var filename :- StrArg(At(a, "filename"), "");
      var size :- IntArg(At(a, "size"), 0);
      var mimeType :- StrArg(At(a, "mimeType"), "");
      var content :- StrArg(At(a, "content"), "");
      var thumbnail :- NullableStrArg(At(a, "thumbnail"));
      var author :- AuthorName(a);
      var created :- NullableStrArg(At(a, "created"));
      Some(Attachment(StringCastOr(At(a, "id")), filename, size, mimeType, content, thumbnail, author, created))
  }

  function MapWorklog(v: Value): (r: Option<Worklog>)
    ensures r.Some? ==>
      && v.Arr?
      && r.value.id == StringCastOr(At(Some(v), "id"))
      && AuthorName(Some(v)) == Some(r.value.author)
      && AuthorAvatar(Some(v)) == Some(r.value.authorAvatar)
      && StrArg(At(Some(v), "timeSpent"), "") == Some(r.value.timeSpent)
      && IntArg(At(Some(v), "timeSpentSeconds"), 0) == Some(r.value.timeSpentSeconds)
      && NullableStrArg(At(Some(v), "started")) == Some(r.value.started)
      && StrArg(At(Some(v), "comment"), "") == Some(r.value.comment)
    ensures (v.Arr?
             && AuthorName(Some(v)).Some?
             && AuthorAvatar(Some(v)).Some?
             && StrArg(At(Some(v), "timeSpent"), "").Some?
             && IntArg(At(Some(v), "timeSpentSeconds"), 0).Some?
             && NullableStrArg(At(Some(v), "started")).Some?
             && StrArg(At(Some(v), "comment"), "").Some?) ==> r.Some?
    ensures v == Arr([]) ==> r == Some(Worklog("", "Unknown", None, "", 0, None, ""))
  {
    if !v.Arr? then None
    else
      var w := Some(v);
      var author :- AuthorName(w);
      var authorAvatar :- AuthorAvatar(w);
      var timeSpent :- StrArg(At(w, "timeSpent"), "");
      var timeSpentSeconds :- IntArg(At(w, "timeSpentSeconds"), 0);
      var started :- NullableStrArg(At(w, "started"));
      var comment :- StrArg(At(w, "comment"), "");
      Some(Worklog(StringCastOr(At(w, "id")), author, authorAvatar, timeSpent, timeSpentSeconds, started, comment))
  }

  /** The 21 summary fields of `mapIssue`, with the detail part at its defaults. */
  function MapSummary(data: Option<Value>, fields: Option<Value>): (r: Option<Issue>)
    ensures r.Some? ==>
      && StrArg(At(data, "key"), "") == Some(r.value.key)
      && r.value.id == StringCastOr(At(data, "id"))
      && StrArg(At(fields, "summary"), "") == Some(r.value.summary)
      && StrArg(At(At(fields, "status"), "name"), "Unknown") == Some(r.value.status)
      && StrArg(At(At(At(fields, "status"), "statusCategory"), "key"), "undefined") == Some(r.value.statusCategory)
      && StrArg(At(At(fields, "priority"), "name"), "None") == Some(r.value.priority)
      && StrArg(At(At(fields, "assignee"), "displayName"), "Unassigned") == Some(r.value.assignee)
      && NullableStrArg(At(At(At(fields, "assignee"), "avatarUrls"), "48x48")) == Some(r.value.assigneeAvatar)
      && StrArg(At(At(fields, "reporter"), "displayName"), "Unknown") == Some(r.value.reporter)
      && NullableStrArg(At(fields, "created")) == Some(r.value.created)
      && NullableStrArg(At(fields, "updated")) == Some(r.value.updated)
      && NullableStrArg(At(fields, "duedate")) == Some(r.value.dueDate)
      && ArrayArg(At(fields, "labels")) == Some(r.value.labels)
      && StrArg(At(At(fields, "issuetype"), "name"), "Task") == Some(r.value.issueType)
      && NullableStrArg(At(At(fields, "issuetype"), "iconUrl")) == Some(r.value.issueTypeIcon)
      && IntArg(At(fields, "timeoriginalestimate"), 0) == Some(r.value.originalEstimate)
      && IntArg(At(fields, "timeestimate"), 0) == Some(r.value.remainingEstimate)
      && IntArg(At(fields, "timespent"), 0) == Some(r.value.timeSpent)
      && NullableStrArg(At(At(fields, "timetracking"), "originalEstimate")) == Some(r.value.originalEstimateFormatted)
      && NullableStrArg(At(At(fields, "timetracking"), "remainingEstimate")) == Some(r.value.remainingEstimateFormatted)
      && NullableStrArg(At(At(fields, "timetracking"), "timeSpent")) == Some(r.value.timeSpentFormatted)
    ensures (StrArg(At(data, "key"), "").Some?
             && StrArg(At(fields, "summary"), "").Some?
             && StrArg(At(At(fields, "status"), "name"), "Unknown").Some?
             && StrArg(At(At(At(fields, "status"), "statusCategory"), "key"), "undefined").Some?
             && StrArg(At(At(fields, "priority"), "name"), "None").Some?
             && StrArg(At(At(fields, "assignee"), "displayName"), "Unassigned").Some?
             && NullableStrArg(At(At(At(fields, "assignee"), "avatarUrls"), "48x48")).Some?
             && StrArg(At(At(fields, "reporter"), "displayName"), "Unknown").Some?
             && NullableStrArg(At(fields, "created")).Some?
             && NullableStrArg(At(fields, "updated")).Some?
             && NullableStrArg(At(fields, "duedate")).Some?
             && ArrayArg(At(fields, "labels")).Some?
             && StrArg(At(At(fields, "issuetype"), "name"), "Task").Some?
             && NullableStrArg(At(At(fields, "issuetype"), "iconUrl")).Some?
             && IntArg(At(fields, "timeoriginalestimate"), 0).Some?
             && IntArg(At(fields, "timeestimate"), 0).Some?
             && IntArg(At(fields, "timespent"), 0).Some?
             && NullableStrArg(At(At(fields, "timetracking"), "originalEstimate")).Some?
             && NullableStrArg(At(At(fields, "timetracking"), "remainingEstimate")).Some?
             && NullableStrArg(At(At(fields, "timetracking"), "timeSpent")).Some?) ==> r.Some?
    ensures r.Some? ==> r.value == r.value.Summary()
  {
    var key :- StrArg(At(data, "key"), "");
    var summary :- StrArg(At(fields, "summary"), "");
    var status :- StrArg(At(At(fields, "status"), "name"), "Unknown");
    var statusCategory :- StrArg(At(At(At(fields, "status"), "statusCategory"), "key"), "undefined");
    var priority :- StrArg(At(At(fields, "priority"), "name"), "None");
    var assignee :- StrArg(At(At(fields, "assignee"), "displayName"), "Unassigned");
    var assigneeAvatar :- NullableStrArg(At(At(At(fields, "assignee"), "avatarUrls"), "48x48"));
    var reporter :- StrArg(At(At(fields, "reporter"), "displayName"), "Unknown");
    var created :- NullableStrArg(At(fields, "created"));
    var updated :- NullableStrArg(At(fields, "updated"));
    var dueDate :- NullableStrArg(At(fields, "duedate"));
    var labels :- ArrayArg(At(fields, "labels"));
    var issueType :- StrArg(At(At(fields, "issuetype"), "name"), "Task");
    var issueTypeIcon :- NullableStrArg(At(At(fields, "issuetype"), "iconUrl"));
    var originalEstimate :- IntArg(At(fields, "timeoriginalestimate"), 0);
    var remainingEstimate :- IntArg(At(fields, "timeestimate"), 0);
    var timeSpent :- IntArg(At(fields, "timespent"), 0);
    var originalEstimateFormatted :- NullableStrArg(At(At(fields, "timetracking"), "originalEstimate"));
    var remainingEstimateFormatted :- NullableStrArg(At(At(fields, "timetracking"), "remainingEstimate"));
    var timeSpentFormatted :- NullableStrArg(At(At(fields, "timetracking"), "timeSpent"));
    Some(Issue(key, StringCastOr(At(data, "id")), summary, status, statusCategory, priority, assignee, assigneeAvatar,
               reporter, created, updated, dueDate, labels, issueType, issueTypeIcon,
               originalEstimate, remainingEstimate, timeSpent,
               originalEstimateFormatted, remainingEstimateFormatted, timeSpentFormatted))
  }

  /** The detail part of a detailed `mapIssue`. */
  datatype Detail = Detail(description: string, comments: seq<Comment>, attachments: seq<Attachment>, worklogs: seq<Worklog>)

  function CommentItems(fields: Option<Value>): Option<seq<Value>> {
    Items(At(At(fields, "comment"), "comments"))
  }

  function AttachmentItems(fields: Option<Value>): Option<seq<Value>> {
    Items(At(fields, "attachment"))
  }

  function WorklogItems(fields: Option<Value>): Option<seq<Value>> {
    Items(At(At(fields, "worklog"), "worklogs"))
  }

  /**
   * The detail part: description defaulting to '', and the three lists
   * mapped element by element, in order.
   */
  function MapDetail(fields: Option<Value>): (r: Option<Detail>)
    ensures r.Some? ==>
      && CommentItems(fields).Some? && |r.value.comments| == |CommentItems(fields).value|
      && (forall i :: 0 <= i < |r.value.comments| ==> MapComment(CommentItems(fields).value[i]) == Some(r.value.comments[i]))
      && AttachmentItems(fields).Some? && |r.value.attachments| == |AttachmentItems(fields).value|
      && (forall i :: 0 <= i < |r.value.attachments| ==>
            MapAttachment(AttachmentItems(fields).value[i]) == Some(r.value.attachments[i]))
      && WorklogItems(fields).Some? && |r.value.worklogs| == |WorklogItems(fields).value|
      && (forall i :: 0 <= i < |r.value.worklogs| ==> MapWorklog(WorklogItems(fields).value[i]) == Some(r.value.worklogs[i]))
    ensures r.Some? ==> StrArg(At(fields, "description"), "") == Some(r.value.description)
    ensures (&& CommentItems(fields).Some?
             && (forall i :: 0 <= i < |CommentItems(fields).value| ==> MapComment(CommentItems(fields).value[i]).Some?)
             && AttachmentItems(fields).Some?
             && (forall i :: 0 <= i < |AttachmentItems(fields).value| ==>
                   MapAttachment(AttachmentItems(fields).value[i]).Some?)
             && WorklogItems(fields).Some?
             && (forall i :: 0 <= i < |WorklogItems(fields).value| ==> MapWorklog(WorklogItems(fields).value[i]).Some?)
             && StrArg(At(fields, "description"), "").Some?)
            ==> r.Some?
    ensures (&& At(fields, "description").None? && CommentItems(fields) == Some([])
             && AttachmentItems(fields) == Some([]) && WorklogItems(fields) == Some([]))
            ==> r == Some(Detail("", [], [], []))
  {
    var comments :- CommentItems(fields);
    var comments :- ReadEach(comments, MapComment);
    var attachments :- AttachmentItems(fields);
    var attachments :- ReadEach(attachments, MapAttachment);
    var worklogs :- WorklogItems(fields);
    var worklogs :- ReadEach(worklogs, MapWorklog);
    var description :- StrArg(At(fields, "description"), "");
    Some(Detail(description, comments, attachments, worklogs))
  }

  /** `mapIssue($data, $detailed)`. */
  function MapIssue(data: Value, detailed: bool): (r: Option<Issue>)
    ensures r.Some? && !detailed ==> r.value == r.value.Summary()
    ensures r.Some? && detailed ==> r.value.description.Some?
    ensures var fields := At(Some(data), "fields");
      !detailed ==> r == MapSummary(Some(data), fields)
    ensures var fields := At(Some(data), "fields");
      detailed ==>
        && (r.Some? <==> MapDetail(fields).Some? && MapSummary(Some(data), fields).Some?)
        && (r.Some? ==>
              && r.value.Summary() == MapSummary(Some(data), fields).value
              && r.value.description == Some(MapDetail(fields).value.description)
              && r.value.comments == MapDetail(fields).value.comments
              && r.value.attachments == MapDetail(fields).value.attachments
              && r.value.worklogs == MapDetail(fields).value.worklogs)
  {
    var fields := At(Some(data), "fields");
    if detailed then
      var detail :- MapDetail(fields);
      var issue :- MapSummary(Some(data), fields);
      Some(issue.(description := Some(detail.description), comments := detail.comments,
                  attachments := detail.attachments, worklogs := detail.worklogs))
    else MapSummary(Some(data), fields)
  }

  /** The issue every default of `mapIssue` gives: what an empty response maps to. */
  function DefaultIssue(detailed: bool): Issue {
    Issue("", "", "", "Unknown", "undefined", "None", "Unassigned", None, "Unknown", None, None, None, [],
          "Task", None, 0, 0, 0, None, None, None, if detailed then Some("") else None)
  }

  /**
   * With no key, no id and no fields (or empty fields), every field takes its default;
   * the detailed mapping differs only in the '' description.
   */
  lemma MapIssueDefaults(data: Value, detailed: bool)
    requires Get(data, StrKey("key")).None? && Get(data, StrKey("id")).None?
    requires Get(data, StrKey("fields")).None? || Get(data, StrKey("fields")) == Some(Arr([]))
    ensures MapIssue(data, detailed) == Some(DefaultIssue(detailed))
  {
    var fields := At(Some(data), "fields");
    MapSummaryDefaults(data, fields);
    if detailed {
      assert MapDetail(fields) == Some(Detail("", [], [], []));
    }
  }

  /** Without key, id or any field, the summary mapping is all defaults. */
  lemma MapSummaryDefaults(data: Value, fields: Option<Value>)
    requires At(Some(data), "key").None? && At(Some(data), "id").None?
    requires fields.None? || fields == Some(Arr([]))
    ensures MapSummary(Some(data), fields) == Some(DefaultIssue(false))
  {
    if fields.Some? {
      assert At(fields, "status").None? && At(fields, "priority").None? && At(fields, "assignee").None?;
      assert At(fields, "reporter").None? && At(fields, "issuetype").None? && At(fields, "timetracking").None?;
    }
  }

  /** Whenever the detailed mapping succeeds, the summary mapping is its summary part. */
  lemma MapIssueSummaryOfDetailed(data: Value)
    requires MapIssue(data, true).Some?
    ensures MapIssue(data, false) == Some(MapIssue(data, true).value.Summary())
  {
  }

  /** A search hit: the closure takes an array and maps it without detail. */
  function MapListedIssue(v: Value): (r: Option<Issue>)
    ensures r.Some? ==> v.Arr? && r == MapIssue(v, false)
  {
    if v.Arr? then MapIssue(v, false) else None
  }

  /*
   * The four operations, over a transport.
   */

  /** Maps a TypeError (`None`) to the thrown outcome. */
  function Typed<T>(o: Option<T>): (r: Result<T, Thrown>)
    ensures o.Some? <==> r.Success?
    ensures o.Some? ==> r.value == o.value
    ensures o.None? ==> r.error == TypeError
  {
    if o.Some? then Success(o.value) else Failure(TypeError)
  }

  function Search(c: NativeJiraClient, transport: Transport, jql: string, startAt: int, maxResults: int, fields: seq<string>)
    : (r: Result<SearchResult, Thrown>)
    ensures var response := Classify(transport(Request(c, "GET", SearchEndpoint(jql, startAt, maxResults, fields), None)));
      response.Failure? ==> r == Failure(response.error)
    ensures r.Success? ==>
      var response := Classify(transport(Request(c, "GET", SearchEndpoint(jql, startAt, maxResults, fields), None)));
      && response.Success?
      && var body := Some(Arr(response.value));
      && Items(At(body, "issues")).Some?
      && |r.value.issues| == |Items(At(body, "issues")).value|
      && (forall i :: 0 <= i < |r.value.issues| ==>
            MapListedIssue(Items(At(body, "issues")).value[i]) == Some(r.value.issues[i]))
      && IntArg(At(body, "total"), 0) == Some(r.value.total)
      && IntArg(At(body, "startAt"), 0) == Some(r.value.startAt)
      && IntArg(At(body, "maxResults"), 0) == Some(r.value.maxResults)
    ensures var response := Classify(transport(Request(c, "GET", SearchEndpoint(jql, startAt, maxResults, fields), None)));
      response.Success? ==>
        var body := Some(Arr(response.value));
        var items := Items(At(body, "issues"));
        (r.Success? <==>
           && items.Some?
           && (forall i :: 0 <= i < |items.value| ==> MapListedIssue(items.value[i]).Some?)
           && IntArg(At(body, "total"), 0).Some?
           && IntArg(At(body, "startAt"), 0).Some?
           && IntArg(At(body, "maxResults"), 0).Some?)
        && (r.Failure? ==> r.error == TypeError)
  {
    var response :- Classify(transport(Request(c, "GET", SearchEndpoint(jql, startAt, maxResults, fields), None)));
    var body := Some(Arr(response));
    var items :- Typed(Items(At(body, "issues")));
    var issues :- Typed(ReadEach(items, MapListedIssue));
    var total :- Typed(IntArg(At(body, "total"), 0));
    var startAt :- Typed(IntArg(At(body, "startAt"), 0));
    var maxResults :- Typed(IntArg(At(body, "maxResults"), 0));
    Success(SearchResult(total, startAt, maxResults, issues))
  }

  /** Every issue a search returns carries no detail. */
  lemma SearchIssuesAreSummaries(c: NativeJiraClient, transport: Transport, jql: string, startAt: int, maxResults: int,
                                 fields: seq<string>)
    requires Search(c, transport, jql, startAt, maxResults, fields).Success?
    ensures var issues := Search(c, transport, jql, startAt, maxResults, fields).value.issues;
      forall i :: 0 <= i < |issues| ==> issues[i] == issues[i].Summary()
  {
    var r := Search(c, transport, jql, startAt, maxResults, fields);
    var response := Classify(transport(Request(c, "GET", SearchEndpoint(jql, startAt, maxResults, fields), None)));
    var items := Items(At(Some(Arr(response.value)), "issues")).value;
    forall i | 0 <= i < |r.value.issues|
      ensures r.value.issues[i] == r.value.issues[i].Summary()
    {
      assert MapListedIssue(items[i]) == Some(r.value.issues[i]);
    }
  }

  function GetIssue(c: NativeJiraClient, transport: Transport, key: string, expand: seq<string>): (r: Result<Issue, Thrown>)
    ensures var response := Classify(transport(Request(c, "GET", IssueEndpoint(key, expand), None)));
      response.Failure? ==> r == Failure(response.error)
    ensures r.Success? ==>
      var response := Classify(transport(Request(c, "GET", IssueEndpoint(key, expand), None)));
      response.Success? && MapIssue(Arr(response.value), true) == Some(r.value)
    ensures r.Success? ==> r.value.description.Some?
    ensures var response := Classify(transport(Request(c, "GET", IssueEndpoint(key, expand), None)));
      response.Success? ==>
        && (MapIssue(Arr(response.value), true).Some? ==> r == Success(MapIssue(Arr(response.value), true).value))
        && (MapIssue(Arr(response.value), true).None? ==> r == Failure(TypeError))
  {
    var response :- Classify(transport(Request(c, "GET", IssueEndpoint(key, expand), None)));
    Typed(MapIssue(Arr(response), true))
  }

  function CommentPayload(body: string): Value {
    Arr([Entry("body", Str(body))])
  }

  /** `addComment`: posts the body and maps the created comment. */
  function AddComment(c: NativeJiraClient, transport: Transport, key: string, body: string): (r: Result<CommentResult, Thrown>)
    ensures var response := Classify(transport(Request(c, "POST", "/issue/" + key + "/comment", Some(CommentPayload(body)))));
      && (response.Failure? ==> r == Failure(response.error))
      && (response.Success? && response.value == [] ==> r == Success(CommentResult("", "Unknown", "", None)))
  {
    var response :- Classify(transport(Request(c, "POST", "/issue/" + key + "/comment", Some(CommentPayload(body)))));
    Typed(MapCommentResult(response))
  }

  /** The created comment out of the response. */
  function MapCommentResult(response: seq<(Key, Value)>): Option<CommentResult> {
    var r := Some(Arr(response));
    var author :- AuthorName(r);
    var body :- StrArg(At(r, "body"), "");
    var created :- NullableStrArg(At(r, "created"));
    Some(CommentResult(StringCastOr(At(r, "id")), author, body, created))
  }

  /** The worklog document: `started` as given, otherwise the clock formatted as `Y-m-d\TH:i:s.000O`. */
  function WorklogPayload(timeSpent: string, comment: string, started: Option<string>, now: Timestamp.LocalTime): Value {
    Arr([Entry("timeSpent", Str(timeSpent)), Entry("comment", Str(comment)),
         Entry("started", Str(if started.Some? then started.value else Timestamp.Format(now)))])
  }

  /** Without a start time the document carries the clock's reading, which reads back unchanged. */
  lemma WorklogPayloadStarted(timeSpent: string, comment: string, started: Option<string>, now: Timestamp.LocalTime)
    requires now.Valid()
    ensures var sent := WorklogPayload(timeSpent, comment, started, now).entries[2].1.s;
      && (started.Some? ==> sent == started.value)
      && (started.None? ==> Timestamp.Parse(sent) == Some(now))
  {
    Timestamp.ParseFormat(now);
  }

  /** `addWorklog`: posts the worklog and maps the created entry. */
  function AddWorklog(c: NativeJiraClient, transport: Transport, now: Timestamp.LocalTime,
                      key: string, timeSpent: string, comment: string, started: Option<string>)
    : (r: Result<WorklogResult, Thrown>)
    ensures var response := Classify(transport(Request(c, "POST", "/issue/" + key + "/worklog",
                                                       Some(WorklogPayload(timeSpent, comment, started, now)))));
      && (response.Failure? ==> r == Failure(response.error))
      && (response.Success? && response.value == [] ==> r == Success(WorklogResult("", "Unknown", "", 0, None, "")))
  {
    var response :- Classify(transport(Request(c, "POST", "/issue/" + key + "/worklog",
                                               Some(WorklogPayload(timeSpent, comment, started, now)))));
    Typed(MapWorklogResult(response))
  }

  /** The created worklog out of the response. */
  function MapWorklogResult(response: seq<(Key, Value)>): Option<WorklogResult> {
    var r := Some(Arr(response));
    var author :- AuthorName(r);
    var timeSpent :- StrArg(At(r, "timeSpent"), "");
    var timeSpentSeconds :- IntArg(At(r, "timeSpentSeconds"), 0);
    var started :- NullableStrArg(At(r, "started"));
    var comment :- StrArg(At(r, "comment"), "");
    Some(WorklogResult(StringCastOr(At(r, "id")), author, timeSpent, timeSpentSeconds, started, comment))
  }

  /*
   * The responses Jira sends for a created comment or worklog.
   */

  /** An author as Jira nests it: an object with a display name. */
  function JiraAuthor(name: string): Value {
    Arr([Entry("displayName", Str(name))])
  }

  /** The created comment as Jira describes it. */
  function JiraComment(r: CommentResult): seq<(Key, Value)> {
    [Entry("id", Str(r.id)), Entry("author", JiraAuthor(r.author)), Entry("body", Str(r.body)),
     Entry("created", OrNull(r.created))]
  }

  /** The created worklog as Jira describes it. */
  function JiraWorklog(r: WorklogResult): seq<(Key, Value)> {
    [Entry("id", Str(r.id)), Entry("author", JiraAuthor(r.author)), Entry("timeSpent", Str(r.timeSpent)),
     Entry("timeSpentSeconds", Int(r.timeSpentSeconds)), Entry("started", OrNull(r.started)),
     Entry("comment", Str(r.comment))]
  }

  const CommentFields: seq<string> := ["id", "author", "body", "created"]
  const WorklogFields: seq<string> := ["id", "author", "timeSpent", "timeSpentSeconds", "started", "comment"]

  lemma JiraCommentFind(result: CommentResult, j: nat)
    requires j < |CommentFields|
    ensures Find(JiraComment(result), StrKey(CommentFields[j])) == Some(JiraComment(result)[j].1)
  {
    assert Keys(Arr(JiraComment(result))) == StrKeys(CommentFields);
    assert CommentFields[j] !in CommentFields[..j] + CommentFields[j + 1..];
    FindUnique(JiraComment(result), CommentFields, j);
  }

  lemma JiraWorklogFind(result: WorklogResult, j: nat)
    requires j < |WorklogFields|
    ensures Find(JiraWorklog(result), StrKey(WorklogFields[j])) == Some(JiraWorklog(result)[j].1)
  {
    assert Keys(Arr(JiraWorklog(result))) == StrKeys(WorklogFields);
    assert WorklogFields[j] !in WorklogFields[..j] + WorklogFields[j + 1..];
    FindUnique(JiraWorklog(result), WorklogFields, j);
  }

  /** A response whose lookups find the comment's values maps to that comment. */
  lemma MapCommentResultOfFinds(es: seq<(Key, Value)>, result: CommentResult)
    requires Find(es, StrKey("id")) == Some(Str(result.id))
    requires Find(es, StrKey("author")) == Some(JiraAuthor(result.author))
    requires Find(es, StrKey("body")) == Some(Str(result.body))
    requires Find(es, StrKey("created")) == Some(OrNull(result.created))
    ensures MapCommentResult(es) == Some(result)
  {
    var r := Some(Arr(es));
    assert At(r, "author") == Some(JiraAuthor(result.author));
    assert At(At(r, "author"), "displayName") == Some(Str(result.author));
  }

  /** Every field of the comment Jira reports arrives in the result unchanged. */
  lemma MapCommentResultOfJira(result: CommentResult)
    ensures MapCommentResult(JiraComment(result)) == Some(result)
  {
    JiraCommentFind(result, 0);
    JiraCommentFind(result, 1);
    JiraCommentFind(result, 2);
    JiraCommentFind(result, 3);
    MapCommentResultOfFinds(JiraComment(result), result);
  }

  /** A response whose lookups find the worklog's values maps to that worklog. */
  lemma MapWorklogResultOfLookups(es: seq<(Key, Value)>, result: WorklogResult)
    requires At(Some(Arr(es)), "id") == Some(Str(result.id))
    requires At(Some(Arr(es)), "author") == Some(JiraAuthor(result.author))
    requires At(Some(Arr(es)), "timeSpent") == Some(Str(result.timeSpent))
    requires At(Some(Arr(es)), "timeSpentSeconds") == Some(Int(result.timeSpentSeconds))
    requires result.started.Some? ==> At(Some(Arr(es)), "started") == Some(Str(result.started.value))
    requires result.started.None? ==> At(Some(Arr(es)), "started") == None
    requires At(Some(Arr(es)), "comment") == Some(Str(result.comment))
    ensures MapWorklogResult(es) == Some(result)
  {
    var r := Some(Arr(es));
    assert AuthorName(r) == Some(result.author) by {
      assert At(At(r, "author"), "displayName") == Some(Str(result.author));
    }
  }

  lemma JiraWorklogAt(result: WorklogResult, j: nat)
    requires j < |WorklogFields| && JiraWorklog(result)[j].1 != Null
    ensures At(Some(Arr(JiraWorklog(result))), WorklogFields[j]) == Some(JiraWorklog(result)[j].1)
  {
    JiraWorklogFind(result, j);
    AtFound(JiraWorklog(result), WorklogFields[j], JiraWorklog(result)[j].1);
  }

  /** Every field of the worklog Jira reports arrives in the result unchanged. */
  lemma MapWorklogResultOfJira(result: WorklogResult)
    ensures MapWorklogResult(JiraWorklog(result)) == Some(result)
  {
    var es := JiraWorklog(result);
    JiraWorklogAt(result, 0);
    JiraWorklogAt(result, 1);
    JiraWorklogAt(result, 2);
    JiraWorklogAt(result, 3);
    if result.started.Some? {
      JiraWorklogAt(result, 4);
    } else {
      JiraWorklogFind(result, 4);
    }
    JiraWorklogAt(result, 5);
    MapWorklogResultOfLookups(es, result);
  }

  /** A comment Jira reports as created is what `addComment` returns. */
  lemma AddCommentReadsResponse(c: NativeJiraClient, transport: Transport, key: string, body: string, result: CommentResult)
    requires Classify(transport(Request(c, "POST", "/issue/" + key + "/comment", Some(CommentPayload(body)))))
             == Success(JiraComment(result))
    ensures AddComment(c, transport, key, body) == Success(result)
  {
    MapCommentResultOfJira(result);
  }

  /** A worklog Jira reports as created is what `addWorklog` returns. */
  lemma AddWorklogReadsResponse(c: NativeJiraClient, transport: Transport, now: Timestamp.LocalTime, key: string,
                                timeSpent: string, comment: string, started: Option<string>, result: WorklogResult)
    requires Classify(transport(Request(c, "POST", "/issue/" + key + "/worklog",
                                        Some(WorklogPayload(timeSpent, comment, started, now)))))
             == Success(JiraWorklog(result))
    ensures AddWorklog(c, transport, now, key, timeSpent, comment, started) == Success(result)
  {
    MapWorklogResultOfJira(result);
  }
}

/**
 * JiraClientInterface: the four operations every client offers, with the
 * interface's default arguments. A client is the record of its four
 * operations; `Native` is the native client over a transport and a clock.
 */
module Client {
  import opened Wrappers
  import opened Records
  import NativeClient
  import Timestamp

  datatype JiraClient = JiraClient(
    search: (string, int, int, seq<string>) -> Result<SearchResult, Thrown>,
    getIssue: (string, seq<string>) -> Result<Issue, Thrown>,
    addComment: (string, string) -> Result<CommentResult, Thrown>,
    addWorklog: (string, string, string, Option<string>) -> Result<WorklogResult, Thrown>)

  /** `search($jql, $startAt = 0, $maxResults = 50, $fields = [])`. */
  function Search(c: JiraClient, jql: string, startAt: int := 0, maxResults: int := 50, fields: seq<string> := [])
    : Result<SearchResult, Thrown>
  {
    c.search(jql, startAt, maxResults, fields)
  }

  /** `getIssue($key, $expand = [])`. */
  function GetIssue(c: JiraClient, key: string, expand: seq<string> := []): Result<Issue, Thrown> {
    c.getIssue(key, expand)
  }

  /** `addComment($key, $body)`: no defaults, no local validation. */
  function AddComment(c: JiraClient, key: string, body: string): Result<CommentResult, Thrown> {
    c.addComment(key, body)
  }

  /** `addWorklog($key, $timeSpent, $comment = '', $started = null)`. */
  function AddWorklog(c: JiraClient, key: string, timeSpent: string, comment: string := "", started: Option<string> := None)
    : Result<WorklogResult, Thrown>
  {
    c.addWorklog(key, timeSpent, comment, started)
  }

  /** The native client as a JiraClient: every call goes through `transport`, `now` is the clock. */
  function Native(n: NativeClient.NativeJiraClient, transport: NativeClient.Transport, now: Timestamp.LocalTime): JiraClient {
    JiraClient(
      (jql, startAt, maxResults, fields) => NativeClient.Search(n, transport, jql, startAt, maxResults, fields),
      (key, expand) => NativeClient.GetIssue(n, transport, key, expand),
      (key, body) => NativeClient.AddComment(n, transport, key, body),
      (key, timeSpent, comment, started) => NativeClient.AddWorklog(n, transport, now, key, timeSpent, comment, started))
  }

  /**
   * Called with only the required arguments, the native client searches
   * from 0 for 50 issues with no field list, fetches without expansion, and
   * logs work with an empty comment and the clock's time.
   */
  lemma NativeDefaults(n: NativeClient.NativeJiraClient, transport: NativeClient.Transport, now: Timestamp.LocalTime,
                       jql: string, key: string, timeSpent: string)
    ensures Search(Native(n, transport, now), jql) == NativeClient.Search(n, transport, jql, 0, 50, [])
    ensures GetIssue(Native(n, transport, now), key) == NativeClient.GetIssue(n, transport, key, [])
    ensures AddWorklog(Native(n, transport, now), key, timeSpent)
            == NativeClient.AddWorklog(n, transport, now, key, timeSpent, "", None)
  {
  }
}

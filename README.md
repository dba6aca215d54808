# jirafik and the Tauri demo back end, in Dafny

The project models two small programs.

**jirafik** is a PHP gateway to Jira's REST API (version 2). It has four parts:

- `backend.php` is one script. It reads `?action=` and builds a client from the environment. It runs one of five actions: `search`, `get`, `timeReport`, `addComment` and `addWorklog`. It answers with a JSON document and a status of 200, 400 or 500.
- `JiraClientFactory` picks the client type from `JIRA_CLIENT_TYPE`.
- `NativeJiraClient` talks to Jira over cURL:
  - it builds the base URL and the Basic authorization header;
  - it builds the query strings;
  - it turns an HTTP exchange into decoded JSON or a `JiraException`;
  - it maps Jira's JSON into the domain records.
- The records (`Issue`, `Comment`, `Attachment`, `Worklog`, `CommentResult`, `WorklogResult`) are read-only values. Most of them have a `toArray` serialiser.

**The Tauri demo back end** (`main.rs`) offers these commands:

- `greet`;
- `calculate` on `i32`;
- a counter kept in managed state behind a mutex.

## How the model is built

- **PHP values** are one datatype, `Php.Value`: null, bool, int, string, or an ordered list of (key, value) entries.
  - A key written twice keeps the later value.
  - `$x['a'] ?? d` reads a missing key or a null value as missing.
- **Strict types.** All the files declare `strict_types=1`. So a decoded value of the wrong type that reaches a typed parameter is a `TypeError`. Examples are an `int` summary or a string `timeSpentSeconds`.
  - The model carries this as `Records.Thrown.TypeError`, next to a raised `JiraException` (`Raised`).
  - The router catches only `Exception`, so a `TypeError` ends the script. This is `Backend.Response.Fatal`.
- **The interface.** `JiraClientInterface` becomes `Client.JiraClient`, a record of the four operations as functions. Wrapper functions carry the interface's default arguments.
- **Parameters.** These are inputs to the model:
  - the HTTP transport (`NativeClient.Transport`, request to exchange);
  - the clock (`Timestamp.LocalTime`);
  - the environment (`Environ.Environment`: `$_ENV` and `getenv`);
  - the request (`Backend.Request`: `$_GET`, `$_POST` and the decoded body);
  - the lesstif adapter.
- **PHP builtins** are written out where the result depends on them:
  - `intdiv` and `%` truncate toward zero (`IntDiv`);
  - `(int)` on a string (`Decimal.CastToInt`): leading whitespace, a sign, digits with an optional fraction and exponent, truncation toward zero, and saturation at the 64-bit bounds;
  - `(string)` (`Php.CastToString`);
  - `rtrim` (`Text.TrimRight`);
  - `implode` (`Text.Join`);
  - `base64_encode` on the UTF-8 bytes (`Base64`, `Utf8`);
  - `http_build_query` (`UrlQuery`);
  - `date('Y-m-d\TH:i:s.000O')` (`Timestamp`).
- **Inverses.** Each formatting or serialising function has a reader, and a lemma proves that the reader gives back what was written.
- **The Tauri back end** follows a debug build: an `i32` overflow panics. `Tauri.Counter` is a class whose methods update the count in place. A panic while the lock is held poisons the mutex, and the model records this as the `poisoned` field.

## Model

| member | source | states |
|---|---|---|
| NativeClient.BaseUrlOfHost | jirafik/src/Client/NativeJiraClient.php:21 | The base URL is the host with its trailing slashes dropped (only slashes), followed by `/rest/api/2`. An extra trailing slash on the host changes nothing. |
| NativeClient.AuthHeaderDecodes | jirafik/src/Client/NativeJiraClient.php:22 | The header is `Basic ` plus base64 of the UTF-8 bytes of `user:token`. Decoding gives back exactly those bytes and that text. A user without `:` is what precedes the first `:`. |
| Text.TrimRight | jirafik/src/Client/NativeJiraClient.php:21 | `rtrim($host, '/')` is a prefix of the host that does not end in `/`, and everything it cut was `/`. |
| Base64.DecodeEncode | jirafik/src/Client/NativeJiraClient.php:22 | Decoding the base64 text of any byte string gives back the bytes. |
| Base64.Encode | jirafik/src/Client/NativeJiraClient.php:22 | The encoding's length is 4·⌈n/3⌉, so always a multiple of 4. |
| Base64.DecodeEncodeGroup | jirafik/src/Client/NativeJiraClient.php:22 | Each group of 1 to 3 bytes decodes back from its 4 characters, padding included. |
| Utf8.EncodeDecode | jirafik/src/Client/NativeJiraClient.php:22 | The UTF-8 bytes of a string decode back to the string. |
| Utf8.EncodeCharDecodes | jirafik/src/Client/NativeJiraClient.php:22 | One character's 1 to 4 bytes announce their own length and decode back to the character. |
| Utf8.EncodeAppend | jirafik/src/Client/NativeJiraClient.php:22 | The bytes of `a + b` are the bytes of `a` followed by those of `b`. |
| Utf8.EncodeAscii | jirafik/src/Client/NativeJiraClient.php:22 | An ASCII string is encoded byte for byte. |
| Environ.Lookup | jirafik/src/Client/NativeJiraClient.php:27-29 | `$_ENV[n] ?? getenv(n) ?: d`. `$_ENV` wins when it has the name, `getenv` is used otherwise, and a falsy result ("" or "0") gives way to the default. All four cases are stated. |
| Environ.DotenvShadowsProcess | jirafik/src/Client/NativeJiraClient.php:27-29 | An empty `$_ENV` entry does not fall through to the process environment; the default is used. |
| NativeClient.FromEnv | jirafik/src/Client/NativeJiraClient.php:25-36 | Fails exactly when one of host, user or token is empty after lookup, with the "Missing JIRA_HOST, JIRA_USER or JIRA_PASS" error and status 0. Otherwise the result is the client built from the three values. |
| NativeClient.FromEnvZeroIsMissing | jirafik/src/Client/NativeJiraClient.php:29-33 | A token of "0" counts as missing. |
| NativeClient.SearchQueryReadsBack | jirafik/src/Client/NativeJiraClient.php:44-54 | The search endpoint is `/search?` and a query that parses back to exactly the parameters sent: jql as given, startAt and maxResults as their decimal numbers, and `fields` only when fields were asked for. Comma-free field names split back into the list. |
| UrlQuery.ParseBuildQuery | jirafik/src/Client/NativeJiraClient.php:54 | `http_build_query` output parses back into the UTF-8 bytes of every name and value, in order. |
| UrlQuery.DecodeEncode | jirafik/src/Client/NativeJiraClient.php:54 | Percent-decoding the encoded bytes gives back the bytes. |
| UrlQuery.EncodeHasNoSeparators | jirafik/src/Client/NativeJiraClient.php:54 | An encoded name or value holds no `&` or `=`, so pairs cannot run into each other. |
| UrlQuery.PairParses | jirafik/src/Client/NativeJiraClient.php:54 | A `name=value` piece splits into its two encoded halves, and each decodes to its original bytes. |
| UrlQuery.ParsePairsOfPairs | jirafik/src/Client/NativeJiraClient.php:54 | A list of encoded pairs parses back pair by pair. |
| Text.SplitJoin | jirafik/src/Client/NativeJiraClient.php:51 | `implode(',')` of separator-free parts splits back into the parts. |
| Text.SplitAppend | jirafik/src/Client/NativeJiraClient.php:51 | Splitting `a + sep + b` gives `a` and then the pieces of `b`. |
| Text.SplitFree | jirafik/src/Client/NativeJiraClient.php:51 | A string without the separator splits into itself. |
| NativeClient.Search | jirafik/src/Client/NativeJiraClient.php:38-67 | A transport or HTTP failure propagates unchanged. On success, every listed issue is the non-detailed mapping of the matching `issues` element, in order. `total`, `startAt` and `maxResults` come from the response (0 when absent), not from the arguments. The search succeeds exactly when `issues` is an array, every element maps, and the three numbers bind to `int`; any other failure is a TypeError. |
| NativeClient.SearchIssuesAreSummaries | jirafik/src/Client/NativeJiraClient.php:56-59 | Every issue a search returns has no description, comments, attachments or worklogs. |
| NativeClient.IssueEndpointReadsBack | jirafik/src/Client/NativeJiraClient.php:71-74 | The path is `/issue/{key}`. `?expand=` is added only when expand is non-empty, and its value parses back to the comma-joined list, which splits back into it. |
| NativeClient.GetIssue | jirafik/src/Client/NativeJiraClient.php:69-77 | Failures propagate. A fetched issue is the detailed mapping of the response, so it always has a description. A response that does not map is a TypeError. |
| NativeClient.AddComment | jirafik/src/Client/NativeJiraClient.php:79-91 | Failures propagate. An empty response gives the defaults: id '', author "Unknown", body '', created null. |
| NativeClient.AddCommentReadsResponse | jirafik/src/Client/NativeJiraClient.php:85-90 | When Jira reports the created comment (id, author's displayName, body, created), the result holds exactly those values. |
| NativeClient.MapCommentResultOfJira | jirafik/src/Client/NativeJiraClient.php:85-90 | Mapping Jira's description of a created comment loses nothing. |
| NativeClient.WorklogPayloadStarted | jirafik/src/Client/NativeJiraClient.php:99-103 | The worklog document carries `started` as given. Without it, it carries the clock formatted as `Y-m-d\TH:i:s.000O`, which parses back to the same reading. |
| Timestamp.ParseFormat | jirafik/src/Client/NativeJiraClient.php:102 | Every valid clock reading (year, month, day, hour, minute, second, UTC offset) survives formatting and parsing. |
| Timestamp.YearTextParses | jirafik/src/Client/NativeJiraClient.php:102 | The year has at least four digits, with a '-' for years before 0, and reads back as the year. |
| Timestamp.ClockTextParses | jirafik/src/Client/NativeJiraClient.php:102 | `-MM-DDTHH:MM:SS.000` is 19 characters and reads back to the date and time of day. |
| Timestamp.OffsetTextParses | jirafik/src/Client/NativeJiraClient.php:102 | `O` is a sign and four digits and reads back to the offset in minutes. |
| Timestamp.TwoDigitsOfPad | jirafik/src/Client/NativeJiraClient.php:102 | A number below 100 is written as exactly two digits and reads back. |
| Decimal.ValueOfPad | jirafik/src/Client/NativeJiraClient.php:102 | Zero-padding a number does not change the value its digits read as. |
| NativeClient.AddWorklog | jirafik/src/Client/NativeJiraClient.php:93-113 | Failures propagate. An empty response gives the defaults: id '', author "Unknown", timeSpent '', 0 seconds, started null, comment ''. |
| NativeClient.AddWorklogReadsResponse | jirafik/src/Client/NativeJiraClient.php:105-112 | When Jira reports the created worklog, the result holds exactly its six values. |
| NativeClient.MapWorklogResultOfJira | jirafik/src/Client/NativeJiraClient.php:105-112 | Mapping Jira's description of a created worklog loses nothing. |
| NativeClient.ErrorMessage | jirafik/src/Client/NativeJiraClient.php:151-153 | The message is `errorMessages[0]` when set. Otherwise it is the value under the first key of `errors`. Otherwise it is "HTTP error N", and N parses back to the status. A set value that is not a string is a TypeError, and so is an `errors` that is not an array (`array_key_first`). |
| NativeClient.ErrorMessageOfString | jirafik/src/Client/NativeJiraClient.php:151 | A non-empty string under `errorMessages` is indexed as a string, as `$s[0]` is: its first character is the message. |
| NativeClient.Classify | jirafik/src/Client/NativeJiraClient.php:144-157 | A cURL error wins: it gives "cURL error: …" with status 0. Otherwise a status of 400 or above always fails, with the message, status and decoded body. Below 400 the decoded body is returned ([] for a body that does not decode). A non-array body is a TypeError. |
| NativeClient.ClassifyStatusCode | jirafik/src/Client/NativeJiraClient.php:144-155 | A raised error's status is 0 exactly for a transport failure; otherwise it is the HTTP code, which is at least 400. |
| NativeClient.MapComment | jirafik/src/Client/NativeJiraClient.php:170-177 | Each field is read from its own JSON path with its default: id as `(string)`, author's displayName ("Unknown"), the 48x48 avatar, body (''), created and updated. The mapping succeeds exactly when the comment is an array and every field binds to its parameter type. An empty comment object gives all the defaults. |
| NativeClient.MapAttachment | jirafik/src/Client/NativeJiraClient.php:182-191 | Each of the eight fields is read from its own JSON path with its default. The mapping succeeds exactly when every field binds. An empty object gives every default, including size 0 and author "Unknown". |
| NativeClient.MapWorklog | jirafik/src/Client/NativeJiraClient.php:196-204 | Each of the seven fields is read from its own JSON path with its default. The mapping succeeds exactly when every field binds. An empty object gives every default, including 0 seconds and comment ''. |
| NativeClient.MapSummary | jirafik/src/Client/NativeJiraClient.php:209-230 | Each of the 21 summary fields is read from its own path with its default: status "Unknown", statusCategory "undefined", priority "None", assignee "Unassigned", reporter "Unknown", type "Task", estimates 0. The mapping succeeds exactly when every field binds. The detail part is left at the constructor's defaults. |
| NativeClient.MapDetail | jirafik/src/Client/NativeJiraClient.php:168-207 | The description is `fields.description` (''). Comments, attachments and worklogs are each mapped element by element, in order, from their own JSON paths. The mapping succeeds exactly when the description binds and every element of the three lists maps. With nothing present, the description is '' and the lists are empty. |
| NativeClient.MapIssue | jirafik/src/Client/NativeJiraClient.php:160-236 | A non-detailed mapping is the summary mapping and has no detail part. A detailed mapping succeeds exactly when both the summary and the detail map. It is then their combination, so it always has a description. |
| NativeClient.MapIssueDefaults | jirafik/src/Client/NativeJiraClient.php:209-235 | With no key, no id and no (or empty) fields, the issue is all defaults: status "Unknown", statusCategory "undefined", priority "None", assignee "Unassigned", type "Task", estimates 0. Detailed mapping adds only the '' description. |
| NativeClient.MapIssueSummaryOfDetailed | jirafik/src/Client/NativeJiraClient.php:160-236 | Whenever the detailed mapping succeeds, the plain mapping gives exactly its summary part. |
| NativeClient.MapListedIssue | jirafik/src/Client/NativeJiraClient.php:56-59 | A search hit must be an array, and it is mapped without detail. |
| NativeClient.Typed | jirafik/src/Client/NativeJiraClient.php:3 | A value that fails its typed parameter becomes a thrown TypeError; any other value passes through. |
| Php.Find | jirafik/src/Client/NativeJiraClient.php:162 | The lookup is None exactly when no entry has the key; otherwise an entry holds the key and the value. |
| Php.FindUnique | jirafik/src/Client/NativeJiraClient.php:148 | In an array keyed by a list of names, a name that occurs once finds its own entry. |
| Php.Get | jirafik/src/Client/NativeJiraClient.php:162 | `$v[k] ??` never yields null: a null value reads as missing. |
| Php.StrArg | jirafik/src/Client/NativeJiraClient.php:212 | Binding `$x ?? 'd'` to a `string` parameter gives `d` for a missing value. A present value succeeds exactly when it is a string, and then it is that string. |
| Php.IntArg | jirafik/src/Client/NativeJiraClient.php:225-227 | The same for an `int` parameter. |
| Php.NullableStrArg | jirafik/src/Client/NativeJiraClient.php:219-221 | The same for a `?string` parameter with null as the default. |
| Php.ArrayArg | jirafik/src/Client/NativeJiraClient.php:222 | The same for an `array` parameter with [] as the default. |
| Php.Items | jirafik/src/Client/NativeJiraClient.php:178 | `array_map` over `$x ?? []` visits the values of the array in order; a non-array is rejected. |
| Php.StringCastOr | jirafik/src/Client/NativeJiraClient.php:171 | `(string) ($x ?? '')` is '' for a missing value and the string itself for a string. |
| Php.ReadEach | jirafik/src/Client/NativeJiraClient.php:169-179 | Mapping a list succeeds exactly when every element maps. The results correspond element by element. |
| Php.ReadEachOf | jirafik/src/Client/NativeJiraClient.php:169-179 | A list whose every element maps to the matching element of `xs` maps to `xs`. |
| Php.ItemsOfList | jirafik/src/Client/Issue.php:71-73 | The values of a PHP list built from a sequence are that sequence. |
| Php.ValuesUnder | jirafik/src/Client/Issue.php:45-67 | Reading an array by its exact key list gives the values in key order. |
| Records.CommentRoundTrip | jirafik/src/Client/Comment.php:18-28 | `toArray` has exactly the six keys in order and reads back to the comment. |
| Records.AttachmentRoundTrip | jirafik/src/Client/Attachment.php:20-32 | `toArray` has exactly the eight keys in order and reads back to the attachment. |
| Records.WorklogRoundTrip | jirafik/src/Client/Worklog.php:19-30 | `toArray` has exactly the seven keys in order and reads back to the worklog. |
| Records.CommentResultRoundTrip | jirafik/src/Client/CommentResult.php:16-24 | `toArray` has exactly the four keys in order and reads back to the result. |
| Records.WorklogResultRoundTrip | jirafik/src/Client/WorklogResult.php:9-16 | The corrected serialiser (one key per constructor field, in order) reads back to the result. |
| Records.IssueToArrayKeys | jirafik/src/Client/Issue.php:43-77 | The summary array has the 21 summary keys in order. The detailed array adds description, comments, attachments and worklogs after them. |
| Records.IssueDetailedExtendsSummary | jirafik/src/Client/Issue.php:69-74 | The detailed array begins with exactly the summary array. |
| Records.SummaryRoundTrip | jirafik/src/Client/Issue.php:45-67 | The summary values read back to the issue's summary part. |
| Records.CommentsRoundTrip | jirafik/src/Client/Issue.php:71 | A serialised comment list reads back to the comments. |
| Records.AttachmentsRoundTrip | jirafik/src/Client/Issue.php:72 | A serialised attachment list reads back to the attachments. |
| Records.WorklogsRoundTrip | jirafik/src/Client/Issue.php:73 | A serialised worklog list reads back to the worklogs. |
| Records.DetailRoundTrip | jirafik/src/Client/Issue.php:69-74 | The detail values restore the description and the three lists onto the summary. |
| Records.DetailedIssueRoundTrip | jirafik/src/Client/Issue.php:43-77 | The detailed array reads back to the whole issue. |
| Records.SummaryIssueRoundTrip | jirafik/src/Client/Issue.php:43-67 | The summary array reads back to the issue's summary part. |
| Records.IssueRoundTrip | jirafik/src/Client/Issue.php:43-77 | Both serialisations read back: the detailed one to the issue, the plain one to its summary. |
| Records.IssueToArrayInjective | jirafik/src/Client/Issue.php:43-77 | Two issues with the same detailed array are the same issue. |
| Client.NativeDefaults | jirafik/src/Client/JiraClientInterface.php:18-57 | Called with only the required arguments, the native client searches from 0 for 50 with no field list, fetches without expansion, and logs work with comment '' and the clock's time. |
| Factory.TryFrom | jirafik/src/Client/JiraClientFactory.php:7-11 | Only the exact names "native" and "lesstif" name a client type; a found type's name is the string given. |
| Factory.Create | jirafik/src/Client/JiraClientFactory.php:20-29 | Native gives the environment's native client or its missing-credentials error. Lesstif gives the lesstif client. Any other name fails with "Unknown client type: {name}". |
| Factory.CreateByName | jirafik/src/Client/JiraClientFactory.php:20-29 | "native" behaves as the default argument and "lesstif" as the enum case. Every other string fails, and a success means the string is a type's name. |
| Factory.FromEnv | jirafik/src/Client/JiraClientFactory.php:35-40 | An unset, empty or "0" `JIRA_CLIENT_TYPE` gives the native client. Otherwise the client is created by name from the `$_ENV` value, or from the process environment when `$_ENV` lacks the name. |
| Factory.FromEnvWithoutCredentials | jirafik/src/Client/JiraClientFactory.php:35-40 | With no type and no host configured, the factory fails with the native client's missing-credentials error. |
| Backend.FormatSecondsReadsBack | jirafik/backend.php:32-46 | For a non-negative count, "Hh Mm", "Hh", "Mm" or "0m" reads back as the seconds rounded down to whole minutes: only leftover seconds are lost. |
| Backend.FormatNegativeSeconds | jirafik/backend.php:32-46 | With truncating division, a negative count never shows hours: it reads back as minus less than an hour. |
| Backend.FormatSecondsExamples | jirafik/backend.php:32-46 | 0 → "0m", 30 → "0m", 3600 → "1h", 5400 → "1h 30m". |
| Backend.HoursAndMinutes | jirafik/backend.php:38-39 | For a non-negative count, hours·3600 + minutes·60 is the count less its leftover seconds, with fewer than 60 minutes. |
| Backend.ParseHoursMinutes | jirafik/backend.php:42 | "{h}h {m}m" reads back as h hours and m minutes. |
| Backend.ParseMinutes | jirafik/backend.php:44 | "{m}m" reads back as m minutes. |
| IntDiv.TruncDivision | jirafik/backend.php:38-39 | `intdiv` and `%`: `a = q·b + r`, with abs(r) < abs(b), and r has the sign of a. On non-negative operands they agree with Euclidean division. |
| Backend.IssueRows | jirafik/backend.php:118 | The rows are the issues' `toArray()`, one per issue, in order. |
| Backend.IssueColumns | jirafik/backend.php:120-122 | In a serialised issue, `originalEstimate`, `remainingEstimate` and `timeSpent` hold the issue's own numbers. |
| Backend.SummaryColumn | jirafik/src/Client/Issue.php:45-67 | Each summary name that no other summary name repeats finds its own entry. |
| Backend.ColumnSumsAreTotals | jirafik/backend.php:120-122 | `array_sum(array_column(rows, c))` over the serialised issues equals the sum of the field over the issues, for all three columns. |
| Backend.ReportTotals | jirafik/backend.php:124-135 | The report's three totals are those sums, and the three formatted totals are `formatSeconds` of them. |
| Backend.Reply | jirafik/backend.php:215-227 | A handler's client call gives a 200 document on success. A JiraException is passed up to the router. A TypeError is fatal. |
| Backend.ActionSearch | jirafik/backend.php:61-82 | Without query parameters, the search is for "ORDER BY updated DESC" from 0 for 50, with the 14 listed fields. |
| Backend.SearchPassesQuery | jirafik/backend.php:63-65 | jql is passed unchanged. A startAt and maxResults in PHP's `int` range, written in decimal, reach the client as those numbers. |
| Decimal.CastToIntOfIntToString | jirafik/backend.php:64-65 | `(int)` of the decimal text of a number in PHP's `int` range is the number. |
| Decimal.CastToInt | jirafik/backend.php:64-65 | The result is always in PHP's `int` range. Text with no number after the whitespace and sign gives 0. Otherwise it is the digits of the mantissa scaled by the exponent less the fraction's length, negated after '-', and saturated. |
| Decimal.Clamp | jirafik/backend.php:64-65 | A number is kept when it is in PHP's `int` range, and otherwise saturates at PHP_INT_MAX or PHP_INT_MIN. |
| Decimal.ScalePow | jirafik/backend.php:64-65 | Scaling by a positive exponent multiplies by 10^e. A negative one divides by 10^-e, rounding toward zero. |
| Decimal.CastToIntOfRest | jirafik/backend.php:64-65 | `(int)` of digits followed by text that does not continue them is the digits' value, scaled by the exponent that text holds, and saturated. After a '-' it is the negated value, saturated. |
| Decimal.CastToIntReadsExponent | jirafik/backend.php:64-65 | An exponent scales the integer: `(int) "25e3"` is 25000, not 25. |
| Decimal.CastToIntTruncates | jirafik/backend.php:64-65 | A fraction truncates toward zero: `(int) "1.9"` is 1 and `(int) "-1.9"` is -1. |
| Decimal.CastToIntIgnoresTail | jirafik/backend.php:64-65 | Text after a number that does not continue it is ignored: `(int) "12abc"` is 12. |
| Decimal.CastToIntSaturates | jirafik/backend.php:111 | Digits beyond the `int` range cast to PHP_INT_MAX, or to PHP_INT_MIN after a '-'. |
| Decimal.IntToStringRoundTrip | jirafik/backend.php:42-44 | A number's decimal text parses back to the number. |
| Backend.ActionGet | jirafik/backend.php:88-102 | A missing or empty key answers 400 "Issue key is required". Otherwise the issue is fetched with renderedFields and changelog expanded. |
| Backend.ActionTimeReport | jirafik/backend.php:108-136 | The report always starts at 0, with the 9 report fields. It uses "ORDER BY updated DESC" when no jql is given, and 100 issues unless `maxResults` says otherwise, through `(int)`. A given jql is passed through unchanged. |
| Backend.ActionAddComment | jirafik/backend.php:142-158 | A body that is not an array is fatal. A blank key or comment answers 400. String key and comment reach the client. Any other type is fatal. |
| Backend.WorklogInput | jirafik/backend.php:164-174 | A body that is not an array is fatal. An empty key or timeSpent answers 400. String key and timeSpent, with a string or missing comment and started, give exactly those arguments (comment '' and no start time when missing). Any other type is fatal. |
| Backend.WorklogCommentOptional | jirafik/backend.php:166-174 | A body with only key and timeSpent passes with comment '' and no start time. |
| Backend.ActionAddWorklog | jirafik/backend.php:164-182 | Corrected handler: validation failures answer as validated. Accepted arguments reach the client, and the created worklog is answered with 200. |
| Backend.ActionAddWorklogAsWritten | jirafik/backend.php:164-182 | As written, it agrees with the corrected handler on every request that fails validation. |
| Backend.AddWorklogAsWrittenFails | jirafik/backend.php:176-181 | As written, every created worklog ends in a fatal error. The corrected handler answers 200, and its `worklog` reads back as the result. |
| Backend.Dispatch | jirafik/backend.php:206-213 | Each of the five action names runs its own handler with the client and the request. Any other action answers 400 "Unknown action". |
| Backend.UnknownListsActions | jirafik/backend.php:187-194 | The unknown-action answer lists the five actions, in order. |
| Backend.Handle | jirafik/backend.php:200-227 | A failing factory answers 500 with the exception's message. Otherwise the action is dispatched to the created client: its answer is returned as is, and a raised JiraException answers 500 with its message. |
| Backend.ResponseShape | jirafik/backend.php:200-227 | Every answer is fatal or well formed: status 200, 400 or 500, and `success` first, true exactly for 200. |
| Backend.DispatchWellFormed | jirafik/backend.php:206-215 | Every handler's answer is well formed. |
| Backend.ReplyWellFormed | jirafik/backend.php:75-81 | A success document starting with `success: true` gives a well-formed 200 answer. |
| Backend.ValidationIgnoresClient | jirafik/backend.php:92-94 | A request rejected by validation gets the same answer whatever the client: get, addComment and addWorklog never call it. |
| Tauri.GreetReadsBack | tauri_demo/back/src/main.rs:14-17 | The greeting is "Hello, " + name + "! Welcome to Tauri 2.2!", and the name reads back out of it unchanged. |
| Tauri.Calculate | tauri_demo/back/src/main.rs:21-35 | add, subtract and multiply return the exact result when it fits i32 and panic otherwise. Dividing by 0 gives "Division by zero". Otherwise division truncates toward zero (a = q·b + r with r of a's sign) and panics only for i32::MIN / -1. Any other operation gives "Unknown operation". |
| Tauri.Checked | tauri_demo/back/src/main.rs:23-30 | A debug-build i32 result: the value exactly when it fits, a panic otherwise. |
| Tauri.QuotientRange | tauri_demo/back/src/main.rs:30 | Of all quotients of two i32 values, only i32::MIN / -1 leaves i32. |
| Tauri.Counter.constructor | tauri_demo/back/src/main.rs:74-76 | The counter starts at 0, with the lock not poisoned. |
| Tauri.Counter.Get | tauri_demo/back/src/main.rs:55-58 | Returns the count and changes nothing. A poisoned lock panics. |
| Tauri.Counter.Increment | tauri_demo/back/src/main.rs:60-65 | The count goes up by one and the new count is returned. At i32::MAX the add panics with the lock held, so the count stays and the lock is poisoned. A poisoned lock panics. |
| Tauri.IncrementTimes | tauri_demo/back/src/main.rs:60-65 | From a fresh counter, n increments return 1, 2, …, n and leave n. |

## Left out

- The lesstif adapter (`LesstifJiraClient`) is a parameter of the router; it is not part of this model.
- cURL and the network are a parameter (`NativeClient.Transport`). Headers, timeout and TLS options are recorded in the request value, and their effect is not modelled.
- `json_encode` of the request body and of the answers is not modelled: documents are kept as `Php.Value` trees. `json_decode` is modelled by its result only, so the transport hands over the decoded body.
- JSON floats are not modelled. A float where an integer field is expected would be a TypeError in PHP; the model's values have no floats.
- Arrays in `$_GET` (`?jql[]=…`) are not modelled: query values are strings.
- Decimal.CastToInt: the cast goes through a double in PHP when the text has a fraction or an exponent. The model computes the exact value, so the rounding of numbers beyond 2^53 and the 0 PHP gives for an exponent that overflows to infinity are not modelled.
- Backend.ColumnSumsAreTotals: `array_sum` overflowing into a float is not modelled; integers are unbounded.
- `jsonResponse`'s `http_response_code`, `echo` and `exit`, the CORS headers and the OPTIONS pre-flight answer are not modelled. An answer is a status and a document.
- Tauri: `get_system_info` (compile-time constants) and `async_operation` (a timer) are not modelled. `main`'s builder wiring is not modelled either, beyond the counter it manages.
- Tauri.Counter: the mutex and concurrent callers are not modelled. Each method runs as one step on the shared counter. The debug profile is assumed; a release build would wrap around instead of panicking.
- Tauri.Calculate: the panic message is not modelled, only the fact of the panic.
- Timestamp.ParseFormat: only readings with months 1–12, days 1–31, hours below 24, minutes and seconds below 60 and an offset under 100 hours are covered. Calendar validity (30 days in April, leap years) is not checked.
- NativeClient.AddComment and NativeClient.AddWorklog: for a general response the contract relates the result only through the mapping functions. The field-by-field statement is the `…ReadsResponse` lemmas, for responses in Jira's shape.
- Backend.ActionSearch: the contract covers the defaults; `SearchPassesQuery` covers decimal parameters. Any other `startAt` or `maxResults` goes through `(int)`, which is `Decimal.CastToInt`.
- Where the project's prose and its code differ, the model follows the code:
  - `JiraException` carries only a status code; there is no separate not-found kind;
  - `search` takes `total`, `startAt` and `maxResults` from the response, not from its arguments.
- A decoded value of the wrong type is modelled as the TypeError strict typing raises, not read as missing.
- Decoded JSON is assumed to have the keys `json_decode` produces: no key twice, and integer keys for digit strings such as "0". A hand-built `Php.Value` may break this, and then `$a["0"]` and `$a[0]` are two different entries in the model.

## Findings

| source | as written | input that shows it | evidently intended | confidence | as-written member | corrected member |
|---|---|---|---|---|---|---|
| jirafik/backend.php:178-181 | After a successful `addWorklog`, `actionAddWorklog` calls `$result->toArray()`, but `WorklogResult` (jirafik/src/Client/WorklogResult.php:7-17) has no `toArray`. The resulting `Error` is not an `Exception`, so the router does not catch it and the script dies, after the worklog was created in Jira. | A POST with body `{"key":"ABC-1","timeSpent":"2h"}` to `?action=addWorklog`, when Jira accepts the worklog | Answer 200 with `worklog` holding the six fields of the result, as `addComment` does with `CommentResult::toArray` | high, not executed | Backend.AddWorklogAsWrittenFails | Backend.ActionAddWorklog |

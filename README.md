# Panovision core in Dafny

Panovision is a web viewer for Palo Alto Networks Panorama traffic logs.
This project models its core, in four parts.

- **The browser side.**
  - The search form builds a PAN-OS log filter from the fields and NOT boxes the user fills in.
  - The query service turns the `<entry>` elements of a Panorama reply into traffic logs.
  - It polls an asynchronous log job and computes how many logs to ask for.
  - The log table computes its summary statistics.
  - The user can reorder columns by drag and drop, hide and move columns in the column dialog, and sort by a header.
  - The error dialog picks troubleshooting steps for a failed request.
- **The API proxy.** It sits in front of Panorama, reads the API key and the Panorama address at start-up, answers only GET requests, adds the key to the query and maps the path under `/api`.
- **The prepopulation script.** It walks back over the last days in windows of several days. For each window it:
  - fetches the configuration-change logs of that window batch by batch;
  - handles Panorama's job hand-off and polling;
  - completes each log with its details;
  - stores the logs, keyed by sequence number, while skipping logs that record no change.

The `<entry>` elements come from a DOM parser. Here each entry is the list of its descendant elements as (tag, text) pairs (module `Xml`). The JavaScript primitives the code relies on are written out in `JsString`:

- `trim`, `includes`, `split` on a character class, `padStart` and `toLowerCase`;
- `parseInt` and `Number` on integer text, and string `<`.

`Calendar` gives the day arithmetic of `Date`, and `DateText` the date strings the script writes.

Where the code does something step by step, the model does too:

- The handlers of the search form, the table state, the proxy configuration and the change-log table are classes whose methods update their fields.
- Loops are methods with loop invariants, proved against a function that states the result.
- Properties of those functions are proved as lemmas.

The specification of the system and its code disagree in a few places. The model follows the code:

- **Custom time window.** The specification converts a custom start and end time into a time range. The code never reads `startTime` or `endTime` (`PanoramaQuery.TimesUnused`).
- **Action filter value.** The specification calls the combined filter `deny_or_drop`. The code tests for `deny_drop`.
- **Limit.** The specification clamps the limit to 1..5000. The code asks for twice the limit, capped at 5000, with no lower bound.
- **Failed job during polling.** In the specification, an error status during polling fails the job. In `pollJob` the error is thrown inside the `try` that swallows fetch failures, so polling goes on (`PanoramaService.PollIgnoresOtherReplies`).

## Model

| member | source | states |
|---|---|---|
| Types.Get | types.ts:2-29 | reading a field of a traffic log gives a number exactly for the seven numeric fields |
| Xml.HasTagIffSome | services/panoramaService.ts:102 | an entry has a tag exactly when one of its elements carries it |
| Xml.FirstTextNone | services/panoramaService.ts:101 | the first-element lookup finds nothing exactly when no element has the tag |
| Xml.FirstTextIsFirst | services/panoramaService.ts:101 | when the tag occurs, the text found is that of the first element with the tag |
| Xml.TextOr | services/panoramaService.ts:101 | `getVal(tag) \|\| fallback` is the first element's text when there is one and it is not empty, and the fallback when the tag is missing or its text is empty |
| PanoramaService.NormalizeTime | services/panoramaService.ts:104-107 | same length; no slash remains; each slash becomes a dash; only the first `T` becomes a space and later ones stay; other characters are unchanged |
| PanoramaService.ToTrafficLog | services/panoramaService.ts:110-136 | the id is the fresh UUID; the type is `TRAFFIC`; `protocol` equals `ip_protocol`; device name, subtype, action and end reason are never empty |
| PanoramaService.ToTrafficLogDefaults | services/panoramaService.ts:113-136 | a missing or empty element gives `Panorama`, `end`, `allow` or `unknown`; a missing `sport` gives 0; a present action, `from` and `to` are copied |
| PanoramaService.NumValOfDecimal | services/panoramaService.ts:119-136 | a numeric element holding the decimal text of n reads back as n |
| PanoramaService.ParsePaloAltoXml | services/panoramaService.ts:93-143 | the entry loop returns `Parsed(entries, uuid)` |
| PanoramaService.ParsedMapsKept | services/panoramaService.ts:99-137 | the logs are the kept entries mapped one to one, in order; the k-th log comes from the k-th kept entry with the k-th UUID |
| PanoramaService.ParsedWithIsLogsOfKept | services/panoramaService.ts:99-137 | the loop's output is the make-function mapped over the kept entries |
| PanoramaService.KeptMembers | services/panoramaService.ts:102 | an entry is kept exactly when it is one of the entries and has a `receive_time` element |
| PanoramaService.KeptAppend | services/panoramaService.ts:99-102 | keeping commutes with concatenation, so entry order is preserved |
| PanoramaService.PollFrom | services/panoramaService.ts:148-159 | a stop at a FIN is within the 40 attempts and at a reply holding the FIN marker |
| PanoramaService.CheckFin | services/panoramaService.ts:153 | true exactly when a body was received and contains `<status>FIN</status>` |
| PanoramaService.PollStep | services/panoramaService.ts:148-158 | a FIN reply stops polling at that request; any other reply moves on to the next request |
| PanoramaService.PollLoop | services/panoramaService.ts:148-159 | the loop ends as `PollFrom(respond, 0, jobId)` says |
| PanoramaService.PollJob | services/panoramaService.ts:146-160 | outcome and request count are those of `PollResult`; the FIN body is parsed |
| PanoramaService.PollFromIsFirst | services/panoramaService.ts:148-159 | no reply before the stop holds the FIN marker; a timeout carries `Timeout polling job <id>` |
| PanoramaService.PollBounds | services/panoramaService.ts:148-159 | 1 to 40 requests; a failure is only the timeout, after all 40 |
| PanoramaService.PollSucceedsIffFin | services/panoramaService.ts:148-159 | polling yields logs exactly when one of the 40 replies holds the FIN marker |
| PanoramaService.PollUsesFirstFin | services/panoramaService.ts:148-153 | the logs are the parse of the first FIN reply, which is the last request made |
| PanoramaService.PollFromIgnoresOthers | services/panoramaService.ts:150-157 | two reply sequences with FINs in the same places stop at the same request |
| PanoramaService.PollIgnoresOtherReplies | services/panoramaService.ts:150-157 | error bodies, other bodies and failed requests are all retried alike |
| PanoramaService.LimitValue | services/panoramaService.ts:166-167 | a limit that is NaN becomes 50; otherwise its number is kept |
| PanoramaService.QueryLimit | services/panoramaService.ts:166-168 | at most 5000; NaN or 0 gives 100; any other v gives `min(2v, 5000)` |
| PanoramaService.MockCount | services/panoramaService.ts:166-180 | a limit that reads as a non-zero number v gives v; NaN or 0 gives 50; never 0 |
| PanoramaService.QueryLimitOfText | services/panoramaService.ts:166-180 | a limit typed as the decimal text of n counts as the number n |
| PanoramaService.QueryLimitOfEmpty | services/panoramaService.ts:166-168 | an empty limit field is `Number('') = 0` and asks for 100 logs |
| PanoramaService.FormatDate | services/panoramaService.ts:8-11 | the year comes first as printed, then month, day, hours, minutes and seconds, each below 100 as exactly two digits spelling it at a fixed place, with `-`, ` ` and `:` between; reading back a formatted timestamp of a year from 0 on gives the date and time fields it was made from |
| PanoramaService.PaddedLayout | services/panoramaService.ts:8-11 | `pad` of a field below 100 gives exactly two digits spelling it, at its fixed place in `yyyy-mm-dd hh:mm:ss` after the year |
| PanoramaQuery.Clauses | services/panoramaService.ts:63-89 | there is at least one clause and the first is `subtype eq 'end'` |
| PanoramaQuery.Query | services/panoramaService.ts:63-91 | the filter begins with `(subtype eq 'end')` and is never empty |
| PanoramaQuery.OnField | services/panoramaService.ts:67-89 | the clauses on the k-th field are exactly the k-th pushed segment |
| PanoramaQuery.SubtypeClause | services/panoramaService.ts:67 | there is exactly one subtype clause |
| PanoramaQuery.AddressClauses | services/panoramaService.ts:69-76 | an address clause exists iff the address is non-empty; it uses `neq` iff its NOT flag is set; the value is quoted |
| PanoramaQuery.ZoneClauses | services/panoramaService.ts:77-78 | a zone clause exists iff the zone is non-empty; it is always `eq` and quoted |
| PanoramaQuery.PortClause | services/panoramaService.ts:79-82 | a port clause exists iff the port is non-empty; it uses `neq` iff negated; the value is unquoted |
| PanoramaQuery.ActionClause | services/panoramaService.ts:83-86 | `''` and `all` give no clause; `deny_drop` gives `neq 'allow'`; any other value gives `eq '<v>'` |
| PanoramaQuery.TimeClause | services/panoramaService.ts:87-89 | the range gives `in <token>` unless it is blank or `custom`; it is the only receive-time clause |
| PanoramaQuery.ClauseOrder | services/panoramaService.ts:64-90 | every clause is on one of the eight fields, in strictly increasing field order, so no field appears twice |
| PanoramaQuery.FlagIgnoredWhenEmpty | services/panoramaService.ts:69-82 | a NOT flag whose field is empty does not change the filter |
| PanoramaQuery.TimesUnused | services/panoramaService.ts:63-91 | custom start and end times never change the filter |
| SearchHeader.TypedLimit | components/SearchHeader.tsx:33 | `''` stays the empty string; anything else is `parseInt` of it, NaN included |
| SearchHeader.WithInput | components/SearchHeader.tsx:29-35 | the named input changes to the value; every other field and all three flags are unchanged |
| SearchHeader.WithFlag | components/SearchHeader.tsx:37-43 | the named flag becomes `checked`; nothing else changes |
| SearchHeader.Validate | components/SearchHeader.tsx:45-61 | the search starts with the params iff no NOT box is ticked with a blank field; otherwise the first failing check, in the order src IP, dst IP, dst port, gives its alert |
| SearchHeader.SearchForm.constructor | components/SearchHeader.tsx:10-27 | the form starts with `DEFAULT_PARAMS` |
| SearchHeader.SearchForm.HandleChange | components/SearchHeader.tsx:29-35 | the new params are `WithInput` of the old ones |
| SearchHeader.SearchForm.HandleCheckboxChange | components/SearchHeader.tsx:37-43 | the new params are `WithFlag` of the old ones |
| SearchHeader.SearchForm.HandleClear | components/SearchHeader.tsx:63-66 | the params become `DEFAULT_PARAMS` exactly, and no search is started |
| SearchHeader.SearchForm.ValidateAndSearch | components/SearchHeader.tsx:45-61 | the guard chain returns `Validate(params)` |
| SearchHeader.AcceptedNegationIsQueried | components/SearchHeader.tsx:45-61 | after a search passes validation, every ticked NOT box becomes a `neq` clause on its non-empty value |
| SearchHeader.DefaultsAccepted | components/SearchHeader.tsx:10-24 | the defaults pass validation and ask Panorama for 100 logs |
| TableView.FindIndex | App.tsx:124 | the result is -1 or an index of a column with that id |
| TableView.FindIndexFirst | App.tsx:124 | the index found is the first match; -1 means there is no match |
| TableView.Dropped | App.tsx:119-149 | the number of columns is kept; the columns are unchanged when nothing is dragged, the target is the dragged column, or the dragged id is missing |
| TableView.Place | App.tsx:139-145 | one column is inserted |
| TableView.DroppedPermutes | App.tsx:123-146 | a drop is a permutation of the columns |
| TableView.DroppedPlaces | App.tsx:130-145 | a real drop takes the dragged column out and puts it back in |
| TableView.PlaceNextToTarget | App.tsx:139-145 | the inserted column sits right before the target, or right after it when `dropAfter`, and the others keep their order |
| TableView.DroppedNextToTarget | App.tsx:123-146 | when the target is among the other columns, the moved column lands right before it, or right after it when `dropAfter`; the others keep their relative order |
| TableView.TableState.constructor | App.tsx:69-79 | the state starts with the initial columns, nothing dragged, sorted by receive time descending |
| TableView.TableState.HandleResetColumns | App.tsx:88-91 | the columns become `INITIAL_COLUMNS`; nothing else changes |
| TableView.TableState.HandleDragStart | App.tsx:107-112 | the dragged id is set; nothing else changes |
| TableView.TableState.HandleDragEnd | App.tsx:233 | the dragged id is cleared; nothing else changes |
| TableView.TableState.HandleDrop | App.tsx:119-149 | the columns become `Dropped`; the dragged id is cleared unless the early return was taken; the sort is unchanged |
| TableView.TableState.HandleHeaderClick | App.tsx:235 | the sort becomes `NextSort`; columns and the dragged id are unchanged |
| TableView.NextSort | App.tsx:235 | the clicked column becomes the sort column; the direction is descending iff that column was already sorted ascending |
| TableView.NextSortAlternates | App.tsx:235 | clicking the same header again flips the direction |
| TableView.PrecedesOrder | App.tsx:152-158 | the comparator is a strict weak order on the logs of one column |
| TableView.Insert | App.tsx:151-159 | inserting adds exactly one log to the multiset |
| TableView.SortLogsSorted | App.tsx:151-159 | the sorted copy is ordered by the column in the chosen direction |
| TableView.SortLogsPermutes | App.tsx:151-159 | the sorted copy holds the same logs, each as often |
| TableView.BumpCounts | App.tsx:43 | incrementing adds one to that action's count and to the total, and adds the action to the names |
| TableView.BumpDistinct | App.tsx:43 | incrementing keeps one entry per action |
| TableView.TallyCounts | App.tsx:40-51 | one entry per distinct action; each action's count is its number of logs; the counts add up to the number of logs |
| TableView.TallyNames | App.tsx:40-51 | the names in the distribution are the actions of the logs |
| TableView.TallyEntries | App.tsx:46-51 | each entry's count is the number of logs with its name |
| TableView.DistinctNamesApart | App.tsx:49-50 | no two entries of the distribution share a name |
| TableView.CountAction | App.tsx:43 | the find-and-increment step gives `Bump(counts, name)` |
| TableView.CalculateLocalStats | App.tsx:37-52 | the totals are the sums of bytes and of packets; the distribution is `Tally(logs)` |
| ColumnCustomizer.Toggle | components/ColumnCustomizer.tsx:13-15 | the length is kept; `visible` flips on the matching columns; every other field and column is unchanged |
| ColumnCustomizer.ToggleTwice | components/ColumnCustomizer.tsx:13-15 | toggling twice with the same id is the identity |
| ColumnCustomizer.Moved | components/ColumnCustomizer.tsx:17-24 | the column and its neighbour trade places and nothing else moves; out of range, nothing changes |
| ColumnCustomizer.Move | components/ColumnCustomizer.tsx:17-24 | the swap in the copied array gives `Moved` |
| ColumnCustomizer.MovedPermutes | components/ColumnCustomizer.tsx:18-22 | a move is a permutation |
| ColumnCustomizer.DownThenUp | components/ColumnCustomizer.tsx:17-24 | `move(i, down)` then `move(i+1, up)` restores the order |
| ErrorDiagnosis.GroupOf | components/ErrorDiagnosisModal.tsx:22-45 | the branch taken, as an if-and-only-if per group; the status checks come first, and a missing status or status 0 is the network group; timeout applies only to other statuses; `Invalid` applies only to other statuses without timeout |
| ErrorDiagnosis.Lines | components/ErrorDiagnosisModal.tsx:22-51 | every group has at least two lines |
| ErrorDiagnosis.GetDiagnosis | components/ErrorDiagnosisModal.tsx:19-54 | the pushes give exactly the lines of the error's group, so the list is never empty |
| ErrorDiagnosis.NoStatusIsNetwork | components/ErrorDiagnosisModal.tsx:32-36 | an error without a status gets the four network lines, whatever its message |
| ErrorDiagnosis.DisplayedBody | components/ErrorDiagnosisModal.tsx:163-165 | a body of at most 2000 characters is shown whole; a longer one shows its first 2000 characters and then the notice |
| ApiProxy.LineRest | deploy/api-proxy.js:20 | the match runs up to the first line terminator |
| ApiProxy.UrlMatch | deploy/api-proxy.js:20-23 | a capture is non-empty and has no line terminator |
| ApiProxy.UrlMatchFirst | deploy/api-proxy.js:20 | a capture is the rest of the line after the first place the pattern matches |
| ApiProxy.UrlMatchNone | deploy/api-proxy.js:20-21 | no capture means the pattern matches nowhere |
| ApiProxy.UrlMatchOfLine | deploy/api-proxy.js:20-22 | a config whose first line sets `PANORAMA_URL` gives that address |
| ApiProxy.Without | deploy/api-proxy.js:48 | removing a name leaves no pair with it |
| ApiProxy.SetParamEffect | deploy/api-proxy.js:48 | after `set`, the `key` name has exactly the configured value, and every other pair is kept in order |
| ApiProxy.RewritePath | deploy/api-proxy.js:51-56 | `/api/panorama` becomes `/api`; a path outside `/api` goes under it; a path under `/api` is unchanged |
| ApiProxy.PortOf | deploy/api-proxy.js:61 | the port defaults to 443 |
| ApiProxy.Route | deploy/api-proxy.js:32-61 | non-GET gives 405; an empty key gives 500, checked after the method; an address `new URL` cannot parse throws; otherwise the request is forwarded to the parsed host, to its port or 443, and to the rewritten path, `?`, then the query with the key set |
| ApiProxy.ForwardCarriesKey | deploy/api-proxy.js:48-57 | a forwarded path lies under `/api` and holds the configured key once, whatever key the client sent |
| ApiProxy.Relay | deploy/api-proxy.js:72-87 | the upstream status is relayed, with `application/xml` when there is no content type; an upstream failure is a 502 carrying its message |
| ApiProxy.Proxy.constructor | deploy/api-proxy.js:10-11 | the key starts empty and the address starts at the default |
| ApiProxy.Proxy.LoadConfig | deploy/api-proxy.js:13-28 | the key is the trimmed key file, or stays as it was when the file is missing or unreadable; the address is the trimmed capture of a readable config file, and stays as it was when the file or the match is missing or when reading the key file threw first |
| ApiProxy.Proxy.Handle | deploy/api-proxy.js:32-61 | the handler's decision is `Route` on the loaded key and on the parse of the loaded Panorama address |
| ChangeLogs.NormalizeAction | scripts/prepopulate-change-logs.js:37-38 | one of five actions; each named action iff the lower-cased command is its name; `Edit` otherwise |
| ChangeLogs.NormalizeActionIdempotent | scripts/prepopulate-change-logs.js:355-356 | normalising again at the store step changes nothing |
| ChangeLogs.ChangeKind | scripts/prepopulate-change-logs.js:39 | Address Object iff the path contains `address`; else Network Interface iff it contains `network` or `interface`; else System Config |
| ChangeLogs.ToChangeLog | scripts/prepopulate-change-logs.js:31-51 | every field comes from its element: sequence number, receive time, path and both diffs default to empty, the admin to `system` and the command to `unknown`; the action is the normalised command and the kind that of the path; the device group is `Global` and the status `Success` |
| ChangeLogs.ToChangeLogDefaults | scripts/prepopulate-change-logs.js:31-50 | a missing or empty admin gives `system`, a present one is copied; a missing or empty command gives the action `Edit`, a present one is normalised; a missing or empty before-change detail is empty |
| ChangeLogs.Entries | scripts/prepopulate-change-logs.js:27-54 | no more logs than entries |
| ChangeLogs.ParseEntries | scripts/prepopulate-change-logs.js:27-54 | the entry loop returns `Entries(entries)` |
| ChangeLogs.EntriesMapUsable | scripts/prepopulate-change-logs.js:29-51 | the usable entries are mapped one to one, in order; every log has a sequence number and a description |
| ChangeLogs.UsableMembers | scripts/prepopulate-change-logs.js:36 | an entry is parsed exactly when it has a sequence number and a path |
| ChangeLogs.PollStep | scripts/prepopulate-change-logs.js:65-107 | a failed request rejects with its message; a non-200 rejects with `HTTP <code> while polling job <id>`; an unparsable body rejects; an error status rejects with `Job failed: ` and the message; a job status `ACT` continues; any other parsed reply resolves with that document |
| ChangeLogs.JobPollFrom | scripts/prepopulate-change-logs.js:56-113 | the poll stops within the 60 attempts; a reply that settles gives that result; a poll still running at the 60th attempt is the timeout |
| ChangeLogs.PollForJobResults | scripts/prepopulate-change-logs.js:56-113 | the polling loop returns `JobPollFrom(respond, 0, jobId)` |
| ChangeLogs.PollStopsAtFirstSettled | scripts/prepopulate-change-logs.js:62-100 | 1 to 60 requests; every reply before the last says ACT; the last reply settles the result, or, if it too says ACT, it is the 60th and the result is the timeout |
| ChangeLogs.PollTimesOutIffAllRunning | scripts/prepopulate-change-logs.js:85-97 | the poll ends on a running reply, so times out, exactly when every reply up to the 60th says ACT |
| ChangeLogs.ClassifyFirst | scripts/prepopulate-change-logs.js:157-195 | a non-200 rejects with the first 200 characters; a blank body gives `[]`; an unparsable body fails; an error status fails with `Panorama API error: ` and the first non-empty message; the job hand-off happens iff a `<job>` has no status and a non-blank id, with the trimmed id; any other reply is parsed as entries |
| ChangeLogs.FetchRange | scripts/prepopulate-change-logs.js:142-206 | a direct reply gives its parsed entries; a failed one gives its error; after a job hand-off, a resolved poll gives the entries of its document and a rejected one its message |
| ChangeLogs.LastIndex | scripts/prepopulate-change-logs.js:213-229 | the batch that ends the loop is the first batch that failed or was short |
| ChangeLogs.TakeBatch | scripts/prepopulate-change-logs.js:214-228 | one turn: `hasMore` iff this batch was not the last; the gathered logs keep the loop invariant |
| ChangeLogs.FetchAllChangeLogsRange | scripts/prepopulate-change-logs.js:208-232 | it returns the logs of all batches up to the first empty, short or failed one, after that many fetches |
| ChangeLogs.GatheredSize | scripts/prepopulate-change-logs.js:218-222 | every batch before the last one held at least 500 logs |
| ChangeLogs.Page | scripts/prepopulate-change-logs.js:146-148 | a request for a range answers at most 500 logs, the range's logs from the skipped position on, and none once the skip passes them all |
| ChangeLogs.RepeatedBatches | scripts/prepopulate-change-logs.js:146-148 | every turn of the loop sends the same request without a skip, so every batch is the first page |
| ChangeLogs.FullWindowNeverEnds | scripts/prepopulate-change-logs.js:213-229 | a range holding 500 logs or more never ends the loop: every batch is the same full first page |
| ChangeLogs.FetchAllPaged | scripts/prepopulate-change-logs.js:208-232 | with each request skipping the logs gathered so far, the loop gathers exactly the range's logs, in order, after `n div 500 + 1` fetches for n logs |
| ChangeLogs.Merge | scripts/prepopulate-change-logs.js:378-386 | non-empty detail fields win over the log's fields; the diffs come from the details alone; other fields are kept |
| ChangeLogs.CompleteOne | scripts/prepopulate-change-logs.js:376-391 | a fetched detail is merged into the log; a rejected detail fetch leaves the log as it is; the sequence number is kept |
| ChangeLogs.Completed | scripts/prepopulate-change-logs.js:371-392 | no more completed logs than fetched ones |
| ChangeLogs.CompletedMapsDescribed | scripts/prepopulate-change-logs.js:371-392 | the described logs are completed one to one, in order |
| ChangeLogs.CompleteLogs | scripts/prepopulate-change-logs.js:374-392 | the detail loop returns `Completed(fetchedLogs, detailOf)` |
| ChangeLogs.LogDate | scripts/prepopulate-change-logs.js:353-354 | the log date is the timestamp up to its first space (the whole text when there is none), or, when the timestamp is empty or starts with a space, up to its first `T`; every slash is made a dash |
| ChangeLogs.StoreStep | scripts/prepopulate-change-logs.js:342-361 | storing one more log upserts its row by sequence number, unless it records no change |
| ChangeLogs.StoreAllKeys | scripts/prepopulate-change-logs.js:338-362 | a sequence number has a row after storing iff it had one before or a stored log that records a change carries it |
| ChangeLogs.StoreAllLast | scripts/prepopulate-change-logs.js:338-357 | a sequence number's row is the one from the last stored log that records a change and carries it |
| ChangeLogs.StoreAllKeeps | scripts/prepopulate-change-logs.js:338-362 | a row whose sequence number no stored log carries is untouched |
| ChangeLogs.ChangeLogTable.Truncate | scripts/prepopulate-change-logs.js:17-25 | the table is emptied |
| ChangeLogs.ChangeLogTable.StoreOne | scripts/prepopulate-change-logs.js:342-361 | a log that records no change leaves the table as it is; otherwise its row replaces the one at its sequence number |
| ChangeLogs.ChangeLogTable.StoreChangeLogs | scripts/prepopulate-change-logs.js:317-365 | the table becomes `StoreAll(old rows, logs)` and every log is counted as completed |
| ChangeLogs.ChangeLogTable.ProcessDateRange | scripts/prepopulate-change-logs.js:367-397 | the table receives the completed described logs of the gathered batches; the count is their number |
| DateText.MakeDate | scripts/prepopulate-change-logs.js:137 | `new Date(y, m - 1, d)` is a valid calendar date whose day number is that of the first of month `(m - 1) mod 12 + 1` of year `y + (m - 1) div 12` (years 0 to 99 read as 1900 to 1999), plus `d - 1`: out-of-range months and days carry over |
| DateText.FieldsOfIso | scripts/prepopulate-change-logs.js:136 | a printed date of a year from 0 on splits at its dashes back into its year, month and day |
| DateText.MakeDateOfValid | scripts/prepopulate-change-logs.js:137 | a valid date with a year from 100 on is rebuilt unchanged |
| DateText.AddDaysToDate | scripts/prepopulate-change-logs.js:135-140 | a missing or non-numeric first, second or third dash-separated part gives `NaN-NaN-NaN`, and so does a built date outside the 100,000,000 days either side of 1 January 1970 that a `Date` holds; anything else is the print of a valid date within that range |
| DateText.FormatDateForPanorama | scripts/prepopulate-change-logs.js:121-133 | the result has no dash |
| DateText.AddDaysToIso | scripts/prepopulate-change-logs.js:135-140 | on a printed date of a year from 100 on, when the moved date stays within the range of a `Date`, `addDaysToDate` is the printed calendar date moved by that many days |
| DateText.AddDaysToIsoOutOfRange | scripts/prepopulate-change-logs.js:135-140 | on a printed date of a year from 100 on, a move that leaves the range of a `Date` gives `NaN-NaN-NaN` |
| DateText.ShiftFourDigit | scripts/prepopulate-change-logs.js:135-140 | between four-digit years, `addDaysToDate` is the printed calendar date moved by that many days |
| DateText.FarFutureIsNaN | scripts/prepopulate-change-logs.js:135-140 | a printed date from year 276000 on gives `NaN-NaN-NaN`, whatever the offset |
| DateText.ShiftIso | scripts/prepopulate-change-logs.js:135-140 | the same, for all offsets whose moved date stays within the range of a `Date` |
| DateText.IsoOrder | scripts/prepopulate-change-logs.js:423-430 | string `<` on printed dates is calendar order when both years have four digits |
| DateText.PanoramaDateOfYearFirst | scripts/prepopulate-change-logs.js:122-130 | three parts with a four-character first part read as Y, M, D and come out as `Y/MM/DD` |
| DateText.PanoramaDateOfUs | scripts/prepopulate-change-logs.js:122-130 | three parts whose first part is not four characters read as M, D, Y and come out year first |
| DateText.PanoramaDateOfOther | scripts/prepopulate-change-logs.js:132 | any other number of parts keeps the length and every character that is not a dash, and makes every dash a slash |
| DateText.PanoramaDateOfDashed | scripts/prepopulate-change-logs.js:121-133 | `Y-MM-DD` with a four-character year becomes `Y/MM/DD` |
| DateText.PanoramaDateOfIso | scripts/prepopulate-change-logs.js:144-145 | a date the script printed with a four-digit year becomes the same date with slashes |
| DateText.SlashedFixed | scripts/prepopulate-change-logs.js:121-133 | a slashed date with a four-character year formats to itself |
| DateText.FormatDateForPanoramaIdempotent | scripts/prepopulate-change-logs.js:121-133 | once a date has three parts with a four-character year, formatting again changes nothing |
| Calendar.NextDay | scripts/prepopulate-change-logs.js:138 | the day after is a valid, later date |
| Calendar.PrevDay | scripts/prepopulate-change-logs.js:138 | the day before is a valid, earlier date |
| Calendar.AddDaysNumber | scripts/prepopulate-change-logs.js:138 | `setDate(getDate() + n)` moves the day number by n |
| Calendar.AddDaysAdd | scripts/prepopulate-change-logs.js:138 | offsets add up, whatever their signs |
| Calendar.InTimeRangeOfYears | scripts/prepopulate-change-logs.js:137-138 | every date from year 0 to year 200000 lies within the 100,000,000 days either side of 1 January 1970 that a `Date` holds |
| Calendar.OutOfTimeRangeOfYears | scripts/prepopulate-change-logs.js:137-138 | no date from year 276000 on lies within that range |
| Prepopulate.Windows | scripts/prepopulate-change-logs.js:421-433 | the first window ends on the end date; every window has valid dates |
| Prepopulate.WindowsStep | scripts/prepopulate-change-logs.js:421-433 | the windows from a date are its own window, then, unless it is the last, the windows from the day before its start |
| Prepopulate.WindowsContiguous | scripts/prepopulate-change-logs.js:431 | each window ends the day before the previous one starts, so no day is skipped or visited twice |
| Prepopulate.FirstWindowSpan | scripts/prepopulate-change-logs.js:422-430 | a window is either full with range left behind it, or the last, starting on the overall start and at most `BATCH` days long |
| Prepopulate.WindowsSpan | scripts/prepopulate-change-logs.js:421-433 | the last window starts on the overall start; every window but the last spans exactly `BATCH` days; the last spans at most that |
| Prepopulate.WindowsCount | scripts/prepopulate-change-logs.js:421-433 | the number of windows is the number of days in the range over `BATCH`, rounded up |
| Prepopulate.WindowsOfEmptyRange | scripts/prepopulate-change-logs.js:421-430 | a range that ends before it starts is one window starting on the overall start |
| Prepopulate.CeilDivIsCeiling | scripts/prepopulate-change-logs.js:420 | `Math.ceil(n / size)` is the least number of pieces of `size` covering n |
| Prepopulate.TotalBatchesShort | scripts/prepopulate-change-logs.js:415-420 | when `BATCH` divides `DAYS`, the printed total is one less than the number of windows |
| Prepopulate.WindowsOverDays | scripts/prepopulate-change-logs.js:411-433 | over `DAYS` days before today, the loop visits `ceil((DAYS + 1) / BATCH)` windows |
| Prepopulate.OverallStart | scripts/prepopulate-change-logs.js:413 | the overall start string is the printed date `DAYS` days back |
| Prepopulate.TurnStart | scripts/prepopulate-change-logs.js:422 | the window start string is the printed date `BATCH - 1` days back |
| Prepopulate.TurnClamp | scripts/prepopulate-change-logs.js:423 | the clamp's string comparison is calendar order |
| Prepopulate.TurnStop | scripts/prepopulate-change-logs.js:430 | the loop goes on exactly when the window is not the last |
| Prepopulate.NextTurn | scripts/prepopulate-change-logs.js:431 | a window that is not the last is full, and the next end lies in range and before the current one |
| Prepopulate.NextText | scripts/prepopulate-change-logs.js:431 | the next end string is the printed day before the start |
| Prepopulate.WindowStart | scripts/prepopulate-change-logs.js:422-423 | the window's start string is the printed clamped start; it is after the overall start iff the window is not the last |
| Prepopulate.NextEnd | scripts/prepopulate-change-logs.js:431 | the next end string is the printed day before the window's start |
| Prepopulate.StoreBatch | scripts/prepopulate-change-logs.js:427-428 | one window's logs are added to what the earlier windows stored, and its count to the total |
| Prepopulate.Populate | scripts/prepopulate-change-logs.js:407-433 | after truncating, the windows processed are exactly the printed `Windows` from today back `DAYS` days; the batch number counts them; the table and the total are what those windows store |

## Left out

- Network, database and file I/O are inputs. This covers `fetch`, the HTTP requests and piping, the sqlite statements, `fs`, `localStorage`, the clipboard, `alert` and `process.exit`. A request becomes its reply, or the sequence of replies to successive requests. A file becomes its contents, `Absent` when it is missing, or `Unreadable` when reading it throws. The URL parser behind `new URL` is the `parseUrl` input, and `None` stands for the exception it throws.
- The DOM parsers are not modelled. A parsed document is the entries and the few elements and attributes the code reads.
- Timers and promises are not modelled, so the one-second waits between polls and batches do not appear.
- `crypto.randomUUID` is replaced by a `uuid` parameter that numbers the logs.
- `new Date()` for today is the `today` parameter.
- Local time in `formatDate` is the `LocalTime` record.
- The mock logs of `generateMockLogs` and the random values they use are not modelled. `fetchLogs` is modelled only as its limit arithmetic (`PanoramaService.QueryLimit`, `PanoramaService.MockCount`).
- Logging (`console.*`) is not modelled.
- Presentation is not modelled: JSX, icons, row colours (the red deny and drop rows included), and the drag geometry. `dropAfter` is a boolean input.
- deploy/prepopulate.js is a damaged near-copy of the script and is not part of this model. The authentication services are not part of this model either.
- Strings are sequences of characters, not UTF-16 code units. `toLowerCase` is modelled for ASCII letters only. `URLSearchParams` serialisation leaves out percent-encoding, and `encodeURIComponent` is not modelled.
- `Number` reads integer literals only. A fraction, an exponent or `Infinity` is read as NaN.
- PanoramaQuery.Query: `buildPaloAltoQuery` pushes onto a local array. It is modelled on values, as the list of clauses joined by `' and '`. A method with the seven pushes in sequence was too costly for the verifier.
- PanoramaService.PollJob: the `status="error"` check is not modelled separately, because its exception is swallowed like any fetch failure. Per-entry exceptions in `parsePaloAltoXML` cannot occur in the model.
- ChangeLogs.FetchAllChangeLogsRange: requires that some batch ends the loop, by failing or being short. The script sends the same request on every turn, so a range holding 500 logs or more never ends the loop (see Findings). The model keeps the loop as written, under that requirement.
- ChangeLogs.ChangeLogTable.ProcessDateRange: `fetchLogDetail` is the `detailOf` parameter, and `None` stands for a rejected detail fetch.
- ChangeLogs.ChangeLogTable.StoreChangeLogs: failing inserts are not modelled; in the script they are only logged.
- ChangeLogs.ChangeLogTable.StoreChangeLogs: the `CREATE TABLE` and index statements are not modelled.
- Prepopulate.Populate: requires a batch size of at least 1. A smaller size makes the script's loop run forever.
- Prepopulate.Populate: requires every printed date to have a four-digit year. Only then is the script's string `<` calendar order.
- Prepopulate.Populate: `DAYS_TO_PREPOPULATE` and `BATCH_SIZE_DAYS` are parameters, rather than `parseInt` of the environment.
- DateText.AddDaysToIso: stated only for years from 100 on, and for moves that stay within the range of a `Date`. `new Date` reads years 0 to 99 as 1900 to 1999; `DateText.MakeDate` models that. `DateText.AddDaysToIsoOutOfRange` covers moves out of the range.
- DateText.AddDaysToDate: the range of a `Date` is counted in days from 1 January 1970 in UTC. The script builds local midnight, so a local time zone away from UTC can move the first or last valid day of that range by one. `DateText.MakeDate` itself never fails; the range test is made on its result.
- PanoramaService.FormatDate: the round trip is stated for years from 0 on. A negative year prints with a sign that does not read back.
- ColumnCustomizer.Move: requires the index to be one of the columns. The dialog only calls it from a row of the list.
- TableView.CalculateLocalStats: `Object.entries` lists integer-like keys first in ascending order. The model keeps every action in first-seen order.
- TableView.SortLogs: modelled as a stable insertion sort of a copy. Its result is stated through sortedness and permutation, not the order of ties under the engine's sort.
- TableView.CalculateLocalStats: an action named after a member of `Object.prototype`, such as `constructor`, `toString` or `__proto__`, is counted like any other. In the script the counter object inherits those names, so such an action gets a string count or is dropped.
- The table state's column list does not read saved preferences from `localStorage`. The saved list is unknown input, and the model starts from `INITIAL_COLUMNS`.

## Findings

| source | as written | input that shows it | evidently intended | confidence | as-written member | corrected member |
|---|---|---|---|---|---|---|
| scripts/prepopulate-change-logs.js:208-229 | `fetchAllChangeLogsRange` fetches the range again while the last batch held 500 logs, but `fetchChangeLogsRange` sends the identical request every time, with no skip or offset | a range holding 500 or more configuration changes: every batch is the same first 500 logs, so the loop never ends and appends the same 500 logs once a second | each request skips the logs gathered so far, so the loop pages through the range and ends | not executed | ChangeLogs.FullWindowNeverEnds | ChangeLogs.FetchAllPaged |
| scripts/prepopulate-change-logs.js:415-420 | `totalBatches = Math.ceil(DAYS_TO_PREPOPULATE / BATCH_SIZE_DAYS)`, but the range from `today - DAYS` to today holds `DAYS + 1` days | `DAYS_TO_PREPOPULATE = 30`, `BATCH_SIZE_DAYS = 30`: the loop visits two windows (30 days, then the first day alone) and prints `Batch 2/1` | the number of windows the loop visits, `ceil((DAYS + 1) / BATCH)` | not executed | Prepopulate.TotalBatchesShort | Prepopulate.WindowsOverDays |

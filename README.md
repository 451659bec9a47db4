# securelog in Dafny

securelog watches log files on many machines. Each machine runs an
**agent** (`securelog-client`). The agent logs in to a **server**
(`securelog-server`) and asks it once a minute whether a scan is due. When
one is due, the agent tells the server it is running. It then fetches the
enabled search definitions and runs each of them over the files they name.
A search matches by substring, by regular expression or by glob. Each
search's per-file results go back to the server, which stores them and
posts a notice to the configured chat webhooks. Operators log in to the
same server to manage the searches, the agents, the scan schedule and the
webhooks.

This project models both halves:

* **The agent.** The search-execution engine is `Matchers` plus
  `SearchRunner`; its types are in `ClientModels` and `SearchKind`. The
  poll loop, with its input trimming and configuration check, is
  `ClientMain`.
* **The server's tables.** Each table with its queries is a class over
  in-memory state:
  * `SqlClient.ClientStore` holds `clients` and `client_schedule`.
  * `SqlUser.UserStore` holds `auth`.
  * `SqlWebhooks.WebhookStore` holds `webhooks`.
  * `SqlMod.Database` holds `dbinfo`, `searches`, `scan_schedule` and
    `search_results`.
* **The server's routes.** `WebClient` holds the agent API and `WebUser`
  the operator API. Session principals are in `WebSession` and the reply
  shapes in `Http`. `ServerWebhooks` records the notices.

Environment inputs become parameters:

* Postgres becomes the classes above.
* The file system is a map from path to metadata and lines.
* bcrypt is a pair of functions returning `Option`.
* The regex engine is a compiler function.
* The clock is an `int` of seconds.
* The HTTP exchange with the agent becomes the `Iteration` values the loop
  reads.

A server panic is `Outcome.Panicked`. A panic covers an `unwrap` on
`None`, `rows[0]` on an empty result, an unknown schema version, and an
interval that `chrono::Duration::from_std` rejects.

Among the things proved:

* Contains, regex and glob each keep exactly the matching lines, verbatim
  and in file order.
* A failing (search, location) pair is skipped without stopping the run.
* A location that succeeds with no match is still reported.
* The agent notifies right before every run and runs only on `Ok(true)`.
* The search-type code round-trip holds.
* The results filter keeps exactly the passing rows, in order. Its `before`
  bound acts as a lower bound and its `after` bound as an upper bound.
* The agent runs exactly when its interval has elapsed. A pending manual
  run never makes it run: the server answers with the JSON string `"true"`,
  which the agent cannot parse as a boolean.
* A `set_schedule` value between 2^31 and 2^32 − 1 minutes is stored as a
  negative `i32`, after which every should-run decision panics.

## Model

| member | source | states |
|---|---|---|
| ClientModels.NewSearchResult | securelog-client/src/models.rs:28-36 | the new result carries the given id, name and location, no matches, and the clock reading taken at creation |
| Matchers.IsSubstringIffOccurs | securelog-client/src/searchrunner.rs:64 | `str::contains` holds exactly when the pattern occurs at some index of the line |
| Matchers.TooLongNotSubstring | securelog-client/src/searchrunner.rs:64 | a pattern longer than the line is never contained in it |
| Matchers.EmptyNeedleEverywhere | securelog-client/src/searchrunner.rs:64 | the empty pattern is contained in every line |
| Matchers.LiteralMatchesItselfOnly | securelog-client/src/searchrunner.rs:92-101 | a glob without wildcards matches exactly the line equal to it (whole-line matching) |
| Matchers.StarFreeMatchLength | securelog-client/src/searchrunner.rs:92-101 | a glob without `*` matches only lines of its own length (`?` is one character) |
| Matchers.StarMatchesEverything | securelog-client/src/searchrunner.rs:92-101 | `*` matches every line, the empty one included |
| Matchers.LiteralThenStar | securelog-client/src/searchrunner.rs:92-101 | `lit*` matches exactly the lines that start with `lit` |
| Matchers.ErrorGlobExamples | securelog-client/src/searchrunner.rs:92-101 | `ERROR *` accepts `ERROR disk full` and rejects `disk full ERROR` |
| Matchers.KeepExactly | securelog-client/src/searchrunner.rs:62-67 | a line is kept iff it is a line of the file and the matcher accepts it |
| Matchers.KeepInFileOrder | securelog-client/src/searchrunner.rs:62-67 | the kept lines are an order-preserving subsequence of the file's lines |
| SearchRunner.CheckFileCanRead | securelog-client/src/searchrunner.rs:109-119 | fails, with `FileReadOnly(path)`, exactly when the metadata says read-only; missing metadata passes |
| SearchRunner.CollectMatches | securelog-client/src/searchrunner.rs:62-67 | the line loop pushes exactly the kept lines, in order |
| SearchRunner.RunSearchContains | securelog-client/src/searchrunner.rs:57-70 | opens the file, then scans with the substring matcher; an open or read error is the result |
| SearchRunner.RunSearchRegex | securelog-client/src/searchrunner.rs:72-88 | a compile error is returned before the file is opened; otherwise scans with the compiled expression |
| SearchRunner.RunSearchWildcard | securelog-client/src/searchrunner.rs:90-107 | scans with the glob matcher |
| SearchRunner.RunSearch | securelog-client/src/searchrunner.rs:47-55 | the read-only check first, then exactly the matcher the search type names |
| SearchRunner.ReadOnlyLocationFails | securelog-client/src/searchrunner.rs:109-115 | a read-only location fails with `FileReadOnly` whatever it holds |
| SearchRunner.RegexErrorBeforeOpen | securelog-client/src/searchrunner.rs:72-77 | a bad expression fails the pair whatever the file holds |
| SearchRunner.SuccessfulResult | securelog-client/src/searchrunner.rs:61-67 | a successful result carries the search's id and name and the path; its search compiled, and it holds exactly the file's lines that the search's matcher accepts, for every search type, in file order |
| SearchRunner.SuccessIdentity | securelog-client/src/searchrunner.rs:94 | a successful result names the search and the location it came from |
| SearchRunner.MetadataErrorPassesCheck | securelog-client/src/searchrunner.rs:110-118 | unreadable metadata does not fail the check; the outcome is decided by opening the file |
| SearchRunner.AbortedStays | securelog-client/src/searchrunner.rs:40 | after a failed send, later searches send nothing |
| SearchRunner.RunLocations | securelog-client/src/searchrunner.rs:27-38 | the per-location loop keeps exactly the successful results, in location order |
| SearchRunner.RunOnce | securelog-client/src/searchrunner.rs:23-45 | a failed fetch aborts with nothing sent; otherwise the nested loop equals the run specification |
| SearchRunner.BatchEmptyIffAllFail | securelog-client/src/searchrunner.rs:29-39 | a search's batch is empty iff every one of its locations failed |
| SearchRunner.BatchBelongsToSearch | securelog-client/src/searchrunner.rs:29-33 | every batched result carries the search's id and one of its locations |
| SearchRunner.BatchInLocationOrder | securelog-client/src/searchrunner.rs:29-38 | batched results follow the order of the search's locations |
| SearchRunner.AllClearLocationIsReported | securelog-client/src/searchrunner.rs:39 | for every search type, a readable location in which the search's matcher accepts no line is still sent, with an empty `found` |
| SearchRunner.BatchContainsSuccess | securelog-client/src/searchrunner.rs:30-33 | every successful location's result is in its search's batch |
| SearchRunner.RegexErrorSilencesSearch | securelog-client/src/searchrunner.rs:72-77 | a search whose expression does not compile sends nothing |
| SearchRunner.RunSendsNonEmptyBatches | securelog-client/src/searchrunner.rs:39-41 | a run sends exactly the non-empty batches, in search order, up to the first failed send |
| ClientMain.ConfigMissing | securelog-client/src/main.rs:129-147 | true iff one of the server, name, id or token keys is absent |
| ClientMain.TrimLineEnding | securelog-client/src/main.rs:215-233 | pops one trailing `\r`, then one trailing `\n`: `x\n` → `x`, `x\r\n` → `x\r`, `x\n\r` → `x` |
| ClientMain.DecodeShouldRun | securelog-client/src/webclient.rs:167-195 | a 500, a 401 or an unexpected status reads as false; a 200 with a JSON boolean gives that boolean, any other 200 is a JSON error; a transport error passes through |
| ClientMain.HaltedStays | securelog-client/src/main.rs:64-75 | once a pass panics, later passes add nothing |
| ClientMain.RunIteration | securelog-client/src/main.rs:65-74 | one loop body produces the pass's events |
| ClientMain.RunAgent | securelog-client/src/main.rs:60-75 | a failed or refused login panics before the loop; then the passes follow one another |
| ClientMain.PassRunsOnlyOnTrue | securelog-client/src/main.rs:65-67 | notify and run happen iff the answer is `Ok(true)` (an error counts as false); a failing notify panics |
| ClientMain.RunErrorsDoNotStopLoop | securelog-client/src/main.rs:67-72 | without a failing notify, every pass runs, whatever `run_once` returned |
| ClientMain.PassShapes | securelog-client/src/main.rs:64-75 | a pass is ask-sleep, ask-notify-panic or ask-notify-run-sleep |
| ClientMain.NotifyBeforeRun | securelog-client/src/main.rs:66-67 | every run is immediately preceded by a notify, which follows the question |
| ClientMain.PanicIsLast | securelog-client/src/main.rs:60-66 | a panic, at login or at notify, is the last event |
| ClientMain.PanicIsLastInLoop | securelog-client/src/main.rs:66 | within the loop a panic is the last event |
| ServerModels.SqlCode | securelog-server/src/models.rs:11-17 | every type is stored as one of the three codes |
| ServerModels.FromSqlCode | securelog-server/src/models.rs:18-25 | decodes exactly the three codes |
| ServerModels.FromSqlCodeOfSqlCode | securelog-server/src/models.rs:11-25 | decoding the stored code gives the type back |
| ServerModels.SqlCodeOfFromSqlCode | securelog-server/src/models.rs:11-25 | a code that decodes is the code of what it decodes to |
| ServerModels.SqlCodeInjective | securelog-server/src/models.rs:11-17 | distinct types get distinct codes |
| ServerModels.SqlCodeValues | securelog-server/src/constants.rs:12-14 | Regex = 1, Contains = 2, Wildcard = 3; codes outside 1..3 do not decode |
| ServerModels.NewSearch | securelog-server/src/models.rs:37-51 | stores its arguments unchanged |
| ServerModels.Received | securelog-server/src/models.rs:65-71 | the submitted result keeps the search id, matches, location and start time |
| SqlBase.RandomString | securelog-server/src/sql/mod.rs:246-257 | returns `len` alphanumeric characters |
| SqlClient.AuthenticateOutcome | securelog-server/src/sql/client.rs:4-39 | unknown id is `ClientNotExist`; disabled is `Ok(false)` without a token check; otherwise bcrypt decides |
| SqlClient.GetClientLastRun | securelog-server/src/sql/client.rs:189-207 | missing row is `ClientNotExist`; NULL `manualrun` reads as false |
| SqlClient.SetLastRunThenGet | securelog-server/src/sql/client.rs:209-220 | after `set_client_last_run` the agent reads the new time and no manual run; others are unaffected |
| SqlClient.SetManualRunThenGet | securelog-server/src/sql/client.rs:222-233 | after `set_client_manual_run` the agent reads a pending manual run and its old last run |
| SqlClient.ClientStore.ClientAuthenticate | securelog-server/src/sql/client.rs:4-39 | answers as the outcome function; `lastconnect` moves only on an accepted token |
| SqlClient.ClientStore.AuthCreate | securelog-server/src/sql/client.rs:46-81 | a taken name fails before any insert; the id is new; the agent is enabled with `created == lastconnect` and its schedule row has `manualrun = false` |
| SqlClient.ClientStore.DeleteClient | securelog-server/src/sql/client.rs:83-91 | true iff a row was removed; the schedule row stays |
| SqlClient.ClientStore.ClientSetEnabled | securelog-server/src/sql/client.rs:113-124 | sets only `enabled` of that agent |
| SqlClient.ClientStore.SetClientLastRun | securelog-server/src/sql/client.rs:209-220 | sets `lastrun` and clears `manualrun`; keeps "no manual run pending" |
| SqlClient.ClientStore.SetClientManualRun | securelog-server/src/sql/client.rs:222-233 | sets only `manualrun` |
| SqlUser.LoginOutcome | securelog-server/src/sql/user.rs:4-47 | unknown is `UserNotExist`, disabled is `UserDisabled` (no password check), otherwise bcrypt decides |
| SqlUser.CreatedUserLogsIn | securelog-server/src/sql/user.rs:87-105 | a created user logs in with its password |
| SqlUser.DisabledUserLocksOut | securelog-server/src/sql/user.rs:14-20 | a disabled user's logins are errors whatever the password; re-enabling restores them |
| SqlUser.UserStore.UserLogin | securelog-server/src/sql/user.rs:4-47 | answers as the outcome function; `lastlogin` moves only on `Ok(true)` |
| SqlUser.UserStore.UserSetEnabled | securelog-server/src/sql/user.rs:49-64 | no matching row is `UserNotExist` |
| SqlUser.UserStore.UserEnabled | securelog-server/src/sql/user.rs:66-85 | the stored flag, or `UserNotExist` |
| SqlUser.UserStore.UserCreate | securelog-server/src/sql/user.rs:87-105 | stores the hash with `enabled = true`; a hashing error or a taken name changes nothing |
| SqlUser.UserStore.HasUsers | securelog-server/src/sql/user.rs:107-115 | true iff the table has a row |
| SqlWebhooks.WithoutKeepsOthers | securelog-server/src/sql/webhooks.rs:58-66 | deleting by name keeps exactly the other rows, in order, and removes something iff the name is present |
| SqlWebhooks.AddThenDelete | securelog-server/src/sql/webhooks.rs:4-15 | adding a new name then deleting it restores the table |
| SqlWebhooks.WebhookStore.AddWebhook | securelog-server/src/sql/webhooks.rs:4-15 | appends the row; a taken name is a primary-key error; names stay unique |
| SqlWebhooks.WebhookStore.GetWebhooks | securelog-server/src/sql/webhooks.rs:41-56 | one `Webhook` per row, fields copied, in table order |
| SqlWebhooks.WebhookStore.DeleteWebhook | securelog-server/src/sql/webhooks.rs:58-66 | true iff a row was removed |
| ServerWebhooks.Posts | securelog-server/src/webhooks.rs:6-8 | one post per webhook, to its url under its user name, with the message |
| ServerWebhooks.SendMessage | securelog-server/src/webhooks.rs:4-11 | records the message once and posts it to every webhook in table order |
| SqlMod.IntervalSeconds | securelog-server/src/sql/mod.rs:472-483 | minutes × 60 for a non-negative schedule; a negative `i32` wraps to `2^64 + 60·minutes` |
| SqlMod.DbVersion | securelog-server/src/sql/mod.rs:91-108 | 0 when `dbinfo` is absent or empty, else the first row's version |
| SqlMod.GetScanScheduleIn | securelog-server/src/sql/mod.rs:462-484 | the first row for search 0, or `NoSuchSchedule(0)` |
| SqlMod.FreshSchedule | securelog-server/src/sql/mod.rs:183-186 | a fresh database schedules every 1800 s, not manual |
| SqlMod.SetScheduleThenGet | securelog-server/src/sql/mod.rs:486-497 | the schedule reads back as set, if a row for search 0 exists |
| SqlMod.FindSearchRow | securelog-server/src/sql/mod.rs:266-272 | the `LIMIT 1` lookup: a row with that id, or none exists |
| SqlMod.GetSearchIn | securelog-server/src/sql/mod.rs:259-284 | `None` for a missing row or an undecodable code |
| SqlMod.InsertThenGetSearch | securelog-server/src/sql/mod.rs:322-342 | an inserted search reads back as inserted |
| SqlMod.DeleteThenGetSearch | securelog-server/src/sql/mod.rs:308-316 | a deleted search is gone |
| SqlMod.EnabledSearchesExactly | securelog-server/src/sql/mod.rs:286-306 | panics iff an enabled row has a bad code; otherwise lists exactly the enabled rows |
| SqlMod.JoinedExactly | securelog-server/src/sql/mod.rs:403-447 | panics iff a result's agent or search is missing; otherwise each row joined with both names, in order |
| SqlMod.FilterResultsExactly | securelog-server/src/sql/mod.rs:369-401 | keeps exactly the passing results, as an ordered subsequence; all of them with no filter |
| SqlMod.BoundsAreStrictAndSwapped | securelog-server/src/sql/mod.rs:377-394 | a result at a bound is dropped; `before` is a lower bound |
| SqlMod.Database.InitializeDb | securelog-server/src/sql/mod.rs:67-89 | version 0 creates the tables (failing if one exists), 1 does nothing, anything else panics |
| SqlMod.Database.GetSearch | securelog-server/src/sql/mod.rs:259-284 | the lookup on the current table |
| SqlMod.Database.GetSearches | securelog-server/src/sql/mod.rs:286-306 | the push loop equals the enabled-search listing |
| SqlMod.Database.InsertSearch | securelog-server/src/sql/mod.rs:322-342 | appends an enabled row with the type's code under the next id, which reads back |
| SqlMod.Database.DeleteSearch | securelog-server/src/sql/mod.rs:308-316 | removes the rows with that id and no others |
| SqlMod.Database.InsertClientSearchResult | securelog-server/src/sql/mod.rs:344-366 | appends the row, or fails with the reported error and changes nothing |
| SqlMod.Database.GetAllSearchResults | securelog-server/src/sql/mod.rs:403-447 | the push loop equals the join |
| SqlMod.Database.GetSearchResults | securelog-server/src/sql/mod.rs:369-401 | the loop with the `include` flag equals the filter of the join |
| SqlMod.Database.GetScanSchedule | securelog-server/src/sql/mod.rs:462-484 | the schedule of the current table |
| SqlMod.Database.SetSearchScheduleMinutes | securelog-server/src/sql/mod.rs:486-497 | only the search-0 rows change, and the schedule reads back as set |
| WebSession.StripPrefix | securelog-server/src/web/mod.rs:106 | `Some(rest)` exactly when the string is the prefix followed by `rest` |
| WebSession.LoggedInExactly | securelog-server/src/web/mod.rs:101-123 | `Some(s)` exactly for the identity `client:s` (resp. `user:s`) |
| WebSession.NoSessionNoPrincipal | securelog-server/src/web/mod.rs:101-123 | no identity, no principal |
| WebSession.PrincipalsDisjoint | securelog-server/src/web/mod.rs:101-123 | no identity is both an agent and an operator |
| WebSession.RememberRoundTrip | securelog-server/src/web/client.rs:21 | a remembered `client:id` reads back as that agent and no operator; likewise `user:` |
| WebClient.ShouldRunAnswer | securelog-server/src/web/client.rs:129-148 | a pending manual run answers with the string `"true"`; an interval too large for `from_std` panics; `true` only once `lastrun + interval < now` under an automatic schedule |
| WebClient.ShouldRunTiming | securelog-server/src/web/client.rs:137-141 | due iff `now > nextrun`: not at `nextrun` itself, and at every later time |
| WebClient.GlobalManualNeverRuns | securelog-server/src/web/client.rs:140-141 | with the global manual flag the boolean answer is always false |
| WebClient.NegativeSchedulePanics | securelog-server/src/web/client.rs:137-138 | the decision panics exactly when the stored minutes are negative |
| WebClient.ShouldRunReply | securelog-server/src/web/client.rs:126-148 | a 200 reply needs the schedule and the agent's schedule row |
| WebClient.ApiClientShouldRun | securelog-server/src/web/client.rs:123-152 | without an agent session the reply is 401 `Unauthorized` |
| WebClient.AgentView | securelog-client/src/webclient.rs:167-195 | a dropped connection is a transport error; `true` needs a 200 boolean `true` |
| WebClient.AgentRunsExactlyWhenDue | securelog-server/src/web/client.rs:123-152 | the agent runs iff logged in, scheduled automatically, no manual run pending, and the interval has elapsed |
| WebClient.ManualRunIsSkipped | securelog-server/src/web/client.rs:129-135 | a pending manual run is answered with `"true"`, parses as a JSON error, and the pass neither notifies nor runs |
| WebClient.NoRouteAnswersWithString | securelog-server/src/web/mod.rs:34-63 | while no manual run is pending (no route sets one) every answer is a boolean |
| WebClient.ApiClientLogin | securelog-server/src/web/client.rs:13-26 | a logged-in agent gets OK unchecked; accepted credentials store `client:<id>`; refused ones get 401; errors propagate |
| WebClient.ApiClientLogout | securelog-server/src/web/client.rs:28-32 | clears the session |
| WebClient.ApiClientCreate | securelog-server/src/web/client.rs:40-49 | operator credentials required; the reply carries the new agent's id and plain token |
| WebClient.ApiClientSetEnabled | securelog-server/src/web/client.rs:56-73 | operators only; a missing `enabled` disables |
| WebClient.ApiClientGetSearches | securelog-server/src/web/client.rs:75-86 | agents only; the reply is the enabled-search listing, or a panic on an undecodable enabled row |
| WebClient.StoredRows | securelog-server/src/sql/mod.rs:350-362 | one row per submitted result, in order, under the agent's id |
| WebClient.FirstFault | securelog-server/src/web/client.rs:99-101 | the first failing insert, or the list length |
| WebClient.ApiClientSendSearchResults | securelog-server/src/web/client.rs:92-110 | stores results in order up to the first failing insert, which aborts without a notice; otherwise exactly one notice, even for an empty list |
| WebClient.ApiClientNotifyRunning | securelog-server/src/web/client.rs:112-121 | sets `lastrun` to now and clears the manual run |
| WebUser.RedirectTarget | securelog-server/src/web/user.rs:26-34 | the query target if it starts with `/`, else `/` |
| WebUser.RedirectTargetStable | securelog-server/src/web/user.rs:26-34 | idempotent; a protocol-relative `//host` passes |
| WebUser.ApiUserLogin | securelog-server/src/web/user.rs:17-44 | a correct password stores `user:<name>` and redirects to the sanitised target; a wrong one goes to `/login`; errors propagate |
| WebUser.ApiUserLogout | securelog-server/src/web/user.rs:46-53 | clears the session and redirects to `/` |
| WebUser.ApiUserUsername | securelog-server/src/web/user.rs:55-62 | the operator's name, or `Null` |
| WebUser.UsernameAmbiguity | securelog-server/src/web/user.rs:55-62 | an operator named `Null` and an agent session both read like no session |
| WebUser.LinesHaveNoNewline | securelog-server/src/web/user.rs:93 | no location holds a line break |
| WebUser.LinesOfTerminated | securelog-server/src/web/user.rs:93 | lines written out with `\n` split back into the same lines |
| WebUser.TerminatedOfLines | securelog-server/src/web/user.rs:93 | a `\r`-free text is its lines joined with `\n` (plus a final `\n`) |
| WebUser.LinesExamples | securelog-server/src/web/user.rs:93 | `\r` goes only with the `\n` after it; inner blank lines stay |
| WebUser.CollectLocations | securelog-server/src/web/user.rs:92-95 | one location per line, in order |
| WebUser.ApiUserInsertSearch | securelog-server/src/web/user.rs:86-108 | operators only; the search is stored with one location per line and reads back |
| WebUser.ApiUserDeleteSearch | securelog-server/src/web/user.rs:113-129 | operators only; the search is gone |
| WebUser.ApiUserGetSearchResults | securelog-server/src/web/user.rs:137-154 | operators only; the reply is the join filtered by agent and bounds, or a panic on a dangling result |
| WebUser.U64ToI32 | securelog-server/src/web/user.rs:167 | the `as i32` cast: congruent modulo 2^32, unchanged below 2^31 |
| WebUser.OversizedSchedule | securelog-server/src/web/user.rs:167 | 2^31..2^32−1 minutes make every should-run panic; 2^32 + m is stored as m |
| WebUser.ApiUserSetSchedule | securelog-server/src/web/user.rs:161-178 | operators only; the schedule reads back as the cast minutes, a missing `manual` meaning automatic |
| WebUser.ApiUserWebhooksFetch | securelog-server/src/web/user.rs:180-193 | operators only; every webhook, fields copied |
| WebUser.ApiUserWebhooksAdd | securelog-server/src/web/user.rs:201-217 | operators only; appends or fails on a taken name |
| WebUser.ApiUserWebhooksDelete | securelog-server/src/web/user.rs:223-239 | operators only; removes that name's row |
| WebUser.ApiUserGetSearches | securelog-server/src/web/user.rs:241-254 | operators only; the reply is the enabled-search listing, or a panic on an undecodable enabled row |
| WebUser.ApiUserClientDelete | securelog-server/src/web/user.rs:260-278 | operators only; no removed row is a 500 `Failed to delete client` |

## Left out

- I/O is not modelled: logging, HTTP transport, TLS, the session middleware, stdin/stdout, `sleep` and the configuration files. The HTML pages and the JavaScript UI are UI only.
- The connection pool and most database errors are left out. The model keeps primary-key violations and the per-insert fault argument of result submission.
- `get_clients`, `get_client_names`, `client_exists` and `api_fetch_clients` are not modelled; they are plain listings.
- `client_enabled` is not modelled. Its query uses the placeholder `$id` and fails at run time.
- `SqlClient.ClientStore.AuthCreate`: the id loop draws from a given sequence that must contain a free id. The real loop draws until it finds one, which terminates only with probability 1.
- `SqlUser.UserStore.UserCreate`: `UserCreateFailed` is not produced. A one-row INSERT either inserts its row or reports a database error.
- `SqlMod.IntervalSeconds`: models a release build, where `(schedule as u64) * 60` wraps. A debug build panics there instead.
- `WebClient.ShouldRunAnswer`: does not model the overflow of `DateTime + Duration`. The interval of a non-negative `i32` is under 2^37 s, far inside chrono's range.
- `WebClient.AgentView`: assumes a handler panic drops the connection, which the agent sees as a transport error.
- `ServerWebhooks.SendMessage`: the posts are recorded, not sent. A failed post is only logged, and `get_webhooks`, its only error source, does not fail in the model.
- Every handler takes the session's identity string as `Option<string>`. The `Identity` extractor is not modelled, and neither is the `unwrap` of `Identity::id`.
- `WebUser.Lines` models the current `str::lines`: a lone trailing `\r` on the last line is kept.
- Timestamps are whole seconds and `i32` search ids are unbounded; the `SERIAL` sequence overflow is not modelled.
- `create_db_tables` DDL: only its effect is modelled (empty tables, the default schedule row); the other tables' existence is one flag.

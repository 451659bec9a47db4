/** The agents' API (securelog-server/src/web/client.rs): login, agent
    creation, enabling, the search list, result submission, the
    notify-running call and the should-run decision, together with what
    the agent's loop (securelog-client/src/main.rs) makes of that
    decision. The clock is the parameter `now`, in seconds. */
module WebClient {
  import opened Wrappers
  import opened SqlBase
  import opened SqlClient
  import opened SqlMod
  import opened ServerModels
  import opened WebSession
  import opened Http
  import SqlUser
  import SqlWebhooks
  import ServerWebhooks
  import SearchRunner
  import ClientMain

  /** The largest `std::time::Duration`, in whole seconds, that
      `chrono::Duration::from_std` accepts: `i64::MAX` milliseconds. */
  const MAX_CHRONO_SECS: int := 9223372036854775

  /** The should-run decision for an agent's schedule row and the global
      scan schedule. A pending manual run answers with the JSON string
      `"true"`; otherwise the interval goes through `from_std(..).unwrap()`
      and the agent is due once `lastrun + interval` lies strictly before
      `now`, unless the global schedule is manual. */
  function ShouldRunAnswer(last: ClientLastRun, schedule: ScanSchedule, now: int): (r: Outcome<JsonValue>)
    ensures last.manualrun ==> r == Done(JString("true"))
    ensures r == Panicked <==> !last.manualrun && schedule.dur > MAX_CHRONO_SECS
    ensures r.Done? && r.value.JBool? ==> !last.manualrun
    ensures r == Done(JBool(true)) ==> !schedule.manual && last.lastrun + schedule.dur < now
  {
    if last.manualrun then Done(JString("true"))
    else if schedule.dur > MAX_CHRONO_SECS then Panicked
    else Done(JBool(last.lastrun + schedule.dur < now && !schedule.manual))
  }

  /** Without a manual run and under an automatic schedule the answer is
      "run" exactly once the interval has fully elapsed: not at `nextrun`
      itself, and from then on at every later time. */
  lemma ShouldRunTiming(last: ClientLastRun, schedule: ScanSchedule, now: int, later: int)
    requires !last.manualrun && !schedule.manual && schedule.dur <= MAX_CHRONO_SECS
    ensures ShouldRunAnswer(last, schedule, now) == Done(JBool(now > last.lastrun + schedule.dur))
    ensures ShouldRunAnswer(last, schedule, last.lastrun + schedule.dur) == Done(JBool(false))
    ensures ShouldRunAnswer(last, schedule, now) == Done(JBool(true)) && now <= later ==>
              ShouldRunAnswer(last, schedule, later) == Done(JBool(true))
  {
  }

  /** A manual global schedule never says "run" by itself: only an
      agent's own manual-run flag (answered with the string) can. */
  lemma GlobalManualNeverRuns(last: ClientLastRun, schedule: ScanSchedule, now: int)
    requires schedule.manual
    ensures ShouldRunAnswer(last, schedule, now) != Done(JBool(true))
    ensures !last.manualrun && schedule.dur <= MAX_CHRONO_SECS ==> ShouldRunAnswer(last, schedule, now) == Done(JBool(false))
  {
  }

  /** A stored schedule of `minutes` decides without panicking exactly
      when `minutes` is not negative: a negative `i32` becomes an interval
      of nearly `2^64` seconds, beyond what `from_std` accepts. */
  lemma NegativeSchedulePanics(last: ClientLastRun, minutes: Int32, manual: bool, now: int)
    requires !last.manualrun
    ensures ShouldRunAnswer(last, ScanSchedule(IntervalSeconds(minutes), manual), now) == Panicked <==> minutes < 0
  {
  }

  /** The should-run decision as the server gives it. The schedule is
      read before the agent's row, so a missing schedule wins. */
  function ShouldRunReply(clientId: string, db: Database, store: ClientStore, now: int): (r: Outcome<Reply>)
    reads db, store
    ensures r.Done? && r.value.Ok? ==>
              clientId in store.schedules && db.GetScanSchedule().Success? && r.value.body.ShouldRunJson?
  {
    match db.GetScanSchedule()
    case Failure(e) => Done(Failed(Sql(e)))
    case Success(schedule) =>
      match GetClientLastRun(store.schedules, clientId)
      case Failure(e) => Done(Failed(Sql(e)))
      case Success(last) =>
        match ShouldRunAnswer(last, schedule, now)
        case Panicked => Panicked
        case Done(v) => Done(Ok(ShouldRunJson(v)))
  }

  /** `api_client_should_run` */
  function ApiClientShouldRun(identity: Option<string>, db: Database, store: ClientStore, now: int): (r: Outcome<Reply>)
    reads db, store
    ensures ClientLoggedIn(identity).None? ==> r == Done(Unauthorized(Text("Unauthorized")))
    ensures r.Done? && r.value.Ok? ==>
              ClientLoggedIn(identity).Some? && ClientLoggedIn(identity).value in store.schedules && r.value.body.ShouldRunJson?
  {
    match ClientLoggedIn(identity)
    case None => Done(Unauthorized(Text("Unauthorized")))
    case Some(clientId) => ShouldRunReply(clientId, db, store, now)
  }

  /** What the agent's `get_should_run` makes of the exchange. A panic in
      the handler drops the connection, which the agent sees as a
      transport error. */
  function AgentView(reply: Outcome<Reply>): (r: Result<bool, SearchRunner.WebError>)
    ensures reply.Panicked? ==> r == Failure(SearchRunner.Reqwest)
    ensures r == Success(true) ==> reply == Done(Ok(ShouldRunJson(JBool(true))))
  {
    match reply
    case Panicked => Failure(SearchRunner.Reqwest)
    case Done(rep) => ClientMain.DecodeShouldRun(Success(rep))
  }

  /** End to end, the agent runs its searches exactly when it is logged
      in, the scan schedule exists and is automatic with an interval
      `from_std` accepts, the agent has a schedule row without a pending
      manual run, and the interval has elapsed. A pending manual run in
      particular never makes the agent run. */
  lemma AgentRunsExactlyWhenDue(identity: Option<string>, db: Database, store: ClientStore, now: int)
    ensures AgentView(ApiClientShouldRun(identity, db, store, now)).UnwrapOr(false) <==>
              && ClientLoggedIn(identity).Some?
              && ClientLoggedIn(identity).value in store.schedules
              && store.schedules[ClientLoggedIn(identity).value].manualrun != Some(true)
              && db.GetScanSchedule().Success?
              && !db.GetScanSchedule().value.manual
              && db.GetScanSchedule().value.dur <= MAX_CHRONO_SECS
              && store.schedules[ClientLoggedIn(identity).value].lastrun + db.GetScanSchedule().value.dur < now
  {
  }

  /** The manual-run quirk: the server answers a pending manual run with
      the string `"true"`, the agent's boolean field fails to parse, and
      the loop's `unwrap_or(false)` turns that into "do not run", so the
      pass neither notifies nor runs. */
  lemma ManualRunIsSkipped(identity: Option<string>, db: Database, store: ClientStore, now: int, it: ClientMain.Iteration)
    requires ClientLoggedIn(identity).Some? && ClientLoggedIn(identity).value in store.schedules
    requires store.schedules[ClientLoggedIn(identity).value].manualrun == Some(true)
    requires it.shouldRun == AgentView(ApiClientShouldRun(identity, db, store, now))
    ensures db.GetScanSchedule().Success? ==>
              ApiClientShouldRun(identity, db, store, now) == Done(Ok(ShouldRunJson(JString("true"))))
    ensures db.GetScanSchedule().Success? ==> it.shouldRun == Failure(SearchRunner.Json)
    ensures ClientMain.IterationEvents(it) == [ClientMain.AskShouldRun, ClientMain.Sleep]
  {
    AgentRunsExactlyWhenDue(identity, db, store, now);
  }

  /** Only `set_client_manual_run` sets the flag and no route calls it, so
      in every state the routes reach the answer is a JSON boolean. */
  lemma NoRouteAnswersWithString(identity: Option<string>, db: Database, store: ClientStore, now: int)
    requires store.NoManualRunPending()
    ensures ApiClientShouldRun(identity, db, store, now).Done? && ApiClientShouldRun(identity, db, store, now).value.Ok? ==>
              ApiClientShouldRun(identity, db, store, now).value.body.shouldRun.JBool?
  {
    var id := ClientLoggedIn(identity);
    if id.Some? && id.value in store.schedules {
      assert store.schedules[id.value].manualrun != Some(true);
    }
  }

  /** `api_client_login`. An agent session is answered without looking at
      the credentials; otherwise `client_authenticate` decides and its
      errors propagate. */
  method ApiClientLogin(session: Session, store: ClientStore, id: string, token: string, verify: Verify, now: int) returns (r: Reply)
    modifies session, store
    ensures ClientLoggedIn(old(session.identity)).Some? ==>
              r == Ok(Text("Client already logged in")) && store.clients == old(store.clients)
    ensures ClientLoggedIn(old(session.identity)).None? ==>
              && (r == Ok(Text("Logged in successfully")) <==> AuthenticateOutcome(old(store.clients), id, token, verify) == Success(true))
              && (AuthenticateOutcome(old(store.clients), id, token, verify) == Success(false) ==> r == Unauthorized(Text("Login failed")))
              && (AuthenticateOutcome(old(store.clients), id, token, verify).Failure? ==>
                    r == Failed(Sql(AuthenticateOutcome(old(store.clients), id, token, verify).error)))
              && store.clients == if r == Ok(Text("Logged in successfully")) then old(store.clients)[id := old(store.clients)[id].(lastconnect := now)]
                                  else old(store.clients)
    ensures r == Ok(Text("Logged in successfully")) ==> session.identity == Some(CLIENT_PREFIX + id) && ClientLoggedIn(session.identity) == Some(id)
    ensures r != Ok(Text("Logged in successfully")) ==> session.identity == old(session.identity)
    ensures store.schedules == old(store.schedules)
    ensures old(store.Valid()) ==> store.Valid()
  {
    if ClientLoggedIn(session.identity).Some? {
      return Ok(Text("Client already logged in"));
    }
    var ok := store.ClientAuthenticate(id, token, verify, now);
    if ok.Failure? {
      return Failed(Sql(ok.error));
    }
    if ok.value {
      session.identity := Some(CLIENT_PREFIX + id);
      RememberRoundTrip(id);
      r := Ok(Text("Logged in successfully"));
    } else {
      r := Unauthorized(Text("Login failed"));
    }
  }

  /** `api_client_logout` */
  method ApiClientLogout(session: Session) returns (r: Reply)
    modifies session
    ensures session.identity == None && ClientLoggedIn(session.identity).None?
    ensures r == Ok(Text("Logged"))
  {
    session.identity := None;
    r := Ok(Text("Logged"));
  }

  /** `api_client_create`: an operator's credentials (checked with
      `user_login`, which also stamps `lastlogin`) register a new agent
      under `name`, and the reply carries its id and plain token. */
  method ApiClientCreate(users: SqlUser.UserStore, store: ClientStore, username: string, password: string, name: string,
                         verify: Verify, hash: Hasher, idDraws: seq<string>, now: int) returns (r: Reply)
    requires forall k :: 0 <= k < |idDraws| ==> IsRandomString(idDraws[k], 32)
    requires exists k :: 0 <= k < |idDraws| && idDraws[k] !in store.clients
    modifies users, store
    ensures SqlUser.LoginOutcome(old(users.auth), username, password, verify).Failure? ==>
              r == Failed(Sql(SqlUser.LoginOutcome(old(users.auth), username, password, verify).error)) &&
              store.clients == old(store.clients) && store.schedules == old(store.schedules)
    ensures SqlUser.LoginOutcome(old(users.auth), username, password, verify) == Success(false) ==>
              r == Unauthorized(Empty) && store.clients == old(store.clients) && store.schedules == old(store.schedules)
    ensures SqlUser.LoginOutcome(old(users.auth), username, password, verify) == Success(true) && old(store.NameExists(name)) ==>
              r == Failed(Sql(ClientNameExists(name))) && store.clients == old(store.clients)
    ensures r.Ok? ==>
              && SqlUser.LoginOutcome(old(users.auth), username, password, verify) == Success(true)
              && r.body.ClientAuthJson?
              && r.body.auth.id !in old(store.clients)
              && IsRandomString(r.body.auth.token, 32)
              && hash(r.body.auth.token).Some?
              && store.clients == old(store.clients)[r.body.auth.id := ClientRow(hash(r.body.auth.token).value, name, true, now, now)]
              && store.schedules == old(store.schedules)[r.body.auth.id := ScheduleRow(now, Some(false))]
    ensures r.Ok? || r.Unauthorized? || r.Failed?
    ensures users.auth == if SqlUser.LoginOutcome(old(users.auth), username, password, verify) == Success(true)
                          then old(users.auth)[username := old(users.auth)[username].(lastlogin := Some(now))]
                          else old(users.auth)
    ensures old(store.Valid()) ==> store.Valid()
    ensures old(store.NoManualRunPending()) ==> store.NoManualRunPending()
  {
    var login := users.UserLogin(username, password, verify, now);
    if login.Failure? {
      return Failed(Sql(login.error));
    }
    if !login.value {
      return Unauthorized(Empty);
    }
    var client := store.AuthCreate(name, hash, idDraws, now);
    if client.Failure? {
      return Failed(Sql(client.error));
    }
    r := Ok(ClientAuthJson(client.value));
  }

  /** `api_client_set_enabled`, an operator route: a missing `enabled`
      field disables the agent. */
  method ApiClientSetEnabled(identity: Option<string>, store: ClientStore, id: string, enabled: Option<bool>) returns (r: Reply)
    modifies store
    ensures UserLoggedIn(identity).None? ==> r == Unauthorized(Empty) && store.clients == old(store.clients)
    ensures UserLoggedIn(identity).Some? ==>
              r == Ok(Empty) &&
              store.clients == if id in old(store.clients) then old(store.clients)[id := old(store.clients)[id].(enabled := enabled == Some(true))]
                               else old(store.clients)
    ensures store.schedules == old(store.schedules)
    ensures old(store.Valid()) ==> store.Valid()
  {
    if UserLoggedIn(identity).None? {
      return Unauthorized(Empty);
    }
    var e := if enabled.Some? then enabled.value else false;
    store.ClientSetEnabled(id, e);
    r := Ok(Empty);
  }

  /** `api_client_get_searches`: the enabled searches, for an agent. */
  method ApiClientGetSearches(identity: Option<string>, db: Database) returns (r: Outcome<Reply>)
    ensures ClientLoggedIn(identity).None? ==> r == Done(Unauthorized(Text("Unauthorized")))
    ensures ClientLoggedIn(identity).Some? ==>
              (r.Panicked? <==> exists i :: 0 <= i < |db.searches| && db.searches[i].enabled && FromSqlCode(db.searches[i].code).None?)
    ensures ClientLoggedIn(identity).Some? ==>
              r == match EnabledSearches(db.searches)
                   case Panicked => Panicked
                   case Done(ss) => Done(Ok(SearchesJson(ss)))
    ensures r.Done? && r.value.Ok? ==>
              r.value.body.SearchesJson? &&
              forall s :: s in r.value.body.searches <==> exists i :: 0 <= i < |db.searches| && Lists(db.searches[i], s)
  {
    if ClientLoggedIn(identity).None? {
      return Done(Unauthorized(Text("Unauthorized")));
    }
    EnabledSearchesExactly(db.searches);
    var searches := db.GetSearches();
    if searches.Panicked? {
      return Panicked;
    }
    r := Done(Ok(SearchesJson(searches.value)));
  }

  /** The rows `insert_client_search_result` stores for submitted
      results, in submission order. */
  function StoredRows(clientId: string, rs: seq<ClientSearchResult>): (rows: seq<ResultRow>)
    ensures |rows| == |rs|
    ensures forall i :: 0 <= i < |rs| ==>
              rows[i].client == clientId && rows[i].search == rs[i].searchId && rows[i].location == rs[i].location &&
              rows[i].found == rs[i].found && rows[i].started == rs[i].started
  {
    if rs == [] then []
    else
      var last := rs[|rs| - 1];
      StoredRows(clientId, rs[..|rs| - 1]) + [ResultRow(clientId, last.searchId, last.location, last.found, last.started)]
  }

  /** The index of the first insert that fails among the first `n`, or
      `n` when none does. */
  function FirstFault(faults: nat -> Option<SqlError>, n: nat): (k: nat)
    ensures k <= n
    ensures forall j: nat :: j < k ==> faults(j).None?
    ensures k < n ==> faults(k).Some?
  {
    if n == 0 then 0
    else
      var k := FirstFault(faults, n - 1);
      if k < n - 1 then k
      else if faults(n - 1).Some? then n - 1
      else n
  }

  function ResultsMessage(clientId: string): string {
    "New scan results for client " + clientId + " received"
  }

  /** `api_client_send_search_results`. `submitted` is the parsed form
      field (`None` when it is not valid JSON) and `faults(i)` the error
      the database reports for the `i`-th insert, if any. The results are
      stored in order up to the first failing insert, which ends the
      request; after the last insert exactly one notice goes out, also for
      an empty list. */
  method ApiClientSendSearchResults(identity: Option<string>, db: Database, hooks: SqlWebhooks.WebhookStore,
                                    outbox: ServerWebhooks.Outbox, submitted: Option<seq<ClientSearchResult>>,
                                    faults: nat -> Option<SqlError>) returns (r: Reply)
    modifies db, outbox
    ensures ClientLoggedIn(identity).None? ==>
              r == Unauthorized(Text("Unauthorized")) && db.results == old(db.results)
    ensures ClientLoggedIn(identity).Some? && submitted.None? ==>
              r == Failed(BadJson) && db.results == old(db.results)
    ensures ClientLoggedIn(identity).Some? && submitted.Some? ==>
              db.results == old(db.results) + StoredRows(ClientLoggedIn(identity).value,
                                                         submitted.value[..FirstFault(faults, |submitted.value|)])
    ensures ClientLoggedIn(identity).Some? && submitted.Some? && FirstFault(faults, |submitted.value|) < |submitted.value| ==>
              r == Failed(Sql(faults(FirstFault(faults, |submitted.value|)).value))
    ensures r.Ok? <==> ClientLoggedIn(identity).Some? && submitted.Some? && FirstFault(faults, |submitted.value|) == |submitted.value|
    ensures r.Ok? ==>
              r == Ok(Empty) &&
              outbox.messages == old(outbox.messages) + [ResultsMessage(ClientLoggedIn(identity).value)] &&
              outbox.posts == old(outbox.posts) + ServerWebhooks.Posts(ResultsMessage(ClientLoggedIn(identity).value), hooks.rows)
    ensures !r.Ok? ==> outbox.messages == old(outbox.messages) && outbox.posts == old(outbox.posts)
    ensures db.searches == old(db.searches) && db.nextSearchId == old(db.nextSearchId) && db.scanSchedule == old(db.scanSchedule)
    ensures db.dbinfo == old(db.dbinfo) && db.otherTables == old(db.otherTables)
  {
    var clientId := ClientLoggedIn(identity);
    if clientId.None? {
      return Unauthorized(Text("Unauthorized"));
    }
    if submitted.None? {
      return Failed(BadJson);
    }
    var results := submitted.value;
    var k := FirstFault(faults, |results|);
    for i := 0 to |results|
      invariant i <= k
      invariant db.results == old(db.results) + StoredRows(clientId.value, results[..i])
      invariant db.searches == old(db.searches) && db.nextSearchId == old(db.nextSearchId) && db.scanSchedule == old(db.scanSchedule)
      invariant db.dbinfo == old(db.dbinfo) && db.otherTables == old(db.otherTables)
      invariant outbox.messages == old(outbox.messages) && outbox.posts == old(outbox.posts)
    {
      assert results[..i + 1][..i] == results[..i];
      var inserted := db.InsertClientSearchResult(clientId.value, results[i], faults(i));
      if inserted.Failure? {
        return Failed(Sql(inserted.error));
      }
    }
    assert results[..|results|] == results;
    ServerWebhooks.SendMessage(ResultsMessage(clientId.value), hooks, outbox);
    r := Ok(Empty);
  }

  /** `api_client_notify_running`: the agent's `lastrun` becomes `now`
      and its manual-run flag is cleared. */
  method ApiClientNotifyRunning(identity: Option<string>, store: ClientStore, now: int) returns (r: Reply)
    modifies store
    ensures ClientLoggedIn(identity).None? ==> r == Unauthorized(Text("Unauthorized")) && store.schedules == old(store.schedules)
    ensures ClientLoggedIn(identity).Some? ==>
              r == Ok(Empty) &&
              store.schedules == if ClientLoggedIn(identity).value in old(store.schedules)
                                 then old(store.schedules)[ClientLoggedIn(identity).value := ScheduleRow(now, Some(false))]
                                 else old(store.schedules)
    ensures ClientLoggedIn(identity).Some? && ClientLoggedIn(identity).value in old(store.schedules) ==>
              GetClientLastRun(store.schedules, ClientLoggedIn(identity).value) == Success(ClientLastRun(now, false))
    ensures store.clients == old(store.clients)
    ensures old(store.Valid()) ==> store.Valid()
    ensures old(store.NoManualRunPending()) ==> store.NoManualRunPending()
  {
    var clientId := ClientLoggedIn(identity);
    if clientId.None? {
      return Unauthorized(Text("Unauthorized"));
    }
    store.SetClientLastRun(clientId.value, now);
    r := Ok(Empty);
  }
}

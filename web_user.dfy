/** The operators' API (securelog-server/src/web/user.rs). Every route
    but login, logout and the user-name probe acts only for an operator
    session; without one it redirects to `/login` and changes nothing. */
module WebUser {
  import opened Wrappers
  import opened SqlBase
  import opened SearchKind
  import opened SqlClient
  import opened SqlMod
  import opened ServerModels
  import opened WebSession
  import opened Http
  import opened Seqs
  import SqlUser
  import SqlWebhooks
  import WebClient

  const LOGIN_PAGE: string := "/login"

  /** Where a successful login redirects: the `redirect` query parameter
      if it starts with `'/'`, the root otherwise. */
  function RedirectTarget(redirect: Option<string>): (t: string)
    ensures t != [] && t[0] == '/'
    ensures redirect.Some? && redirect.value != [] && redirect.value[0] == '/' ==> t == redirect.value
    ensures t != "/" ==> redirect == Some(t)
  {
    match redirect
    case Some(target) => if target != [] && target[0] == '/' then target else "/"
    case None => "/"
  }

  /** The sanitiser is idempotent, and it only asks for a leading `'/'`,
      so a protocol-relative `//host/...` target passes through. */
  lemma RedirectTargetStable(redirect: Option<string>, host: string)
    ensures RedirectTarget(Some(RedirectTarget(redirect))) == RedirectTarget(redirect)
    ensures RedirectTarget(Some("//" + host)) == "//" + host
  {
  }

  /** `api_user_login`: unknown and disabled users and bcrypt failures
      are errors, a wrong password goes back to the login page, a correct
      one opens an operator session. */
  method ApiUserLogin(session: Session, users: SqlUser.UserStore, username: string, password: string,
                      redirect: Option<string>, verify: Verify, now: int) returns (r: Reply)
    modifies session, users
    ensures SqlUser.LoginOutcome(old(users.auth), username, password, verify).Failure? ==>
              r == Failed(Sql(SqlUser.LoginOutcome(old(users.auth), username, password, verify).error))
    ensures SqlUser.LoginOutcome(old(users.auth), username, password, verify) == Success(false) ==> r == Found(LOGIN_PAGE)
    ensures SqlUser.LoginOutcome(old(users.auth), username, password, verify) == Success(true) ==>
              r == Found(RedirectTarget(redirect)) &&
              session.identity == Some(USER_PREFIX + username) && UserLoggedIn(session.identity) == Some(username)
    ensures SqlUser.LoginOutcome(old(users.auth), username, password, verify) != Success(true) ==>
              session.identity == old(session.identity)
    ensures users.auth == if SqlUser.LoginOutcome(old(users.auth), username, password, verify) == Success(true)
                          then old(users.auth)[username := old(users.auth)[username].(lastlogin := Some(now))]
                          else old(users.auth)
  {
    var ok := users.UserLogin(username, password, verify, now);
    if ok.Failure? {
      return Failed(Sql(ok.error));
    }
    if ok.value {
      session.identity := Some(USER_PREFIX + username);
      RememberRoundTrip(username);
      r := Found(RedirectTarget(redirect));
    } else {
      r := Found(LOGIN_PAGE);
    }
  }

  /** `api_user_logout` */
  method ApiUserLogout(session: Session) returns (r: Reply)
    modifies session
    ensures session.identity == None && UserLoggedIn(session.identity).None?
    ensures r == Found("/")
  {
    session.identity := None;
    r := Found("/");
  }

  /** `api_user_username`: the operator's name, or the text `Null`. */
  function ApiUserUsername(identity: Option<string>): (r: Reply)
    ensures r.Ok? && r.body.Text?
    ensures UserLoggedIn(identity).Some? ==> r.body.text == UserLoggedIn(identity).value
    ensures UserLoggedIn(identity).None? ==> r.body.text == "Null"
  {
    match UserLoggedIn(identity)
    case Some(username) => Ok(Text(username))
    case None => Ok(Text("Null"))
  }

  /** An operator called `Null` cannot be told from no session, and an
      agent session reads as no operator. */
  lemma UsernameAmbiguity(id: string)
    ensures ApiUserUsername(Some(USER_PREFIX + "Null")) == ApiUserUsername(None)
    ensures ApiUserUsername(Some(CLIENT_PREFIX + id)) == ApiUserUsername(None)
  {
    RememberRoundTrip("Null");
    RememberRoundTrip(id);
  }

  function NewlineIndex(s: string): (k: nat)
    ensures k <= |s|
    ensures k < |s| ==> s[k] == '\n'
    ensures forall j :: 0 <= j < k ==> s[j] != '\n'
  {
    if s == [] then 0
    else if s[0] == '\n' then 0
    else
      var k := NewlineIndex(s[1..]);
      assert forall j :: 1 <= j < |s| ==> s[j] == s[1..][j - 1];
      k + 1
  }

  function StripCr(line: string): string {
    if line != [] && line[|line| - 1] == '\r' then line[..|line| - 1] else line
  }

  /** `str::lines`: the text cut at each `'\n'`, a `'\r'` right before a
      `'\n'` dropped with it, and no empty line after a final `'\n'`. */
  function Lines(s: string): seq<string>
    decreases |s|
  {
    if s == [] then []
    else
      var k := NewlineIndex(s);
      if k == |s| then [s] else [StripCr(s[..k])] + Lines(s[k + 1..])
  }

  /** Each line followed by `'\n'`, all joined. */
  function Terminated(lines: seq<string>): string {
    if lines == [] then [] else lines[0] + "\n" + Terminated(lines[1..])
  }

  /** No line holds a line break. */
  lemma {:induction false} LinesHaveNoNewline(s: string, i: nat)
    requires i < |Lines(s)|
    ensures '\n' !in Lines(s)[i]
    decreases |s|
  {
    var k := NewlineIndex(s);
    if k < |s| && i > 0 {
      LinesHaveNoNewline(s[k + 1..], i - 1);
    } else if k < |s| {
      assert forall j :: 0 <= j < |StripCr(s[..k])| ==> StripCr(s[..k])[j] == s[j];
    }
  }

  lemma NewlineAfter(line: string, rest: string)
    requires '\n' !in line
    ensures NewlineIndex(line + "\n" + rest) == |line|
    ensures (line + "\n" + rest)[..|line|] == line && (line + "\n" + rest)[|line| + 1..] == rest
  {
    var s := line + "\n" + rest;
    var k := NewlineIndex(s);
    assert s[|line|] == '\n';
    assert forall j :: 0 <= j < |line| ==> s[j] == line[j];
  }

  lemma TerminatedCons(line: string, lines: seq<string>)
    ensures Terminated([line] + lines) == line + "\n" + Terminated(lines)
  {
    assert ([line] + lines)[1..] == lines;
  }

  /** Lines without breaks and without a trailing `'\r'`, each written
      out with its `'\n'`, split back into the same lines. */
  lemma {:induction false} LinesOfTerminated(lines: seq<string>)
    requires forall i :: 0 <= i < |lines| ==> '\n' !in lines[i]
    requires forall i :: 0 <= i < |lines| ==> lines[i] == [] || lines[i][|lines[i]| - 1] != '\r'
    ensures Lines(Terminated(lines)) == lines
  {
    if lines != [] {
      var first := lines[0];
      assert lines == [first] + lines[1..];
      TerminatedCons(first, lines[1..]);
      NewlineAfter(first, Terminated(lines[1..]));
      LinesOfTerminated(lines[1..]);
    }
  }

  /** The parts either side of a text's first `'\n'`. */
  lemma SplitAtNewline(s: string, k: nat)
    requires '\r' !in s && k == NewlineIndex(s) && k < |s|
    ensures s == s[..k] + "\n" + s[k + 1..]
    ensures '\r' !in s[..k] && '\r' !in s[k + 1..] && StripCr(s[..k]) == s[..k]
    ensures Lines(s) == [s[..k]] + Lines(s[k + 1..])
    ensures s[k + 1..] == [] || s[k + 1..][|s[k + 1..]| - 1] == s[|s| - 1]
  {
    var line, rest := s[..k], s[k + 1..];
    assert forall j :: 0 <= j < |line| ==> line[j] == s[j];
    assert forall j :: 0 <= j < |rest| ==> rest[j] == s[k + 1 + j];
    if line != [] {
      assert line[|line| - 1] in line;
    }
  }

  /** Splitting a text without `'\r'` and writing each line out with its
      `'\n'` gives the text back, with a final `'\n'` added if it lacked
      one. */
  lemma {:induction false} TerminatedOfLines(s: string)
    requires '\r' !in s
    ensures Terminated(Lines(s)) == if s == [] || s[|s| - 1] == '\n' then s else s + "\n"
    decreases |s|
  {
    if s != [] {
      var k := NewlineIndex(s);
      if k < |s| {
        SplitAtNewline(s, k);
        var line, rest := s[..k], s[k + 1..];
        TerminatedOfLines(rest);
        TerminatedCons(line, Lines(rest));
      } else {
        TerminatedCons(s, []);
      }
    }
  }

  /** A `'\r'` goes only together with the `'\n'` after it, and blank
      lines in the middle are kept. */
  lemma LinesExamples()
    ensures Lines("a\r\nb\r") == ["a", "b\r"]
    ensures Lines("a\n\nb\n") == ["a", "", "b"]
  {
    assert "a\r\nb\r" == "a\r" + "\n" + "b\r";
    NewlineAfter("a\r", "b\r");
    assert NewlineIndex("b\r") == 2;
    assert Lines("b\r") == ["b\r"];
    assert StripCr("a\r") == "a";
    assert Lines("a\r\nb\r") == [StripCr("a\r")] + Lines("b\r");
    assert "a\n\nb\n" == "a" + "\n" + "\nb\n";
    NewlineAfter("a", "\nb\n");
    assert "\nb\n" == "" + "\n" + "b\n";
    NewlineAfter("", "b\n");
    assert "b\n" == "b" + "\n" + "";
    NewlineAfter("b", "");
  }

  /** The loop of `api_user_insert_search` that turns the `locations`
      form field into one location per line. */
  method CollectLocations(text: string) returns (locations: seq<string>)
    ensures locations == Lines(text)
    ensures forall i :: 0 <= i < |locations| ==> '\n' !in locations[i]
  {
    var lines := Lines(text);
    locations := [];
    for i := 0 to |lines|
      invariant locations == lines[..i]
    {
      locations := locations + [lines[i]];
    }
    assert lines[..|lines|] == lines;
    forall i | 0 <= i < |locations|
      ensures '\n' !in locations[i]
    {
      LinesHaveNoNewline(text, i);
    }
  }

  /** `api_user_insert_search` */
  method ApiUserInsertSearch(identity: Option<string>, db: Database, name: string, stype: SearchType, search: string,
                             locationsText: string) returns (r: Reply)
    modifies db
    ensures UserLoggedIn(identity).None? ==> r == Found(LOGIN_PAGE) && db.searches == old(db.searches)
    ensures UserLoggedIn(identity).Some? ==>
              && r == Found("/searches")
              && db.searches == old(db.searches) + [SearchRow(old(db.nextSearchId), name, SqlCode(stype), search, Lines(locationsText), true)]
              && (old(db.Valid()) ==> db.GetSearch(old(db.nextSearchId)) == Some(NewSearch(old(db.nextSearchId), name, stype, search, Lines(locationsText))))
    ensures db.results == old(db.results) && db.scanSchedule == old(db.scanSchedule)
    ensures old(db.Valid()) ==> db.Valid()
  {
    if UserLoggedIn(identity).None? {
      return Found(LOGIN_PAGE);
    }
    var locations := CollectLocations(locationsText);
    var _ := db.InsertSearch(name, stype, search, locations);
    r := Found("/searches");
  }

  /** `api_user_delete_search` */
  method ApiUserDeleteSearch(identity: Option<string>, db: Database, id: Int32) returns (r: Reply)
    modifies db
    ensures UserLoggedIn(identity).None? ==> r == Found(LOGIN_PAGE) && db.searches == old(db.searches)
    ensures UserLoggedIn(identity).Some? ==>
              r == Found("/searches") && db.searches == Filter(old(db.searches), IdIsNot(id)) && db.GetSearch(id) == None
    ensures db.results == old(db.results) && db.scanSchedule == old(db.scanSchedule)
    ensures old(db.Valid()) ==> db.Valid()
  {
    if UserLoggedIn(identity).None? {
      return Found(LOGIN_PAGE);
    }
    db.DeleteSearch(id);
    r := Found("/searches");
  }

  /** `api_user_get_search_results`: the stored results joined with the
      names, filtered by agent and by the swapped `before`/`after`
      bounds. */
  method ApiUserGetSearchResults(identity: Option<string>, db: Database, store: ClientStore, client: Option<string>,
                                 before: Option<int>, after: Option<int>) returns (r: Outcome<Reply>)
    ensures UserLoggedIn(identity).None? ==> r == Done(Found(LOGIN_PAGE))
    ensures UserLoggedIn(identity).Some? ==>
              (r.Panicked? <==> exists i :: 0 <= i < |db.results| && Dangling(db.results[i], db.searches, store.clients))
    ensures UserLoggedIn(identity).Some? && Joined(db.results, db.searches, store.clients).Done? ==>
              r == Done(Ok(ResultsJson(Filter(Joined(db.results, db.searches, store.clients).value, IncludedBy(client, before, after)))))
    ensures r.Done? && r.value.Ok? ==>
              r.value.body.ResultsJson? && Joined(db.results, db.searches, store.clients).Done? &&
              forall x :: x in r.value.body.results <==>
                x in Joined(db.results, db.searches, store.clients).value && Included(x, client, before, after)
  {
    if UserLoggedIn(identity).None? {
      return Done(Found(LOGIN_PAGE));
    }
    JoinedExactly(db.results, db.searches, store.clients);
    var results := db.GetSearchResults(client, before, after, store.clients);
    if results.Panicked? {
      return Panicked;
    }
    forall x
      ensures x in results.value <==> x in Joined(db.results, db.searches, store.clients).value && Included(x, client, before, after)
    {
      FilterResultsExactly(Joined(db.results, db.searches, store.clients).value, client, before, after, x);
    }
    r := Done(Ok(ResultsJson(results.value)));
  }

  const I32_MODULUS: int := 0x1_0000_0000

  /** `value as i32` for a `u64`: the low 32 bits, read as two's
      complement. */
  function U64ToI32(value: nat): (v: Int32)
    requires value < U64_MODULUS
    ensures (v - value) % I32_MODULUS == 0
    ensures value < 0x8000_0000 ==> v == value
  {
    var low := value % I32_MODULUS;
    if low < 0x8000_0000 then low else low - I32_MODULUS
  }

  /** A schedule between `2^31` and `2^32 - 1` minutes is stored as a
      negative `i32`, after which every should-run decision for an agent
      without a manual run panics; `2^32 + m` minutes is stored as `m`. */
  lemma OversizedSchedule(value: nat, last: ClientLastRun, manual: bool, now: int)
    requires value < U64_MODULUS && !last.manualrun
    ensures 0x8000_0000 <= value < I32_MODULUS ==>
              WebClient.ShouldRunAnswer(last, ScanSchedule(IntervalSeconds(U64ToI32(value)), manual), now) == Panicked
    ensures I32_MODULUS <= value < I32_MODULUS + 0x8000_0000 ==> U64ToI32(value) == value - I32_MODULUS
  {
    WebClient.NegativeSchedulePanics(last, U64ToI32(value), manual, now);
  }

  /** `api_user_set_schedule`: the `u64` minutes are cast to `i32` and a
      missing `manual` means automatic. */
  method ApiUserSetSchedule(identity: Option<string>, db: Database, schedule: nat, manual: Option<bool>) returns (r: Reply)
    requires schedule < U64_MODULUS
    modifies db
    ensures UserLoggedIn(identity).None? ==> r == Found(LOGIN_PAGE) && db.scanSchedule == old(db.scanSchedule)
    ensures UserLoggedIn(identity).Some? ==>
              r == Found("/") &&
              db.GetScanSchedule() == if old(db.GetScanSchedule()).Success?
                                      then Success(ScanSchedule(IntervalSeconds(U64ToI32(schedule)), manual == Some(true)))
                                      else Failure(NoSuchSchedule(0))
    ensures db.searches == old(db.searches) && db.results == old(db.results)
    ensures db.nextSearchId == old(db.nextSearchId)
  {
    if UserLoggedIn(identity).None? {
      return Found(LOGIN_PAGE);
    }
    db.SetSearchScheduleMinutes(U64ToI32(schedule), manual.UnwrapOr(false));
    r := Found("/");
  }

  /** `api_user_webhooks_fetch` */
  method ApiUserWebhooksFetch(identity: Option<string>, hooks: SqlWebhooks.WebhookStore) returns (r: Reply)
    ensures UserLoggedIn(identity).None? ==> r == Found(LOGIN_PAGE)
    ensures UserLoggedIn(identity).Some? ==>
              r == Ok(WebhooksJson(hooks.rows)) && |r.body.hooks| == |hooks.rows| &&
              forall i :: 0 <= i < |hooks.rows| ==>
                r.body.hooks[i].name == hooks.rows[i].name && r.body.hooks[i].url == hooks.rows[i].url &&
                r.body.hooks[i].username == hooks.rows[i].username
  {
    if UserLoggedIn(identity).None? {
      return Found(LOGIN_PAGE);
    }
    var webhooks := hooks.GetWebhooks();
    r := Ok(WebhooksJson(webhooks));
  }

  /** `api_user_webhooks_add`: a taken name is a database error. */
  method ApiUserWebhooksAdd(identity: Option<string>, hooks: SqlWebhooks.WebhookStore, name: string, url: string,
                            username: string) returns (r: Reply)
    modifies hooks
    ensures UserLoggedIn(identity).None? ==> r == Found(LOGIN_PAGE) && hooks.rows == old(hooks.rows)
    ensures UserLoggedIn(identity).Some? && SqlWebhooks.HasName(old(hooks.rows), name) ==>
              r == Failed(Sql(TokioPostgres)) && hooks.rows == old(hooks.rows)
    ensures UserLoggedIn(identity).Some? && !SqlWebhooks.HasName(old(hooks.rows), name) ==>
              r == Found("/") && hooks.rows == old(hooks.rows) + [SqlWebhooks.Webhook(name, url, username)]
    ensures old(hooks.Valid()) ==> hooks.Valid()
  {
    if UserLoggedIn(identity).None? {
      return Found(LOGIN_PAGE);
    }
    var added := hooks.AddWebhook(name, url, username);
    if added.Failure? {
      return Failed(Sql(added.error));
    }
    r := Found("/");
  }

  /** `api_user_webhooks_delete`: the same redirect whether a row went or
      not. */
  method ApiUserWebhooksDelete(identity: Option<string>, hooks: SqlWebhooks.WebhookStore, name: string) returns (r: Reply)
    modifies hooks
    ensures UserLoggedIn(identity).None? ==> r == Found(LOGIN_PAGE) && hooks.rows == old(hooks.rows)
    ensures UserLoggedIn(identity).Some? ==> r == Found("/") && hooks.rows == SqlWebhooks.Without(old(hooks.rows), name)
    ensures old(hooks.Valid()) ==> hooks.Valid()
  {
    if UserLoggedIn(identity).None? {
      return Found(LOGIN_PAGE);
    }
    var _ := hooks.DeleteWebhook(name);
    r := Found("/");
  }

  /** `api_user_get_searches` */
  method ApiUserGetSearches(identity: Option<string>, db: Database) returns (r: Outcome<Reply>)
    ensures UserLoggedIn(identity).None? ==> r == Done(Found(LOGIN_PAGE))
    ensures UserLoggedIn(identity).Some? ==>
              (r.Panicked? <==> exists i :: 0 <= i < |db.searches| && db.searches[i].enabled && FromSqlCode(db.searches[i].code).None?)
    ensures UserLoggedIn(identity).Some? ==>
              r == match EnabledSearches(db.searches)
                   case Panicked => Panicked
                   case Done(ss) => Done(Ok(SearchesJson(ss)))
    ensures r.Done? && r.value.Ok? ==>
              r.value.body.SearchesJson? &&
              forall s :: s in r.value.body.searches <==> exists i :: 0 <= i < |db.searches| && Lists(db.searches[i], s)
  {
    if UserLoggedIn(identity).None? {
      return Done(Found(LOGIN_PAGE));
    }
    EnabledSearchesExactly(db.searches);
    var searches := db.GetSearches();
    if searches.Panicked? {
      return Panicked;
    }
    r := Done(Ok(SearchesJson(searches.value)));
  }

  /** `api_user_client_delete`: an id with no agent row is answered with
      500; the agent's schedule row stays either way. */
  method ApiUserClientDelete(identity: Option<string>, store: ClientStore, id: string) returns (r: Reply)
    modifies store
    ensures UserLoggedIn(identity).None? ==> r == Found(LOGIN_PAGE) && store.clients == old(store.clients)
    ensures UserLoggedIn(identity).Some? ==>
              store.clients == old(store.clients) - {id} &&
              r == if id in old(store.clients) then Found("/clients") else InternalServerError(Text("Failed to delete client"))
    ensures store.schedules == old(store.schedules)
    ensures old(store.Valid()) ==> store.Valid()
    ensures old(store.NoManualRunPending()) ==> store.NoManualRunPending()
  {
    if UserLoggedIn(identity).None? {
      return Found(LOGIN_PAGE);
    }
    var removed := store.DeleteClient(id);
    if removed {
      r := Found("/clients");
    } else {
      r := InternalServerError(Text("Failed to delete client"));
    }
  }
}

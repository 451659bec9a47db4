/** The agents' tables (securelog-server/src/sql/client.rs): `clients`,
    one row per registered agent keyed by its id, and `client_schedule`,
    the agent's last run and its manual-run flag. bcrypt is a pair of
    functions passed in: `verify(plain, hash)` and `hash(plain)`, each
    `None` where the library reports an error. Timestamps are seconds. */
module SqlClient {
  import opened Wrappers
  import opened SqlBase

  datatype ClientRow = ClientRow(token: string, name: string, enabled: bool, created: int, lastconnect: int)

  /** `manualrun` is a nullable column. */
  datatype ScheduleRow = ScheduleRow(lastrun: int, manualrun: Option<bool>)

  /** What `client_auth_create` hands back: the id and the plain token. */
  datatype ClientAuth = ClientAuth(id: string, token: string)

  datatype ClientLastRun = ClientLastRun(lastrun: int, manualrun: bool)

  type Verify = (string, string) -> Option<bool>
  type Hasher = string -> Option<string>

  /** What `client_authenticate` answers for the table `clients`: an
      unknown id is an error, a disabled agent is refused without looking
      at the token, otherwise bcrypt decides. */
  function AuthenticateOutcome(clients: map<string, ClientRow>, id: string, token: string, verify: Verify): (r: Result<bool, SqlError>)
    ensures r == Success(true) <==> id in clients && clients[id].enabled && verify(token, clients[id].token) == Some(true)
    ensures r.Failure? <==> id !in clients || (clients[id].enabled && verify(token, clients[id].token).None?)
    ensures r.Failure? ==> r.error == (if id in clients then Bcrypt else ClientNotExist(id))
  {
    if id !in clients then Failure(ClientNotExist(id))
    else if !clients[id].enabled then Success(false)
    else match verify(token, clients[id].token)
      case None => Failure(Bcrypt)
      case Some(valid) => Success(valid)
  }

  /** `get_client_last_run` on the table `client_schedule`: a NULL
      `manualrun` reads as false, a missing row is `ClientNotExist`. */
  function GetClientLastRun(schedules: map<string, ScheduleRow>, id: string): (r: Result<ClientLastRun, SqlError>)
    ensures r.Failure? <==> id !in schedules
    ensures r.Failure? ==> r.error == ClientNotExist(id)
    ensures r.Success? ==> r.value.lastrun == schedules[id].lastrun
    ensures r.Success? ==> (r.value.manualrun <==> schedules[id].manualrun == Some(true))
  {
    if id in schedules then
      Success(ClientLastRun(schedules[id].lastrun, schedules[id].manualrun.UnwrapOr(false)))
    else
      Failure(ClientNotExist(id))
  }

  /** After `set_client_last_run(id, dt)` the agent reads back `dt` and no
      pending manual run; other agents read what they read before. */
  lemma SetLastRunThenGet(schedules: map<string, ScheduleRow>, id: string, dt: int, other: string)
    requires id in schedules
    ensures GetClientLastRun(schedules[id := ScheduleRow(dt, Some(false))], id) == Success(ClientLastRun(dt, false))
    ensures other != id ==>
              GetClientLastRun(schedules[id := ScheduleRow(dt, Some(false))], other) == GetClientLastRun(schedules, other)
  {
  }

  /** After `set_client_manual_run(id)` the agent reads back a pending
      manual run and its unchanged last run. */
  lemma SetManualRunThenGet(schedules: map<string, ScheduleRow>, id: string)
    requires id in schedules
    ensures GetClientLastRun(schedules[id := schedules[id].(manualrun := Some(true))], id)
              == Success(ClientLastRun(schedules[id].lastrun, true))
  {
  }

  class ClientStore {
    var clients: map<string, ClientRow>
    var schedules: map<string, ScheduleRow>

    /** What every reachable state satisfies: ids come from
        `random_string(32)`, names are unique because creation checks
        them, and every agent has a schedule row (deleting an agent
        leaves its schedule row behind). */
    ghost predicate Valid()
      reads this
    {
      (forall id :: id in clients ==> IsRandomString(id, 32))
      && (forall a, b :: a in clients && b in clients && clients[a].name == clients[b].name ==> a == b)
      && clients.Keys <= schedules.Keys
    }

    /** No agent has a manual run pending. Only `set_client_manual_run`
        breaks this, and no route of the server calls it. */
    ghost predicate NoManualRunPending()
      reads this
    {
      forall id :: id in schedules ==> schedules[id].manualrun != Some(true)
    }

    /** The two tables as `create_db_tables` leaves them. */
    constructor ()
      ensures clients == map[] && schedules == map[]
      ensures Valid() && NoManualRunPending()
    {
      clients := map[];
      schedules := map[];
    }

    /** `client_name_exists` */
    predicate NameExists(name: string)
      reads this
    {
      exists id :: id in clients && clients[id].name == name
    }

    /** `client_authenticate`: `lastconnect` moves to `now` only when the
        token is accepted. */
    method ClientAuthenticate(id: string, token: string, verify: Verify, now: int) returns (r: Result<bool, SqlError>)
      modifies this
      ensures r == AuthenticateOutcome(old(clients), id, token, verify)
      ensures clients == if r == Success(true) then old(clients)[id := old(clients)[id].(lastconnect := now)] else old(clients)
      ensures schedules == old(schedules)
      ensures old(Valid()) ==> Valid()
    {
      if id !in clients {
        return Failure(ClientNotExist(id));
      }
      var row := clients[id];
      if !row.enabled {
        return Success(false);
      }
      var valid := verify(token, row.token);
      if valid.None? {
        return Failure(Bcrypt);
      }
      if valid.value {
        clients := clients[id := row.(lastconnect := now)];
      }
      r := Success(valid.value);
    }

    /** `client_auth_create`. The name is checked first; the token is a
        fresh random string and is stored hashed; ids are drawn from
        `idDraws` until one is not taken (the real loop draws until it
        succeeds, so the draws are assumed to contain a free id). The two
        inserts are separate statements: if the schedule row exists
        already the second fails and the agent row stays. */
    method AuthCreate(name: string, hash: Hasher, idDraws: seq<string>, now: int) returns (r: Result<ClientAuth, SqlError>)
      requires forall k :: 0 <= k < |idDraws| ==> IsRandomString(idDraws[k], 32)
      requires exists k :: 0 <= k < |idDraws| && idDraws[k] !in clients
      modifies this
      ensures old(NameExists(name)) ==> r == Failure(ClientNameExists(name))
      ensures r.Failure? ==> r.error == ClientNameExists(name) || r.error == Bcrypt || r.error == TokioPostgres
      ensures r.Failure? && r.error != TokioPostgres ==> clients == old(clients) && schedules == old(schedules)
      ensures r.Success? ==>
                && IsRandomString(r.value.token, 32)
                && hash(r.value.token).Some?
                && r.value.id !in old(clients)
                && (exists k :: 0 <= k < |idDraws| && idDraws[k] == r.value.id &&
                      forall j :: 0 <= j < k ==> idDraws[j] in old(clients))
                && clients == old(clients)[r.value.id := ClientRow(hash(r.value.token).value, name, true, now, now)]
                && schedules == old(schedules)[r.value.id := ScheduleRow(now, Some(false))]
      ensures r == Failure(TokioPostgres) ==>
                schedules == old(schedules) &&
                exists id, h :: id !in old(clients) && id in old(schedules) &&
                  clients == old(clients)[id := ClientRow(h, name, true, now, now)]
      ensures (!old(NameExists(name)) && (forall t :: hash(t).Some?) &&
               forall k :: 0 <= k < |idDraws| ==> idDraws[k] !in old(schedules) || idDraws[k] in old(clients))
              ==> r.Success?
      ensures old(Valid()) ==> Valid()
      ensures old(NoManualRunPending()) ==> NoManualRunPending()
    {
      if NameExists(name) {
        return Failure(ClientNameExists(name));
      }
      var token := RandomString(32);
      var sqltoken := hash(token);
      if sqltoken.None? {
        return Failure(Bcrypt);
      }
      var i := 0;
      var id := idDraws[0];
      while id in clients
        invariant 0 <= i < |idDraws| && id == idDraws[i]
        invariant forall j :: 0 <= j < i ==> idDraws[j] in clients
        invariant exists k :: i <= k < |idDraws| && idDraws[k] !in clients
        decreases |idDraws| - i
      {
        i := i + 1;
        id := idDraws[i];
      }
      clients := clients[id := ClientRow(sqltoken.value, name, true, now, now)];
      if id in schedules {
        return Failure(TokioPostgres);
      }
      schedules := schedules[id := ScheduleRow(now, Some(false))];
      r := Success(ClientAuth(id, token));
    }

    /** `delete_client`: true iff a row was removed; the schedule row is
        not touched. */
    method DeleteClient(id: string) returns (removed: bool)
      modifies this
      ensures removed <==> id in old(clients)
      ensures clients == old(clients) - {id}
      ensures schedules == old(schedules)
      ensures old(Valid()) ==> Valid()
    {
      removed := id in clients;
      clients := clients - {id};
    }

    /** `client_set_enabled`: an unknown id changes nothing. */
    method ClientSetEnabled(id: string, enabled: bool)
      modifies this
      ensures clients == if id in old(clients) then old(clients)[id := old(clients)[id].(enabled := enabled)] else old(clients)
      ensures schedules == old(schedules)
      ensures old(Valid()) ==> Valid()
    {
      if id in clients {
        clients := clients[id := clients[id].(enabled := enabled)];
      }
    }

    /** `set_client_last_run`: sets `lastrun` and clears `manualrun`. */
    method SetClientLastRun(id: string, dt: int)
      modifies this
      ensures schedules == if id in old(schedules) then old(schedules)[id := ScheduleRow(dt, Some(false))] else old(schedules)
      ensures clients == old(clients)
      ensures old(Valid()) ==> Valid()
      ensures old(NoManualRunPending()) ==> NoManualRunPending()
    {
      if id in schedules {
        schedules := schedules[id := ScheduleRow(dt, Some(false))];
      }
    }

    /** `set_client_manual_run`: sets only `manualrun`. */
    method SetClientManualRun(id: string)
      modifies this
      ensures schedules == if id in old(schedules) then old(schedules)[id := old(schedules)[id].(manualrun := Some(true))] else old(schedules)
      ensures clients == old(clients)
      ensures old(Valid()) ==> Valid()
    {
      if id in schedules {
        schedules := schedules[id := schedules[id].(manualrun := Some(true))];
      }
    }
  }
}

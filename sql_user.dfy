/** The operators' table `auth` (securelog-server/src/sql/user.rs), keyed
    by user name. bcrypt is passed in as in the agents' tables. */
module SqlUser {
  import opened Wrappers
  import opened SqlBase
  import opened SqlClient

  datatype AuthRow = AuthRow(passwd: string, lastlogin: Option<int>, enabled: bool)

  /** What `user_login` answers for the table `auth`: an unknown user and
      a disabled user are errors (unlike a disabled agent, which is a plain
      refusal), otherwise bcrypt decides. */
  function LoginOutcome(auth: map<string, AuthRow>, username: string, passwd: string, verify: Verify): (r: Result<bool, SqlError>)
    ensures r == Success(true) <==> username in auth && auth[username].enabled && verify(passwd, auth[username].passwd) == Some(true)
    ensures r == Success(false) <==> username in auth && auth[username].enabled && verify(passwd, auth[username].passwd) == Some(false)
    ensures r.Failure? ==> r.error == (if username !in auth then UserNotExist else if !auth[username].enabled then UserDisabled else Bcrypt)
  {
    if username !in auth then Failure(UserNotExist)
    else if !auth[username].enabled then Failure(UserDisabled)
    else match verify(passwd, auth[username].passwd)
      case None => Failure(Bcrypt)
      case Some(ok) => Success(ok)
  }

  /** A created user logs in with the password it was created with, as
      long as bcrypt verifies its own hash. */
  lemma CreatedUserLogsIn(auth: map<string, AuthRow>, username: string, passwd: string, h: string, verify: Verify)
    requires verify(passwd, h) == Some(true)
    ensures LoginOutcome(auth[username := AuthRow(h, None, true)], username, passwd, verify) == Success(true)
  {
  }

  /** Disabling a user makes every later login an error, whatever the
      password; enabling it again restores the answers it had. */
  lemma DisabledUserLocksOut(auth: map<string, AuthRow>, username: string, passwd: string, verify: Verify)
    requires username in auth
    ensures LoginOutcome(auth[username := auth[username].(enabled := false)], username, passwd, verify) == Failure(UserDisabled)
    ensures auth[username].enabled ==>
              LoginOutcome(auth[username := auth[username].(enabled := false)][username := auth[username]], username, passwd, verify)
                == LoginOutcome(auth, username, passwd, verify)
  {
  }

  class UserStore {
    var auth: map<string, AuthRow>

    /** The table as `create_db_tables` leaves it. */
    constructor ()
      ensures auth == map[]
    {
      auth := map[];
    }

    /** `user_login`: `lastlogin` moves to `now` only on a correct
        password. */
    method UserLogin(username: string, passwd: string, verify: Verify, now: int) returns (r: Result<bool, SqlError>)
      modifies this
      ensures r == LoginOutcome(old(auth), username, passwd, verify)
      ensures auth == if r == Success(true) then old(auth)[username := old(auth)[username].(lastlogin := Some(now))] else old(auth)
    {
      if username !in auth {
        return Failure(UserNotExist);
      }
      var row := auth[username];
      if !row.enabled {
        return Failure(UserDisabled);
      }
      var ok := verify(passwd, row.passwd);
      if ok.None? {
        return Failure(Bcrypt);
      }
      if ok.value {
        auth := auth[username := row.(lastlogin := Some(now))];
      }
      r := Success(ok.value);
    }

    /** `user_set_enabled`: no matching row is `UserNotExist`. */
    method UserSetEnabled(username: string, enabled: bool) returns (r: Result<(), SqlError>)
      modifies this
      ensures r.Failure? <==> username !in old(auth)
      ensures r.Failure? ==> r.error == UserNotExist
      ensures auth == if username in old(auth) then old(auth)[username := old(auth)[username].(enabled := enabled)] else old(auth)
    {
      if username !in auth {
        return Failure(UserNotExist);
      }
      auth := auth[username := auth[username].(enabled := enabled)];
      r := Success(());
    }

    /** `user_enabled`: the stored flag, or `UserNotExist`. */
    function UserEnabled(username: string): (r: Result<bool, SqlError>)
      reads this
      ensures r.Failure? <==> username !in auth
      ensures r.Failure? ==> r.error == UserNotExist
      ensures r.Success? ==> r.value == auth[username].enabled
    {
      if username in auth then Success(auth[username].enabled) else Failure(UserNotExist)
    }

    /** `user_create`: the password is stored hashed and the user enabled;
        an existing name violates the primary key. */
    method UserCreate(username: string, password: string, hash: Hasher) returns (r: Result<(), SqlError>)
      modifies this
      ensures hash(password).None? ==> r == Failure(Bcrypt) && auth == old(auth)
      ensures hash(password).Some? && username in old(auth) ==> r == Failure(TokioPostgres) && auth == old(auth)
      ensures hash(password).Some? && username !in old(auth) ==>
                r == Success(()) && auth == old(auth)[username := AuthRow(hash(password).value, None, true)]
    {
      var sqlpasswd := hash(password);
      if sqlpasswd.None? {
        return Failure(Bcrypt);
      }
      if username in auth {
        return Failure(TokioPostgres);
      }
      auth := auth[username := AuthRow(sqlpasswd.value, None, true)];
      r := Success(());
    }

    /** `has_users` */
    function HasUsers(): (b: bool)
      reads this
      ensures b <==> exists u :: u in auth
    {
      |auth| > 0
    }
  }
}

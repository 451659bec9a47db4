/** Session principals (securelog-server/src/web/mod.rs). The identity
    cookie holds one string: `"client:<id>"` for a logged-in agent,
    `"user:<name>"` for a logged-in operator; `None` when there is no
    session. */
module WebSession {
  import opened Wrappers

  const CLIENT_PREFIX: string := "client:"
  const USER_PREFIX: string := "user:"

  /** `str::strip_prefix` */
  function StripPrefix(s: string, prefix: string): (r: Option<string>)
    ensures r.Some? <==> prefix <= s
    ensures r.Some? ==> s == prefix + r.value
  {
    if prefix <= s then Some(s[|prefix|..]) else None
  }

  /** `client_logged_in` */
  function ClientLoggedIn(identity: Option<string>): Option<string> {
    match identity
    case None => None
    case Some(id) => StripPrefix(id, CLIENT_PREFIX)
  }

  /** `user_logged_in` */
  function UserLoggedIn(identity: Option<string>): Option<string> {
    match identity
    case None => None
    case Some(id) => StripPrefix(id, USER_PREFIX)
  }

  /** An agent session yields `s` exactly when the identity is
      `"client:" + s`; an operator session likewise with `"user:"`. */
  lemma LoggedInExactly(identity: Option<string>, s: string)
    ensures ClientLoggedIn(identity) == Some(s) <==> identity == Some(CLIENT_PREFIX + s)
    ensures UserLoggedIn(identity) == Some(s) <==> identity == Some(USER_PREFIX + s)
  {
    if identity == Some(CLIENT_PREFIX + s) {
      assert (CLIENT_PREFIX + s)[|CLIENT_PREFIX|..] == s;
    }
    if identity == Some(USER_PREFIX + s) {
      assert (USER_PREFIX + s)[|USER_PREFIX|..] == s;
    }
  }

  /** No session, no principal. */
  lemma NoSessionNoPrincipal()
    ensures ClientLoggedIn(None) == None && UserLoggedIn(None) == None
  {
  }

  lemma SameFirstChar(prefix: string, s: string)
    requires prefix <= s && prefix != []
    ensures s[0] == prefix[0]
  {
  }

  /** No identity is both an agent and an operator. */
  lemma PrincipalsDisjoint(identity: Option<string>)
    ensures ClientLoggedIn(identity).None? || UserLoggedIn(identity).None?
  {
    if identity.Some? && CLIENT_PREFIX <= identity.value && USER_PREFIX <= identity.value {
      SameFirstChar(CLIENT_PREFIX, identity.value);
      SameFirstChar(USER_PREFIX, identity.value);
      assert false;
    }
  }

  /** What `id.remember(format!("client:{}", id))` stores reads back as
      that agent and as no operator, and the same for operators. */
  lemma RememberRoundTrip(s: string)
    ensures ClientLoggedIn(Some(CLIENT_PREFIX + s)) == Some(s)
    ensures UserLoggedIn(Some(CLIENT_PREFIX + s)) == None
    ensures UserLoggedIn(Some(USER_PREFIX + s)) == Some(s)
    ensures ClientLoggedIn(Some(USER_PREFIX + s)) == None
  {
    LoggedInExactly(Some(CLIENT_PREFIX + s), s);
    LoggedInExactly(Some(USER_PREFIX + s), s);
    PrincipalsDisjoint(Some(CLIENT_PREFIX + s));
    PrincipalsDisjoint(Some(USER_PREFIX + s));
  }

  /** The identity cookie of one browser or agent session, which
      `Identity::remember` sets and `Identity::forget` clears. */
  class Session {
    var identity: Option<string>

    constructor (identity: Option<string>)
      ensures this.identity == identity
    {
      this.identity := identity;
    }
  }
}

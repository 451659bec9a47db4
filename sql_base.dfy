/** What the server's storage layer shares (securelog-server/src/sql/mod.rs):
    its error type and its random-string generator. */
module SqlBase {

  /** `SqlError`. `TokioPostgres` stands for any error the database itself
      reports (a duplicate primary key, a table that already exists, a
      failed statement); pool errors are not modelled. */
  datatype SqlError =
    | TokioPostgres
    | Bcrypt
    | UserNotExist
    | UserDisabled
    | UserCreateFailed
    | ClientNameExists(name: string)
    | ClientNotExist(id: string)
    | NoSuchSchedule(searchId: int)

  /** Postgres `INT` / Rust `i32`. */
  type Int32 = x: int | -0x8000_0000 <= x < 0x8000_0000

  /** What a server operation comes to when it may panic (an `unwrap`, an
      index into an empty row list, an explicit `panic!`): its value, or
      the panic. A panic aborts the request; nothing after it happens. */
  datatype Outcome<+T> = Done(value: T) | Panicked

  /** The characters of `rand::distributions::Alphanumeric`. */
  predicate IsAlphanumeric(c: char) {
    ('a' <= c <= 'z') || ('A' <= c <= 'Z') || ('0' <= c <= '9')
  }

  /** A string `random_string(len)` can return. */
  predicate IsRandomString(s: string, len: nat) {
    |s| == len && forall i :: 0 <= i < |s| ==> IsAlphanumeric(s[i])
  }

  function Repeat(c: char, n: nat): (s: string)
    ensures |s| == n && forall i :: 0 <= i < n ==> s[i] == c
  {
    if n == 0 then [] else Repeat(c, n - 1) + [c]
  }

  /** `random_string`: the generator's choice is left open; all that is
      modelled is that it returns `len` alphanumeric characters. */
  method RandomString(len: nat) returns (s: string)
    ensures IsRandomString(s, len)
  {
    assert IsRandomString(Repeat('a', len), len);
    s :| IsRandomString(s, len);
  }
}

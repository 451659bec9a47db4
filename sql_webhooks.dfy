/** The `webhooks` table (securelog-server/src/sql/webhooks.rs): the chat
    endpoints a notice goes to, in table order; `name` is its primary
    key. */
module SqlWebhooks {
  import opened Wrappers
  import opened SqlBase
  import opened Seqs

  /** `Webhook`, which is also a stored row's three columns;
      `Webhook::new` is its constructor and `get_name`, `get_url`,
      `get_username` are its field selectors. */
  datatype Webhook = Webhook(name: string, url: string, username: string)

  predicate HasName(rows: seq<Webhook>, name: string) {
    exists i :: 0 <= i < |rows| && rows[i].name == name
  }

  function NameOf(w: Webhook): string {
    w.name
  }

  function NameIsNot(name: string): Webhook -> bool {
    (w: Webhook) => w.name != name
  }

  /** The rows `DELETE ... WHERE name=$1` leaves, in their order. */
  function Without(rows: seq<Webhook>, name: string): seq<Webhook> {
    Filter(rows, NameIsNot(name))
  }

  /** Deleting by name keeps exactly the other rows, in order, and
      removes something iff a row has that name. */
  lemma WithoutKeepsOthers(rows: seq<Webhook>, name: string, w: Webhook)
    ensures w in Without(rows, name) <==> w in rows && w.name != name
    ensures Subsequence(Without(rows, name), rows)
    ensures |Without(rows, name)| < |rows| <==> HasName(rows, name)
  {
    FilterMembers(rows, NameIsNot(name), w);
    FilterSubsequence(rows, NameIsNot(name));
    FilterDropsSome(rows, NameIsNot(name));
  }

  /** Adding a hook under a new name and deleting it by that name gives
      back the table as it was. */
  lemma AddThenDelete(rows: seq<Webhook>, w: Webhook)
    requires !HasName(rows, w.name)
    ensures Without(rows + [w], w.name) == rows
  {
    FilterSnoc(rows, NameIsNot(w.name), w);
    FilterKeepsAll(rows, NameIsNot(w.name));
  }

  class WebhookStore {
    var rows: seq<Webhook>

    /** The primary key: no two rows share a name. */
    ghost predicate Valid()
      reads this
    {
      forall i, j :: 0 <= i < j < |rows| ==> rows[i].name != rows[j].name
    }

    /** The table as `create_db_tables` leaves it. */
    constructor ()
      ensures rows == [] && Valid()
    {
      rows := [];
    }

    /** `add_webhook`: a name already present violates the primary key. */
    method AddWebhook(name: string, url: string, username: string) returns (r: Result<(), SqlError>)
      modifies this
      ensures HasName(old(rows), name) ==> r == Failure(TokioPostgres) && rows == old(rows)
      ensures !HasName(old(rows), name) ==> r == Success(()) && rows == old(rows) + [Webhook(name, url, username)]
      ensures old(Valid()) ==> Valid()
    {
      if HasName(rows, name) {
        return Failure(TokioPostgres);
      }
      rows := rows + [Webhook(name, url, username)];
      r := Success(());
    }

    /** `get_webhooks`: one `Webhook` per row, in table order, fields
        copied. */
    method GetWebhooks() returns (hooks: seq<Webhook>)
      ensures hooks == rows
    {
      hooks := [];
      for i := 0 to |rows|
        invariant hooks == rows[..i]
      {
        var row := rows[i];
        hooks := hooks + [Webhook(row.name, row.url, row.username)];
      }
      assert rows[..|rows|] == rows;
    }

    /** `delete_webhook`: true iff a row was removed. */
    method DeleteWebhook(name: string) returns (removed: bool)
      modifies this
      ensures removed <==> HasName(old(rows), name)
      ensures rows == Without(old(rows), name)
      ensures old(Valid()) ==> Valid()
    {
      var before := |rows|;
      WithoutKeepsOthers(rows, name, Webhook(name, "", ""));
      if Valid() {
        FilterKeyed(rows, NameIsNot(name), NameOf);
      }
      rows := Without(rows, name);
      removed := |rows| < before;
    }
  }
}

/** The replies the server's handlers produce and the agent reads back
    (actix-web `HttpResponse`, `actix_web::Result`, and the JSON bodies
    exchanged between securelog-server/src/web/ and
    securelog-client/src/webclient.rs). */
module Http {
  import opened SqlBase
  import ClientModels
  import ServerModels
  import SqlClient
  import SqlWebhooks

  /** The value of the `should_run` field of the should-run reply. */
  datatype JsonValue = JBool(b: bool) | JString(s: string)

  datatype Body =
    | Empty
    | Text(text: string)
    | ShouldRunJson(shouldRun: JsonValue)                 // `{"should_run": ...}`
    | ClientAuthJson(auth: SqlClient.ClientAuth)          // a new agent's id and token
    | SearchesJson(searches: seq<ClientModels.Search>)
    | ResultsJson(results: seq<ServerModels.SearchResult>)
    | WebhooksJson(hooks: seq<SqlWebhooks.Webhook>)

  /** A reply, or the error a handler propagated with `?` (which actix
      renders as a 500 response). */
  datatype Reply =
    | Ok(body: Body)
    | Found(location: string)
    | Unauthorized(body: Body)
    | InternalServerError(body: Body)
    | Failed(error: HandlerError)

  datatype HandlerError = Sql(sql: SqlError) | BadJson

  datatype Status = Status200 | Status302 | Status401 | Status500

  function StatusOf(r: Reply): Status {
    match r
    case Ok(_) => Status200
    case Found(_) => Status302
    case Unauthorized(_) => Status401
    case InternalServerError(_) => Status500
    case Failed(_) => Status500
  }
}

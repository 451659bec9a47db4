/** The match kind of a search definition. The agent and the server each
    declare this enum (securelog-client/src/models.rs and
    securelog-server/src/models.rs) with the same three variants, and it
    travels between them by variant name in JSON, so it is declared once. */
module SearchKind {

  datatype SearchType = Regex | Contains | Wildcard
}

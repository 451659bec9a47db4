/** The server's value types (securelog-server/src/models.rs): the
    integer codes a search type is stored under, the search definition,
    and the two shapes of a search result. */
module ServerModels {
  import opened Wrappers
  import opened SearchKind
  import ClientModels

  /** The stored codes (securelog-server/src/constants.rs). */
  const SEARCH_REGEX: int := 1
  const SEARCH_CONTAINS: int := 2
  const SEARCH_WILDCARD: int := 3

  /** `SearchType::sql_code`. */
  function SqlCode(t: SearchType): (code: int)
    ensures code == SEARCH_REGEX || code == SEARCH_CONTAINS || code == SEARCH_WILDCARD
  {
    match t
    case Regex => SEARCH_REGEX
    case Contains => SEARCH_CONTAINS
    case Wildcard => SEARCH_WILDCARD
  }

  /** `SearchType::from_sql_code`: defined exactly on the three codes. */
  function FromSqlCode(code: int): (t: Option<SearchType>)
    ensures t.Some? <==> code == SEARCH_REGEX || code == SEARCH_CONTAINS || code == SEARCH_WILDCARD
  {
    if code == SEARCH_REGEX then Some(Regex)
    else if code == SEARCH_CONTAINS then Some(Contains)
    else if code == SEARCH_WILDCARD then Some(Wildcard)
    else None
  }

  /** Decoding a stored code gives back the type it was stored from. */
  lemma FromSqlCodeOfSqlCode(t: SearchType)
    ensures FromSqlCode(SqlCode(t)) == Some(t)
  {
  }

  /** Every code that decodes is the code of what it decodes to. */
  lemma SqlCodeOfFromSqlCode(code: int)
    ensures FromSqlCode(code).Some? ==> SqlCode(FromSqlCode(code).value) == code
  {
  }

  /** Distinct types are stored under distinct codes. */
  lemma SqlCodeInjective(a: SearchType, b: SearchType)
    ensures SqlCode(a) == SqlCode(b) ==> a == b
  {
    FromSqlCodeOfSqlCode(a);
    FromSqlCodeOfSqlCode(b);
  }

  /** The three codes, one per variant. */
  lemma SqlCodeValues()
    ensures SqlCode(Regex) == 1 && SqlCode(Contains) == 2 && SqlCode(Wildcard) == 3
    ensures forall code :: code < 1 || 3 < code ==> FromSqlCode(code) == None
  {
  }

  /** `Search::new`. The server's `Search` has the agent's fields and the
      same JSON form, so the agent's datatype serves both sides. */
  function NewSearch(id: int, name: string, stype: SearchType, search: string, locations: seq<string>): (s: ClientModels.Search)
    ensures s.id == id && s.name == name && s.stype == stype && s.search == search && s.locations == locations
  {
    ClientModels.Search(id, name, stype, search, locations)
  }

  /** A stored result joined with its client's and its search's names. */
  datatype SearchResult = SearchResult(
    clientId: string,
    clientName: string,
    searchId: int,
    searchName: string,
    found: seq<string>,
    location: string,
    started: int)

  /** A result as an agent submits it. */
  datatype ClientSearchResult = ClientSearchResult(
    searchId: int,
    found: seq<string>,
    location: string,
    started: int)

  /** What the server reads from the agent's `SearchResult` JSON: the
      fields it declares (the agent's `search_name` is ignored). */
  function Received(r: ClientModels.SearchResult): (c: ClientSearchResult)
    ensures c.searchId == r.searchId && c.found == r.found && c.location == r.location && c.started == r.started
  {
    ClientSearchResult(r.searchId, r.found, r.location, r.started)
  }
}

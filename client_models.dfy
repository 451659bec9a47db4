/** The agent's view of a search definition and of one run outcome
    (securelog-client/src/models.rs). Timestamps are seconds on the agent's
    clock; `i32` ids are modelled as unbounded integers. */
module ClientModels {
  import opened SearchKind

  /** A search definition as the agent receives it from the server. */
  datatype Search = Search(
    id: int,
    name: string,
    stype: SearchType,
    search: string,       // the pattern
    locations: seq<string>)

  /** The outcome of one search against one location. */
  datatype SearchResult = SearchResult(
    searchId: int,
    searchName: string,
    found: seq<string>,
    location: string,
    started: int)

  /** `SearchResult::new`: an empty result for `location`, stamped with the
      clock reading `now` taken when it is created. */
  function NewSearchResult(id: int, name: string, location: string, now: int): (r: SearchResult)
    ensures r.searchId == id && r.searchName == name && r.location == location
    ensures r.found == []
    ensures r.started == now
  {
    SearchResult(id, name, [], location, now)
  }
}

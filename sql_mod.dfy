/** The server's own tables and their queries (securelog-server/src/sql/mod.rs):
    the schema version in `dbinfo`, the search definitions, the global
    scan schedule and the submitted search results. The agents' table is
    read through `SqlClient` when results are joined with agent names. */
module SqlMod {
  import opened Wrappers
  import opened SearchKind
  import ClientModels
  import opened Seqs
  import opened SqlBase
  import opened ServerModels
  import opened SqlClient

  datatype SearchRow = SearchRow(id: int, name: string, code: Int32, search: string, locations: seq<string>, enabled: bool)

  datatype ScanScheduleRow = ScanScheduleRow(searchId: Int32, schedule: Int32, manual: bool)

  datatype ResultRow = ResultRow(client: string, search: int, location: string, found: seq<string>, started: int)

  /** `ScanSchedule`: the interval in whole seconds, as the
      `std::time::Duration` it holds, and the global manual flag. */
  datatype ScanSchedule = ScanSchedule(dur: nat, manual: bool)

  const U64_MODULUS: int := 0x1_0000_0000_0000_0000

  /** `(schedule as u64) * 60`: a negative `i32` becomes `2^64 + schedule`,
      and the product wraps modulo `2^64` (a release build; a debug build
      panics here instead). */
  function IntervalSeconds(schedule: Int32): (secs: nat)
    ensures secs < U64_MODULUS
    ensures 0 <= schedule ==> secs == schedule * 60
    ensures schedule < 0 ==> secs == U64_MODULUS + schedule * 60
  {
    WrapAround(if schedule < 0 then schedule + U64_MODULUS else schedule, schedule);
    ((if schedule < 0 then schedule + U64_MODULUS else schedule) * 60) % U64_MODULUS
  }

  lemma WrapAround(x: int, schedule: Int32)
    requires x == if schedule < 0 then schedule + U64_MODULUS else schedule
    ensures 0 <= schedule ==> (x * 60) % U64_MODULUS == schedule * 60
    ensures schedule < 0 ==> (x * 60) % U64_MODULUS == U64_MODULUS + schedule * 60
  {
    if schedule < 0 {
      assert x * 60 == 59 * U64_MODULUS + (U64_MODULUS + schedule * 60);
    }
  }

  /** `get_db_version` on the `dbinfo` table (`None` when the table does
      not exist): the first row's version, 0 when there is none. */
  function DbVersion(dbinfo: Option<seq<int>>): (v: int)
    ensures dbinfo.None? || dbinfo == Some([]) ==> v == 0
    ensures dbinfo.Some? && dbinfo.value != [] ==> v == dbinfo.value[0]
  {
    match dbinfo
    case None => 0
    case Some(rows) => if rows == [] then 0 else rows[0]
  }

  /** `get_scan_schedule` on the table `scan_schedule`: the first row for
      search 0, or `NoSuchSchedule(0)`. */
  function GetScanScheduleIn(rows: seq<ScanScheduleRow>): (r: Result<ScanSchedule, SqlError>)
    ensures r.Failure? <==> forall i :: 0 <= i < |rows| ==> rows[i].searchId != 0
    ensures r.Failure? ==> r.error == NoSuchSchedule(0)
    ensures r.Success? ==>
              exists i :: 0 <= i < |rows| && rows[i].searchId == 0 && (forall j :: 0 <= j < i ==> rows[j].searchId != 0) &&
                r.value == ScanSchedule(IntervalSeconds(rows[i].schedule), rows[i].manual)
  {
    if rows == [] then Failure(NoSuchSchedule(0))
    else if rows[0].searchId == 0 then Success(ScanSchedule(IntervalSeconds(rows[0].schedule), rows[0].manual))
    else
      var r := GetScanScheduleIn(rows[1..]);
      assert forall i :: 1 <= i < |rows| ==> rows[i] == rows[1..][i - 1];
      if r.Success? then
        var i :| 0 <= i < |rows[1..]| && rows[1..][i].searchId == 0 && (forall j :: 0 <= j < i ==> rows[1..][j].searchId != 0) &&
                  r.value == ScanSchedule(IntervalSeconds(rows[1..][i].schedule), rows[1..][i].manual);
        assert rows[i + 1] == rows[1..][i];
        r
      else
        r
  }

  /** The schedule a freshly created database holds: every 30 minutes, not
      manual. */
  lemma FreshSchedule()
    ensures GetScanScheduleIn([ScanScheduleRow(0, 30, false)]) == Success(ScanSchedule(1800, false))
  {
  }

  /** After `set_search_schedule_minutes(schedule, manual)` the schedule
      reads back as `schedule` minutes and `manual`, if there is a row for
      search 0 at all. */
  lemma {:induction false} SetScheduleThenGet(rows: seq<ScanScheduleRow>, updated: seq<ScanScheduleRow>, schedule: Int32, manual: bool)
    requires |updated| == |rows|
    requires forall i :: 0 <= i < |rows| ==>
               updated[i] == if rows[i].searchId == 0 then rows[i].(schedule := schedule, manual := manual) else rows[i]
    ensures GetScanScheduleIn(updated) ==
              if GetScanScheduleIn(rows).Success? then Success(ScanSchedule(IntervalSeconds(schedule), manual))
              else Failure(NoSuchSchedule(0))
  {
    if rows != [] && rows[0].searchId != 0 {
      SetScheduleThenGet(rows[1..], updated[1..], schedule, manual);
    }
  }

  /** The first row with id `id` (`LIMIT 1`). */
  function FindSearchRow(rows: seq<SearchRow>, id: int): (r: Option<SearchRow>)
    ensures r.None? <==> forall i :: 0 <= i < |rows| ==> rows[i].id != id
    ensures r.Some? ==> r.value in rows && r.value.id == id
  {
    if rows == [] then None
    else if rows[0].id == id then Some(rows[0])
    else
      var r := FindSearchRow(rows[1..], id);
      assert forall i :: 1 <= i < |rows| ==> rows[i] == rows[1..][i - 1];
      r
  }

  /** `get_search` on the table `searches`: `None` for a missing row and
      for a row whose type code does not decode. */
  function GetSearchIn(rows: seq<SearchRow>, id: int): (r: Option<ClientModels.Search>)
    ensures r.Some? ==> exists row :: row in rows && row.id == id && FromSqlCode(row.code) == Some(r.value.stype) &&
                          r.value == NewSearch(id, row.name, r.value.stype, row.search, row.locations)
    ensures (forall i :: 0 <= i < |rows| ==> rows[i].id != id) ==> r.None?
    ensures (forall i :: 0 <= i < |rows| && rows[i].id == id ==> FromSqlCode(rows[i].code).None?) ==> r.None?
  {
    match FindSearchRow(rows, id)
    case None => None
    case Some(row) =>
      match FromSqlCode(row.code)
      case None => None
      case Some(stype) => Some(NewSearch(id, row.name, stype, row.search, row.locations))
  }

  lemma {:induction false} FindSearchRowAppend(rows: seq<SearchRow>, row: SearchRow)
    requires forall i :: 0 <= i < |rows| ==> rows[i].id != row.id
    ensures FindSearchRow(rows + [row], row.id) == Some(row)
  {
    if rows != [] {
      assert (rows + [row])[1..] == rows[1..] + [row];
      FindSearchRowAppend(rows[1..], row);
    }
  }

  /** A search inserted under a fresh id reads back as inserted: its type
      goes through `sql_code` and `from_sql_code` unchanged. */
  lemma InsertThenGetSearch(rows: seq<SearchRow>, id: int, name: string, stype: SearchType, search: string, locations: seq<string>)
    requires forall i :: 0 <= i < |rows| ==> rows[i].id != id
    ensures GetSearchIn(rows + [SearchRow(id, name, SqlCode(stype), search, locations, true)], id)
              == Some(NewSearch(id, name, stype, search, locations))
  {
    FindSearchRowAppend(rows, SearchRow(id, name, SqlCode(stype), search, locations, true));
    FromSqlCodeOfSqlCode(stype);
  }

  function IdIsNot(id: int): SearchRow -> bool {
    (row: SearchRow) => row.id != id
  }

  function SearchIdOf(row: SearchRow): int {
    row.id
  }

  /** A deleted search is gone. */
  lemma DeleteThenGetSearch(rows: seq<SearchRow>, id: int)
    ensures GetSearchIn(Filter(rows, IdIsNot(id)), id) == None
  {
    var rest := Filter(rows, IdIsNot(id));
    forall i | 0 <= i < |rest|
      ensures rest[i].id != id
    {
      FilterMembers(rows, IdIsNot(id), rest[i]);
    }
  }

  /** What `get_searches` returns for the rows seen so far: the enabled
      ones as searches, or a panic once an enabled row's code does not
      decode (`unwrap`). */
  function EnabledSearches(rows: seq<SearchRow>): Outcome<seq<ClientModels.Search>> {
    if rows == [] then Done([])
    else
      var last := rows[|rows| - 1];
      match EnabledSearches(rows[..|rows| - 1])
      case Panicked => Panicked
      case Done(prev) =>
        if !last.enabled then Done(prev)
        else match FromSqlCode(last.code)
          case None => Panicked
          case Some(stype) => Done(prev + [NewSearch(last.id, last.name, stype, last.search, last.locations)])
  }

  /** The search an enabled row with a decodable code becomes. */
  predicate Lists(row: SearchRow, s: ClientModels.Search) {
    row.enabled && FromSqlCode(row.code) == Some(s.stype) &&
    s == NewSearch(row.id, row.name, s.stype, row.search, row.locations)
  }

  /** `get_searches` panics iff an enabled row has a bad code; otherwise it
      lists exactly the enabled rows. */
  lemma {:induction false} EnabledSearchesExactly(rows: seq<SearchRow>)
    ensures EnabledSearches(rows).Panicked? <==>
              exists i :: 0 <= i < |rows| && rows[i].enabled && FromSqlCode(rows[i].code).None?
    ensures EnabledSearches(rows).Done? ==>
              forall s :: s in EnabledSearches(rows).value <==> exists i :: 0 <= i < |rows| && Lists(rows[i], s)
  {
    if rows != [] {
      var init, last := rows[..|rows| - 1], rows[|rows| - 1];
      EnabledSearchesExactly(init);
      assert forall i :: 0 <= i < |init| ==> init[i] == rows[i];
      if EnabledSearches(rows).Done? {
        var ss := EnabledSearches(rows).value;
        forall s
          ensures s in ss <==> exists i :: 0 <= i < |rows| && Lists(rows[i], s)
        {
          if exists i :: 0 <= i < |rows| && Lists(rows[i], s) {
            var i :| 0 <= i < |rows| && Lists(rows[i], s);
            if i < |init| {
              assert Lists(init[i], s);
            }
          }
        }
      }
    }
  }

  /** `SearchResult` for one stored result, or a panic when its search or
      its agent has no row (`rows[0]` on an empty result). */
  function JoinRow(row: ResultRow, searches: seq<SearchRow>, clients: map<string, ClientRow>): Outcome<SearchResult> {
    match FindSearchRow(searches, row.search)
    case None => Panicked
    case Some(s) =>
      if row.client !in clients then Panicked
      else Done(SearchResult(row.client, clients[row.client].name, row.search, s.name, row.found, row.location, row.started))
  }

  /** What `get_all_search_results` returns for the rows seen so far. */
  function Joined(rows: seq<ResultRow>, searches: seq<SearchRow>, clients: map<string, ClientRow>): Outcome<seq<SearchResult>> {
    if rows == [] then Done([])
    else
      match Joined(rows[..|rows| - 1], searches, clients)
      case Panicked => Panicked
      case Done(prev) =>
        match JoinRow(rows[|rows| - 1], searches, clients)
        case Panicked => Panicked
        case Done(r) => Done(prev + [r])
  }

  /** A stored result whose search or agent has no row. */
  predicate Dangling(row: ResultRow, searches: seq<SearchRow>, clients: map<string, ClientRow>) {
    row.client !in clients || forall i :: 0 <= i < |searches| ==> searches[i].id != row.search
  }

  /** Reading results panics iff some stored result dangles; otherwise
      each result is its row joined with the names, in table order. */
  lemma {:induction false} JoinedExactly(rows: seq<ResultRow>, searches: seq<SearchRow>, clients: map<string, ClientRow>)
    ensures Joined(rows, searches, clients).Panicked? <==> exists i :: 0 <= i < |rows| && Dangling(rows[i], searches, clients)
    ensures Joined(rows, searches, clients).Done? ==>
              var out := Joined(rows, searches, clients).value;
              |out| == |rows| &&
              forall i :: 0 <= i < |rows| ==>
                out[i].clientId == rows[i].client && out[i].clientName == clients[rows[i].client].name &&
                out[i].searchId == rows[i].search && out[i].found == rows[i].found &&
                out[i].location == rows[i].location && out[i].started == rows[i].started &&
                exists j :: 0 <= j < |searches| && searches[j].id == rows[i].search && out[i].searchName == searches[j].name
  {
    if rows != [] {
      var init := rows[..|rows| - 1];
      JoinedExactly(init, searches, clients);
      assert forall i :: 0 <= i < |init| ==> init[i] == rows[i];
      var last := rows[|rows| - 1];
      match FindSearchRow(searches, last.search)
      case None =>
      case Some(s) =>
        assert s in searches;
        var j :| 0 <= j < |searches| && searches[j] == s;
    }
  }

  /** The condition `get_search_results` keeps a result under. The names
      are swapped with respect to their meaning: `before` is a strict
      lower bound on `started` and `after` a strict upper bound. */
  predicate Included(r: SearchResult, clientid: Option<string>, before: Option<int>, after: Option<int>) {
    (clientid.None? || r.clientId == clientid.value) &&
    (before.None? || r.started > before.value) &&
    (after.None? || r.started < after.value)
  }

  function IncludedBy(clientid: Option<string>, before: Option<int>, after: Option<int>): SearchResult -> bool {
    r => Included(r, clientid, before, after)
  }

  /** The filter keeps exactly the results that pass, in order, and
      keeps all of them when no filter is given. */
  lemma FilterResultsExactly(all: seq<SearchResult>, clientid: Option<string>, before: Option<int>, after: Option<int>, x: SearchResult)
    ensures x in Filter(all, IncludedBy(clientid, before, after)) <==> x in all && Included(x, clientid, before, after)
    ensures Subsequence(Filter(all, IncludedBy(clientid, before, after)), all)
    ensures clientid.None? && before.None? && after.None? ==> Filter(all, IncludedBy(clientid, before, after)) == all
  {
    FilterMembers(all, IncludedBy(clientid, before, after), x);
    FilterSubsequence(all, IncludedBy(clientid, before, after));
    if clientid.None? && before.None? && after.None? {
      FilterKeepsAll(all, IncludedBy(clientid, before, after));
    }
  }

  /** A result stamped exactly at a bound is never kept, and `before` can
      only exclude results that start early. */
  lemma BoundsAreStrictAndSwapped(r: SearchResult, t: int)
    ensures !Included(r.(started := t), None, Some(t), None)
    ensures !Included(r.(started := t), None, None, Some(t))
    ensures Included(r.(started := t + 1), None, Some(t), None) && !Included(r.(started := t - 1), None, Some(t), None)
  {
  }

  class Database {
    /** `None` while the table `dbinfo` does not exist. */
    var dbinfo: Option<seq<int>>
    /** Whether any of the other tables `create_db_tables` creates exists. */
    var otherTables: bool
    var searches: seq<SearchRow>
    /** The next value of the `searches.id` sequence. */
    var nextSearchId: int
    var scanSchedule: seq<ScanScheduleRow>
    var results: seq<ResultRow>

    /** Search ids are unique and below the sequence's next value. */
    ghost predicate Valid()
      reads this
    {
      (forall i, j :: 0 <= i < j < |searches| ==> searches[i].id != searches[j].id) &&
      (forall i :: 0 <= i < |searches| ==> searches[i].id < nextSearchId)
    }

    /** A server whose database has no tables yet. */
    constructor ()
      ensures dbinfo == None && !otherTables
      ensures searches == [] && nextSearchId == 1 && scanSchedule == [] && results == []
      ensures Valid()
    {
      dbinfo := None;
      otherTables := false;
      searches := [];
      nextSearchId := 1;
      scanSchedule := [];
      results := [];
    }

    /** `initialize_db`: version 0 creates the tables in one transaction
        (which fails, changing nothing, if one of them exists already),
        version 1 is current, any other version panics. */
    method InitializeDb() returns (r: Outcome<Result<(), SqlError>>)
      modifies this
      ensures DbVersion(old(dbinfo)) == 0 && (old(dbinfo).Some? || old(otherTables)) ==>
                r == Done(Failure(TokioPostgres)) && unchanged(this)
      ensures DbVersion(old(dbinfo)) == 0 && old(dbinfo).None? && !old(otherTables) ==>
                && r == Done(Success(()))
                && dbinfo == Some([1]) && otherTables
                && searches == [] && nextSearchId == 1 && results == []
                && scanSchedule == [ScanScheduleRow(0, 30, false)]
      ensures DbVersion(old(dbinfo)) == 1 ==> r == Done(Success(())) && unchanged(this)
      ensures DbVersion(old(dbinfo)) != 0 && DbVersion(old(dbinfo)) != 1 ==> r == Panicked && unchanged(this)
      ensures r == Done(Success(())) ==> DbVersion(dbinfo) == 1
      ensures old(Valid()) ==> Valid()
    {
      var dbver := DbVersion(dbinfo);
      if dbver == 0 {
        if dbinfo.Some? || otherTables {
          return Done(Failure(TokioPostgres));
        }
        dbinfo := Some([1]);
        otherTables := true;
        searches := [];
        nextSearchId := 1;
        results := [];
        scanSchedule := [ScanScheduleRow(0, 30, false)];
        r := Done(Success(()));
      } else if dbver == 1 {
        r := Done(Success(()));
      } else {
        r := Panicked;
      }
    }

    /** `get_search` */
    function GetSearch(id: int): (r: Option<ClientModels.Search>)
      reads this
      ensures r == GetSearchIn(searches, id)
    {
      GetSearchIn(searches, id)
    }

    /** `get_searches`: the loop over `SELECT * ... WHERE enabled='t'`. */
    method GetSearches() returns (r: Outcome<seq<ClientModels.Search>>)
      ensures r == EnabledSearches(searches)
    {
      var out: seq<ClientModels.Search> := [];
      for i := 0 to |searches|
        invariant EnabledSearches(searches[..i]) == Done(out)
      {
        assert searches[..i + 1][..i] == searches[..i];
        var row := searches[i];
        if row.enabled {
          var stype := FromSqlCode(row.code);
          if stype.None? {
            PanicStays(searches, i + 1);
            return Panicked;
          }
          out := out + [NewSearch(row.id, row.name, stype.value, row.search, row.locations)];
        }
      }
      assert searches[..|searches|] == searches;
      r := Done(out);
    }

    /** `insert_search`: the new row is enabled, stores the type's code,
        and gets the sequence's next id. */
    method InsertSearch(name: string, stype: SearchType, search: string, locations: seq<string>) returns (id: int)
      modifies this
      ensures id == old(nextSearchId) && nextSearchId == id + 1
      ensures searches == old(searches) + [SearchRow(id, name, SqlCode(stype), search, locations, true)]
      ensures dbinfo == old(dbinfo) && otherTables == old(otherTables)
      ensures scanSchedule == old(scanSchedule) && results == old(results)
      ensures old(Valid()) ==> Valid() && GetSearch(id) == Some(NewSearch(id, name, stype, search, locations))
    {
      id := nextSearchId;
      if Valid() {
        InsertThenGetSearch(searches, id, name, stype, search, locations);
      }
      searches := searches + [SearchRow(id, name, SqlCode(stype), search, locations, true)];
      nextSearchId := id + 1;
    }

    /** `delete_search` */
    method DeleteSearch(id: int)
      modifies this
      ensures searches == Filter(old(searches), IdIsNot(id))
      ensures GetSearch(id) == None
      ensures nextSearchId == old(nextSearchId) && dbinfo == old(dbinfo) && otherTables == old(otherTables)
      ensures scanSchedule == old(scanSchedule) && results == old(results)
      ensures old(Valid()) ==> Valid()
    {
      DeleteThenGetSearch(searches, id);
      if Valid() {
        FilterKeyed(searches, IdIsNot(id), SearchIdOf);
        var rest := Filter(searches, IdIsNot(id));
        forall k | 0 <= k < |rest|
          ensures rest[k].id < nextSearchId
        {
          FilterMembers(searches, IdIsNot(id), rest[k]);
          var j :| 0 <= j < |searches| && searches[j] == rest[k];
        }
      }
      searches := Filter(searches, IdIsNot(id));
    }

    /** `insert_client_search_result`; `fault` is the error the database
        reports for this statement, if any. */
    method InsertClientSearchResult(clientid: string, result: ClientSearchResult, fault: Option<SqlError>) returns (r: Result<(), SqlError>)
      modifies this
      ensures fault.Some? ==> r == Failure(fault.value) && results == old(results)
      ensures fault.None? ==>
                r == Success(()) &&
                results == old(results) + [ResultRow(clientid, result.searchId, result.location, result.found, result.started)]
      ensures searches == old(searches) && nextSearchId == old(nextSearchId) && scanSchedule == old(scanSchedule)
      ensures dbinfo == old(dbinfo) && otherTables == old(otherTables)
    {
      if fault.Some? {
        return Failure(fault.value);
      }
      results := results + [ResultRow(clientid, result.searchId, result.location, result.found, result.started)];
      r := Success(());
    }

    /** `get_all_search_results`: each stored result joined with its
        agent's and its search's names, in table order. */
    method GetAllSearchResults(clients: map<string, ClientRow>) returns (r: Outcome<seq<SearchResult>>)
      ensures r == Joined(results, searches, clients)
    {
      var out: seq<SearchResult> := [];
      for i := 0 to |results|
        invariant Joined(results[..i], searches, clients) == Done(out)
      {
        assert results[..i + 1][..i] == results[..i];
        var row := results[i];
        var search := FindSearchRow(searches, row.search);
        if search.None? || row.client !in clients {
          JoinPanicStays(results, searches, clients, i + 1);
          return Panicked;
        }
        out := out + [SearchResult(row.client, clients[row.client].name, row.search, search.value.name, row.found, row.location, row.started)];
      }
      assert results[..|results|] == results;
      r := Done(out);
    }

    /** `get_search_results`: the loop with the mutable `keep` flag. */
    method GetSearchResults(clientid: Option<string>, before: Option<int>, after: Option<int>, clients: map<string, ClientRow>)
      returns (r: Outcome<seq<SearchResult>>)
      ensures r.Panicked? <==> Joined(results, searches, clients).Panicked?
      ensures r.Done? ==> r.value == Filter(Joined(results, searches, clients).value, IncludedBy(clientid, before, after))
    {
      var all := GetAllSearchResults(clients);
      if all.Panicked? {
        return Panicked;
      }
      var out: seq<SearchResult> := [];
      for i := 0 to |all.value|
        invariant out == Filter(all.value[..i], IncludedBy(clientid, before, after))
      {
        var result := all.value[i];
        var keep := true;
        if clientid.Some? && result.clientId != clientid.value {
          keep := false;
        }
        if before.Some? && result.started <= before.value {
          keep := false;
        }
        if after.Some? && result.started >= after.value {
          keep := false;
        }
        assert all.value[..i + 1] == all.value[..i] + [result];
        FilterSnoc(all.value[..i], IncludedBy(clientid, before, after), result);
        if keep {
          out := out + [result];
        }
      }
      assert all.value[..|all.value|] == all.value;
      r := Done(out);
    }

    /** `get_scan_schedule` */
    function GetScanSchedule(): (r: Result<ScanSchedule, SqlError>)
      reads this
      ensures r == GetScanScheduleIn(scanSchedule)
    {
      GetScanScheduleIn(scanSchedule)
    }

    /** `set_search_schedule_minutes`: only the rows for search 0 change. */
    method SetSearchScheduleMinutes(schedule: Int32, manual: bool)
      modifies this
      ensures |scanSchedule| == |old(scanSchedule)|
      ensures forall i :: 0 <= i < |scanSchedule| ==>
                scanSchedule[i] == if old(scanSchedule)[i].searchId == 0 then old(scanSchedule)[i].(schedule := schedule, manual := manual)
                                   else old(scanSchedule)[i]
      ensures GetScanSchedule() ==
                if old(GetScanSchedule()).Success? then Success(ScanSchedule(IntervalSeconds(schedule), manual))
                else Failure(NoSuchSchedule(0))
      ensures searches == old(searches) && nextSearchId == old(nextSearchId) && results == old(results)
      ensures dbinfo == old(dbinfo) && otherTables == old(otherTables)
    {
      var rows := scanSchedule;
      var updated := seq(|rows|, i requires 0 <= i < |rows| =>
        if rows[i].searchId == 0 then rows[i].(schedule := schedule, manual := manual) else rows[i]);
      SetScheduleThenGet(rows, updated, schedule, manual);
      scanSchedule := updated;
    }
  }

  /** Once the rows seen so far panic, more rows do not undo it. */
  lemma {:induction false} PanicStays(rows: seq<SearchRow>, i: nat)
    requires i <= |rows| && EnabledSearches(rows[..i]).Panicked?
    ensures EnabledSearches(rows).Panicked?
    decreases |rows| - i
  {
    if i < |rows| {
      assert rows[..i + 1][..i] == rows[..i];
      PanicStays(rows, i + 1);
    } else {
      assert rows[..i] == rows;
    }
  }

  lemma {:induction false} JoinPanicStays(rows: seq<ResultRow>, searches: seq<SearchRow>, clients: map<string, ClientRow>, i: nat)
    requires i <= |rows| && Joined(rows[..i], searches, clients).Panicked?
    ensures Joined(rows, searches, clients).Panicked?
    decreases |rows| - i
  {
    if i < |rows| {
      assert rows[..i + 1][..i] == rows[..i];
      JoinPanicStays(rows, searches, clients, i + 1);
    } else {
      assert rows[..i] == rows;
    }
  }
}

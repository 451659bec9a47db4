/** The agent's search-execution engine (securelog-client/src/searchrunner.rs).

    The filesystem, the regex engine, the clock and the two web calls are
    parameters: a file is its metadata (or a metadata error) and its
    content (an open error, or the lines read before the end of the file or
    before a failing read); the regex compiler maps a pattern to a
    membership predicate or a compile error; `now`/`clock` are the readings
    `Utc::now()` would return; `send` is the answer of the k-th call to
    `send_search_results`. */
module SearchRunner {
  import opened Wrappers
  import opened SearchKind
  import opened ClientModels
  import opened Matchers
  import opened Seqs

  datatype Metadata = MetadataError | Metadata(readonly: bool)

  /** `readError`: reading failed after `lines` had been read. */
  datatype Content = OpenError | Readable(lines: seq<string>, readError: bool)

  datatype FileEntry = FileEntry(meta: Metadata, content: Content)

  type FileSystem = map<string, FileEntry>

  /** A path that does not exist has neither metadata nor content. */
  function Lookup(fs: FileSystem, path: string): FileEntry {
    if path in fs then fs[path] else FileEntry(MetadataError, OpenError)
  }

  /** `webclient::WebError`: transport, configuration or JSON failure. */
  datatype WebError = Reqwest | Config | Json

  datatype RegexError = RegexError(message: string)

  /** `SearchError`; `InvalidRegex` is the source's `Regex` variant. */
  datatype SearchError =
    | FileReadOnly(path: string)
    | IO
    | Web(webError: WebError)
    | InvalidRegex(regexError: RegexError)

  type RegexCompiler = string -> Result<string -> bool, RegexError>

  /** `check_file_can_read`: only metadata that says read-only fails; a
      location whose metadata cannot be read passes. */
  function CheckFileCanRead(fs: FileSystem, path: string): (r: Result<(), SearchError>)
    ensures r.Failure? <==> Lookup(fs, path).meta == Metadata(true)
    ensures r.Failure? ==> r.error == FileReadOnly(path)
  {
    match Lookup(fs, path).meta
    case Metadata(true) => Failure(FileReadOnly(path))
    case _ => Success(())
  }

  /** What scanning `content` with `m` into the blank result `blank` gives. */
  function ScanOutcome(content: Content, m: LineMatcher, blank: SearchResult): Result<SearchResult, SearchError> {
    match content
    case OpenError => Failure(IO)
    case Readable(lines, readError) =>
      if readError then Failure(IO) else Success(blank.(found := Keep(lines, m)))
  }

  /** Whether the search's pattern yields a matcher: only a regex can
      fail to compile. */
  predicate Compiles(search: Search, compile: RegexCompiler) {
    search.stype == Regex ==> compile(search.search).Success?
  }

  /** The matcher a search's type and pattern select. */
  function MatcherOf(search: Search, compile: RegexCompiler): LineMatcher
    requires Compiles(search, compile)
  {
    match search.stype
    case Contains => ContainsMatcher(search.search)
    case Regex => RegexMatcher(compile(search.search).value)
    case Wildcard => WildcardMatcher(search.search)
  }

  /** What `run_search(path, search)` returns. */
  function SearchOutcome(fs: FileSystem, compile: RegexCompiler, path: string, search: Search, now: int)
    : Result<SearchResult, SearchError>
  {
    if CheckFileCanRead(fs, path).Failure? then Failure(FileReadOnly(path))
    else if !Compiles(search, compile) then Failure(InvalidRegex(compile(search.search).error))
    else ScanOutcome(Lookup(fs, path).content, MatcherOf(search, compile), NewSearchResult(search.id, search.name, path, now))
  }

  /** The line loop shared by the three matchers: appends every matching
      line to `found`, in file order. */
  method CollectMatches(lines: seq<string>, m: LineMatcher) returns (found: seq<string>)
    ensures found == Keep(lines, m)
  {
    found := [];
    var i := 0;
    while i < |lines|
      invariant 0 <= i <= |lines|
      invariant found == Keep(lines[..i], m)
    {
      assert lines[..i + 1][..i] == lines[..i];
      if Matches(m, lines[i]) {
        found := found + [lines[i]];
      }
      i := i + 1;
    }
    assert lines[..i] == lines;
  }

  /** `run_search_contains`: open, create the result, scan. */
  method RunSearchContains(fs: FileSystem, path: string, search: Search, now: int)
    returns (r: Result<SearchResult, SearchError>)
    ensures r == ScanOutcome(Lookup(fs, path).content, ContainsMatcher(search.search),
                             NewSearchResult(search.id, search.name, path, now))
  {
    var content := Lookup(fs, path).content;
    if content.OpenError? {
      return Failure(IO);
    }
    var result := NewSearchResult(search.id, search.name, path, now);
    var found := CollectMatches(content.lines, ContainsMatcher(search.search));
    if content.readError {
      return Failure(IO);
    }
    r := Success(result.(found := found));
  }

  /** `run_search_regex`: compile first (a compile error is returned before
      the file is opened), then create the result, open and scan. */
  method RunSearchRegex(fs: FileSystem, compile: RegexCompiler, path: string, search: Search, now: int)
    returns (r: Result<SearchResult, SearchError>)
    ensures compile(search.search).Failure? ==> r == Failure(InvalidRegex(compile(search.search).error))
    ensures compile(search.search).Success? ==>
      r == ScanOutcome(Lookup(fs, path).content, RegexMatcher(compile(search.search).value),
                       NewSearchResult(search.id, search.name, path, now))
  {
    var rgx := compile(search.search);
    if rgx.Failure? {
      return Failure(InvalidRegex(rgx.error));
    }
    var result := NewSearchResult(search.id, search.name, path, now);
    var content := Lookup(fs, path).content;
    if content.OpenError? {
      return Failure(IO);
    }
    var found := CollectMatches(content.lines, RegexMatcher(rgx.value));
    if content.readError {
      return Failure(IO);
    }
    r := Success(result.(found := found));
  }

  /** `run_search_wildcard`: build the glob, create the result, open, scan. */
  method RunSearchWildcard(fs: FileSystem, path: string, search: Search, now: int)
    returns (r: Result<SearchResult, SearchError>)
    ensures r == ScanOutcome(Lookup(fs, path).content, WildcardMatcher(search.search),
                             NewSearchResult(search.id, search.name, path, now))
  {
    var result := NewSearchResult(search.id, search.name, path, now);
    var content := Lookup(fs, path).content;
    if content.OpenError? {
      return Failure(IO);
    }
    var found := CollectMatches(content.lines, WildcardMatcher(search.search));
    if content.readError {
      return Failure(IO);
    }
    r := Success(result.(found := found));
  }

  /** `run_search`: the read-only check, then exactly one matcher chosen by
      the search's type. */
  method RunSearch(fs: FileSystem, compile: RegexCompiler, path: string, search: Search, now: int)
    returns (r: Result<SearchResult, SearchError>)
    ensures r == SearchOutcome(fs, compile, path, search, now)
  {
    var check := CheckFileCanRead(fs, path);
    if check.Failure? {
      return Failure(check.error);
    }
    match search.stype
    case Contains => r := RunSearchContains(fs, path, search, now);
    case Regex => r := RunSearchRegex(fs, compile, path, search, now);
    case Wildcard => r := RunSearchWildcard(fs, path, search, now);
  }

  /** A read-only location fails with FileReadOnly whatever its content. */
  lemma ReadOnlyLocationFails(fs: FileSystem, compile: RegexCompiler, path: string, search: Search, now: int)
    requires Lookup(fs, path).meta == Metadata(true)
    ensures SearchOutcome(fs, compile, path, search, now) == Failure(FileReadOnly(path))
  {
  }

  /** A regex that does not compile fails the pair whatever the file holds:
      the file is never opened. */
  lemma RegexErrorBeforeOpen(fs: FileSystem, fs': FileSystem, compile: RegexCompiler, path: string,
                             search: Search, now: int)
    requires search.stype == Regex && compile(search.search).Failure?
    requires CheckFileCanRead(fs, path) == CheckFileCanRead(fs', path)
    ensures SearchOutcome(fs, compile, path, search, now) == SearchOutcome(fs', compile, path, search, now)
    ensures SearchOutcome(fs, compile, path, search, now).Failure?
  {
  }

  /** A successful result carries the search's id and name, the given path
      as its location, the clock reading taken before the scan, and exactly
      the matching lines of the file, verbatim and in file order. */
  lemma SuccessfulResult(fs: FileSystem, compile: RegexCompiler, path: string, search: Search, now: int)
    requires SearchOutcome(fs, compile, path, search, now).Success?
    ensures var r := SearchOutcome(fs, compile, path, search, now).value;
      && r.searchId == search.id && r.searchName == search.name
      && r.location == path && r.started == now
      && Lookup(fs, path).meta != Metadata(true)
      && Lookup(fs, path).content.Readable?
      && !Lookup(fs, path).content.readError
      && Subsequence(r.found, Lookup(fs, path).content.lines)
      && (forall x :: x in r.found ==> x in Lookup(fs, path).content.lines)
      && Compiles(search, compile)
      && (forall x :: x in r.found <==> x in Lookup(fs, path).content.lines && Matches(MatcherOf(search, compile), x))
  {
    var lines := Lookup(fs, path).content.lines;
    var m := MatcherOf(search, compile);
    KeepInFileOrder(lines, m);
    forall x
      ensures x in Keep(lines, m) <==> x in lines && Matches(m, x)
    {
      KeepExactly(lines, m, x);
    }
  }

  /** The identifying fields of a successful result. */
  lemma SuccessIdentity(fs: FileSystem, compile: RegexCompiler, path: string, search: Search, now: int)
    requires SearchOutcome(fs, compile, path, search, now).Success?
    ensures var r := SearchOutcome(fs, compile, path, search, now).value;
      r.searchId == search.id && r.searchName == search.name && r.location == path && r.started == now
  {
  }

  /** A location whose metadata cannot be read passes the read-only check
      and is then decided by opening it. */
  lemma MetadataErrorPassesCheck(fs: FileSystem, compile: RegexCompiler, path: string, search: Search, now: int)
    requires Lookup(fs, path).meta == MetadataError
    requires search.stype != Regex
    ensures SearchOutcome(fs, compile, path, search, now).Failure? <==>
      (Lookup(fs, path).content.OpenError? || Lookup(fs, path).content.readError)
  {
  }

  // ---------------------------------------------------------------------
  // run_once

  /** `clock(i, j)`: the reading taken when the result for location `j` of
      search `i` is created. */
  type Clock = (nat, nat) -> int

  /** `send(k)`: what the k-th call of `send_search_results` returns. */
  type SendOracle = nat -> Result<bool, WebError>

  /** The successful results of the first `n` locations of `search`
      (the `i`-th search of the run), in location order. */
  function Batch(fs: FileSystem, compile: RegexCompiler, search: Search, i: nat, clock: Clock, n: nat)
    : seq<SearchResult>
    requires n <= |search.locations|
  {
    if n == 0 then []
    else
      Batch(fs, compile, search, i, clock, n - 1) +
      match SearchOutcome(fs, compile, search.locations[n - 1], search, clock(i, n - 1))
      case Success(r) => [r]
      case Failure(_) => []
  }

  function FullBatch(fs: FileSystem, compile: RegexCompiler, search: Search, i: nat, clock: Clock): seq<SearchResult> {
    Batch(fs, compile, search, i, clock, |search.locations|)
  }

  /** The sends made so far, and the transport error that aborted the run. */
  datatype RunState = RunState(sent: seq<seq<SearchResult>>, aborted: Option<WebError>)

  /** The state of `run_once` after its first `n` searches. */
  function RunPrefix(fs: FileSystem, compile: RegexCompiler, clock: Clock, send: SendOracle,
                     searches: seq<Search>, n: nat): RunState
    requires n <= |searches|
  {
    if n == 0 then RunState([], None)
    else
      var prev := RunPrefix(fs, compile, clock, send, searches, n - 1);
      if prev.aborted.Some? then prev
      else
        var batch := FullBatch(fs, compile, searches[n - 1], n - 1, clock);
        if batch == [] then prev
        else
          match send(|prev.sent|)
          case Failure(e) => RunState(prev.sent + [batch], Some(e))
          case Success(_) => RunState(prev.sent + [batch], None)
  }

  /** Once aborted, later searches change nothing. */
  lemma {:induction false} AbortedStays(fs: FileSystem, compile: RegexCompiler, clock: Clock, send: SendOracle,
                                        searches: seq<Search>, i: nat, n: nat)
    requires i <= n <= |searches|
    requires RunPrefix(fs, compile, clock, send, searches, i).aborted.Some?
    ensures RunPrefix(fs, compile, clock, send, searches, n) == RunPrefix(fs, compile, clock, send, searches, i)
    decreases n - i
  {
    if i < n {
      AbortedStays(fs, compile, clock, send, searches, i, n - 1);
    }
  }

  /** What a call of `run_once` returns, with the batches it sent. */
  datatype RunReport = RunReport(outcome: Result<(), SearchError>, sent: seq<seq<SearchResult>>)

  function RunOnceSpec(fetched: Result<seq<Search>, WebError>, fs: FileSystem, compile: RegexCompiler,
                       clock: Clock, send: SendOracle): RunReport
  {
    match fetched
    case Failure(e) => RunReport(Failure(Web(e)), [])
    case Success(searches) =>
      var st := RunPrefix(fs, compile, clock, send, searches, |searches|);
      RunReport(if st.aborted.Some? then Failure(Web(st.aborted.value)) else Success(()), st.sent)
  }

  /** The inner loop of `run_once`: every location of the `i`-th search
      in order, keeping the successful results. */
  method RunLocations(fs: FileSystem, compile: RegexCompiler, search: Search, i: nat, clock: Clock)
    returns (results: seq<SearchResult>)
    ensures results == FullBatch(fs, compile, search, i, clock)
  {
    results := [];
    for j := 0 to |search.locations|
      invariant results == Batch(fs, compile, search, i, clock, j)
    {
      var r := RunSearch(fs, compile, search.locations[j], search, clock(i, j));
      if r.Success? {
        results := results + [r.value];
      }
    }
  }

  /** `run_once`: fetch the searches, run every (search, location) pair,
      keep the successes, and send one batch per search that has any. */
  method RunOnce(fetched: Result<seq<Search>, WebError>, fs: FileSystem, compile: RegexCompiler,
                 clock: Clock, send: SendOracle)
    returns (outcome: Result<(), SearchError>, sent: seq<seq<SearchResult>>)
    ensures fetched.Failure? ==> outcome == Failure(Web(fetched.error)) && sent == []
    ensures fetched.Success? ==>
      var st := RunPrefix(fs, compile, clock, send, fetched.value, |fetched.value|);
      && sent == st.sent
      && outcome == (if st.aborted.Some? then Failure(Web(st.aborted.value)) else Success(()))
    ensures RunReport(outcome, sent) == RunOnceSpec(fetched, fs, compile, clock, send)
  {
    if fetched.Failure? {
      return Failure(Web(fetched.error)), [];
    }
    var searches := fetched.value;
    sent := [];
    var i := 0;
    while i < |searches|
      invariant 0 <= i <= |searches|
      invariant RunPrefix(fs, compile, clock, send, searches, i) == RunState(sent, None)
    {
      var results := RunLocations(fs, compile, searches[i], i, clock);
      if results != [] {
        var answer := send(|sent|);
        sent := sent + [results];
        if answer.Failure? {
          AbortedStays(fs, compile, clock, send, searches, i + 1, |searches|);
          return Failure(Web(answer.error)), sent;
        }
      }
      i := i + 1;
    }
    outcome := Success(());
  }

  // ---------------------------------------------------------------------
  // Properties of one search's batch

  /** A batch is empty iff every one of its locations failed: a location
      that succeeds counts even when it found nothing. A search without
      locations has an empty batch. */
  lemma {:induction false} BatchEmptyIffAllFail(fs: FileSystem, compile: RegexCompiler, search: Search,
                                                i: nat, clock: Clock, n: nat)
    requires n <= |search.locations|
    ensures Batch(fs, compile, search, i, clock, n) == [] <==>
      forall j :: 0 <= j < n ==> SearchOutcome(fs, compile, search.locations[j], search, clock(i, j)).Failure?
  {
    if n > 0 {
      BatchEmptyIffAllFail(fs, compile, search, i, clock, n - 1);
    }
  }

  /** Every result of a batch belongs to the search and names one of the
      search's own locations. */
  lemma {:induction false} BatchBelongsToSearch(fs: FileSystem, compile: RegexCompiler, search: Search,
                                                i: nat, clock: Clock, n: nat)
    requires n <= |search.locations|
    ensures forall r :: r in Batch(fs, compile, search, i, clock, n) ==>
      r.searchId == search.id && r.searchName == search.name && r.location in search.locations[..n]
  {
    if n > 0 {
      BatchBelongsToSearch(fs, compile, search, i, clock, n - 1);
      var out := SearchOutcome(fs, compile, search.locations[n - 1], search, clock(i, n - 1));
      if out.Success? {
        SuccessIdentity(fs, compile, search.locations[n - 1], search, clock(i, n - 1));
      }
      assert search.locations[..n] == search.locations[..n - 1] + [search.locations[n - 1]];
    }
  }

  function LocationsOf(results: seq<SearchResult>): (locs: seq<string>)
    ensures |locs| == |results|
    ensures forall k :: 0 <= k < |results| ==> locs[k] == results[k].location
  {
    if results == [] then [] else LocationsOf(results[..|results| - 1]) + [results[|results| - 1].location]
  }

  /** Results keep the order of the search's locations: failed locations
      are skipped, nothing is reordered. */
  lemma {:induction false} BatchInLocationOrder(fs: FileSystem, compile: RegexCompiler, search: Search,
                                                i: nat, clock: Clock, n: nat)
    requires n <= |search.locations|
    ensures Subsequence(LocationsOf(Batch(fs, compile, search, i, clock, n)), search.locations[..n])
  {
    if n > 0 {
      var prev := Batch(fs, compile, search, i, clock, n - 1);
      var locs := search.locations[..n - 1];
      BatchInLocationOrder(fs, compile, search, i, clock, n - 1);
      var loc := search.locations[n - 1];
      assert search.locations[..n] == locs + [loc];
      var out := SearchOutcome(fs, compile, loc, search, clock(i, n - 1));
      if out.Success? {
        SuccessIdentity(fs, compile, loc, search, clock(i, n - 1));
        assert Batch(fs, compile, search, i, clock, n) == prev + [out.value];
        LocationsOfSnoc(prev, out.value);
        SubsequenceSnoc(LocationsOf(prev), locs, loc);
      } else {
        assert Batch(fs, compile, search, i, clock, n) == prev;
        SubsequenceExtend(LocationsOf(prev), locs, loc);
      }
    }
  }

  lemma LocationsOfSnoc(results: seq<SearchResult>, r: SearchResult)
    ensures LocationsOf(results + [r]) == LocationsOf(results) + [r.location]
  {
    assert (results + [r])[..|results|] == results;
  }

  /** The all-clear case: a writable, readable location in which no line
      matches still yields a result with no lines, so the search's batch
      is not empty and is sent. */
  lemma AllClearLocationIsReported(fs: FileSystem, compile: RegexCompiler, search: Search,
                                   i: nat, clock: Clock, j: nat)
    requires j < |search.locations|
    requires Compiles(search, compile)
    requires Lookup(fs, search.locations[j]).meta != Metadata(true)
    requires Lookup(fs, search.locations[j]).content.Readable?
    requires !Lookup(fs, search.locations[j]).content.readError
    requires forall x :: x in Lookup(fs, search.locations[j]).content.lines ==> !Matches(MatcherOf(search, compile), x)
    ensures FullBatch(fs, compile, search, i, clock) != []
    ensures exists r :: r in FullBatch(fs, compile, search, i, clock) &&
                        r.location == search.locations[j] && r.found == []
  {
    var loc := search.locations[j];
    var out := SearchOutcome(fs, compile, loc, search, clock(i, j));
    SuccessfulResult(fs, compile, loc, search, clock(i, j));
    NothingFoundIsEmpty(out.value.found, Lookup(fs, loc).content.lines, MatcherOf(search, compile));
    BatchContainsSuccess(fs, compile, search, i, clock, j, |search.locations|);
    assert out.value in FullBatch(fs, compile, search, i, clock) && out.value.location == loc;
  }

  lemma NothingFoundIsEmpty(found: seq<string>, lines: seq<string>, m: LineMatcher)
    requires forall x :: x in found <==> x in lines && Matches(m, x)
    requires forall x :: x in lines ==> !Matches(m, x)
    ensures found == []
  {
    if found != [] {
      HeadIsMember(found);
      assert false;
    }
  }

  lemma HeadIsMember(s: seq<string>)
    requires s != []
    ensures s[0] in s
  {
  }

  /** The result of a successful location is in every batch that covers it. */
  lemma {:induction false} BatchContainsSuccess(fs: FileSystem, compile: RegexCompiler, search: Search,
                                                i: nat, clock: Clock, j: nat, n: nat)
    requires j < n <= |search.locations|
    requires SearchOutcome(fs, compile, search.locations[j], search, clock(i, j)).Success?
    ensures SearchOutcome(fs, compile, search.locations[j], search, clock(i, j)).value
            in Batch(fs, compile, search, i, clock, n)
  {
    if j < n - 1 {
      BatchContainsSuccess(fs, compile, search, i, clock, j, n - 1);
    }
  }

  /** A regex that does not compile silences its whole search, and only it. */
  lemma RegexErrorSilencesSearch(fs: FileSystem, compile: RegexCompiler, search: Search, i: nat, clock: Clock)
    requires search.stype == Regex && compile(search.search).Failure?
    ensures FullBatch(fs, compile, search, i, clock) == []
  {
    BatchEmptyIffAllFail(fs, compile, search, i, clock, |search.locations|);
  }

  // ---------------------------------------------------------------------
  // Properties of a whole run

  /** The non-empty batches of the first `n` searches, in search order. */
  function NonEmptyBatches(fs: FileSystem, compile: RegexCompiler, clock: Clock, searches: seq<Search>, n: nat)
    : seq<seq<SearchResult>>
    requires n <= |searches|
  {
    if n == 0 then []
    else
      var b := FullBatch(fs, compile, searches[n - 1], n - 1, clock);
      NonEmptyBatches(fs, compile, clock, searches, n - 1) + (if b == [] then [] else [b])
  }

  /** What a run sends: the non-empty batches in search order (all of them
      unless a send failed, a prefix of them if one did), each send after
      the first failing one skipped; the run aborts exactly at a send that
      returned a transport error. */
  lemma {:induction false} RunSendsNonEmptyBatches(fs: FileSystem, compile: RegexCompiler, clock: Clock,
                                                   send: SendOracle, searches: seq<Search>, n: nat)
    requires n <= |searches|
    ensures var st := RunPrefix(fs, compile, clock, send, searches, n);
      && st.sent <= NonEmptyBatches(fs, compile, clock, searches, n)
      && (forall k :: 0 <= k < |st.sent| ==> st.sent[k] != [])
      && (st.aborted.None? ==>
            st.sent == NonEmptyBatches(fs, compile, clock, searches, n) &&
            forall k :: 0 <= k < |st.sent| ==> send(k).Success?)
      && (st.aborted.Some? ==>
            |st.sent| > 0 && send(|st.sent| - 1) == Failure(st.aborted.value) &&
            forall k :: 0 <= k < |st.sent| - 1 ==> send(k).Success?)
  {
    if n > 0 {
      RunSendsNonEmptyBatches(fs, compile, clock, send, searches, n - 1);
    }
  }
}

/** The agent's driver (securelog-client/src/main.rs): the startup login,
    the poll loop, and two small helpers; plus the agent's reading of the
    should-run reply (securelog-client/src/webclient.rs). The 60-second
    sleep is an event; each pass of the infinite loop is one `Iteration`
    record holding what the server and the filesystem answer in it. */
module ClientMain {
  import opened Wrappers
  import opened ClientModels
  import opened SearchRunner
  import opened Http

  /** `config_missing`: true iff one of the four keys the agent needs
      (the fields `server`, `name`, `id`, `token` written by its init
      script) is absent. */
  function ConfigMissing(config: map<string, string>): (missing: bool)
    ensures missing <==> !("server" in config && "name" in config && "id" in config && "token" in config)
  {
    if "server" !in config then true
    else if "name" !in config then true
    else if "id" !in config then true
    else if "token" !in config then true
    else false
  }

  /** `prompt_user_input`'s trimming of the line read from stdin: pop one
      trailing `'\r'` if there is one, then one trailing `'\n'` if there
      is one. */
  method TrimLineEnding(line: string) returns (input: string)
    ensures input <= line && |line| - 2 <= |input|
    ensures |line| > 0 && line[|line| - 1] == '\n' ==> input == line[..|line| - 1]
    ensures |line| > 0 && line[|line| - 1] != '\n' && line[|line| - 1] != '\r' ==> input == line
    ensures |line| > 1 && line[|line| - 2..] == "\n\r" ==> input == line[..|line| - 2]
    ensures |line| > 0 && line[|line| - 1] == '\r' && !(|line| > 1 && line[|line| - 2] == '\n') ==>
              input == line[..|line| - 1]
  {
    input := line;
    if |input| > 0 && input[|input| - 1] == '\r' {
      input := input[..|input| - 1];
    }
    if |input| > 0 && input[|input| - 1] == '\n' {
      input := input[..|input| - 1];
    }
  }

  /** `get_should_run` as the agent decodes the server's reply: 500, 401
      and unexpected statuses read as "do not run"; a 200 reply must carry
      a JSON boolean, anything else is a JSON error. */
  function DecodeShouldRun(reply: Result<Reply, WebError>): (r: Result<bool, WebError>)
    ensures (reply.Success? && reply.value.Ok? && reply.value.body.ShouldRunJson? &&
             reply.value.body.shouldRun.JBool?) ==> r == Success(reply.value.body.shouldRun.b)
    ensures reply.Success? && StatusOf(reply.value) != Status200 ==> r == Success(false)
    ensures (reply.Success? && StatusOf(reply.value) == Status200 &&
             !(reply.value.Ok? && reply.value.body.ShouldRunJson? && reply.value.body.shouldRun.JBool?)) ==>
              r == Failure(Json)
    ensures reply.Failure? ==> r == Failure(reply.error)
    ensures r == Success(true) ==> reply == Success(Ok(ShouldRunJson(JBool(true))))
  {
    match reply
    case Failure(e) => Failure(e)
    case Success(rep) =>
      match StatusOf(rep)
      case Status500 => Success(false)
      case Status401 => Success(false)
      case Status200 =>
        (if rep.Ok? && rep.body.ShouldRunJson? && rep.body.shouldRun.JBool? then Success(rep.body.shouldRun.b)
         else Failure(Json))
      case _ => Success(false)
  }

  /** What one pass of the loop meets: the should-run answer, the
      notify-running answer, and the environment of `run_once`. */
  datatype Iteration = Iteration(
    shouldRun: Result<bool, WebError>,
    notify: Result<(), WebError>,
    fetched: Result<seq<Search>, WebError>,
    fs: FileSystem,
    compile: RegexCompiler,
    clock: Clock,
    send: SendOracle)

  datatype Event = AskShouldRun | Notify | RunSearches(report: RunReport) | Sleep | Panic

  /** The events of one pass: searches run only when the answer is
      `Ok(true)` (an error counts as false), notify comes first and panics
      on error, a failed run is only logged. */
  function IterationEvents(it: Iteration): seq<Event> {
    [AskShouldRun] +
    if it.shouldRun.UnwrapOr(false) then
      [Notify] +
      if it.notify.Failure? then [Panic]
      else [RunSearches(RunOnceSpec(it.fetched, it.fs, it.compile, it.clock, it.send)), Sleep]
    else [Sleep]
  }

  predicate Halted(trace: seq<Event>) {
    trace != [] && trace[|trace| - 1] == Panic
  }

  /** The events of the first `|its|` passes; a panic ends the process. */
  function LoopTrace(its: seq<Iteration>): seq<Event> {
    if its == [] then []
    else
      var prev := LoopTrace(its[..|its| - 1]);
      if Halted(prev) then prev else prev + IterationEvents(its[|its| - 1])
  }

  /** The whole process: a login that errs or is refused panics before
      the loop. */
  function AgentTrace(login: Result<bool, WebError>, its: seq<Iteration>): seq<Event> {
    if login != Success(true) then [Panic] else LoopTrace(its)
  }

  lemma {:induction false} HaltedStays(its: seq<Iteration>, i: nat)
    requires i <= |its|
    requires Halted(LoopTrace(its[..i]))
    ensures LoopTrace(its) == LoopTrace(its[..i])
    decreases |its| - i
  {
    if i < |its| {
      assert its[..|its| - 1][..i] == its[..i];
      HaltedStays(its[..|its| - 1], i);
    } else {
      assert its[..i] == its;
    }
  }

  /** One pass of the loop body (main.rs, lines 65-74). */
  method RunIteration(it: Iteration) returns (events: seq<Event>)
    ensures events == IterationEvents(it)
  {
    events := [AskShouldRun];
    if it.shouldRun.UnwrapOr(false) {
      events := events + [Notify];
      if it.notify.Failure? {
        return events + [Panic];
      }
      var outcome, sent := RunOnce(it.fetched, it.fs, it.compile, it.clock, it.send);
      events := events + [RunSearches(RunReport(outcome, sent))];
    }
    events := events + [Sleep];
  }

  /** `main` from the login on: the poll loop over the given passes. */
  method RunAgent(login: Result<bool, WebError>, its: seq<Iteration>) returns (trace: seq<Event>)
    ensures trace == AgentTrace(login, its)
  {
    if login.Failure? || !login.value {
      return [Panic];
    }
    trace := [];
    var i := 0;
    while i < |its|
      invariant 0 <= i <= |its|
      invariant trace == LoopTrace(its[..i])
      invariant !Halted(trace)
    {
      assert its[..i + 1][..i] == its[..i];
      var events := RunIteration(its[i]);
      trace := trace + events;
      assert trace == LoopTrace(its[..i + 1]);
      if Halted(trace) {
        HaltedStays(its, i + 1);
        return;
      }
      i := i + 1;
    }
    assert its[..i] == its;
  }

  /** Within one pass: notify happens iff the answer is `Ok(true)` (an
      `Err` counts as false), the searches run iff that notify succeeded,
      and a failed notify is the only way a pass panics. */
  lemma PassRunsOnlyOnTrue(it: Iteration)
    ensures Notify in IterationEvents(it) <==> it.shouldRun == Success(true)
    ensures (exists e :: e in IterationEvents(it) && e.RunSearches?) <==>
              it.shouldRun == Success(true) && it.notify.Success?
    ensures Panic in IterationEvents(it) <==> it.shouldRun == Success(true) && it.notify.Failure?
  {
    var ev := IterationEvents(it);
    if it.shouldRun == Success(true) && it.notify.Success? {
      assert ev[2].RunSearches?;
    }
  }

  /** All passes' events, one after the other. */
  function AllPasses(its: seq<Iteration>): seq<Event> {
    if its == [] then [] else AllPasses(its[..|its| - 1]) + IterationEvents(its[|its| - 1])
  }

  /** A failed `run_once` never stops the loop: as long as no notify
      fails, every pass happens, whatever its searches returned. */
  lemma {:induction false} RunErrorsDoNotStopLoop(its: seq<Iteration>)
    requires forall k :: 0 <= k < |its| ==> its[k].shouldRun != Success(true) || its[k].notify.Success?
    ensures LoopTrace(its) == AllPasses(its)
    ensures !Halted(LoopTrace(its))
  {
    if its != [] {
      var init := its[..|its| - 1];
      RunErrorsDoNotStopLoop(init);
      var ev := IterationEvents(its[|its| - 1]);
      assert ev[|ev| - 1] == Sleep;
    }
  }

  /** The three shapes a pass can take. */
  lemma PassShapes(it: Iteration)
    ensures var ev := IterationEvents(it);
      || ev == [AskShouldRun, Sleep]
      || ev == [AskShouldRun, Notify, Panic]
      || (|ev| == 4 && ev[0] == AskShouldRun && ev[1] == Notify && ev[2].RunSearches? && ev[3] == Sleep)
  {
  }

  /** Every run of the searches is immediately preceded by a notify,
      which follows a should-run question. */
  predicate NotifiedBeforeRun(t: seq<Event>) {
    forall k :: 0 <= k < |t| && t[k].RunSearches? ==> 2 <= k && t[k - 1] == Notify && t[k - 2] == AskShouldRun
  }

  lemma {:induction false} NotifyBeforeRun(its: seq<Iteration>)
    ensures NotifiedBeforeRun(LoopTrace(its))
  {
    if its != [] {
      var prev := LoopTrace(its[..|its| - 1]);
      NotifyBeforeRun(its[..|its| - 1]);
      if !Halted(prev) {
        var ev := IterationEvents(its[|its| - 1]);
        PassShapes(its[|its| - 1]);
        var t := prev + ev;
        assert LoopTrace(its) == t;
        forall k | 0 <= k < |t| && t[k].RunSearches?
          ensures 2 <= k && t[k - 1] == Notify && t[k - 2] == AskShouldRun
        {
          if k >= |prev| {
            var j := k - |prev|;
            assert ev[j] == t[k];
            assert j == 2;
            assert t[k - 1] == ev[1] && t[k - 2] == ev[0];
          } else {
            assert prev[k] == t[k];
            assert 2 <= k && prev[k - 1] == Notify && prev[k - 2] == AskShouldRun;
            assert t[k - 1] == prev[k - 1] && t[k - 2] == prev[k - 2];
          }
        }
      }
    }
  }

  /** A panic ends the process: nothing follows it. */
  lemma PanicIsLast(login: Result<bool, WebError>, its: seq<Iteration>)
    ensures var t := AgentTrace(login, its);
      forall k :: 0 <= k < |t| - 1 ==> t[k] != Panic
  {
    if login == Success(true) {
      assert AgentTrace(login, its) == LoopTrace(its);
      PanicIsLastInLoop(its);
    }
  }

  lemma {:induction false} PanicIsLastInLoop(its: seq<Iteration>)
    ensures forall k :: 0 <= k < |LoopTrace(its)| && LoopTrace(its)[k] == Panic ==> k == |LoopTrace(its)| - 1
  {
    if its != [] {
      var prev := LoopTrace(its[..|its| - 1]);
      PanicIsLastInLoop(its[..|its| - 1]);
      if !Halted(prev) {
        var ev := IterationEvents(its[|its| - 1]);
        PassShapes(its[|its| - 1]);
        var t := prev + ev;
        assert LoopTrace(its) == t;
        forall k | 0 <= k < |t| - 1
          ensures t[k] != Panic
        {
          if k >= |prev| {
            var j := k - |prev|;
            assert j < |ev| - 1;
            assert t[k] == ev[j];
            assert ev[j] != Panic;
          } else if k < |prev| - 1 {
            assert t[k] == prev[k];
            assert prev[k] != Panic;
          } else {
            assert t[k] == prev[|prev| - 1];
            assert prev[|prev| - 1] != Panic;
          }
        }
      }
    }
  }
}

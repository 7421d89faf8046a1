/**
 * One run of the script from its arguments to what it prints, with the
 * Honeycomb API as a set of answers given in advance. The process side
 * effects (environment, console, exit) become data: the API key is a
 * parameter, the printed output and the failure are the result, and the exit
 * code is a function of it.
 */
module Cli {
  import opened Wrappers
  import opened JsNumber
  import opened Json
  import opened Api
  import opened Args
  import opened Poll
  import opened Report

  /**
   * How the API answers each request of a run: creating the query (which sees
   * the trace id and the time window), creating the query result, each poll
   * fetch by attempt number, and `/1/auth`.
   */
  datatype Backend = Backend(
    createQuery: (string, QueryWindow) -> Answer,
    createResult: Answer,
    fetchResult: nat -> Answer,
    auth: Answer)

  /** The poll fetches as the poll loop sees them, through `request`. */
  function Fetches(api: Backend): Server {
    (j: nat) => Request(api.fetchResult(j))
  }

  datatype RunError =
    | Usage(reason: ArgError)      // argument errors, reported with the usage text
    | MissingApiKey                // `HONEYCOMB_API_KEY` unset or empty
    | Failed(failure: Failure)     // anything thrown inside the main `try`

  /** What a run prints or fails with, and how many API requests it made. */
  datatype RunResult = RunResult(outcome: Result<Output, RunError>, requests: nat)

  /**
   * The largest magnitude, in seconds, of a time that `new Date(t * 1000)`
   * accepts: 8.64e15 milliseconds (section 21.4.1.31 of ECMA-262, TimeClip).
   */
  const MaxDateSeconds: int := 8_640_000_000_000

  /**
   * The progress line can be printed: a relative window, or absolute bounds
   * that both lie within the range of `Date`, since `toISOString` throws a
   * `RangeError` on an invalid date.
   */
  predicate Printable(w: QueryWindow) {
    w.Relative? || (-MaxDateSeconds <= w.start <= MaxDateSeconds && -MaxDateSeconds <= w.end <= MaxDateSeconds)
  }

  /** A response whose property is read next: a request error propagates, and `null` throws. */
  function Readable(response: Result<JsonValue, RequestError>): (r: Result<JsonValue, Failure>)
    ensures r.Ok? <==> response.Ok? && !response.value.JNull?
    ensures r.Ok? ==> r.value == response.value
    ensures response.Err? ==> r == Err(RequestFailed(response.error))
    ensures response == Ok(JNull) ==> r == Err(Malformed)
  {
    match response
    case Err(e) => Err(RequestFailed(e))
    case Ok(v) => if v.JNull? then Err(Malformed) else Ok(v)
  }

  /** `authInfo.team?.slug`; reading `team` of a `null` body throws. */
  function TeamSlug(auth: Result<JsonValue, RequestError>): (r: Result<Option<JsonValue>, Failure>)
    ensures r.Ok? <==> auth.Ok? && !auth.value.JNull?
    ensures auth.Err? ==> r == Err(RequestFailed(auth.error))
    ensures auth == Ok(JNull) ==> r == Err(Malformed)
    ensures r.Ok? && Prop(auth.value, "team").None? ==> r.value.None?
    ensures r.Ok? && Prop(auth.value, "team").Some? ==>
      r.value == Prop(Prop(auth.value, "team").value, "slug")
  {
    match Readable(auth)
    case Err(f) => Err(f)
    case Ok(info) =>
      match Prop(info, "team")
      case None => Ok(None)
      case Some(team) => Ok(Prop(team, "slug"))
  }

  /** `!apiKey`: the variable is unset or empty. */
  predicate MissingKey(apiKey: Option<string>) {
    apiKey.None? || apiKey.value == ""
  }

  /** The run gets past argument checking, the key check and the progress line. */
  predicate Starts(args: seq<string>, apiKey: Option<string>) {
    ParseArgs(args).Ok? && !MissingKey(apiKey) && Printable(WindowOf(ParseArgs(args).value))
  }

  /**
   * `main`: parse the arguments, check the key, print the progress line,
   * create the query and its result, poll, interpret the result, read the
   * team slug, and present. `nowStart` and `nowEnd` are the two readings of
   * the clock for the reported window.
   */
  function Run(args: seq<string>, apiKey: Option<string>, api: Backend,
               leq: (string, string) -> bool, nowStart: int, nowEnd: int): (r: RunResult)
    ensures ParseArgs(args).Err? ==> r == RunResult(Err(Usage(ParseArgs(args).error)), 0)
    ensures ParseArgs(args).Ok? && MissingKey(apiKey) ==> r == RunResult(Err(MissingApiKey), 0)
    ensures ParseArgs(args).Ok? && !MissingKey(apiKey) && !Printable(WindowOf(ParseArgs(args).value)) ==>
      r == RunResult(Err(Failed(DateOutOfRange)), 0)
    ensures r.requests == 0 <==> !Starts(args, apiKey)
    ensures r.requests <= 3 + MaxAttempts
    ensures r.outcome.Ok? ==>
      && Starts(args, apiKey)
      && r.requests == 3 + PollResults(Fetches(api)).fetches
      && PollResults(Fetches(api)).result.Ok?
      && Interpret(PollResults(Fetches(api)).result.value, leq).Ok?
    ensures r.outcome.Ok? && r.outcome.value.Document? ==>
      r.outcome.value.summary.traceId == ParseArgs(args).value.traceId
    ensures r.outcome.Err? && r.outcome.error.Failed? && r.outcome.error.failure.RequestFailed? ==>
      var e := r.outcome.error.failure.cause;
      || Request(api.createQuery(ParseArgs(args).value.traceId, WindowOf(ParseArgs(args).value))) == Err(e)
      || Request(api.createResult) == Err(e)
      || (exists j :: 0 <= j < MaxAttempts && Request(api.fetchResult(j)) == Err(e))
      || Request(api.auth) == Err(e)
  {
    match ParseArgs(args)
    case Err(e) => RunResult(Err(Usage(e)), 0)
    case Ok(p) =>
      if MissingKey(apiKey) then RunResult(Err(MissingApiKey), 0)
      else if !Printable(WindowOf(p)) then RunResult(Err(Failed(DateOutOfRange)), 0)
      else
        match Readable(Request(api.createQuery(p.traceId, WindowOf(p))))
        case Err(f) => RunResult(Err(Failed(f)), 1)
        case Ok(_) =>
          match Readable(Request(api.createResult))
          case Err(f) => RunResult(Err(Failed(f)), 2)
          case Ok(_) => AfterCreation(p, api, leq, nowStart, nowEnd)
  }

  /**
   * The run once the query and its result exist: poll, interpret the
   * result, read the team slug, and present. The two creation requests are
   * counted in `requests`.
   */
  function AfterCreation(p: Params, api: Backend, leq: (string, string) -> bool,
                         nowStart: int, nowEnd: int): (r: RunResult)
    ensures 3 <= r.requests <= 3 + MaxAttempts
    ensures r.outcome.Ok? ==>
      && r.requests == 3 + PollResults(Fetches(api)).fetches
      && PollResults(Fetches(api)).result.Ok?
      && Interpret(PollResults(Fetches(api)).result.value, leq).Ok?
    ensures r.outcome.Ok? && r.outcome.value.Document? ==> r.outcome.value.summary.traceId == p.traceId
    ensures r.outcome.Err? ==> r.outcome.error.Failed?
    ensures r.outcome.Err? && r.outcome.error.failure.RequestFailed? ==>
      var e := r.outcome.error.failure.cause;
      || (exists j :: 0 <= j < MaxAttempts && Request(api.fetchResult(j)) == Err(e))
      || Request(api.auth) == Err(e)
  {
    var polled := PollResults(Fetches(api));
    var made := 2 + polled.fetches;
    match polled.result
    case Err(f) =>
      assert f.RequestFailed? ==> Request(api.fetchResult(polled.fetches - 1)) == Err(f.cause);
      RunResult(Err(Failed(f)), made)
    case Ok(response) =>
      match Interpret(response, leq)
      case Err(f) => RunResult(Err(Failed(f)), made)
      case Ok(report) =>
        match TeamSlug(Request(api.auth))
        case Err(f) => RunResult(Err(Failed(f)), made + 1)
        case Ok(slug) => RunResult(Ok(Present(p, report, slug, nowStart, nowEnd)), made + 1)
  }

  /**
   * A start time beyond the range of `Date` fails while the progress line is
   * formatted, before any request is sent.
   */
  lemma OutOfRangeStartSendsNothing(traceId: string, start: nat, end: nat, apiKey: Option<string>, api: Backend,
                                    leq: (string, string) -> bool, nowStart: int, nowEnd: int)
    requires traceId != "" && start > MaxDateSeconds && end != 0 && !MissingKey(apiKey)
    ensures Run(["--trace-id", traceId, "--start-time", NatToString(start), "--end-time", NatToString(end)],
                apiKey, api, leq, nowStart, nowEnd)
         == RunResult(Err(Failed(DateOutOfRange)), 0)
  {
    AbsoluteBoundsAccepted(traceId, start, end);
  }

  /** `process.exit(1)` on every failure; a normal return otherwise. */
  function ExitCode(r: RunResult): int {
    if r.outcome.Ok? then 0 else 1
  }

  /**
   * The run exits with `0` exactly when every step succeeds: the arguments,
   * the key and the progress line, both creation requests, the poll, the
   * processing of the result and the read of the team slug.
   */
  lemma ExitCodeZeroExactlyWhenEveryStepSucceeds(args: seq<string>, apiKey: Option<string>, api: Backend,
                                                 leq: (string, string) -> bool, nowStart: int, nowEnd: int)
    ensures ExitCode(Run(args, apiKey, api, leq, nowStart, nowEnd)) == 0 <==>
      && Starts(args, apiKey)
      && Readable(Request(api.createQuery(ParseArgs(args).value.traceId, WindowOf(ParseArgs(args).value)))).Ok?
      && Readable(Request(api.createResult)).Ok?
      && PollResults(Fetches(api)).result.Ok?
      && Interpret(PollResults(Fetches(api)).result.value, leq).Ok?
      && TeamSlug(Request(api.auth)).Ok?
  {
  }

  /** The answer was a response with a non-2xx status `s`. */
  predicate Rejected(a: Answer, s: int) {
    a.Response? && !IsOk(a.status) && a.status == s
  }

  /**
   * An API error that ends the run carries the status code of a response the
   * run received: the one to creating the query or its result, to a poll
   * fetch, or to `/1/auth`. It is this code that the error handler reads to
   * choose its suggestions.
   */
  lemma FailureStatusIsAnAnswerStatus(args: seq<string>, apiKey: Option<string>, api: Backend,
                                      leq: (string, string) -> bool, nowStart: int, nowEnd: int)
    ensures var r := Run(args, apiKey, api, leq, nowStart, nowEnd);
      r.outcome.Err? && r.outcome.error.Failed? && r.outcome.error.failure.RequestFailed?
      && r.outcome.error.failure.cause.ApiError? ==>
        var s := r.outcome.error.failure.cause.status;
        || Rejected(api.createQuery(ParseArgs(args).value.traceId, WindowOf(ParseArgs(args).value)), s)
        || Rejected(api.createResult, s)
        || (exists j :: 0 <= j < MaxAttempts && Rejected(api.fetchResult(j), s))
        || Rejected(api.auth, s)
  {
  }

  /**
   * A rejected request to create the query ends the run at once, with that
   * status code, after one request.
   */
  lemma RejectedQueryEndsRun(args: seq<string>, apiKey: Option<string>, api: Backend,
                             leq: (string, string) -> bool, nowStart: int, nowEnd: int, s: int)
    ensures (&& Starts(args, apiKey)
             && Rejected(api.createQuery(ParseArgs(args).value.traceId, WindowOf(ParseArgs(args).value)), s)) ==>
      var r := Run(args, apiKey, api, leq, nowStart, nowEnd);
      && r.requests == 1
      && r.outcome.Err? && r.outcome.error.Failed? && r.outcome.error.failure.RequestFailed?
      && r.outcome.error.failure.cause.ApiError? && r.outcome.error.failure.cause.status == s
  {
  }

  /**
   * With the run started and both creation requests answered, the run times
   * out exactly when all `MaxAttempts` fetches were pending, after
   * `2 + MaxAttempts` requests and without reading `/1/auth`.
   */
  lemma TimeoutExactlyWhenAllPending(args: seq<string>, apiKey: Option<string>, api: Backend,
                                     leq: (string, string) -> bool, nowStart: int, nowEnd: int)
    ensures (&& Starts(args, apiKey)
             && Readable(Request(api.createQuery(ParseArgs(args).value.traceId, WindowOf(ParseArgs(args).value)))).Ok?
             && Readable(Request(api.createResult)).Ok?) ==>
      var r := Run(args, apiKey, api, leq, nowStart, nowEnd);
      && (r.outcome == Err(Failed(TimedOut)) <==>
            forall j :: 0 <= j < MaxAttempts ==> Pending(Fetches(api), j))
      && (r.outcome == Err(Failed(TimedOut)) ==> r.requests == 2 + MaxAttempts)
  {
    var r := Run(args, apiKey, api, leq, nowStart, nowEnd);
    var polled := PollResults(Fetches(api));
    if && Starts(args, apiKey)
       && Readable(Request(api.createQuery(ParseArgs(args).value.traceId, WindowOf(ParseArgs(args).value)))).Ok?
       && Readable(Request(api.createResult)).Ok?
    {
      assert r.outcome == Err(Failed(TimedOut)) <==> polled.result == Err(TimedOut) by {
        if polled.result.Ok? {
          var i := Interpret(polled.result.value, leq);
          assert i.Ok? || i == Err(Malformed);
        }
      }
      assert polled.result == Err(TimedOut) ==> r.requests == 2 + polled.fetches;
    }
  }
}

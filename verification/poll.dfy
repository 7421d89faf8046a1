/**
 * Polling the query result: at most `MaxAttempts` fetches, stopping at the
 * first response that carries `data.results`. The one-second pause between
 * fetches is not modelled. The server is a function from the attempt number
 * to what that fetch returns.
 */
module Poll {
  import opened Wrappers
  import opened Json
  import opened Api

  const MaxAttempts: nat := 10

  /** What the fetch numbered `attempt` (from 0) returns: a parsed body or a request error. */
  type Server = nat -> Result<JsonValue, RequestError>

  /** `response.data?.results` when it is truthy (an array, even an empty one, always is). */
  function ResultsOf(response: JsonValue): (r: Option<JsonValue>)
    ensures r.Some? <==>
      && Prop(response, "data").Some?
      && Prop(Prop(response, "data").value, "results").Some?
      && Truthy(Prop(Prop(response, "data").value, "results").value)
    ensures r.Some? ==> r == Prop(Prop(response, "data").value, "results")
  {
    match Prop(response, "data")
    case None => None
    case Some(d) =>
      match Prop(d, "results")
      case None => None
      case Some(results) => if Truthy(results) then Some(results) else None
  }

  predicate HasResults(response: JsonValue) {
    ResultsOf(response).Some?
  }

  /** Fetch `j` returned a body that keeps the loop going: not `null`, no results. */
  predicate Pending(server: Server, j: nat) {
    server(j).Ok? && !server(j).value.JNull? && !HasResults(server(j).value)
  }

  /** The result of polling, and how many fetches were made. */
  datatype PollOutcome = PollOutcome(result: Result<JsonValue, Failure>, fetches: nat)

  /** The outcome, given that fetches `0 .. attempt-1` were all pending. */
  function PollFrom(server: Server, attempt: nat): (o: PollOutcome)
    requires attempt <= MaxAttempts
    decreases MaxAttempts - attempt
    ensures attempt <= o.fetches <= MaxAttempts
    ensures o.fetches == attempt ==> attempt == MaxAttempts && o.result == Err(TimedOut)
    ensures forall j :: attempt <= j < o.fetches - 1 ==> Pending(server, j)
    ensures o.result == Err(TimedOut) <==> forall j :: attempt <= j < MaxAttempts ==> Pending(server, j)
    ensures o.result == Err(TimedOut) ==> o.fetches == MaxAttempts
    ensures o.result.Ok? ==>
      server(o.fetches - 1) == Ok(o.result.value) && HasResults(o.result.value)
    ensures o.result.Err? && o.result.error.RequestFailed? ==>
      server(o.fetches - 1) == Err(o.result.error.cause)
    ensures o.result == Err(Malformed) ==> server(o.fetches - 1) == Ok(JNull)
  {
    if attempt == MaxAttempts then PollOutcome(Err(TimedOut), MaxAttempts)
    else
      match server(attempt)
      case Err(e) =>
        assert !Pending(server, attempt);
        PollOutcome(Err(RequestFailed(e)), attempt + 1)
      case Ok(response) =>
        if response.JNull? then   // `null.data` throws
          assert !Pending(server, attempt);
          PollOutcome(Err(Malformed), attempt + 1)
        else if HasResults(response) then
          assert !Pending(server, attempt);
          PollOutcome(Ok(response), attempt + 1)
        else PollFrom(server, attempt + 1)
  }

  /**
   * The poll loop of the script: between one and `MaxAttempts` fetches; the
   * result is the first response with results, every earlier fetch was
   * pending, and a timeout happens exactly when all `MaxAttempts` fetches were
   * pending. A request error is reported as such, never as a timeout.
   */
  function PollResults(server: Server): (o: PollOutcome)
    ensures 1 <= o.fetches <= MaxAttempts
    ensures forall j :: 0 <= j < o.fetches - 1 ==> Pending(server, j)
    ensures o.result == Err(TimedOut) <==> forall j :: 0 <= j < MaxAttempts ==> Pending(server, j)
    ensures o.result == Err(TimedOut) ==> o.fetches == MaxAttempts
    ensures o.result.Ok? ==>
      server(o.fetches - 1) == Ok(o.result.value) && HasResults(o.result.value)
    ensures o.result.Err? && o.result.error.RequestFailed? ==>
      server(o.fetches - 1) == Err(o.result.error.cause)
    ensures o.result == Err(Malformed) ==> server(o.fetches - 1) == Ok(JNull)
  {
    PollFrom(server, 0)
  }

  lemma {:induction false} PollFromReadsOnlyItsFetches(server: Server, other: Server, attempt: nat)
    requires attempt <= MaxAttempts
    requires forall j :: attempt <= j < PollFrom(server, attempt).fetches ==> server(j) == other(j)
    ensures PollFrom(other, attempt) == PollFrom(server, attempt)
    decreases MaxAttempts - attempt
  {
    if attempt < MaxAttempts {
      assert server(attempt) == other(attempt);
      match server(attempt)
      case Err(_) =>
      case Ok(response) =>
        if !response.JNull? && !HasResults(response) {
          PollFromReadsOnlyItsFetches(server, other, attempt + 1);
        }
    }
  }

  /**
   * No fetch happens after the one that ends the loop: two servers that agree
   * on the fetches made give the same outcome, whatever they would answer later.
   */
  lemma PollReadsOnlyItsFetches(server: Server, other: Server)
    requires forall j :: 0 <= j < PollResults(server).fetches ==> server(j) == other(j)
    ensures PollResults(other) == PollResults(server)
  {
    PollFromReadsOnlyItsFetches(server, other, 0);
  }

  /** An empty `results` array still stops the loop at once. */
  lemma EmptyResultsStopPolling(server: Server)
    requires server(0) == Ok(JObject(map["data" := JObject(map["results" := JArray([])])]))
    ensures PollResults(server) == PollOutcome(Ok(server(0).value), 1)
  {
    var response := server(0).value;
    assert Prop(response, "data") == Some(JObject(map["results" := JArray([])]));
    assert HasResults(response);
  }

  /** The loop as the script writes it, with a counter and an early exit. */
  method PollLoop(server: Server) returns (result: Result<JsonValue, Failure>, fetches: nat)
    ensures PollOutcome(result, fetches) == PollResults(server)
  {
    var attempts := 0;
    fetches := 0;
    var found: Option<JsonValue> := None;
    while attempts < MaxAttempts
      invariant attempts <= MaxAttempts
      invariant fetches == attempts
      invariant PollFrom(server, attempts) == PollResults(server)
      invariant found.None?
    {
      var fetched := server(attempts);
      fetches := fetches + 1;
      if fetched.Err? {
        return Err(RequestFailed(fetched.error)), fetches;
      }
      var response := fetched.value;
      if response.JNull? {
        return Err(Malformed), fetches;
      }
      if HasResults(response) {
        found := Some(response);
        break;
      }
      attempts := attempts + 1;
    }
    if found.None? {
      return Err(TimedOut), fetches;
    }
    result := Ok(found.value);
  }
}

/**
 * Command-line arguments: pairing of `--flag value` tokens, validation of the
 * trace id and of the start/end pair, and the time window that follows.
 */
module Args {
  import opened Wrappers
  import opened JsNumber
  import Json

  /** Relative window, in seconds, when `--time-range` is not given. */
  const DefaultTimeRange: int := 3600

  datatype Params = Params(
    traceId: string,
    timeRange: JsInt,
    startTime: Option<JsInt>,
    endTime: Option<JsInt>)

  datatype ArgError = MissingTraceId | UnpairedTimeBounds

  /** Truthiness of an optional time: absent, `NaN` and `0` are falsy. */
  predicate TruthyTime(t: Option<JsInt>) {
    t.Some? && TruthyInt(t.value)
  }

  /** The key of a flag token: one leading `--` removed, if there is one. */
  function StripFlag(arg: string): (key: string)
    ensures key == arg || "--" + key == arg
    ensures |arg| >= 2 && arg[..2] == "--" ==> |key| == |arg| - 2
  {
    if |arg| >= 2 && arg[..2] == "--" then arg[2..] else arg
  }

  /**
   * The pair starting at token `i` sets `key`: `i` is even, both tokens exist
   * and are non-empty, and the first one names `key`.
   */
  predicate SetsKey(args: seq<string>, i: int, key: string) {
    && 0 <= i && i % 2 == 0 && i + 1 < |args|
    && args[i] != "" && args[i + 1] != ""
    && StripFlag(args[i]) == key
  }

  /** The parameters collected from the first `pairs` pairs, later pairs overwriting earlier ones. */
  function PairsUpTo(args: seq<string>, pairs: nat): (m: map<string, string>)
    requires 2 * pairs <= |args|
    ensures forall k :: k in m ==> m[k] != ""
  {
    if pairs == 0 then map[]
    else
      var m := PairsUpTo(args, pairs - 1);
      var i := 2 * (pairs - 1);
      if args[i] != "" && args[i + 1] != "" then m[StripFlag(args[i]) := args[i + 1]] else m
  }

  /**
   * The parameter record built from all tokens; a trailing token without a
   * value is dropped. A `__proto__` key is dropped too: assigning a string to
   * `params["__proto__"]` goes to the prototype setter, which ignores it and
   * leaves every other key as it was. Every value is the non-empty token after
   * a flag naming its key, so `params[key]` is truthy exactly when the key is
   * present.
   */
  function PairUp(args: seq<string>): (r: map<string, string>)
    ensures forall k :: k in r ==> r[k] != ""
    ensures Json.ProtoKey !in r
    ensures forall k :: k in r ==> exists i :: SetsKey(args, i, k) && r[k] == args[i + 1]
  {
    var r := PairsUpTo(args, |args| / 2) - {Json.ProtoKey};
    assert forall k :: k in r ==> exists i :: SetsKey(args, i, k) && r[k] == args[i + 1] by {
      forall k | k in r
        ensures exists i :: SetsKey(args, i, k) && r[k] == args[i + 1]
      {
        PairsUpToLookup(args, |args| / 2, k);
        var i :| IsLastSetter(args, 2 * (|args| / 2), i, k) && r[k] == args[i + 1];
      }
    }
    r
  }

  /** `i` is the last pair below token `bound` that sets `key`. */
  predicate IsLastSetter(args: seq<string>, bound: int, i: int, key: string) {
    && i < bound && SetsKey(args, i, key)
    && forall j :: j < bound && SetsKey(args, j, key) ==> j <= i
  }

  lemma {:induction false} PairsUpToLookup(args: seq<string>, pairs: nat, key: string)
    requires 2 * pairs <= |args|
    ensures key in PairsUpTo(args, pairs) <==> exists i :: i < 2 * pairs && SetsKey(args, i, key)
    ensures key in PairsUpTo(args, pairs) ==>
      exists i :: IsLastSetter(args, 2 * pairs, i, key) && PairsUpTo(args, pairs)[key] == args[i + 1]
  {
    if pairs > 0 {
      var m := PairsUpTo(args, pairs - 1);
      var i0 := 2 * (pairs - 1);
      PairsUpToLookup(args, pairs - 1, key);
      if SetsKey(args, i0, key) {
        assert PairsUpTo(args, pairs) == m[key := args[i0 + 1]];
        forall j | j < 2 * pairs && SetsKey(args, j, key)
          ensures j <= i0
        {
        }
        assert IsLastSetter(args, 2 * pairs, i0, key);
      } else {
        assert key in PairsUpTo(args, pairs) <==> key in m;
        assert key in m ==> PairsUpTo(args, pairs)[key] == m[key];
        forall j | j < 2 * pairs && SetsKey(args, j, key)
          ensures j < i0
        {
          assert j != i0;
        }
        if key in m {
          var i :| IsLastSetter(args, i0, i, key) && m[key] == args[i + 1];
          assert IsLastSetter(args, 2 * pairs, i, key);
        }
      }
    }
  }

  /**
   * A key other than `__proto__` is present exactly when some pair sets it,
   * and its value is the one from the last such pair.
   */
  lemma PairUpLookup(args: seq<string>, key: string)
    ensures key in PairUp(args) <==> key != Json.ProtoKey && exists i :: SetsKey(args, i, key)
    ensures key in PairUp(args) ==>
      exists i :: IsLastSetter(args, |args|, i, key) && PairUp(args)[key] == args[i + 1]
  {
    PairsUpToLookup(args, |args| / 2, key);
    forall i | SetsKey(args, i, key) ensures i < 2 * (|args| / 2) { }
    if key in PairUp(args) {
      var i :| IsLastSetter(args, 2 * (|args| / 2), i, key) && PairUp(args)[key] == args[i + 1];
      assert IsLastSetter(args, |args|, i, key);
    }
  }

  /** The loop of the script: step through the tokens two at a time. */
  method CollectParams(args: seq<string>) returns (params: map<string, string>)
    ensures params == PairUp(args)
  {
    params := map[];
    var i := 0;
    ghost var pairs: nat := 0;
    ghost var raw: map<string, string> := map[];
    while i < |args|
      invariant 2 * pairs <= |args|
      invariant i == 2 * pairs || (i == |args| + 1 && 2 * pairs + 1 == |args|)
      invariant raw == PairsUpTo(args, pairs)
      invariant params == raw - {Json.ProtoKey}
    {
      // A trailing token has no value: `args[i + 1]` is `undefined`, which is falsy.
      if i + 1 < |args| {
        var arg := args[i];
        var nextArg := args[i + 1];
        if arg != "" && nextArg != "" {
          var key := StripFlag(arg);
          // `params[key] = nextArg` adds an own property unless `key` is `__proto__`.
          if key != Json.ProtoKey {
            OwnKeyAssignment(raw, key, nextArg);
            params := params[key := nextArg];
          } else {
            ProtoAssignmentIgnored(raw, nextArg);
          }
          raw := raw[key := nextArg];
        }
        pairs := pairs + 1;
      }
      i := i + 2;
    }
    assert pairs == |args| / 2;
  }

  /** Any other key is set as usual, whether `__proto__` is dropped before or after. */
  lemma OwnKeyAssignment(m: map<string, string>, k: string, v: string)
    requires k != Json.ProtoKey
    ensures m[k := v] - {Json.ProtoKey} == (m - {Json.ProtoKey})[k := v]
  {
  }

  /** Setting `__proto__` and then dropping it leaves the other keys as they were. */
  lemma ProtoAssignmentIgnored(m: map<string, string>, v: string)
    ensures m[Json.ProtoKey := v] - {Json.ProtoKey} == m - {Json.ProtoKey}
  {
  }

  /** `params[key] ? parseInt(params[key], 10) : undefined`. */
  function ParsedTime(params: map<string, string>, key: string): Option<JsInt> {
    if key in params && params[key] != "" then Some(ParseInt(params[key])) else None
  }

  /** Validation and defaults applied to the collected parameters. */
  function Validate(params: map<string, string>): (r: Result<Params, ArgError>)
    ensures r == Err(MissingTraceId) <==> "trace-id" !in params || params["trace-id"] == ""
    ensures r == Err(UnpairedTimeBounds) <==>
      && "trace-id" in params && params["trace-id"] != ""
      && TruthyTime(ParsedTime(params, "start-time")) != TruthyTime(ParsedTime(params, "end-time"))
    ensures r.Ok? ==>
      && r.value.traceId == params["trace-id"] != ""
      && r.value.startTime == ParsedTime(params, "start-time")
      && r.value.endTime == ParsedTime(params, "end-time")
      && TruthyTime(r.value.startTime) == TruthyTime(r.value.endTime)
      && r.value.timeRange ==
           (if "time-range" in params && params["time-range"] != ""
            then ParseInt(params["time-range"]) else Finite(DefaultTimeRange))
  {
    if !("trace-id" in params && params["trace-id"] != "") then Err(MissingTraceId)
    else
      var timeRange :=
        if "time-range" in params && params["time-range"] != ""
        then ParseInt(params["time-range"]) else Finite(DefaultTimeRange);
      var startTime := ParsedTime(params, "start-time");
      var endTime := ParsedTime(params, "end-time");
      if (TruthyTime(startTime) && !TruthyTime(endTime)) || (!TruthyTime(startTime) && TruthyTime(endTime))
      then Err(UnpairedTimeBounds)
      else Ok(Params(params["trace-id"], timeRange, startTime, endTime))
  }

  /**
   * `parseArgs`: pair the tokens, then validate. The trace id is missing
   * exactly when no pair sets it; accepted parameters carry a non-empty trace
   * id and either both time bounds or neither.
   */
  function ParseArgs(args: seq<string>): (r: Result<Params, ArgError>)
    ensures r == Err(MissingTraceId) <==> !exists i :: SetsKey(args, i, "trace-id")
    ensures r.Ok? ==> r.value.traceId != "" && TruthyTime(r.value.startTime) == TruthyTime(r.value.endTime)
  {
    PairUpLookup(args, "trace-id");
    Validate(PairUp(args))
  }

  /**
   * Stated on the tokens themselves: the trace id is missing exactly when no
   * pair sets it, and otherwise it is the value of the last pair that does.
   */
  lemma TraceIdFromLastPair(args: seq<string>)
    ensures ParseArgs(args) == Err(MissingTraceId) <==> !exists i :: SetsKey(args, i, "trace-id")
    ensures ParseArgs(args).Ok? ==>
      exists i :: IsLastSetter(args, |args|, i, "trace-id") && ParseArgs(args).value.traceId == args[i + 1]
  {
    PairUpLookup(args, "trace-id");
  }

  lemma StripFlagOf(name: string)
    ensures StripFlag("--" + name) == name
  {
    assert ("--" + name)[..2] == "--";
    assert ("--" + name)[2..] == name;
  }

  /** None of the flags the script reads is `__proto__`, so each of them can be set. */
  lemma FlagNamesAreKeys()
    ensures "trace-id" != Json.ProtoKey && "time-range" != Json.ProtoKey
    ensures "start-time" != Json.ProtoKey && "end-time" != Json.ProtoKey
  {
    assert Json.ProtoKey[0] == '_';
  }

  /** The parameters of a well-formed command line with three flags, none of them `--__proto__`. */
  lemma PairUpThreeFlags(f1: string, v1: string, f2: string, v2: string, f3: string, v3: string)
    requires f1 != "" && v1 != "" && f2 != "" && v2 != "" && f3 != "" && v3 != ""
    requires f1 != Json.ProtoKey && f2 != Json.ProtoKey && f3 != Json.ProtoKey
    ensures PairUp(["--" + f1, v1, "--" + f2, v2, "--" + f3, v3])
         == map[f1 := v1][f2 := v2][f3 := v3]
  {
    var args := ["--" + f1, v1, "--" + f2, v2, "--" + f3, v3];
    StripFlagOf(f1);
    StripFlagOf(f2);
    StripFlagOf(f3);
    assert PairsUpTo(args, 0) == map[];
    assert PairsUpTo(args, 1) == map[f1 := v1];
    assert PairsUpTo(args, 2) == map[f1 := v1][f2 := v2];
    assert PairsUpTo(args, 3) == map[f1 := v1][f2 := v2][f3 := v3];
  }

  /** A parameter holding a rendered natural number parses back to it. */
  lemma ParsedTimeOfNat(params: map<string, string>, key: string, n: nat)
    requires key in params && params[key] == NatToString(n)
    ensures ParsedTime(params, key) == Some(Finite(n))
  {
    ParseIntOfDigits(n, "");
    assert NatToString(n) + "" == NatToString(n);
  }

  /** A start time of `0` is falsy while any non-zero end time is truthy. */
  lemma ZeroStartTimeParams(traceId: string, end: nat)
    requires traceId != "" && end != 0
    ensures Validate(map["trace-id" := traceId]["start-time" := "0"]["end-time" := NatToString(end)])
         == Err(UnpairedTimeBounds)
  {
    var params := map["trace-id" := traceId]["start-time" := "0"]["end-time" := NatToString(end)];
    assert "trace-id"[0] != "start-time"[0] && "trace-id"[0] != "end-time"[0] && "start-time"[0] != "end-time"[0];
    assert params["trace-id"] == traceId;
    assert NatToString(0) == "0";
    ParsedTimeOfNat(params, "start-time", 0);
    ParsedTimeOfNat(params, "end-time", end);
  }

  /** A start time of `0` counts as absent, so pairing it with an end time is rejected. */
  lemma ZeroStartTimeIsUnpaired(traceId: string, end: nat)
    requires traceId != "" && end != 0
    ensures ParseArgs(["--trace-id", traceId, "--start-time", "0", "--end-time", NatToString(end)])
         == Err(UnpairedTimeBounds)
  {
    assert "--trace-id" == "--" + "trace-id";
    assert "--start-time" == "--" + "start-time";
    assert "--end-time" == "--" + "end-time";
    FlagNamesAreKeys();
    PairUpThreeFlags("trace-id", traceId, "start-time", "0", "end-time", NatToString(end));
    ZeroStartTimeParams(traceId, end);
  }

  /** Non-zero bounds given together are accepted as they are, with the default range. */
  lemma AbsoluteBoundsParams(traceId: string, start: nat, end: nat)
    requires traceId != "" && start != 0 && end != 0
    ensures Validate(map["trace-id" := traceId]["start-time" := NatToString(start)]["end-time" := NatToString(end)])
         == Ok(Params(traceId, Finite(DefaultTimeRange), Some(Finite(start)), Some(Finite(end))))
  {
    var params := map["trace-id" := traceId]["start-time" := NatToString(start)]["end-time" := NatToString(end)];
    assert "trace-id"[0] != "start-time"[0] && "trace-id"[0] != "end-time"[0] && "start-time"[0] != "end-time"[0];
    assert "time-range"[1] != "trace-id"[1] && "time-range"[0] != "start-time"[0] && "time-range"[0] != "end-time"[0];
    assert params["trace-id"] == traceId;
    assert "time-range" !in params;
    ParsedTimeOfNat(params, "start-time", start);
    ParsedTimeOfNat(params, "end-time", end);
  }

  /** A command line with non-zero `--start-time` and `--end-time` asks for that absolute window. */
  lemma AbsoluteBoundsAccepted(traceId: string, start: nat, end: nat)
    requires traceId != "" && start != 0 && end != 0
    ensures ParseArgs(["--trace-id", traceId, "--start-time", NatToString(start), "--end-time", NatToString(end)])
         == Ok(Params(traceId, Finite(DefaultTimeRange), Some(Finite(start)), Some(Finite(end))))
    ensures WindowOf(Params(traceId, Finite(DefaultTimeRange), Some(Finite(start)), Some(Finite(end))))
         == Absolute(start, end)
  {
    var args := ["--trace-id", traceId, "--start-time", NatToString(start), "--end-time", NatToString(end)];
    AbsoluteBoundsPaired(traceId, start, end);
    AbsoluteBoundsParams(traceId, start, end);
    ParseArgsVia(args, map["trace-id" := traceId]["start-time" := NatToString(start)]["end-time" := NatToString(end)]);
  }

  /** Command lines that pair up alike parse alike. */
  lemma ParseArgsVia(args: seq<string>, params: map<string, string>)
    requires PairUp(args) == params
    ensures ParseArgs(args) == Validate(params)
  {
  }

  /** The three flags of an absolute window pair up as written. */
  lemma AbsoluteBoundsPaired(traceId: string, start: nat, end: nat)
    requires traceId != ""
    ensures PairUp(["--trace-id", traceId, "--start-time", NatToString(start), "--end-time", NatToString(end)])
         == map["trace-id" := traceId]["start-time" := NatToString(start)]["end-time" := NatToString(end)]
  {
    assert "--trace-id" == "--" + "trace-id";
    assert "--start-time" == "--" + "start-time";
    assert "--end-time" == "--" + "end-time";
    FlagNamesAreKeys();
    PairUpThreeFlags("trace-id", traceId, "start-time", NatToString(start), "end-time", NatToString(end));
  }

  /** Without `--time-range` the relative window is one hour. */
  lemma DefaultWindowIsOneHour(traceId: string)
    requires traceId != ""
    ensures ParseArgs(["--trace-id", traceId])
         == Ok(Params(traceId, Finite(3600), None, None))
  {
    var args := ["--trace-id", traceId];
    StripFlagOf("trace-id");
    FlagNamesAreKeys();
    assert "--trace-id" == "--" + "trace-id";
    assert PairsUpTo(args, 0) == map[];
    assert PairsUpTo(args, 1) == map["trace-id" := traceId];
    var params := map["trace-id" := traceId];
    assert PairUp(args) == params;
    assert "time-range" !in params && "start-time" !in params && "end-time" !in params;
    assert ParseArgs(args) == Validate(params);
  }

  /** The window the query asks for: absolute when both bounds are truthy, else relative. */
  datatype QueryWindow = Absolute(start: int, end: int) | Relative(range: JsInt)

  function WindowOf(p: Params): (w: QueryWindow)
    ensures w.Absolute? <==> TruthyTime(p.startTime) && TruthyTime(p.endTime)
    ensures w.Absolute? ==> Some(Finite(w.start)) == p.startTime && Some(Finite(w.end)) == p.endTime
    ensures w.Relative? ==> w.range == p.timeRange
  {
    if TruthyTime(p.startTime) && TruthyTime(p.endTime)
    then Absolute(p.startTime.value.v, p.endTime.value.v)
    else Relative(p.timeRange)
  }

  /**
   * The `timeRange` reported in the summary: `startTime || now - timeRange`
   * and `endTime || now`, where `nowStart` and `nowEnd` are the two separate
   * readings of the clock, in whole seconds, for `start` and `end`. Explicit
   * bounds are reported as the query sent them; otherwise the window ends at
   * `nowEnd` and is `timeRange` seconds long plus the time between the readings.
   */
  function ReportedWindow(p: Params, nowStart: int, nowEnd: int): (r: (JsInt, JsInt))
    ensures WindowOf(p).Absolute? ==> r == (Finite(WindowOf(p).start), Finite(WindowOf(p).end))
    ensures !TruthyTime(p.startTime) && !TruthyTime(p.endTime) ==>
      && r.1 == Finite(nowEnd)
      && (r.0.Finite? <==> p.timeRange.Finite?)
      && (r.0.Finite? ==> r.1.v - r.0.v == p.timeRange.v + (nowEnd - nowStart))
  {
    var start := if TruthyTime(p.startTime) then p.startTime.value else Sub(Finite(nowStart), p.timeRange);
    var end := if TruthyTime(p.endTime) then p.endTime.value else Finite(nowEnd);
    (start, end)
  }

  /**
   * For accepted arguments the reported window is either the absolute window
   * of the query, or a window ending at the second clock reading that is at
   * least `timeRange` seconds long, since the clock does not go backwards
   * between the two readings.
   */
  lemma ReportedWindowMatchesQuery(args: seq<string>, nowStart: int, nowEnd: int)
    ensures ParseArgs(args).Ok? && nowStart <= nowEnd ==>
      var p := ParseArgs(args).value;
      var (start, end) := ReportedWindow(p, nowStart, nowEnd);
      match WindowOf(p)
      case Absolute(s, e) => start == Finite(s) && end == Finite(e)
      case Relative(range) =>
        end == Finite(nowEnd) && (start.Finite? <==> range.Finite?)
        && (start.Finite? ==> end.v - start.v >= range.v)
  {
  }
}

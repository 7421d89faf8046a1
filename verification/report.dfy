/**
 * What the script does with the polled result: detect the empty result,
 * otherwise unwrap, sort and normalise the rows, then summarise the spans and
 * choose what to print.
 */
module Report {
  import opened Wrappers
  import opened JsNumber
  import opened Json
  import opened Api
  import opened Args
  import opened Poll
  import opened Spans
  import opened Seqs
  import opened StableSort

  /** What a finished query retrieved: nothing, or the processed list of spans. */
  datatype Retrieved = NoSpans | SpanList(spans: seq<Span>)

  /** `firstResult` is an object whose `data` is an object holding `COUNT === 0`. */
  predicate IsZeroCountRow(row: JsonValue) {
    && IsObjectLike(row)
    && Prop(row, "data").Some?
    && IsObjectLike(Prop(row, "data").value)
    && Prop(Prop(row, "data").value, "COUNT") == Some(JNum(0))
  }

  /** `results.length === 0`, or `results.length === 1` with a zero-count first row. */
  predicate NothingFound(results: JsonValue) {
    || Prop(results, "length") == Some(JNum(0))
    || (&& Prop(results, "length") == Some(JNum(1))
        && Prop(results, "0").Some?
        && IsZeroCountRow(Prop(results, "0").value))
  }

  /** `processedSpans` followed by `sortedSpans`. */
  function SortedRows(rows: seq<JsonValue>, leq: (string, string) -> bool): seq<JsonValue> {
    SortBy(MapSeq(Unwrap, rows), ParentSortKey, leq)
  }

  /**
   * `structuredSpans`: the normalised unwrapped rows, reordered; one span per
   * row, each row's span as often as the row.
   */
  function BuildSpans(rows: seq<JsonValue>, leq: (string, string) -> bool): (r: seq<Span>)
    ensures |r| == |rows|
    ensures multiset(r) == multiset(MapSeq(Normalize, MapSeq(Unwrap, rows)))
  {
    MapSeqPermutation(Normalize, SortedRows(rows, leq), MapSeq(Unwrap, rows));
    MapSeq(Normalize, SortedRows(rows, leq))
  }

  /**
   * On a list of rows the empty result is either no row at all or a single
   * row that is a zero-count row; a longer list is never empty.
   */
  lemma NothingFoundInList(rows: seq<JsonValue>)
    ensures NothingFound(JArray(rows)) <==> |rows| == 0 || (|rows| == 1 && IsZeroCountRow(rows[0]))
  {
    ListProps(rows);
  }

  /** A `results` value the processing throws on: not an array, or holding a `null` row. */
  predicate Unprocessable(results: JsonValue) {
    !results.JArray? || JNull in results.elems
  }

  /**
   * The polled response turned into a report. The script throws (`Malformed`)
   * on a `null` response, on a `results` value that is not an array, and on a
   * `null` row; it fails in no other way.
   */
  function Interpret(result: JsonValue, leq: (string, string) -> bool): (r: Result<Retrieved, Failure>)
    ensures r.Ok? || r == Err(Malformed)
    ensures r == Ok(NoSpans) <==>
      !result.JNull? && (ResultsOf(result).None? || NothingFound(ResultsOf(result).value))
    ensures r == Err(Malformed) <==>
      || result.JNull?
      || (ResultsOf(result).Some? && !NothingFound(ResultsOf(result).value)
          && Unprocessable(ResultsOf(result).value))
    ensures r.Ok? && r.value.SpanList? ==>
      && ResultsOf(result).Some? && ResultsOf(result).value.JArray?
      && r.value.spans == BuildSpans(ResultsOf(result).value.elems, leq)
  {
    if result.JNull? then Err(Malformed)
    else
      match ResultsOf(result)
      case None => Ok(NoSpans)
      case Some(results) =>
        if NothingFound(results) then Ok(NoSpans)
        else if Unprocessable(results) then Err(Malformed)
        else Ok(SpanList(BuildSpans(results.elems, leq)))
  }

  /**
   * Spans are reported only for a non-empty list of rows without `null`, whose
   * single row, if it is alone, is not a zero-count row; one span per row.
   */
  lemma SpanListShape(result: JsonValue, leq: (string, string) -> bool)
    ensures Interpret(result, leq).Ok? && Interpret(result, leq).value.SpanList? ==>
      var rows := ResultsOf(result).value.elems;
      && JNull !in rows
      && |Interpret(result, leq).value.spans| == |rows| >= 1
      && (|rows| == 1 ==> !IsZeroCountRow(rows[0]))
  {
    if Interpret(result, leq).Ok? && Interpret(result, leq).value.SpanList? {
      ListProps(ResultsOf(result).value.elems);
    }
  }

  /**
   * For a total preorder the unwrapped rows come out in non-decreasing
   * parent-key order, and rows whose keys tie keep their relative order.
   */
  lemma SortedRowsOrder(rows: seq<JsonValue>, leq: (string, string) -> bool)
    requires TotalPreorder(leq)
    ensures Sorted(SortedRows(rows, leq), ParentSortKey, leq)
    ensures forall k :: WithKey(SortedRows(rows, leq), ParentSortKey, leq, k)
                     == WithKey(MapSeq(Unwrap, rows), ParentSortKey, leq, k)
  {
    SortBySorted(MapSeq(Unwrap, rows), ParentSortKey, leq);
    forall k
      ensures WithKey(SortedRows(rows, leq), ParentSortKey, leq, k)
           == WithKey(MapSeq(Unwrap, rows), ParentSortKey, leq, k)
    {
      SortByStable(MapSeq(Unwrap, rows), ParentSortKey, leq, k);
    }
  }

  // ---- Summary ----

  function ServiceValues(spans: seq<Span>): seq<JsonValue> {
    MapSeq((s: Span) => s.service, spans)
  }

  function ParentIds(spans: seq<Span>): seq<JsonValue> {
    MapSeq((s: Span) => s.parentId, spans)
  }

  /** `.filter((s) => s !== "N/A")`: only the string `"N/A"` is strictly equal to it. */
  function WithoutNotAvailable(list: seq<JsonValue>): (r: seq<JsonValue>)
    ensures forall x :: x in r <==> x in list && x != NotAvailable
    ensures multiset(r) == multiset(list)[NotAvailable := 0]
  {
    if |list| == 0 then []
    else
      assert list == [list[0]] + list[1..];
      (if list[0] == NotAvailable then [] else [list[0]]) + WithoutNotAvailable(list[1..])
  }

  /** The filter keeps order: filtering a concatenation concatenates the filtered parts. */
  lemma {:induction false} WithoutNotAvailableConcat(a: seq<JsonValue>, b: seq<JsonValue>)
    ensures WithoutNotAvailable(a + b) == WithoutNotAvailable(a) + WithoutNotAvailable(b)
  {
    if |a| > 0 {
      assert (a + b)[0] == a[0] && (a + b)[1..] == a[1..] + b;
      WithoutNotAvailableConcat(a[1..], b);
    } else {
      assert a + b == b;
    }
  }

  /** `set.has(x)`: SameValueZero, which matches no array or object parsed separately. */
  predicate SetHas(members: seq<JsonValue>, x: JsonValue) {
    IsPrimitive(x) && x in members
  }

  /** Insertion order of a `Set` built from `list`, starting from `members`. */
  function SetFrom(members: seq<JsonValue>, list: seq<JsonValue>): seq<JsonValue>
    decreases |list|
  {
    if |list| == 0 then members
    else SetFrom(if SetHas(members, list[0]) then members else members + [list[0]], list[1..])
  }

  /**
   * Reference definition of the services list: every element of `list` that
   * is not `"N/A"` and is either an array or object or the first occurrence
   * of its value.
   */
  function FirstSeen(list: seq<JsonValue>): seq<JsonValue> {
    if |list| == 0 then []
    else
      var init := list[..|list| - 1];
      var last := list[|list| - 1];
      FirstSeen(init) + (if last != NotAvailable && (!IsPrimitive(last) || last !in init) then [last] else [])
  }

  lemma {:induction false} FirstSeenMembers(list: seq<JsonValue>)
    ensures forall x :: x in FirstSeen(list) <==> x in list && x != NotAvailable
  {
    if |list| > 0 {
      var init := list[..|list| - 1];
      FirstSeenMembers(init);
      assert list == init + [list[|list| - 1]];
    }
  }

  lemma {:induction false} SetFromIsFirstSeen(prefix: seq<JsonValue>, rest: seq<JsonValue>)
    ensures SetFrom(FirstSeen(prefix), WithoutNotAvailable(rest)) == FirstSeen(prefix + rest)
    decreases |rest|
  {
    if |rest| == 0 {
      assert prefix + rest == prefix;
    } else {
      var x := rest[0];
      var next := prefix + [x];
      assert next + rest[1..] == prefix + rest;
      assert next[..|next| - 1] == prefix;
      FirstSeenMembers(prefix);
      assert FirstSeen(next) == (if SetHas(FirstSeen(prefix), x) || x == NotAvailable
                                 then FirstSeen(prefix) else FirstSeen(prefix) + [x]);
      SetFromIsFirstSeen(next, rest[1..]);
      if x == NotAvailable {
        assert WithoutNotAvailable(rest) == WithoutNotAvailable(rest[1..]);
      } else {
        assert WithoutNotAvailable(rest) == [x] + WithoutNotAvailable(rest[1..]);
        assert WithoutNotAvailable(rest)[1..] == WithoutNotAvailable(rest[1..]);
      }
    }
  }

  /** `[...new Set(spans.map((s) => s.service).filter((s) => s !== "N/A"))]`. */
  function Services(spans: seq<Span>): (r: seq<JsonValue>)
    ensures r == FirstSeen(ServiceValues(spans))
  {
    SetFromIsFirstSeen([], ServiceValues(spans));
    assert [] + ServiceValues(spans) == ServiceValues(spans);
    SetFrom([], WithoutNotAvailable(ServiceValues(spans)))
  }

  lemma {:induction false} FirstSeenDistinct(list: seq<JsonValue>)
    ensures forall i, j :: 0 <= i < j < |FirstSeen(list)| ==>
      (IsPrimitive(FirstSeen(list)[i]) ==> FirstSeen(list)[i] != FirstSeen(list)[j])
  {
    if |list| > 0 {
      var init := list[..|list| - 1];
      FirstSeenDistinct(init);
      FirstSeenMembers(init);
    }
  }

  /**
   * The services list: never `"N/A"`, no primitive value twice, and it holds
   * exactly the other service values of the spans.
   */
  lemma ServicesProperties(spans: seq<Span>)
    ensures NotAvailable !in Services(spans)
    ensures forall i, j :: 0 <= i < j < |Services(spans)| ==>
      (IsPrimitive(Services(spans)[i]) ==> Services(spans)[i] != Services(spans)[j])
    ensures forall x :: x in Services(spans) <==>
      x != NotAvailable && exists i :: 0 <= i < |spans| && spans[i].service == x
    ensures forall x :: x in Services(spans) <==> x != NotAvailable && x in ServiceValues(spans)
  {
    FirstSeenMembers(ServiceValues(spans));
    FirstSeenDistinct(ServiceValues(spans));
  }

  /** `spans.filter((s) => s.parentId === "ROOT")`. */
  function RootSpanList(spans: seq<Span>): (r: seq<Span>)
    ensures |r| == multiset(ParentIds(spans))[RootParent]
  {
    if |spans| == 0 then []
    else
      var rest := RootSpanList(spans[1..]);
      assert ParentIds(spans) == [spans[0].parentId] + ParentIds(spans[1..]);
      if spans[0].parentId == RootParent then [spans[0]] + rest else rest
  }

  /** The number of spans whose parent id is the string `"ROOT"`. */
  function RootSpans(spans: seq<Span>): (n: nat)
    ensures n == multiset(ParentIds(spans))[RootParent]
    ensures n <= |spans|
  {
    |RootSpanList(spans)|
  }

  /** The counts do not depend on the order of the spans: sorting changes neither. */
  lemma SortDoesNotChangeSummary(rows: seq<JsonValue>, leq: (string, string) -> bool)
    ensures var (sorted, unsorted) := (BuildSpans(rows, leq), MapSeq(Normalize, MapSeq(Unwrap, rows)));
      && |sorted| == |unsorted|
      && RootSpans(sorted) == RootSpans(unsorted)
      && forall x :: x in Services(sorted) <==> x in Services(unsorted)
  {
    var sorted := BuildSpans(rows, leq);
    var unsorted := MapSeq(Normalize, MapSeq(Unwrap, rows));
    MapSeqPermutation((s: Span) => s.parentId, sorted, unsorted);
    MapSeqPermutation((s: Span) => s.service, sorted, unsorted);
    ServicesProperties(sorted);
    ServicesProperties(unsorted);
    assert forall x :: x in ServiceValues(sorted) <==> x in ServiceValues(unsorted) by {
      forall x ensures x in ServiceValues(sorted) <==> x in ServiceValues(unsorted) {
        assert x in ServiceValues(sorted) <==> x in multiset(ServiceValues(sorted));
        assert x in ServiceValues(unsorted) <==> x in multiset(ServiceValues(unsorted));
      }
    }
  }

  datatype Summary = Summary(
    traceId: string,
    spanCount: nat,
    services: seq<JsonValue>,
    rootSpans: nat,
    start: JsInt,
    end: JsInt)

  /**
   * The `summary` object, without `traceUrl`: the span count, the number of
   * spans whose parent id is `"ROOT"`, the distinct service values other than
   * `"N/A"` in order of first occurrence, and the reported window.
   */
  function Summarize(p: Params, report: Retrieved, nowStart: int, nowEnd: int): (s: Summary)
    ensures s.traceId == p.traceId
    ensures (s.start, s.end) == ReportedWindow(p, nowStart, nowEnd)
    ensures report.NoSpans? ==> s.spanCount == 0 && s.services == [] && s.rootSpans == 0
    ensures report.SpanList? ==>
      && s.spanCount == |report.spans|
      && s.rootSpans == multiset(ParentIds(report.spans))[RootParent] <= s.spanCount
      && s.services == FirstSeen(ServiceValues(report.spans))
    ensures NotAvailable !in s.services
  {
    var (start, end) := ReportedWindow(p, nowStart, nowEnd);
    match report
    case NoSpans => Summary(p.traceId, 0, [], 0, start, end)
    case SpanList(spans) =>
      FirstSeenMembers(ServiceValues(spans));
      Summary(p.traceId, |spans|, Services(spans), RootSpans(spans), start, end)
  }

  /** The empty result is reported exactly as a list of zero spans would be. */
  lemma NoSpansLikeEmptyList(p: Params, nowStart: int, nowEnd: int)
    ensures Summarize(p, NoSpans, nowStart, nowEnd) == Summarize(p, SpanList([]), nowStart, nowEnd)
  {
    assert Services([]) == [];
  }

  /** Both empty shapes are detected: no rows, and one row whose `data.COUNT` is `0`. */
  lemma EmptyResultDetection(result: JsonValue, leq: (string, string) -> bool)
    requires
      || ResultsOf(result) == Some(JArray([]))
      || (exists row :: ResultsOf(result) == Some(JArray([row])) && IsZeroCountRow(row))
    ensures Interpret(result, leq) == Ok(NoSpans)
  {
    ListProps(ResultsOf(result).value.elems);
  }

  /** Two result rows: a root span of `web` and its child span of `db`. */
  const ExampleRoot: JsonValue := JObject(map[
    "trace.span_id" := JString("s1"), "name" := JString("GET /"),
    "service.name" := JString("web"), "duration_ms" := JNum(12)])
  const ExampleChild: JsonValue := JObject(map[
    "trace.span_id" := JString("s2"), "trace.parent_id" := JString("s1"),
    "name" := JString("SELECT"), "service.name" := JString("db"), "duration_ms" := JNum(4)])

  lemma ExampleRootRow()
    ensures Unwrap(ExampleRoot) == ExampleRoot
    ensures ParentSortKey(ExampleRoot) == ""
  {
    var f := ExampleRoot.fields;
    assert "data" !in f && "trace.parent_id" !in f && "parent_id" !in f;
  }

  lemma ExampleRootParent()
    ensures Normalize(ExampleRoot).parentId == RootParent
  {
    var f := ExampleRoot.fields;
    assert "trace.parent_id" !in f && "parent.id" !in f && "parent_id" !in f;
    assert ParentIdKeys[1..] == ["parent.id", "parent_id"] && ["parent.id", "parent_id"][1..] == ["parent_id"];
    assert FirstTruthy(ExampleRoot, ["parent_id"], RootParent) == RootParent;
    assert FirstTruthy(ExampleRoot, ParentIdKeys, RootParent) == RootParent;
  }

  lemma ExampleRootService()
    ensures Normalize(ExampleRoot).service == JString("web")
  {
    assert Prop(ExampleRoot, ServiceKeys[0]) == Some(JString("web"));
    assert FirstTruthy(ExampleRoot, ServiceKeys, NotAvailable) == JString("web");
  }

  lemma ExampleChildRow()
    ensures Unwrap(ExampleChild) == ExampleChild
    ensures ParentSortKey(ExampleChild) == "s1"
  {
    var f := ExampleChild.fields;
    assert "data" !in f && "trace.parent_id" in f;
  }

  lemma ExampleChildSpan()
    ensures Normalize(ExampleChild).parentId == JString("s1")
    ensures Normalize(ExampleChild).service == JString("db")
  {
    assert Prop(ExampleChild, ParentIdKeys[0]) == Some(JString("s1"));
    assert FirstTruthy(ExampleChild, ParentIdKeys, RootParent) == JString("s1");
    assert Prop(ExampleChild, ServiceKeys[0]) == Some(JString("db"));
    assert FirstTruthy(ExampleChild, ServiceKeys, NotAvailable) == JString("db");
  }

  lemma ExampleSpans(leq: (string, string) -> bool)
    requires leq("", "s1")
    ensures BuildSpans([ExampleRoot, ExampleChild], leq) == [Normalize(ExampleRoot), Normalize(ExampleChild)]
  {
    ExampleSorted(leq);
    MapSeqTwo(Normalize, ExampleRoot, ExampleChild);
  }

  lemma ExampleSorted(leq: (string, string) -> bool)
    requires leq("", "s1")
    ensures SortedRows([ExampleRoot, ExampleChild], leq) == [ExampleRoot, ExampleChild]
  {
    ExampleRootRow();
    ExampleChildRow();
    var rows := [ExampleRoot, ExampleChild];
    assert MapSeq(Unwrap, rows) == rows;
    assert SortedRows(rows, leq) == rows by {
      assert SortBy([ExampleChild], ParentSortKey, leq) == [ExampleChild];
      assert rows[1..] == [ExampleChild];
    }
  }

  /** The counts of a root span and a child span from two distinct services. */
  lemma SummaryOfTwo(a: Span, b: Span)
    requires a.parentId == RootParent && b.parentId != RootParent
    requires a.service != NotAvailable && b.service != NotAvailable && a.service != b.service
    ensures RootSpans([a, b]) == 1
    ensures Services([a, b]) == [a.service, b.service]
  {
    assert ParentIds([a, b]) == [a.parentId, b.parentId];
    assert ServiceValues([a, b]) == [a.service, b.service];
    FirstSeenOfTwo(a.service, b.service);
  }

  /**
   * The two rows give two spans, one root, and the services in first-seen
   * order, for any order on keys in which `""` comes no later than `"s1"`.
   */
  lemma TwoSpanTrace(leq: (string, string) -> bool, p: Params, nowStart: int, nowEnd: int)
    requires leq("", "s1")
    ensures var s := Summarize(p, SpanList(BuildSpans([ExampleRoot, ExampleChild], leq)), nowStart, nowEnd);
      && s.spanCount == 2
      && s.rootSpans == 1
      && s.services == [JString("web"), JString("db")]
  {
    ExampleSpans(leq);
    ExampleRootParent();
    ExampleRootService();
    ExampleChildSpan();
    SummaryOfTwo(Normalize(ExampleRoot), Normalize(ExampleChild));
  }

  lemma FirstSeenOfTwo(x: JsonValue, y: JsonValue)
    requires x != NotAvailable && y != NotAvailable && x != y
    ensures FirstSeen([x, y]) == [x, y]
  {
    assert [x][..0] == [];
    assert FirstSeen([x]) == [x];
    assert [x, y][..1] == [x];
    assert y !in [x];
  }

  /** What the script prints on success. */
  datatype Output =
    | NoSpansFound(traceId: string)                   // "No spans found for trace ID: …"
    | Document(summary: Summary, spans: seq<Span>)    // the link line and the JSON document
    | Silent                                          // spans found, but no team slug: no further line

  /**
   * With a truthy team slug the JSON document is printed, with `spanCount`
   * the length of `spans`; without one, only the empty paths print a line.
   */
  function Present(p: Params, report: Retrieved, teamSlug: Option<JsonValue>, nowStart: int, nowEnd: int): (out: Output)
    ensures out.Document? <==> teamSlug.Some? && Truthy(teamSlug.value)
    ensures out.NoSpansFound? <==> report.NoSpans? && !(teamSlug.Some? && Truthy(teamSlug.value))
    ensures out.NoSpansFound? ==> out.traceId == p.traceId
    ensures out.Document? ==>
      && out.summary == Summarize(p, report, nowStart, nowEnd)
      && out.summary.spanCount == |out.spans|
      && out.summary.rootSpans == multiset(ParentIds(out.spans))[RootParent]
      && (report.SpanList? ==> out.spans == report.spans)
  {
    var slugKnown := teamSlug.Some? && Truthy(teamSlug.value);
    match report
    case NoSpans =>
      if slugKnown then Document(Summarize(p, report, nowStart, nowEnd), []) else NoSpansFound(p.traceId)
    case SpanList(spans) =>
      if slugKnown then Document(Summarize(p, report, nowStart, nowEnd), spans) else Silent
  }
}

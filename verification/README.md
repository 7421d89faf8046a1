# honeycomb-trace-spans, modelled in Dafny

`honeycomb-trace-spans` is a command-line script. It fetches every span of one
trace from the Honeycomb query API and prints a JSON summary of them. This
project models the script's decision logic, all of it in `src/index.ts`:

- pairing and validation of the `--flag value` arguments, with `parseInt`
  and JavaScript truthiness written out;
- the time window sent with the query and the one reported in the summary;
- the bounded polling loop for the query result (at most 10 fetches);
- detection of an empty result;
- the pipeline that unwraps, stably sorts and normalises the result rows
  into spans;
- the summary: span count, distinct services and root-span count;
- the choice of what gets printed;
- the message chosen for a non-2xx API response.

Parsed JSON is the datatype `Json.JsonValue`. The JavaScript operations the
script applies to it are defined over that type: truthiness,
`typeof … === "object"`, property lookup including `length` and the index
keys of arrays and strings, `Object.entries` and `String(…)`.

Modules:

| file | module | contents |
|---|---|---|
| wrappers.dfy | `Wrappers` | `Option`, `Result` |
| js_number.dfy | `JsNumber` | `parseInt` with radix 10, decimal rendering, `NaN` |
| json.dfy | `Json` | JSON values and the JavaScript operations on them |
| args.dfy | `Args` | `parseArgs`, query window, reported window |
| api.dfy | `Api` | failures and the API error message |
| poll.dfy | `Poll` | the polling loop, as a function and as a method |
| seqs.dfy | `Seqs` | `map` over sequences |
| stable_sort.dfy | `StableSort` | `Array.prototype.sort` with a key comparator |
| spans.dfy | `Spans` | unwrapping, normalising, the sort key |
| report.dfy | `Report` | empty detection, processing, summary, presentation |
| cli.dfy | `Cli` | one run of `main`, with the API's answers as parameters |

The JSON document, and the link before it, are printed only when `/1/auth`
yields a truthy team slug. When spans are found and there is no slug, the
script prints nothing after the progress line it wrote before its first
request, and exits normally (`Report.Output.Silent`). With an empty result
and no slug it prints the "No spans found" line instead.

## Model

| member | source | states |
|---|---|---|
| Args.StripFlag | src/index.ts:24-25 | The key is the token with at most one leading `--` removed, and two characters shorter when the token starts with `--`. |
| Args.PairUp | src/index.ts:18-28 | Every collected value is non-empty, and is the token after a flag token naming its key, so `params[key]` is truthy exactly when the key is present. A `--__proto__` pair stores no key, since assigning `params["__proto__"]` a string goes to the prototype setter, which ignores it. |
| Args.PairUpLookup | src/index.ts:18-28 | A key other than `__proto__` is collected exactly when some pair at an even index, with both tokens non-empty, names it. Its value is the second token of the last such pair, so later duplicates overwrite earlier ones. |
| Args.CollectParams | src/index.ts:21-28 | The `for` loop stepping by two over the tokens builds exactly the pairing map above. |
| Args.Validate | src/index.ts:31-62 | The trace id is missing exactly when absent or empty. Unpaired bounds are rejected exactly when one parsed time is truthy and the other is not. Otherwise the time range is the parsed `time-range` or 3600, and the times are the parsed values or absent. |
| Args.ParseArgs | src/index.ts:17-63 | The trace id is missing exactly when no pair of tokens sets it. Accepted arguments have a non-empty trace id and either both time bounds truthy or neither. |
| Args.TraceIdFromLastPair | src/index.ts:21-35 | Stated on the raw tokens: the trace id is missing exactly when no pair sets it, and otherwise it comes from the last pair that does. |
| Args.PairUpThreeFlags | src/index.ts:21-28 | Three well-formed `--flag value` pairs, none naming `__proto__`, give the map of the three flags. |
| Args.ZeroStartTimeIsUnpaired | src/index.ts:38-55 | `--start-time 0` with a non-zero `--end-time` is rejected as an unpaired bound, because 0 is falsy. |
| Args.AbsoluteBoundsAccepted | src/index.ts:38-62 | Non-zero `--start-time` and `--end-time` are accepted with the default range, and the query uses them as its absolute window. |
| Args.DefaultWindowIsOneHour | src/index.ts:38-40 | With only `--trace-id`, the time range is 3600 and both bounds are absent. |
| Args.WindowOf | src/index.ts:133-141 | The query uses absolute bounds exactly when both parsed times are truthy, and the relative `time_range` otherwise. |
| Args.ReportedWindow | src/index.ts:434-437 | Explicit bounds are reported as the query sent them. Otherwise `end` is the second clock reading, and `end - start` is `timeRange` plus the time between the two readings of the clock, or `start` is `NaN` when the range is. |
| Args.ReportedWindowMatchesQuery | src/index.ts:434-437 | For accepted arguments, when the clock does not go back between its two readings, the reported window is the query's absolute window, or it ends at the second reading and is at least `timeRange` seconds long. |
| JsNumber.Sub | src/index.ts:435 | Subtraction propagates `NaN`, and is exact otherwise. |
| JsNumber.NatToString | src/index.ts:334 | Decimal rendering: non-empty, digits only, no leading zero. |
| JsNumber.NatToStringDistinct | src/index.ts:365 | Different numbers are rendered differently, so index keys never collide. |
| JsNumber.TrimStart | src/index.ts:39 | `parseInt` skips exactly the leading ECMAScript white space. |
| JsNumber.DigitPrefixLength | src/index.ts:39 | `parseInt` reads the longest run of decimal digits. |
| JsNumber.ParseInt | src/index.ts:39 | `parseInt` gives `NaN` exactly when no digit follows the white space and optional sign, and a negative number only after a `-`. |
| JsNumber.DecimalValueOfNatToString | src/index.ts:39 | Reading back a rendered natural number gives the number. |
| JsNumber.ParseIntOfIntToString | src/index.ts:39-46 | `parseInt` of a rendered integer followed by any non-digit text gives that integer: a round trip through `parseInt`. |
| JsNumber.ParseIntSkipsWhiteSpace | src/index.ts:39-46 | A leading white-space character does not change what `parseInt` returns. |
| Json.FalsyValues | src/index.ts:342-351 | The falsy JSON values are exactly `null`, `false`, `0` and the empty string. |
| Json.IndexEntries | src/index.ts:365 | The entries of a list map the rendering of each index to the element there, and have no other key. |
| Json.IndexKeysAreDigits | src/index.ts:365 | Index keys are non-empty digit strings. |
| Json.Entries | src/index.ts:365 | `Object.entries` gives an object's fields, the index entries of an array or a string (one-character strings), and nothing for other primitives. No array or string has an entry named `length`. |
| Json.Prop | src/index.ts:258-266 | Property lookup on an object is membership and value of the field. On a number, boolean or `null` it yields nothing. |
| Json.JsString | src/index.ts:334 | `String` returns a string unchanged, writes a number so that `parseInt` reads it back, an object as `[object Object]` and an empty array as the empty string. |
| Json.ListProps | src/index.ts:202-258 | `results.length` is the number of rows, and `results[0]` is the first row when there is one. |
| Api.ErrorMessage | src/index.ts:492-506 | The message always begins with `Honeycomb API error: `. |
| Api.ErrorMessageSource | src/index.ts:494-505 | A parsed, non-`null` body gives its truthy `error` field, and the status text when that field is absent or falsy. Unparsable or `null` text gives the raw body when it is non-empty, and the status text when it is empty. |
| Api.ParsedWithoutErrorUsesStatusText | src/index.ts:494-500 | A body that parses but has no `error` field gives the status text, never the raw body. |
| Api.NullBodyUsesRawText | src/index.ts:496-505 | A body of `null` parses, but reading its `error` throws, so the raw text `null` is reported. |
| Api.Request | src/index.ts:487-513 | A request succeeds exactly on a 2xx response whose body parses, giving that body. Any other status gives an API error carrying that status code and the chosen message. A rejected `fetch` is a network error. |
| Poll.ResultsOf | src/index.ts:187 | `response.data?.results` is found exactly when `data` and its `results` are present and `results` is truthy, and is then that value. |
| Poll.PollFrom | src/index.ts:179-195 | From a given attempt, polling makes up to `MaxAttempts` fetches, and every fetch before the last was pending. A timeout occurs exactly when every remaining fetch was pending. |
| Poll.PollResults | src/index.ts:170-199 | Polling makes 1 to 10 fetches, stops at the first response whose `data.results` is truthy, and times out exactly when all 10 fetches were pending. A request error is reported as such. A `null` body is a malformed response. |
| Poll.PollReadsOnlyItsFetches | src/index.ts:187-190 | No fetch happens after the one that ends the loop: servers agreeing on the fetches made give the same outcome. |
| Poll.EmptyResultsStopPolling | src/index.ts:187-190 | An empty `results` array ends polling after the first fetch. |
| Poll.PollLoop | src/index.ts:170-199 | The `while` loop with its counter and `break` computes the same outcome and fetch count as `PollResults`. |
| Seqs.MapSeq | src/index.ts:324 | `map` keeps the length and applies the function at every index. |
| Seqs.MapSeqPermutation | src/index.ts:324-340 | Mapping two permutations of each other gives two permutations of each other. |
| StableSort.SortBy | src/index.ts:333-337 | Sorting keeps every row, each as often as before. |
| StableSort.SortBySorted | src/index.ts:333-337 | Under a total preorder on keys, the sorted rows have non-decreasing keys. |
| StableSort.InsertWithKey | src/index.ts:333-337 | Inserting one element adds it, and nothing else, to the elements whose key ties with any given key. |
| StableSort.SortByStable | src/index.ts:333-337 | For every key, the rows whose key ties with it keep their relative order. |
| Spans.FirstTruthy | src/index.ts:342-351 | The result is the value of the first alias that is present and truthy, or the fallback when none is. |
| Spans.Unwrap | src/index.ts:324-330 | A row is replaced by its `data` exactly when `data` is an object or array, and is kept otherwise. |
| Spans.Normalize | src/index.ts:340-388 | Each canonical field is the first truthy of its aliases, or `"N/A"`/`"ROOT"`, so no field is falsy. `attributes` holds exactly the entries whose keys are neither aliases nor `COUNT` nor `__proto__`, with values unchanged. |
| Spans.ParentSortKey | src/index.ts:334-335 | The sort key is the string form of `trace.parent_id` when truthy, else of `parent_id` when truthy, else empty. |
| Spans.FirstTruthyReadsOnlyKeys | src/index.ts:342-351 | A chain of alias lookups depends only on the listed keys. |
| Spans.CanonicalFieldsReadOnlyAliases | src/index.ts:342-385 | The canonical fields depend only on the twelve alias keys, and no alias key ever appears in `attributes`. |
| Spans.SortKeyIgnoresParentDotId | src/index.ts:334-335 | The sort key does not depend on `parent.id`. |
| Spans.ParentDotIdSortsAsRoot | src/index.ts:334-348 | A row whose only parent field is `parent.id` sorts under the empty key, like a root, yet its span reports that parent. |
| Report.NothingFoundInList | src/index.ts:202-266 | A list of rows is empty in the script's sense exactly when it has no row, or one row whose `data.COUNT` is 0. |
| Report.Interpret | src/index.ts:202-388 | No spans are reported exactly when `results` is missing or falsy, or has `length` 0, or has `length` 1 with a zero-`COUNT` first row. A `null` body, a non-array `results`, or a `null` row is malformed. Otherwise the spans are the processed rows. |
| Report.SpanListShape | src/index.ts:257-330 | Spans come from a non-empty list of rows without `null`, one span per row. A single row is never a zero-`COUNT` row. |
| Report.EmptyResultDetection | src/index.ts:202-267 | Both an empty `results` array and a single row whose `data.COUNT` is 0 give the empty report. |
| Report.NoSpansLikeEmptyList | src/index.ts:233-310 | The empty report's summary is the summary of an empty list of spans. |
| Report.BuildSpans | src/index.ts:324-388 | There is one span per row, and the spans are the normalised unwrapped rows in some order, each as often as its row. |
| Report.SortedRowsOrder | src/index.ts:332-337 | The unwrapped rows are ordered by parent key, and rows whose keys tie keep their order. |
| Report.WithoutNotAvailable | src/index.ts:429 | The filter keeps every value other than the string `"N/A"` as often as it occurs, and drops every `"N/A"`. |
| Report.WithoutNotAvailableConcat | src/index.ts:429 | Filtering keeps order: the filter of a concatenation is the concatenation of the filters. |
| Report.Services | src/index.ts:425-431 | Building the `Set` equals the first-occurrence list: each non-`"N/A"` value is kept unless it is a primitive seen before. |
| Report.SetFromIsFirstSeen | src/index.ts:425-431 | Inserting the filtered values into a `Set` after a prefix yields the first-occurrence list of the whole sequence. |
| Report.ServicesProperties | src/index.ts:425-431 | `services` never holds `"N/A"` and never repeats a primitive value. It holds exactly the other service values of the spans. |
| Report.RootSpanList | src/index.ts:432-433 | The root-span filter keeps as many spans as there are `"ROOT"` parent ids. |
| Report.RootSpans | src/index.ts:432-433 | `rootSpans` is the number of spans whose parent id is `"ROOT"`, and is at most the span count. |
| Report.SortDoesNotChangeSummary | src/index.ts:332-433 | The span count, root count and set of services are the same whether or not the rows are sorted. |
| Report.Summarize | src/index.ts:421-441 | The summary carries the trace id and the reported window. `spanCount` is the number of spans, `rootSpans` the number of `"ROOT"` parent ids, and `services` the first-occurrence list of service values, never holding `"N/A"`. An empty result gives zero counts and no services. |
| Report.TwoSpanTrace | src/index.ts:324-433 | A root span from `web` and its child from `db` give two spans, one root span, and the services `web`, `db` in that order. |
| Report.Present | src/index.ts:202-445 | The JSON document is printed exactly when the team slug is truthy, with `spanCount` the length of the printed spans. Otherwise an empty report prints the "no spans" line and spans print nothing more. |
| Cli.Readable | src/index.ts:154-167 | Reading a field of a response fails with the request's own error, or throws on a `null` body, and otherwise reads the body. |
| Cli.TeamSlug | src/index.ts:396-397 | A `null` auth body throws. Otherwise the slug is `team.slug` when `team` is present, and absent when it is not. |
| Cli.Run | src/index.ts:80-466 | Invalid arguments, a missing API key and an absolute bound outside the range of `Date` end the run before any request. A successful run made the two creation requests, the polls and one `/1/auth` request. Its document names the requested trace. |
| Cli.AfterCreation | src/index.ts:170-445 | Once both creation requests succeeded, the run makes between 3 and 13 requests in all. A success had a successful poll and a well-formed result. A request error that ends the run came from one of the first ten fetches or from `/1/auth`. |
| Cli.OutOfRangeStartSendsNothing | src/index.ts:99-101 | A start time beyond 8.64e12 seconds makes `toISOString` throw, so the run fails before its first request. |
| Cli.ExitCodeZeroExactlyWhenEveryStepSucceeds | src/index.ts:80-466 | The exit code is 0 exactly when the arguments, key and progress line, both creation requests, the poll, the processing and the auth request all succeed. |
| Cli.FailureStatusIsAnAnswerStatus | src/index.ts:446-513 | An API error that ends the run carries the status code of a non-2xx response the run received, the code the error handler reads. |
| Cli.RejectedQueryEndsRun | src/index.ts:144-152 | A non-2xx answer to creating the query ends the run after one request, with that status code. |
| Cli.TimeoutExactlyWhenAllPending | src/index.ts:170-464 | Once the query is created, the run fails with a timeout exactly when all 10 fetches were pending, after 12 requests. |

## Left out

- Network I/O is left out: headers, URL building and the endpoint. Each request is an `Api.Answer`: a rejected `fetch`, or a response given by its status, status text, body text and the outcome of parsing it. A rejected `response.text()` is folded into the rejected `fetch`.
- The ids returned by the two creation requests are not passed on, since the backend answers each request directly. In the script the query id is sent in the body of the result request, and the result id builds the polling URL. The query's JSON body beyond its trace id and time window is not modelled.
- The API key from `HONEYCOMB_API_KEY` is a parameter of `Cli.Run`. The endpoint from `HONEYCOMB_API_ENDPOINT` is not modelled.
- Console output is left out: the usage text, the text of the progress line, the error text and the 401/404 suggestions. The `RangeError` that formatting the progress line throws is modelled. The model returns the chosen `Output` or failure and the exit code instead of printing.
- The one-second `setTimeout` between fetches is left out. Only the bound of 10 fetches is kept.
- `Date.now()` for the summary window is two parameters, `nowStart` and `nowEnd`, one per reading of the clock, already in whole seconds.
- The trace link is left out: `traceUrl`, `encodeURIComponent` and the environment name. It is not tied to the summary window: it adds no times when `timeRange` is 0 or `NaN`, and reads the clock a third time for a relative window.
- `JSON.stringify` formatting is left out. The printed document is the `Summary` and the span list.
- `localeCompare` is an arbitrary order `leq` on strings. The permutation property holds for every `leq`; ordering and stability are proved for total preorders. Locale collation rules are not modelled.
- Numbers are integers. Fractions, exponents, `-0` and the 2^53 precision limit of JavaScript numbers are left out, both in parsed JSON and in `parseInt`.
- Strings are sequences of Unicode scalar values, not UTF-16 code units, so the `length` and index keys of strings with astral characters differ.
- `Object.entries` order is not modelled: entries are a map, so the key order of `attributes` is left out.
- Json.JsString: an object with its own `toString` key makes `String` and template literals throw, since that value is not callable. The model does not promise this failure. It would affect the sort key (`Spans.ParentSortKey`), the `error` field of an API error body (`Api.ErrorMessage`, which then falls back to the raw text) and the team slug in the link.
- Arrays and objects are compared by reference in `Set` and `===`. The model states no-duplicate properties for primitive values only, and treats every parsed array or object as distinct.
- Report.ServicesProperties: "no duplicates" is stated for primitive services only. Two equal objects parsed from JSON are distinct references, so the `Set` keeps both.
- `showUsage` text and the `main().catch` handler are left out.

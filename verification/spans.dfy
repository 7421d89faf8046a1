/**
 * From a raw result row to a span record: one level of `data` unwrapped, each
 * canonical field taken from the first truthy of its aliases, and the other
 * keys kept as attributes. Also the key by which rows are sorted.
 */
module Spans {
  import opened Wrappers
  import opened Json

  const NotAvailable: JsonValue := JString("N/A")
  const RootParent: JsonValue := JString("ROOT")

  const SpanIdKeys: seq<string> := ["trace.span_id", "span.id", "span_id"]
  const ParentIdKeys: seq<string> := ["trace.parent_id", "parent.id", "parent_id"]
  const NameKeys: seq<string> := ["name", "span.name"]
  const ServiceKeys: seq<string> := ["service.name", "service"]
  const DurationKeys: seq<string> := ["duration_ms", "duration"]

  /** The parent aliases the sort consults: `parent.id` is not among them. */
  const SortParentKeys: seq<string> := ["trace.parent_id", "parent_id"]

  /** The twelve alias keys. */
  const AliasKeys: set<string> :=
    set k | k in SpanIdKeys + ParentIdKeys + NameKeys + ServiceKeys + DurationKeys

  /**
   * Keys that never appear in `attributes`: the aliases and `COUNT`, which are
   * skipped, and `ProtoKey`, whose assignment replaces the prototype of
   * `attributes` instead of adding an own key, so `JSON.stringify` never
   * shows it.
   */
  const ExcludedKeys: set<string> := AliasKeys + {"COUNT", ProtoKey}

  datatype Span = Span(
    spanId: JsonValue,
    parentId: JsonValue,
    name: JsonValue,
    service: JsonValue,
    duration: JsonValue,
    attributes: map<string, JsonValue>)

  /** `v[key]` exists and is truthy. */
  predicate TruthyAt(v: JsonValue, key: string) {
    Prop(v, key).Some? && Truthy(Prop(v, key).value)
  }

  /**
   * `r` is what `v[keys[0]] || v[keys[1]] || … || fallback` evaluates to:
   * the first truthy alias, or the fallback when none is truthy.
   */
  ghost predicate FirstTruthyOf(v: JsonValue, keys: seq<string>, fallback: JsonValue, r: JsonValue) {
    || (exists i :: 0 <= i < |keys| && TruthyAt(v, keys[i]) && r == Prop(v, keys[i]).value
          && forall j :: 0 <= j < i ==> !TruthyAt(v, keys[j]))
    || ((forall i :: 0 <= i < |keys| ==> !TruthyAt(v, keys[i])) && r == fallback)
  }

  /** A chain of `||` over the properties `keys` of `v`, ending in `fallback`. */
  function FirstTruthy(v: JsonValue, keys: seq<string>, fallback: JsonValue): (r: JsonValue)
    ensures FirstTruthyOf(v, keys, fallback, r)
    ensures Truthy(r) || r == fallback
  {
    if |keys| == 0 then fallback
    else if TruthyAt(v, keys[0]) then Prop(v, keys[0]).value
    else
      var rest := keys[1..];
      var r := FirstTruthy(v, rest, fallback);
      assert FirstTruthyOf(v, keys, fallback, r) by {
        if exists i :: 0 <= i < |rest| && TruthyAt(v, rest[i]) && r == Prop(v, rest[i]).value
                       && forall j :: 0 <= j < i ==> !TruthyAt(v, rest[j]) {
          var i :| 0 <= i < |rest| && TruthyAt(v, rest[i]) && r == Prop(v, rest[i]).value
                   && forall j :: 0 <= j < i ==> !TruthyAt(v, rest[j]);
          assert keys[i + 1] == rest[i];
          forall j | 0 < j < i + 1
            ensures !TruthyAt(v, keys[j])
          {
            assert keys[j] == rest[j - 1];
          }
        } else {
          forall i | 0 < i < |keys|
            ensures !TruthyAt(v, keys[i])
          {
            assert keys[i] == rest[i - 1];
          }
        }
      }
      r
  }

  /** A row whose `data` is a non-null object or array is replaced by it; one level only. */
  function Unwrap(row: JsonValue): (r: JsonValue)
    ensures r == row || (Prop(row, "data") == Some(r) && IsObjectLike(r))
    ensures (exists d :: Prop(row, "data") == Some(d) && IsObjectLike(d)) ==> Prop(row, "data") == Some(r)
  {
    match Prop(row, "data")
    case Some(d) => if IsObjectLike(d) then d else row
    case None => row
  }

  /** The fields of a normalised span: canonical values and the left-over attributes. */
  function Normalize(v: JsonValue): (s: Span)
    ensures FirstTruthyOf(v, SpanIdKeys, NotAvailable, s.spanId)
    ensures FirstTruthyOf(v, ParentIdKeys, RootParent, s.parentId)
    ensures FirstTruthyOf(v, NameKeys, NotAvailable, s.name)
    ensures FirstTruthyOf(v, ServiceKeys, NotAvailable, s.service)
    ensures FirstTruthyOf(v, DurationKeys, NotAvailable, s.duration)
    ensures Truthy(s.spanId) && Truthy(s.parentId) && Truthy(s.name) && Truthy(s.service) && Truthy(s.duration)
    ensures s.attributes.Keys == Entries(v).Keys - ExcludedKeys
    ensures forall k :: k in s.attributes ==> s.attributes[k] == Entries(v)[k]
  {
    Span(
      FirstTruthy(v, SpanIdKeys, NotAvailable),
      FirstTruthy(v, ParentIdKeys, RootParent),
      FirstTruthy(v, NameKeys, NotAvailable),
      FirstTruthy(v, ServiceKeys, NotAvailable),
      FirstTruthy(v, DurationKeys, NotAvailable),
      map k | k in Entries(v) && k !in ExcludedKeys :: Entries(v)[k])
  }

  /**
   * `String(a["trace.parent_id"] || a["parent_id"] || "")`, the key rows are
   * sorted by: the string form of the first truthy of the two, else empty.
   */
  function ParentSortKey(v: JsonValue): (r: string)
    ensures TruthyAt(v, "trace.parent_id") ==> r == JsString(Prop(v, "trace.parent_id").value)
    ensures !TruthyAt(v, "trace.parent_id") && TruthyAt(v, "parent_id") ==>
      r == JsString(Prop(v, "parent_id").value)
    ensures !TruthyAt(v, "trace.parent_id") && !TruthyAt(v, "parent_id") ==> r == ""
  {
    var fallback := JString("");
    assert SortParentKeys[1..] == ["parent_id"] && ["parent_id"][1..] == [];
    assert FirstTruthy(v, ["parent_id"], fallback)
        == if TruthyAt(v, "parent_id") then Prop(v, "parent_id").value else fallback;
    JsString(FirstTruthy(v, SortParentKeys, fallback))
  }

  lemma {:induction false} FirstTruthyReadsOnlyKeys(v: JsonValue, w: JsonValue, keys: seq<string>, fallback: JsonValue)
    requires forall k :: k in keys ==> Prop(v, k) == Prop(w, k)
    ensures FirstTruthy(v, keys, fallback) == FirstTruthy(w, keys, fallback)
  {
    if |keys| > 0 {
      assert keys[0] in keys;
      FirstTruthyReadsOnlyKeys(v, w, keys[1..], fallback);
    }
  }

  /**
   * No key feeds both a canonical field and `attributes`: the canonical fields
   * are decided by the alias keys alone, and `attributes` never holds one.
   */
  lemma CanonicalFieldsReadOnlyAliases(v: JsonValue, w: JsonValue)
    requires forall k :: k in AliasKeys ==> Prop(v, k) == Prop(w, k)
    ensures var (a, b) := (Normalize(v), Normalize(w));
      a.spanId == b.spanId && a.parentId == b.parentId && a.name == b.name
      && a.service == b.service && a.duration == b.duration
    ensures Normalize(v).attributes.Keys !! AliasKeys
  {
    FirstTruthyReadsOnlyKeys(v, w, SpanIdKeys, NotAvailable);
    FirstTruthyReadsOnlyKeys(v, w, ParentIdKeys, RootParent);
    FirstTruthyReadsOnlyKeys(v, w, NameKeys, NotAvailable);
    FirstTruthyReadsOnlyKeys(v, w, ServiceKeys, NotAvailable);
    FirstTruthyReadsOnlyKeys(v, w, DurationKeys, NotAvailable);
  }

  /** The sort key ignores `parent.id`, although the normaliser reads it. */
  lemma SortKeyIgnoresParentDotId(v: JsonValue, w: JsonValue)
    requires forall k :: k != "parent.id" ==> Prop(v, k) == Prop(w, k)
    ensures ParentSortKey(v) == ParentSortKey(w)
  {
    FirstTruthyReadsOnlyKeys(v, w, SortParentKeys, JString(""));
  }

  /** A row with only `parent.id` sorts with the roots, yet its span names that parent. */
  lemma ParentDotIdSortsAsRoot(p: string)
    requires p != ""
    ensures ParentSortKey(JObject(map["parent.id" := JString(p)])) == ""
    ensures Normalize(JObject(map["parent.id" := JString(p)])).parentId == JString(p)
  {
    var v := JObject(map["parent.id" := JString(p)]);
    assert "trace.parent_id" != "parent.id" && "parent_id" != "parent.id";
    assert !TruthyAt(v, "trace.parent_id") && !TruthyAt(v, "parent_id");
    assert TruthyAt(v, "parent.id");
    assert ParentIdKeys[1..] == ["parent.id", "parent_id"];
    assert FirstTruthy(v, ParentIdKeys[1..], RootParent) == JString(p);
    assert Normalize(v).parentId == FirstTruthy(v, ParentIdKeys, RootParent);
  }
}

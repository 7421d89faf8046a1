/**
 * Parsed JSON values and the few JavaScript operations the script applies to
 * them: truthiness, `typeof … === "object"`, property lookup, `Object.entries`
 * and conversion to a string.
 */
module Json {
  import opened Wrappers
  import opened JsNumber

  datatype JsonValue =
    | JNull
    | JBool(b: bool)
    | JNum(n: int)
    | JString(s: string)
    | JArray(elems: seq<JsonValue>)
    | JObject(fields: map<string, JsonValue>)

  /**
   * The one key that assignment on a plain object does not store as an own
   * property: `o["__proto__"] = x` goes through the inherited prototype
   * setter instead.
   */
  const ProtoKey: string := "__proto__"

  /** JavaScript truthiness: `null`, `false`, `0` and `""` are falsy; arrays and objects never are. */
  predicate Truthy(v: JsonValue) {
    match v
    case JNull => false
    case JBool(b) => b
    case JNum(n) => n != 0
    case JString(s) => s != ""
    case JArray(_) => true
    case JObject(_) => true
  }

  /** `v && typeof v === "object"`: an array or an object. */
  predicate IsObjectLike(v: JsonValue) {
    v.JArray? || v.JObject?
  }

  /**
   * Values that `===` and `Set` compare by value. Arrays and objects are
   * compared by reference, and every one that `JSON.parse` builds is a
   * distinct reference.
   */
  predicate IsPrimitive(v: JsonValue) {
    !IsObjectLike(v)
  }

  /**
   * The index keys `"0"`, `"1"`, … of a list, each mapped to its element, and
   * no other key.
   */
  function IndexEntries(a: seq<JsonValue>): (m: map<string, JsonValue>)
    ensures forall i :: 0 <= i < |a| ==> NatToString(i) in m && m[NatToString(i)] == a[i]
    ensures forall k :: k in m ==> exists i :: 0 <= i < |a| && k == NatToString(i)
  {
    if |a| == 0 then map[]
    else
      var n := |a| - 1;
      var prev := IndexEntries(a[..n]);
      var m := prev[NatToString(n) := a[n]];
      assert forall i :: 0 <= i < |a| ==> NatToString(i) in m && m[NatToString(i)] == a[i] by {
        forall i | 0 <= i < |a|
          ensures NatToString(i) in m && m[NatToString(i)] == a[i]
        {
          if i < n {
            NatToStringDistinct(i, n);
            assert a[..n][i] == a[i];
          }
        }
      }
      m
  }

  /** Index keys are non-empty strings of digits, so no word such as `length` is one. */
  lemma IndexKeysAreDigits(a: seq<JsonValue>)
    ensures forall k :: k in IndexEntries(a) ==> 1 <= |k| && AllDigits(k)
  {
    forall k | k in IndexEntries(a)
      ensures 1 <= |k| && AllDigits(k)
    {
      var i :| 0 <= i < |a| && k == NatToString(i);
    }
  }

  /** The single-character strings of `s`, as a string's index properties hold them. */
  function Characters(s: string): (r: seq<JsonValue>)
    ensures |r| == |s|
    ensures forall i :: 0 <= i < |s| ==> r[i] == JString([s[i]])
  {
    seq(|s|, i requires 0 <= i < |s| => JString([s[i]]))
  }

  /**
   * `Object.entries(v)` as a map: an object's own fields, the index keys of an
   * array or a string, and nothing for the other primitives.
   */
  function Entries(v: JsonValue): (m: map<string, JsonValue>)
    ensures v.JObject? ==> m == v.fields
    ensures v.JArray? ==> forall i :: 0 <= i < |v.elems| ==> NatToString(i) in m && m[NatToString(i)] == v.elems[i]
    ensures v.JString? ==> forall i :: 0 <= i < |v.s| ==> NatToString(i) in m && m[NatToString(i)] == JString([v.s[i]])
    ensures v.JArray? ==> forall k :: k in m ==> exists i :: 0 <= i < |v.elems| && k == NatToString(i)
    ensures v.JString? ==> forall k :: k in m ==> exists i :: 0 <= i < |v.s| && k == NatToString(i)
    ensures !v.JObject? ==> "length" !in m
    ensures v.JNull? || v.JBool? || v.JNum? ==> m == map[]
  {
    match v
    case JObject(m) => m
    case JArray(a) =>
      IndexKeysAreDigits(a);
      assert !IsDigit("length"[0]);
      IndexEntries(a)
    case JString(s) =>
      IndexKeysAreDigits(Characters(s));
      assert !IsDigit("length"[0]);
      IndexEntries(Characters(s))
    case _ => map[]
  }

  /**
   * `v[key]`: an own entry, or the `length` of an array or string; `None` is
   * `undefined`. On `null` this is `None`, the behaviour of `v?.[key]`;
   * callers reject `null` first wherever the script would throw.
   */
  function Prop(v: JsonValue, key: string): (r: Option<JsonValue>)
    ensures v.JObject? ==> (r.Some? <==> key in v.fields)
    ensures v.JObject? && key in v.fields ==> r == Some(v.fields[key])
    ensures IsPrimitive(v) && !v.JString? ==> r == None
  {
    var m := Entries(v);
    if key in m then Some(m[key])
    else if key == "length" && v.JArray? then Some(JNum(|v.elems|))
    else if key == "length" && v.JString? then Some(JNum(|v.s|))
    else None
  }

  /**
   * `String(v)`, also what a template literal substitutes. A number is written
   * so that `parseInt` reads it back; an object is `[object Object]`.
   */
  function JsString(v: JsonValue): (r: string)
    ensures v.JString? ==> r == v.s
    ensures v.JNum? ==> ParseInt(r) == Finite(v.n)
    ensures v.JObject? ==> r == "[object Object]"
    ensures v.JArray? && |v.elems| == 0 ==> r == ""
  {
    match v
    case JNull => "null"
    case JBool(b) => if b then "true" else "false"
    case JNum(n) =>
      ParseIntOfIntToString(n, "");
      assert IntToString(n) + "" == IntToString(n);
      IntToString(n)
    case JString(s) => s
    case JArray(a) => JoinElements(a)
    case JObject(_) => "[object Object]"
  }

  /** `a.join(",")`, which writes `null` elements as empty strings. */
  function JoinElements(a: seq<JsonValue>): string {
    if |a| == 0 then ""
    else
      var first := if a[0].JNull? then "" else JsString(a[0]);
      if |a| == 1 then first else first + "," + JoinElements(a[1..])
  }

  /** The falsy JSON values: `null`, `false`, `0` and the empty string. */
  lemma FalsyValues(v: JsonValue)
    ensures !Truthy(v) <==> v in {JNull, JBool(false), JNum(0), JString("")}
  {
  }

  /**
   * `a.length` is the number of elements, not shadowed by any entry, and
   * `a[0]` is the first element of a non-empty list.
   */
  lemma ListProps(a: seq<JsonValue>)
    ensures Prop(JArray(a), "length") == Some(JNum(|a|))
    ensures |a| > 0 ==> Prop(JArray(a), "0") == Some(a[0])
    ensures |a| == 0 ==> Prop(JArray(a), "0") == None
  {
    assert NatToString(0) == "0";
  }
}

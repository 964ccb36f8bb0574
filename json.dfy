/**
  * The Python values that `json.loads` produces (None, bool, int/float, str, list, dict),
  * with the operations the modelled code applies to them: `d.get(k, default)`, `d[k]`,
  * truthiness and star-unpacking into call arguments. `json.loads` itself is not modelled:
  * every caller receives it as a `decode` parameter.
  */
module Json {
  import opened Common

  /** A decoded JSON value. A dict keeps its key/value pairs in insertion order. */
  datatype Json =
    | JNull
    | JBool(b: bool)
    | JNumber(n: real)
    | JString(s: string)
    | JArray(items: seq<Json>)
    | JObject(fields: seq<(string, Json)>)

  /** What `json.loads(text)` does: return a value or raise `JSONDecodeError` with a message. */
  datatype Decoded = Decoded(value: Json) | DecodeError(message: string)

  /** The value stored last under `key` among the first `n` pairs. */
  function LookupIn(fields: seq<(string, Json)>, key: string, n: nat): Option<Json>
    requires n <= |fields|
  {
    if n == 0 then None
    else if fields[n - 1].0 == key then Some(fields[n - 1].1)
    else LookupIn(fields, key, n - 1)
  }

  /** Dict lookup: the value stored last under `key` (a later duplicate key overrides an earlier one). */
  function Lookup(fields: seq<(string, Json)>, key: string): Option<Json>
  {
    LookupIn(fields, key, |fields|)
  }

  lemma {:induction false} LookupInFindsLast(fields: seq<(string, Json)>, key: string, n: nat)
    requires n <= |fields|
    ensures LookupIn(fields, key, n).None? <==> forall k | 0 <= k < n :: fields[k].0 != key
    ensures LookupIn(fields, key, n).Some? ==>
              exists k | 0 <= k < n :: fields[k] == (key, LookupIn(fields, key, n).value)
                && forall j | k < j < n :: fields[j].0 != key
  {
    if n > 0 {
      LookupInFindsLast(fields, key, n - 1);
      if fields[n - 1].0 == key {
        assert fields[n - 1] == (key, LookupIn(fields, key, n).value);
      }
    }
  }

  /** The lookup finds nothing exactly when the key is absent, and otherwise the last pair stored under it. */
  lemma LookupFindsLast(fields: seq<(string, Json)>, key: string)
    ensures Lookup(fields, key).None? <==> forall k | 0 <= k < |fields| :: fields[k].0 != key
    ensures Lookup(fields, key).Some? ==>
              exists k | 0 <= k < |fields| :: fields[k] == (key, Lookup(fields, key).value)
                && forall j | k < j < |fields| :: fields[j].0 != key
  {
    LookupInFindsLast(fields, key, |fields|);
  }

  lemma {:induction false} LookupInAt(fields: seq<(string, Json)>, key: string, k: nat, n: nat)
    requires k < n <= |fields| && fields[k].0 == key
    requires forall j | k < j < n :: fields[j].0 != key
    ensures LookupIn(fields, key, n) == Some(fields[k].1)
  {
    if k < n - 1 {
      LookupInAt(fields, key, k, n - 1);
    }
  }

  /** A key stored at position `k` and never again afterwards is looked up to the value stored there. */
  lemma LookupAt(fields: seq<(string, Json)>, key: string, k: nat)
    requires k < |fields| && fields[k].0 == key
    requires forall j | k < j < |fields| :: fields[j].0 != key
    ensures Lookup(fields, key) == Some(fields[k].1)
  {
    LookupInAt(fields, key, k, |fields|);
  }

  /** `key in d`. */
  predicate Has(obj: Json, key: string)
    requires obj.JObject?
  {
    Lookup(obj.fields, key).Some?
  }

  /** `d.get(key, default)`; `d.get(key)` is `Get(d, key, JNull)`. */
  function Get(obj: Json, key: string, default: Json): (v: Json)
    requires obj.JObject?
    ensures Has(obj, key) ==> Some(v) == Lookup(obj.fields, key)
    ensures !Has(obj, key) ==> v == default
  {
    match Lookup(obj.fields, key)
    case Some(v) => v
    case None => default
  }

  /** Python truthiness (`if v:`). */
  predicate Truthy(v: Json) {
    match v
    case JNull => false
    case JBool(b) => b
    case JNumber(n) => n != 0.0
    case JString(s) => s != ""
    case JArray(items) => items != []
    case JObject(fields) => fields != []
  }

  /**
    * The arguments `f(*v)` passes: a list's items, a string's characters, a dict's keys;
    * any other value raises TypeError (`None` here).
    */
  function StarArgs(v: Json): (r: Option<seq<Json>>)
    ensures r.None? <==> (v.JNull? || v.JBool? || v.JNumber?)
    ensures v.JArray? ==> r == Some(v.items)
    ensures v.JString? ==> r.Some? && |r.value| == |v.s|
                           && forall i | 0 <= i < |v.s| :: r.value[i] == JString([v.s[i]])
    ensures v.JObject? ==> r.Some? && |r.value| == |v.fields|
                           && forall i | 0 <= i < |v.fields| :: r.value[i] == JString(v.fields[i].0)
  {
    match v
    case JArray(items) => Some(items)
    case JString(s) => Some(seq(|s|, i requires 0 <= i < |s| => JString([s[i]])))
    case JObject(fields) => Some(seq(|fields|, i requires 0 <= i < |fields| => JString(fields[i].0)))
    case _ => None
  }
}

/**
 * The package.json document that husky-conf reads, edits and writes back:
 * a JSON object, i.e. a map from member names to JSON values.
 */
module Document {

  datatype Option<+T> = None | Some(value: T)

  /** A JSON value. Numbers are kept as (exact) reals; their precision plays no part here. */
  datatype Json =
    | JNull
    | JBool(b: bool)
    | JNumber(n: real)
    | JString(s: string)
    | JArray(items: seq<Json>)
    | JObject(fields: map<string, Json>)

  /** The top-level object of package.json. Member order is not modelled. */
  type Manifest = map<string, Json>

  /** The member that read-pkg adds and that every write strips. */
  const IdKey := "_id"

  /** A member of an object, or None where JavaScript yields `undefined`. */
  function Lookup(obj: map<string, Json>, key: string): Option<Json>
  {
    if key in obj then Some(obj[key]) else None
  }

  /**
   * The members of a value as lodash's `merge` and `omit` see them when the value is
   * the target: an object gives its own members, `undefined` and `null` give none.
   */
  function FieldsOf(v: Option<Json>): (r: map<string, Json>)
    ensures v.Some? && v.value.JObject? ==> r == v.value.fields
    ensures !(v.Some? && v.value.JObject?) ==> r == map[]
  {
    match v
    case Some(JObject(fields)) => fields
    case _ => map[]
  }

  /** JavaScript truthiness of a JSON value: the falsy JSON values are `null`, `false`, `0` and `""`. */
  predicate Truthy(j: Json): (b: bool)
    ensures b <==> j != JNull && j != JBool(false) && j != JNumber(0.0) && j != JString("")
  {
    match j
    case JNull => false
    case JBool(b) => b
    case JNumber(n) => n != 0.0
    case JString(s) => s != ""
    case JArray(_) => true
    case JObject(_) => true
  }

  /** lodash `omit(pkg, '_id')`: a copy of the document without its `_id` member. */
  function OmitId(m: Manifest): (r: Manifest)
    ensures IdKey !in r
    ensures forall k :: k in m && k != IdKey ==> k in r && r[k] == m[k]
    ensures forall k :: k in r ==> k in m
  {
    m - {IdKey}
  }

  /** Omitting `_id` from a document that has none changes nothing. */
  lemma OmitIdNoop(m: Manifest)
    requires IdKey !in m
    ensures OmitId(m) == m
  {
  }

  /** Omitting `_id` and setting another member can be done in either order. */
  lemma OmitIdUpdate(m: Manifest, k: string, v: Json)
    requires k != IdKey
    ensures OmitId(m[k := v]) == OmitId(m)[k := v]
  {
  }

  // Map equalities the editor proofs instantiate explicitly.

  lemma UpdateSame<K, V>(m: map<K, V>, k: K, v: V)
    requires k in m && m[k] == v
    ensures m[k := v] == m
  {
  }

  lemma UpdateCommutes<K, V>(m: map<K, V>, a: K, v: V, b: K, w: V)
    requires a != b || v == w
    ensures m[a := v][b := w] == m[b := w][a := v]
  {
  }

  lemma UpdateOverrides<K, V>(m: map<K, V>, a: K, v: V, w: V)
    ensures m[a := v][a := w] == m[a := w]
  {
  }

  lemma UpdateBothOverride<K, V>(m: map<K, V>, a: K, v: V, b: K, w: V, v2: V, w2: V)
    ensures m[a := v][b := w][a := v2][b := w2] == m[a := v2][b := w2]
  {
  }

  /** Every member of the object is a string: the shape of `scripts` and `husky.hooks`. */
  predicate StringMembers(fields: map<string, Json>)
  {
    forall k :: k in fields ==> fields[k].JString?
  }
}

/**
 * JavaScript values as the engine sees them: JSON-like payloads, plain
 * objects as string-keyed maps, and JavaScript truthiness.
 */
module Json {
  import opened Wrappers

  datatype Json =
    | JNull
    | JBool(b: bool)
    | JNum(n: int)
    | JStr(s: string)
    | JArr(items: seq<Json>)
    | JObj(fields: map<string, Json>)

  /**
   * A property that distinguishes `undefined` (never assigned, or assigned
   * `undefined`) from `null`; the store leaves an `undefined` column out of
   * an update and writes `null` as NULL.
   */
  datatype Field<+T> = Undefined | Null | Defined(value: T)

  /** A plain object: `record.data`, a hook's result, the extension bag. */
  type Data = map<string, Json>

  /** JavaScript truthiness of a value. */
  predicate Truthy(j: Json) {
    match j
    case JNull => false
    case JBool(b) => b
    case JNum(n) => n != 0
    case JStr(s) => s != ""
    case JArr(_) => true
    case JObj(_) => true
  }

  /** Truthiness of an optional string (`undefined` and `''` are falsy). */
  predicate Present(o: Option<string>) {
    o.Some? && o.value != ""
  }

  /** Truthiness of an optional number (`undefined` and `0` are falsy). */
  predicate PresentNum(o: Option<int>) {
    o.Some? && o.value != 0
  }

  /** Truthiness of the property `k` of an object (a missing key reads `undefined`). */
  predicate TruthyAt(m: Data, k: string) {
    k in m && Truthy(m[k])
  }

  /** `o[k] = v`, where assigning `undefined` leaves the key without a value. */
  function Put(m: Data, k: string, v: Option<Json>): (r: Data)
    ensures v.Some? ==> k in r && r[k] == v.value
    ensures v.None? ==> k !in r
    ensures forall j :: j in m && j != k ==> j in r && r[j] == m[j]
    ensures forall j :: j in r ==> j in m || j == k
  {
    match v
    case Some(x) => m[k := x]
    case None => m - {k}
  }

  function StrOrUndefined(o: Option<string>): Option<Json> {
    match o
    case Some(s) => Some(JStr(s))
    case None => None
  }
}

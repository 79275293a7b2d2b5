/** The slice of JavaScript's value model the services rely on: plain objects
    as finite maps from property names to values, property reads that yield
    `undefined` for a missing key, truthiness, and object rest-destructuring
    (`const { k, ...rest } = o`). */
module JsValues {

  /** A JavaScript value as it reaches the services. Numbers are integers
      here; arrays and nested objects are not inspected and collapse to `Other`. */
  datatype Value =
    | Undefined
    | Null
    | Bool(b: bool)
    | Num(n: int)
    | Str(s: string)
    | Other

  /** A plain object: its own enumerable properties. */
  type JsObject = map<string, Value>

  /** `o.k`: the property's value, or `undefined` when `o` has no such key. */
  function Field(o: JsObject, k: string): Value {
    if k in o then o[k] else Undefined
  }

  /** `null` or `undefined`, the two values optional-property checks skip. */
  predicate Nullish(v: Value) {
    v == Undefined || v == Null
  }

  /** JavaScript truthiness: `undefined`, `null`, `false`, `0` and `""` are falsy. */
  predicate Truthy(v: Value) {
    match v
    case Undefined => false
    case Null => false
    case Bool(b) => b
    case Num(n) => n != 0
    case Str(s) => s != ""
    case Other => true
  }

  /** The `rest` object of `const { k, ...rest } = o`: every property of `o`
      except `k`, each with its value unchanged. */
  function Omit(o: JsObject, k: string): (r: JsObject)
    ensures k !in r
    ensures r.Keys == o.Keys - {k}
    ensures forall k' :: k' in r ==> r[k'] == o[k']
  {
    map k' | k' in o && k' != k :: o[k']
  }

  /** Reading any property other than the omitted one gives the same value as
      on the original object; reading the omitted one gives `undefined`. */
  lemma OmitField(o: JsObject, k: string, k': string)
    ensures Field(Omit(o, k), k') == if k' == k then Undefined else Field(o, k')
  {
  }
}

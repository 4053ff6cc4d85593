/** Decoded JSON values as the Python services see them: request bodies, Firestore
    documents and ingestion rows are all dictionaries of such values. */
module Values {

  datatype Option<+T> = None | Some(value: T)

  /** What a request handler or a pipeline step ends with. `Error` stands for an
      uncaught Python exception (or an explicit `{'error': ...}, 500` reply). */
  datatype Outcome<+T> = Ok(value: T) | NotFound | Forbidden | IndexRequired(url: string) | Error
  {
    /** The same failure, carried by an outcome of another value type. */
    function Propagate<U>(): (r: Outcome<U>)
      requires !Ok?
      ensures !r.Ok?
      ensures NotFound? <==> r.NotFound?
      ensures Forbidden? <==> r.Forbidden?
      ensures Error? <==> r.Error?
      ensures IndexRequired? <==> r.IndexRequired? && r.url == url
    {
      match this
      case NotFound => NotFound
      case Forbidden => Forbidden
      case IndexRequired(u) => IndexRequired(u)
      case Error => Error
    }
  }

  /** `None` and JSON `null` are the same Python object, so one constructor serves both.
      Floating-point numbers (geocoder coordinates) are passed through as opaque values
      and never inspected, so only integers are modelled. */
  datatype Json =
    | JNull
    | JBool(b: bool)
    | JNum(n: int)
    | JStr(s: string)
    | JArr(elems: seq<Json>)
    | JObj(fields: map<string, Json>)

  /** A dictionary with string keys: a document, a row, a request body. */
  type Doc = map<string, Json>

  /** Python truthiness of a decoded value (`if x:`, `x or y`). */
  predicate Truthy(v: Json)
  {
    match v
    case JNull => false
    case JBool(b) => b
    case JNum(n) => n != 0
    case JStr(s) => s != ""
    case JArr(a) => a != []
    case JObj(m) => m != map[]
  }

  /** `d.get(k)`: `None` when the key is absent. */
  function Get(d: Doc, k: string): (r: Json)
    ensures k in d ==> r == d[k]
    ensures k !in d ==> r == JNull
  {
    if k in d then d[k] else JNull
  }

  /** Python's `a or b`. */
  function Or(a: Json, b: Json): (r: Json)
    ensures Truthy(a) ==> r == a
    ensures !Truthy(a) ==> r == b
  {
    if Truthy(a) then a else b
  }

  function Min(a: int, b: int): int { if a <= b then a else b }
  function Max(a: int, b: int): int { if a >= b then a else b }

  /** `s.startswith(prefix)`. */
  predicate StartsWith(s: string, prefix: string)
  {
    |prefix| <= |s| && s[..|prefix|] == prefix
  }
}

/** Values shared by the backend model: the JSON-like values held in Python
    dicts and Firestore documents, the failure-carrying wrappers, and the
    HTTP errors that FastAPI handlers raise. */
module Values {

  datatype Option<+T> = None | Some(value: T)

  datatype Result<+T, +E> = Ok(value: T) | Err(error: E)

  datatype Outcome<+E> = Pass | Fail(error: E)

  newtype byte = x: int | 0 <= x < 256

  /** The content of an uploaded file. */
  type Bytes = seq<byte>

  /** A FastAPI HTTPException: status code and detail text. */
  datatype HttpError = HttpError(status: int, detail: string)

  /** What `str(e)` gives for an HTTPException (Starlette formats it as
      "<status>: <detail>"); the status is kept symbolic. */
  function Describe(e: HttpError): string
  {
    StatusText(e.status) + ": " + e.detail
  }

  function StatusText(status: int): string
  {
    if status == 400 then "400"
    else if status == 401 then "401"
    else if status == 404 then "404"
    else if status == 500 then "500"
    else "HTTP error"
  }

  /** A value as it appears in a Python dict decoded from JSON or read from
      Firestore. Python ints and floats are both `Num`. */
  datatype Value =
    | Null
    | Bool(b: bool)
    | Num(n: real)
    | Str(s: string)
    | List(items: seq<Value>)
    | Obj(fields: map<string, Value>)
    | ServerTimestamp  // the firestore.SERVER_TIMESTAMP sentinel

  /** A dict with string keys: a Firestore document or a parsed record. */
  type Record = map<string, Value>

  /** Python truthiness (`if x:`). */
  predicate Truthy(v: Value)
  {
    match v
    case Null => false
    case Bool(b) => b
    case Num(n) => n != 0.0
    case Str(s) => s != ""
    case List(items) => items != []
    case Obj(fields) => fields != map[]
    case ServerTimestamp => true
  }

  /** Values Python can use as a dict key or a set element. */
  predicate Hashable(v: Value)
  {
    !v.List? && !v.Obj?
  }

  /** `d.get(key, default)`. */
  function Get(d: Record, key: string, default: Value): Value
  {
    if key in d then d[key] else default
  }

  /** A document as a stream yields it: its id and `to_dict()`. */
  datatype Doc = Doc(id: string, data: Record)

  /** `parsed.update({"uid": uid, idField: id, urlField: url})`, as both
      upload routers tag a parsed record before storing it: the three
      bookkeeping fields are added and override whatever the model
      returned under those names; every other field is kept. */
  function Stamped(parsed: Record, uid: string, idField: string, id: string, urlField: string, url: string): (r: Record)
    requires "uid" != idField && "uid" != urlField && idField != urlField
    ensures r.Keys == parsed.Keys + {"uid", idField, urlField}
    ensures r["uid"] == Str(uid) && r[idField] == Str(id) && r[urlField] == Str(url)
    ensures forall k :: k in parsed && k != "uid" && k != idField && k != urlField ==> r[k] == parsed[k]
  {
    parsed["uid" := Str(uid)][idField := Str(id)][urlField := Str(url)]
  }
}

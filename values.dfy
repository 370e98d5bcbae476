/**
 * The data the release script handles: parsed JSON documents, and the
 * exceptions its operations can raise.
 */
module Values {

  import opened Wrappers

  /** A parsed JSON document (what `json.loads` returns). */
  datatype Json =
    | JNull
    | JBool(b: bool)
    | JNum(n: int)
    | JStr(s: string)
    | JArr(items: seq<Json>)
    | JObj(fields: map<string, Json>)

  /** The exceptions that can escape an operation of the script. */
  datatype Failure =
    | HttpFailure(status: int)    // urllib.error.HTTPError with this status
    | NetworkError(reason: string) // any other error raised by the request
    | KeyError(key: string)        // a missing dictionary key
    | TypeError                    // subscripting or iterating a value of the wrong kind
    | AttributeError               // calling `.read()` on `None`

  /** The status of the lookup failure that the primary repository lookup tolerates. */
  const NotFound: int := 404

  /**
   * Python's `v[key]` on a parsed JSON value: a dictionary lookup for an
   * object, a TypeError for every other kind of value.
   */
  function Subscript(v: Json, key: string): (r: Result<Json, Failure>)
    ensures r.Ok? <==> v.JObj? && key in v.fields
    ensures r.Ok? ==> r.value == v.fields[key]
    ensures r.Err? ==> r.error == if v.JObj? then KeyError(key) else TypeError
  {
    match v
    case JObj(fields) => if key in fields then Ok(fields[key]) else Err(KeyError(key))
    case _ => Err(TypeError)
  }

}

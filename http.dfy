/** Decoded JSON values, Python truthiness on them, and the responses the routes return
    (what `jsonify(...)`, optionally with a status code, produces). */
module Http {

  /** A decoded JSON document. Numbers are integers only: floating-point numbers are not modelled. */
  datatype Json =
    | JNull
    | JBool(b: bool)
    | JNum(n: int)
    | JStr(s: string)
    | JArr(items: seq<Json>)
    | JObj(fields: map<string, Json>)

  /** Python's truth value of the decoded value (`if data`, `if not question`):
      null, false, 0, "", [] and {} are false, everything else is true. */
  predicate Truthy(j: Json)
  {
    match j
    case JNull => false
    case JBool(b) => b
    case JNum(n) => n != 0
    case JStr(s) => s != ""
    case JArr(a) => a != []
    case JObj(m) => m != map[]
  }

  /** A response: HTTP status and JSON body. */
  datatype Response = Response(status: int, body: Json)

  /** `jsonify({"error": message}), status` */
  function ErrorResponse(status: int, message: string): Response {
    Response(status, JObj(map["error" := JStr(message)]))
  }
}

/** What the Next.js routes receive from the Flask service and what they
    answer their own callers. */
module Http {
  import opened Wrappers
  import opened Latin1
  import opened JsonValue
  import Backend

  /** A reply as `node-fetch` exposes it. */
  datatype HttpReply = HttpReply(status: int, statusText: string, contentType: Option<string>, body: seq<byte>)
  {
    /** `response.ok`. */
    predicate Ok()
    {
      200 <= status <= 299
    }
  }

  /** The JSON a route answers with, and its status. */
  datatype Response = Response(status: int, body: Json)

  /** The failures a route's `try` block catches besides its own `throw`s:
      a missing job document, text `JSON.parse` refuses, and a property read
      on `null`. */
  datatype Thrown = MissingDocument | InvalidJson | NullProperty(key: string)

  /** The message a caught failure carries. A `JSON.parse` failure is named
      by its error, `SyntaxError`: the message text the engine gives it is
      abstracted away. */
  function ThrownMessage(t: Thrown): string
  {
    match t
    case MissingDocument => "Document with the requested ID could not be found."
    case InvalidJson => "SyntaxError"
    case NullProperty(key) => "Cannot read properties of null (reading '" + key + "')"
  }

  function BadRequest(): (r: Response)
    ensures r.status == 400
  {
    Response(400, JObj([("error", JStr("Both jobId and questionNum are required"))]))
  }

  function NotFound(fileName: string): (r: Response)
    ensures r.status == 404
  {
    Response(404, JObj([("error", JStr("Recording file not found: " + fileName))]))
  }

  function ServerError(details: string): (r: Response)
    ensures r.status == 500
  {
    Response(500, JObj([("error", JStr("Internal server error")), ("details", JStr(details))]))
  }

  /** The Flask reply as the route receives it. An envelope comes with status
      200 and its declared type; an error comes with its status (500 for an
      uncaught exception) and a body the routes never read, left empty here. */
  function FromBackend(r: Backend.Reply): (h: HttpReply)
    ensures r.Envelope? ==> h.Ok() && h.contentType == Some(r.contentType) && h.body == r.body
    ensures r.Rejected? ==> h.status == r.status
    ensures r.Crashed? ==> h.status == 500
  {
    match r
    case Rejected(status, _) => HttpReply(status, if status == 400 then "BAD REQUEST" else "ERROR", Some("application/json"), [])
    case Crashed(_) => HttpReply(500, "INTERNAL SERVER ERROR", Some("text/html; charset=utf-8"), [])
    case Envelope(contentType, body) => HttpReply(200, "OK", Some(contentType), body)
  }
}

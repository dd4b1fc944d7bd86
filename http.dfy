/**
 * The shape of the web server's requests and responses as the handlers of
 * src/main.cpp see them: a method, a URI, the ordered arguments, and a reply
 * of status code, content type, optional Location header and body.
 */
module Http {
  import opened Definitions
  import opened Json
  import opened LogDocument

  // Status codes the firmware sends.
  const OK: int := 200                    // section 15.3.1 of RFC 9110
  const FOUND: int := 302                 // section 15.4.3 of RFC 9110
  const NOT_FOUND: int := 404             // section 15.5.5 of RFC 9110
  const INTERNAL_SERVER_ERROR: int := 500 // section 15.6.1 of RFC 9110

  datatype Method = Get | Head | Post | Put | Patch | Delete | Options

  /** A request: its method, URI and its arguments (name, value) in order. */
  datatype Request = Request(verb: Method, uri: string, args: seq<(string, string)>)

  /** What a reply carries: literal text, a JSON document, the log, or a streamed file. */
  datatype Body =
    | Text(text: string)
    | JsonBody(doc: JsonObject)
    | LogBody(tokens: seq<Token>)
    | FileBody(path: string)

  datatype Response = Response(status: int, contentType: string, location: Option<string>, body: Body)

  function Reply(status: int, contentType: string, body: Body): (r: Response)
    ensures r.status == status && r.contentType == contentType && r.body == body
    ensures r.location == None
  {
    Response(status, contentType, None, body)
  }

  predicate HasArg(req: Request, name: string)
  {
    exists i :: 0 <= i < |req.args| && req.args[i].0 == name
  }
}

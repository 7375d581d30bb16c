/** The response a handler fills in (src/response/response.go): a status
    code, header fields and a body.  Go hands handlers a pointer to a fresh
    record; here a response is a value, so two responses never share their
    header map and a handler's changes are the response it returns. */
module Response {
  import opened Status

  datatype Response = Response(body: string, headers: map<string, string>, statusCode: StatusCode)

  /** `CreateOkResponse`: a response that says 200 OK, with no header fields
      and an empty body. */
  function CreateOkResponse(): (r: Response)
    ensures r.statusCode == OkStatus && Verb(r.statusCode) == "OK"
    ensures r.body == "" && r.headers == map[]
  {
    Response("", map[], OkStatus)
  }
}

/** The oldest generation of the server, the `server` package
    (server/server.go, with its pattern parser in server/utils.go, which is
    the same code as src/util/server.go and is modelled by
    `RoutePattern.ParseRequestPattern`).  It starts with no default fields,
    only prints a message for an ill-formed pattern, and fills one fixed
    template for every response: the status line always says 200 OK, the
    content-type and content-length slots each end a line even when they
    are empty, and a route miss writes the template itself, verbs and all. */
module LegacyServer {
  import opened Text
  import opened Sprintf
  import opened Constants
  import LS = LegacyStatus
  import opened UrlPath
  import opened UrlQuery
  import RoutePattern
  import Req = Request
  import Resp = Response
  import Srv = Server
  import G = Gohst

  // ---------------------------------------------------------------------
  // The parts of a response

  /** `getResponseContentTypeHeader`: nothing when the handler set a
      `Content-Type`; otherwise the field of the server's default, or of
      `text/html`, without a line end. */
  function ContentTypeField(defaults: map<string, string>, responseHeaders: map<string, string>): (r: string)
    ensures r == "" <==> ContentTypeHeader in responseHeaders
    ensures r != "" ==> r + "\r\n" == G.ContentTypeLine(defaults, responseHeaders)
  {
    if ContentTypeHeader in responseHeaders then ""
    else ContentTypeHeader + ": " + G.DefaultContentType(defaults)
  }

  /** `getContentLengthHeader`, without a line end. */
  function ContentLengthField(body: string): (r: string)
    ensures r == "" <==> body == ""
    ensures r != "" ==> r + "\r\n" == G.ContentLengthLine(body)
  {
    if |body| == 0 then "" else ContentLengthHeader + ": " + Itoa(|body|)
  }

  /** The one template of `handleConnection`: the status line, the date, the
      server's name, `Connection: close`, then four slots (content type,
      content length, the handler's fields, the body), each followed by a
      line end. */
  const ResponsePieces: seq<string> :=
    ["", " ", " ", "\r\nDate: ", "\r\nServer: ", "\r\nConnection: close\r\n", "\r\n", "\r\n", "\r\n", "\r\n"]

  /** `handleGenericNotFound`: the template filled for a 404.  Its result
      is computed and then discarded by `handleConnection`. */
  function GenericNotFound(defaults: map<string, string>, date: string): (r: string)
    ensures G.StatusLine(LS.NotFound) + "\r\n" + G.FieldLines(G.FixedFields(date)) <= r
  {
    var a := [HTTPVersion, LS.String(LS.NotFound), LS.Verb(LS.NotFound), date, ServerName,
              ContentTypeField(defaults, map[]), "", "", ""];
    ResponseLayoutOf(a, LS.NotFound, date);
    PrefixOfNested(G.StatusLine(LS.NotFound), G.FieldLines(G.FixedFields(date)),
                   a[5] + ("\r\n" + (a[6] + ("\r\n" + (a[7] + ("\r\n" + (a[8] + "\r\n")))))));
    Format(ResponsePieces, a)
  }

  /** A handled response on the wire, the handler's fields in the order
      `order` lists them.  The handler's status code plays no part. */
  function SuccessText(defaults: map<string, string>, date: string, response: Resp.Response, order: seq<string>): string
    requires forall i :: 0 <= i < |order| ==> order[i] in response.headers
  {
    Format(ResponsePieces, [HTTPVersion, LS.String(LS.OK), LS.Verb(LS.OK), date, ServerName,
                            ContentTypeField(defaults, response.headers), ContentLengthField(response.body),
                            G.FieldLines(G.UserFields(response.headers, order)), response.body])
  }

  // ---------------------------------------------------------------------
  // Properties of the parts

  /** The template spelled out. */
  lemma ResponseExpand(a: seq<string>)
    requires |a| == 9
    ensures Format(ResponsePieces, a)
         == "" + (a[0] + (" " + (a[1] + (" " + (a[2] + ("\r\nDate: " + (a[3] + ("\r\nServer: " + (a[4]
            + ("\r\nConnection: close\r\n" + (a[5] + ("\r\n" + (a[6] + ("\r\n" + (a[7] + ("\r\n" + (a[8] + "\r\n")))))))))))))))))
  {
    var p := ResponsePieces;
    assert FormatFrom(p, a, 8) == "\r\n" + (a[8] + "\r\n");
    assert FormatFrom(p, a, 7) == "\r\n" + (a[7] + FormatFrom(p, a, 8));
    assert FormatFrom(p, a, 6) == "\r\n" + (a[6] + FormatFrom(p, a, 7));
    assert FormatFrom(p, a, 5) == "\r\nConnection: close\r\n" + (a[5] + FormatFrom(p, a, 6));
    assert FormatFrom(p, a, 4) == "\r\nServer: " + (a[4] + FormatFrom(p, a, 5));
    assert FormatFrom(p, a, 3) == "\r\nDate: " + (a[3] + FormatFrom(p, a, 4));
    assert FormatFrom(p, a, 2) == " " + (a[2] + FormatFrom(p, a, 3));
    assert FormatFrom(p, a, 1) == " " + (a[1] + FormatFrom(p, a, 2));
    assert FormatFrom(p, a, 0) == "" + (a[0] + FormatFrom(p, a, 1));
  }

  /** What a route miss writes: the template itself, with its ten `%s`
      verbs in place of a status line and fields. */
  lemma TemplateText()
    ensures Template(ResponsePieces)
         == "%s %s %s\r\nDate: %s\r\nServer: %s" + "\r\nConnection: close\r\n%s\r\n%s\r\n%s\r\n%s\r\n"
  {
    var verbs := seq(9, _ => "%s");
    FormatVerbs(ResponsePieces);
    ResponseExpand(verbs);
    TemplateTail();
    TemplateHead("\r\nConnection: close\r\n%s\r\n%s\r\n%s\r\n%s\r\n");
  }

  lemma TemplateTail()
    ensures "\r\nConnection: close\r\n" + ("%s" + ("\r\n" + ("%s" + ("\r\n" + ("%s" + ("\r\n" + ("%s" + "\r\n")))))))
         == "\r\nConnection: close\r\n%s\r\n%s\r\n%s\r\n%s\r\n"
  {
    var t := "\r\n" + ("%s" + "\r\n");
    assert t == "\r\n%s\r\n";
    t := "\r\n" + ("%s" + t);
    assert t == "\r\n%s\r\n%s\r\n";
    t := "\r\n" + ("%s" + t);
    assert t == "\r\n%s\r\n%s\r\n%s\r\n";
  }

  lemma TemplateHead(tail: string)
    ensures "" + ("%s" + (" " + ("%s" + (" " + ("%s" + ("\r\nDate: " + ("%s" + ("\r\nServer: " + ("%s" + tail)))))))))
         == "%s %s %s\r\nDate: %s\r\nServer: %s" + tail
  {
    TemplateHead0(tail);
    TemplateHead1(tail);
    TemplateHead2(tail);
    TemplateHead3(tail);
    TemplateHead4(tail);
  }

  lemma TemplateHead0(tail: string)
    ensures "\r\nServer: " + ("%s" + tail) == "\r\nServer: %s" + tail
  {
  }

  lemma TemplateHead1(tail: string)
    ensures "\r\nDate: " + ("%s" + ("\r\nServer: %s" + tail)) == "\r\nDate: %s\r\nServer: %s" + tail
  {
  }

  lemma TemplateHead2(tail: string)
    ensures " " + ("%s" + ("\r\nDate: %s\r\nServer: %s" + tail)) == " %s\r\nDate: %s\r\nServer: %s" + tail
  {
  }

  lemma TemplateHead3(tail: string)
    ensures " " + ("%s" + (" %s\r\nDate: %s\r\nServer: %s" + tail)) == " %s %s\r\nDate: %s\r\nServer: %s" + tail
  {
  }

  lemma TemplateHead4(tail: string)
    ensures "" + ("%s" + (" %s %s\r\nDate: %s\r\nServer: %s" + tail)) == "%s %s %s\r\nDate: %s\r\nServer: %s" + tail
  {
  }

  lemma DigitsOf200()
    ensures LS.String(LS.OK) == "200"
    ensures G.StatusLine(LS.OK) == "HTTP/1.1 200 OK"
  {
    assert DigitsOf(200) == DigitsOf(20) + [DigitChar(0)];
    assert DigitsOf(20) == DigitsOf(2) + [DigitChar(0)];
    OkLine();
  }

  lemma OkLine()
    ensures HTTPVersion + " " + "200" + " " + "OK" == "HTTP/1.1 200 OK"
  {
    var t := HTTPVersion + " ";
    assert t == "HTTP/1.1 ";
    t := t + "200";
    assert t == "HTTP/1.1 200";
    t := t + " ";
    assert t == "HTTP/1.1 200 ";
  }

  /** A handled response always says "HTTP/1.1 200 OK", whatever status
      the handler chose, and lays out its slots in template order: the
      fixed fields, then each slot followed by a line end. */
  lemma SuccessLayout(defaults: map<string, string>, date: string, response: Resp.Response, order: seq<string>)
    requires forall i :: 0 <= i < |order| ==> order[i] in response.headers
    ensures G.StatusLine(LS.OK) == "HTTP/1.1 200 OK"
    ensures SuccessText(defaults, date, response, order)
         == G.StatusLine(LS.OK) + ("\r\n" + (G.FieldLines(G.FixedFields(date))
            + (ContentTypeField(defaults, response.headers) + ("\r\n" + (ContentLengthField(response.body)
            + ("\r\n" + (G.FieldLines(G.UserFields(response.headers, order)) + ("\r\n" + (response.body + "\r\n")))))))))
  {
    DigitsOf200();
    var user := G.FieldLines(G.UserFields(response.headers, order));
    ResponseLayoutOf([HTTPVersion, LS.String(LS.OK), LS.Verb(LS.OK), date, ServerName,
                      ContentTypeField(defaults, response.headers), ContentLengthField(response.body), user, response.body],
                     LS.OK, date);
  }

  /** When the handler sets its own `Content-Type`, the empty slot leaves a
      blank line right after `Connection: close`: the header block ends
      there, and the length, the handler's fields and the body all come
      after it. */
  lemma HandlerContentTypeEndsHead(defaults: map<string, string>, date: string, response: Resp.Response, order: seq<string>)
    requires forall i :: 0 <= i < |order| ==> order[i] in response.headers
    requires ContentTypeHeader in response.headers
    ensures exists after: string ::
      SuccessText(defaults, date, response, order)
        == "HTTP/1.1 200 OK" + ("\r\n" + (G.FieldLines(G.FixedFields(date)) + ("\r\n" + after)))
  {
    SuccessLayout(defaults, date, response, order);
    var user := G.FieldLines(G.UserFields(response.headers, order));
    var after := ContentLengthField(response.body) + ("\r\n" + (user + ("\r\n" + (response.body + "\r\n"))));
    assert "" + ("\r\n" + after) == "\r\n" + after;
  }

  /** With no `Content-Type` of the handler's and an empty body, the empty
      length slot leaves a blank line after the default content type: the
      handler's fields come after it, in the body. */
  lemma EmptyBodyEndsHead(defaults: map<string, string>, date: string, response: Resp.Response, order: seq<string>)
    requires forall i :: 0 <= i < |order| ==> order[i] in response.headers
    requires ContentTypeHeader !in response.headers && response.body == ""
    ensures SuccessText(defaults, date, response, order)
         == "HTTP/1.1 200 OK\r\n"
            + G.FieldLines(G.FixedFields(date) + [(ContentTypeHeader, G.DefaultContentType(defaults))]) + "\r\n"
            + G.FieldLines(G.UserFields(response.headers, order)) + "\r\n\r\n"
  {
    SuccessLayout(defaults, date, response, order);
    var ct := [(ContentTypeHeader, G.DefaultContentType(defaults))];
    var user := G.FieldLines(G.UserFields(response.headers, order));
    var fixed := G.FieldLines(G.FixedFields(date));
    G.FieldLinesAppend(G.FixedFields(date), ct);
    G.OneFieldLine(ContentTypeHeader, G.DefaultContentType(defaults));
    EmptyBodyRegroup(fixed, ContentTypeField(defaults, response.headers), user);
  }

  lemma EmptyBodyRegroup(fixed: string, ct: string, user: string)
    ensures "HTTP/1.1 200 OK" + ("\r\n" + (fixed + (ct + ("\r\n" + ("" + ("\r\n" + (user + ("\r\n" + ("" + "\r\n")))))))))
         == "HTTP/1.1 200 OK\r\n" + (fixed + (ct + "\r\n")) + "\r\n" + user + "\r\n\r\n"
  {
    assert "" + "\r\n" == "\r\n";
    assert "" + ("\r\n" + (user + ("\r\n" + "\r\n"))) == "\r\n" + (user + ("\r\n" + "\r\n"));
  }

  /** The 404 text `handleGenericNotFound` builds, had it been written: a
      404 status line, the fixed fields and the default content type, then
      three empty slots, each ending a line. */
  lemma GenericNotFoundShape(defaults: map<string, string>, date: string)
    ensures G.StatusLine(LS.NotFound) == "HTTP/1.1 404 Not Found"
    ensures GenericNotFound(defaults, date)
         == G.StatusLine(LS.NotFound) + ("\r\n" + (G.FieldLines(G.FixedFields(date))
            + (ContentTypeField(defaults, map[]) + ("\r\n" + ("" + ("\r\n" + ("" + ("\r\n" + ("" + "\r\n")))))))))
  {
    G.DigitsOf404();
    ResponseLayoutOf([HTTPVersion, LS.String(LS.NotFound), LS.Verb(LS.NotFound), date, ServerName,
                      ContentTypeField(defaults, map[]), "", "", ""], LS.NotFound, date);
  }

  lemma PrefixOfNested(line: string, fields: string, rest: string)
    ensures line + "\r\n" + fields <= line + ("\r\n" + (fields + rest))
  {
    assert line + ("\r\n" + (fields + rest)) == (line + "\r\n" + fields) + rest;
  }

  /** The response template filled with a status code, a date and four
      slots: the status line, the fixed fields, then each slot followed by
      a line end. */
  lemma ResponseLayoutOf(a: seq<string>, code: LS.StatusCode, date: string)
    requires |a| == 9 && a[0] == HTTPVersion && a[1] == LS.String(code) && a[2] == LS.Verb(code)
    requires a[3] == date && a[4] == ServerName
    ensures Format(ResponsePieces, a)
         == G.StatusLine(code) + ("\r\n" + (G.FieldLines(G.FixedFields(date))
            + (a[5] + ("\r\n" + (a[6] + ("\r\n" + (a[7] + ("\r\n" + (a[8] + "\r\n")))))))))
  {
    var rest := a[5] + ("\r\n" + (a[6] + ("\r\n" + (a[7] + ("\r\n" + (a[8] + "\r\n"))))));
    ResponseExpand(a);
    G.FixedFieldsOnly(date, rest);
    G.StatusPrefix(code, "\r\n" + (G.FieldLines(G.FixedFields(date)) + rest));
  }

  // ---------------------------------------------------------------------
  // The server

  /** What the handlers make of a decoded request: nothing when no handler
      takes it, otherwise what the first that does makes of an empty
      response (its status code the zero value), with the query and the
      route's parameters on the request. */
  ghost function Dispatch(handlers: seq<Srv.Handler>, req: Req.Request): Option<Resp.Response>
  {
    match Srv.Route(handlers, SplitQuery(req.path).0, req.verb)
    case None => None
    case Some((i, params)) => Some(handlers[i].handlerFunc(Srv.Routed(req, params), Resp.Response("", map[], 0)))
  }

  class Server {
    var handlers: seq<Srv.Handler>
    var headers: map<string, string>

    /** `CreateServer`: no handlers and no default fields (a nil map). */
    constructor ()
      ensures handlers == [] && headers == map[]
      ensures G.DefaultContentType(headers) == TextHtml
    {
      handlers := [];
      headers := map[];
    }

    /** `AddHandler`: a well-formed pattern appends one handler at the end,
        keeping the earlier ones; an ill-formed one only prints a message
        (`rejected`) and leaves the server as it was. */
    method AddHandler(requestPattern: string, handlerFunc: Srv.HandlerFunc) returns (rejected: bool)
      modifies this
      ensures headers == old(headers)
      ensures rejected <==> !RoutePattern.ParseRequestPattern(requestPattern).ok
      ensures rejected ==> handlers == old(handlers)
      ensures !rejected ==>
        var p := RoutePattern.ParseRequestPattern(requestPattern);
        |handlers| == |old(handlers)| + 1 && handlers[..|old(handlers)|] == old(handlers) &&
        handlers[|old(handlers)|] == Srv.Handler(Compile(p.pathText), p.verb, handlerFunc)
    {
      var p := RoutePattern.ParseRequestPattern(requestPattern);
      if !p.ok {
        return true;
      }
      var path := CreatePath(p.pathText);
      handlers := handlers + [Srv.Handler(path, p.verb, handlerFunc)];
      return false;
    }

    /** `SetHeaders`: the default fields are replaced as a whole. */
    method SetHeaders(newHeaders: map<string, string>)
      modifies this
      ensures headers == newHeaders && handlers == old(handlers)
    {
      headers := newHeaders;
    }

    /** `matchHandler`: the first handler, in registration order, whose
        route matches and whose method is empty or the request's. */
    method MatchHandler(path: string, verb: string) returns (found: Option<(nat, map<string, string>)>)
      ensures found == Srv.Route(handlers, path, verb)
    {
      var i := 0;
      while i < |handlers|
        invariant i <= |handlers|
        invariant Srv.Route(handlers, path, verb) == Srv.RouteFrom(handlers, path, verb, i)
      {
        var handler := handlers[i];
        var params := Match(handler.path, path);
        Srv.RouteFromStep(handlers, path, verb, i);
        if params.Some? && (handler.verb == "" || handler.verb == verb) {
          return Some((i, params.value));
        }
        i := i + 1;
      }
      return None;
    }

    /** `handleConnection`: nothing is written when decoding fails; a route
        miss writes the unfilled template (the 404 text is built and
        dropped); otherwise the handler's response is written in the
        template, its fields in the map's iteration order (`order`). */
    method HandleConnection(conn: Req.Conn, date: string) returns (out: Srv.Exchange, ghost order: seq<string>)
      ensures Req.Decode(conn).Failed? ==> out == Srv.Dropped
      ensures Req.Decode(conn).Panic? ==> out == Srv.Crashed
      ensures Req.Decode(conn).Done? && Dispatch(handlers, Req.Decode(conn).value).None? ==>
        out == Srv.Written(Template(ResponsePieces))
      ensures Req.Decode(conn).Done? && Dispatch(handlers, Req.Decode(conn).value).Some? ==>
        var response := Dispatch(handlers, Req.Decode(conn).value).value;
        Srv.IsOrdering(order, response.headers.Keys) &&
        out == Srv.Written(SuccessText(headers, date, response, order))
    {
      order := [];
      var parsed := Req.ParseRequest(conn);
      if parsed.Failed? {
        return Srv.Dropped, order;
      }
      if parsed.Panic? {
        return Srv.Crashed, order;
      }
      var req := parsed.value;
      var responseStr := Template(ResponsePieces);
      var (path, query) := SplitQuery(req.path);
      var q := ParseQuery(query);
      req := req.(query := Some(q));
      var found := MatchHandler(path, req.verb);
      req := req.(params := if found.Some? then Some(found.value.1) else None);
      if found.None? {
        var discarded := GenericNotFound(headers, date);
        return Srv.Written(responseStr), order;
      }
      var response := Resp.Response("", map[], 0);
      response := handlers[found.value.0].handlerFunc(req, response);
      var userHeaders;
      userHeaders, order := G.UserHeaderLines(response.headers);
      responseStr := Format(ResponsePieces,
        [HTTPVersion, LS.String(LS.OK), LS.Verb(LS.OK),
         date,
         ServerName,
         ContentTypeField(headers, response.headers),
         ContentLengthField(response.body),
         userHeaders,
         response.body]);
      return Srv.Written(responseStr), order;
    }
  }
}

/** The server of src/server/server.go: an ordered list of handlers, each a
    compiled route, an optional method and a handler function; a map of
    default header fields; the first-match router; the three-level header
    merge; the response encoder; and what happens on one connection.  The
    clock is an input (`date`), the connection is the octets the client sends,
    and what the server writes back is the result. */
module Server {
  import opened Text
  import opened Constants
  import opened Status
  import opened UrlPath
  import opened UrlQuery
  import RoutePattern
  import Req = Request
  import Resp = Response

  /** A handler function: given the request, what it makes of the response
      it is handed. */
  type HandlerFunc = (Req.Request, Resp.Response) -> Resp.Response

  /** A registered handler; `verb` is its method, empty for any method. */
  datatype Handler = Handler(path: Path, verb: string, handlerFunc: HandlerFunc)

  /** What becomes of one connection: nothing is written, the response text
      is written, or the process stops on a run-time panic. */
  datatype Exchange = Dropped | Written(text: string) | Crashed

  // ---------------------------------------------------------------------
  // Routing

  /** Handler `h` takes a request for `path` with method `verb`. */
  ghost predicate Accepts(h: Handler, path: string, verb: string)
  {
    MatchSpec(h.path, path).Some? && (h.verb == "" || h.verb == verb)
  }

  /** The first handler at or after position `i` that takes the request,
      with the parameters its route binds. */
  ghost function RouteFrom(handlers: seq<Handler>, path: string, verb: string, i: nat): (r: Option<(nat, map<string, string>)>)
    requires i <= |handlers|
    ensures r.Some? ==> i <= r.value.0 < |handlers| && Accepts(handlers[r.value.0], path, verb)
    ensures r.Some? ==> MatchSpec(handlers[r.value.0].path, path) == Some(r.value.1)
    ensures r.Some? ==> forall j :: i <= j < r.value.0 ==> !Accepts(handlers[j], path, verb)
    ensures r.None? <==> forall j :: i <= j < |handlers| ==> !Accepts(handlers[j], path, verb)
    decreases |handlers| - i
  {
    if i == |handlers| then None
    else if Accepts(handlers[i], path, verb) then Some((i, MatchSpec(handlers[i].path, path).value))
    else RouteFrom(handlers, path, verb, i + 1)
  }

  /** One step of the scan: handler `i` takes the request, or the scan goes on. */
  lemma RouteFromStep(handlers: seq<Handler>, path: string, verb: string, i: nat)
    requires i < |handlers|
    ensures RouteFrom(handlers, path, verb, i)
         == if Accepts(handlers[i], path, verb) then Some((i, MatchSpec(handlers[i].path, path).value))
            else RouteFrom(handlers, path, verb, i + 1)
  {
  }

  /** The handler a request goes to, in registration order, with its parameters. */
  ghost function Route(handlers: seq<Handler>, path: string, verb: string): Option<(nat, map<string, string>)>
  {
    RouteFrom(handlers, path, verb, 0)
  }

  /** Of two handlers that both take a request, the one registered first wins. */
  lemma EarlierHandlerWins(handlers: seq<Handler>, path: string, verb: string, i: nat, j: nat)
    requires i < j < |handlers|
    requires Accepts(handlers[i], path, verb) && Accepts(handlers[j], path, verb)
    ensures Route(handlers, path, verb).Some?
    ensures Route(handlers, path, verb).value.0 <= i
  {
  }

  /** Registering one more handler leaves every request that was already
      routed where it was; a request that was not routed goes to the new
      handler if it takes it. */
  lemma {:induction false} RouteAppend(handlers: seq<Handler>, h: Handler, path: string, verb: string)
    ensures Route(handlers + [h], path, verb)
         == if Route(handlers, path, verb).Some? then Route(handlers, path, verb)
            else if Accepts(h, path, verb) then Some((|handlers|, MatchSpec(h.path, path).value))
            else None
  {
    RouteFromAppend(handlers, h, path, verb, 0);
  }

  lemma {:induction false} RouteFromAppend(handlers: seq<Handler>, h: Handler, path: string, verb: string, i: nat)
    requires i <= |handlers|
    ensures RouteFrom(handlers + [h], path, verb, i)
         == if RouteFrom(handlers, path, verb, i).Some? then RouteFrom(handlers, path, verb, i)
            else if Accepts(h, path, verb) then Some((|handlers|, MatchSpec(h.path, path).value))
            else None
    decreases |handlers| - i
  {
    var all := handlers + [h];
    RouteFromStep(all, path, verb, i);
    if i < |handlers| {
      assert all[i] == handlers[i];
      RouteFromStep(handlers, path, verb, i);
      if !Accepts(handlers[i], path, verb) {
        RouteFromAppend(handlers, h, path, verb, i + 1);
      }
    } else {
      assert all[i] == h;
      assert RouteFrom(all, path, verb, i + 1) == None;
    }
  }

  // ---------------------------------------------------------------------
  // Header fields

  /** The header fields every response of a new server carries. */
  function DefaultHeaders(): (h: map<string, string>)
    ensures h.Keys == {ServerHeader, ConnectionHeader, ContentTypeHeader}
  {
    map[ServerHeader := ServerName, ConnectionHeader := ConnectionClose, ContentTypeHeader := TextHtml]
  }

  /** The fields computed for each response: the date, and the length of
      the body in octets, in decimal. */
  function ComputedHeaders(date: string, body: string): map<string, string>
  {
    map[DateHeader := date, ContentLengthHeader := Itoa(|body|)]
  }

  /** The merged fields of a response: the defaults, overridden by the
      computed fields, overridden by the fields the handler set. */
  function Merged(defaults: map<string, string>, date: string, response: Resp.Response): map<string, string>
  {
    defaults + ComputedHeaders(date, response.body) + response.headers
  }

  /** Which source each merged field comes from: a field the handler set
      wins, then the computed ones, then the defaults; every field of every
      source is present. */
  lemma MergedPrecedence(defaults: map<string, string>, date: string, response: Resp.Response)
    ensures Merged(defaults, date, response).Keys
         == defaults.Keys + {DateHeader, ContentLengthHeader} + response.headers.Keys
    ensures forall k :: k in Merged(defaults, date, response) ==>
      Merged(defaults, date, response)[k]
        == if k in response.headers then response.headers[k]
           else if k == DateHeader then date
           else if k == ContentLengthHeader then Itoa(|response.body|)
           else defaults[k]
  {
  }

  /** A `Content-Length` the handler did not set reads back as the length of the body. */
  lemma MergedContentLength(defaults: map<string, string>, date: string, response: Resp.Response)
    requires ContentLengthHeader !in response.headers
    ensures Atoi(Merged(defaults, date, response)[ContentLengthHeader]) == Some(|response.body|)
          || |response.body| > MaxInt64
  {
    if |response.body| <= MaxInt64 {
      AtoiItoa(|response.body|);
    }
  }

  /** One `range` over a map copying every entry into `m`: entries of `src`
      overwrite those of `m` of the same key, whatever the order of the keys. */
  method CopyAll(m: map<string, string>, src: map<string, string>) returns (r: map<string, string>)
    ensures r.Keys == m.Keys + src.Keys
    ensures forall k :: k in r ==> r[k] == if k in src then src[k] else m[k]
  {
    r := m;
    var keys := src.Keys;
    while keys != {}
      invariant keys <= src.Keys
      invariant r.Keys == m.Keys + (src.Keys - keys)
      invariant forall k :: k in r ==> r[k] == if k in src && k !in keys then src[k] else m[k]
      decreases keys
    {
      var key :| key in keys;
      r := r[key := src[key]];
      keys := keys - {key};
    }
  }

  /** What `CopyAll` promises is the map union with `src` on top. */
  lemma CopiedIsUnion(m: map<string, string>, src: map<string, string>, r: map<string, string>)
    requires r.Keys == m.Keys + src.Keys
    requires forall k :: k in r ==> r[k] == if k in src then src[k] else m[k]
    ensures r == m + src
  {
  }

  lemma EmptyUnion(src: map<string, string>)
    ensures map[] + src == src
  {
  }

  // ---------------------------------------------------------------------
  // Encoding a response

  /** The status line, without its line end. */
  function StatusLine(code: StatusCode): string
  {
    HTTPVersion + " " + String(code) + " " + Verb(code)
  }

  /** One header field on the wire. */
  function HeaderLine(name: string, value: string): string
  {
    name + ": " + value + "\r\n"
  }

  /** The fields of `m` on the wire, in the order `order` lists their names. */
  function HeaderLines(m: map<string, string>, order: seq<string>): string
    requires forall i :: 0 <= i < |order| ==> order[i] in m
  {
    if order == [] then ""
    else HeaderLines(m, order[..|order| - 1]) + HeaderLine(order[|order| - 1], m[order[|order| - 1]])
  }

  /** `order` lists each name of `keys` once, and nothing else. */
  ghost predicate IsOrdering(order: seq<string>, keys: set<string>)
  {
    (forall i :: 0 <= i < |order| ==> order[i] in keys) &&
    (forall k :: k in keys ==> k in order) &&
    (forall i, j :: 0 <= i < j < |order| ==> order[i] != order[j])
  }

  /** A response on the wire: the status line, the fields in the order
      given, a blank line, and the body as it is. */
  function Serialize(code: StatusCode, m: map<string, string>, order: seq<string>, body: string): string
    requires forall i :: 0 <= i < |order| ==> order[i] in m
  {
    StatusLine(code) + "\r\n" + HeaderLines(m, order) + "\r\n" + body
  }

  /** The fields on the wire hold one line per field of `m`: each is the
      line of the field `order` lists at its position. */
  lemma {:induction false} HeaderLinesSplit(m: map<string, string>, order: seq<string>)
    requires forall i :: 0 <= i < |order| ==> order[i] in m
    ensures HeaderLines(m, order)
         == Concat(seq(|order|, i requires 0 <= i < |order| => HeaderLine(order[i], m[order[i]])))
  {
    var lines := seq(|order|, i requires 0 <= i < |order| => HeaderLine(order[i], m[order[i]]));
    if order != [] {
      var n := |order| - 1;
      HeaderLinesSplit(m, order[..n]);
      var init := seq(n, i requires 0 <= i < n => HeaderLine(order[..n][i], m[order[..n][i]]));
      assert init == lines[..n];
      ConcatSnoc(lines[..n], lines[n]);
      assert lines == lines[..n] + [lines[n]];
    }
  }

  lemma {:induction false} ConcatSnoc(ws: seq<string>, w: string)
    ensures Concat(ws + [w]) == Concat(ws) + w
  {
    if ws == [] {
      assert [] + [w] == [w];
    } else {
      assert (ws + [w])[1..] == ws[1..] + [w];
      ConcatSnoc(ws[1..], w);
    }
  }

  // ---------------------------------------------------------------------
  // The server

  class Server {
    var handlers: seq<Handler>
    var headers: map<string, string>

    /** `CreateServer`: no handlers, and the default header fields: the
        server's name, `Connection: close` and `Content-Type: text/html`. */
    constructor ()
      ensures handlers == []
      ensures headers.Keys == {ServerHeader, ConnectionHeader, ContentTypeHeader}
      ensures headers[ServerHeader] == ServerName && headers[ConnectionHeader] == "close"
      ensures headers[ContentTypeHeader] == "text/html"
    {
      handlers := [];
      headers := DefaultHeaders();
    }

    /** `AddHandler`: a well-formed pattern appends one handler at the end;
        an ill-formed one panics before the list is touched. */
    method AddHandler(requestPattern: string, handlerFunc: HandlerFunc) returns (panicked: bool)
      modifies this
      ensures headers == old(headers)
      ensures panicked <==> !RoutePattern.ParseRequestPattern(requestPattern).ok
      ensures panicked ==> handlers == old(handlers)
      ensures !panicked ==>
        var p := RoutePattern.ParseRequestPattern(requestPattern);
        |handlers| == |old(handlers)| + 1 && handlers[..|old(handlers)|] == old(handlers) &&
        handlers[|old(handlers)|].path == Compile(p.pathText) &&
        handlers[|old(handlers)|].verb == p.verb &&
        handlers[|old(handlers)|].handlerFunc == handlerFunc
    {
      var p := RoutePattern.ParseRequestPattern(requestPattern);
      if !p.ok {
        return true;
      }
      var path := CreatePath(p.pathText);
      handlers := handlers + [Handler(path, p.verb, handlerFunc)];
      return false;
    }

    /** `SetHeaders`: the default fields are replaced as a whole. */
    method SetHeaders(newHeaders: map<string, string>)
      modifies this
      ensures headers == newHeaders && handlers == old(handlers)
    {
      headers := newHeaders;
    }

    /** `matchHandler`: the first handler, in registration order, whose
        route matches `path` and whose method is empty or `verb`. */
    method MatchHandler(path: string, verb: string) returns (found: Option<(nat, map<string, string>)>)
      ensures found == Route(handlers, path, verb)
    {
      var i := 0;
      while i < |handlers|
        invariant i <= |handlers|
        invariant Route(handlers, path, verb) == RouteFrom(handlers, path, verb, i)
      {
        var handler := handlers[i];
        var params := Match(handler.path, path);
        RouteFromStep(handlers, path, verb, i);
        if params.Some? && (handler.verb == "" || handler.verb == verb) {
          return Some((i, params.value));
        }
        i := i + 1;
      }
      return None;
    }

    /** `getMergedHeaders`: the defaults, then the computed fields, then the
        handler's fields, each copied over what came before. */
    method GetMergedHeaders(response: Resp.Response, date: string) returns (merged: map<string, string>)
      ensures merged == Merged(headers, date, response)
    {
      var requestHeaders := ComputedHeaders(date, response.body);
      merged := map[];
      merged := CopyAll(merged, headers);
      CopiedIsUnion(map[], headers, merged);
      EmptyUnion(headers);
      var m1 := merged;
      merged := CopyAll(merged, requestHeaders);
      CopiedIsUnion(m1, requestHeaders, merged);
      var m2 := merged;
      merged := CopyAll(merged, response.headers);
      CopiedIsUnion(m2, response.headers, merged);
    }

    /** `buildResponseString`: the status line, one line per merged field in
        the map's iteration order (`order`), a blank line and the body. */
    method BuildResponseString(response: Resp.Response, date: string) returns (text: string, ghost order: seq<string>)
      ensures IsOrdering(order, Merged(headers, date, response).Keys)
      ensures text == Serialize(response.statusCode, Merged(headers, date, response), order, response.body)
    {
      var requestLine := StatusLine(response.statusCode);
      var merged := GetMergedHeaders(response, date);
      var mergedHeadersStr := "";
      var keys := merged.Keys;
      order := [];
      while keys != {}
        invariant keys <= merged.Keys
        invariant forall i :: 0 <= i < |order| ==> order[i] in merged && order[i] !in keys
        invariant forall k :: k in merged ==> k in keys || k in order
        invariant forall i, j :: 0 <= i < j < |order| ==> order[i] != order[j]
        invariant mergedHeadersStr == HeaderLines(merged, order)
        decreases keys
      {
        var key :| key in keys;
        mergedHeadersStr := mergedHeadersStr + HeaderLine(key, merged[key]);
        ghost var before := order;
        order := order + [key];
        assert order[..|order| - 1] == before;
        keys := keys - {key};
      }
      text := requestLine + "\r\n" + mergedHeadersStr + "\r\n" + response.body;
    }

    /** `handleConnection`: decode the request (nothing is written when that
        fails); route on the path before `?` and give the request the
        decoded query; on a miss write a 404 with no body; otherwise write
        what the handler makes of a fresh 200 response. */
    method HandleConnection(conn: Req.Conn, date: string) returns (out: Exchange, ghost order: seq<string>)
      ensures Req.Decode(conn).Failed? ==> out == Dropped
      ensures Req.Decode(conn).Panic? ==> out == Crashed
      ensures Req.Decode(conn).Done? ==>
        var response := Dispatch(handlers, Req.Decode(conn).value);
        IsOrdering(order, Merged(headers, date, response).Keys) &&
        out == Written(Serialize(response.statusCode, Merged(headers, date, response), order, response.body))
    {
      order := [];
      var parsed := Req.ParseRequest(conn);
      if parsed.Failed? {
        return Dropped, order;
      }
      if parsed.Panic? {
        return Crashed, order;
      }
      var req := parsed.value;
      var (path, query) := SplitQuery(req.path);
      var q := ParseQuery(query);
      req := req.(query := Some(q));
      var found := MatchHandler(path, req.verb);
      req := req.(params := if found.Some? then Some(found.value.1) else None);
      var response := Resp.CreateOkResponse();
      if found.None? {
        response := response.(statusCode := NotFoundStatus);
        var text;
        text, order := BuildResponseString(response, date);
        return Written(text), order;
      }
      response := handlers[found.value.0].handlerFunc(req, response);
      var text;
      text, order := BuildResponseString(response, date);
      return Written(text), order;
    }
  }

  // ---------------------------------------------------------------------
  // Dispatch

  /** The request as the handler sees it: the decoded query of the part of
      the path after `?`, and the route's parameters. */
  ghost function Routed(req: Req.Request, params: map<string, string>): Req.Request
  {
    req.(query := Some(QueryMap(SplitQuery(req.path).1)), params := Some(params))
  }

  /** The response a decoded request gets: a 404 with no body and no fields
      of its own when no handler takes it, otherwise what the first handler
      that takes it makes of a fresh 200 response. */
  ghost function Dispatch(handlers: seq<Handler>, req: Req.Request): Resp.Response
  {
    match Route(handlers, SplitQuery(req.path).0, req.verb)
    case None => Resp.CreateOkResponse().(statusCode := NotFoundStatus)
    case Some((i, params)) => handlers[i].handlerFunc(Routed(req, params), Resp.CreateOkResponse())
  }

  /** A route miss: no handler runs, and the response is a 404 with an empty
      body whose fields are the defaults, the date and a zero length; in
      particular its `Content-Type` is the server's default one. */
  lemma NotFoundResponse(handlers: seq<Handler>, defaults: map<string, string>, date: string, req: Req.Request)
    requires Route(handlers, SplitQuery(req.path).0, req.verb).None?
    ensures Dispatch(handlers, req).statusCode == NotFoundStatus
    ensures Dispatch(handlers, req).body == "" && Dispatch(handlers, req).headers == map[]
    ensures Merged(defaults, date, Dispatch(handlers, req)) == defaults + ComputedHeaders(date, "")
    ensures ContentTypeHeader in defaults ==>
      Merged(defaults, date, Dispatch(handlers, req))[ContentTypeHeader] == defaults[ContentTypeHeader]
  {
    var r := Dispatch(handlers, req);
    assert r.headers == map[];
    assert defaults + ComputedHeaders(date, "") + map[] == defaults + ComputedHeaders(date, "");
  }

  /** A route hit: the first handler that takes the request runs once, on a
      fresh 200 response, and sees the route's parameters and the query. */
  lemma HandlerResponse(handlers: seq<Handler>, req: Req.Request, i: nat, params: map<string, string>)
    requires Route(handlers, SplitQuery(req.path).0, req.verb) == Some((i, params))
    ensures i < |handlers|
    ensures MatchSpec(handlers[i].path, SplitQuery(req.path).0) == Some(params)
    ensures forall j :: 0 <= j < i ==> !Accepts(handlers[j], SplitQuery(req.path).0, req.verb)
    ensures Dispatch(handlers, req) == handlers[i].handlerFunc(Routed(req, params), Resp.Response("", map[], OkStatus))
    ensures Routed(req, params).params == Some(params)
    ensures Routed(req, params).query == Some(QueryMap(SplitQuery(req.path).1))
  {
  }

  /** A header field the handler sets overrides both the computed value and
      the server's default; a `Content-Type` it does not set is the default. */
  lemma HandlerFieldWins(defaults: map<string, string>, date: string, response: Resp.Response, k: string)
    ensures k in response.headers ==> Merged(defaults, date, response)[k] == response.headers[k]
    ensures k !in response.headers && k == ContentTypeHeader && k in defaults ==>
      Merged(defaults, date, response)[k] == defaults[k]
  {
  }
}

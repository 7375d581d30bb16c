/** The first generation of the server, the root package (gohst.go and
    server.go).  It routes like src/server/server.go but writes its response
    field by field: the status line with the older six-code catalog, the
    date, the server's name, `Connection: close`, one `Content-Type` line,
    a `Content-Length` line only for a non-empty body, the handler's fields,
    and the body framed by line ends only when it is not empty.  The
    packages it imports for requests, paths and patterns are taken to be the
    ones of src/, and so is its set of default fields. */
module Gohst {
  import opened Text
  import opened Sprintf
  import opened Constants
  import LS = LegacyStatus
  import opened UrlPath
  import opened UrlQuery
  import RoutePattern
  import Req = Request
  import Resp = Response
  import Srv = Server

  // ---------------------------------------------------------------------
  // The parts of a response

  /** The `Content-Type` the server sends when the handler sets none: its
      default field, or `text/html` when it has none. */
  function DefaultContentType(defaults: map<string, string>): string
  {
    if ContentTypeHeader in defaults then defaults[ContentTypeHeader] else TextHtml
  }

  /** `getResponseContentTypeHeader`: the line of the default content type,
      unless the handler set its own. */
  function ContentTypeLine(defaults: map<string, string>, responseHeaders: map<string, string>): (r: string)
    ensures r == FieldLines(if ContentTypeHeader in responseHeaders then []
                            else [(ContentTypeHeader, DefaultContentType(defaults))])
  {
    OneFieldLine(ContentTypeHeader, DefaultContentType(defaults));
    if ContentTypeHeader in responseHeaders then ""
    else Srv.HeaderLine(ContentTypeHeader, DefaultContentType(defaults))
  }

  /** `getContentLengthHeader`: the line of the body's length, unless the
      body is empty. */
  function ContentLengthLine(body: string): (r: string)
    ensures r == FieldLines(if body == "" then [] else [(ContentLengthHeader, Itoa(|body|))])
  {
    OneFieldLine(ContentLengthHeader, Itoa(|body|));
    if |body| == 0 then "" else Srv.HeaderLine(ContentLengthHeader, Itoa(|body|))
  }

  /** `getBodyString`: a non-empty body between two line ends. */
  function BodyString(body: string): (r: string)
    ensures body == "" ==> r == ""
    ensures body != "" ==> |r| == |body| + 4 && r[..2] == "\r\n" && r[2..|r| - 2] == body && r[|r| - 2..] == "\r\n"
  {
    if body != "" then "\r\n" + body + "\r\n" else ""
  }

  /** The status line with the older catalog, without its line end. */
  function StatusLine(code: LS.StatusCode): string
  {
    HTTPVersion + " " + LS.String(code) + " " + LS.Verb(code)
  }

  /** Named fields on the wire, one line each, in order. */
  function FieldLines(fields: seq<(string, string)>): string
  {
    if fields == [] then "" else Srv.HeaderLine(fields[0].0, fields[0].1) + FieldLines(fields[1..])
  }

  lemma {:induction false} FieldLinesAppend(a: seq<(string, string)>, b: seq<(string, string)>)
    ensures FieldLines(a + b) == FieldLines(a) + FieldLines(b)
  {
    if a == [] {
      assert a + b == b;
    } else {
      assert (a + b)[1..] == a[1..] + b;
      FieldLinesAppend(a[1..], b);
    }
  }

  /** The handler's fields, in the order `order` lists their names. */
  function UserFields(m: map<string, string>, order: seq<string>): (fs: seq<(string, string)>)
    requires forall i :: 0 <= i < |order| ==> order[i] in m
    ensures |fs| == |order| && forall i :: 0 <= i < |order| ==> fs[i] == (order[i], m[order[i]])
  {
    seq(|order|, i requires 0 <= i < |order| => (order[i], m[order[i]]))
  }

  /** Under an ordering of the handler's names, each of its fields is listed
      exactly once, with its value, and no other name is listed. */
  lemma UserFieldsOnce(m: map<string, string>, order: seq<string>, name: string)
    requires Srv.IsOrdering(order, m.Keys)
    ensures var fs := UserFields(m, order);
      name in m ==>
        exists i :: 0 <= i < |fs| && fs[i] == (name, m[name]) &&
                    forall j :: 0 <= j < |fs| && j != i ==> fs[j].0 != name
    ensures var fs := UserFields(m, order);
      name !in m ==> forall j :: 0 <= j < |fs| ==> fs[j].0 != name
  {
    if name in m {
      var i :| 0 <= i < |order| && order[i] == name;
      assert UserFields(m, order)[i] == (name, m[name]);
    }
  }

  /** The fixed fields every response of this server starts with. */
  function FixedFields(date: string): seq<(string, string)>
  {
    [(DateHeader, date), (ServerHeader, ServerName), (ConnectionHeader, ConnectionClose)]
  }

  /** The fields of a handled response, in the order they are written. */
  function SuccessFields(defaults: map<string, string>, date: string, response: Resp.Response, order: seq<string>): seq<(string, string)>
    requires forall i :: 0 <= i < |order| ==> order[i] in response.headers
  {
    FixedFields(date)
    + ((if ContentTypeHeader in response.headers then [] else [(ContentTypeHeader, DefaultContentType(defaults))])
    + ((if response.body == "" then [] else [(ContentLengthHeader, Itoa(|response.body|))])
    + UserFields(response.headers, order)))
  }

  /** The template of `handleGenericNotFound`: status line, date, server's
      name, `Connection: close`, then the content-type line. */
  const NotFoundPieces: seq<string> := ["", " ", " ", "\r\nDate: ", "\r\nServer: ", "\r\nConnection: close\r\n", ""]

  /** The template of a handled response: as the 404 one, followed by the
      content-length line, the handler's fields and the framed body. */
  const SuccessPieces: seq<string> := ["", " ", " ", "\r\nDate: ", "\r\nServer: ", "\r\nConnection: close\r\n", "", "", "", ""]

  /** `handleGenericNotFound`. */
  function NotFoundText(defaults: map<string, string>, date: string): string
  {
    Format(NotFoundPieces, [HTTPVersion, LS.String(LS.NotFound), LS.Verb(LS.NotFound), date, ServerName,
                            ContentTypeLine(defaults, map[])])
  }

  /** The arguments `handleConnection` formats a handled response with. */
  function SuccessArgs(defaults: map<string, string>, date: string, response: Resp.Response, userHeaders: string): seq<string>
  {
    [HTTPVersion, LS.String(response.statusCode), LS.Verb(response.statusCode), date, ServerName,
     ContentTypeLine(defaults, response.headers), ContentLengthLine(response.body), userHeaders,
     BodyString(response.body)]
  }

  /** A handled response on the wire, the handler's fields in the order
      `order` lists them. */
  function SuccessText(defaults: map<string, string>, date: string, response: Resp.Response, order: seq<string>): string
    requires forall i :: 0 <= i < |order| ==> order[i] in response.headers
  {
    Format(SuccessPieces, SuccessArgs(defaults, date, response, FieldLines(UserFields(response.headers, order))))
  }

  // ---------------------------------------------------------------------
  // Properties of the parts

  /** The 404 template, spelled out. */
  lemma NotFoundExpand(a: seq<string>)
    requires |a| == 6
    ensures Format(NotFoundPieces, a)
         == "" + (a[0] + (" " + (a[1] + (" " + (a[2] + ("\r\nDate: " + (a[3] + ("\r\nServer: " + (a[4]
            + ("\r\nConnection: close\r\n" + (a[5] + "")))))))))))
  {
    var p := NotFoundPieces;
    assert FormatFrom(p, a, 5) == "\r\nConnection: close\r\n" + (a[5] + "");
    assert FormatFrom(p, a, 4) == "\r\nServer: " + (a[4] + FormatFrom(p, a, 5));
    assert FormatFrom(p, a, 3) == "\r\nDate: " + (a[3] + FormatFrom(p, a, 4));
    assert FormatFrom(p, a, 2) == " " + (a[2] + FormatFrom(p, a, 3));
    assert FormatFrom(p, a, 1) == " " + (a[1] + FormatFrom(p, a, 2));
    assert FormatFrom(p, a, 0) == "" + (a[0] + FormatFrom(p, a, 1));
  }

  /** The template of a handled response, spelled out. */
  lemma SuccessExpand(a: seq<string>)
    requires |a| == 9
    ensures Format(SuccessPieces, a)
         == "" + (a[0] + (" " + (a[1] + (" " + (a[2] + ("\r\nDate: " + (a[3] + ("\r\nServer: " + (a[4]
            + ("\r\nConnection: close\r\n" + (a[5] + ("" + (a[6] + ("" + (a[7] + ("" + (a[8] + "")))))))))))))))))
  {
    var p := SuccessPieces;
    assert FormatFrom(p, a, 8) == "" + (a[8] + "");
    assert FormatFrom(p, a, 7) == "" + (a[7] + FormatFrom(p, a, 8));
    assert FormatFrom(p, a, 6) == "" + (a[6] + FormatFrom(p, a, 7));
    assert FormatFrom(p, a, 5) == "\r\nConnection: close\r\n" + (a[5] + FormatFrom(p, a, 6));
    assert FormatFrom(p, a, 4) == "\r\nServer: " + (a[4] + FormatFrom(p, a, 5));
    assert FormatFrom(p, a, 3) == "\r\nDate: " + (a[3] + FormatFrom(p, a, 4));
    assert FormatFrom(p, a, 2) == " " + (a[2] + FormatFrom(p, a, 3));
    assert FormatFrom(p, a, 1) == " " + (a[1] + FormatFrom(p, a, 2));
    assert FormatFrom(p, a, 0) == "" + (a[0] + FormatFrom(p, a, 1));
  }

  /** The status line's pieces, followed by the rest of a response. */
  lemma StatusPrefix(code: LS.StatusCode, rest: string)
    ensures "" + (HTTPVersion + (" " + (LS.String(code) + (" " + (LS.Verb(code) + rest)))))
         == StatusLine(code) + rest
  {
    StatusRegroup(HTTPVersion, LS.String(code), LS.Verb(code), rest);
  }

  lemma StatusRegroup(version: string, code: string, verb: string, rest: string)
    ensures "" + (version + (" " + (code + (" " + (verb + rest)))))
         == version + " " + code + " " + verb + rest
  {
  }

  /** A template piece that ends one line and names the next field. */
  lemma FieldAfterBreak(piece: string, name: string, value: string, rest: string)
    requires piece == "\r\n" + name + ": "
    ensures piece + (value + ("\r\n" + rest)) == "\r\n" + (Srv.HeaderLine(name, value) + rest)
  {
  }

  lemma OneFieldLine(name: string, value: string)
    ensures FieldLines([(name, value)]) == name + ": " + value + "\r\n"
  {
    assert [(name, value)][1..] == [];
  }

  /** The fixed fields' pieces of both templates, followed by other fields. */
  lemma FixedFieldLines(date: string, rest: seq<(string, string)>, tail: string)
    ensures "\r\nDate: " + (date + ("\r\nServer: " + (ServerName + ("\r\nConnection: close\r\n" + (FieldLines(rest) + tail)))))
         == "\r\n" + (FieldLines(FixedFields(date) + rest) + tail)
  {
    var w := FieldLines(rest) + tail;
    var dateLine := Srv.HeaderLine(DateHeader, date);
    var serverLine := Srv.HeaderLine(ServerHeader, ServerName);
    var connection := Srv.HeaderLine(ConnectionHeader, ConnectionClose);
    ConnectionBreak(w);
    FieldAfterBreak("\r\nServer: ", ServerHeader, ServerName, connection + w);
    FieldAfterBreak("\r\nDate: ", DateHeader, date, serverLine + (connection + w));
    FixedLines(date);
    FieldLinesAppend(FixedFields(date), rest);
    Regroup3Then(dateLine, serverLine, connection, FieldLines(rest), tail);
  }

  lemma ConnectionBreak(w: string)
    ensures "\r\nConnection: close\r\n" + w == "\r\n" + (Srv.HeaderLine(ConnectionHeader, ConnectionClose) + w)
  {
    var line := Srv.HeaderLine(ConnectionHeader, ConnectionClose);
    assert "\r\n" + line == "\r\nConnection: close\r\n";
    assert "\r\n" + (line + w) == ("\r\n" + line) + w;
  }

  /** The three fixed fields, one line each. */
  lemma FixedLines(date: string)
    ensures FieldLines(FixedFields(date))
         == Srv.HeaderLine(DateHeader, date)
            + (Srv.HeaderLine(ServerHeader, ServerName) + Srv.HeaderLine(ConnectionHeader, ConnectionClose))
  {
    var f := FixedFields(date);
    assert f[1..] == [(ServerHeader, ServerName), (ConnectionHeader, ConnectionClose)];
    assert f[1..][1..] == [(ConnectionHeader, ConnectionClose)];
    assert f[1..][1..][1..] == [];
    var connection := Srv.HeaderLine(ConnectionHeader, ConnectionClose);
    assert FieldLines(f[1..][1..]) == connection + "" == connection;
    assert FieldLines(f[1..]) == Srv.HeaderLine(ServerHeader, ServerName) + connection;
  }

  lemma Regroup3Then(a: string, b: string, c: string, x: string, t: string)
    ensures (a + (b + c)) + x + t == a + (b + (c + (x + t)))
  {
  }

  /** The fixed fields' pieces alone, followed by anything. */
  lemma FixedFieldsOnly(date: string, tail: string)
    ensures "\r\nDate: " + (date + ("\r\nServer: " + (ServerName + ("\r\nConnection: close\r\n" + tail))))
         == "\r\n" + (FieldLines(FixedFields(date)) + tail)
  {
    assert FixedFields(date) + [] == FixedFields(date);
    assert FieldLines([]) + tail == tail;
    FixedFieldLines(date, [], tail);
  }

  lemma DigitsOf404()
    ensures LS.String(LS.NotFound) == "404"
    ensures StatusLine(LS.NotFound) == "HTTP/1.1 404 Not Found"
  {
    assert DigitsOf(404) == DigitsOf(40) + [DigitChar(4)];
    assert DigitsOf(40) == DigitsOf(4) + [DigitChar(0)];
    NotFoundLine();
  }

  lemma NotFoundLine()
    ensures HTTPVersion + " " + "404" + " " + "Not Found" == "HTTP/1.1 404 Not Found"
  {
    var t := HTTPVersion + " ";
    assert t == "HTTP/1.1 ";
    t := t + "404";
    assert t == "HTTP/1.1 404";
    t := t + " ";
    assert t == "HTTP/1.1 404 ";
  }

  /** The 404 response: the status line "HTTP/1.1 404 Not Found", then
      exactly the date, the server's name, `Connection: close` and the
      default content type, and neither a length, a blank line nor a body. */
  lemma NotFoundShape(defaults: map<string, string>, date: string)
    ensures StatusLine(LS.NotFound) == "HTTP/1.1 404 Not Found"
    ensures NotFoundText(defaults, date)
         == StatusLine(LS.NotFound) + ("\r\n" + FieldLines(FixedFields(date) + [(ContentTypeHeader, DefaultContentType(defaults))]))
  {
    var ct := [(ContentTypeHeader, DefaultContentType(defaults))];
    DigitsOf404();
    NotFoundExpand([HTTPVersion, LS.String(LS.NotFound), LS.Verb(LS.NotFound), date, ServerName,
                    ContentTypeLine(defaults, map[])]);
    OneFieldLine(ContentTypeHeader, DefaultContentType(defaults));
    assert ContentTypeLine(defaults, map[]) + "" == FieldLines(ct) + "";
    FixedFieldLines(date, ct, "");
    assert FieldLines(FixedFields(date) + ct) + "" == FieldLines(FixedFields(date) + ct);
    StatusPrefix(LS.NotFound, "\r\n" + FieldLines(FixedFields(date) + ct));
  }

  /** A handled response is its status line (with the handler's code),
      then its fields one line each, then its framed body. */
  lemma SuccessLayout(defaults: map<string, string>, date: string, response: Resp.Response, order: seq<string>)
    requires forall i :: 0 <= i < |order| ==> order[i] in response.headers
    ensures SuccessText(defaults, date, response, order)
         == StatusLine(response.statusCode)
            + ("\r\n" + (FieldLines(SuccessFields(defaults, date, response, order)) + BodyString(response.body)))
  {
    var ct := if ContentTypeHeader in response.headers then [] else [(ContentTypeHeader, DefaultContentType(defaults))];
    var cl := if response.body == "" then [] else [(ContentLengthHeader, Itoa(|response.body|))];
    var user := UserFields(response.headers, order);
    var body := BodyString(response.body);
    var a := SuccessArgs(defaults, date, response, FieldLines(user));
    assert a[5] == FieldLines(ct) by {
      if ct != [] { OneFieldLine(ContentTypeHeader, DefaultContentType(defaults)); }
    }
    assert a[6] == FieldLines(cl) by {
      if cl != [] { OneFieldLine(ContentLengthHeader, Itoa(|response.body|)); }
    }
    assert SuccessFields(defaults, date, response, order) == FixedFields(date) + (ct + (cl + user));
    SuccessLayoutOf(a, response.statusCode, date, ct, cl, user, body);
  }

  /** The success template filled with a status code, a date, three groups
      of field lines and a body. */
  lemma SuccessLayoutOf(a: seq<string>, code: LS.StatusCode, date: string, ct: seq<(string, string)>,
                        cl: seq<(string, string)>, user: seq<(string, string)>, body: string)
    requires |a| == 9 && a[0] == HTTPVersion && a[1] == LS.String(code) && a[2] == LS.Verb(code)
    requires a[3] == date && a[4] == ServerName
    requires a[5] == FieldLines(ct) && a[6] == FieldLines(cl) && a[7] == FieldLines(user) && a[8] == body
    ensures Format(SuccessPieces, a)
         == StatusLine(code) + ("\r\n" + (FieldLines(FixedFields(date) + (ct + (cl + user))) + body))
  {
    var rest := ct + (cl + user);
    SuccessExpand(a);
    TailLines(ct, cl, user, body);
    FixedFieldLines(date, rest, body);
    StatusPrefix(code, "\r\n" + (FieldLines(FixedFields(date) + rest) + body));
  }

  /** The fields after the fixed ones, and the body, as the template
      places them. */
  lemma TailLines(ct: seq<(string, string)>, cl: seq<(string, string)>, user: seq<(string, string)>, body: string)
    ensures FieldLines(ct) + ("" + (FieldLines(cl) + ("" + (FieldLines(user) + ("" + (body + ""))))))
         == FieldLines(ct + (cl + user)) + body
  {
    FieldLinesAppend(cl, user);
    FieldLinesAppend(ct, cl + user);
    EmptyPieces(FieldLines(ct), FieldLines(cl), FieldLines(user), body);
  }

  lemma EmptyPieces(a: string, b: string, c: string, d: string)
    ensures a + ("" + (b + ("" + (c + ("" + (d + "")))))) == (a + (b + c)) + d
  {
    assert "" + (d + "") == d;
    assert "" + (c + d) == c + d;
    assert "" + (b + (c + d)) == b + (c + d);
  }

  /** A handled response carries exactly one `Content-Type` field: the
      handler's when it set one, the server's default otherwise. */
  lemma ContentTypeOnce(defaults: map<string, string>, date: string, response: Resp.Response, order: seq<string>)
    requires Srv.IsOrdering(order, response.headers.Keys)
    ensures var fs := SuccessFields(defaults, date, response, order);
      exists i :: 0 <= i < |fs| && fs[i].0 == ContentTypeHeader &&
        fs[i].1 == (if ContentTypeHeader in response.headers then response.headers[ContentTypeHeader]
                    else DefaultContentType(defaults)) &&
        forall j :: 0 <= j < |fs| && j != i ==> fs[j].0 != ContentTypeHeader
  {
    var ct := if ContentTypeHeader in response.headers then [] else [(ContentTypeHeader, DefaultContentType(defaults))];
    var cl := if response.body == "" then [] else [(ContentLengthHeader, Itoa(|response.body|))];
    var user := UserFields(response.headers, order);
    var own := FixedFields(date) + ct + cl;
    var fs := SuccessFields(defaults, date, response, order);
    Regroup4(FixedFields(date), ct, cl, user);
    assert fs == own + user;
    OwnNames(date, ct, cl);
    var i: nat;
    if ContentTypeHeader in response.headers {
      var k := HandlerTypeAt(response.headers, order);
      i := |own| + k;
      assert fs[i] == user[k];
    } else {
      DefaultTypeOnly(response.headers, order);
      i := 3;
      assert fs[i] == own[3];
    }
    OnceInConcat(own, user, i, ContentTypeHeader);
  }

  /** Where the handler's `Content-Type` is among its fields, and that it
      is there once. */
  lemma HandlerTypeAt(m: map<string, string>, order: seq<string>) returns (k: nat)
    requires Srv.IsOrdering(order, m.Keys) && ContentTypeHeader in m
    ensures k < |order| && UserFields(m, order)[k] == (ContentTypeHeader, m[ContentTypeHeader])
    ensures forall j :: 0 <= j < |order| && j != k ==> UserFields(m, order)[j].0 != ContentTypeHeader
  {
    k :| 0 <= k < |order| && order[k] == ContentTypeHeader;
  }

  /** Without a `Content-Type` of the handler's, none of its fields has that name. */
  lemma DefaultTypeOnly(m: map<string, string>, order: seq<string>)
    requires forall i :: 0 <= i < |order| ==> order[i] in m
    requires ContentTypeHeader !in m
    ensures forall j :: 0 <= j < |order| ==> UserFields(m, order)[j].0 != ContentTypeHeader
  {
  }

  lemma Regroup4<T>(a: seq<T>, b: seq<T>, c: seq<T>, d: seq<T>)
    ensures a + (b + (c + d)) == (a + b + c) + d
  {
  }

  /** A name found at position `i` of a concatenation, and at no other
      position of either part, is found once in the whole. */
  lemma OnceInConcat(own: seq<(string, string)>, user: seq<(string, string)>, i: nat, name: string)
    requires i < |own + user| && (own + user)[i].0 == name
    requires forall j :: 0 <= j < |own| && j != i ==> own[j].0 != name
    requires forall j :: 0 <= j < |user| && |own| + j != i ==> user[j].0 != name
    ensures forall j :: 0 <= j < |own + user| && j != i ==> (own + user)[j].0 != name
  {
    forall j | 0 <= j < |own + user| && j != i
      ensures (own + user)[j].0 != name
    {
      if j < |own| {
        assert (own + user)[j] == own[j];
      } else {
        assert (own + user)[j] == user[j - |own|];
      }
    }
  }

  /** Of the server's own fields, only the optional content-type one, right
      after the three fixed fields, is named `Content-Type`. */
  lemma OwnNames(date: string, ct: seq<(string, string)>, cl: seq<(string, string)>)
    requires |ct| <= 1 && |cl| <= 1
    requires ct != [] ==> ct[0].0 == ContentTypeHeader
    requires cl != [] ==> cl[0].0 == ContentLengthHeader
    ensures var own := FixedFields(date) + ct + cl;
      (ct != [] ==> |own| > 3 && own[3] == ct[0]) &&
      forall j :: 0 <= j < |own| && (j != 3 || ct == []) ==> own[j].0 != ContentTypeHeader
  {
    var own := FixedFields(date) + ct + cl;
    forall j | 0 <= j < |own| && (j != 3 || ct == [])
      ensures own[j].0 != ContentTypeHeader
    {
      if j < 3 {
        assert |own[j].0| < |ContentTypeHeader|;
      } else if j == 3 && ct != [] {
      } else {
        assert own[j] == cl[0];
        assert |own[j].0| != |ContentTypeHeader|;
      }
    }
  }

  /** The server's own `Content-Length` line is there exactly when the body
      is not empty, and its value reads back as the body's length. */
  lemma ContentLengthField(body: string)
    ensures ContentLengthLine(body) == "" <==> body == ""
    ensures body != "" && |body| <= MaxInt64 ==>
      ContentLengthLine(body) == ContentLengthHeader + ": " + Itoa(|body|) + "\r\n" &&
      Atoi(Itoa(|body|)) == Some(|body|)
  {
    if body != "" {
      assert |Srv.HeaderLine(ContentLengthHeader, Itoa(|body|))| > 0;
      if |body| <= MaxInt64 {
        AtoiItoa(|body|);
      }
    }
  }

  /** A non-empty body follows a blank line and is followed by a line end;
      an empty body leaves the response ending with its last field line,
      with no blank line after the fields. */
  lemma BodyFraming(defaults: map<string, string>, date: string, response: Resp.Response, order: seq<string>)
    requires forall i :: 0 <= i < |order| ==> order[i] in response.headers
    ensures var head := StatusLine(response.statusCode) + ("\r\n" + FieldLines(SuccessFields(defaults, date, response, order)));
      SuccessText(defaults, date, response, order)
        == if response.body == "" then head else head + ("\r\n" + (response.body + "\r\n"))
  {
    SuccessLayout(defaults, date, response, order);
    Regroup(StatusLine(response.statusCode), FieldLines(SuccessFields(defaults, date, response, order)), BodyString(response.body));
  }

  lemma Regroup(status: string, fields: string, body: string)
    ensures status + ("\r\n" + (fields + body)) == (status + ("\r\n" + fields)) + body
  {
  }

  // ---------------------------------------------------------------------
  // The server

  /** What the handlers make of a decoded request: nothing when no handler
      takes it, otherwise what the first that does makes of a fresh 200
      response, with the query and the route's parameters on the request. */
  ghost function Dispatch(handlers: seq<Srv.Handler>, req: Req.Request): Option<Resp.Response>
  {
    match Srv.Route(handlers, SplitQuery(req.path).0, req.verb)
    case None => None
    case Some((i, params)) => Some(handlers[i].handlerFunc(Srv.Routed(req, params), Resp.Response("", map[], LS.OK)))
  }

  class Server {
    var handlers: seq<Srv.Handler>
    var headers: map<string, string>

    /** `CreateServer`: no handlers, and the default fields. */
    constructor ()
      ensures handlers == [] && headers == Srv.DefaultHeaders()
      ensures DefaultContentType(headers) == TextHtml
    {
      handlers := [];
      headers := Srv.DefaultHeaders();
    }

    /** `AddHandler`: a well-formed pattern appends one handler at the end,
        keeping the earlier ones, with the empty method when the pattern
        names none; an ill-formed one panics before the list is touched. */
    method AddHandler(requestPattern: string, handlerFunc: Srv.HandlerFunc) returns (panicked: bool)
      modifies this
      ensures headers == old(headers)
      ensures panicked <==> !RoutePattern.ParseRequestPattern(requestPattern).ok
      ensures panicked ==> handlers == old(handlers)
      ensures !panicked ==>
        var p := RoutePattern.ParseRequestPattern(requestPattern);
        |handlers| == |old(handlers)| + 1 && handlers[..|old(handlers)|] == old(handlers) &&
        handlers[|old(handlers)|].path == Compile(p.pathText) &&
        handlers[|old(handlers)|].verb == p.verb &&
        (' ' !in requestPattern ==> handlers[|old(handlers)|].verb == "") &&
        handlers[|old(handlers)|].handlerFunc == handlerFunc
    {
      var p := RoutePattern.ParseRequestPattern(requestPattern);
      if !p.ok {
        return true;
      }
      var path := CreatePath(p.pathText);
      handlers := handlers + [Srv.Handler(path, p.verb, handlerFunc)];
      return false;
    }

    /** `SetHeaders`: the default fields are replaced as a whole. */
    method SetHeaders(newHeaders: map<string, string>)
      modifies this
      ensures headers == newHeaders && handlers == old(handlers)
    {
      headers := newHeaders;
    }

    /** `matchHandler`: the first handler, in registration order, whose
        route matches and whose method is empty or the request's. */
    method MatchHandler(path: string, verb: string) returns (found: Option<(nat, map<string, string>)>)
      ensures found == Srv.Route(handlers, path, verb)
    {
      var i := 0;
      while i < |handlers|
        invariant i <= |handlers|
        invariant Srv.Route(handlers, path, verb) == Srv.RouteFrom(handlers, path, verb, i)
      {
        var handler := handlers[i];
        var params := Match(handler.path, path);
        Srv.RouteFromStep(handlers, path, verb, i);
        if params.Some? && (handler.verb == "" || handler.verb == verb) {
          return Some((i, params.value));
        }
        i := i + 1;
      }
      return None;
    }

    /** `handleConnection`: nothing is written when decoding fails; a route
        miss writes the 404 response; otherwise the handler's response is
        written field by field, its fields in the map's iteration order
        (`order`). */
    method HandleConnection(conn: Req.Conn, date: string) returns (out: Srv.Exchange, ghost order: seq<string>)
      ensures Req.Decode(conn).Failed? ==> out == Srv.Dropped
      ensures Req.Decode(conn).Panic? ==> out == Srv.Crashed
      ensures Req.Decode(conn).Done? && Dispatch(handlers, Req.Decode(conn).value).None? ==>
        out == Srv.Written(NotFoundText(headers, date))
      ensures Req.Decode(conn).Done? && Dispatch(handlers, Req.Decode(conn).value).Some? ==>
        var response := Dispatch(handlers, Req.Decode(conn).value).value;
        Srv.IsOrdering(order, response.headers.Keys) &&
        out == Srv.Written(SuccessText(headers, date, response, order))
    {
      order := [];
      var parsed := Req.ParseRequest(conn);
      if parsed.Failed? {
        return Srv.Dropped, order;
      }
      if parsed.Panic? {
        return Srv.Crashed, order;
      }
      var req := parsed.value;
      var (path, query) := SplitQuery(req.path);
      var q := ParseQuery(query);
      req := req.(query := Some(q));
      var found := MatchHandler(path, req.verb);
      req := req.(params := if found.Some? then Some(found.value.1) else None);
      if found.None? {
        return Srv.Written(NotFoundText(headers, date)), order;
      }
      var response := Resp.Response("", map[], LS.OK);
      response := handlers[found.value.0].handlerFunc(req, response);
      var userHeaders;
      userHeaders, order := UserHeaderLines(response.headers);
      var text := Format(SuccessPieces,
        [HTTPVersion, LS.String(response.statusCode), LS.Verb(response.statusCode),
         date,
         ServerName,
         ContentTypeLine(headers, response.headers),
         ContentLengthLine(response.body),
         userHeaders,
         BodyString(response.body)]);
      return Srv.Written(text), order;
    }
  }

  /** The loop of `handleConnection` that writes the handler's fields, one
      line each, in the map's iteration order (`order`). */
  method UserHeaderLines(m: map<string, string>) returns (lines: string, ghost order: seq<string>)
    ensures Srv.IsOrdering(order, m.Keys)
    ensures lines == FieldLines(UserFields(m, order))
  {
    lines, order := "", [];
    var keys := m.Keys;
    while keys != {}
      invariant keys <= m.Keys
      invariant forall i :: 0 <= i < |order| ==> order[i] in m && order[i] !in keys
      invariant forall k :: k in m ==> k in keys || k in order
      invariant forall i, j :: 0 <= i < j < |order| ==> order[i] != order[j]
      invariant lines == FieldLines(UserFields(m, order))
      decreases keys
    {
      var key :| key in keys;
      FieldLinesAppend(UserFields(m, order), [(key, m[key])]);
      OneFieldLine(key, m[key]);
      lines := lines + Srv.HeaderLine(key, m[key]);
      ghost var before := order;
      order := order + [key];
      assert UserFields(m, order) == UserFields(m, before) + [(key, m[key])];
      keys := keys - {key};
    }
  }
}

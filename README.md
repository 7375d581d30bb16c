# gohst in Dafny

gohst is a small HTTP/1.1 server written in Go. A program registers handlers
under request patterns such as `GET /users/:id` or `/*`. The server reads a
request from each connection, routes it to the first handler that takes it,
and writes back a response text. This project models the server's protocol
and routing core, and proves properties of the model.

The repository holds three generations of the server, and each one is its
own module here:

- **src/** is the current one. It is modelled by these modules:
  - `UrlPath`: route patterns, compiled into static, `:param` and `*`
    segments and matched against request paths.
  - `UrlQuery`: query splitting and parsing.
  - `RoutePattern`: request-pattern parsing.
  - `Request`: the request decoder over the octets of a connection.
  - `Status` and `Response`: the status catalog and the initial response.
  - `Server`: the router, the three-level header merge, the response
    encoder and the per-connection dispatch.
- **The root package** (gohst.go, server.go) is modelled by `Gohst`. It has
  its own response writer and uses the older six-code catalog, modelled by
  `LegacyStatus`.
- **The `server` package** (server/server.go, server/utils.go) is modelled
  by `LegacyServer`. It fills one fixed template for every response.

Some modules are shared helpers:

- `Text` holds the Go library functions the core calls: `strings.Split`,
  `Index` and `Fields`, and `strconv.Atoi` and `Itoa`.
- `PairMaps` folds a list of pairs into a map, with later pairs winning.
- `Sprintf` models `fmt.Sprintf` over a template cut at its `%s` verbs.

Go strings are modelled as Dafny strings, one character per octet. Go maps
become Dafny maps. Whenever the source ranges over a map, the model picks
the keys in an unspecified order (`:|`). A ghost out-parameter `order`
reports the order it picked, and the contracts hold for every order.

A run-time panic of the source is kept as an outcome of its own:
`Request.Outcome.Panic`, `Server.Exchange.Crashed`, or `panicked` from
`AddHandler`. A handler is a pure function from the request and the
response it is handed to the response it leaves behind. What the server
writes on a connection is `Server.Exchange`: nothing (`Dropped`), a text
(`Written`), or a crash (`Crashed`).

## Model

| member | source | states |
|---|---|---|
| `UrlPath.Classify` | src/url/path.go:26-35 | A part is a wildcard iff it is `*` or `:*`. It is a param iff it starts with `:` and is not `:*`. The value drops one leading `:` and is otherwise the part unchanged. |
| `UrlPath.ParsePathSegments` | src/url/path.go:23-38 | One segment per `/`-separated part of the pattern, in order, each classified as above. |
| `UrlPath.CreatePath` | src/url/path.go:51-54 | The path keeps the pattern text and holds one compiled segment per `/`-part. |
| `UrlPath.CompileLeadingSlash` | src/url/path.go:24-25 | A pattern that starts with `/` compiles to a first segment that is empty and static. |
| `UrlPath.CompileParts` | src/url/path.go:25-36 | Compiling the `/`-join of slash-free parts gives exactly one classified segment per part. |
| `UrlPath.HasWildcard` | src/url/path.go:40-49 | True iff some segment is a wildcard, that is, iff the first wildcard's index is inside the list. |
| `UrlPath.Match` | src/url/path.go:56-85 | The result is the reference matcher `MatchSpec`. It fails when the part counts are wrong or a static segment before the first wildcard differs from its part. Otherwise it binds every param before the first wildcard to its text part, and a later duplicate name wins. |
| `UrlPath.MatchSegments` | src/url/path.go:71-84 | The one-pass loop with early returns equals the reference on any segment and part lists whose counts passed the length check. |
| `UrlPath.MatchCounts` | src/url/path.go:61-69 | A successful match without a wildcard had exactly as many parts as segments. With a wildcard, it had at least as many parts as segments, counting the wildcard and what follows it. |
| `UrlPath.StaticMismatchFails` | src/url/path.go:77-79 | A static segment before the first wildcard that differs from its text part makes the match fail. |
| `UrlPath.MatchParamNames` | src/url/path.go:73-76 | The bound names are exactly the param names before the first wildcard. |
| `UrlPath.MatchParamValue` | src/url/path.go:72-75 | The last param segment of a name binds that name to its own text part, which may be empty. |
| `UrlPath.MatchIgnoresTail` | src/url/path.go:80-82 | With a wildcard, two texts that agree on the parts before it match alike, whatever follows. |
| `UrlPathExamples.MatchTwoParams` | ghost_test.go:49 | `/path1/:param1/path2/:param2` against `/path1/x/path2/y` binds `param1` to x and `param2` to y. |
| `UrlPathExamples.MatchCatchAll` | ghost_test.go:316 | `/*` matches `/bananaaaaa` with no bindings. |
| `UrlPathExamples.MatchUserId` | example/crud/main.go:54 | `/users/:id` against `/users/<id>` binds exactly `id`, even to the empty string. |
| `UrlPathExamples.MatchExtraPartFails` | src/url/path.go:61-64 | `/users/:id` does not match a path with one more part. |
| `UrlPathExamples.ColonStarIsWildcard` | src/url/path.go:28-34 | `:*` compiles to a wildcard, not to a param named `*`. |
| `UrlQuery.SplitQuery` | src/url/query.go:19-25 | With no `?`, the result is the text and `""`. Otherwise it is the text before the first `?` and the text between the first and second `?`. Neither half contains `?`. |
| `UrlQuery.QueryPair` | src/url/query.go:9-13 | The key is the text before the first `=`. The value is the rest only when the part has exactly one `=`, and `""` otherwise. |
| `UrlQuery.ParseQuery` | src/url/query.go:5-17 | The loop computes `QueryMap`, the `&`-parts folded into a map with later keys winning. |
| `UrlQuery.QueryPairNoEquals` | src/url/query.go:12-13 | A part without `=` maps itself to `""`. |
| `UrlQuery.QueryPairOneEquals` | src/url/query.go:10-11 | `k=v` with one `=` gives k ↦ v. |
| `UrlQuery.QueryPairManyEquals` | src/url/query.go:12-13 | `k=...` with two or more `=` gives k ↦ `""`. |
| `UrlQuery.QueryMapKeys` | src/url/query.go:7-14 | The keys are exactly the keys of the `&`-parts. |
| `UrlQuery.QueryMapLastWins` | src/url/query.go:11-13 | A key takes the value of its last part. |
| `UrlQuery.QueryMapEmpty` | src/url/query.go:6-14 | The empty query parses to the one-entry map `"" ↦ ""`. |
| `UrlQuery.QueryMapTwo` | src/url/query.go:7-11 | `k1=v1&k2=v2` with distinct plain keys parses to those two entries. |
| `UrlQuery.QueryMapExample` | ghost_test.go:173 | `query1=test2&query2=2` parses to `query1 ↦ test2, query2 ↦ 2`. |
| `UrlQuery.QueryMapDuplicate` | src/url/query.go:11 | A repeated key keeps its second value. |
| `RoutePattern.ParseRequestPattern` | src/util/server.go:15-29 | Ok iff the pattern has at most one space. A rejected pattern gives `("", "", false)`. With no space, the pattern is the path and the method is `""`. With one space, method + " " + path is the pattern. |
| `RoutePattern.ParseMethodAndPath` | server/utils.go:21-23 | `M P` with space-free M and P gives path P and method M. |
| `RoutePattern.ThreeTokensRejected` | server/utils.go:26-27 | Three space-separated tokens are rejected. |
| `RoutePattern.DoubleSpaceRejected` | src/util/server.go:16-25 | Two spaces in a row are rejected, because the split is on single spaces. |
| `RoutePattern.LeadingSpaceAnyMethod` | src/util/server.go:19-21 | ` P` gives path P with the empty method, which accepts every method. |
| `Request.LineAt` | src/request/request.go:27-35 | A read up to `\n`: the text read is the slice of the input. It has no error iff a `\n` follows, and otherwise ends at the end of input with EOF or the connection's error. |
| `Request.FullAt` | src/request/request.go:62-63 | A read of n octets succeeds iff n octets remain, and then returns exactly those octets. |
| `Request.Reader.ReadString` | src/request/request.go:27 | The reader returns `LineAt` at its cursor and moves the cursor past what it read. |
| `Request.Reader.ReadFull` | src/request/request.go:63 | The reader returns `FullAt` at its cursor and moves the cursor past what it read. |
| `Request.UntilBody` | src/request/request.go:23-45 | The header-block reader fails only on a read error that is not EOF. Otherwise it stops inside the input. |
| `Request.UntilBodyShape` | src/request/request.go:23-45 | A successful result is a header block of whole lines read from the input at the start position. It contains no blank line before its last. Either it ends with its first blank line and the reader stops right after it, or it holds no blank line and the input ended cleanly with no further complete line. |
| `Request.ReadUntilBody` | src/request/request.go:23-45 | The loop computes `UntilBody`. It accumulates whole lines up to and including the first `\r\n` line. At EOF it keeps what it has and drops an unterminated tail. On any other error it returns `""` and the error. |
| `Request.BodySpec` | src/request/request.go:47-72 | The body reader never moves past the end of the input. Its outcomes (none, panic, error, or the declared octets) are stated by the `RequestProperties.Body…` lemmas. |
| `Request.ReadBody` | src/request/request.go:47-72 | The method computes `BodySpec` and leaves the cursor where `BodySpec` says. |
| `Request.ParseRequestLine` | src/request/request.go:74-81 | An error iff the text has fewer than three white-space separated words. Otherwise the result is the first three words. |
| `Request.HeaderEntry` | src/request/request.go:92-96 | A line yields a pair iff it is `name: value` with `": "` in neither half. A line without `": "` yields nothing. |
| `Request.ParseHeaders` | src/request/request.go:83-100 | The loop computes `HeaderMap`, the entries of the `\r\n`-lines folded into a map with later lines winning. |
| `Request.Decode` | src/request/request.go:102-132 | A decoded request has an empty context and no query or params yet. |
| `Request.ParseRequest` | src/request/request.go:102-132 | The method computes `Decode`. Any step's error stops it, a panic is kept as a panic, and otherwise the request has the request line's words, the header map and the body. |
| `RequestProperties.RequestLineWords` | src/request/request.go:75-80 | Three words followed by more text parse to those three words. |
| `RequestProperties.RequestLineTwoWords` | src/request/request.go:77-78 | Two words followed only by white space are an invalid request line. |
| `RequestProperties.HeaderEntryOf` | src/request/request.go:92-96 | `name: value` with no `": "` inside either half parses to that pair. |
| `RequestProperties.HeaderValueWithSeparatorDropped` | src/request/request.go:93-95 | A value that itself contains `": "` makes the line be skipped. |
| `RequestProperties.HeaderMapLastWins` | src/request/request.go:96 | A field name takes the value of its last line. |
| `RequestProperties.BodyAbsent` | src/request/request.go:51-71 | Without `Content-Length: ` in the block, the body is empty and nothing is read. |
| `RequestProperties.BodyContentLength` | src/request/request.go:53-68 | For `Content-Length: n\r\n` with 0 ≤ n ≤ 2^48, the body is exactly the next n octets, or an error if fewer remain. A negative n, or one above 2^48 (the largest buffer `make` allocates on 64-bit Linux), panics. |
| `RequestProperties.BodyNoLineEndPanics` | src/request/request.go:54-55 | A `Content-Length: ` with no `\r\n` after it panics, because the slice end is -1. |
| `RequestProperties.BodyEmptyLengthFails` | src/request/request.go:55-58 | An empty length value is an error. |
| `RequestProperties.UntilBodyBlank` | src/request/request.go:37-41 | A block whose first line is `\r\n` is exactly that line. |
| `RequestProperties.DecodeWithBody` | src/request/request.go:102-132 | A request line, a `Content-Length` field and that many octets decode to the request with that method, path, protocol and body, and a single header field. |
| `RequestProperties.DecodeOversizedLengthPanics` | src/request/request.go:62 | A `Content-Length` above 2^48 makes decoding panic, whatever follows the header block. |
| `Status.String` | src/constant/status.go:73-75 | The rendering has a leading `-` exactly for a negative code, followed by digits that evaluate to its magnitude, with no leading zero unless the code is 0: the canonical `strconv.Itoa` form. |
| `Status.Verb` | src/constant/status.go:77-208 | The reason phrase of a code: a code outside 100..511 is `Unknown`; which codes have which phrase is stated by `Status.VerbSamples` and `Status.VerbKnownIffDeclared`. |
| `Status.StringRoundTrip` | src/constant/status.go:73-75 | `String` is the decimal rendering: `Atoi` reads the code back. |
| `Status.StringThreeDigits` | src/constant/status.go:73-75 | A code from 100 to 999 renders as three digits. |
| `Status.VerbSamples` | src/constant/status.go:87-88 | 200, 401 and 404 are `OK`, `Unauthorized` and `Not Found`. |
| `Status.VerbKnownIffDeclared` | src/constant/status.go:77-208 | The phrase is other than `Unknown` iff the code is one of the declared constants. |
| `Status.DeclaredAscending` | src/constant/status.go:7-71 | The declared constants run strictly upward from 100 to 511, so they are pairwise distinct. |
| `Status.DeclaredInRange` | src/constant/status.go:7-71 | Every declared code lies in 100..511. |
| `Response.CreateOkResponse` | src/response/response.go:11-17 | A new response says 200 OK, with no header fields and an empty body. |
| `Server.RouteFrom` | src/server/server.go:117-125 | The route found is the first handler from the start index whose path matches and whose method is empty or the request's, with its bindings. There is none iff no later handler takes the request. |
| `Server.EarlierHandlerWins` | src/server/server.go:118-122 | When two handlers take a request, the route found is at or before the earlier one. |
| `Server.RouteAppend` | src/server/server.go:49 | Appending a handler leaves every routed request where it was. A request not routed before goes to the new handler iff the new handler takes it. |
| `Server.DefaultHeaders` | src/server/server.go:109-115 | The defaults name exactly `Server`, `Connection` and `Content-Type`. |
| `Server.MergedPrecedence` | src/server/server.go:127-153 | The merged keys are the defaults, plus `Date` and `Content-Length`, plus the handler's keys. A value comes from the handler first, then the computed fields, then the defaults. |
| `Server.MergedContentLength` | src/server/server.go:128-132 | A `Content-Length` the handler did not set reads back as the body's length. |
| `Server.CopyAll` | src/server/server.go:138-150 | One loop over a map copies every entry, overwriting earlier values, whatever the key order. |
| `Server.HeaderLinesSplit` | src/server/server.go:167-170 | The field text is one `name: value\r\n` line per listed name, in the order listed. |
| `Server.Server.constructor` | src/server/server.go:29-34 | No handlers. The defaults are `Server` ↦ the server's name, `Connection` ↦ `close` and `Content-Type` ↦ `text/html`. |
| `Server.Server.AddHandler` | src/server/server.go:36-50 | Panics iff the pattern is ill-formed, and then the list is unchanged. Otherwise it appends exactly one handler at the end, with the compiled path, the parsed method and the function, keeping the earlier ones. |
| `Server.Server.SetHeaders` | src/server/server.go:52-54 | The defaults are replaced as a whole, and the handlers are unchanged. |
| `Server.Server.MatchHandler` | src/server/server.go:117-125 | The loop with its early return computes `Route`, the first-match reference. |
| `Server.Server.GetMergedHeaders` | src/server/server.go:127-153 | The three loops compute the merge `Merged`. |
| `Server.Server.BuildResponseString` | src/server/server.go:155-180 | The text is the status line, then one line per merged field in the emission order, then a blank line, then the body. The order lists every merged field once. |
| `Server.Server.HandleConnection` | src/server/server.go:182-213 | A decoding error writes nothing, and a decoder panic crashes. Otherwise the server writes the encoding of `Dispatch`'s response. |
| `Server.NotFoundResponse` | src/server/server.go:199-205 | On a route miss no handler runs. The response is a 404 with an empty body and no fields of its own, so its fields are the defaults with the date and a zero length, and its `Content-Type` is the server's default. |
| `Server.HandlerResponse` | src/server/server.go:192-208 | On a hit the first handler that takes the request runs once, on a fresh 200 response. It sees the bound params and the query decoded from the part after `?`. |
| `Server.HandlerFieldWins` | src/server/server.go:147-150 | A field the handler sets overrides the computed field and the default. A `Content-Type` it does not set is the default. |
| `Sprintf.FormatVerbs` | server/server.go:106-115 | Filling every verb of a template with `%s` gives the template text back, which is what a route miss writes. |
| `LegacyStatus.String` | constant/status.go:16-18 | The rendering has a leading `-` exactly for a negative code, followed by digits that evaluate to its magnitude, with no leading zero unless the code is 0: the canonical `strconv.Itoa` form. |
| `LegacyStatus.Verb` | constant/status.go:20-35 | The reason phrase of a code: a code outside 200..500 is `Unknown Status Code`; the six phrases are stated by `LegacyStatus.VerbTable` and `LegacyStatus.VerbFallback`. |
| `LegacyStatus.StringRoundTrip` | constant/status.go:16-18 | `String` is the decimal rendering: `Atoi` reads the code back. |
| `LegacyStatus.VerbTable` | constant/status.go:20-33 | 200, 201, 400, 401, 404 and 500 are `OK`, `Created`, `Bad Request`, `Unauthorized`, `Not Found` and `Internal Server Error`. |
| `LegacyStatus.VerbFallback` | constant/status.go:34-35 | The phrase is `Unknown Status Code` iff the code is not one of the six. |
| `LegacyStatus.DeclaredAscending` | constant/status.go:7-14 | The six constants are strictly ascending, so they are distinct. |
| `Gohst.FieldLinesAppend` | server.go:120-123 | Field lines of two lists are the lines of the first followed by those of the second. |
| `Gohst.UserFieldsOnce` | server.go:120-123 | Ranging over the handler's map lists each of its fields exactly once, with its value, and lists no other name. |
| `Gohst.NotFoundShape` | server.go:62-77 | The 404 text is the status line `HTTP/1.1 404 Not Found`, then `Date`, `Server`, `Connection: close` and one `Content-Type` line with the default, and no blank line or body after them. |
| `Gohst.SuccessLayout` | server.go:88-134 | The text is the status line with the handler's final code, then the fixed fields, the optional `Content-Type` and `Content-Length` lines and the handler's fields, then the framed body. |
| `Gohst.ContentTypeLine` | server.go:27-35 | The field line of the server's default content type (or `text/html`), or nothing when the handler set `Content-Type`. |
| `Gohst.ContentLengthLine` | server.go:37-43 | The field line of the body's octet count, or nothing for an empty body. |
| `Gohst.BodyString` | server.go:45-50 | An empty body gives nothing; any other body comes back between two `\r\n`, four octets longer. |
| `Gohst.ContentTypeOnce` | server.go:27-35 | A handled response carries exactly one `Content-Type` field: the handler's if set, otherwise the server default, otherwise `text/html`. |
| `Gohst.ContentLengthField` | server.go:37-43 | The `Content-Length` line is absent iff the body is empty. Otherwise its value reads back as the body's length. |
| `Gohst.BodyFraming` | server.go:45-50 | An empty body leaves the text ending after the last field line. Otherwise the text continues with `\r\n`, the body and `\r\n`. |
| `Gohst.Server.constructor` | gohst.go:17-22 | No handlers, and the default fields, with `text/html` as the default content type. |
| `Gohst.Server.AddHandler` | gohst.go:24-38 | Panics iff the pattern is ill-formed, before the list is touched. Otherwise it appends one handler at the end, keeping the earlier ones, with the empty method when the pattern has no space. |
| `Gohst.Server.SetHeaders` | gohst.go:40-42 | The defaults are replaced as a whole. |
| `Gohst.Server.MatchHandler` | server.go:52-60 | The loop computes the first-match reference `Route`. |
| `Gohst.Server.HandleConnection` | server.go:79-137 | A decoding error writes nothing, and a decoder panic crashes. A route miss writes the 404 text. A hit writes the handler's response text for the emission order of its fields. |
| `Gohst.UserHeaderLines` | server.go:120-123 | The loop writes one line per field of the handler's map, each exactly once, in the order reported. |
| `LegacyServer.TemplateText` | server/server.go:106-115 | The response template is `%s %s %s\r\nDate: %s\r\nServer: %s\r\nConnection: close\r\n%s\r\n%s\r\n%s\r\n%s\r\n`. |
| `LegacyServer.SuccessLayout` | server/server.go:143-152 | The status line is `HTTP/1.1 200 OK` whatever code the handler set. Then come the fixed fields, and the content-type, content-length, handler-field and body slots, each followed by `\r\n`. |
| `LegacyServer.HandlerContentTypeEndsHead` | server/server.go:111 | When the handler sets `Content-Type`, an empty line follows the fixed fields at once, so everything after it is read as body. |
| `LegacyServer.EmptyBodyEndsHead` | server/server.go:63-69 | With an empty body and no handler `Content-Type`, a blank line follows the default content type, before the handler's fields. |
| `LegacyServer.ContentTypeField` | server/server.go:53-61 | Empty exactly when the handler set `Content-Type`; otherwise the same field as the root package writes, without its line end. |
| `LegacyServer.ContentLengthField` | server/server.go:63-69 | Empty exactly for an empty body; otherwise the same field as the root package writes, without its line end. |
| `LegacyServer.GenericNotFound` | server/server.go:81-93 | The filled 404 template starts with the 404 status line and the fixed fields. |
| `LegacyServer.GenericNotFoundShape` | server/server.go:81-93 | The formatted 404 text, which is discarded, is the 404 status line, the fixed fields, the default content type and three empty lines. |
| `LegacyServer.Server.constructor` | server/server.go:26-30 | No handlers and no default fields, so the default content type is `text/html`. |
| `LegacyServer.Server.AddHandler` | server/server.go:32-47 | Rejects iff the pattern is ill-formed, leaving the list unchanged and without a panic. Otherwise it appends one handler at the end. |
| `LegacyServer.Server.SetHeaders` | server/server.go:49-51 | The defaults are replaced as a whole. |
| `LegacyServer.Server.MatchHandler` | server/server.go:71-79 | The loop computes the first-match reference `Route`. |
| `LegacyServer.Server.HandleConnection` | server/server.go:95-155 | A decoding error writes nothing, and a decoder panic crashes. A route miss writes the unformatted template itself. A hit writes the filled template. |

## Left out

- Listening, accepting and serving connections, the goroutines, the stop
  channel and shutdown (`listenAndServe`, `ListenAndServe`,
  server/listener.go) are not modelled. They are concurrency and sockets.
- TLS is not modelled; it consists of calls into the standard library.
- The clock (`GetHttpTime`, `getHttpTime`) is not modelled. The `Date`
  value is a parameter of every operation that writes it.
- `net.Conn` and `bufio.Reader` are not modelled as such. A connection is
  the octets the client sends, plus whether the input ends cleanly or with
  a read error. What the server writes is the returned `Exchange`.
  `conn.Close` and all logging are left out.
- Middleware (`Use`), `ListenAndServeTLS`, the example applications and
  the user handlers are not modelled. A handler is an arbitrary pure
  function of the request and the response. The model does not capture
  Go's pointer aliasing, such as a handler keeping the response or
  changing the request in place.
- The order of Go map iteration is not fixed. Every ordering is admitted,
  and no property depends on one.
- `strings.Fields` splits only on ASCII white space. Unicode spaces
  outside ASCII are not modelled.
- The value of `constant.ServerName` is not part of this model. The
  protocol version `constant.HTTPVersion` is taken to be `HTTP/1.1`. The
  `constant.ContentLength` of the older packages is taken to be
  `Content-Length`.
- The root package's own `url`, `request` and `util` packages and its
  `getDefaultHeaders` are not part of this model. They are taken to be the
  ones of src/. As shown, the root package's handler and response types do
  not line up with what gohst.go passes, and the model treats them as
  agreeing.
- `matchHandler` returns the handler's position in the list rather than a
  copy of the handler.
- The `%d` verb of `fmt.Sprintf` is modelled as `Itoa` of the byte length.
  The length is that of the octet string, so UTF-8 is out of scope.
- `parseRequestPattern` in server/utils.go is the same code as
  `ParseRequestPattern` in src/util/server.go. Both are modelled by
  `RoutePattern.ParseRequestPattern`, and the `HttpMethod` conversion is the
  identity on text.
- The body buffer is taken to succeed for every length up to 2^48 octets,
  the allocation limit of the Go runtime on 64-bit Linux (`Request.MaxAlloc`).
  Other platforms' limits and running out of memory below that limit are
  not modelled.
- `Server.MergedContentLength` holds only for a body of at most 2^63-1
  octets, where `Atoi`'s 64-bit range ends.

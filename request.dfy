/** The request decoder of src/request/request.go: the header block is read
    line by line up to the first blank line, the request line is the first
    three white-space separated words of that block, the header fields are
    its `name: value` lines, and a `Content-Length: n` anywhere in the block
    makes the next `n` octets the body. */
module Request {
  import opened Text
  import opened PairMaps

  // ---------------------------------------------------------------------
  // Data model

  /** The errors the decoder can return.  `EOF` and `ConnectionBroken` come
      from the connection (end of input, and any other read failure),
      `UnexpectedEOF` from a body cut short, the last two from the parser. */
  datatype Error = EOF | ConnectionBroken | UnexpectedEOF | InvalidRequestLine | InvalidContentLength

  datatype Result<T> = Ok(value: T) | Err(error: Error)

  /** How an operation ends: with a value, with an error, or by a run-time
      panic of the source (a slice out of range, a negative allocation). */
  datatype Outcome<T> = Done(value: T) | Failed(error: Error) | Panic

  /** The octets a client sends, and whether the connection then ends cleanly
      (`fault == false`: end of input) or with a read error. */
  datatype Conn = Conn(data: string, fault: bool)

  /** A decoded request (`verb` is its method).  `query` and `params` are None until the server sets
      them; the context is a map of named values, here rendered as text. */
  datatype Request = Request(
    verb: string, path: string, protocol: string, body: string,
    query: Option<map<string, string>>, params: Option<map<string, string>>,
    headers: map<string, string>, context: map<string, string>)

  const ContentLengthPrefix: string := "Content-Length: "

  // ---------------------------------------------------------------------
  // Reading the connection

  /** The position of the first `\n` at or after `p`, or the end of the data. */
  function LineEnd(data: string, p: nat): (r: nat)
    requires p <= |data|
    ensures p <= r <= |data|
    ensures r < |data| ==> data[r] == '\n'
    decreases |data| - p
  {
    if p == |data| || data[p] == '\n' then p else LineEnd(data, p + 1)
  }

  /** No line feed comes before the line end. */
  lemma {:induction false} LineEndFirst(data: string, p: nat)
    requires p <= |data|
    ensures forall j :: p <= j < LineEnd(data, p) ==> data[j] != '\n'
    decreases |data| - p
  {
    if p < |data| && data[p] != '\n' {
      LineEndFirst(data, p + 1);
    }
  }

  /** `ReadString('\n')` at position `p`: the text up to and including the
      next `\n`, or, when there is none, the rest with the connection's error. */
  function LineAt(c: Conn, p: nat): (r: (string, Option<Error>, nat))
    requires p <= |c.data|
    ensures p <= r.2 <= |c.data| && r.0 == c.data[p..r.2]
    ensures r.1.None? <==> LineEnd(c.data, p) < |c.data|
    ensures r.1.None? ==> r.2 > p
    ensures r.1.Some? ==> r.2 == |c.data| && r.1.value == (if c.fault then ConnectionBroken else EOF)
  {
    var i := LineEnd(c.data, p);
    if i < |c.data| then
      (c.data[p..i + 1], None, i + 1)
    else
      (c.data[p..], Some(if c.fault then ConnectionBroken else EOF), |c.data|)
  }

  /** A line read is one line: a line feed at its end and none before; at the
      end of input, the tail holds none. */
  lemma LineAtShape(c: Conn, p: nat)
    requires p <= |c.data|
    ensures var (line, err, _) := LineAt(c, p);
      (err.None? ==> line[|line| - 1] == '\n' && '\n' !in line[..|line| - 1]) &&
      (err.Some? ==> '\n' !in line)
  {
    LineEndFirst(c.data, p);
    var (line, err, q) := LineAt(c, p);
    if err.None? {
      assert forall k :: 0 <= k < |line| - 1 ==> line[k] == c.data[p + k];
    } else {
      assert forall k :: 0 <= k < |line| ==> line[k] == c.data[p + k];
    }
  }

  /** `io.ReadFull` of `n` octets at position `p`. */
  function FullAt(c: Conn, p: nat, n: nat): (r: (string, Option<Error>, nat))
    requires p <= |c.data|
    ensures r.2 <= |c.data|
    ensures r.1.None? <==> p + n <= |c.data|
    ensures r.1.None? ==> r.0 == c.data[p..p + n] && r.2 == p + n
  {
    if p + n <= |c.data| then
      (c.data[p..p + n], None, p + n)
    else
      (c.data[p..], Some(if c.fault then ConnectionBroken else if p == |c.data| then EOF else UnexpectedEOF),
       |c.data|)
  }

  /** A buffered reader over a connection. */
  class Reader {
    const conn: Conn
    var pos: nat

    ghost predicate Valid()
      reads this
    {
      pos <= |conn.data|
    }

    constructor (c: Conn)
      ensures conn == c && pos == 0 && Valid()
    {
      conn := c;
      pos := 0;
    }

    /** `ReadString('\n')`. */
    method ReadString() returns (line: string, err: Option<Error>)
      requires Valid()
      modifies this
      ensures Valid()
      ensures (line, err, pos) == LineAt(conn, old(pos))
    {
      var i := pos;
      while i < |conn.data| && conn.data[i] != '\n'
        invariant pos <= i <= |conn.data|
        invariant LineEnd(conn.data, pos) == LineEnd(conn.data, i)
      {
        i := i + 1;
      }
      if i < |conn.data| {
        line, err := conn.data[pos..i + 1], None;
        pos := i + 1;
      } else {
        line, err := conn.data[pos..], Some(if conn.fault then ConnectionBroken else EOF);
        pos := |conn.data|;
      }
    }

    /** `io.ReadFull` into a buffer of `n` octets. */
    method ReadFull(n: nat) returns (buf: string, err: Option<Error>)
      requires Valid()
      modifies this
      ensures Valid()
      ensures (buf, err, pos) == FullAt(conn, old(pos), n)
    {
      if pos + n <= |conn.data| {
        buf, err := conn.data[pos..pos + n], None;
        pos := pos + n;
      } else {
        buf := conn.data[pos..];
        err := Some(if conn.fault then ConnectionBroken else if pos == |conn.data| then EOF else UnexpectedEOF);
        pos := |conn.data|;
      }
    }
  }

  // ---------------------------------------------------------------------
  // readUntilBody

  /** A blank line `\r\n` starts at position `j` of `h`. */
  predicate BlankAt(h: string, j: int)
  {
    0 <= j && j + 2 <= |h| && h[j..j + 2] == "\r\n" && (j == 0 || h[j - 1] == '\n')
  }

  /** `h`, read from position `p` with the reader then at `e`, is a header
      block: the text at `p`, made of whole lines, with a blank line at most
      as its last line; either it ends with that blank line, or it has no
      blank line and the input ended cleanly with no further complete line. */
  ghost predicate HeaderBlock(c: Conn, p: nat, h: string, e: nat)
  {
    p + |h| <= e <= |c.data| && c.data[p..p + |h|] == h &&
    (h == "" || h[|h| - 1] == '\n') &&
    (forall j :: BlankAt(h, j) ==> j + 2 == |h|) &&
    ((|h| >= 2 && BlankAt(h, |h| - 2) && e == p + |h|) ||
     (!(|h| >= 2 && BlankAt(h, |h| - 2)) &&
      e == |c.data| && !c.fault && '\n' !in c.data[p + |h|..]))
  }

  /** What `readUntilBody` returns from position `p`, with the position it
      leaves the reader at: the lines read, up to and including the first
      blank one; at the end of input the lines read so far (an unterminated
      tail is dropped); on any other read error the error alone. */
  function UntilBody(c: Conn, p: nat): (r: Result<(string, nat)>)
    requires p <= |c.data|
    ensures r.Err? ==> c.fault && r.error == ConnectionBroken
    ensures r.Ok? ==> p <= r.value.1 <= |c.data|
    decreases |c.data| - p
  {
    var (line, err, q) := LineAt(c, p);
    if err.Some? then
      if err.value == EOF then Ok(("", q)) else Err(err.value)
    else if line == "\r\n" then Ok((line, q))
    else Prepend(line, UntilBody(c, q))
  }

  /** What `readUntilBody` returns is a header block read at `p`. */
  lemma {:induction false} UntilBodyShape(c: Conn, p: nat)
    requires p <= |c.data|
    ensures UntilBody(c, p).Ok? ==> HeaderBlock(c, p, UntilBody(c, p).value.0, UntilBody(c, p).value.1)
    decreases |c.data| - p
  {
    var (line, err, q) := LineAt(c, p);
    LineAtShape(c, p);
    if err.None? {
      if line == "\r\n" {
        assert forall j :: BlankAt(line, j) ==> j == 0;
      } else {
        UntilBodyShape(c, q);
        match UntilBody(c, q)
        case Err(_) =>
        case Ok((rest, e)) => HeaderBlockStep(c, p, line, q, rest, e);
      }
    }
  }

  /** A line read at `p` followed by a header block read after it. */
  lemma HeaderBlockStep(c: Conn, p: nat, line: string, q: nat, rest: string, e: nat)
    requires p < q <= |c.data| && line == c.data[p..q]
    requires line[|line| - 1] == '\n' && '\n' !in line[..|line| - 1] && line != "\r\n"
    requires HeaderBlock(c, q, rest, e)
    ensures HeaderBlock(c, p, line + rest, e)
  {
    StepSlice(c, p, line, q, rest, e);
    StepBlanks(line, rest);
    StepEnd(c, p, line, q, rest, e);
  }

  /** The text read at `p` is the line, then the text read after it. */
  lemma StepSlice(c: Conn, p: nat, line: string, q: nat, rest: string, e: nat)
    requires p < q <= |c.data| && line == c.data[p..q]
    requires q + |rest| <= e <= |c.data| && c.data[q..q + |rest|] == rest
    ensures p + |line + rest| <= e && c.data[p..p + |line + rest|] == line + rest
  {
    assert c.data[p..q + |rest|] == c.data[p..q] + c.data[q..q + |rest|];
  }

  /** The only blank line of a line and a block is the block's last. */
  lemma StepBlanks(line: string, rest: string)
    requires |line| > 0 && line[|line| - 1] == '\n' && '\n' !in line[..|line| - 1] && line != "\r\n"
    requires forall j :: BlankAt(rest, j) ==> j + 2 == |rest|
    ensures forall j :: BlankAt(line + rest, j) ==> j + 2 == |line + rest|
  {
    LinesBlankAt(line, rest);
  }

  /** How the block read after the line ends is how the whole block ends. */
  lemma StepEnd(c: Conn, p: nat, line: string, q: nat, rest: string, e: nat)
    requires q == p + |line| && |line| > 0 && line[|line| - 1] == '\n'
    requires '\n' !in line[..|line| - 1] && line != "\r\n"
    requires rest == "" || rest[|rest| - 1] == '\n'
    requires (|rest| >= 2 && BlankAt(rest, |rest| - 2) && e == q + |rest|) ||
             (!(|rest| >= 2 && BlankAt(rest, |rest| - 2)) &&
              e == |c.data| && !c.fault && q + |rest| <= |c.data| && '\n' !in c.data[q + |rest|..])
    ensures var h := line + rest;
      (h == "" || h[|h| - 1] == '\n') &&
      ((|h| >= 2 && BlankAt(h, |h| - 2) && e == p + |h|) ||
       (!(|h| >= 2 && BlankAt(h, |h| - 2)) &&
        e == |c.data| && !c.fault && p + |h| <= |c.data| && '\n' !in c.data[p + |h|..]))
  {
    var h := line + rest;
    LinesBlankAt(line, rest);
    if rest != "" {
      assert h[|h| - 1] == rest[|rest| - 1];
    }
    if |rest| >= 2 && BlankAt(rest, |rest| - 2) {
      BlankAtEnd(line, rest);
    }
  }

  /** A blank last line of the block stays one after the line. */
  lemma BlankAtEnd(line: string, rest: string)
    requires |line| > 0 && line[|line| - 1] == '\n'
    requires |rest| >= 2 && BlankAt(rest, |rest| - 2)
    ensures BlankAt(line + rest, |line + rest| - 2)
  {
    var h := line + rest;
    assert h[|h| - 2..] == rest[|rest| - 2..];
    if |rest| > 2 {
      assert h[|h| - 3] == rest[|rest| - 3];
    } else {
      assert h[|h| - 3] == line[|line| - 1];
    }
  }

  /** Blank lines of a line followed by more text lie in that text. */
  lemma LinesBlankAt(line: string, rest: string)
    requires |line| > 0 && line[|line| - 1] == '\n' && '\n' !in line[..|line| - 1] && line != "\r\n"
    ensures forall j :: BlankAt(line + rest, j) ==> j >= |line| && BlankAt(rest, j - |line|)
  {
    var h := line + rest;
    forall j | 0 <= j < |line|
      ensures !BlankAt(h, j)
    {
      if j == 0 {
        if |line| == 1 {
          assert h[0] == '\n';
        } else if |line| == 2 {
          assert h[0..2] == line;
        } else {
          assert h[1] == line[..|line| - 1][1];
        }
      } else {
        assert h[j - 1] == line[..|line| - 1][j - 1];
      }
    }
    forall j | |line| <= j && BlankAt(h, j)
      ensures BlankAt(rest, j - |line|)
    {
      assert rest[j - |line|..j - |line| + 2] == h[j..j + 2];
      if j > |line| {
        assert rest[j - |line| - 1] == h[j - 1];
      }
    }
  }

  /** Reading a line that is not blank, then the rest of the block. */
  lemma UntilBodyLine(c: Conn, p: nat)
    requires p <= |c.data| && LineAt(c, p).1.None? && LineAt(c, p).0 != "\r\n"
    ensures UntilBody(c, p) == Prepend(LineAt(c, p).0, UntilBody(c, LineAt(c, p).2))
  {
  }

  lemma PrependTwice(h: string, line: string, r: Result<(string, nat)>)
    ensures Prepend(h, Prepend(line, r)) == Prepend(h + line, r)
  {
    match r
    case Ok((rest, e)) => assert h + (line + rest) == h + line + rest;
    case Err(_) =>
  }

  /** `readUntilBody`: read lines into a builder until a blank line, the end
      of input, or a read error. */
  method ReadUntilBody(reader: Reader) returns (headers: string, err: Option<Error>)
    requires reader.Valid()
    modifies reader
    ensures reader.Valid()
    ensures UntilBody(reader.conn, old(reader.pos)) == if err.Some? then Err(err.value) else Ok((headers, reader.pos))
    ensures err.Some? ==> headers == ""
  {
    headers := "";
    ghost var start := reader.pos;
    PrependEmpty(UntilBody(reader.conn, start));
    while true
      invariant reader.Valid() && start <= reader.pos
      invariant UntilBody(reader.conn, start) == Prepend(headers, UntilBody(reader.conn, reader.pos))
      decreases |reader.conn.data| - reader.pos
    {
      ghost var before := reader.pos;
      var line, e := reader.ReadString();
      if e.Some? {
        if e.value == EOF {
          assert UntilBody(reader.conn, before) == Ok(("", reader.pos));
          assert headers + "" == headers;
          break;
        }
        return "", e;
      }
      if line == "\r\n" {
        assert UntilBody(reader.conn, before) == Ok((line, reader.pos));
        headers := headers + line;
        break;
      }
      UntilBodyLine(reader.conn, before);
      PrependTwice(headers, line, UntilBody(reader.conn, reader.pos));
      headers := headers + line;
    }
    err := None;
  }

  lemma PrependEmpty(r: Result<(string, nat)>)
    ensures Prepend("", r) == r
  {
    match r
    case Ok((rest, e)) => assert "" + rest == rest;
    case Err(_) =>
  }

  /** The result of reading `h` before the rest of the header lines. */
  function Prepend(h: string, r: Result<(string, nat)>): Result<(string, nat)>
  {
    match r
    case Ok((rest, e)) => Ok((h + rest, e))
    case Err(x) => Err(x)
  }

  // ---------------------------------------------------------------------
  // readBody

  /** What `readBody` yields on the header block `headers` with the reader at
      `p`, and where it leaves the reader. */
  function BodySpec(headers: string, c: Conn, p: nat): (r: (Outcome<string>, nat))
    requires p <= |c.data|
    ensures r.1 <= |c.data|
  {
    if !Contains(headers, ContentLengthPrefix) then (Done(""), p)
    else
      var start := Index(headers, ContentLengthPrefix) + |ContentLengthPrefix|;
      var end := Index(headers[start..], "\r\n");
      if end < 0 then (Panic, p)
      else
        match Atoi(headers[start..start + end])
        case None => (Failed(InvalidContentLength), p)
        case Some(n) => BodyOfLength(c, p, n)
  }

  /** The largest buffer `make([]byte, n)` allocates: 2^48 octets, the
      address-space limit of the Go runtime on 64-bit Linux.  A longer or a
      negative length makes `make` panic. */
  const MaxAlloc: int := 0x1_0000_0000_0000

  /** The body of a request that declares `n` octets: a buffer of that
      length (a negative length, or one past `MaxAlloc`, panics), filled
      from the connection. */
  function BodyOfLength(c: Conn, p: nat, n: int): (r: (Outcome<string>, nat))
    requires p <= |c.data|
    ensures r.1 <= |c.data|
  {
    if n < 0 || n > MaxAlloc then (Panic, p)
    else
      var (buf, err, q) := FullAt(c, p, n);
      if err.Some? then (Failed(err.value), q) else (Done(buf), q)
  }

  /** `readBody`. */
  method ReadBody(reader: Reader, headers: string) returns (body: Outcome<string>)
    requires reader.Valid()
    modifies reader
    ensures reader.Valid()
    ensures (body, reader.pos) == BodySpec(headers, reader.conn, old(reader.pos))
  {
    if Contains(headers, ContentLengthPrefix) {
      var start := Index(headers, ContentLengthPrefix) + |ContentLengthPrefix|;
      var end := Index(headers[start..], "\r\n");
      if end < 0 {
        return Panic;
      }
      var contentLength := Atoi(headers[start..start + end]);
      if contentLength.None? {
        return Failed(InvalidContentLength);
      }
      if contentLength.value < 0 || contentLength.value > MaxAlloc {
        return Panic;
      }
      var buf, err := reader.ReadFull(contentLength.value);
      if err.Some? {
        return Failed(err.value);
      }
      return Done(buf);
    }
    return Done("");
  }

  // ---------------------------------------------------------------------
  // parseRequestLine and parseHeaders

  /** `parseRequestLine`: the first three white-space separated words, or an
      error when there are fewer. */
  function ParseRequestLine(requestLine: string): (r: Result<(string, string, string)>)
    ensures r.Err? <==> |Fields(requestLine)| < 3
    ensures r.Err? ==> r.error == InvalidRequestLine
    ensures r.Ok? ==> [r.value.0, r.value.1, r.value.2] == Fields(requestLine)[..3]
  {
    var parts := Fields(requestLine);
    if |parts| < 3 then Err(InvalidRequestLine) else Ok((parts[0], parts[1], parts[2]))
  }

  /** The entry one line contributes: a line that splits on `: ` into exactly
      two parts binds the first to the second; any other line, the empty one
      included, contributes nothing. */
  function HeaderEntry(line: string): (r: Option<(string, string)>)
    ensures r.Some? ==> line == r.value.0 + ": " + r.value.1
    ensures r.Some? ==> Free(r.value.0, ": ") && Free(r.value.1, ": ")
    ensures Free(line, ": ") ==> r.None?
  {
    if line == "" then None
    else
      var parts := Split(line, ": ");
      IndexFirst(line, ": ");
      if |parts| != 2 then None
      else
        SplitJoin(line, ": ");
        assert parts == [parts[0], parts[1]];
        JoinTwo(parts[0], parts[1], ": ");
        SplitPartFree(line, ": ", 0);
        SplitPartFree(line, ": ", 1);
        Some((parts[0], parts[1]))
  }

  /** The entries of the lines, in order. */
  function HeaderPairs(lines: seq<string>): seq<(string, string)>
  {
    if lines == [] then []
    else
      var last := lines[|lines| - 1];
      HeaderPairs(lines[..|lines| - 1]) + (if HeaderEntry(last).Some? then [HeaderEntry(last).value] else [])
  }

  /** What `parseHeaders` makes of a header block. */
  function HeaderMap(headers: string): map<string, string>
  {
    ToMap(HeaderPairs(Split(headers, "\r\n")))
  }

  /** The entries of one more line. */
  lemma HeaderPairsStep(lines: seq<string>, n: nat)
    requires n < |lines|
    ensures HeaderPairs(lines[..n + 1])
         == HeaderPairs(lines[..n]) + (if HeaderEntry(lines[n]).Some? then [HeaderEntry(lines[n]).value] else [])
  {
    assert lines[..n + 1][..n] == lines[..n];
  }

  /** `parseHeaders`. */
  method ParseHeaders(headers: string) returns (headerMap: map<string, string>)
    ensures headerMap == HeaderMap(headers)
  {
    headerMap := map[];
    var headerLines := Split(headers, "\r\n");
    for n := 0 to |headerLines|
      invariant headerMap == ToMap(HeaderPairs(headerLines[..n]))
    {
      HeaderPairsStep(headerLines, n);
      var headerLine := headerLines[n];
      if headerLine == "" {
        assert HeaderEntry(headerLine).None?;
        assert HeaderPairs(headerLines[..n + 1]) == HeaderPairs(headerLines[..n]) + [];
        assert HeaderPairs(headerLines[..n]) + [] == HeaderPairs(headerLines[..n]);
        continue;
      }
      var headerParts := Split(headerLine, ": ");
      if |headerParts| != 2 {
        assert HeaderEntry(headerLine).None?;
        assert HeaderPairs(headerLines[..n + 1]) == HeaderPairs(headerLines[..n]) + [];
        assert HeaderPairs(headerLines[..n]) + [] == HeaderPairs(headerLines[..n]);
        continue;
      }
      assert HeaderEntry(headerLine) == Some((headerParts[0], headerParts[1]));
      ToMapSnoc(HeaderPairs(headerLines[..n]), (headerParts[0], headerParts[1]));
      headerMap := headerMap[headerParts[0] := headerParts[1]];
    }
    assert headerLines[..|headerLines|] == headerLines;
  }

  // ---------------------------------------------------------------------
  // ParseRequest

  /** What `ParseRequest` makes of a connection. */
  function Decode(c: Conn): (r: Outcome<Request>)
    ensures r.Done? ==> r.value.query.None? && r.value.params.None? && r.value.context == map[]
  {
    match UntilBody(c, 0)
    case Err(x) => Failed(x)
    case Ok((headers, e)) =>
      match ParseRequestLine(headers)
      case Err(x) => Failed(x)
      case Ok((verb, path, protocol)) =>
        match BodySpec(headers, c, e).0
        case Panic => Panic
        case Failed(x) => Failed(x)
        case Done(body) => Done(Request(verb, path, protocol, body, None, None, HeaderMap(headers), map[]))
  }

  /** `ParseRequest`: a reader over the connection, the header block, the
      request line, the header fields, the body. */
  method ParseRequest(c: Conn) returns (r: Outcome<Request>)
    ensures r == Decode(c)
  {
    var reader := new Reader(c);
    var headers, err := ReadUntilBody(reader);
    if err.Some? {
      return Failed(err.value);
    }
    var requestLine := ParseRequestLine(headers);
    if requestLine.Err? {
      return Failed(requestLine.error);
    }
    var (verb, path, protocol) := requestLine.value;
    var headerMap := ParseHeaders(headers);
    var body := ReadBody(reader, headers);
    match body
    case Panic => return Panic;
    case Failed(x) => return Failed(x);
    case Done(b) =>
      return Done(Request(verb, path, protocol, b, None, None, headerMap, map[]));
  }
}

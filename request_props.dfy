/** Properties of the request decoder of src/request/request.go. */
module RequestProperties {
  import opened Text
  import opened PairMaps
  import opened Request

  // ---------------------------------------------------------------------
  // Separators of two distinct characters

  /** A text without the first character of a separator holds no occurrence of it. */
  lemma FreeOfFirst(s: string, sep: string)
    requires |sep| > 0 && sep[0] !in s
    ensures Free(s, sep)
  {
    forall j
      ensures !OccursAt(s, sep, j)
    {
      if 0 <= j && j + |sep| <= |s| {
        assert s[j..j + |sep|][0] == s[j] != sep[0];
      }
    }
  }

  /** A two-character separator with distinct characters cannot straddle a
      boundary before itself: its first occurrence after a free prefix is
      right after that prefix. */
  lemma IndexAfterFree(a: string, sep: string, b: string)
    requires |sep| == 2 && sep[0] != sep[1] && Free(a, sep)
    ensures Index(a + sep + b, sep) == |a|
  {
    var s := a + sep + b;
    assert s[|a|..|a| + 2] == sep;
    assert OccursAt(s, sep, |a|);
    forall j | 0 <= j < |a|
      ensures !OccursAt(s, sep, j)
    {
      if j + 2 <= |a| {
        assert s[j..j + 2] == a[j..j + 2];
        assert !OccursAt(a, sep, j);
      } else {
        assert s[j + 1] == sep[0];
      }
    }
    IndexIs(s, sep, |a|);
  }

  /** Splitting after a free prefix. */
  lemma SplitAfterFree(a: string, sep: string, b: string)
    requires |sep| == 2 && sep[0] != sep[1] && Free(a, sep)
    ensures Split(a + sep + b, sep) == [a] + Split(b, sep)
  {
    IndexAfterFree(a, sep, b);
    var s := a + sep + b;
    assert s[..|a|] == a && s[|a| + 2..] == b;
  }

  /** A free text splits into itself alone. */
  lemma SplitFree(a: string, sep: string)
    requires |sep| > 0 && Free(a, sep)
    ensures Split(a, sep) == [a]
  {
  }

  // ---------------------------------------------------------------------
  // parseRequestLine

  /** The request line is the first three words, whatever white space
      separates them (a request line may even span several lines) and
      whatever follows the third. */
  lemma RequestLineWords(m: string, path: string, proto: string, sp1: char, sp2: char, sp3: char, rest: string)
    requires |m| > 0 && |path| > 0 && |proto| > 0 && Word(m) && Word(path) && Word(proto)
    requires IsSpace(sp1) && IsSpace(sp2) && IsSpace(sp3)
    ensures ParseRequestLine(m + [sp1] + path + [sp2] + proto + [sp3] + rest) == Ok((m, path, proto))
  {
    var t3 := proto + [sp3] + rest;
    var t2 := path + [sp2] + t3;
    var s := m + [sp1] + t2;
    assert m + [sp1] + path + [sp2] + proto + [sp3] + rest == s;
    ThreeWords(m, path, proto, sp1, sp2, sp3, rest);
  }

  lemma ThreeWords(m: string, path: string, proto: string, sp1: char, sp2: char, sp3: char, rest: string)
    requires |m| > 0 && |path| > 0 && |proto| > 0 && Word(m) && Word(path) && Word(proto)
    requires IsSpace(sp1) && IsSpace(sp2) && IsSpace(sp3)
    ensures var f := Fields(m + [sp1] + (path + [sp2] + (proto + [sp3] + rest)));
      |f| >= 3 && f[..3] == [m, path, proto]
  {
    var t3 := proto + [sp3] + rest;
    var t2 := path + [sp2] + t3;
    FieldsWordSpace(m, sp1, t2);
    FieldsWordSpace(path, sp2, t3);
    FieldsWordSpace(proto, sp3, rest);
    var f := Fields(m + [sp1] + t2);
    assert f == [m] + ([path] + ([proto] + Fields(rest)));
    assert f[..3] == [m, path, proto];
  }

  /** Two words are not a request line. */
  lemma RequestLineTwoWords(m: string, path: string, sp: char, tail: string)
    requires |m| > 0 && |path| > 0 && Word(m) && Word(path) && IsSpace(sp)
    requires forall k :: 0 <= k < |tail| ==> IsSpace(tail[k])
    ensures ParseRequestLine(m + [sp] + path + tail) == Err(InvalidRequestLine)
  {
    var line := m + [sp] + path + tail;
    assert line == m + [sp] + (path + tail);
    FieldsWordSpace(m, sp, path + tail);
    WordThenSpaces(path, tail);
    assert |Fields(line)| == 2;
  }

  /** A word followed by white space alone is the only field. */
  lemma WordThenSpaces(w: string, tail: string)
    requires |w| > 0 && Word(w)
    requires forall k :: 0 <= k < |tail| ==> IsSpace(tail[k])
    ensures Fields(w + tail) == [w]
  {
    if tail == [] {
      assert w + tail == w;
      FieldsOfWord(w);
    } else {
      var sp, more := tail[0], tail[1..];
      assert w + tail == w + [sp] + more;
      WordSpaceSpaces(w, sp, more);
    }
  }

  lemma WordSpaceSpaces(w: string, sp: char, more: string)
    requires |w| > 0 && Word(w) && IsSpace(sp)
    requires forall k :: 0 <= k < |more| ==> IsSpace(more[k])
    ensures Fields(w + [sp] + more) == [w]
  {
    FieldsWordSpace(w, sp, more);
    FieldsAllSpaces(more);
  }

  /** A word alone is its only field. */
  lemma FieldsOfWord(w: string)
    requires |w| > 0 && Word(w)
    ensures Fields(w) == [w]
  {
    RunLengthIs(w, |w|);
    assert w[..|w|] == w;
    assert w[|w|..] == [];
  }

  /** White space alone has no fields. */
  lemma {:induction false} FieldsAllSpaces(s: string)
    requires forall k :: 0 <= k < |s| ==> IsSpace(s[k])
    ensures Fields(s) == []
  {
    if s != [] {
      FieldsAllSpaces(s[1..]);
    }
  }

  // ---------------------------------------------------------------------
  // parseHeaders

  /** A `name: value` line binds the name to the value when neither holds
      the separator. */
  lemma HeaderEntryOf(name: string, value: string)
    requires Free(name, ": ") && Free(value, ": ")
    ensures HeaderEntry(name + ": " + value) == Some((name, value))
  {
    SplitAfterFree(name, ": ", value);
  }

  /** A value that itself holds `: ` drops the whole line. */
  lemma HeaderValueWithSeparatorDropped(name: string, v1: string, v2: string)
    requires Free(name, ": ")
    ensures HeaderEntry(name + ": " + v1 + ": " + v2).None?
  {
    assert name + ": " + v1 + ": " + v2 == name + ": " + (v1 + ": " + v2);
    SplitAfterFree(name, ": ", v1 + ": " + v2);
    var t := v1 + ": " + v2;
    assert t[|v1|..|v1| + 2] == ": ";
    assert OccursAt(t, ": ", |v1|);
    IndexFirst(t, ": ");
    assert |Split(t, ": ")| >= 2;
  }

  /** A header bound by a later line overrides the earlier ones. */
  lemma HeaderMapLastWins(headers: string, k: nat)
    requires k < |HeaderPairs(Split(headers, "\r\n"))|
    requires forall j :: k < j < |HeaderPairs(Split(headers, "\r\n"))| ==>
               HeaderPairs(Split(headers, "\r\n"))[j].0 != HeaderPairs(Split(headers, "\r\n"))[k].0
    ensures HeaderPairs(Split(headers, "\r\n"))[k].0 in HeaderMap(headers)
    ensures HeaderMap(headers)[HeaderPairs(Split(headers, "\r\n"))[k].0] == HeaderPairs(Split(headers, "\r\n"))[k].1
  {
    ToMapLast(HeaderPairs(Split(headers, "\r\n")), k);
  }

  // ---------------------------------------------------------------------
  // readBody

  lemma ItoaNoCR(n: int)
    ensures '\r' !in Itoa(n)
  {
    var ds := DigitsOf(if n < 0 then -n else n);
    assert forall k :: 0 <= k < |ds| ==> ds[k] != '\r';
    if n < 0 {
      assert Itoa(n) == "-" + ds;
    }
  }

  /** A header block without `Content-Length: ` has an empty body and leaves
      the reader where it is. */
  lemma BodyAbsent(headers: string, c: Conn, p: nat)
    requires p <= |c.data| && Free(headers, ContentLengthPrefix)
    ensures BodySpec(headers, c, p) == (Done(""), p)
  {
  }

  /** The text of a length field `n` followed by a line end. */
  lemma LengthField(headers: string, start: nat, n: int, post: string)
    requires start <= |headers| && headers[start..] == Itoa(n) + "\r\n" + post
    ensures Index(headers[start..], "\r\n") == |Itoa(n)|
    ensures headers[start..start + |Itoa(n)|] == Itoa(n)
  {
    ItoaNoCR(n);
    FreeOfFirst(Itoa(n), "\r\n");
    IndexAfterFree(Itoa(n), "\r\n", post);
    assert headers[start..][..|Itoa(n)|] == Itoa(n);
  }

  /** A length field `n` followed by a line end declares `n` octets. */
  lemma BodyDeclared(headers: string, i: nat, n: int, post: string, c: Conn, p: nat)
    requires p <= |c.data| && MinInt64 <= n <= MaxInt64
    requires Index(headers, ContentLengthPrefix) == i
    requires headers[i + |ContentLengthPrefix|..] == Itoa(n) + "\r\n" + post
    ensures BodySpec(headers, c, p) == BodyOfLength(c, p, n)
  {
    var start := i + |ContentLengthPrefix|;
    var end := |Itoa(n)|;
    LengthValue(headers, start, n, post);
    assert Index(headers[start..], "\r\n") == end && start + end <= |headers|;
    assert Atoi(headers[start..start + end]) == Some(n);
    BodyAt(headers, c, p, start, end, n);
  }

  /** The length text ends at the line end and parses back to `n`. */
  lemma LengthValue(headers: string, start: nat, n: int, post: string)
    requires MinInt64 <= n <= MaxInt64
    requires start <= |headers| && headers[start..] == Itoa(n) + "\r\n" + post
    ensures Index(headers[start..], "\r\n") == |Itoa(n)| && start + |Itoa(n)| <= |headers|
    ensures Atoi(headers[start..start + |Itoa(n)|]) == Some(n)
  {
    LengthField(headers, start, n, post);
    AtoiItoa(n);
  }

  /** The body, once the length text has been found and parsed. */
  lemma BodyAt(headers: string, c: Conn, p: nat, start: nat, end: nat, n: int)
    requires p <= |c.data| && Index(headers, ContentLengthPrefix) >= 0
    requires start == Index(headers, ContentLengthPrefix) + |ContentLengthPrefix| <= |headers|
    requires Index(headers[start..], "\r\n") == end && start + end <= |headers|
    requires Atoi(headers[start..start + end]) == Some(n)
    ensures BodySpec(headers, c, p) == BodyOfLength(c, p, n)
  {
  }

  /** `Content-Length: n` followed by a line end frames exactly the next `n`
      octets as the body: they are the body when they are all there, and
      the read fails otherwise.  A negative length, or one past the largest
      buffer the runtime allocates, panics. */
  lemma BodyContentLength(headers: string, i: nat, n: int, post: string, c: Conn, p: nat)
    requires p <= |c.data| && MinInt64 <= n <= MaxInt64
    requires Index(headers, ContentLengthPrefix) == i
    requires headers[i + |ContentLengthPrefix|..] == Itoa(n) + "\r\n" + post
    ensures n < 0 || n > MaxAlloc ==> BodySpec(headers, c, p) == (Panic, p)
    ensures 0 <= n <= MaxAlloc && p + n <= |c.data| ==> BodySpec(headers, c, p) == (Done(c.data[p..p + n]), p + n)
    ensures 0 <= n <= MaxAlloc && p + n > |c.data| ==> BodySpec(headers, c, p).0.Failed?
  {
    BodyDeclared(headers, i, n, post, c, p);
  }

  /** `Content-Length: ` with no line end after it slices out of range: panic. */
  lemma BodyNoLineEndPanics(headers: string, i: nat, c: Conn, p: nat)
    requires p <= |c.data|
    requires Index(headers, ContentLengthPrefix) == i
    requires Free(headers[i + |ContentLengthPrefix|..], "\r\n")
    ensures BodySpec(headers, c, p) == (Panic, p)
  {
  }

  /** An empty length, as in `Content-Length: ` directly followed by a line
      end, is not a number: the request fails. */
  lemma BodyEmptyLengthFails(headers: string, i: nat, post: string, c: Conn, p: nat)
    requires p <= |c.data|
    requires Index(headers, ContentLengthPrefix) == i
    requires headers[i + |ContentLengthPrefix|..] == "\r\n" + post
    ensures BodySpec(headers, c, p) == (Failed(InvalidContentLength), p)
  {
    FreeOfFirst("", "\r\n");
    IndexAfterFree("", "\r\n", post);
    assert "" + "\r\n" + post == "\r\n" + post;
  }

  // ---------------------------------------------------------------------
  // readUntilBody

  /** Reading a line at `p` whose text is `line` and a line feed. */
  lemma LineAtIs(c: Conn, p: nat, line: string)
    requires p + |line| + 1 <= |c.data| && c.data[p..p + |line| + 1] == line + "\n" && '\n' !in line
    ensures LineAt(c, p) == (line + "\n", None, p + |line| + 1)
  {
    LineFeedFree(c, p, line);
    assert c.data[p + |line|] == (line + "\n")[|line|];
    LineEndIs(c.data, p, p + |line|);
  }

  lemma NotBlankLine(line: string)
    requires line != "\r"
    ensures line + "\n" != "\r\n"
  {
    if |line| == 1 {
      assert line == [line[0]];
      assert (line + "\n")[0] == line[0];
    }
  }

  /** A line that is not blank, then the rest of the block. */
  lemma UntilBodyNext(c: Conn, p: nat, line: string)
    requires p + |line| + 1 <= |c.data| && c.data[p..p + |line| + 1] == line + "\n"
    requires '\n' !in line && line != "\r"
    ensures UntilBody(c, p) == Prepend(line + "\n", UntilBody(c, p + |line| + 1))
  {
    LineAtIs(c, p, line);
    NotBlankLine(line);
    UntilBodyLine(c, p);
  }

  /** A blank line ends the block. */
  lemma UntilBodyBlank(c: Conn, p: nat)
    requires p + 2 <= |c.data| && c.data[p..p + 2] == "\r\n"
    ensures UntilBody(c, p) == Ok(("\r\n", p + 2))
  {
    LineAtIs(c, p, "\r");
  }

  /** The first line end is where the text says. */
  lemma {:induction false} LineEndIs(data: string, p: nat, e: nat)
    requires p <= e < |data| && data[e] == '\n' && forall j :: p <= j < e ==> data[j] != '\n'
    ensures LineEnd(data, p) == e
    decreases e - p
  {
    if p < e {
      LineEndIs(data, p + 1, e);
    }
  }

  /** A line without a line feed inside. */
  lemma LineFeedFree(c: Conn, p: nat, line: string)
    requires p + |line| + 1 <= |c.data| && c.data[p..p + |line| + 1] == line + "\n" && '\n' !in line
    ensures forall j :: p <= j < p + |line| ==> c.data[j] != '\n'
  {
    forall j | p <= j < p + |line|
      ensures c.data[j] != '\n'
    {
      assert c.data[j] == c.data[p..p + |line| + 1][j - p] == line[j - p];
    }
  }

  // ---------------------------------------------------------------------
  // A whole request

  /** The first occurrence of `sub` after a line end, when it does not occur
      before and holds no line-end character. */
  lemma IndexAfterLineEnd(a: string, sub: string, b: string)
    requires |sub| > 0 && Free(a, sub) && '\r' !in sub && '\n' !in sub
    ensures Index(a + "\r\n" + sub + b, sub) == |a| + 2
  {
    var s := a + "\r\n" + sub + b;
    assert s[|a| + 2..|a| + 2 + |sub|] == sub;
    assert OccursAt(s, sub, |a| + 2);
    forall j | 0 <= j < |a| + 2
      ensures !OccursAt(s, sub, j)
    {
      if j + |sub| <= |a| {
        assert s[j..j + |sub|] == a[j..j + |sub|];
        assert !OccursAt(a, sub, j);
      } else if j + |sub| <= |s| {
        var q := if j < |a| then |a| else j;
        assert s[q] == '\r' || s[q] == '\n';
        assert s[j..j + |sub|][q - j] == s[q];
        assert sub[q - j] != '\r' && sub[q - j] != '\n';
      }
    }
    IndexIs(s, sub, |a| + 2);
  }

  /** Every character of a decimal rendering is a digit or the sign. */
  lemma ItoaChars(n: int)
    ensures forall k :: 0 <= k < |Itoa(n)| ==> IsDigit(Itoa(n)[k]) || Itoa(n)[k] == '-'
  {
    if n < 0 {
      var ds := DigitsOf(-n);
      assert Itoa(n) == "-" + ds;
      assert forall k :: 1 <= k < |Itoa(n)| ==> Itoa(n)[k] == ds[k - 1];
    }
  }

  /** A line that is not blank, ending in CR LF at `p`. */
  lemma NextLine(c: Conn, p: nat, line: string)
    requires p + |line| + 2 <= |c.data| && c.data[p..p + |line| + 2] == line + "\r\n"
    requires '\n' !in line && line != ""
    ensures UntilBody(c, p) == Prepend(line + "\r\n", UntilBody(c, p + |line| + 2))
  {
    var l := line + "\r";
    assert |l| == |line| + 1;
    assert '\n' !in l;
    assert l != "\r";
    assert l + "\n" == line + "\r\n";
    UntilBodyNext(c, p, l);
  }

  /** A read that prepends one line to a successful read of the rest. */
  lemma ReadsCompose(c: Conn, p: nat, q: nat, x: string, b: string, e: nat)
    requires p <= q <= |c.data|
    requires UntilBody(c, p) == Prepend(x, UntilBody(c, q))
    requires UntilBody(c, q) == Ok((b, e))
    ensures UntilBody(c, p) == Ok((x + b, e))
  {
  }

  /** A line that is not blank, then a successful read of the rest. */
  lemma LineThenRest(c: Conn, p: nat, q: nat, line: string, b: string, e: nat)
    requires '\n' !in line && line != ""
    requires q == p + |line| + 2 && q <= |c.data| && c.data[p..q] == line + "\r\n"
    requires UntilBody(c, q) == Ok((b, e))
    ensures UntilBody(c, p) == Ok(((line + "\r\n") + b, e))
  {
    NextLine(c, p, line);
    ReadsCompose(c, p, q, line + "\r\n", b, e);
  }

  /** A line that is not blank, then a blank line, at `q`. */
  lemma FieldThenBlank(c: Conn, q: nat, r: nat, field: string)
    requires '\n' !in field && field != ""
    requires r == q + |field| + 2 && r + 2 <= |c.data|
    requires c.data[q..r] == field + "\r\n" && c.data[r..r + 2] == "\r\n"
    ensures UntilBody(c, q) == Ok(((field + "\r\n") + "\r\n", r + 2))
  {
    UntilBodyBlank(c, r);
    LineThenRest(c, q, r, field, "\r\n", r + 2);
  }

  /** Two lines and a blank line at `p` are read as the header block. */
  lemma TwoLinesAt(c: Conn, p: nat, q: nat, r: nat, line: string, field: string)
    requires '\n' !in line && line != "" && '\n' !in field && field != ""
    requires q == p + |line| + 2 && r == q + |field| + 2 && r + 2 <= |c.data|
    requires c.data[p..q] == line + "\r\n" && c.data[q..r] == field + "\r\n"
    requires c.data[r..r + 2] == "\r\n"
    ensures UntilBody(c, p) == Ok(((line + "\r\n") + ((field + "\r\n") + "\r\n"), r + 2))
  {
    FieldThenBlank(c, q, r, field);
    LineThenRest(c, p, q, line, (field + "\r\n") + "\r\n", r + 2);
  }

  /** The slices of a header block of two lines, at position 0. */
  lemma TwoLinesSlices(line: string, field: string, rest: string)
    ensures var h := line + "\r\n" + field + "\r\n" + "\r\n";
      var d := h + rest;
      var q := |line| + 2;
      var r := q + |field| + 2;
      h == (line + "\r\n") + ((field + "\r\n") + "\r\n") && r + 2 == |h| && |h| <= |d| &&
      d[0..q] == line + "\r\n" && d[q..r] == field + "\r\n" && d[r..r + 2] == "\r\n"
  {
    var h := line + "\r\n" + field + "\r\n" + "\r\n";
    var d := h + rest;
    var q := |line| + 2;
    var r := q + |field| + 2;
    assert d == (line + "\r\n") + (field + "\r\n") + "\r\n" + rest;
    assert d[..q] == line + "\r\n";
    assert d[q..r] == field + "\r\n";
    assert d[r..r + 2] == "\r\n";
  }

  /** Two lines and a blank line are read as the header block. */
  lemma TwoLinesRead(line: string, field: string, rest: string, fault: bool)
    requires '\n' !in line && line != "" && '\n' !in field && field != ""
    ensures var h := line + "\r\n" + field + "\r\n" + "\r\n";
      UntilBody(Conn(h + rest, fault), 0) == Ok((h, |h|))
  {
    var h := line + "\r\n" + field + "\r\n" + "\r\n";
    TwoLinesSlices(line, field, rest);
    TwoLinesIn(h + rest, fault, line, field, h);
  }

  /** The same, for data whose slices are known. */
  lemma TwoLinesIn(d: string, fault: bool, line: string, field: string, h: string)
    requires '\n' !in line && line != "" && '\n' !in field && field != ""
    requires var q := |line| + 2;
      var r := q + |field| + 2;
      h == (line + "\r\n") + ((field + "\r\n") + "\r\n") && r + 2 == |h| && |h| <= |d| &&
      d[0..q] == line + "\r\n" && d[q..r] == field + "\r\n" && d[r..r + 2] == "\r\n"
    ensures UntilBody(Conn(d, fault), 0) == Ok((h, |h|))
  {
    var q := |line| + 2;
    TwoLinesAt(Conn(d, fault), 0, q, q + |field| + 2, line, field);
  }

  /** The request line text. */
  function RequestLineText(m: string, path: string, proto: string): string
  {
    m + " " + path + " " + proto
  }

  /** The header block of a request with one `Content-Length` field. */
  function BlockWithLength(m: string, path: string, proto: string, n: int): string
  {
    RequestLineText(m, path, proto) + "\r\n" + LengthFieldText(n) + "\r\n" + "\r\n"
  }

  function LengthFieldText(n: int): string
  {
    ContentLengthPrefix + Itoa(n)
  }

  predicate RequestWords(m: string, path: string, proto: string)
  {
    |m| > 0 && |path| > 0 && |proto| > 0 && Word(m) && Word(path) && Word(proto)
  }

  lemma WordNoLineEnd(w: string)
    requires Word(w)
    ensures '\r' !in w && '\n' !in w
  {
    assert forall k :: 0 <= k < |w| ==> w[k] != '\r' && w[k] != '\n';
  }

  lemma LineTextNoLineEnd(m: string, path: string, proto: string)
    requires RequestWords(m, path, proto)
    ensures '\r' !in RequestLineText(m, path, proto) && '\n' !in RequestLineText(m, path, proto)
  {
    WordNoLineEnd(m);
    WordNoLineEnd(path);
    WordNoLineEnd(proto);
  }

  lemma FieldTextChars(n: int)
    ensures '\r' !in LengthFieldText(n) && '\n' !in LengthFieldText(n) && ':' !in Itoa(n)
  {
    ItoaChars(n);
    assert '\r' !in Itoa(n) && '\n' !in Itoa(n);
  }

  /** The block is read whole, and the reader stops after the blank line. */
  lemma BlockRead(m: string, path: string, proto: string, n: int, rest: string, fault: bool)
    requires RequestWords(m, path, proto)
    ensures var h := BlockWithLength(m, path, proto, n);
      UntilBody(Conn(h + rest, fault), 0) == Ok((h, |h|))
  {
    LineTextNoLineEnd(m, path, proto);
    FieldTextChars(n);
    TwoLinesRead(RequestLineText(m, path, proto), LengthFieldText(n), rest, fault);
  }

  /** The request line of that block. */
  lemma BlockRequestLine(m: string, path: string, proto: string, n: int)
    requires RequestWords(m, path, proto)
    ensures ParseRequestLine(BlockWithLength(m, path, proto, n)) == Ok((m, path, proto))
  {
    var tail := "\n" + LengthFieldText(n) + "\r\n" + "\r\n";
    assert BlockWithLength(m, path, proto, n) == m + [' '] + path + [' '] + proto + ['\r'] + tail;
    RequestLineWords(m, path, proto, ' ', ' ', '\r', tail);
  }

  /** A line end alone splits into two empty lines. */
  lemma SplitLineEnd(s: string)
    requires s == "\r\n"
    ensures Split(s, "\r\n") == ["", ""]
  {
    FreeOfFirst("", "\r\n");
    assert s == "" + "\r\n" + "";
    SplitAfterFree("", "\r\n", "");
  }

  /** A first line free of CR. */
  lemma SplitFirstLine(line: string, more: string)
    requires '\r' !in line
    ensures Split(line + "\r\n" + more, "\r\n") == [line] + Split(more, "\r\n")
  {
    FreeOfFirst(line, "\r\n");
    SplitAfterFree(line, "\r\n", more);
  }

  /** The lines of two lines and a blank line. */
  lemma TwoLinesSplit(line: string, field: string)
    requires '\r' !in line && '\r' !in field
    ensures Split(line + "\r\n" + field + "\r\n" + "\r\n", "\r\n") == [line, field, "", ""]
  {
    var crlf := "\r\n";
    var more := field + crlf + crlf;
    Regroup5(line, crlf, field, crlf, crlf);
    SplitFirstLine(line, more);
    FieldThenEmpty(field);
    assert [line] + [field, "", ""] == [line, field, "", ""];
  }

  /** The lines of one line and a blank line. */
  lemma FieldThenEmpty(field: string)
    requires '\r' !in field
    ensures Split(field + "\r\n" + "\r\n", "\r\n") == [field, "", ""]
  {
    SplitFirstLine(field, "\r\n");
    SplitLineEnd("\r\n");
  }

  lemma Regroup5<T>(a: seq<T>, b: seq<T>, c: seq<T>, d: seq<T>, e: seq<T>)
    ensures a + b + c + d + e == a + b + (c + d + e)
  {
  }

  /** The entries of a line without `: `, a field, and two empty lines. */
  lemma TwoLinesPairs(lines: seq<string>, line: string, field: string, name: string, value: string)
    requires lines == [line, field, "", ""] && Free(line, ": ")
    requires HeaderEntry(field) == Some((name, value))
    ensures HeaderPairs(lines) == [(name, value)]
  {
    assert HeaderPairs(lines[..0]) == [];
    HeaderPairsStep(lines, 0);
    HeaderPairsStep(lines, 1);
    HeaderPairsStep(lines, 2);
    HeaderPairsStep(lines, 3);
    assert lines[..4] == lines;
  }

  /** The header fields of a line without `: `, a field and a blank line. */
  lemma TwoLinesHeaders(line: string, field: string, name: string, value: string)
    requires '\r' !in line && '\r' !in field && Free(line, ": ")
    requires HeaderEntry(field) == Some((name, value))
    ensures HeaderMap(line + "\r\n" + field + "\r\n" + "\r\n") == map[name := value]
  {
    TwoLinesSplit(line, field);
    TwoLinesPairs(Split(line + "\r\n" + field + "\r\n" + "\r\n", "\r\n"), line, field, name, value);
    ToMapOne((name, value));
  }

  /** The length field is one header entry. */
  lemma LengthFieldEntry(n: int)
    ensures HeaderEntry(LengthFieldText(n)) == Some(("Content-Length", Itoa(n)))
  {
    FieldTextChars(n);
    FreeOfFirst(Itoa(n), ": ");
    FreeOfFirst("Content-Length", ": ");
    assert LengthFieldText(n) == "Content-Length" + ": " + Itoa(n);
    HeaderEntryOf("Content-Length", Itoa(n));
  }

  /** The header fields of that block: the length alone, when the request
      line holds no `: `. */
  lemma BlockHeaders(m: string, path: string, proto: string, n: int)
    requires RequestWords(m, path, proto) && Free(RequestLineText(m, path, proto), ": ")
    ensures HeaderMap(BlockWithLength(m, path, proto, n)) == map["Content-Length" := Itoa(n)]
  {
    LineTextNoLineEnd(m, path, proto);
    FieldTextChars(n);
    LengthFieldEntry(n);
    TwoLinesHeaders(RequestLineText(m, path, proto), LengthFieldText(n), "Content-Length", Itoa(n));
  }

  /** Where the length field of that block is. */
  lemma BlockLength(m: string, path: string, proto: string, n: int)
    requires Free(RequestLineText(m, path, proto), ContentLengthPrefix)
    ensures var h := BlockWithLength(m, path, proto, n);
      var i := |RequestLineText(m, path, proto)| + 2;
      Index(h, ContentLengthPrefix) == i && h[i + |ContentLengthPrefix|..] == Itoa(n) + "\r\n" + "\r\n"
  {
    var line := RequestLineText(m, path, proto);
    var h := BlockWithLength(m, path, proto, n);
    assert h == line + "\r\n" + ContentLengthPrefix + (Itoa(n) + "\r\n" + "\r\n");
    IndexAfterLineEnd(line, ContentLengthPrefix, Itoa(n) + "\r\n" + "\r\n");
  }

  /** A request line, a `Content-Length: n` field and a blank line, then `n`
      octets: the request has those method, path and protocol, exactly those
      octets as its body, the length as its one header, and no query or
      route parameters yet; whatever follows is left unread. */
  lemma DecodeWithBody(m: string, path: string, proto: string, body: string, rest: string, fault: bool)
    requires RequestWords(m, path, proto) && |body| <= MaxAlloc
    requires Free(RequestLineText(m, path, proto), ContentLengthPrefix)
    requires Free(RequestLineText(m, path, proto), ": ")
    ensures Decode(Conn(BlockWithLength(m, path, proto, |body|) + body + rest, fault))
         == Done(Request(m, path, proto, body, None, None, map["Content-Length" := Itoa(|body|)], map[]))
  {
    var h := BlockWithLength(m, path, proto, |body|);
    BlockThenBodyRead(m, path, proto, body, rest, fault);
    BlockRequestLine(m, path, proto, |body|);
    BlockHeaders(m, path, proto, |body|);
    BlockBody(m, path, proto, body, rest, fault);
    DecodeOf(Conn(h + body + rest, fault), h, m, path, proto, body, map["Content-Length" := Itoa(|body|)]);
  }

  /** A request line, then a `Content-Length` past the largest buffer the
      runtime allocates: decoding panics before any body octet is read,
      whatever follows the block. */
  lemma DecodeOversizedLengthPanics(m: string, path: string, proto: string, n: int, rest: string, fault: bool)
    requires RequestWords(m, path, proto) && MaxAlloc < n <= MaxInt64
    requires Free(RequestLineText(m, path, proto), ContentLengthPrefix)
    ensures Decode(Conn(BlockWithLength(m, path, proto, n) + rest, fault)) == Panic
  {
    var h := BlockWithLength(m, path, proto, n);
    var c := Conn(h + rest, fault);
    BlockRead(m, path, proto, n, rest, fault);
    BlockRequestLine(m, path, proto, n);
    OversizedBodyPanics(m, path, proto, n, c);
    DecodePanicOf(c, h, m, path, proto);
  }

  /** The body reader panics on that block. */
  lemma OversizedBodyPanics(m: string, path: string, proto: string, n: int, c: Conn)
    requires MaxAlloc < n <= MaxInt64
    requires Free(RequestLineText(m, path, proto), ContentLengthPrefix)
    requires |BlockWithLength(m, path, proto, n)| <= |c.data|
    ensures BodySpec(BlockWithLength(m, path, proto, n), c, |BlockWithLength(m, path, proto, n)|).0 == Panic
  {
    var h := BlockWithLength(m, path, proto, n);
    BlockLength(m, path, proto, n);
    BodyContentLength(h, |RequestLineText(m, path, proto)| + 2, n, "\r\n", c, |h|);
  }

  /** A panic of the body reader is the outcome of decoding. */
  lemma DecodePanicOf(c: Conn, h: string, m: string, path: string, proto: string)
    requires |h| <= |c.data| && UntilBody(c, 0) == Ok((h, |h|))
    requires ParseRequestLine(h) == Ok((m, path, proto))
    requires BodySpec(h, c, |h|).0 == Panic
    ensures Decode(c) == Panic
  {
  }

  /** A request is decoded from what each step yields. */
  lemma DecodeOf(c: Conn, h: string, m: string, path: string, proto: string, body: string, hm: map<string, string>)
    requires |h| <= |c.data| && UntilBody(c, 0) == Ok((h, |h|))
    requires ParseRequestLine(h) == Ok((m, path, proto))
    requires HeaderMap(h) == hm
    requires BodySpec(h, c, |h|).0 == Done(body)
    ensures Decode(c) == Done(Request(m, path, proto, body, None, None, hm, map[]))
  {
  }

  /** The block is read whole before the body. */
  lemma BlockThenBodyRead(m: string, path: string, proto: string, body: string, rest: string, fault: bool)
    requires RequestWords(m, path, proto)
    ensures var h := BlockWithLength(m, path, proto, |body|);
      |h| <= |h + body + rest| && UntilBody(Conn(h + body + rest, fault), 0) == Ok((h, |h|))
  {
    var h := BlockWithLength(m, path, proto, |body|);
    assert h + body + rest == h + (body + rest);
    BlockRead(m, path, proto, |body|, body + rest, fault);
  }

  /** The octets after the block are the body. */
  lemma BlockBody(m: string, path: string, proto: string, body: string, rest: string, fault: bool)
    requires |body| <= MaxAlloc
    requires Free(RequestLineText(m, path, proto), ContentLengthPrefix)
    ensures var h := BlockWithLength(m, path, proto, |body|);
      |h| <= |h + body + rest| && BodySpec(h, Conn(h + body + rest, fault), |h|).0 == Done(body)
  {
    var n := |body|;
    var h := BlockWithLength(m, path, proto, n);
    var c := Conn(h + body + rest, fault);
    BlockLength(m, path, proto, n);
    BodyContentLength(h, |RequestLineText(m, path, proto)| + 2, n, "\r\n", c, |h|);
    assert c.data[|h|..|h| + n] == body;
  }
}

/** Route patterns as handlers are registered with them (src/util/server.go,
    and its older copy server/utils.go): an optional method, one space, and a
    path pattern, as in `GET /users/:id`. */
module RoutePattern {
  import opened Text

  /** The path pattern, the method `verb` (empty for "any method") and whether the
      pattern was well formed. */
  datatype Pattern = Pattern(pathText: string, verb: string, ok: bool)

  /** The pattern split on single spaces: two tokens are a method and a path,
      one token is a path alone, anything else is rejected.  It is well formed
      exactly when it holds at most one space, and then rejoining its tokens
      gives it back. */
  function ParseRequestPattern(requestPattern: string): (r: Pattern)
    ensures r.ok <==> multiset(requestPattern)[' '] <= 1
    ensures !r.ok ==> r == Pattern("", "", false)
    ensures ' ' !in requestPattern ==> r == Pattern(requestPattern, "", true)
    ensures r.ok && ' ' in requestPattern ==>
      r.verb + " " + r.pathText == requestPattern && ' ' !in r.verb && ' ' !in r.pathText
  {
    var split := Split(requestPattern, " ");
    SplitCharCount(requestPattern, ' ');
    if |split| == 2 then
      SplitCharFree(requestPattern, ' ', 0);
      SplitCharFree(requestPattern, ' ', 1);
      assert split[1..] == [split[1]];
      Pattern(split[1], split[0], true)
    else if |split| == 1 then
      Pattern(split[0], "", true)
    else
      Pattern("", "", false)
  }

  /** A method and a path without spaces, joined by one space, parse back
      into that method and path. */
  lemma ParseMethodAndPath(verb: string, path: string)
    requires ' ' !in verb && ' ' !in path
    ensures ParseRequestPattern(verb + " " + path) == Pattern(path, verb, true)
  {
    SplitJoinChar([verb, path], ' ');
  }

  /** A pattern with three tokens, such as `POST invalid pattern`, is rejected. */
  lemma ThreeTokensRejected(a: string, b: string, c: string)
    requires ' ' !in a && ' ' !in b && ' ' !in c
    ensures ParseRequestPattern(a + " " + b + " " + c) == Pattern("", "", false)
  {
    var p := a + " " + b + " " + c;
    assert p == a + [' '] + (b + [' '] + c);
    SplitCharFirst(a, ' ', b + " " + c);
    SplitCharFirst(b, ' ', c);
  }

  /** Two spaces in a row, as in `GET  /a`, are two separators: rejected. */
  lemma DoubleSpaceRejected(verb: string, path: string)
    ensures ParseRequestPattern(verb + "  " + path) == Pattern("", "", false)
  {
    var p := verb + "  " + path;
    assert multiset(p)[' '] == multiset(verb)[' '] + 2 + multiset(path)[' '] by {
      assert p == verb + [' '] + [' '] + path;
    }
  }

  /** A leading space gives an empty method, which the router reads as "any method". */
  lemma LeadingSpaceAnyMethod(path: string)
    requires ' ' !in path
    ensures ParseRequestPattern(" " + path) == Pattern(path, "", true)
  {
    ParseMethodAndPath("", path);
    assert "" + " " + path == " " + path;
  }
}

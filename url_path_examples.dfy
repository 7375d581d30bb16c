/** Concrete routes of the server's tests, evaluated against the matcher of
    src/url/path.go.  Each example is assembled from small steps over
    parameters that are fixed by the preconditions: the `/`-separated parts
    of the pattern and of the text, the compiled segments, and the bindings. */
module UrlPathExamples {
  import opened Text
  import opened PairMaps
  import opened UrlPath

  // --- `/path1/:param1/path2/:param2` ------------------------------------

  lemma TwoParamPatternText(pattern: string)
    requires pattern == "/path1/:param1/path2/:param2"
    ensures "" + "/" + ("path1" + "/" + (":param1" + "/" + ("path2" + "/" + ":param2"))) == pattern
  {
  }

  lemma TwoParamPatternParts(parts: seq<string>, pattern: string)
    requires parts == ["", "path1", ":param1", "path2", ":param2"]
    requires pattern == "/path1/:param1/path2/:param2"
    ensures Join(parts, "/") == pattern
  {
    JoinFive("", "path1", ":param1", "path2", ":param2", "/");
    TwoParamPatternText(pattern);
  }

  lemma TwoParamPatternSlashFree(parts: seq<string>)
    requires parts == ["", "path1", ":param1", "path2", ":param2"]
    ensures forall k :: 0 <= k < |parts| ==> '/' !in parts[k]
  {
  }

  lemma TwoParamClassify(parts: seq<string>, segments: seq<Segment>)
    requires parts == ["", "path1", ":param1", "path2", ":param2"]
    requires |segments| == 5 && forall i :: 0 <= i < 5 ==> segments[i] == Classify(parts[i])
    ensures segments == [Segment("", Static), Segment("path1", Static), Segment("param1", Param),
                         Segment("path2", Static), Segment("param2", Param)]
  {
    assert segments[0] == Classify("");
    assert segments[1] == Classify("path1");
    assert segments[2] == Classify(":param1") == Segment("param1", Param);
    assert segments[3] == Classify("path2");
    assert segments[4] == Classify(":param2") == Segment("param2", Param);
  }

  lemma TwoParamSegments(pattern: string)
    requires pattern == "/path1/:param1/path2/:param2"
    ensures Compile(pattern).segments
         == [Segment("", Static), Segment("path1", Static), Segment("param1", Param),
             Segment("path2", Static), Segment("param2", Param)]
  {
    var parts := ["", "path1", ":param1", "path2", ":param2"];
    TwoParamPatternParts(parts, pattern);
    TwoParamPatternSlashFree(parts);
    CompileParts(pattern, parts);
    TwoParamClassify(parts, Compile(pattern).segments);
  }

  lemma TwoParamTextParts(parts: seq<string>, x: string, y: string)
    requires parts == ["", "path1", x, "path2", y]
    ensures Join(parts, "/") == "/path1/" + x + "/path2/" + y
  {
    JoinFive("", "path1", x, "path2", y, "/");
    assert "" + "/" + "path1" + "/" == "/path1/";
    assert "/" + "path2" + "/" == "/path2/";
  }

  lemma TwoParamStatics(segments: seq<Segment>, parts: seq<string>, x: string, y: string)
    requires segments == [Segment("", Static), Segment("path1", Static), Segment("param1", Param),
                          Segment("path2", Static), Segment("param2", Param)]
    requires parts == ["", "path1", x, "path2", y]
    ensures WildcardAt(segments) == 5 && StaticsAgree(segments, parts, 5)
  {
    WildcardAtIs(segments, 5);
  }

  lemma TwoParamBindingPairs(segments: seq<Segment>, parts: seq<string>, x: string, y: string)
    requires segments == [Segment("", Static), Segment("path1", Static), Segment("param1", Param),
                          Segment("path2", Static), Segment("param2", Param)]
    requires parts == ["", "path1", x, "path2", y]
    ensures Bindings(segments, parts, 5) == [("param1", x), ("param2", y)]
  {
    assert Bindings(segments, parts, 1) == [];
    assert Bindings(segments, parts, 2) == [];
    assert Bindings(segments, parts, 3) == [("param1", x)];
    assert Bindings(segments, parts, 4) == [("param1", x)];
  }

  lemma TwoParamMap(ps: seq<(string, string)>, x: string, y: string)
    requires ps == [("param1", x), ("param2", y)]
    ensures ToMap(ps) == map["param1" := x, "param2" := y]
  {
    assert ps[..1] == [("param1", x)];
    assert ToMap(ps[..1]) == map["param1" := x];
  }

  /** The route of the request-parsing test binds both parameters to the
      corresponding parts of any path of that shape, such as `test1` and `5`
      in `/path1/test1/path2/5`. */
  lemma MatchTwoParams(pattern: string, x: string, y: string)
    requires pattern == "/path1/:param1/path2/:param2"
    requires '/' !in x && '/' !in y
    ensures MatchSpec(Compile(pattern), "/path1/" + x + "/path2/" + y)
         == Some(map["param1" := x, "param2" := y])
  {
    TwoParamSegments(pattern);
    var parts := ["", "path1", x, "path2", y];
    TwoParamTextParts(parts, x, y);
    SplitJoinChar(parts, '/');
    TwoParamStatics(Compile(pattern).segments, parts, x, y);
    TwoParamBindingPairs(Compile(pattern).segments, parts, x, y);
    TwoParamMap(Bindings(Compile(pattern).segments, parts, 5), x, y);
  }

  // --- `/*` ----------------------------------------------------------------

  lemma CatchAllSegments(pattern: string)
    requires pattern == "/*"
    ensures Compile(pattern).segments == [Segment("", Static), Segment("*", Wildcard)]
    ensures WildcardAt(Compile(pattern).segments) == 1
  {
    var parts := ["", "*"];
    JoinTwo("", "*", "/");
    assert "" + "/" + "*" == pattern;
    CompileParts(pattern, parts);
    WildcardAtIs(Compile(pattern).segments, 1);
  }

  lemma CatchAllTextParts(text: string)
    requires text == "/bananaaaaa"
    ensures Split(text, "/") == ["", "bananaaaaa"]
  {
    JoinTwo("", "bananaaaaa", "/");
    assert "" + "/" + "bananaaaaa" == text;
    SplitJoinChar(["", "bananaaaaa"], '/');
  }

  lemma CatchAllParts(segments: seq<Segment>, parts: seq<string>)
    requires segments == [Segment("", Static), Segment("*", Wildcard)]
    requires parts == ["", "bananaaaaa"]
    ensures MatchParts(segments, parts) == Some(map[])
  {
    WildcardAtIs(segments, 1);
    assert Bindings(segments, parts, 1) == [];
  }

  /** The catch-all pattern (slash, star) matches `/bananaaaaa`. */
  lemma MatchCatchAll(pattern: string, text: string)
    requires pattern == "/*" && text == "/bananaaaaa"
    ensures MatchSpec(Compile(pattern), text) == Some(map[])
  {
    CatchAllSegments(pattern);
    CatchAllTextParts(text);
    CatchAllParts(Compile(pattern).segments, Split(text, "/"));
  }

  // --- `/users/:id` --------------------------------------------------------

  lemma UserPatternText(pattern: string)
    requires pattern == "/users/:id"
    ensures "" + "/" + ("users" + "/" + ":id") == pattern
  {
  }

  lemma UserSegments(pattern: string)
    requires pattern == "/users/:id"
    ensures Compile(pattern).segments == [Segment("", Static), Segment("users", Static), Segment("id", Param)]
    ensures WildcardAt(Compile(pattern).segments) == 3
  {
    var parts := ["", "users", ":id"];
    JoinThree("", "users", ":id", "/");
    UserPatternText(pattern);
    CompileParts(pattern, parts);
    assert Classify(":id") == Segment("id", Param);
    WildcardAtIs(Compile(pattern).segments, 3);
  }

  lemma ExtraTextParts(parts: seq<string>, id: string, extra: string)
    requires parts == ["", "users", id, extra]
    ensures Join(parts, "/") == "/users/" + id + "/" + extra
  {
    JoinFour("", "users", id, extra, "/");
    assert "" + "/" + "users" + "/" == "/users/";
  }

  /** `/users/:id` does not match a path with one part too many, such as
      `/users/42/extra`. */
  lemma MatchExtraPartFails(pattern: string, id: string, extra: string)
    requires pattern == "/users/:id"
    requires '/' !in id && '/' !in extra
    ensures MatchSpec(Compile(pattern), "/users/" + id + "/" + extra) == None
  {
    UserSegments(pattern);
    var parts := ["", "users", id, extra];
    ExtraTextParts(parts, id, extra);
    SplitJoinChar(parts, '/');
  }

  lemma UserBindings(segments: seq<Segment>, parts: seq<string>, id: string)
    requires segments == [Segment("", Static), Segment("users", Static), Segment("id", Param)]
    requires parts == ["", "users", id]
    ensures StaticsAgree(segments, parts, 3)
    ensures ToMap(Bindings(segments, parts, 3)) == map["id" := id]
  {
    assert Bindings(segments, parts, 1) == [];
    assert Bindings(segments, parts, 2) == [];
    assert Bindings(segments, parts, 3) == [("id", id)];
  }

  lemma UserTextParts(parts: seq<string>, id: string)
    requires parts == ["", "users", id]
    ensures Join(parts, "/") == "/users/" + id
  {
    JoinThree("", "users", id, "/");
    assert "" + "/" + "users" + "/" == "/users/";
  }

  /** `/users/:id` binds `id` to whatever follows `/users/`, the empty
      string included (`/users/` matches with `id` empty). */
  lemma MatchUserId(pattern: string, id: string)
    requires pattern == "/users/:id"
    requires '/' !in id
    ensures MatchSpec(Compile(pattern), "/users/" + id) == Some(map["id" := id])
  {
    UserSegments(pattern);
    var parts := ["", "users", id];
    UserTextParts(parts, id);
    SplitJoinChar(parts, '/');
    UserBindings(Compile(pattern).segments, parts, id);
  }

  /** `:*` is a wildcard, not a parameter named `*`. */
  lemma ColonStarIsWildcard(pattern: string)
    requires pattern == "/a/:*"
    ensures Compile(pattern).segments == [Segment("", Static), Segment("a", Static), Segment("*", Wildcard)]
  {
    var parts := ["", "a", ":*"];
    JoinThree("", "a", ":*", "/");
    assert "" + "/" + ("a" + "/" + ":*") == pattern;
    CompileParts(pattern, parts);
  }
}

/** The route-path compiler and matcher of src/url/path.go.  A pattern is
    split on `/` into segments: a part starting with `:` is a parameter
    (named by the rest of the part), a part that is `*` once a leading colon
    is dropped is a wildcard, anything else is static text.  A request path
    is matched against the segments in one left-to-right pass. */
module UrlPath {
  import opened Text
  import opened PairMaps

  datatype SegmentType = Static | Param | Wildcard

  datatype Segment = Segment(value: string, segmentType: SegmentType)

  /** A compiled route: the pattern text and its segments. */
  datatype Path = Path(pattern: string, segments: seq<Segment>)

  // ---------------------------------------------------------------------
  // Compiling a pattern

  /** The segment one `/`-separated part of a pattern becomes. */
  function Classify(part: string): (seg: Segment)
    ensures seg.segmentType == Wildcard <==> part == "*" || part == ":*"
    ensures seg.segmentType == Param <==> |part| > 0 && part[0] == ':' && part != ":*"
    ensures seg.value == if |part| > 0 && part[0] == ':' then part[1..] else part
  {
    var named := |part| > 0 && part[0] == ':';
    var text := if named then part[1..] else part;
    if text == "*" then Segment(text, Wildcard)
    else if named then Segment(text, Param)
    else Segment(text, Static)
  }

  /** The path a pattern compiles to. */
  function Compile(pattern: string): Path
  {
    var parts := Split(pattern, "/");
    Path(pattern, seq(|parts|, i requires 0 <= i < |parts| => Classify(parts[i])))
  }

  /** One segment per `/`-separated part of the pattern, in order. */
  method ParsePathSegments(pattern: string) returns (segments: seq<Segment>)
    ensures |segments| == |Split(pattern, "/")|
    ensures forall i :: 0 <= i < |segments| ==> segments[i] == Classify(Split(pattern, "/")[i])
  {
    segments := [];
    var parts := Split(pattern, "/");
    for k := 0 to |parts|
      invariant |segments| == k
      invariant forall i :: 0 <= i < k ==> segments[i] == Classify(parts[i])
    {
      var part := parts[k];
      var segmentType := Static;
      if |part| > 0 && part[0] == ':' {
        segmentType := Param;
        part := part[1..];
      }
      if part == "*" {
        segmentType := Wildcard;
      }
      assert Segment(part, segmentType) == Classify(parts[k]);
      segments := segments + [Segment(part, segmentType)];
    }
  }

  method CreatePath(pattern: string) returns (path: Path)
    ensures path == Compile(pattern)
    ensures path.pattern == pattern && |path.segments| == |Split(pattern, "/")|
  {
    var segments := ParsePathSegments(pattern);
    path := Path(pattern, segments);
  }

  /** A pattern starting with `/` has an empty static first segment. */
  lemma CompileLeadingSlash(pattern: string)
    requires |pattern| > 0 && pattern[0] == '/'
    ensures Compile(pattern).segments[0] == Segment("", Static)
  {
    assert OccursAt(pattern, "/", 0);
    assert pattern[..0] == "";
  }

  // ---------------------------------------------------------------------
  // Wildcards

  /** Some segment is a wildcard. */
  ghost predicate HasWildcardSegment(segments: seq<Segment>)
  {
    exists i :: 0 <= i < |segments| && segments[i].segmentType == Wildcard
  }

  /** The position of the first wildcard, or the number of segments if there is none. */
  function WildcardAt(segments: seq<Segment>): (k: nat)
    ensures k <= |segments|
    ensures forall i :: 0 <= i < k ==> segments[i].segmentType != Wildcard
    ensures k < |segments| ==> segments[k].segmentType == Wildcard
  {
    if segments == [] then 0
    else if segments[0].segmentType == Wildcard then 0
    else 1 + WildcardAt(segments[1..])
  }

  method HasWildcard(path: Path) returns (found: bool)
    ensures found <==> HasWildcardSegment(path.segments)
    ensures found <==> WildcardAt(path.segments) < |path.segments|
  {
    found := false;
    var i := 0;
    while i < |path.segments|
      invariant 0 <= i <= |path.segments|
      invariant forall j :: 0 <= j < i ==> path.segments[j].segmentType != Wildcard
      invariant !found
    {
      if path.segments[i].segmentType == Wildcard {
        found := true;
        break;
      }
      i := i + 1;
    }
  }

  // ---------------------------------------------------------------------
  // Matching

  /** The count check at the head of Match: without a wildcard the numbers of
      parts must agree; with one, the text needs at least as many parts as
      the whole pattern, the wildcard and what follows it included. */
  predicate LengthOk(segments: seq<Segment>, parts: seq<string>)
  {
    if WildcardAt(segments) == |segments| then |segments| == |parts| else |segments| <= |parts|
  }

  /** Every static segment before position `k` equals its text part. */
  ghost predicate StaticsAgree(segments: seq<Segment>, parts: seq<string>, k: nat)
    requires k <= |segments| && k <= |parts|
  {
    forall i :: 0 <= i < k && segments[i].segmentType == Static ==> segments[i].value == parts[i]
  }

  /** The (name, text part) pairs of the parameter segments before position `k`, in order. */
  function Bindings(segments: seq<Segment>, parts: seq<string>, k: nat): seq<(string, string)>
    requires k <= |segments| && k <= |parts|
  {
    if k == 0 then []
    else
      Bindings(segments, parts, k - 1) +
      (if segments[k - 1].segmentType == Param then [(segments[k - 1].value, parts[k - 1])] else [])
  }

  /** What matching `text` against `path` yields: the bound parameters, or None. */
  ghost function MatchSpec(path: Path, text: string): Option<map<string, string>>
  {
    MatchParts(path.segments, Split(text, "/"))
  }

  /** Matching on the parts of the text between its slashes. */
  ghost function MatchParts(segments: seq<Segment>, parts: seq<string>): Option<map<string, string>>
  {
    var k := WildcardAt(segments);
    if LengthOk(segments, parts) && StaticsAgree(segments, parts, k)
    then Some(ToMap(Bindings(segments, parts, k)))
    else None
  }

  /** A static segment before the wildcard that differs from its part fails the match. */
  lemma MatchPartsMismatch(segments: seq<Segment>, parts: seq<string>, i: nat)
    requires i < WildcardAt(segments) && i < |parts|
    requires segments[i].segmentType == Static && segments[i].value != parts[i]
    ensures MatchParts(segments, parts) == None
  {
  }

  /** Once every segment before the wildcard agrees, the match binds the parameters seen. */
  lemma MatchPartsAgree(segments: seq<Segment>, parts: seq<string>, i: nat)
    requires i == WildcardAt(segments) && LengthOk(segments, parts)
    requires i <= |parts| && StaticsAgree(segments, parts, i)
    ensures MatchParts(segments, parts) == Some(ToMap(Bindings(segments, parts, i)))
  {
  }

  /** One more segment extends the bound parameters by at most one entry. */
  lemma BindingsStep(segments: seq<Segment>, parts: seq<string>, i: nat)
    requires i < |segments| && i < |parts|
    ensures ToMap(Bindings(segments, parts, i + 1))
         == if segments[i].segmentType == Param
            then ToMap(Bindings(segments, parts, i))[segments[i].value := parts[i]]
            else ToMap(Bindings(segments, parts, i))
  {
    var before := Bindings(segments, parts, i);
    var after := Bindings(segments, parts, i + 1);
    if segments[i].segmentType == Param {
      assert after[..|after| - 1] == before;
    } else {
      assert after == before;
    }
  }

  /** A segment that is not the wildcard, at or before the first wildcard, is before it. */
  lemma BeforeWildcard(segments: seq<Segment>, i: nat)
    requires i <= WildcardAt(segments) && i < |segments| && segments[i].segmentType != Wildcard
    ensures i < WildcardAt(segments)
  {
  }

  /** The statics agree one segment further. */
  lemma StaticsAgreeStep(segments: seq<Segment>, parts: seq<string>, i: nat)
    requires i < |segments| && i < |parts| && StaticsAgree(segments, parts, i)
    requires segments[i].segmentType == Static ==> segments[i].value == parts[i]
    ensures StaticsAgree(segments, parts, i + 1)
  {
  }

  method Match(path: Path, text: string) returns (params: Option<map<string, string>>)
    ensures params == MatchSpec(path, text)
  {
    var textSegments := Split(text, "/");
    var hasWildcard := HasWildcard(path);
    if !hasWildcard {
      if |path.segments| != |textSegments| {
        return None;
      }
    } else {
      if |path.segments| > |textSegments| {
        return None;
      }
    }
    params := MatchSegments(path.segments, textSegments);
  }

  /** The loop of Match, once the count check has passed: walk the segments,
      binding parameters, until a static segment differs, a wildcard is
      reached or the segments run out. */
  method MatchSegments(segments: seq<Segment>, textSegments: seq<string>) returns (params: Option<map<string, string>>)
    requires LengthOk(segments, textSegments)
    ensures params == MatchParts(segments, textSegments)
  {
    var bound: map<string, string> := map[];
    ghost var k := WildcardAt(segments);
    var i := 0;
    while i < |segments|
      invariant i <= k && |segments| <= |textSegments|
      invariant bound == ToMap(Bindings(segments, textSegments, i))
      invariant StaticsAgree(segments, textSegments, i)
    {
      var segment := segments[i];
      var textSegment := textSegments[i];
      BindingsStep(segments, textSegments, i);
      if segment.segmentType == Param {
        BeforeWildcard(segments, i);
        StaticsAgreeStep(segments, textSegments, i);
        bound := bound[segment.value := textSegment];
        i := i + 1;
        continue;
      }
      if segment.segmentType == Static && segment.value != textSegment {
        MatchPartsMismatch(segments, textSegments, i);
        return None;
      }
      if segment.segmentType == Wildcard {
        MatchPartsAgree(segments, textSegments, i);
        return Some(bound);
      }
      BeforeWildcard(segments, i);
      StaticsAgreeStep(segments, textSegments, i);
      i := i + 1;
    }
    MatchPartsAgree(segments, textSegments, i);
    return Some(bound);
  }

  // ---------------------------------------------------------------------
  // Properties of matching

  /** A successful match passed the count check. */
  lemma MatchCounts(path: Path, text: string)
    requires MatchSpec(path, text).Some?
    ensures !HasWildcardSegment(path.segments) ==> |path.segments| == |Split(text, "/")|
    ensures HasWildcardSegment(path.segments) ==> |path.segments| <= |Split(text, "/")|
  {
    if HasWildcardSegment(path.segments) {
      var i :| 0 <= i < |path.segments| && path.segments[i].segmentType == Wildcard;
    }
  }

  /** A static segment before the first wildcard that differs from its text part makes the match fail. */
  lemma StaticMismatchFails(path: Path, text: string, i: nat)
    requires i < WildcardAt(path.segments) && i < |Split(text, "/")|
    requires path.segments[i].segmentType == Static && path.segments[i].value != Split(text, "/")[i]
    ensures MatchSpec(path, text) == None
  {
  }

  lemma {:induction false} BindingsKeys(segments: seq<Segment>, parts: seq<string>, k: nat)
    requires k <= |segments| && k <= |parts|
    ensures (set b | b in Bindings(segments, parts, k) :: b.0)
         == (set i | 0 <= i < k && segments[i].segmentType == Param :: segments[i].value)
  {
    if k > 0 {
      BindingsKeys(segments, parts, k - 1);
      var prev := Bindings(segments, parts, k - 1);
      var bs := Bindings(segments, parts, k);
      var older := set i | 0 <= i < k - 1 && segments[i].segmentType == Param :: segments[i].value;
      if segments[k - 1].segmentType == Param {
        assert bs == prev + [(segments[k - 1].value, parts[k - 1])];
        assert (set b | b in bs :: b.0) == (set b | b in prev :: b.0) + {segments[k - 1].value};
        assert (set i | 0 <= i < k && segments[i].segmentType == Param :: segments[i].value)
            == older + {segments[k - 1].value};
      } else {
        assert bs == prev;
        assert (set i | 0 <= i < k && segments[i].segmentType == Param :: segments[i].value) == older;
      }
    }
  }

  lemma {:induction false} BindingsAt(segments: seq<Segment>, parts: seq<string>, k: nat, i: nat)
    requires i < k <= |segments| && k <= |parts| && segments[i].segmentType == Param
    ensures exists j :: 0 <= j < |Bindings(segments, parts, k)|
              && Bindings(segments, parts, k)[j] == (segments[i].value, parts[i])
              && forall l :: j < l < |Bindings(segments, parts, k)| ==>
                   exists m :: i < m < k && segments[m].segmentType == Param
                            && Bindings(segments, parts, k)[l].0 == segments[m].value
  {
    var bs := Bindings(segments, parts, k);
    var prev := Bindings(segments, parts, k - 1);
    if i == k - 1 {
      assert bs[|prev|] == (segments[i].value, parts[i]);
    } else {
      BindingsAt(segments, parts, k - 1, i);
      var j :| 0 <= j < |prev| && prev[j] == (segments[i].value, parts[i])
               && forall l :: j < l < |prev| ==>
                    exists m :: i < m < k - 1 && segments[m].segmentType == Param && prev[l].0 == segments[m].value;
      assert bs[j] == prev[j];
      forall l | j < l < |bs|
        ensures exists m :: i < m < k && segments[m].segmentType == Param && bs[l].0 == segments[m].value
      {
        if l < |prev| {
          assert bs[l] == prev[l];
        } else {
          assert bs[l] == (segments[k - 1].value, parts[k - 1]);
        }
      }
    }
  }

  /** On success the parameters bound are exactly the names of the parameter
      segments before the first wildcard. */
  lemma MatchParamNames(path: Path, text: string)
    requires MatchSpec(path, text).Some?
    ensures MatchSpec(path, text).value.Keys
         == set i | 0 <= i < WildcardAt(path.segments) && path.segments[i].segmentType == Param
                  :: path.segments[i].value
  {
    var parts := Split(text, "/");
    var k := WildcardAt(path.segments);
    var bs := Bindings(path.segments, parts, k);
    ToMapKeys(bs);
    BindingsKeys(path.segments, parts, k);
    assert (set i | 0 <= i < |bs| :: bs[i].0) == (set b | b in bs :: b.0) by {
      forall b | b in bs ensures b.0 in (set i | 0 <= i < |bs| :: bs[i].0) {
        var i :| 0 <= i < |bs| && bs[i] == b;
      }
    }
  }

  /** On success a parameter segment before the first wildcard binds its name
      to its text part, whatever that part is (the empty string included),
      unless a later parameter segment of the same name overwrites it. */
  lemma MatchParamValue(path: Path, text: string, i: nat)
    requires MatchSpec(path, text).Some?
    requires i < WildcardAt(path.segments) && path.segments[i].segmentType == Param
    requires forall m :: i < m < WildcardAt(path.segments) && path.segments[m].segmentType == Param
               ==> path.segments[m].value != path.segments[i].value
    ensures i < |Split(text, "/")|
    ensures path.segments[i].value in MatchSpec(path, text).value
    ensures MatchSpec(path, text).value[path.segments[i].value] == Split(text, "/")[i]
  {
    var parts := Split(text, "/");
    var k := WildcardAt(path.segments);
    var bs := Bindings(path.segments, parts, k);
    BindingsAt(path.segments, parts, k, i);
    var j :| 0 <= j < |bs| && bs[j] == (path.segments[i].value, parts[i])
             && forall l :: j < l < |bs| ==>
                  exists m :: i < m < k && path.segments[m].segmentType == Param && bs[l].0 == path.segments[m].value;
    ToMapLast(bs, j);
  }

  lemma {:induction false} BindingsPrefix(segments: seq<Segment>, p1: seq<string>, p2: seq<string>, k: nat)
    requires k <= |segments| && k <= |p1| && k <= |p2| && p1[..k] == p2[..k]
    ensures Bindings(segments, p1, k) == Bindings(segments, p2, k)
  {
    if k > 0 {
      assert p1[..k - 1] == p2[..k - 1];
      assert p1[k - 1] == p1[..k][k - 1] == p2[..k][k - 1] == p2[k - 1];
      BindingsPrefix(segments, p1, p2, k - 1);
    }
  }

  /** With a wildcard, the text parts at and after the wildcard's position do
      not affect the outcome, as long as the count check passes. */
  lemma MatchIgnoresTail(path: Path, t1: string, t2: string)
    requires WildcardAt(path.segments) < |path.segments|
    requires |path.segments| <= |Split(t1, "/")| && |path.segments| <= |Split(t2, "/")|
    requires Split(t1, "/")[..WildcardAt(path.segments)] == Split(t2, "/")[..WildcardAt(path.segments)]
    ensures MatchSpec(path, t1) == MatchSpec(path, t2)
  {
    var k := WildcardAt(path.segments);
    var p1, p2 := Split(t1, "/"), Split(t2, "/");
    BindingsPrefix(path.segments, p1, p2, k);
    forall i | 0 <= i < k ensures p1[i] == p2[i] {
      assert p1[i] == p1[..k][i];
    }
  }

  /** The first wildcard of a segment list is at `k` when segment `k` is one
      and no earlier segment is (`k` may be the length: then there is none). */
  lemma {:induction false} WildcardAtIs(segments: seq<Segment>, k: nat)
    requires k <= |segments|
    requires forall i :: 0 <= i < k ==> segments[i].segmentType != Wildcard
    requires k < |segments| ==> segments[k].segmentType == Wildcard
    ensures WildcardAt(segments) == k
  {
    if k > 0 {
      WildcardAtIs(segments[1..], k - 1);
    }
  }

  /** The compiled segments of a pattern written as its `/`-separated parts. */
  lemma CompileParts(pattern: string, parts: seq<string>)
    requires |parts| >= 1 && forall k :: 0 <= k < |parts| ==> '/' !in parts[k]
    requires Join(parts, "/") == pattern
    ensures |Compile(pattern).segments| == |parts|
    ensures forall i :: 0 <= i < |parts| ==> Compile(pattern).segments[i] == Classify(parts[i])
  {
    SplitJoinChar(parts, '/');
  }
}

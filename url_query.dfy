/** The query string of a request target (src/url/query.go): the split of a
    target at `?`, and the `&`/`=` decoding of the query into a map. */
module UrlQuery {
  import opened Text
  import opened PairMaps

  // ---------------------------------------------------------------------
  // SplitQuery

  /** The path and the query of a request target: the text before the first
      `?`, and the text between the first `?` and the next one (anything
      after a second `?` is dropped); the query is empty without a `?`. */
  function SplitQuery(target: string): (r: (string, string))
    ensures '?' !in r.0 && '?' !in r.1
    ensures '?' !in target ==> r == (target, "")
    ensures '?' in target ==>
      var consumed := r.0 + "?" + r.1;
      consumed <= target && (|consumed| < |target| ==> target[|consumed|] == '?')
  {
    var parts := Split(target, "?");
    SplitCharCount(target, '?');
    SplitCharFree(target, '?', 0);
    if |parts| == 1 then
      (parts[0], "")
    else
      SplitCharFree(target, '?', 1);
      SplitFirstTwo(target);
      (parts[0], parts[1])
  }

  /** The first two `?`-parts of a target, with the `?` between them, begin
      the target, and a `?` follows them when anything does. */
  lemma SplitFirstTwo(target: string)
    requires |Split(target, "?")| >= 2
    ensures var parts := Split(target, "?");
      var consumed := parts[0] + "?" + parts[1];
      consumed <= target && (|consumed| < |target| ==> target[|consumed|] == '?')
  {
    var parts := Split(target, "?");
    var consumed := parts[0] + "?" + parts[1];
    SplitJoin(target, "?");
    assert [parts[0]] + parts[1..] == parts;
    JoinCons(parts[0], parts[1..], "?");
    JoinHead(parts[1..], "?");
    if |parts| == 2 {
      assert parts[1..] == [parts[1]];
      assert target == consumed;
    } else {
      assert consumed + "?" <= target;
      assert target[|consumed|] == (consumed + "?")[|consumed|];
    }
  }

  /** A join starts with its first part, followed by the separator when more
      parts come. */
  lemma JoinHead(parts: seq<string>, sep: string)
    requires |parts| >= 1
    ensures parts[0] <= Join(parts, sep)
    ensures |parts| >= 2 ==> parts[0] + sep <= Join(parts, sep)
  {
  }

  // ---------------------------------------------------------------------
  // ParseQuery

  /** The entry one `&`-part contributes: with exactly one `=` the text on
      either side of it, otherwise the text before the first `=` (all of it
      when there is none) bound to the empty string. */
  function QueryPair(part: string): (kv: (string, string))
    ensures '=' !in kv.0 && '=' !in kv.1
    ensures kv.0 <= part && (|kv.0| < |part| ==> part[|kv.0|] == '=')
    ensures kv.1 == "" || part == kv.0 + "=" + kv.1
  {
    var split := Split(part, "=");
    SplitCharFree(part, '=', 0);
    JoinHead(split, "=");
    if |split| == 2 then
      SplitCharFree(part, '=', 1);
      assert split[1..] == [split[1]];
      (split[0], split[1])
    else
      (split[0], "")
  }

  /** The entries of the `&`-parts, in order. */
  function QueryPairs(parts: seq<string>): (ps: seq<(string, string)>)
    ensures |ps| == |parts| && forall i :: 0 <= i < |parts| ==> ps[i] == QueryPair(parts[i])
  {
    seq(|parts|, i requires 0 <= i < |parts| => QueryPair(parts[i]))
  }

  /** What the query decodes to: the entries inserted in order, a later
      entry for a key overwriting an earlier one. */
  function QueryMap(query: string): map<string, string>
  {
    ToMap(QueryPairs(Split(query, "&")))
  }

  /** `ParseQuery`: one insertion per `&`-part, left to right. */
  method ParseQuery(query: string) returns (params: map<string, string>)
    ensures params == QueryMap(query)
  {
    params := map[];
    var parts := Split(query, "&");
    for n := 0 to |parts|
      invariant params == ToMap(QueryPairs(parts)[..n])
    {
      var split := Split(parts[n], "=");
      ParseQueryStep(parts, n);
      if |split| == 2 {
        params := params[split[0] := split[1]];
      } else {
        params := params[split[0] := ""];
      }
    }
    assert QueryPairs(parts)[..|parts|] == QueryPairs(parts);
  }

  /** The entries of the first `n + 1` parts are those of the first `n`,
      then the entry of part `n`. */
  lemma ParseQueryStep(parts: seq<string>, n: nat)
    requires n < |parts|
    ensures ToMap(QueryPairs(parts)[..n + 1])
         == ToMap(QueryPairs(parts)[..n])[QueryPair(parts[n]).0 := QueryPair(parts[n]).1]
  {
    assert QueryPairs(parts)[..n + 1] == QueryPairs(parts)[..n] + [QueryPair(parts[n])];
    ToMapSnoc(QueryPairs(parts)[..n], QueryPair(parts[n]));
  }

  // ---------------------------------------------------------------------
  // Properties

  /** A part without `=` binds all of itself to the empty string. */
  lemma QueryPairNoEquals(part: string)
    requires '=' !in part
    ensures QueryPair(part) == (part, "")
  {
  }

  /** A part `key=value` with exactly one `=` binds `key` to `value`. */
  lemma QueryPairOneEquals(key: string, value: string)
    requires '=' !in key && '=' !in value
    ensures QueryPair(key + "=" + value) == (key, value)
  {
    SplitJoinChar([key, value], '=');
  }

  /** A part with two or more `=` binds the text before the first to the
      empty string: `a=b=c` yields `a` bound to "". */
  lemma QueryPairManyEquals(key: string, rest: string)
    requires '=' !in key && '=' in rest
    ensures QueryPair(key + "=" + rest) == (key, "")
  {
    SplitCharFirst(key, '=', rest);
    SplitCharCount(rest, '=');
  }

  /** The keys of the decoded query are the keys of its `&`-parts. */
  lemma QueryMapKeys(query: string)
    ensures QueryMap(query).Keys
         == set i | 0 <= i < |Split(query, "&")| :: QueryPair(Split(query, "&")[i]).0
  {
    var ps := QueryPairs(Split(query, "&"));
    ToMapKeys(ps);
    assert (set i | 0 <= i < |ps| :: ps[i].0)
        == set i | 0 <= i < |Split(query, "&")| :: QueryPair(Split(query, "&")[i]).0;
  }

  /** A key takes the value of the last part that binds it. */
  lemma QueryMapLastWins(query: string, i: nat)
    requires i < |Split(query, "&")|
    requires forall j :: i < j < |Split(query, "&")| ==>
               QueryPair(Split(query, "&")[j]).0 != QueryPair(Split(query, "&")[i]).0
    ensures QueryPair(Split(query, "&")[i]).0 in QueryMap(query)
    ensures QueryMap(query)[QueryPair(Split(query, "&")[i]).0] == QueryPair(Split(query, "&")[i]).1
  {
    ToMapLast(QueryPairs(Split(query, "&")), i);
  }

  /** The empty query decodes to the one entry "" bound to "". */
  lemma QueryMapEmpty()
    ensures QueryMap("") == map["" := ""]
  {
    assert Split("", "&") == [""];
    assert QueryPair("") == ("", "");
  }

  /** Two `key=value` parts with distinct keys decode to both bindings, as
      `query1=test2&query2=2` does. */
  lemma QueryMapTwo(k1: string, v1: string, k2: string, v2: string)
    requires '&' !in k1 && '&' !in v1 && '&' !in k2 && '&' !in v2
    requires '=' !in k1 && '=' !in v1 && '=' !in k2 && '=' !in v2
    ensures QueryMap(k1 + "=" + v1 + "&" + k2 + "=" + v2) == map[k1 := v1, k2 := v2]
  {
    var p1, p2 := k1 + "=" + v1, k2 + "=" + v2;
    assert Join([p1, p2], "&") == k1 + "=" + v1 + "&" + k2 + "=" + v2;
    SplitJoinChar([p1, p2], '&');
    QueryPairOneEquals(k1, v1);
    QueryPairOneEquals(k2, v2);
    var ps := QueryPairs([p1, p2]);
    assert ps == [(k1, v1), (k2, v2)];
    assert ps[..1] == [(k1, v1)];
    assert ToMap(ps[..1]) == map[k1 := v1];
    assert ToMap(ps) == ToMap(ps[..1])[k2 := v2];
    assert QueryMap(k1 + "=" + v1 + "&" + k2 + "=" + v2) == ToMap(ps);
  }

  /** The query of the request-parsing test. */
  lemma QueryMapExample(query: string)
    requires query == "query1=test2&query2=2"
    ensures QueryMap(query) == map["query1" := "test2", "query2" := "2"]
  {
    assert query == "query1" + "=" + "test2" + "&" + "query2" + "=" + "2";
    QueryMapTwo("query1", "test2", "query2", "2");
  }

  /** A duplicated key keeps its last value: `a=1&a=2` decodes to `a` bound to `2`. */
  lemma QueryMapDuplicate(k: string, v1: string, v2: string)
    requires '&' !in k && '&' !in v1 && '&' !in v2
    requires '=' !in k && '=' !in v1 && '=' !in v2
    ensures QueryMap(k + "=" + v1 + "&" + k + "=" + v2) == map[k := v2]
  {
    var p1, p2 := k + "=" + v1, k + "=" + v2;
    assert Join([p1, p2], "&") == k + "=" + v1 + "&" + k + "=" + v2;
    SplitJoinChar([p1, p2], '&');
    QueryPairOneEquals(k, v1);
    QueryPairOneEquals(k, v2);
    var ps := QueryPairs([p1, p2]);
    assert ps == [(k, v1), (k, v2)];
    assert ps[..1] == [(k, v1)];
    assert ToMap(ps[..1]) == map[k := v1];
    assert ToMap(ps) == ToMap(ps[..1])[k := v2];
    assert QueryMap(k + "=" + v1 + "&" + k + "=" + v2) == ToMap(ps);
  }
}

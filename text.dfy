/** The parts of Go's `strings` and `strconv` packages that the server's core
    relies on: Index, Contains, Split, Fields, Atoi and Itoa.  A Go string is
    a sequence of octets; here every `char` of a `string` stands for one octet. */
module Text {

  datatype Option<+T> = None | Some(value: T)

  // ---------------------------------------------------------------------
  // Occurrences of a separator

  /** `sub` occurs in `s` starting at position `j`. */
  predicate OccursAt(s: string, sub: string, j: int)
  {
    0 <= j && j + |sub| <= |s| && s[j..j + |sub|] == sub
  }

  /** `sub` occurs nowhere in `s`. */
  ghost predicate Free(s: string, sub: string)
  {
    forall j :: !OccursAt(s, sub, j)
  }

  /** The first occurrence of `sub` in `s` at or after position `i`, or -1. */
  function IndexFrom(s: string, sub: string, i: nat): (r: int)
    requires |sub| > 0 && i <= |s|
    ensures r == -1 || (i <= r && OccursAt(s, sub, r))
    decreases |s| - i
  {
    if i + |sub| > |s| then -1
    else if s[i..i + |sub|] == sub then i
    else IndexFrom(s, sub, i + 1)
  }

  /** IndexFrom finds the first occurrence: there is none between `i` and it. */
  lemma {:induction false} IndexFromFirst(s: string, sub: string, i: nat)
    requires |sub| > 0 && i <= |s|
    ensures var r := IndexFrom(s, sub, i);
      forall j :: i <= j && (r == -1 || j < r) ==> !OccursAt(s, sub, j)
    decreases |s| - i
  {
    if i + |sub| <= |s| && s[i..i + |sub|] != sub {
      IndexFromFirst(s, sub, i + 1);
    }
  }

  /** Go's `strings.Index`: the first occurrence of `sub` in `s`, or -1. */
  function Index(s: string, sub: string): (r: int)
    requires |sub| > 0
    ensures r == -1 || OccursAt(s, sub, r)
  {
    IndexFrom(s, sub, 0)
  }

  /** Index is -1 exactly when `sub` does not occur, and otherwise the
      position of the first occurrence. */
  lemma IndexFirst(s: string, sub: string)
    requires |sub| > 0
    ensures Index(s, sub) == -1 <==> Free(s, sub)
    ensures Index(s, sub) != -1 ==> forall j :: 0 <= j < Index(s, sub) ==> !OccursAt(s, sub, j)
  {
    IndexFromFirst(s, sub, 0);
  }

  /** An occurrence with none before it is the one Index finds. */
  lemma IndexIs(s: string, sub: string, k: nat)
    requires |sub| > 0 && OccursAt(s, sub, k)
    requires forall j :: 0 <= j < k ==> !OccursAt(s, sub, j)
    ensures Index(s, sub) == k
  {
    IndexFirst(s, sub);
    var r := Index(s, sub);
    assert r != -1 by {
      assert !Free(s, sub);
    }
    assert !(r < k) by {
      assert r >= 0 && OccursAt(s, sub, r);
    }
    assert !(r > k) by {
      assert OccursAt(s, sub, k);
    }
  }

  /** Go's `strings.Contains`. */
  predicate Contains(s: string, sub: string)
    requires |sub| > 0
  {
    Index(s, sub) >= 0
  }

  /** A prefix of `s` that ends before the first occurrence of `sub` is free of `sub`. */
  lemma FreeBeforeIndex(s: string, sub: string, i: nat)
    requires |sub| > 0 && i <= |s|
    requires forall j :: 0 <= j < i ==> !OccursAt(s, sub, j)
    ensures Free(s[..i], sub)
  {
    forall j | OccursAt(s[..i], sub, j)
      ensures false
    {
      assert s[..i][j..j + |sub|] == s[j..j + |sub|];
      assert OccursAt(s, sub, j);
    }
  }

  // ---------------------------------------------------------------------
  // Split and Join

  /** The inverse of Split: the parts glued back together with `sep`. */
  function Join(parts: seq<string>, sep: string): string
  {
    if |parts| == 0 then ""
    else if |parts| == 1 then parts[0]
    else parts[0] + sep + Join(parts[1..], sep)
  }

  /** Go's `strings.Split` for a non-empty separator: the text between the
      successive non-overlapping occurrences of `sep`, left to right. */
  function Split(s: string, sep: string): (parts: seq<string>)
    requires |sep| > 0
    ensures |parts| >= 1
    decreases |s|
  {
    var i := Index(s, sep);
    if i < 0 then [s] else [s[..i]] + Split(s[i + |sep|..], sep)
  }

  /** Joining the parts of a split with its separator gives back the text. */
  lemma {:induction false} SplitJoin(s: string, sep: string)
    requires |sep| > 0
    ensures Join(Split(s, sep), sep) == s
    decreases |s|
  {
    var i := Index(s, sep);
    if i >= 0 {
      var rest := Split(s[i + |sep|..], sep);
      SplitJoin(s[i + |sep|..], sep);
      JoinCons(s[..i], rest, sep);
      AroundOccurrence(s, sep, i);
    }
  }

  /** No part of a split holds the separator. */
  lemma {:induction false} SplitPartFree(s: string, sep: string, k: nat)
    requires |sep| > 0 && k < |Split(s, sep)|
    ensures Free(Split(s, sep)[k], sep)
    decreases |s|
  {
    var i := Index(s, sep);
    IndexFirst(s, sep);
    if i >= 0 {
      if k == 0 {
        FreeBeforeIndex(s, sep, i);
      } else {
        SplitPartFree(s[i + |sep|..], sep, k - 1);
      }
    }
  }

  /** Joining one more part in front. */
  lemma JoinCons(part: string, rest: seq<string>, sep: string)
    requires |rest| >= 1
    ensures Join([part] + rest, sep) == part + sep + Join(rest, sep)
  {
    assert ([part] + rest)[1..] == rest;
  }

  /** Joining two, three, four or five parts. */
  lemma JoinTwo(a: string, b: string, sep: string)
    ensures Join([a, b], sep) == a + sep + b
  {
    JoinCons(a, [b], sep);
    assert [a, b] == [a] + [b];
  }

  lemma JoinThree(a: string, b: string, c: string, sep: string)
    ensures Join([a, b, c], sep) == a + sep + (b + sep + c)
  {
    JoinTwo(b, c, sep);
    JoinCons(a, [b, c], sep);
    assert [a, b, c] == [a] + [b, c];
  }

  lemma JoinFour(a: string, b: string, c: string, d: string, sep: string)
    ensures Join([a, b, c, d], sep) == a + sep + (b + sep + (c + sep + d))
  {
    JoinThree(b, c, d, sep);
    JoinCons(a, [b, c, d], sep);
    assert [a, b, c, d] == [a] + [b, c, d];
  }

  lemma JoinFive(a: string, b: string, c: string, d: string, e: string, sep: string)
    ensures Join([a, b, c, d, e], sep) == a + sep + (b + sep + (c + sep + (d + sep + e)))
  {
    JoinFour(b, c, d, e, sep);
    JoinCons(a, [b, c, d, e], sep);
    assert [a, b, c, d, e] == [a] + [b, c, d, e];
  }

  /** A text is what precedes, is and follows an occurrence. */
  lemma AroundOccurrence(s: string, sub: string, i: nat)
    requires OccursAt(s, sub, i)
    ensures s == s[..i] + sub + s[i + |sub|..]
  {
  }

  /** Splitting on a single character yields one part more than the number of
      times the character occurs. */
  lemma {:induction false} SplitCharCount(s: string, c: char)
    ensures |Split(s, [c])| == multiset(s)[c] + 1
    decreases |s|
  {
    var i := Index(s, [c]);
    if i < 0 {
      SplitCharCountNone(s, c);
    } else {
      SplitCharCount(s[i + 1..], c);
      SplitCharCountStep(s, c, i);
    }
  }

  lemma SplitCharCountNone(s: string, c: char)
    requires Index(s, [c]) < 0
    ensures |Split(s, [c])| == multiset(s)[c] + 1
  {
    IndexFirst(s, [c]);
    if c in s {
      var j :| 0 <= j < |s| && s[j] == c;
      assert OccursAt(s, [c], j);
    }
  }

  lemma SplitCharCountStep(s: string, c: char, i: nat)
    requires i == Index(s, [c])
    requires |Split(s[i + 1..], [c])| == multiset(s[i + 1..])[c] + 1
    ensures |Split(s, [c])| == multiset(s)[c] + 1
  {
    IndexFirst(s, [c]);
    CharAbsentBefore(s, c, i);
    OccursChar(s, c, i);
    CharCountAround(s, c, i);
  }

  /** An occurrence of a one-character separator is that character. */
  lemma OccursChar(s: string, c: char, i: int)
    requires OccursAt(s, [c], i)
    ensures 0 <= i < |s| && s[i] == c
  {
    assert s[i..i + 1][0] == s[i];
  }

  /** No occurrence of `c` before its first occurrence. */
  lemma CharAbsentBefore(s: string, c: char, i: nat)
    requires i <= |s| && forall j :: 0 <= j < i ==> !OccursAt(s, [c], j)
    ensures multiset(s[..i])[c] == 0
  {
    forall j | 0 <= j < i
      ensures s[..i][j] != c
    {
      assert !OccursAt(s, [c], j);
    }
  }

  /** The occurrences of `c` around one of them. */
  lemma CharCountAround(s: string, c: char, i: nat)
    requires i < |s| && s[i] == c
    ensures multiset(s)[c] == multiset(s[..i])[c] + 1 + multiset(s[i + 1..])[c]
  {
    assert s == s[..i] + [c] + s[i + 1..];
  }

  /** A part of a split on one character never contains that character. */
  lemma SplitCharFree(s: string, c: char, k: nat)
    requires k < |Split(s, [c])|
    ensures c !in Split(s, [c])[k]
  {
    var p := Split(s, [c])[k];
    SplitPartFree(s, [c], k);
    if c in p {
      var j :| 0 <= j < |p| && p[j] == c;
      assert OccursAt(p, [c], j);
    }
  }

  /** A character-free text splits into itself alone. */
  lemma SplitCharNone(a: string, c: char)
    requires c !in a
    ensures Split(a, [c]) == [a]
  {
    CharFree(a, c);
    IndexFirst(a, [c]);
  }

  /** A text without the character holds no occurrence of it. */
  lemma CharFree(a: string, c: char)
    requires c !in a
    ensures Free(a, [c])
  {
    forall j
      ensures !OccursAt(a, [c], j)
    {
      if 0 <= j && j + 1 <= |a| {
        assert a[j..j + 1][0] == a[j];
      }
    }
  }

  /** The first part of a split on one character ends at its first occurrence. */
  lemma SplitCharFirst(a: string, c: char, rest: string)
    requires c !in a
    ensures Split(a + [c] + rest, [c]) == [a] + Split(rest, [c])
  {
    var s := a + [c] + rest;
    assert s[|a|..|a| + 1] == [c];
    forall j | 0 <= j < |a|
      ensures !OccursAt(s, [c], j)
    {
      assert s[j..j + 1][0] == s[j] == a[j];
    }
    IndexIs(s, [c], |a|);
    assert s[..|a|] == a && s[|a| + 1..] == rest;
  }

  /** Splitting on one character undoes joining with it, when no part contains it. */
  lemma {:induction false} SplitJoinChar(parts: seq<string>, c: char)
    requires |parts| >= 1 && forall k :: 0 <= k < |parts| ==> c !in parts[k]
    ensures Split(Join(parts, [c]), [c]) == parts
  {
    if |parts| == 1 {
      SplitCharNone(parts[0], c);
    } else {
      SplitCharFirst(parts[0], c, Join(parts[1..], [c]));
      SplitJoinChar(parts[1..], c);
      assert parts == [parts[0]] + parts[1..];
    }
  }

  // ---------------------------------------------------------------------
  // Fields

  /** The ASCII characters Go's `unicode.IsSpace` accepts. */
  predicate IsSpace(c: char)
  {
    c == ' ' || c == '\t' || c == '\n' || c == '\r' || c == '\U{000B}' || c == '\U{000C}'
  }

  /** No character of `w` is white space. */
  predicate Word(w: string)
  {
    forall k :: 0 <= k < |w| ==> !IsSpace(w[k])
  }

  /** The length of the longest prefix of `s` free of white space. */
  function RunLength(s: string): (n: nat)
    ensures n <= |s| && Word(s[..n])
    ensures n < |s| ==> IsSpace(s[n])
  {
    if s == [] || IsSpace(s[0]) then 0
    else
      var m := RunLength(s[1..]);
      assert s[..m + 1] == [s[0]] + s[1..][..m];
      m + 1
  }

  /** `s` with every white-space character removed. */
  function Strip(s: string): string
  {
    if s == [] then ""
    else if IsSpace(s[0]) then Strip(s[1..])
    else [s[0]] + Strip(s[1..])
  }

  /** The concatenation of a sequence of strings. */
  function Concat(ws: seq<string>): string
  {
    if ws == [] then "" else ws[0] + Concat(ws[1..])
  }

  /** Go's `strings.Fields`: the maximal runs of non-space characters. */
  function Fields(s: string): seq<string>
    decreases |s|
  {
    if s == [] then []
    else if IsSpace(s[0]) then Fields(s[1..])
    else
      var n := RunLength(s);
      [s[..n]] + Fields(s[n..])
  }

  lemma {:induction false} StripWord(w: string, t: string)
    requires Word(w)
    ensures Strip(w + t) == w + Strip(t)
    decreases |w|
  {
    if w != [] {
      assert (w + t)[1..] == w[1..] + t;
      assert (w + t)[0] == w[0] && !IsSpace(w[0]);
      StripWord(w[1..], t);
      calc {
        Strip(w + t);
        [w[0]] + Strip(w[1..] + t);
        [w[0]] + (w[1..] + Strip(t));
        { assert w == [w[0]] + w[1..]; }
        w + Strip(t);
      }
    } else {
      assert w + t == t;
    }
  }

  /** Every field is non-empty and free of white space, and the fields hold
      exactly the non-space characters of `s`, in order. */
  lemma {:induction false} FieldsSound(s: string)
    ensures forall k :: 0 <= k < |Fields(s)| ==> |Fields(s)[k]| > 0 && Word(Fields(s)[k])
    ensures Concat(Fields(s)) == Strip(s)
    decreases |s|
  {
    if s == [] {
    } else if IsSpace(s[0]) {
      FieldsSound(s[1..]);
    } else {
      var n := RunLength(s);
      FieldsSound(s[n..]);
      assert s == s[..n] + s[n..];
      StripWord(s[..n], s[n..]);
      var fs := Fields(s);
      assert fs == [s[..n]] + Fields(s[n..]);
      assert fs[1..] == Fields(s[n..]);
    }
  }

  /** A word followed by white space is the first field, and the fields of
      the rest follow. */
  lemma FieldsWordSpace(w: string, sp: char, t: string)
    requires |w| > 0 && Word(w) && IsSpace(sp)
    ensures Fields(w + [sp] + t) == [w] + Fields(t)
  {
    var s := w + [sp] + t;
    assert s[..|w|] == w;
    assert IsSpace(s[|w|]);
    RunLengthIs(s, |w|);
    assert s[|w|..] == [sp] + t;
    assert ([sp] + t)[1..] == t;
  }

  lemma {:induction false} RunLengthIs(s: string, n: nat)
    requires 0 < n <= |s| && Word(s[..n]) && (n < |s| ==> IsSpace(s[n]))
    ensures RunLength(s) == n
    decreases n
  {
    assert s[..n][0] == s[0];
    if n > 1 {
      assert s[1..][..n - 1] == s[..n][1..];
      assert n - 1 < |s[1..]| ==> s[1..][n - 1] == s[n];
      RunLengthIs(s[1..], n - 1);
    } else if 1 < |s| {
      assert s[1..][0] == s[1];
    }
  }

  // ---------------------------------------------------------------------
  // Decimal integers

  const MinInt64: int := -0x8000_0000_0000_0000
  const MaxInt64: int := 0x7FFF_FFFF_FFFF_FFFF

  predicate IsDigit(c: char)
  {
    '0' <= c <= '9'
  }

  predicate AllDigits(s: string)
  {
    forall k :: 0 <= k < |s| ==> IsDigit(s[k])
  }

  function DigitChar(d: nat): (c: char)
    requires d < 10
    ensures IsDigit(c) && (c as int) - ('0' as int) == d
  {
    (('0' as int) + d) as char
  }

  /** The value of a string of decimal digits (leading zeros allowed), or
      None when some character is not a digit. */
  function DecimalValue(ds: string): Option<nat>
  {
    if ds == [] then Some(0)
    else
      match DecimalValue(ds[..|ds| - 1])
      case None => None
      case Some(v) =>
        var c := ds[|ds| - 1];
        if IsDigit(c) then Some(10 * v + ((c as int) - ('0' as int))) else None
  }

  /** DecimalValue fails exactly on the strings holding a non-digit. */
  lemma {:induction false} DecimalValueDigits(ds: string)
    ensures DecimalValue(ds).Some? <==> AllDigits(ds)
  {
    if ds != [] {
      var init := ds[..|ds| - 1];
      DecimalValueDigits(init);
      assert forall k :: 0 <= k < |init| ==> init[k] == ds[k];
    }
  }

  /** The decimal digits of `n`, without leading zeros. */
  function DigitsOf(n: nat): (ds: string)
    ensures |ds| > 0 && AllDigits(ds)
    ensures ds[0] != '0' || n == 0
  {
    if n < 10 then [DigitChar(n)] else DigitsOf(n / 10) + [DigitChar(n % 10)]
  }

  /** Go's `strconv.Itoa`: the decimal rendering of an integer. */
  function Itoa(n: int): string
  {
    if n < 0 then "-" + DigitsOf(-n) else DigitsOf(n)
  }

  /** Go's `strconv.Atoi` on a 64-bit platform: an optional sign followed by
      at least one decimal digit, whose value fits in 64 bits. */
  function Atoi(s: string): (r: Option<int>)
    ensures r.Some? ==> MinInt64 <= r.value <= MaxInt64
    ensures s == "" ==> r == None
  {
    var signed := |s| > 0 && (s[0] == '+' || s[0] == '-');
    var ds := if signed then s[1..] else s;
    if ds == [] then None
    else
      match DecimalValue(ds)
      case None => None
      case Some(u) =>
        var v: int := if signed && s[0] == '-' then 0 - u else u;
        if MinInt64 <= v <= MaxInt64 then Some(v) else None
  }

  /** What Atoi accepts: an optional sign and at least one digit, nothing else. */
  lemma AtoiSyntax(s: string)
    ensures Atoi(s).Some? ==>
      var ds := if |s| > 0 && (s[0] == '+' || s[0] == '-') then s[1..] else s;
      ds != [] && AllDigits(ds)
  {
    var ds := if |s| > 0 && (s[0] == '+' || s[0] == '-') then s[1..] else s;
    DecimalValueDigits(ds);
  }

  lemma {:induction false} DecimalValueDigitsOf(n: nat)
    ensures DecimalValue(DigitsOf(n)) == Some(n)
  {
    if n >= 10 {
      DecimalValueDigitsOf(n / 10);
      var ds := DigitsOf(n);
      assert ds[..|ds| - 1] == DigitsOf(n / 10);
    }
  }

  /** Itoa writes a minus sign exactly for a negative integer, then the
      digits of its magnitude, without a leading zero unless it is zero. */
  lemma ItoaDigits(n: int)
    ensures var s := Itoa(n);
      s != [] && (s[0] == '-' <==> n < 0) &&
      DecimalValue(if n < 0 then s[1..] else s) == Some(if n < 0 then -n else n)
  ensures var s := Itoa(n); var ds := if n < 0 then s[1..] else s;
      ds != [] && (ds[0] != '0' || n == 0)
  {
    if n < 0 {
      DecimalValueDigitsOf(-n);
      assert ("-" + DigitsOf(-n))[1..] == DigitsOf(-n);
    } else {
      DecimalValueDigitsOf(n);
    }
  }

  /** Atoi undoes Itoa on every 64-bit integer. */
  lemma AtoiItoa(n: int)
    requires MinInt64 <= n <= MaxInt64
    ensures Atoi(Itoa(n)) == Some(n)
  {
    if n < 0 {
      DecimalValueDigitsOf(-n);
      AtoiMinus(DigitsOf(-n), -n);
    } else {
      DecimalValueDigitsOf(n);
      AtoiUnsigned(DigitsOf(n), n);
    }
  }

  lemma AtoiUnsigned(ds: string, u: nat)
    requires ds != [] && IsDigit(ds[0]) && DecimalValue(ds) == Some(u) && u <= MaxInt64
    ensures Atoi(ds) == Some(u)
  {
  }

  lemma AtoiMinus(ds: string, u: nat)
    requires ds != [] && DecimalValue(ds) == Some(u) && u <= -MinInt64
    ensures Atoi("-" + ds) == Some(-(u as int))
  {
    assert ("-" + ds)[1..] == ds;
  }
}

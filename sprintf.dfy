/** Go's `fmt.Sprintf` as the two older servers use it: a template whose
    only verbs are `%s` (and one `%d`, given here already rendered), filled
    with string arguments.  A template is written as its literal pieces,
    the text before, between and after the verbs. */
module Sprintf {
  import opened Text

  /** The template the pieces spell out, verbs included. */
  function Template(pieces: seq<string>): string
  {
    Join(pieces, "%s")
  }

  /** `fmt.Sprintf(Template(pieces), args...)`: the pieces interleaved with
      the arguments, one argument per verb. */
  function Format(pieces: seq<string>, args: seq<string>): string
    requires |pieces| == |args| + 1
  {
    FormatFrom(pieces, args, 0)
  }

  /** The text from the `i`-th piece on. */
  function FormatFrom(pieces: seq<string>, args: seq<string>, i: nat): string
    requires |pieces| == |args| + 1 && i <= |args|
    decreases |args| - i
  {
    if i == |args| then pieces[i] else pieces[i] + (args[i] + FormatFrom(pieces, args, i + 1))
  }

  /** Filling every verb with `%s` gives back the template itself. */
  lemma FormatVerbs(pieces: seq<string>)
    requires |pieces| >= 1
    ensures Format(pieces, seq(|pieces| - 1, _ => "%s")) == Template(pieces)
  {
    FormatVerbsFrom(pieces, seq(|pieces| - 1, _ => "%s"), 0);
  }

  lemma {:induction false} FormatVerbsFrom(pieces: seq<string>, verbs: seq<string>, i: nat)
    requires |pieces| == |verbs| + 1 && i <= |verbs|
    requires forall k :: 0 <= k < |verbs| ==> verbs[k] == "%s"
    ensures FormatFrom(pieces, verbs, i) == Join(pieces[i..], "%s")
    decreases |verbs| - i
  {
    if i < |verbs| {
      FormatVerbsFrom(pieces, verbs, i + 1);
      assert pieces[i..][1..] == pieces[i + 1..];
      assert pieces[i] + (verbs[i] + Join(pieces[i + 1..], "%s")) == pieces[i] + verbs[i] + Join(pieces[i + 1..], "%s");
    } else {
      assert pieces[i..] == [pieces[i]];
    }
  }
}

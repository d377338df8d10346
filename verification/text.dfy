/** String helpers the report writer relies on: Python's `s[:-2]`, the
    ", "-separated list, and its reading back. */
module Text {

  /** The separator the report puts after every list item. */
  const Separator: string := ", "

  /** The list `xs` with ", " between neighbours and nothing after the last. */
  function Join(xs: seq<string>): string
  {
    if |xs| == 0 then ""
    else if |xs| == 1 then xs[0]
    else xs[0] + Separator + Join(xs[1..])
  }

  /** Every item followed by ", ": what a loop of `abbr += x + ', '` builds. */
  function Terminated(xs: seq<string>): (s: string)
    ensures |xs| > 0 ==> |s| >= 2 && s[|s| - 2..] == Separator
  {
    if |xs| == 0 then ""
    else Terminated(xs[..|xs| - 1]) + xs[|xs| - 1] + Separator
  }

  /** Python's `s[:-2]`: everything but the last two characters, or the
      empty string when `s` is shorter than that. */
  function DropLast2(s: string): (r: string)
    ensures |s| >= 2 ==> r + s[|s| - 2..] == s
    ensures |s| < 2 ==> r == ""
  {
    if |s| >= 2 then s[..|s| - 2] else ""
  }

  lemma {:induction false} JoinSnoc(xs: seq<string>, x: string)
    requires |xs| > 0
    ensures Join(xs + [x]) == Join(xs) + Separator + x
    decreases |xs|
  {
    if |xs| == 1 {
      assert (xs + [x])[1..] == [x];
    } else {
      assert (xs + [x])[1..] == xs[1..] + [x];
      JoinSnoc(xs[1..], x);
    }
  }

  /** The terminated list is the joined list plus one trailing separator. */
  lemma {:induction false} TerminatedIsJoinPlusSeparator(xs: seq<string>)
    requires |xs| > 0
    ensures Terminated(xs) == Join(xs) + Separator
    decreases |xs|
  {
    if |xs| > 1 {
      var init := xs[..|xs| - 1];
      TerminatedIsJoinPlusSeparator(init);
      JoinSnoc(init, xs[|xs| - 1]);
      assert init + [xs[|xs| - 1]] == xs;
    }
  }

  /** Stripping the last two characters from the terminated list gives
      exactly the joined list: no trailing separator is left. */
  lemma StripTerminatedIsJoin(xs: seq<string>)
    requires |xs| > 0
    ensures DropLast2(Terminated(xs)) == Join(xs)
  {
    TerminatedIsJoinPlusSeparator(xs);
    var s := Join(xs) + Separator;
    assert s[..|s| - 2] == Join(xs);
  }

  /** Position of the first `c` in `s`. */
  function FirstIndex(s: string, c: char): (i: nat)
    requires c in s
    ensures i < |s| && s[i] == c && c !in s[..i]
  {
    if s[0] == c then 0
    else
      var i := 1 + FirstIndex(s[1..], c);
      assert s[..i] == [s[0]] + s[1..][..i - 1];
      i
  }

  /** Reads a ", "-separated list back into its items: cut at every comma
      and drop the one space after it. */
  function Split(s: string): (xs: seq<string>)
    ensures |xs| > 0
    decreases |s|
  {
    if ',' !in s then [s]
    else
      var i := FirstIndex(s, ',');
      var rest := if i + 1 < |s| && s[i + 1] == ' ' then i + 2 else i + 1;
      [s[..i]] + Split(s[rest..])
  }

  lemma FirstIndexAfterPrefix(a: string, b: string, c: char)
    requires c !in a
    requires c in b
    ensures c in a + b
    ensures FirstIndex(a + b, c) == |a| + FirstIndex(b, c)
  {
    var s := a + b;
    var j := |a| + FirstIndex(b, c);
    assert s[j] == c;
  }

  /** Splitting a list whose first item has no comma peels off that item. */
  lemma SplitStep(a: string, t: string)
    requires ',' !in a
    ensures Split(a + Separator + t) == [a] + Split(t)
  {
    var s := a + Separator + t;
    assert s == a + (Separator + t);
    FirstIndexAfterPrefix(a, Separator + t, ',');
    assert FirstIndex(s, ',') == |a|;
    assert s[|a| + 1] == ' ';
    assert s[..|a|] == a;
    assert s[|a| + 2..] == t;
  }

  /** Items without commas survive the trip through `Join` and `Split`. */
  lemma {:induction false} SplitJoin(xs: seq<string>)
    requires |xs| > 0
    requires forall k :: 0 <= k < |xs| ==> ',' !in xs[k]
    ensures Split(Join(xs)) == xs
    decreases |xs|
  {
    if |xs| > 1 {
      SplitStep(xs[0], Join(xs[1..]));
      SplitJoin(xs[1..]);
      assert xs == [xs[0]] + xs[1..];
    }
  }
}

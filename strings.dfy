/** Character-level string helpers shared by the toolkits and the path model. */
module Strings {
  import opened Wrappers

  predicate StartsWith(s: string, prefix: string) {
    |prefix| <= |s| && s[..|prefix|] == prefix
  }

  /** `str.replace(a, b)` for single characters. */
  function ReplaceChar(s: string, a: char, b: char): (r: string)
    ensures |r| == |s|
    ensures forall i :: 0 <= i < |s| ==> r[i] == if s[i] == a then b else s[i]
  {
    if |s| == 0 then "" else [if s[0] == a then b else s[0]] + ReplaceChar(s[1..], a, b)
  }

  /** The ASCII blanks: what `bytes.strip()` and the bytes regular-expression class `\s` remove. */
  predicate IsSpace(c: char) {
    c == ' ' || c == '\t' || c == '\n' || c == '\r' || c == '\U{C}' || c == '\U{B}'
  }

  function StripLeft(s: string): string
    decreases |s|
  {
    if |s| > 0 && IsSpace(s[0]) then StripLeft(s[1..]) else s
  }

  function StripRight(s: string): string
    decreases |s|
  {
    if |s| > 0 && IsSpace(s[|s| - 1]) then StripRight(s[..|s| - 1]) else s
  }

  /** `str.strip()`. */
  function Strip(s: string): string {
    StripRight(StripLeft(s))
  }

  /** Index of the first occurrence of `c` in `s`. */
  function IndexOf(s: string, c: char): Option<nat>
    decreases |s|
  {
    if |s| == 0 then None
    else if s[0] == c then Some(0)
    else match IndexOf(s[1..], c)
      case None => None
      case Some(i) => Some(i + 1)
  }

  /** Index of the last occurrence of `c` in `s`. */
  function LastIndexOf(s: string, c: char): Option<nat>
    decreases |s|
  {
    if |s| == 0 then None
    else if s[|s| - 1] == c then Some(|s| - 1)
    else LastIndexOf(s[..|s| - 1], c)
  }

  lemma {:induction false} IndexOfFacts(s: string, c: char)
    ensures IndexOf(s, c).Some? <==> c in s
    ensures IndexOf(s, c).Some? ==>
      var i := IndexOf(s, c).value; i < |s| && s[i] == c && c !in s[..i]
  {
    if |s| > 0 && s[0] != c {
      IndexOfFacts(s[1..], c);
      if IndexOf(s, c).Some? {
        var i := IndexOf(s, c).value;
        assert s[..i] == [s[0]] + s[1..][..i - 1];
      }
    }
  }

  lemma {:induction false} LastIndexOfFacts(s: string, c: char)
    ensures LastIndexOf(s, c).Some? <==> c in s
    ensures LastIndexOf(s, c).Some? ==>
      var i := LastIndexOf(s, c).value; i < |s| && s[i] == c && c !in s[i + 1..]
  {
    if |s| > 0 && s[|s| - 1] != c {
      var init := s[..|s| - 1];
      LastIndexOfFacts(init, c);
      assert s == init + [s[|s| - 1]];
      if LastIndexOf(s, c).Some? {
        var i := LastIndexOf(s, c).value;
        assert s[i + 1..] == init[i + 1..] + [s[|s| - 1]];
      }
    }
  }

  /** The first occurrence is the one with no occurrence before it. */
  lemma IndexOfAt(s: string, c: char, i: nat)
    requires i < |s| && s[i] == c && c !in s[..i]
    ensures IndexOf(s, c) == Some(i)
  {
    IndexOfFacts(s, c);
  }

  /** The last occurrence is the one with no occurrence after it. */
  lemma LastIndexOfAt(s: string, c: char, i: nat)
    requires i < |s| && s[i] == c && c !in s[i + 1..]
    ensures LastIndexOf(s, c) == Some(i)
  {
    LastIndexOfFacts(s, c);
  }

  /** `sep.join(xs)`. */
  function JoinWith(xs: seq<string>, sep: string): string
    decreases |xs|
  {
    if |xs| == 0 then "" else if |xs| == 1 then xs[0] else xs[0] + sep + JoinWith(xs[1..], sep)
  }

  /** `s.split(c)`: the pieces between occurrences of `c` (there is always at least one). */
  function Split(s: string, c: char): seq<string>
    decreases |s|
  {
    match IndexOf(s, c)
    case None => [s]
    case Some(i) =>
      IndexOfFacts(s, c);
      [s[..i]] + Split(s[i + 1..], c)
  }

  /** The decimal digits of a non-negative integer. */
  function NatToString(n: nat): string
    decreases n
  {
    var d := ['0' + (n % 10) as char];
    if n < 10 then d else NatToString(n / 10) + d
  }

  /** Splitting a joined list at a separator that no element contains gives the list back. */
  lemma {:induction false} SplitJoin(xs: seq<string>, c: char)
    requires |xs| > 0
    requires forall i :: 0 <= i < |xs| ==> c !in xs[i]
    ensures Split(JoinWith(xs, [c]), c) == xs
    decreases |xs|
  {
    if |xs| == 1 {
      IndexOfFacts(xs[0], c);
    } else {
      var rest := JoinWith(xs[1..], [c]);
      var s := xs[0] + [c] + rest;
      assert JoinWith(xs, [c]) == s;
      var n := |xs[0]|;
      assert s[n] == c;
      assert s[..n] == xs[0];
      IndexOfAt(s, c, n);
      assert s[n + 1..] == rest;
      SplitJoin(xs[1..], c);
      assert xs == [xs[0]] + xs[1..];
    }
  }

  /** A string with no blank at either end is its own strip. */
  lemma StripUnblanked(s: string)
    requires |s| > 0 && !IsSpace(s[0]) && !IsSpace(s[|s| - 1])
    ensures Strip(s) == s
  {
  }

  /** Trailing blanks go, and the rest stays. */
  lemma {:induction false} StripRightTrailing(s: string, t: string)
    requires |s| > 0 && !IsSpace(s[|s| - 1])
    requires forall i :: 0 <= i < |t| ==> IsSpace(t[i])
    ensures StripRight(s + t) == s
    decreases |t|
  {
    if |t| == 0 {
      assert s + t == s;
    } else {
      var u := s + t;
      assert IsSpace(u[|u| - 1]);
      assert u[..|u| - 1] == s + t[..|t| - 1];
      StripRightTrailing(s, t[..|t| - 1]);
    }
  }

  /** The first character of a join is that of its first piece. */
  lemma JoinWithFirst(xs: seq<string>, sep: string)
    requires |xs| > 0 && |xs[0]| > 0
    ensures |JoinWith(xs, sep)| > 0 && JoinWith(xs, sep)[0] == xs[0][0]
  {
  }

  /** The last character of a join is that of its last piece. */
  lemma {:induction false} JoinWithLast(xs: seq<string>, sep: string)
    requires |xs| > 0 && |xs[|xs| - 1]| > 0
    ensures var j := JoinWith(xs, sep); |j| > 0 && j[|j| - 1] == xs[|xs| - 1][|xs[|xs| - 1]| - 1]
    decreases |xs|
  {
    if |xs| > 1 {
      JoinWithLast(xs[1..], sep);
    }
  }

  /** Joining one more piece appends the separator and that piece. */
  lemma {:induction false} JoinWithSnoc(xs: seq<string>, x: string, sep: string)
    requires |xs| > 0
    ensures JoinWith(xs + [x], sep) == JoinWith(xs, sep) + sep + x
    decreases |xs|
  {
    if |xs| > 1 {
      assert (xs + [x])[1..] == xs[1..] + [x];
      JoinWithSnoc(xs[1..], x, sep);
    } else {
      assert (xs + [x])[1..] == [x];
    }
  }
}

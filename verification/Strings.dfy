/** The handful of string operations the header parsers use. */
module Strings {
  import opened Prelude

  function TrimStart(s: string, space: char -> bool): string {
    if s != [] && space(s[0]) then TrimStart(s[1..], space) else s
  }

  function TrimEnd(s: string, space: char -> bool): string {
    if s != [] && space(s[|s| - 1]) then TrimEnd(s[..|s| - 1], space) else s
  }

  function Trim(s: string, space: char -> bool): string {
    TrimEnd(TrimStart(s, space), space)
  }

  function IndexOf(s: string, c: char): (i: nat)
    requires c in s
    ensures i < |s| && s[i] == c && c !in s[..i]
  {
    if s[0] == c then 0 else 1 + IndexOf(s[1..], c)
  }

  function SplitOnce(s: string, c: char): Option<(string, string)> {
    if c in s then Some((s[..IndexOf(s, c)], s[IndexOf(s, c) + 1..])) else None
  }

  /** Split at every comma. */
  function Split(s: string): (parts: seq<string>)
    ensures parts != []
  {
    if ',' in s then [s[..IndexOf(s, ',')]] + Split(s[IndexOf(s, ',') + 1..]) else [s]
  }

  /** Join with commas. */
  function Join(parts: seq<string>): string {
    if parts == [] then "" else if |parts| == 1 then parts[0] else parts[0] + "," + Join(parts[1..])
  }

  lemma {:induction false} IndexOfAt(s: string, c: char, i: nat)
    requires i < |s| && s[i] == c && c !in s[..i]
    ensures IndexOf(s, c) == i
  {
    if i == 0 {
    } else {
      assert s[..i][0] == s[0] && s[1..][..i - 1] == s[..i][1..];
      IndexOfAt(s[1..], c, i - 1);
    }
  }

  lemma SplitOnceAt(before: string, c: char, after: string)
    requires c !in before
    ensures SplitOnce(before + [c] + after, c) == Some((before, after))
  {
    var s := before + [c] + after;
    assert s[..|before|] == before && s[|before|] == c && s[|before| + 1..] == after;
    IndexOfAt(s, c, |before|);
  }

  lemma SplitOnceJoins(s: string, c: char)
    requires c in s
    ensures var (before, after) := SplitOnce(s, c).value; s == before + [c] + after && c !in before
  {
  }

  lemma {:induction false} SplitJoin(parts: seq<string>)
    requires parts != [] && forall i :: 0 <= i < |parts| ==> ',' !in parts[i]
    ensures Split(Join(parts)) == parts
  {
    var s := Join(parts);
    if |parts| == 1 {
    } else {
      var n := |parts[0]|;
      assert s[n] == ',' && s[..n] == parts[0] && s[n + 1..] == Join(parts[1..]);
      IndexOfAt(s, ',', n);
      SplitJoin(parts[1..]);
    }
  }

  lemma JoinCons(a: string, rest: seq<string>)
    requires rest != []
    ensures Join([a] + rest) == a + "," + Join(rest)
  {
    assert ([a] + rest)[1..] == rest;
  }

  /** The first element of a split, and the rest. */
  lemma SplitCons(s: string) returns (a: string, rest: string)
    requires ',' in s
    ensures s == a + "," + rest && ',' !in a && |rest| < |s| && Split(s) == [a] + Split(rest)
  {
    a, rest := s[..IndexOf(s, ',')], s[IndexOf(s, ',') + 1..];
  }

  lemma {:induction false} JoinSplit(s: string)
    ensures Split(s) != [] && Join(Split(s)) == s
    ensures forall i :: 0 <= i < |Split(s)| ==> ',' !in Split(s)[i]
    decreases |s|
  {
    if ',' !in s {
      assert Split(s) == [s];
    } else {
      var a, rest := SplitCons(s);
      JoinSplit(rest);
      JoinCons(a, Split(rest));
    }
  }

  lemma {:induction false} JoinSnoc(parts: seq<string>, x: string)
    ensures Join(parts + [x]) == if parts == [] then x else Join(parts) + "," + x
  {
    if parts == [] {
      assert parts + [x] == [x];
    } else {
      assert (parts + [x])[1..] == parts[1..] + [x];
      JoinSnoc(parts[1..], x);
    }
  }

  // ---------------------------------------------------------------------------------------
  // Trimming
  // ---------------------------------------------------------------------------------------

  predicate AllOf(s: string, space: char -> bool) {
    forall i :: 0 <= i < |s| ==> space(s[i])
  }

  /** Nothing to trim at either end. */
  predicate Tight(s: string, space: char -> bool) {
    s != "" ==> !space(s[0]) && !space(s[|s| - 1])
  }

  lemma {:induction false} TrimStartPadded(pad: string, s: string, space: char -> bool)
    requires AllOf(pad, space) && (s != "" ==> !space(s[0]))
    ensures TrimStart(pad + s, space) == s
  {
    if pad == "" {
      assert pad + s == s;
    } else {
      assert (pad + s)[1..] == pad[1..] + s;
      TrimStartPadded(pad[1..], s, space);
    }
  }

  lemma {:induction false} TrimEndPadded(s: string, pad: string, space: char -> bool)
    requires AllOf(pad, space) && (s != "" ==> !space(s[|s| - 1]))
    ensures TrimEnd(s + pad, space) == s
  {
    if pad == "" {
      assert s + pad == s;
    } else {
      var t := s + pad;
      assert t[..|t| - 1] == s + pad[..|pad| - 1];
      TrimEndPadded(s, pad[..|pad| - 1], space);
    }
  }

  /** Trimming takes the padding off and nothing else. */
  lemma TrimPadded(left: string, s: string, right: string, space: char -> bool)
    requires AllOf(left, space) && AllOf(right, space) && Tight(s, space)
    ensures Trim(left + s + right, space) == s
  {
    if s == "" {
      assert left + s + right == (left + right) + "";
      TrimStartPadded(left + right, "", space);
    } else {
      assert left + s + right == left + (s + right);
      TrimStartPadded(left, s + right, space);
      TrimEndPadded(s, right, space);
    }
  }

  lemma {:induction false} TrimStartSplits(s: string, space: char -> bool)
    ensures exists left :: AllOf(left, space) && s == left + TrimStart(s, space)
    ensures TrimStart(s, space) != "" ==> !space(TrimStart(s, space)[0])
  {
    if s == "" || !space(s[0]) {
      assert AllOf("", space) && s == "" + TrimStart(s, space);
    } else {
      TrimStartSplits(s[1..], space);
      var left :| AllOf(left, space) && s[1..] == left + TrimStart(s[1..], space);
      assert AllOf([s[0]] + left, space) && s == ([s[0]] + left) + TrimStart(s, space);
    }
  }

  lemma {:induction false} TrimEndSplits(s: string, space: char -> bool)
    ensures exists right :: AllOf(right, space) && s == TrimEnd(s, space) + right
    ensures TrimEnd(s, space) != "" ==> !space(TrimEnd(s, space)[|TrimEnd(s, space)| - 1]) && TrimEnd(s, space)[0] == s[0]
  {
    if s == "" || !space(s[|s| - 1]) {
      assert AllOf("", space) && s == TrimEnd(s, space) + "";
    } else {
      var t, c := s[..|s| - 1], s[|s| - 1];
      TrimEndSplits(t, space);
      var right :| AllOf(right, space) && t == TrimEnd(t, space) + right;
      assert s == t + [c] && AllOf(right + [c], space);
      assert s == TrimEnd(s, space) + (right + [c]);
    }
  }

  lemma TrimSplits(s: string, space: char -> bool) returns (left: string, right: string)
    ensures AllOf(left, space) && AllOf(right, space) && s == left + Trim(s, space) + right && Tight(Trim(s, space), space)
  {
    TrimStartSplits(s, space);
    left :| AllOf(left, space) && s == left + TrimStart(s, space);
    TrimEndSplits(TrimStart(s, space), space);
    right :| AllOf(right, space) && TrimStart(s, space) == Trim(s, space) + right;
  }
}

/** Dotted names: Python's s.split('.') and '.'.join(parts). */
module Dots {

  function DotAt(s: string, from: nat): (n: nat)
    requires from <= |s|
    ensures from <= n <= |s| && (n < |s| ==> s[n] == '.')
    ensures forall i :: from <= i < n ==> s[i] != '.'
    decreases |s| - from
  {
    if from == |s| || s[from] == '.' then from else DotAt(s, from + 1)
  }

  predicate DotFree(s: string) {
    '.' !in s
  }

  function SplitDots(s: string): (parts: seq<string>)
    ensures |parts| >= 1
    ensures forall i :: 0 <= i < |parts| ==> DotFree(parts[i])
    decreases |s|
  {
    var n := DotAt(s, 0);
    if n == |s| then [s] else [s[..n]] + SplitDots(s[n + 1..])
  }

  function JoinDots(parts: seq<string>): string {
    if parts == [] then ""
    else if |parts| == 1 then parts[0]
    else parts[0] + "." + JoinDots(parts[1..])
  }

  lemma {:induction false} JoinOfSplit(s: string)
    ensures JoinDots(SplitDots(s)) == s
    decreases |s|
  {
    var n := DotAt(s, 0);
    if n < |s| {
      JoinOfSplit(s[n + 1..]);
      var rest := SplitDots(s[n + 1..]);
      assert ([s[..n]] + rest)[1..] == rest;
      assert s == s[..n] + "." + s[n + 1..];
    }
  }

  lemma {:induction false} SplitOfJoin(parts: seq<string>)
    requires parts != [] && forall i :: 0 <= i < |parts| ==> DotFree(parts[i])
    ensures SplitDots(JoinDots(parts)) == parts
    decreases |parts|
  {
    var s := JoinDots(parts);
    if |parts| == 1 {
      assert DotAt(s, 0) == |s|;
      assert parts == [parts[0]];
    } else {
      var head, rest := parts[0], parts[1..];
      SplitOfJoin(rest);
      assert s == head + "." + JoinDots(rest);
      assert forall i :: 0 <= i < |head| ==> s[i] == head[i];
      assert s[|head|] == '.';
      assert DotAt(s, 0) == |head|;
      assert s[..|head|] == head && s[|head| + 1..] == JoinDots(rest);
    }
  }

  lemma SplitInjective(s: string, t: string)
    requires SplitDots(s) == SplitDots(t)
    ensures s == t
  {
    JoinOfSplit(s);
    JoinOfSplit(t);
  }
}

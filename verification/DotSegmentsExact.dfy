/** Exactly when dot-segment removal gives the answer of section 5.2.4 of RFC 3986. */
module DotSegmentsExact {
  import opened DotSegments

  predicate Rooted(u: string) {
    u == "" || u[0] == '/'
  }

  /** The segments of a rooted path, each without the slash before it. */
  function Segs(u: string): (segs: seq<string>)
    requires Rooted(u)
    ensures segs == [] <==> u == ""
    decreases |u|
  {
    if u == "" then []
    else
      var n := NextSlash(u, 1);
      [u[1..n]] + Segs(u[n..])
  }

  lemma SegsStep(s: string, tail: string)
    requires '/' !in s && Rooted(tail)
    ensures Segs("/" + s + tail) == [s] + Segs(tail)
    ensures NextSlash("/" + s + tail, 1) == 1 + |s|
    ensures ("/" + s + tail)[1 + |s|..] == tail && ("/" + s + tail)[..1 + |s|] == "/" + s
  {
    var u := "/" + s + tail;
    assert forall i :: 0 <= i < |s| ==> u[1 + i] == s[i];
    assert tail != "" ==> u[1 + |s|] == tail[0];
    NextSlashIs(u, 1, 1 + |s|);
    assert u[1..1 + |s|] == s && u[1 + |s|..] == tail;
  }

  /** A rooted path is a slash, a segment, and the rest. */
  lemma Cut(u: string) returns (s: string, tail: string)
    requires u != "" && Rooted(u)
    ensures '/' !in s && Rooted(tail) && u == "/" + s + tail && |tail| < |u|
    ensures Segs(u) == [s] + Segs(tail)
  {
    var n := NextSlash(u, 1);
    s, tail := u[1..n], u[n..];
    assert u == [u[0]] + u[1..n] + u[n..];
    SegsStep(s, tail);
  }

  // ----- What each of the two keeps

  function LeadDots(s: string): (n: nat)
    ensures n <= |s|
  {
    if s != "" && s[0] == '.' then 1 + LeadDots(s[1..]) else 0
  }

  /** The segment without the dots that lead it. */
  function Undotted(s: string): string {
    s[LeadDots(s)..]
  }

  function PopN(stack: seq<string>, n: nat): seq<string> {
    if n == 0 then stack else PopN(Pop(stack), n - 1)
  }

  /** The standard: "." and ".." go, every other segment is kept as it is, and a path that ends in a dot segment ends in
      a slash. */
  function RfcKeeps(segs: seq<string>, stack: seq<string>): seq<string>
    decreases |segs|
  {
    if segs == [] then stack
    else if segs[0] == "." || segs[0] == ".." then
      var st := if segs[0] == ".." then Pop(stack) else stack;
      if |segs| == 1 then st + ["/"] else RfcKeeps(segs[1..], st)
    else RfcKeeps(segs[1..], stack + ["/" + segs[0]])
  }

  /** The code: every two leading dots drop the segment before, and what follows the dots is kept unless it is empty. */
  function CodeKeeps(segs: seq<string>, stack: seq<string>): seq<string>
    decreases |segs|
  {
    if segs == [] then stack
    else
      var st, x := PopN(stack, LeadDots(segs[0]) / 2), Undotted(segs[0]);
      if x != "" then CodeKeeps(segs[1..], st + ["/" + x])
      else if |segs| == 1 then st + ["/"]
      else CodeKeeps(segs[1..], st)
  }

  lemma CodeCons(s: string, rest: seq<string>, stack: seq<string>)
    ensures
      var st, x := PopN(stack, LeadDots(s) / 2), Undotted(s);
      CodeKeeps([s] + rest, stack) ==
      if x != "" then CodeKeeps(rest, st + ["/" + x]) else if rest == [] then st + ["/"] else CodeKeeps(rest, st)
  {
    assert ([s] + rest)[1..] == rest;
  }

  lemma RfcCons(s: string, rest: seq<string>, stack: seq<string>)
    ensures
      RfcKeeps([s] + rest, stack) ==
      if s == "." || s == ".." then
        var st := if s == ".." then Pop(stack) else stack;
        if rest == [] then st + ["/"] else RfcKeeps(rest, st)
      else RfcKeeps(rest, stack + ["/" + s])
  {
    assert ([s] + rest)[1..] == rest;
  }

  lemma Chars(u: string, s: string, tail: string)
    requires u == "/" + s + tail
    ensures u[0] == '/' && |u| == 1 + |s| + |tail| && u[1 + |s|..] == tail
    ensures forall i :: 0 <= i < |s| ==> u[i + 1] == s[i]
    ensures tail != "" ==> u[|s| + 1] == tail[0]
    ensures forall k :: 0 <= k <= |s| ==> "/" + u[k + 1..] == "/" + s[k..] + tail
    ensures tail != "" && tail[0] == '/' ==> "/" + u[|s| + 2..] == tail
  {
    forall k | 0 <= k <= |s|
      ensures "/" + u[k + 1..] == "/" + s[k..] + tail
    {
      assert u[k + 1..] == s[k..] + tail;
    }
  }

  lemma {:induction false} RunIsCode(u: string, output: seq<string>)
    requires Rooted(u)
    ensures Run(u, output) == CodeKeeps(Segs(u), output)
    decreases |u|, 1
  {
    if u != "" {
      var s, tail := Cut(u);
      hide Run, CodeKeeps, Segs, NextSlash;
      Chars(u, s, tail);
      if Begins3(u, '/', '.', '.') {
        DropTwo(u, s, tail, output);
      } else if Begins2(u, '/', '.') {
        DropOne(u, s, tail, output);
      } else if Begins2(u, '/', '/') {
        assert s != "" ==> s[0] == u[1];
        CodeCons("", Segs(tail), output);
        SkipSlash(u, output);
        RunIsCode(tail, output);
      } else {
        KeepOne(u, s, tail, output);
      }
    } else {
      assert Segs(u) == [];
    }
  }

  lemma SkipSlash(u: string, output: seq<string>)
    requires Begins2(u, '/', '/')
    ensures Run(u, output) == Run(u[1..], output)
  {
  }

  lemma DottedBy(s: string)
    ensures |s| >= 2 && s[0] == '.' && s[1] == '.' ==> LeadDots(s) == 2 + LeadDots(s[2..]) && Undotted(s) == Undotted(s[2..])
    ensures s != "" && s[0] == '.' ==> LeadDots(s) == 1 + LeadDots(s[1..]) && Undotted(s) == Undotted(s[1..])
    ensures s == "" || s[0] != '.' ==> LeadDots(s) == 0 && Undotted(s) == s
  {
    if |s| >= 2 && s[0] == '.' && s[1] == '.' {
      assert s[1..][1..] == s[2..];
    }
  }

  /** Two leading dots drop a segment, and what follows them is read on its own. */
  lemma CodeDropsTwo(s: string, rest: seq<string>, output: seq<string>)
    requires |s| >= 2 && s[0] == '.' && s[1] == '.'
    ensures CodeKeeps([s] + rest, output) == CodeKeeps([s[2..]] + rest, Pop(output))
    ensures s[2..] == "" && rest != [] ==> CodeKeeps([s] + rest, output) == CodeKeeps(rest, Pop(output))
  {
    DottedBy(s);
    hide CodeKeeps, LeadDots, Undotted;
    CodeCons(s, rest, output);
    CodeCons(s[2..], rest, Pop(output));
    DottedBy("");
  }

  lemma {:induction false} DropTwo(u: string, s: string, tail: string, output: seq<string>)
    requires '/' !in s && Rooted(tail) && u == "/" + s + tail && Begins3(u, '/', '.', '.')
    ensures Run(u, output) == CodeKeeps([s] + Segs(tail), output)
    decreases |u|, 0
  {
    hide Run, CodeKeeps, Segs, NextSlash, LeadDots, Undotted;
    TwoDotsFirst(u, s, tail);
    CodeDropsTwo(s, Segs(tail), output);
    if Begins4(u, '/', '.', '.', '/') {
      RunTwoDots(u, output, tail);
      RunIsCode(tail, Pop(output));
    } else {
      RunTwoDots(u, output, "/" + u[3..]);
      SegsStep(s[2..], tail);
      RunIsCode("/" + u[3..], Pop(output));
    }
  }

  lemma TwoDotsFirst(u: string, s: string, tail: string)
    requires '/' !in s && Rooted(tail) && u == "/" + s + tail && Begins3(u, '/', '.', '.')
    ensures |s| >= 2 && s[0] == '.' && s[1] == '.'
    ensures if Begins4(u, '/', '.', '.', '/') then s[2..] == "" && tail != "" && "/" + u[4..] == tail
            else "/" + u[3..] == "/" + s[2..] + tail
  {
    Chars(u, s, tail);
    assert |s| > 2 ==> u[2 + 1] == s[2];
  }

  lemma {:induction false} DropOne(u: string, s: string, tail: string, output: seq<string>)
    requires '/' !in s && Rooted(tail) && u == "/" + s + tail && Begins2(u, '/', '.') && !Begins3(u, '/', '.', '.')
    ensures Run(u, output) == CodeKeeps([s] + Segs(tail), output)
    decreases |u|, 0
  {
    hide Run, CodeKeeps, Segs, NextSlash, LeadDots, Undotted;
    Chars(u, s, tail);
    assert |s| >= 1;
    DottedBy(s);
    var x := s[1..];
    assert x != "" ==> x[0] == s[1] == u[2];
    DottedBy(x);
    var next := if Begins3(u, '/', '.', '/') then "/" + u[3..] else "/" + u[2..];
    RunOneDot(u, output, next);
    CodeCons(s, Segs(tail), output);
    if Begins3(u, '/', '.', '/') {
      RunIsCode(tail, output);
    } else {
      SegsStep(x, tail);
      CodeCons(x, Segs(tail), output);
      RunIsCode(next, output);
    }
  }

  lemma {:induction false} KeepOne(u: string, s: string, tail: string, output: seq<string>)
    requires '/' !in s && Rooted(tail) && u == "/" + s + tail && !Begins2(u, '/', '.') && !Begins2(u, '/', '/')
    ensures Run(u, output) == CodeKeeps([s] + Segs(tail), output)
    decreases |u|, 0
  {
    hide Run, CodeKeeps, Segs, LeadDots, Undotted;
    Chars(u, s, tail);
    SegsStep(s, tail);
    DottedBy(s);
    RunMoves(u, output, 1 + |s|);
    CodeCons(s, Segs(tail), output);
    RunIsCode(tail, output + ["/" + s]);
    if s == "" {
      assert tail == "";
      assert "/" + s == "/";
      CodeNothing(output + ["/"]);
    }
  }

  lemma CodeNothing(output: seq<string>)
    ensures Segs("") == [] && CodeKeeps([], output) == output
  {
  }

  lemma RfcStep(u: string, s: string, tail: string, buffer: string)
    requires '/' !in s && Rooted(tail) && u == "/" + s + tail
    ensures s == "." ==> Rfc(u, buffer) == Rfc(if tail == "" then "/" else tail, buffer)
    ensures s == ".." ==> Rfc(u, buffer) == Rfc(if tail == "" then "/" else tail, RemoveLastSegment(buffer))
    ensures s != "." && s != ".." ==> Rfc(u, buffer) == Rfc(tail, buffer + ("/" + s))
  {
    Chars(u, s, tail);
    SegsStep(s, tail);
    if s == "." {
      RfcSkips(tail, buffer);
      assert u == "/." + tail;
    } else if s == ".." {
      RfcPops(tail, buffer);
      assert u == "/.." + tail;
    } else {
      RfcOther(u, s, tail);
    }
  }

  /** None of the first steps of the standard applies. */
  lemma RfcOther(u: string, s: string, tail: string)
    requires '/' !in s && Rooted(tail) && u == "/" + s + tail && s != "." && s != ".."
    ensures !Begins3(u, '/', '.', '/') && u != "/." && !Begins4(u, '/', '.', '.', '/') && u != "/.."
  {
    Chars(u, s, tail);
    assert |s| == 1 ==> s == [s[0]];
    assert |s| == 2 ==> s == [s[0], s[1]];
  }

  lemma {:induction false} RfcIsKeeps(u: string, output: seq<string>)
    requires Rooted(u) && Segments(output)
    ensures Rfc(u, Flat(output)) == Flat(RfcKeeps(Segs(u), output))
    decreases |u|
  {
    hide Rfc, RfcKeeps, Segs, NextSlash, Flat, Segments, RemoveLastSegment;
    if u == "" {
      RfcNothing(output);
    } else {
      var s, tail := Cut(u);
      RfcStep(u, s, tail, Flat(output));
      RfcCons(s, Segs(tail), output);
      if s == "." || s == ".." {
        var st := if s == ".." then Pop(output) else output;
        RemoveLastIsPop(output);
        PopSegments(output);
        if tail == "" {
          RfcSlash(st);
        } else {
          RfcIsKeeps(tail, st);
        }
      } else {
        PushSegment(output, s);
        FlatSnoc(output, "/" + s);
        RfcIsKeeps(tail, output + ["/" + s]);
      }
    }
  }

  lemma RfcNothing(output: seq<string>)
    ensures Segs("") == [] && Rfc("", Flat(output)) == Flat(output) && RfcKeeps([], output) == output
  {
  }

  lemma PopSegments(output: seq<string>)
    requires Segments(output)
    ensures Segments(Pop(output))
  {
  }

  lemma PushSegment(output: seq<string>, s: string)
    requires Segments(output) && '/' !in s
    ensures Segments(output + ["/" + s])
  {
    var piece := "/" + s;
    assert forall j :: 1 <= j < |piece| ==> piece[j] == s[j - 1];
    PushKeepsSegments(output, piece);
  }

  lemma RfcSlash(output: seq<string>)
    ensures Rfc("/", Flat(output)) == Flat(output + ["/"]) && Segs("") == []
  {
    NextSlashIs("/", 1, 1);
    assert "/"[..1] == "/" && "/"[1..] == "";
    FlatSnoc(output, "/");
  }

  // ----- The code keeps part of what the standard keeps

  /** A kept piece without leading dots. */
  function Plain(piece: string): string {
    if piece != "" && piece[0] == '/' then "/" + Undotted(piece[1..]) else piece
  }

  /** The second stack is part of the first, in order, without the dots. */
  ghost predicate Thinner(a: seq<string>, b: seq<string>)
    decreases |a|
  {
    if a == [] then b == []
    else
      Thinner(Pop(a), b) || (b != [] && b[|b| - 1] == Plain(a[|a| - 1]) && Thinner(Pop(a), Pop(b)))
  }

  lemma {:induction false} ThinnerPop(a: seq<string>, b: seq<string>)
    requires Thinner(a, b)
    ensures Thinner(a, Pop(b)) && Thinner(Pop(a), Pop(b)) && |b| <= |a|
    decreases |a|
  {
    if a != [] {
      if Thinner(Pop(a), b) {
        ThinnerPop(Pop(a), b);
      } else {
        ThinnerPop(Pop(a), Pop(b));
      }
    }
  }

  lemma {:induction false} ThinnerPopN(a: seq<string>, b: seq<string>, n: nat)
    requires Thinner(a, b)
    ensures Thinner(a, PopN(b, n)) && (n > 0 ==> Thinner(Pop(a), PopN(b, n)))
    decreases n
  {
    ThinnerPop(a, b);
    if n > 0 {
      ThinnerPopN(a, Pop(b), n - 1);
      ThinnerPopN(Pop(a), Pop(b), n - 1);
    }
  }

  lemma ThinnerPush(a: seq<string>, b: seq<string>, x: string)
    requires Thinner(a, b)
    ensures Thinner(a + [x], b) && Thinner(a + [x], b + [Plain(x)])
  {
    assert Pop(a + [x]) == a && Pop(b + [Plain(x)]) == b;
  }

  lemma {:induction false} KeepsThinner(segs: seq<string>, a: seq<string>, b: seq<string>)
    requires Thinner(a, b)
    ensures Thinner(RfcKeeps(segs, a), CodeKeeps(segs, b))
    decreases |segs|
  {
    if segs != [] {
      var s, rest := segs[0], segs[1..];
      assert segs == [s] + rest;
      hide Thinner, PopN, RfcKeeps, CodeKeeps, LeadDots, Undotted, Plain;
      RfcCons(s, rest, a);
      CodeCons(s, rest, b);
      ThinnerPopN(a, b, LeadDots(s) / 2);
      var st := PopN(b, LeadDots(s) / 2);
      if s == "." || s == ".." {
        DotsOnly(s);
        var ta := if s == ".." then Pop(a) else a;
        PlainPiece("");
        ThinnerPush(ta, st, "/");
        if rest != [] { KeepsThinner(rest, ta, st); }
      } else {
        PlainPiece(s);
        ThinnerPush(a, st, "/" + s);
        if Undotted(s) == "" && rest != [] {
          KeepsThinner(rest, a + ["/" + s], st);
        } else {
          KeepsThinner(rest, a + ["/" + s], st + [Plain("/" + s)]);
          if rest == [] { KeepsNothing(st + [Plain("/" + s)]); }
        }
      }
    }
  }

  lemma PlainPiece(s: string)
    ensures Plain("/" + s) == "/" + Undotted(s) && Undotted("") == "" && "/" + "" == "/"
  {
    assert ("/" + s)[1..] == s;
  }

  lemma KeepsNothing(stack: seq<string>)
    ensures CodeKeeps([], stack) == stack
  {
  }

  lemma DotsOnly(s: string)
    requires s == "." || s == ".."
    ensures Undotted(s) == "" && LeadDots(s) / 2 == if s == ".." then 1 else 0
  {
    DottedBy(s);
    assert s[1..] == "" || s[1..] == ".";
    DottedBy(s[1..]);
  }

  // ----- Equal results

  ghost predicate NonEmpty(a: seq<string>) {
    forall i :: 0 <= i < |a| ==> a[i] != ""
  }

  lemma FlatLast(a: seq<string>)
    requires a != []
    ensures |Flat(a)| == |Flat(Pop(a))| + |a[|a| - 1]| && a == Pop(a) + [a[|a| - 1]]
  {
  }

  /** Either the last piece is not in the second stack, or it is the last one there. */
  lemma ThinnerCases(a: seq<string>, b: seq<string>)
    requires Thinner(a, b) && a != []
    ensures Thinner(Pop(a), b) || (b != [] && b[|b| - 1] == Plain(a[|a| - 1]) && Thinner(Pop(a), Pop(b)))
  {
  }

  lemma ThinnerEmpty(b: seq<string>)
    requires Thinner([], b)
    ensures b == []
  {
  }

  lemma {:induction false} ThinnerLength(a: seq<string>, b: seq<string>)
    requires Thinner(a, b) && NonEmpty(a)
    ensures |Flat(b)| <= |Flat(a)|
    ensures |Flat(b)| == |Flat(a)| ==> a == b
    decreases |a|
  {
    hide Thinner, Plain, Flat;
    if a == [] {
      ThinnerEmpty(b);
    } else {
      var x := a[|a| - 1];
      ThinnerCases(a, b);
      FlatLast(a);
      if Thinner(Pop(a), b) {
        ThinnerLength(Pop(a), b);
      } else {
        ThinnerLength(Pop(a), Pop(b));
        FlatLast(b);
        PlainShorter(x);
      }
    }
  }

  lemma PlainShorter(x: string)
    ensures |Plain(x)| <= |x| && (|Plain(x)| == |x| ==> Plain(x) == x)
  {
    if x != "" && x[0] == '/' {
      assert LeadDots(x[1..]) == 0 ==> Undotted(x[1..]) == x[1..];
      assert x == "/" + x[1..];
    }
  }

  lemma {:induction false} ThinnerSame(a: seq<string>, b: seq<string>)
    requires Thinner(a, b)
    ensures a == b <==> |a| == |b| && forall i :: 0 <= i < |a| ==> Plain(a[i]) == a[i]
    decreases |a|
  {
    hide Thinner, Plain;
    if a == [] {
      ThinnerEmpty(b);
    } else {
      ThinnerCases(a, b);
      if Thinner(Pop(a), b) {
        ThinnerPop(Pop(a), b);
      } else {
        ThinnerSame(Pop(a), Pop(b));
        assert a == Pop(a) + [a[|a| - 1]] && b == Pop(b) + [b[|b| - 1]];
      }
    }
  }

  /** A path without its leading "../" and "./": a first segment without a slash, if there is one, and the others. */
  function Parts(u: string): (seq<string>, seq<string>)
    decreases |u|
  {
    if Begins3(u, '.', '.', '/') then Parts(u[3..])
    else if Begins2(u, '.', '/') then Parts(u[2..])
    else if u == "." || u == ".." then ([], [])
    else if Rooted(u) then ([], Segs(u))
    else
      var n := NextSlash(u, 1);
      ([u[..n]], Segs(u[n..]))
  }

  lemma {:induction false} PartsKept(u: string)
    ensures
      var (base, segs) := Parts(u);
      && Normalize(u) == Flat(CodeKeeps(segs, base)) && Rfc(u, "") == Flat(RfcKeeps(segs, base))
      && NonEmpty(base) && Thinner(base, base)
    decreases |u|
  {
    if Begins3(u, '.', '.', '/') {
      PartsKept(u[3..]);
    } else if Begins2(u, '.', '/') {
      PartsKept(u[2..]);
    } else if u == "." || u == ".." {
    } else if Rooted(u) {
      RunIsCode(u, []);
      RfcIsKeeps(u, []);
      assert Flat([]) == "";
    } else {
      FirstSegment(u);
    }
  }

  lemma FirstSegment(u: string)
    requires !Rooted(u) && !Begins3(u, '.', '.', '/') && !Begins2(u, '.', '/') && u != "." && u != ".."
    ensures
      var n := NextSlash(u, 1);
      var base, rest := [u[..n]], u[n..];
      && Normalize(u) == Flat(CodeKeeps(Segs(rest), base)) && Rfc(u, "") == Flat(RfcKeeps(Segs(rest), base))
      && NonEmpty(base) && Thinner(base, base)
  {
    var n := NextSlash(u, 1);
    var s, rest := u[..n], u[n..];
    FirstPiece(u, n);
    RfcMovesFirst(u, n);
    hide *;
    FlatOne(s);
    RunIsCode(rest, [s]);
    RfcIsKeeps(rest, [s]);
    NormalizeRuns(u, rest, s);
  }

  lemma NormalizeRuns(u: string, rest: string, s: string)
    requires Run(u, []) == Run(rest, [s])
    ensures Normalize(u) == Flat(Run(rest, [s]))
  {
  }

  lemma FirstPiece(u: string, n: nat)
    requires !Rooted(u) && !Begins3(u, '.', '.', '/') && !Begins2(u, '.', '/') && u != "." && u != ".." && n == NextSlash(u, 1)
    ensures Segments([u[..n]]) && NonEmpty([u[..n]]) && Thinner([u[..n]], [u[..n]]) && Rooted(u[n..])
    ensures Run(u, []) == Run(u[n..], [u[..n]])
  {
    var s := u[..n];
    OneThinner(s);
    RunMoves(u, [], n);
    hide Run, Thinner;
    assert [] + [s] == [s];
    assert forall j :: 1 <= j < |s| ==> s[j] == u[j] != '/';
  }

  lemma OneThinner(s: string)
    requires s != "" && s[0] != '/'
    ensures Thinner([s], [s])
  {
    assert Plain(s) == s && Pop([s]) == [];
  }

  lemma RfcMovesFirst(u: string, n: nat)
    requires !Rooted(u) && !Begins3(u, '.', '.', '/') && !Begins2(u, '.', '/') && u != "." && u != ".." && n == NextSlash(u, 1)
    ensures Rfc(u, "") == Rfc(u[n..], u[..n])
  {
    assert "" + u[..n] == u[..n];
  }

  lemma FlatOne(s: string)
    ensures Flat([s]) == s
  {
    assert [s][..0] == [] && "" + s == s;
  }

  lemma {:induction false} KeepsNonEmpty(segs: seq<string>, stack: seq<string>)
    requires NonEmpty(stack)
    ensures NonEmpty(RfcKeeps(segs, stack))
    decreases |segs|
  {
    if segs != [] {
      var st := if segs[0] == ".." then Pop(stack) else stack;
      if segs[0] != "." && segs[0] != ".." {
        KeepsNonEmpty(segs[1..], stack + ["/" + segs[0]]);
      } else if |segs| > 1 {
        KeepsNonEmpty(segs[1..], st);
      }
    }
  }

  // ----- Counting instead of keeping

  function Less(d: nat, n: nat): nat {
    if d >= n then d - n else 0
  }

  /** How many segments the standard keeps. */
  function RfcDepth(segs: seq<string>, d: nat): nat
    decreases |segs|
  {
    if segs == [] then d
    else if segs[0] == "." || segs[0] == ".." then
      var e := if segs[0] == ".." then Less(d, 1) else d;
      if |segs| == 1 then e + 1 else RfcDepth(segs[1..], e)
    else RfcDepth(segs[1..], d + 1)
  }

  /** How many segments the code keeps. */
  function CodeDepth(segs: seq<string>, d: nat): nat
    decreases |segs|
  {
    if segs == [] then d
    else
      var e := Less(d, LeadDots(segs[0]) / 2);
      if Undotted(segs[0]) != "" then CodeDepth(segs[1..], e + 1)
      else if |segs| == 1 then e + 1
      else CodeDepth(segs[1..], e)
  }

  lemma {:induction false} PopNLength(stack: seq<string>, n: nat)
    ensures |PopN(stack, n)| == Less(|stack|, n)
    decreases n
  {
    if n > 0 { PopNLength(Pop(stack), n - 1); }
  }

  lemma {:induction false} RfcDepthIsLength(segs: seq<string>, a: seq<string>)
    ensures |RfcKeeps(segs, a)| == RfcDepth(segs, |a|)
    decreases |segs|
  {
    if segs != [] {
      var s, rest := segs[0], segs[1..];
      RfcDepthIsLength(rest, if s == ".." then Pop(a) else if s == "." then a else a + ["/" + s]);
    }
  }

  lemma {:induction false} CodeDepthIsLength(segs: seq<string>, b: seq<string>)
    ensures |CodeKeeps(segs, b)| == CodeDepth(segs, |b|)
    decreases |segs|
  {
    hide LeadDots, Undotted, PopN;
    if segs != [] {
      var s, rest := segs[0], segs[1..];
      var st, x := PopN(b, LeadDots(s) / 2), Undotted(s);
      PopNLength(b, LeadDots(s) / 2);
      CodeDepthIsLength(rest, if x != "" then st + ["/" + x] else st);
    }
  }

  /** The code gives the answer of the standard exactly when the standard keeps no segment that dots lead and the code
      keeps as many segments: a dotted name or a doubled slash that a later ".." takes away does no harm, unless the code
      has dropped another segment for it. */
  lemma NormalizeIsRfcIff(u: string)
    ensures
      var (base, segs) := Parts(u);
      var kept := RfcKeeps(segs, base);
      Normalize(u) == Rfc(u, "") <==>
      RfcDepth(segs, |base|) == CodeDepth(segs, |base|) && forall i :: 0 <= i < |kept| ==> Plain(kept[i]) == kept[i]
  {
    var (base, segs) := Parts(u);
    PartsKept(u);
    KeepsThinner(segs, base, base);
    KeepsNonEmpty(segs, base);
    RfcDepthIsLength(segs, base);
    CodeDepthIsLength(segs, base);
    var kept, mine := RfcKeeps(segs, base), CodeKeeps(segs, base);
    hide Normalize, Rfc, RfcKeeps, CodeKeeps, Parts, Flat, Thinner, Plain;
    ThinnerLength(kept, mine);
    ThinnerSame(kept, mine);
  }

  /** In particular a doubled slash or a dotted name in the standard's answer is a difference. */
  lemma KeptDotsDiffer(u: string)
    requires !SlashesPlain(Rfc(u, ""))
    ensures Normalize(u) != Rfc(u, "")
  {
    NormalizeIsNormal(u);
  }

  lemma {:induction false} SegsEnd(p: string, s: string)
    requires Rooted(p) && '/' !in s
    ensures Segs(p + "/" + s) == Segs(p) + [s]
    decreases |p|
  {
    hide Segs, NextSlash;
    if p == "" {
      SegsStep(s, "");
      assert p + "/" + s == "/" + s + "";
      NoSegs();
    } else {
      var x, tail := Cut(p);
      SegsEnd(tail, s);
      SegsStep(x, tail + "/" + s);
      Regrouped(x, tail, s);
    }
  }

  lemma NoSegs()
    ensures Segs("") == []
  {
  }

  lemma Regrouped(x: string, tail: string, s: string)
    ensures ("/" + x + tail) + "/" + s == "/" + x + (tail + "/" + s)
  {
  }

  lemma {:induction false} RfcKeepsEnd(segs: seq<string>, s: string, stack: seq<string>)
    requires s != "." && s != ".."
    ensures
      var kept := RfcKeeps(segs + [s], stack);
      kept != [] && kept[|kept| - 1] == "/" + s
    decreases |segs|
  {
    if segs == [] {
      RfcCons(s, [], stack);
      assert segs + [s] == [s] + [];
    } else {
      RfcCons(segs[0], segs[1..] + [s], stack);
      assert segs + [s] == [segs[0]] + (segs[1..] + [s]);
      var st := if segs[0] == ".." then Pop(stack) else if segs[0] == "." then stack else stack + ["/" + segs[0]];
      RfcKeepsEnd(segs[1..], s, st);
    }
  }

  /** The standard keeps a last segment that is not a dot segment. */
  lemma RfcKeepsLast(p: string, s: string) returns (before: string)
    requires Rooted(p) && '/' !in s && s != "." && s != ".."
    ensures Rfc(p + "/" + s, "") == before + "/" + s
  {
    var u := p + "/" + s;
    SegsEnd(p, s);
    RfcIsKeeps(u, []);
    RfcKeepsEnd(Segs(p), s, []);
    var kept := RfcKeeps(Segs(u), []);
    before := Flat(Pop(kept));
    assert Flat([]) == "";
    assert Flat(kept) == Flat(Pop(kept)) + kept[|kept| - 1];
    assert before + ("/" + s) == before + "/" + s;
  }

  /** A dotted name at the end of any rooted path is kept by the standard and changed by the code. */
  lemma DotLedNamesDiffer(p: string, name: string)
    requires Rooted(p) && '/' !in name && name != "" && name != "."
    ensures Normalize(p + "/" + ("." + name)) != Rfc(p + "/" + ("." + name), "")
  {
    assert ("." + name)[1..] == name;
    var before := RfcKeepsLast(p, "." + name);
    var out := Rfc(p + "/" + ("." + name), "");
    assert out[|before|] == '/' && out[|before| + 1] == '.';
    KeptDotsDiffer(p + "/" + ("." + name));
  }

  /** So is a doubled slash before a last name. */
  lemma RepeatedSlashesDiffer(p: string, name: string)
    requires Rooted(p) && '/' !in name && name != "." && name != ".."
    ensures Normalize(p + "/" + "/" + name) != Rfc(p + "/" + "/" + name, "")
  {
    hide Segs, RfcKeeps, NextSlash, Rfc, Normalize;
    var u := p + "/" + "/" + name;
    SegsEnd(p, "");
    assert p + "/" + "" == p + "/";
    SegsEnd(p + "/", name);
    RfcIsKeeps(u, []);
    DoubledKept(Segs(p), name, []);
    var kept := RfcKeeps(Segs(u), []);
    assert Segs(u) == Segs(p) + ["", name];
    var first := Flat(Pop(Pop(kept)));
    assert Flat([]) == "";
    assert Flat(Pop(kept)) == first + "/";
    assert Flat(kept) == first + "/" + ("/" + name);
    assert Flat(kept)[|first|] == '/' && Flat(kept)[|first| + 1] == '/';
    KeptDotsDiffer(u);
  }

  lemma {:induction false} DoubledKept(segs: seq<string>, s: string, stack: seq<string>)
    requires s != "." && s != ".."
    ensures
      var kept := RfcKeeps(segs + ["", s], stack);
      |kept| >= 2 && kept[|kept| - 1] == "/" + s && kept[|kept| - 2] == "/"
    decreases |segs|
  {
    if segs == [] {
      RfcCons("", [s], stack);
      RfcCons(s, [], stack + ["/" + ""]);
      assert segs + ["", s] == [""] + [s] && [s] + [] == [s] && "/" + "" == "/";
    } else {
      RfcCons(segs[0], segs[1..] + ["", s], stack);
      assert segs + ["", s] == [segs[0]] + (segs[1..] + ["", s]);
      var st := if segs[0] == ".." then Pop(stack) else if segs[0] == "." then stack else stack + ["/" + segs[0]];
      DoubledKept(segs[1..], s, st);
    }
  }
}

/** Response.iter_lines of botocore/vendored/requests/models.py, without a delimiter. */
module IterLines {
  import opened Results

  predicate IsBreak(c: char) { c == '\n' || c == '\r' }

  predicate NoBreaks(s: string) {
    forall i :: 0 <= i < |s| ==> !IsBreak(s[i])
  }

  function LineEnd(s: string, from: nat): (n: nat)
    requires from <= |s|
    ensures from <= n <= |s| && (n < |s| ==> IsBreak(s[n]))
    ensures forall i :: from <= i < n ==> !IsBreak(s[i])
    decreases |s| - from
  {
    if from == |s| || IsBreak(s[from]) then from else LineEnd(s, from + 1)
  }

  /** Where the text after the break at n goes on; \r\n is one break. */
  function AfterBreak(s: string, n: nat): (k: nat)
    requires n < |s|
    ensures n < k <= |s|
  {
    if s[n] == '\r' && n + 1 < |s| && s[n + 1] == '\n' then n + 2 else n + 1
  }

  /** bytes.splitlines */
  function SplitLines(s: string): (lines: seq<string>)
    decreases |s|
  {
    var n := LineEnd(s, 0);
    if s == "" then []
    else if n == |s| then [s]
    else [s[..n]] + SplitLines(s[AfterBreak(s, n)..])
  }

  function Concat(chunks: seq<string>): string {
    if chunks == [] then "" else Concat(chunks[..|chunks| - 1]) + chunks[|chunks| - 1]
  }

  /** The chunk begins in the middle of a \r\n. */
  predicate Cuts(before: string, chunk: string) {
    before != "" && before[|before| - 1] == '\r' && chunk != "" && chunk[0] == '\n'
  }

  /** The text that the loop in effect splits: a \r\n that is cut counts as two breaks. */
  function Seen(chunks: seq<string>): string {
    if chunks == [] then ""
    else
      var before, chunk := Seen(chunks[..|chunks| - 1]), chunks[|chunks| - 1];
      before + (if Cuts(before, chunk) then "\r" else "") + chunk
  }

  /** How many \r\n are cut between chunks. */
  function CutCount(chunks: seq<string>): nat {
    if chunks == [] then 0
    else
      var before, chunk := chunks[..|chunks| - 1], chunks[|chunks| - 1];
      CutCount(before) + if Cuts(Concat(before), chunk) then 1 else 0
  }

  predicate Ended(s: string) {
    s == "" || IsBreak(s[|s| - 1])
  }

  lemma LineEndOf(line: string, rest: string)
    requires (forall i :: 0 <= i < |line| ==> !IsBreak(line[i])) && (rest == "" || IsBreak(rest[0]))
    ensures LineEnd(line + rest, 0) == |line|
  {
    var s := line + rest;
    assert forall i :: 0 <= i < |line| ==> s[i] == line[i];
    assert rest != "" ==> s[|line|] == rest[0];
  }

  lemma SplitStep(s: string)
    requires s != ""
    ensures
      var n := LineEnd(s, 0);
      SplitLines(s) == if n == |s| then [s] else [s[..n]] + SplitLines(s[AfterBreak(s, n)..])
  {
  }

  /** Text that is added behind a complete line leaves its first line alone. */
  lemma FirstLine(a: string, b: string)
    requires a != "" && Ended(a) && !Cuts(a, b)
    ensures
      var n := LineEnd(a, 0);
      && n < |a| && LineEnd(a + b, 0) == n && (a + b)[..n] == a[..n]
      && AfterBreak(a + b, n) == AfterBreak(a, n)
      && var k := AfterBreak(a, n);
      (a + b)[k..] == a[k..] + b && Ended(a[k..]) && !Cuts(a[k..], b)
  {
    FirstEnd(a, b);
    var n := LineEnd(a, 0);
    SameBreak(a, b, n);
    hide LineEnd, AfterBreak, Ended, Cuts;
    SameRest(a, b, AfterBreak(a, n));
  }

  lemma FirstEnd(a: string, b: string)
    requires a != "" && Ended(a)
    ensures LineEnd(a, 0) < |a| && LineEnd(a + b, 0) == LineEnd(a, 0)
  {
    var n := LineEnd(a, 0);
    assert IsBreak(a[|a| - 1]);
    LineEndOf(a[..n], a[n..] + b);
    assert a + b == a[..n] + (a[n..] + b);
  }

  lemma SameBreak(a: string, b: string, n: nat)
    requires n < |a| && !Cuts(a, b)
    ensures AfterBreak(a + b, n) == AfterBreak(a, n)
  {
    assert b != "" ==> (a + b)[|a|] == b[0];
  }

  lemma SameRest(a: string, b: string, k: nat)
    requires k <= |a| && Ended(a) && !Cuts(a, b)
    ensures (a + b)[..k] == a[..k] && (a + b)[k..] == a[k..] + b && Ended(a[k..]) && !Cuts(a[k..], b)
    ensures forall n :: 0 <= n <= k ==> (a + b)[..n] == a[..n]
  {
    assert a[k..] != "" ==> a[k..][|a[k..]| - 1] == a[|a| - 1];
  }

  lemma Prefixed(h: seq<string>, x: seq<string>, y: seq<string>)
    ensures h + (x + y) == (h + x) + y
  {
  }

  /** Complete lines can be split off. */
  lemma {:induction false} SplitAppend(a: string, b: string)
    requires Ended(a) && !Cuts(a, b)
    ensures SplitLines(a + b) == SplitLines(a) + SplitLines(b)
    decreases |a|
  {
    if a == "" {
      assert a + b == b && [] + SplitLines(b) == SplitLines(b);
    } else {
      FirstLine(a, b);
      var n := LineEnd(a, 0);
      var k := AfterBreak(a, n);
      SplitStep(a);
      SplitStep(a + b);
      hide SplitLines, LineEnd, AfterBreak, Ended, Cuts;
      SplitAppend(a[k..], b);
      Prefixed([a[..n]], SplitLines(a[k..]), SplitLines(b));
    }
  }

  /** The length of the complete lines of a text. */
  function Complete(s: string): (n: nat)
    ensures n <= |s| && (n == |s| <==> Ended(s)) && Ended(s[..n])
    ensures forall i :: n <= i < |s| ==> !IsBreak(s[i])
  {
    if Ended(s) then
      assert s[..|s|] == s;
      |s|
    else
      var n := Complete(s[..|s| - 1]);
      assert s[..|s| - 1][..n] == s[..n];
      n
  }

  lemma OneLine(t: string)
    requires t != "" && NoBreaks(t)
    ensures SplitLines(t) == [t]
  {
    LineEndOf(t, "");
    assert t + "" == t;
    SplitStep(t);
  }

  /** The lines of a text are its complete lines and what follows them. */
  lemma SplitTail(s: string)
    ensures
      var n := Complete(s);
      SplitLines(s) == SplitLines(s[..n]) + if n == |s| then [] else [s[n..]]
  {
    var n := Complete(s);
    hide SplitLines, Complete;
    var a, b := s[..n], s[n..];
    assert s == a + b;
    if b == "" {
      assert a == s;
    } else {
      SplitAppend(a, b);
      OneLine(b);
    }
  }

  /** No line contains a break. */
  lemma {:induction false} LinesHaveNoBreaks(s: string, k: nat)
    requires k < |SplitLines(s)|
    ensures NoBreaks(SplitLines(s)[k])
    decreases |s|
  {
    var n := LineEnd(s, 0);
    SplitStep(s);
    if n < |s| && k > 0 {
      LinesHaveNoBreaks(s[AfterBreak(s, n)..], k - 1);
    }
  }

  /** The test of the loop: the last line is the end of the chunk, and not followed by a break. */
  predicate Unfinished(lines: seq<string>, chunk: string) {
    && lines != [] && lines[|lines| - 1] != "" && chunk != ""
    && lines[|lines| - 1][|lines[|lines| - 1]| - 1] == chunk[|chunk| - 1]
  }

  lemma UnfinishedExact(chunk: string)
    ensures Unfinished(SplitLines(chunk), chunk) <==> !Ended(chunk)
    ensures
      var lines, n := SplitLines(chunk), Complete(chunk);
      if Ended(chunk) then lines == SplitLines(chunk[..n])
      else lines != [] && lines[..|lines| - 1] == SplitLines(chunk[..n]) && lines[|lines| - 1] == chunk[n..] && n < |chunk|
  {
    SplitTail(chunk);
    if SplitLines(chunk) != [] { LinesHaveNoBreaks(chunk, |SplitLines(chunk)| - 1); }
    assert chunk == "" ==> SplitLines(chunk) == [];
    hide SplitLines, Complete;
    UnfinishedParts(chunk, Complete(chunk), SplitLines(chunk), SplitLines(chunk[..Complete(chunk)]));
  }

  lemma UnfinishedParts(chunk: string, n: nat, lines: seq<string>, complete: seq<string>)
    requires n <= |chunk| && (n == |chunk| <==> Ended(chunk)) && forall i :: n <= i < |chunk| ==> !IsBreak(chunk[i])
    requires lines == complete + if n == |chunk| then [] else [chunk[n..]]
    requires lines != [] ==> NoBreaks(lines[|lines| - 1])
    ensures Unfinished(lines, chunk) <==> !Ended(chunk)
    ensures
      if Ended(chunk) then lines == complete
      else lines != [] && lines[..|lines| - 1] == complete && lines[|lines| - 1] == chunk[n..] && n < |chunk|
  {
    if n < |chunk| {
      LastOf(complete, chunk[n..]);
    }
  }

  lemma LastOf(xs: seq<string>, x: string)
    ensures (xs + [x])[..|xs + [x]| - 1] == xs && (xs + [x])[|xs + [x]| - 1] == x
  {
  }

  /** The \n of a cut \r\n is a break of its own. */
  lemma SecondHalf(b: string)
    requires b != "" && b[0] == '\n'
    ensures SplitLines("\r" + b) == SplitLines(b)
  {
    var s := "\r" + b;
    LineEndOf("", b);
    LineEndOf("", s);
    assert "" + b == b && "" + s == s;
    SplitStep(b);
    SplitStep(s);
    assert s[2..] == b[1..] && s[..0] == b[..0] == "";
    assert s[1] == b[0];
  }

  /** What the loop holds after some chunks: the lines given out are those of `base`, the rest is pending. */
  ghost predicate Holding(text: string, base: string, lines: seq<string>, pending: Option<string>) {
    && Ended(base) && lines == SplitLines(base)
    && match pending
       case None => text == base
       case Some(p) => p != "" && text == base + p && NoBreaks(p)
  }

  lemma NextChunk(text: string, base: string, lines: seq<string>, pending: Option<string>, c: string)
    requires Holding(text, base, lines, pending)
    ensures
      var chunk := if pending.Some? then pending.value + c else c;
      var cut := if Cuts(text, c) then "\r" else "";
      var n := Complete(chunk);
      var base' := base + cut + chunk[..n];
      && lines + SplitLines(chunk[..n]) == SplitLines(base')
      && Holding(text + cut + c, base', lines + SplitLines(chunk[..n]), if n == |chunk| then None else Some(chunk[n..]))
  {
    var chunk := if pending.Some? then pending.value + c else c;
    var n := Complete(chunk);
    hide SplitLines, Complete;
    var head, tail := chunk[..n], chunk[n..];
    assert chunk == head + tail;
    if Cuts(text, c) {
      AtCut(text, base, lines, pending, c, head, tail);
    } else {
      BetweenCuts(text, base, lines, pending, c, head, tail);
    }
  }

  lemma PendingEnd(text: string, base: string, lines: seq<string>, pending: Option<string>)
    requires Holding(text, base, lines, pending)
    ensures pending.Some? ==> text != "" && !IsBreak(text[|text| - 1])
  {
    if pending.Some? { assert text[|text| - 1] == pending.value[|pending.value| - 1]; }
  }

  lemma AtCut(text: string, base: string, lines: seq<string>, pending: Option<string>, c: string, head: string, tail: string)
    requires Holding(text, base, lines, pending) && Cuts(text, c)
    requires head + tail == (if pending.Some? then pending.value + c else c) && Ended(head) && NoBreaks(tail)
    ensures
      && lines + SplitLines(head) == SplitLines(base + "\r" + head) && Ended(base + "\r" + head)
      && text + "\r" + c == (base + "\r" + head) + tail
  {
    hide SplitLines;
    PendingEnd(text, base, lines, pending);
    assert pending.None?;
    assert head != "" by { assert head == "" ==> tail == c; }
    assert head[0] == c[0];
    SecondHalf(head);
    SplitAppend(base, "\r" + head);
    assert base + "\r" + head == base + ("\r" + head);
    assert text + "\r" + c == (base + "\r" + head) + tail;
  }

  lemma BetweenCuts(text: string, base: string, lines: seq<string>, pending: Option<string>, c: string, head: string, tail: string)
    requires Holding(text, base, lines, pending) && !Cuts(text, c)
    requires head + tail == (if pending.Some? then pending.value + c else c) && Ended(head)
    ensures lines + SplitLines(head) == SplitLines(base + "" + head) && Ended(base + "" + head)
    ensures text + "" + c == (base + "" + head) + tail
  {
    hide SplitLines, NoBreaks;
    NotCut(text, base, lines, pending, c, head, tail);
    SplitAppend(base, head);
    assert base + "" == base && text + "" == text;
    assert Ended(base + head) by { assert head != "" ==> (base + head)[|base + head| - 1] == head[|head| - 1]; }
    hide Cuts, Ended;
    Rejoin(base, head, tail, if pending.Some? then pending.value else "", c);
  }

  lemma Rejoin(base: string, head: string, tail: string, pending: string, c: string)
    requires head + tail == pending + c
    ensures (base + pending) + c == (base + head) + tail
    ensures pending == "" ==> base + pending == base
  {
    assert (base + pending) + c == base + (pending + c);
    assert (base + head) + tail == base + (head + tail);
  }

  lemma NotCut(text: string, base: string, lines: seq<string>, pending: Option<string>, c: string, head: string, tail: string)
    requires Holding(text, base, lines, pending) && !Cuts(text, c)
    requires head + tail == if pending.Some? then pending.value + c else c
    ensures !Cuts(base, head)
  {
    hide SplitLines;
    var chunk := head + tail;
    assert head != "" ==> head[0] == chunk[0];
    assert pending.Some? ==> chunk[0] == pending.value[0];
  }

  /** One turn of the loop. */
  lemma NextLines(text: string, base: string, lines: seq<string>, pending: Option<string>, c: string) returns (next: string)
    requires Holding(text, base, lines, pending)
    ensures
      var chunk := if pending.Some? then pending.value + c else c;
      var split := SplitLines(chunk);
      var text' := text + (if Cuts(text, c) then "\r" else "") + c;
      if Unfinished(split, chunk) then Holding(text', next, lines + split[..|split| - 1], Some(split[|split| - 1]))
      else Holding(text', next, lines + split, None)
  {
    var chunk := if pending.Some? then pending.value + c else c;
    NextChunk(text, base, lines, pending, c);
    UnfinishedExact(chunk);
    next := base + (if Cuts(text, c) then "\r" else "") + chunk[..Complete(chunk)];
    hide Holding, SplitLines, Cuts, Unfinished;
  }

  method Lines(chunks: seq<string>) returns (lines: seq<string>)
    ensures lines == SplitLines(Seen(chunks))
  {
    var pending: Option<string> := None;
    lines := [];
    ghost var base := "";
    assert chunks[..0] == [];
    assert Holding(Seen(chunks[..0]), base, lines, pending);
    hide SplitLines, Complete, Seen, Holding, Cuts, NoBreaks, Ended;
    for i := 0 to |chunks|
      invariant Holding(Seen(chunks[..i]), base, lines, pending)
    {
      SeenNext(chunks, i);
      base := NextLines(Seen(chunks[..i]), base, lines, pending, chunks[i]);
      var chunk := chunks[i];
      if pending.Some? { chunk := pending.value + chunk; }
      var split := SplitLines(chunk);
      if Unfinished(split, chunk) {
        pending := Some(split[|split| - 1]);
        split := split[..|split| - 1];
      } else {
        pending := None;
      }
      lines := lines + split;
    }
    assert chunks[..|chunks|] == chunks;
    HoldingAll(Seen(chunks), base, lines, pending);
    if pending.Some? { lines := lines + [pending.value]; }
  }

  lemma SeenNext(chunks: seq<string>, i: nat)
    requires i < |chunks|
    ensures
      var text := Seen(chunks[..i]);
      Seen(chunks[..i + 1]) == text + (if Cuts(text, chunks[i]) then "\r" else "") + chunks[i]
  {
    assert chunks[..i + 1][..i] == chunks[..i];
  }

  lemma HoldingAll(text: string, base: string, lines: seq<string>, pending: Option<string>)
    requires Holding(text, base, lines, pending)
    ensures SplitLines(text) == if pending.Some? then lines + [pending.value] else lines
  {
    if pending.Some? {
      hide SplitLines;
      SplitAppend(base, pending.value);
      OneLine(pending.value);
    }
  }

  // ----- When the lines are those of the content

  lemma SplitSame(a: string)
    requires a != "" && a[|a| - 1] == '\r'
    ensures SplitLines(a + "\n") == SplitLines(a)
  {
    var front := a[..|a| - 1];
    var n := Complete(front);
    BreakBehind(front[..n], front[n..]);
    hide SplitLines, Complete;
    Rejoined(a, n);
  }

  lemma Rejoined(a: string, n: nat)
    requires a != "" && a[|a| - 1] == '\r' && n <= |a| - 1
    ensures
      var front := a[..|a| - 1];
      a == front[..n] + (front[n..] + "\r") && a + "\n" == front[..n] + (front[n..] + "\r\n")
  {
  }

  lemma BreakBehind(base: string, rest: string)
    requires Ended(base) && NoBreaks(rest)
    ensures SplitLines(base + (rest + "\r\n")) == SplitLines(base + (rest + "\r"))
  {
    OneBreak(rest);
    hide SplitLines;
    var short, long := rest + "\r", rest + "\r\n";
    assert short[0] != '\n' && long[0] != '\n' by {
      assert rest != "" ==> short[0] == rest[0] && long[0] == rest[0];
    }
    SplitAppend(base, short);
    SplitAppend(base, long);
  }

  lemma OneBreak(line: string)
    requires NoBreaks(line)
    ensures SplitLines(line + "\r") == [line] && SplitLines(line + "\r\n") == [line]
  {
    LineEndOf(line, "\r");
    LineEndOf(line, "\r\n");
    SplitStep(line + "\r");
    SplitStep(line + "\r\n");
    assert (line + "\r")[|line| + 1..] == "" && (line + "\r\n")[|line| + 2..] == "";
    assert (line + "\r")[..|line|] == line && (line + "\r\n")[..|line|] == line;
  }

  /** A \r\n that is cut gives one line more. */
  lemma OneMoreLine(a: string, z: string)
    requires Cuts(a, z)
    ensures |SplitLines(a + "\r" + z)| == |SplitLines(a + z)| + 1
  {
    var rest := z[1..];
    assert z == "\n" + rest && a + z == (a + "\n") + rest && a + "\r" + z == a + ("\r" + z);
    SplitSame(a);
    SecondHalf(z);
    assert SplitLines("\n") == [""] by { LineEndOf("", "\n"); assert "" + "\n" == "\n"; SplitStep("\n"); }
    hide SplitLines;
    SplitAppend(a, "\r" + z);
    SplitAppend(a + "\n", rest);
    SplitAppend("\n", rest);
  }

  lemma SameEnd(chunks: seq<string>)
    ensures Seen(chunks) == "" <==> Concat(chunks) == ""
    ensures Seen(chunks) != "" ==> Seen(chunks)[|Seen(chunks)| - 1] == Concat(chunks)[|Concat(chunks)| - 1]
    decreases |chunks|
  {
    if chunks != [] {
      SameEnd(chunks[..|chunks| - 1]);
    }
  }

  lemma {:induction false} CutsAddLines(chunks: seq<string>, rest: string)
    ensures |SplitLines(Seen(chunks) + rest)| == |SplitLines(Concat(chunks) + rest)| + CutCount(chunks)
    decreases |chunks|
  {
    if chunks == [] {
      assert Seen(chunks) + rest == Concat(chunks) + rest;
    } else {
      var before, chunk := chunks[..|chunks| - 1], chunks[|chunks| - 1];
      SameEnd(before);
      CutsAddLines(before, chunk + rest);
      hide SplitLines;
      MoreLines(Seen(before), Concat(before), chunk, rest, CutCount(before));
    }
  }

  lemma MoreLines(seen: string, plain: string, chunk: string, rest: string, cuts: nat)
    requires |SplitLines(seen + (chunk + rest))| == |SplitLines(plain + (chunk + rest))| + cuts
    requires Cuts(seen, chunk) <==> Cuts(plain, chunk)
    ensures
      var cut := if Cuts(seen, chunk) then "\r" else "";
      |SplitLines((seen + cut + chunk) + rest)| ==
      |SplitLines((plain + chunk) + rest)| + cuts + if Cuts(plain, chunk) then 1 else 0
  {
    hide SplitLines;
    var more := chunk + rest;
    assert (plain + chunk) + rest == plain + more;
    if Cuts(seen, chunk) {
      assert more[0] == chunk[0];
      OneMoreLine(seen, more);
      assert (seen + "\r" + chunk) + rest == seen + "\r" + more;
    } else {
      assert (seen + "" + chunk) + rest == seen + more;
    }
  }

  lemma {:induction false} NoCutsSeen(chunks: seq<string>)
    requires CutCount(chunks) == 0
    ensures Seen(chunks) == Concat(chunks)
    decreases |chunks|
  {
    if chunks != [] {
      NoCutsSeen(chunks[..|chunks| - 1]);
    }
  }

  /** The lines do not depend on the chunks, and are those of the whole content, exactly when no \r\n is cut; every cut
      adds one empty line. */
  lemma LinesOfContent(chunks: seq<string>)
    ensures |SplitLines(Seen(chunks))| == |SplitLines(Concat(chunks))| + CutCount(chunks)
    ensures SplitLines(Seen(chunks)) == SplitLines(Concat(chunks)) <==> CutCount(chunks) == 0
  {
    CutsAddLines(chunks, "");
    assert Seen(chunks) + "" == Seen(chunks) && Concat(chunks) + "" == Concat(chunks);
    if CutCount(chunks) == 0 { NoCutsSeen(chunks); }
  }

  lemma {:induction false} NoReturnsNoCuts(chunks: seq<string>)
    requires '\r' !in Concat(chunks)
    ensures CutCount(chunks) == 0
    decreases |chunks|
  {
    if chunks != [] {
      var before, chunk := chunks[..|chunks| - 1], chunks[|chunks| - 1];
      assert Concat(chunks) == Concat(before) + chunk;
      assert forall i :: 0 <= i < |Concat(before)| ==> Concat(before)[i] == Concat(chunks)[i];
      NoReturnsNoCuts(before);
    }
  }

  /** Content without carriage returns is split into its lines however it is cut into chunks. */
  lemma LinesWithoutReturns(chunks: seq<string>)
    requires '\r' !in Concat(chunks)
    ensures SplitLines(Seen(chunks)) == SplitLines(Concat(chunks))
  {
    NoReturnsNoCuts(chunks);
    LinesOfContent(chunks);
  }
}

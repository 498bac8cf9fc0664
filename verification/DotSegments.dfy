/** Dot-segment removal of botocore/utils.py, compared with section 5.2.4 of RFC 3986. */
module DotSegments {

  /** First position of '/' at or after `from`, or |u| when there is none. */
  function NextSlash(u: string, from: nat): (n: nat)
    requires from <= |u|
    ensures from <= n <= |u|
    ensures n < |u| ==> u[n] == '/'
    ensures forall i :: from <= i < n ==> u[i] != '/'
    decreases |u| - from
  {
    if from == |u| || u[from] == '/' then from else NextSlash(u, from + 1)
  }

  function Find(u: string, from: nat): (n: int)
    requires from <= |u|
    ensures n == -1 <==> '/' !in u[from..]
    ensures n != -1 ==> from <= n < |u| && u[n] == '/' && '/' !in u[from..n]
  {
    var n := NextSlash(u, from);
    if n == |u| then -1 else n
  }

  predicate Begins2(u: string, a: char, b: char) {
    |u| >= 2 && u[0] == a && u[1] == b
  }

  predicate Begins3(u: string, a: char, b: char, c: char) {
    Begins2(u, a, b) && |u| >= 3 && u[2] == c
  }

  predicate Begins4(u: string, a: char, b: char, c: char, d: char) {
    Begins3(u, a, b, c) && |u| >= 4 && u[3] == d
  }

  function Flat(segments: seq<string>): string {
    if segments == [] then "" else Flat(segments[..|segments| - 1]) + segments[|segments| - 1]
  }

  function Pop(output: seq<string>): seq<string> {
    if output == [] then [] else output[..|output| - 1]
  }

  /** The loop of the code as a function of its two variables. */
  function Run(url: string, output: seq<string>): seq<string>
    decreases |url|
  {
    if url == "" then output
    else if Begins3(url, '.', '.', '/') then Run(url[3..], output)
    else if Begins2(url, '.', '/') then Run(url[2..], output)
    else if Begins3(url, '/', '.', '/') then Run("/" + url[3..], output)
    else if Begins4(url, '/', '.', '.', '/') then Run("/" + url[4..], Pop(output))
    else if Begins3(url, '/', '.', '.') then Run("/" + url[3..], Pop(output))
    else if Begins2(url, '/', '.') then Run("/" + url[2..], output)
    else if url == "." || url == ".." then output
    else if Begins2(url, '/', '/') then Run(url[1..], output)
    else
      var n := NextSlash(url, 1);
      Run(url[n..], output + [url[..n]])
  }

  function Normalize(url: string): string {
    Flat(Run(url, []))
  }

  method RemoveDotSegments(input: string) returns (path: string)
    ensures path == Normalize(input)
  {
    var url, output := input, [];
    while url != ""
      invariant Run(url, output) == Run(input, [])
      decreases |url|
    {
      if Begins3(url, '.', '.', '/') {
        url := url[3..];
      } else if Begins2(url, '.', '/') {
        url := url[2..];
      } else if Begins3(url, '/', '.', '/') {
        url := "/" + url[3..];
      } else if Begins4(url, '/', '.', '.', '/') {
        url := "/" + url[4..];
        if output != [] { output := output[..|output| - 1]; }
      } else if Begins3(url, '/', '.', '.') {
        url := "/" + url[3..];
        if output != [] { output := output[..|output| - 1]; }
      } else if Begins2(url, '/', '.') {
        url := "/" + url[2..];
      } else if url == "." || url == ".." {
        url := "";
      } else if Begins2(url, '/', '/') {
        url := url[1..];
      } else {
        var nextSlash := if url[0] == '/' then Find(url, 1) else Find(url, 0);
        assert url[0] != '/' ==> NextSlash(url, 0) == NextSlash(url, 1);
        if nextSlash == -1 {
          assert url[..|url|] == url && url[|url|..] == "";
          output, url := output + [url], "";
        } else {
          output, url := output + [url[..nextSlash]], url[nextSlash..];
        }
      }
    }
    path := Flat(output);
  }

  method NormalizeUrlPath(path: string) returns (normal: string)
    ensures normal == if path == "" then "/" else Normalize(path)
  {
    if path == "" {
      return "/";
    }
    normal := RemoveDotSegments(path);
  }

  /** No slash is followed by a slash or a dot. */
  predicate SlashesPlain(s: string) {
    forall i :: 0 <= i < |s| - 1 && s[i] == '/' ==> s[i + 1] != '/' && s[i + 1] != '.'
  }

  /** A relative first segment is neither "." nor "..". */
  predicate HeadPlain(s: string) {
    !(Begins2(s, '.', '/')) && !(Begins3(s, '.', '.', '/')) && s != "." && s != ".."
  }

  predicate Normal(s: string) {
    SlashesPlain(s) && HeadPlain(s)
  }

  /** What the output list satisfies while url is still to be read. */
  predicate Segments(output: seq<string>) {
    && (forall i :: 0 <= i < |output| ==> output[i] != "")
    && (forall i, j :: 0 <= i < |output| && 1 <= j < |output[i]| ==> output[i][j] != '/')
    && (forall i :: 1 <= i < |output| ==> output[i][0] == '/')
  }

  predicate Ready(url: string, output: seq<string>) {
    && Segments(output)
    && (output != [] && url != "" ==> url[0] == '/')
  }

  predicate Open(url: string, output: seq<string>) {
    && Ready(url, output)
    && Normal(Flat(output))
    && (url != "" ==> forall i :: 0 <= i < |output| ==> output[i] != "/")
  }

  lemma FlatSnoc(output: seq<string>, s: string)
    ensures Flat(output + [s]) == Flat(output) + s
  {
    assert (output + [s])[..|output|] == output;
  }

  lemma PopKeepsNormal(output: seq<string>)
    requires Segments(output) && Normal(Flat(output)) && output != []
    ensures Normal(Flat(Pop(output))) && Segments(Pop(output))
  {
    var n := |output| - 1;
    assert Flat(output) == Flat(output[..n]) + output[n];
    if n == 0 {
      assert output[..n] == [];
    } else {
      var p, s := Flat(output[..n]), output[n];
      assert forall i :: 0 <= i < |p| ==> (p + s)[i] == p[i];
      assert (p + s)[|p|] == '/';
    }
  }

  /** A non-empty segment list of a normal path ends in something other than '/'. */
  lemma LastChar(output: seq<string>)
    requires Segments(output) && output != []
    requires forall i :: 0 <= i < |output| ==> output[i] != "/"
    ensures Flat(output) != "" && Flat(output)[|Flat(output)| - 1] != '/'
  {
    var s := output[|output| - 1];
    if |s| == 1 {
      assert s == [s[0]];
    }
  }

  lemma JoinKeepsSlashes(p: string, s: string)
    requires SlashesPlain(p) && SlashesPlain(s)
    requires p == "" || s == "" || p[|p| - 1] != '/'
    ensures SlashesPlain(p + s)
  {
    forall i | 0 <= i < |p + s| - 1 && (p + s)[i] == '/'
      ensures (p + s)[i + 1] != '/' && (p + s)[i + 1] != '.'
    {
      if i < |p| - 1 {
        assert p[i] == '/' && (p + s)[i + 1] == p[i + 1];
      } else if i >= |p| {
        assert s[i - |p|] == '/' && (p + s)[i + 1] == s[i + 1 - |p|];
      }
    }
  }

  /** The segment that the last branch moves to the output. */
  predicate Movable(url: string, n: nat) {
    && url != ""
    && !Begins2(url, '/', '/') && !Begins2(url, '/', '.') && HeadPlain(url)
    && n == NextSlash(url, 1)
  }

  lemma MovedIsPlain(url: string, n: nat)
    requires Movable(url, n)
    ensures Normal(url[..n]) && 1 <= n <= |url|
    ensures n < |url| ==> url[n] == '/' && url[..n] != "/"
  {
    forall i | 0 <= i < n - 1 && url[..n][i] == '/'
      ensures url[..n][i + 1] != '/' && url[..n][i + 1] != '.'
    {
      assert i == 0 && url[0] == '/' && url[..n][1] == url[1];
    }
    assert forall i :: 0 <= i < n ==> url[..n][i] == url[i];
    assert n == |url| ==> url[..n] == url;
  }

  lemma PushKeepsSegments(output: seq<string>, s: string)
    requires Segments(output) && s != "" && (forall j :: 1 <= j < |s| ==> s[j] != '/')
    requires output != [] ==> s[0] == '/'
    ensures Segments(output + [s])
  {
  }

  lemma PushKeepsNormal(url: string, output: seq<string>, n: nat)
    requires Open(url, output) && Movable(url, n)
    ensures Open(url[n..], output + [url[..n]])
  {
    var s := url[..n];
    MovedIsPlain(url, n);
    PushKeepsSegments(output, s);
    FlatSnoc(output, s);
    var p := Flat(output);
    if output == [] {
      assert p + s == s;
    } else {
      LastChar(output);
      JoinKeepsSlashes(p, s);
      assert (p + s)[|p|] == '/';
      assert forall i :: 0 <= i < |p| ==> (p + s)[i] == p[i];
    }
  }

  lemma {:induction false} RunIsNormal(url: string, output: seq<string>)
    requires Open(url, output)
    ensures Normal(Flat(Run(url, output)))
    decreases |url|
  {
    if url == "" {
    } else if Begins3(url, '.', '.', '/') {
      assert output == [];
      RunIsNormal(url[3..], output);
    } else if Begins2(url, '.', '/') {
      assert output == [];
      RunIsNormal(url[2..], output);
    } else if Begins3(url, '/', '.', '/') {
      RunIsNormal("/" + url[3..], output);
    } else if Begins4(url, '/', '.', '.', '/') {
      if output != [] { PopKeepsNormal(output); }
      RunIsNormal("/" + url[4..], Pop(output));
    } else if Begins3(url, '/', '.', '.') {
      if output != [] { PopKeepsNormal(output); }
      RunIsNormal("/" + url[3..], Pop(output));
    } else if Begins2(url, '/', '.') {
      RunIsNormal("/" + url[2..], output);
    } else if url == "." || url == ".." {
    } else if Begins2(url, '/', '/') {
      RunIsNormal(url[1..], output);
    } else {
      var n := NextSlash(url, 1);
      PushKeepsNormal(url, output, n);
      RunIsNormal(url[n..], output + [url[..n]]);
    }
  }

  lemma RunMoves(url: string, output: seq<string>, n: nat)
    requires Movable(url, n)
    ensures Run(url, output) == Run(url[n..], output + [url[..n]])
  {
  }

  lemma SlashesInTail(u: string, k: nat)
    requires SlashesPlain(u) && k <= |u|
    ensures SlashesPlain(u[k..])
  {
    forall i | 0 <= i < |u[k..]| - 1 && u[k..][i] == '/'
      ensures u[k..][i + 1] != '/' && u[k..][i + 1] != '.'
    {
      assert u[k + i] == '/' && u[k..][i + 1] == u[k + i + 1];
    }
  }

  lemma MovableHead(url: string, n: nat)
    requires url != "" && Normal(url) && n == NextSlash(url, 1)
    ensures Movable(url, n) && Normal(url[n..]) && |url[n..]| < |url|
  {
    SlashesInTail(url, n);
  }

  lemma {:induction false} RunOnNormal(url: string, output: seq<string>)
    requires Normal(url)
    ensures Flat(Run(url, output)) == Flat(output) + url
    decreases |url|
  {
    if url == "" {
      assert Flat(output) + url == Flat(output);
    } else {
      var n := NextSlash(url, 1);
      MovableHead(url, n);
      RunMoves(url, output, n);
      RunOnNormal(url[n..], output + [url[..n]]);
      FlatSnoc(output, url[..n]);
      SplitText(Flat(output), url, n);
    }
  }

  lemma SplitText(p: string, u: string, n: nat)
    requires n <= |u|
    ensures p + u[..n] + u[n..] == p + u
  {
  }

  /** The result has no '//' and no dot-led segment after a slash, and a normal path is kept as it is. */
  lemma NormalizeIsNormal(url: string)
    ensures Normal(Normalize(url))
  {
    RunIsNormal(url, []);
  }

  lemma FixedPointsAreTheNormalPaths(url: string)
    ensures Normalize(url) == url <==> Normal(url)
  {
    NormalizeIsNormal(url);
    if Normal(url) {
      RunOnNormal(url, []);
    }
  }

  lemma NormalizeIdempotent(url: string)
    ensures Normalize(Normalize(url)) == Normalize(url)
  {
    NormalizeIsNormal(url);
    FixedPointsAreTheNormalPaths(Normalize(url));
  }

  /** Drop the last segment and the slash before it, if any. */
  function RemoveLastSegment(buffer: string): string {
    if buffer == "" then ""
    else if buffer[|buffer| - 1] == '/' then buffer[..|buffer| - 1]
    else RemoveLastSegment(buffer[..|buffer| - 1])
  }

  /** The algorithm of section 5.2.4 of RFC 3986, steps 2A to 2E, on an input and an output buffer. */
  function Rfc(input: string, buffer: string): string
    decreases |input|
  {
    if input == "" then buffer
    else if Begins3(input, '.', '.', '/') then Rfc(input[3..], buffer)
    else if Begins2(input, '.', '/') then Rfc(input[2..], buffer)
    else if Begins3(input, '/', '.', '/') then Rfc("/" + input[3..], buffer)
    else if input == "/." then Rfc("/", buffer)
    else if Begins4(input, '/', '.', '.', '/') then Rfc("/" + input[4..], RemoveLastSegment(buffer))
    else if input == "/.." then Rfc("/", RemoveLastSegment(buffer))
    else if input == "." || input == ".." then buffer
    else
      var n := NextSlash(input, 1);
      Rfc(input[n..], buffer + input[..n])
  }

  /** Ends the dots that lead a segment with a slash of their own and merges repeated slashes. */
  function Spread(u: string): string
    decreases |u|
  {
    if u == "" then ""
    else if Begins2(u, '/', '/') then Spread(u[1..])
    else if Begins4(u, '/', '.', '.', '/') || u == "/.." then "/.." + Spread(u[3..])
    else if Begins3(u, '/', '.', '.') then "/.." + Spread("/" + u[3..])
    else if Begins3(u, '/', '.', '/') || u == "/." then "/." + Spread(u[2..])
    else if Begins2(u, '/', '.') then "/." + Spread("/" + u[2..])
    else [u[0]] + Spread(u[1..])
  }

  function Expand(u: string): string
    decreases |u|
  {
    if Begins3(u, '.', '.', '/') then "../" + Expand(u[3..])
    else if Begins2(u, '.', '/') then "./" + Expand(u[2..])
    else Spread(u)
  }

  lemma {:induction false} SpreadHead(u: string)
    ensures u == "" <==> Spread(u) == ""
    ensures u != "" ==> Spread(u)[0] == u[0]
    decreases |u|
  {
    if Begins2(u, '/', '/') { SpreadHead(u[1..]); }
  }

  lemma SpreadKeepsFirst(u: string)
    requires u != "" && !Begins2(u, '/', '/') && !Begins2(u, '/', '.')
    ensures Spread(u) == [u[0]] + Spread(u[1..])
  {
  }

  lemma Front(u: string, n: nat)
    requires 0 < n <= |u|
    ensures u[..n] == [u[0]] + u[1..][..n - 1] && u[1..][n - 1..] == u[n..]
  {
  }

  lemma Joined(c: char, x: string, y: string)
    ensures [c] + (x + y) == ([c] + x) + y
  {
  }

  /** A leading run without '/' is copied. */
  lemma {:induction false} SpreadPlain(u: string, n: nat)
    requires n <= |u| && '/' !in u[..n]
    ensures Spread(u) == u[..n] + Spread(u[n..])
    decreases n
  {
    if n == 0 {
      assert u[0..] == u;
    } else {
      Front(u, n);
      assert u[0] in u[..n];
      SpreadKeepsFirst(u);
      hide Spread;
      SpreadPlain(u[1..], n - 1);
      Joined(u[0], u[1..][..n - 1], Spread(u[n..]));
    }
  }

  lemma {:induction false} RemoveLastIsPop(output: seq<string>)
    requires Segments(output)
    ensures RemoveLastSegment(Flat(output)) == Flat(Pop(output))
  {
    if output != [] {
      var p, s := Flat(Pop(output)), output[|output| - 1];
      RemoveLastDrops(p, s, |output| > 1);
      if |output| == 1 {
        assert Pop(output) == [];
      }
    }
  }

  lemma {:induction false} RemoveLastDrops(p: string, s: string, rooted: bool)
    requires s != "" && (forall i :: 1 <= i < |s| ==> s[i] != '/')
    requires if rooted then s[0] == '/' else p == ""
    ensures RemoveLastSegment(p + s) == p
    decreases |s|
  {
    var n := |s| - 1;
    assert (p + s)[|p + s| - 1] == s[n];
    assert (p + s)[..|p + s| - 1] == p + s[..n];
    if n == 0 {
      assert p + s[..n] == p;
    } else {
      RemoveLastDrops(p, s[..n], rooted);
    }
  }

  lemma SpreadSegment(url: string, n: nat)
    requires Movable(url, n)
    ensures Spread(url) == url[..n] + Spread(url[n..])
  {
    if url[0] == '/' {
      SpreadKeepsFirst(url);
      SpreadRooted(url, n);
    } else {
      assert '/' !in url[..n];
      SpreadPlain(url, n);
    }
  }

  lemma SpreadRooted(url: string, n: nat)
    requires 1 <= n <= |url| && '/' !in url[1..n]
    ensures [url[0]] + Spread(url[1..]) == url[..n] + Spread(url[n..])
  {
    var tail := url[1..];
    assert tail[..n - 1] == url[1..n];
    SpreadPlain(tail, n - 1);
    assert tail[n - 1..] == url[n..];
    assert url[..n] == [url[0]] + url[1..n];
  }

  /** Step 2E on an input that begins with a whole segment. */
  lemma RfcMoves(s: string, rest: string, buffer: string)
    requires s != "" && (forall i :: 1 <= i < |s| ==> s[i] != '/')
    requires rest == "" || (rest[0] == '/' && s != "/")
    requires s != "." && s != ".." && !Begins2(s, '/', '.')
    ensures Rfc(s + rest, buffer) == Rfc(rest, buffer + s)
  {
    var input, n := s + rest, |s|;
    assert forall i :: 0 <= i < n ==> input[i] == s[i];
    assert n < |input| ==> input[n] == rest[0];
    NextSlashIs(input, 1, n);
    assert input[..n] == s && input[n..] == rest;
    if |s| == 1 {
      assert s == [s[0]];
    } else if |s| == 2 {
      assert s == [s[0], s[1]];
    }
  }

  lemma RfcPops(t: string, buffer: string)
    requires t == "" || t[0] == '/'
    ensures Rfc("/.." + t, buffer) == Rfc(if t == "" then "/" else t, RemoveLastSegment(buffer))
  {
    if t == "" {
      assert "/.." + t == "/..";
    } else {
      var input := "/.." + t;
      assert input[3] == t[0];
      assert "/" + input[4..] == t;
    }
  }

  lemma RfcSkips(t: string, buffer: string)
    requires t == "" || t[0] == '/'
    ensures Rfc("/." + t, buffer) == Rfc(if t == "" then "/" else t, buffer)
  {
    if t == "" {
      assert "/." + t == "/.";
    } else {
      var input := "/." + t;
      assert input[2] == t[0];
      assert "/" + input[3..] == t;
    }
  }

  lemma {:induction false} NextSlashIs(u: string, from: nat, n: nat)
    requires from <= n <= |u| && (n < |u| ==> u[n] == '/') && forall i :: from <= i < n ==> u[i] != '/'
    ensures NextSlash(u, from) == n
    decreases n - from
  {
    if from < n { NextSlashIs(u, from + 1, n); }
  }

  lemma {:induction false} RunIsRfc(url: string, output: seq<string>)
    requires Ready(url, output)
    ensures Flat(Run(url, output)) == Rfc(if output == [] then Expand(url) else Spread(url), Flat(output))
    decreases |url|
  {
    if url == "" {
    } else if Begins3(url, '.', '.', '/') {
      assert output == [];
      RunIsRfc(url[3..], output);
      assert ("../" + Expand(url[3..]))[3..] == Expand(url[3..]);
    } else if Begins2(url, '.', '/') {
      assert output == [];
      RunIsRfc(url[2..], output);
      assert ("./" + Expand(url[2..]))[2..] == Expand(url[2..]);
    } else {
      RunIsRfcSpread(url, output);
    }
  }

  /** A path that begins with a slash needs no expansion of leading dots. */
  lemma {:induction false} RunIsRfcTail(url: string, output: seq<string>)
    requires Ready(url, output) && (url != "" ==> url[0] == '/')
    ensures Flat(Run(url, output)) == Rfc(Spread(url), Flat(output))
    decreases |url|, 2
  {
    if url != "" {
      RunIsRfcSpread(url, output);
    }
  }

  lemma {:induction false} RunIsRfcSpread(url: string, output: seq<string>)
    requires url != "" && Ready(url, output) && !Begins3(url, '.', '.', '/') && !Begins2(url, '.', '/')
    ensures Flat(Run(url, output)) == Rfc(Spread(url), Flat(output))
    decreases |url|, 1
  {
    if Begins3(url, '/', '.', '.') {
      TwoDots(url, output);
    } else if Begins2(url, '/', '.') {
      OneDot(url, output);
    } else if url == "." || url == ".." {
      SpreadPlain(url, |url|);
      assert url[..|url|] == url;
    } else if Begins2(url, '/', '/') {
      RunIsRfcTail(url[1..], output);
    } else {
      var n := NextSlash(url, 1);
      MovedIsPlain(url, n);
      PushKeepsSegments(output, url[..n]);
      RunIsRfcTail(url[n..], output + [url[..n]]);
      SpreadSegment(url, n);
      SpreadHead(url[n..]);
      RfcMoves(url[..n], Spread(url[n..]), Flat(output));
      FlatSnoc(output, url[..n]);
    }
  }

  lemma RunTwoDots(url: string, output: seq<string>, next: string)
    requires Begins3(url, '/', '.', '.')
    requires next == if Begins4(url, '/', '.', '.', '/') then "/" + url[4..] else "/" + url[3..]
    ensures Run(url, output) == Run(next, Pop(output))
    ensures Spread(url) == if url == "/.." then "/.." else "/.." + Spread(next)
  {
    if Begins4(url, '/', '.', '.', '/') {
      assert url[3..] == next;
    }
    if url == "/.." {
      assert url[3..] == "";
    }
  }

  lemma {:induction false} TwoDots(url: string, output: seq<string>)
    requires Begins3(url, '/', '.', '.') && Ready(url, output)
    ensures Flat(Run(url, output)) == Rfc(Spread(url), Flat(output))
    decreases |url|, 0
  {
    var next := if Begins4(url, '/', '.', '.', '/') then "/" + url[4..] else "/" + url[3..];
    RunIsRfcTail(next, Pop(output));
    RemoveLastIsPop(output);
    if url == "/.." {
      RunTwoDots(url, output, next);
      assert Spread("/") == "/";
      RfcPops("", Flat(output));
    } else {
      SpreadHead(next);
      RunTwoDots(url, output, next);
      RfcPops(Spread(next), Flat(output));
    }
  }

  lemma RunOneDot(url: string, output: seq<string>, next: string)
    requires Begins2(url, '/', '.') && !Begins3(url, '/', '.', '.')
    requires next == if Begins3(url, '/', '.', '/') then "/" + url[3..] else "/" + url[2..]
    ensures Run(url, output) == Run(next, output)
    ensures Spread(url) == if url == "/." then "/." else "/." + Spread(next)
  {
    if Begins3(url, '/', '.', '/') {
      assert url[2..] == next;
    }
    if url == "/." {
      assert url[2..] == "";
    }
  }

  lemma {:induction false} OneDot(url: string, output: seq<string>)
    requires Begins2(url, '/', '.') && !Begins3(url, '/', '.', '.') && Ready(url, output)
    ensures Flat(Run(url, output)) == Rfc(Spread(url), Flat(output))
    decreases |url|, 0
  {
    var next := if Begins3(url, '/', '.', '/') then "/" + url[3..] else "/" + url[2..];
    RunIsRfcTail(next, output);
    RunOneDot(url, output, next);
    if url == "/." {
      assert Spread("/") == "/";
      RfcSkips("", Flat(output));
    } else {
      SpreadHead(next);
      RfcSkips(Spread(next), Flat(output));
    }
  }

  /** On every path the code computes RFC 3986's answer for the expanded path. */
  lemma NormalizeIsRfcOnExpanded(url: string)
    ensures Normalize(url) == Rfc(Expand(url), "")
  {
    RunIsRfc(url, []);
  }

  /** Every dot-led segment after a slash is exactly "." or "..", and no two slashes are adjacent. */
  predicate DotsAreWhole(u: string) {
    forall i :: 0 <= i < |u| - 1 && u[i] == '/' ==>
      u[i + 1] != '/' &&
      (u[i + 1] == '.' ==> Begins2(u[i + 1..], '.', '/') || Begins3(u[i + 1..], '.', '.', '/') || u[i + 1..] == "." || u[i + 1..] == "..")
  }

  lemma {:induction false} SpreadIdentity(u: string)
    requires DotsAreWhole(u)
    ensures Spread(u) == u
    decreases |u|
  {
    if u == "" {
    } else if Begins2(u, '/', '.') {
      assert u[1] == '.' && u[0] == '/';
      var k := if Begins3(u, '/', '.', '.') then 3 else 2;
      assert u[1..] == "." || u[1..] == ".." || Begins2(u[1..], '.', '/') || Begins3(u[1..], '.', '.', '/');
      assert |u| == k || u[k] == '/';
      DotsInTail(u, k);
      SpreadIdentity(u[k..]);
      assert u == u[..k] + u[k..];
    } else {
      assert !(Begins2(u, '/', '/'));
      DotsInTail(u, 1);
      SpreadIdentity(u[1..]);
    }
  }

  lemma DotsInTail(u: string, k: nat)
    requires DotsAreWhole(u) && k <= |u|
    ensures DotsAreWhole(u[k..])
  {
    forall i | 0 <= i < |u[k..]| - 1 && u[k..][i] == '/'
      ensures u[k..][i + 1] != '/'
      ensures u[k..][i + 1] == '.' ==>
        Begins2(u[k..][i + 1..], '.', '/') || Begins3(u[k..][i + 1..], '.', '.', '/') || u[k..][i + 1..] == "." || u[k..][i + 1..] == ".."
    {
      assert u[k..][i + 1..] == u[k + i + 1..];
    }
  }

  /** Where no segment is led by dots without being "." or "..", the code is RFC 3986's algorithm. */
  lemma {:induction false} NormalizeIsRfc(url: string)
    requires DotsAreWhole(url)
    ensures Normalize(url) == Rfc(url, "")
  {
    NormalizeIsRfcOnExpanded(url);
    ExpandIdentity(url);
  }

  lemma {:induction false} ExpandIdentity(u: string)
    requires DotsAreWhole(u)
    ensures Expand(u) == u
    decreases |u|
  {
    var k := if Begins3(u, '.', '.', '/') then 3 else if Begins2(u, '.', '/') then 2 else 0;
    DotsInTail(u, k);
    if k == 0 {
      SpreadIdentity(u);
    } else {
      ExpandIdentity(u[k..]);
      assert u == u[..k] + u[k..];
    }
  }
}

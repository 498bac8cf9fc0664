/** When requoting a URI twice changes nothing more: told from the parts between its percent signs. */
module RequoteSettling {
  import opened Results
  import opened Requote
  import opened RequoteMeaning

  /** The part starts with two hex digits that stand for an unreserved character. */
  predicate Freed(part: Uri) {
    |part| >= 2 && IsHex(part[0]) && IsHex(part[1]) && IsUnreserved(Decoded(part[0], part[1]))
  }

  /** The first characters, at most n, that unquoting puts in front of the next percent sign. */
  function Head(parts: seq<Uri>, n: nat): (h: string)
    ensures |h| <= n
    decreases |parts|
  {
    if n == 0 || parts == [] || !Freed(parts[0]) then ""
    else
      var own := [Decoded(parts[0][0], parts[0][1])] + parts[0][2..];
      if |own| >= n then own[..n] else own + Head(parts[1..], n - |own|)
  }

  /** Two characters after a percent sign that a second round would not leave alone. */
  predicate Loud(a: char, b: char) {
    IsAlnum(a) && IsAlnum(b) && (IsHex(a) && IsHex(b) ==> IsUnreserved(Decoded(a, b)))
  }

  /** A part too short for an escape, which decoded characters behind it fill up to one. */
  predicate ClosesUp(parts: seq<Uri>, i: nat)
    requires i < |parts|
  {
    |parts[i]| < 2 &&
    var t := parts[i] + Head(parts[i + 1..], 2 - |parts[i]|);
    |t| == 2 && Loud(t[0], t[1])
  }

  /** v goes on with h, and then with a percent sign unless h is long enough or v ends. */
  predicate Starts(v: string, h: string, n: nat) {
    && h <= v && '%' !in h && |h| <= n
    && (|h| < n ==> v == h || v[|h|] == '%')
  }

  lemma {:induction false} HeadStarts(parts: seq<Uri>, n: nat)
    requires UnquoteParts(parts).Some? && forall i :: 0 <= i < |parts| ==> '%' !in parts[i]
    ensures Starts(Concat(UnquoteParts(parts).value), Head(parts, n), n)
    decreases |parts|
  {
    if parts != [] && n > 0 {
      var piece, rest := UnquotePart(parts[0]).value, Concat(UnquoteParts(parts[1..]).value);
      assert Concat(UnquoteParts(parts).value) == piece + rest;
      if Freed(parts[0]) && |piece| < n {
        HeadStarts(parts[1..], n - |piece|);
        StartsBehind(piece, rest, Head(parts[1..], n - |piece|), n);
      }
    }
  }

  lemma StartsBehind(piece: string, rest: string, h: string, n: nat)
    requires '%' !in piece && |piece| <= n && Starts(rest, h, n - |piece|)
    ensures Starts(piece + rest, piece + h, n)
  {
    assert (piece + rest)[..|piece + h|] == piece + rest[..|h|];
  }

  lemma ShortPart(part: Uri, rest: string, h: string)
    requires |part| < 2 && '%' !in part && Starts(rest, h, 2 - |part|)
    ensures
      var t := part + h;
      Quiet("%" + part + rest) <==> !(|t| == 2 && Loud(t[0], t[1])) && Quiet(rest)
  {
    var s := "%" + part + rest;
    assert s[1..] == part + rest;
    NoPercent(part);
    QuietAppend(part, rest);
    StartsBehind(part, rest, h, 2);
    var t := part + h;
    assert forall i :: 0 <= i < |t| ==> s[i + 1] == t[i];
    assert |t| < 2 ==> |s| == |t| + 1 || s[|t| + 1] == '%';
  }

  lemma {:induction false} QuietPieces(parts: seq<Uri>)
    requires UnquoteParts(parts).Some? && forall i :: 0 <= i < |parts| ==> '%' !in parts[i]
    ensures Quiet(Concat(UnquoteParts(parts).value)) <==> forall i :: 0 <= i < |parts| ==> !ClosesUp(parts, i)
    decreases |parts|
  {
    if parts != [] {
      var part, tail := parts[0], parts[1..];
      var piece, rest := UnquotePart(part).value, Concat(UnquoteParts(tail).value);
      assert Concat(UnquoteParts(parts).value) == piece + rest;
      QuietPieces(tail);
      if |part| < 2 {
        HeadStarts(tail, 2 - |part|);
        ShortPart(part, rest, Head(tail, 2 - |part|));
      } else {
        PartMeaning(part);
        QuietAppend(piece, rest);
      }
      assert Quiet(piece + rest) <==> !ClosesUp(parts, 0) && Quiet(rest);
      LaterParts(parts);
    }
  }

  lemma LaterPart(parts: seq<Uri>, i: nat)
    requires i + 1 < |parts|
    ensures ClosesUp(parts[1..], i) <==> ClosesUp(parts, i + 1)
  {
    hide Head, Loud;
    assert parts[1..][i + 1..] == parts[i + 1 + 1..];
  }

  lemma LaterParts(parts: seq<Uri>)
    requires parts != []
    ensures (forall i :: 1 <= i < |parts| ==> !ClosesUp(parts, i)) <==>
            forall i :: 0 <= i < |parts[1..]| ==> !ClosesUp(parts[1..], i)
  {
    hide ClosesUp;
    if i :| 1 <= i < |parts| && ClosesUp(parts, i) {
      LaterPart(parts, i - 1);
    }
    if i :| 0 <= i < |parts[1..]| && ClosesUp(parts[1..], i) {
      LaterPart(parts, i);
    }
  }

  /** The part starts like an escape that is none. */
  predicate Malformed(part: Uri) {
    |part| >= 2 && IsAlnum(part[0]) && IsAlnum(part[1]) && !(IsHex(part[0]) && IsHex(part[1]))
  }

  lemma MalformedFails(part: Uri)
    ensures UnquotePart(part).None? <==> Malformed(part)
  {}

  lemma UnquoteValue(uri: Uri)
    ensures
      var parts := Split(uri);
      var pieces := UnquoteParts(parts[1..]);
      (Unquote(uri).None? <==> pieces.None?) &&
      (Unquote(uri).Some? ==> Unquote(uri).value == parts[0] + Concat(pieces.value))
  {
    hide Split, UnquoteParts, Concat;
  }

  lemma UnquoteFails(uri: Uri)
    ensures Unquote(uri).None? <==> exists i :: 1 <= i < |Split(uri)| && Malformed(Split(uri)[i])
  {
    hide Split, UnquotePart, UnquoteParts, Unquote, Malformed, Concat;
    UnquoteValue(uri);
    var parts := Split(uri);
    var tail := parts[1..];
    UnquotePartsAt(tail);
    if UnquoteParts(tail).None? {
      var i :| 0 <= i < |tail| && UnquotePart(tail[i]).None?;
      MalformedFails(tail[i]);
      assert Malformed(parts[i + 1]);
    }
    if i :| 1 <= i < |parts| && Malformed(parts[i]) {
      MalformedFails(tail[i - 1]);
    }
  }

  lemma QuietUnquoted(uri: Uri)
    requires Unquote(uri).Some?
    ensures
      var parts := Split(uri);
      Quiet(Unquote(uri).value) <==> forall i :: 1 <= i < |parts| ==> !ClosesUp(parts, i)
  {
    hide ClosesUp, Quiet, PercentAt, UnquotePart, Concat, Parted, Split, UnquoteParts, Unquote;
    var parts := Split(uri);
    var tail := parts[1..];
    UnquoteValue(uri);
    assert forall i :: 0 <= i < |tail| ==> tail[i] == parts[i + 1];
    var rest := Concat(UnquoteParts(tail).value);
    assert Quiet(rest) <==> forall i :: 1 <= i < |parts| ==> !ClosesUp(parts, i) by {
      QuietPieces(tail);
      LaterParts(parts);
    }
    NoPercent(parts[0]);
    PlainParted(parts[0], rest);
    QuietAppend(parts[0], rest);
  }

  lemma PlainParted(a: string, b: string)
    requires '%' !in a
    ensures Parted(a, b)
  {}

  /** Requoting twice is requoting once exactly when some escape is malformed, or behind no percent sign that has less
      than two characters of its own do decoded characters close up to an escape. */
  lemma RequoteSettles(uri: Uri)
    ensures
      var parts := Split(uri);
      RequoteUri(RequoteUri(uri)) == RequoteUri(uri) <==>
      (exists i :: 1 <= i < |parts| && Malformed(parts[i])) || (forall i :: 1 <= i < |parts| ==> !ClosesUp(parts, i))
    ensures Legal(RequoteUri(uri))
    ensures Quiet(RequoteUri(uri)) <==> RequoteUri(RequoteUri(uri)) == RequoteUri(uri)
  {
    hide *;
    SettledIffQuiet(uri);
    UnquoteFails(uri);
    if Unquote(uri).Some? {
      QuietUnquoted(uri);
    }
  }

  lemma SplitFirst(head: Uri, tail: Uri)
    requires '%' !in head
    ensures Split(head) == [head]
    ensures
      var s: Uri := head + "%" + tail;
      Split(s) == [head] + Split(tail)
  {
    assert PercentAt(head, 0) == |head|;
    var s: Uri := head + "%" + tail;
    assert s[|head|] == '%' && forall i :: 0 <= i < |head| ==> s[i] == head[i];
    assert PercentAt(s, 0) == |head| && s[..|head|] == head && s[|head| + 1..] == tail;
  }

  lemma QuoteLegal(s: Uri)
    requires forall i :: 0 <= i < |s| ==> Keeps(s[i], true)
    ensures Quote(s, true) == s
  {
    QuoteIsLegal(s, true);
  }

  lemma UnquoteCons(part: Uri, piece: Uri, rest: seq<Uri>, pieces: seq<Uri>)
    requires UnquotePart(part) == Some(piece) && UnquoteParts(rest) == Some(pieces)
    ensures UnquoteParts([part] + rest) == Some([piece] + pieces)
    ensures Concat([piece] + pieces) == piece + Concat(pieces)
  {
    assert ([part] + rest)[1..] == rest && ([piece] + pieces)[1..] == pieces;
  }

  lemma UnquoteOfParts(uri: Uri, head: Uri, rest: seq<Uri>, pieces: seq<Uri>)
    requires Split(uri) == [head] + rest && UnquoteParts(rest) == Some(pieces)
    ensures Unquote(uri) == Some(head + Concat(pieces))
  {
    hide Split, UnquoteParts, Concat;
    assert ([head] + rest)[1..] == rest;
  }

  lemma SplitMark(tail: Uri)
    ensures Split("%" + tail) == [""] + Split(tail)
  {
    SplitFirst("", tail);
    assert "" + "%" + tail == "%" + tail;
  }

  /** A text after one percent sign. */
  lemma UnquoteOne(part: Uri, piece: Uri)
    requires '%' !in part && UnquotePart(part) == Some(piece)
    ensures Unquote("%" + part) == Some(piece)
  {
    SplitMark(part);
    SplitFirst(part, "");
    UnquoteCons(part, piece, [], []);
    assert [part] + [] == [part] && piece + "" == piece && "" + piece == piece;
    hide Split, UnquoteParts, UnquotePart;
    UnquoteOfParts("%" + part, "", [part], [piece] + []);
  }

  /** Texts after two percent signs that follow each other. */
  lemma SplitThree(e: Uri, f: Uri)
    requires '%' !in e && '%' !in f
    ensures Split("%" + ("%" + (e + "%" + f))) == [""] + ([""] + ([e] + ([f] + [])))
  {
    hide Split;
    SplitFirst(f, "");
    SplitFirst(e, f);
    SplitMark(e + "%" + f);
    SplitMark("%" + (e + "%" + f));
    assert [f] + [] == [f];
  }

  lemma RequoteOf(uri: Uri, v: Uri)
    requires Unquote(uri) == Some(v) && forall i :: 0 <= i < |v| ==> Keeps(v[i], true)
    ensures RequoteUri(uri) == v
  {
    QuoteLegal(v);
  }

  lemma UnquoteThree(e: Uri, f: Uri, c: char, d: char)
    requires '%' !in e && '%' !in f && c < 128 as char && d < 128 as char
    requires UnquotePart(e) == Some([c]) && UnquotePart(f) == Some([d])
    ensures Unquote("%" + ("%" + (e + "%" + f))) == Some(['%', c, d])
  {
    SplitThree(e, f);
    assert UnquotePart("") == Some("%") by { assert "%" + "" == "%"; }
    UnquoteCons(f, [d], [], []);
    UnquoteCons(e, [c], [f] + [], [[d]] + []);
    UnquoteCons("", "%", [e] + ([f] + []), [[c]] + ([[d]] + []));
    assert Concat([]) == "";
    hide Split, UnquoteParts, UnquotePart, Concat;
    assert "" + ("%" + ([c] + ([d] + ""))) == ['%', c, d];
    UnquoteOfParts("%" + ("%" + (e + "%" + f)), "", [""] + ([e] + ([f] + [])), ["%"] + ([[c]] + ([[d]] + [])));
  }

  lemma EscapePart(e: Uri)
    requires |e| == 2 && IsHex(e[0]) && IsHex(e[1]) && IsUnreserved(Decoded(e[0], e[1]))
    ensures UnquotePart(e) == Some([Decoded(e[0], e[1])]) && '%' !in e
  {
    var c := Decoded(e[0], e[1]);
    assert [c] + e[2..] == [c];
    assert e == [e[0]] + [e[1]];
  }

  lemma PlainKept(c: char)
    requires IsHex(c) || IsUnreserved(c)
    ensures Keeps(c, true) && c < 128 as char
  {}

  lemma HexUnreserved(c: char)
    requires IsHex(c)
    ensures IsUnreserved(c)
  {}

  /** One or two characters after a percent sign and before the next are not enough: decoded digits can close up behind
      it to a new escape, as the two in %%34%31 do, and then two rounds are needed. */
  lemma ShortEscapeUnsettled(e: Uri, f: Uri, c: char, d: char)
    requires |e| == 2 && IsHex(e[0]) && IsHex(e[1]) && |f| == 2 && IsHex(f[0]) && IsHex(f[1])
    requires c == Decoded(e[0], e[1]) && d == Decoded(f[0], f[1])
    requires IsHex(c) && IsHex(d) && IsUnreserved(Decoded(c, d))
    ensures
      var uri: Uri := "%" + ("%" + (e + "%" + f));
      RequoteUri(uri) == ['%', c, d] && RequoteUri(RequoteUri(uri)) == [Decoded(c, d)]
  {
    hide Unquote, RequoteUri, Decoded, Keeps, UnquotePart;
    HexUnreserved(c);
    HexUnreserved(d);
    FirstRound(e, f, c, d);
    SecondRound(c, d);
  }

  lemma FirstRound(e: Uri, f: Uri, c: char, d: char)
    requires |e| == 2 && IsHex(e[0]) && IsHex(e[1]) && |f| == 2 && IsHex(f[0]) && IsHex(f[1])
    requires c == Decoded(e[0], e[1]) && d == Decoded(f[0], f[1]) && IsUnreserved(c) && IsUnreserved(d)
    ensures c < 128 as char && d < 128 as char && RequoteUri("%" + ("%" + (e + "%" + f))) == ['%', c, d]
  {
    assert Keeps('%', true);
    hide *;
    PlainKept(c);
    PlainKept(d);
    EscapePart(e);
    EscapePart(f);
    UnquoteThree(e, f, c, d);
    RequoteOf("%" + ("%" + (e + "%" + f)), ['%', c, d]);
  }

  lemma SecondRound(c: char, d: char)
    requires IsHex(c) && IsHex(d) && IsUnreserved(Decoded(c, d)) && c < 128 as char && d < 128 as char
    ensures RequoteUri(['%', c, d]) == [Decoded(c, d)]
  {
    hide Unquote, RequoteUri, Decoded, Keeps, UnquotePart, IsHex, IsUnreserved;
    PlainKept(Decoded(c, d));
    EscapePart([c, d]);
    UnquoteOne([c, d], [Decoded(c, d)]);
    assert "%" + [c, d] == ['%', c, d];
    RequoteOf("%" + [c, d], [Decoded(c, d)]);
  }

  // ----- When requoting keeps the meaning

  /** A part too short for an escape, which decoded characters behind it fill up to two hex digits. */
  predicate ClosesHex(parts: seq<Uri>, i: nat)
    requires i < |parts|
  {
    |parts[i]| < 2 &&
    var t := parts[i] + Head(parts[i + 1..], 2 - |parts[i]|);
    |t| == 2 && IsHex(t[0]) && IsHex(t[1])
  }

  lemma LaterHex(parts: seq<Uri>, i: nat)
    requires i + 1 < |parts|
    ensures ClosesHex(parts[1..], i) <==> ClosesHex(parts, i + 1)
  {
    hide Head;
    assert parts[1..][i + 1..] == parts[i + 1 + 1..];
  }

  lemma LaterHexes(parts: seq<Uri>)
    requires parts != []
    ensures (forall i :: 1 <= i < |parts| ==> !ClosesHex(parts, i)) <==>
            forall i :: 0 <= i < |parts[1..]| ==> !ClosesHex(parts[1..], i)
  {
    hide ClosesHex;
    if i :| 1 <= i < |parts| && ClosesHex(parts, i) {
      LaterHex(parts, i - 1);
    }
    if i :| 0 <= i < |parts[1..]| && ClosesHex(parts[1..], i) {
      LaterHex(parts, i);
    }
  }

  lemma {:induction false} PlainDecodes(a: string, b: string)
    requires '%' !in a
    ensures Decode(a + b) == a + Decode(b)
    decreases |a|
  {
    NoPercent(a);
    PlainParted(a, b);
    DecodeAppend(a, b);
  }

  lemma ShortTriplet(part: Uri, rest: string, h: string)
    requires |part| < 2 && '%' !in part && Starts(rest, h, 2 - |part|)
    ensures
      var t := part + h;
      && (Triplet("%" + part + rest) <==> |t| == 2 && IsHex(t[0]) && IsHex(t[1]))
      && (|t| == 2 ==> ("%" + part + rest)[3..] == rest[|h|..])
  {
    var s, t := "%" + part + rest, part + h;
    StartsBehind(part, rest, h, 2);
    assert s[1..] == part + rest;
    assert forall i :: 0 <= i < |t| ==> s[i + 1] == t[i];
    assert |t| < 2 ==> |s| == |t| + 1 || s[|t| + 1] == '%';
  }

  lemma LoneSign(s: string, rest: string)
    requires s != "" && s[0] == '%' && !Triplet(s) && s[1..] == rest
    ensures Decode(s) == "%" + Decode(rest)
  {
  }

  lemma OneTriplet(s: string, rest: string)
    requires Triplet(s) && s[3..] == rest
    ensures |Decode(s)| == 1 + |Decode(rest)|
  {
  }

  lemma StartSplits(v: string, h: string, n: nat)
    requires Starts(v, h, n)
    ensures v == h + v[|h|..] && '%' !in h && |h| <= n
  {
  }

  /** What a percent sign with less than two characters of its own means before what unquoting puts behind it. */
  lemma ShortDecodes(part: Uri, rest: string, h: string)
    requires |part| < 2 && '%' !in part && Starts(rest, h, 2 - |part|)
    ensures
      var t := part + h;
      if |t| == 2 && IsHex(t[0]) && IsHex(t[1]) then |Decode("%" + part + rest)| + 2 == |Decode(rest)| + |part| + 1
      else Decode("%" + part + rest) == "%" + part + Decode(rest)
  {
    hide *;
    ShortTriplet(part, rest, h);
    StartSplits(rest, h, 2 - |part|);
    var s := "%" + part + rest;
    if Triplet(s) {
      OneTriplet(s, rest[|h|..]);
      PlainDecodes(h, rest[|h|..]);
    } else {
      assert s[1..] == part + rest;
      LoneSign(s, part + rest);
      PlainDecodes(part, rest);
      Prefixed("%", part, Decode(rest));
    }
  }

  lemma LoneDecodes(part: Uri, tail: string)
    requires |part| < 2 && '%' !in part && (tail == "" || tail[0] == '%')
    ensures Decode("%" + part + tail) == "%" + part + Decode(tail)
  {
    assert Starts(tail, "", 2 - |part|);
    ShortDecodes(part, tail, "");
    assert part + "" == part;
  }

  /** The one text means what the other does, or less. */
  predicate Means(v: string, u: string, same: bool) {
    if same then Decode(v) == Decode(u) else |Decode(v)| < |Decode(u)|
  }

  lemma ShortStep(part: Uri, rest: string, marked: string, h: string, same: bool)
    requires |part| < 2 && '%' !in part && Starts(rest, h, 2 - |part|) && (marked == "" || marked[0] == '%')
    requires Means(rest, marked, same)
    ensures
      var t := part + h;
      Means("%" + part + rest, "%" + part + marked, same && !(|t| == 2 && IsHex(t[0]) && IsHex(t[1])))
  {
    ShortDecodes(part, rest, h);
    LoneDecodes(part, marked);
    hide Decode, Starts;
  }

  lemma LongStep(part: Uri, piece: string, rest: string, marked: string, same: bool)
    requires '%' !in part && |part| >= 2 && UnquotePart(part) == Some(piece) && (marked == "" || marked[0] == '%')
    requires Means(rest, marked, same)
    ensures Means(piece + rest, "%" + part + marked, same)
  {
    PartMeaning(part);
    DecodeAppend(piece, rest);
    DecodeAppend("%" + part, marked);
    hide Decode, UnquotePart;
  }

  /** Every percent sign that closes up takes from the meaning. */
  lemma {:induction false} PiecesDecode(parts: seq<Uri>)
    requires UnquoteParts(parts).Some? && forall i :: 0 <= i < |parts| ==> '%' !in parts[i]
    ensures Means(Concat(UnquoteParts(parts).value), Concat(Marked(parts)), forall i :: 0 <= i < |parts| ==> !ClosesHex(parts, i))
    decreases |parts|
  {
    if parts == [] {
      assert Marked(parts) == [];
    } else {
      var part, tail := parts[0], parts[1..];
      var piece, rest, marked := UnquotePart(part).value, Concat(UnquoteParts(tail).value), Concat(Marked(tail));
      assert Concat(UnquoteParts(parts).value) == piece + rest;
      hide Means, Marked, Decode;
      MarkedCons(parts);
      TailMarked(tail);
      PiecesDecode(tail);
      var same := forall i :: 0 <= i < |tail| ==> !ClosesHex(tail, i);
      LaterHexes(parts);
      assert (forall i :: 0 <= i < |parts| ==> !ClosesHex(parts, i)) <==> same && !ClosesHex(parts, 0);
      if |part| < 2 {
        HeadStarts(tail, 2 - |part|);
        ShortStep(part, rest, marked, Head(tail, 2 - |part|), same);
      } else {
        LongStep(part, piece, rest, marked, same);
      }
    }
  }

  /** If no escape is malformed, requoting keeps the decoded meaning exactly when behind no percent sign that has less than
      two characters of its own do decoded characters close up to two hex digits; otherwise it takes the URI literally. */
  lemma RequoteDecodesIff(uri: Uri)
    ensures
      var parts := Split(uri);
      if exists i :: 1 <= i < |parts| && Malformed(parts[i]) then Decode(RequoteUri(uri)) == uri
      else Decode(RequoteUri(uri)) == Decode(uri) <==> forall i :: 1 <= i < |parts| ==> !ClosesHex(parts, i)
  {
    hide *;
    UnquoteFails(uri);
    RequoteCases(uri);
    if Unquote(uri).Some? {
      UnquotedDecodes(uri);
      QuoteKeepsMeaning(Unquote(uri).value);
    } else {
      QuoteLiterally(uri);
    }
  }

  lemma UnquotedDecodes(uri: Uri)
    requires Unquote(uri).Some?
    ensures
      var parts := Split(uri);
      Decode(Unquote(uri).value) == Decode(uri) <==> forall i :: 1 <= i < |parts| ==> !ClosesHex(parts, i)
  {
    hide ClosesHex, Decode, PercentAt, UnquotePart, Concat, Parted, Split, UnquoteParts, Unquote, Marked;
    var parts := Split(uri);
    var tail := parts[1..];
    UnquoteValue(uri);
    SplitJoins(uri);
    assert forall i :: 0 <= i < |tail| ==> tail[i] == parts[i + 1];
    PiecesDecode(tail);
    LaterHexes(parts);
    PlainDecodes(parts[0], Concat(UnquoteParts(tail).value));
    PlainDecodes(parts[0], Concat(Marked(tail)));
  }

  /** What the two decoded digits behind a lone percent sign stood for is lost, as in %%34%31. */
  lemma ShortEscapeLosesMeaning(e: Uri, f: Uri, c: char, d: char)
    requires |e| == 2 && IsHex(e[0]) && IsHex(e[1]) && |f| == 2 && IsHex(f[0]) && IsHex(f[1])
    requires c == Decoded(e[0], e[1]) && d == Decoded(f[0], f[1]) && IsHex(c) && IsHex(d)
    ensures
      var uri: Uri := "%" + ("%" + (e + "%" + f));
      Decode(uri) == ['%', c, d] && Decode(RequoteUri(uri)) == [Decoded(c, d)]
  {
    HexUnreserved(c);
    HexUnreserved(d);
    hide Unquote, RequoteUri, Decoded, Keeps, UnquotePart;
    FirstRound(e, f, c, d);
    var uri: Uri := "%" + ("%" + (e + "%" + f));
    var inner := e + "%" + f;
    assert uri[1..] == "%" + inner && (("%" + inner)[3..] == "%" + f) && ("%" + f)[3..] == "";
    assert Triplet("%" + inner) && Triplet("%" + f) && !Triplet(uri);
    assert Decode("%" + f) == [d] && Decode("%" + inner) == [c] + [d] && Decode(uri) == ['%'] + ([c] + [d]);
    assert ['%', c, d][3..] == "";
  }
}

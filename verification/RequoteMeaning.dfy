/** Requoting keeps what a URI means, and settles it (section 6.2.2.2 of RFC 3986). */
module RequoteMeaning {
  import opened Results
  import opened Requote

  predicate Triplet(s: string) {
    |s| >= 3 && s[0] == '%' && IsHex(s[1]) && IsHex(s[2])
  }

  /** Percent-decoding; a percent sign without two hex digits stands for itself. */
  function Decode(s: string): string {
    if s == "" then ""
    else if Triplet(s) then [Decoded(s[1], s[2])] + Decode(s[3..])
    else [s[0]] + Decode(s[1..])
  }

  /** The start of s makes unquoting change nothing: no encoded unreserved character, no malformed escape. */
  predicate QuietHere(s: string) {
    |s| >= 3 && s[0] == '%' && IsAlnum(s[1]) && IsAlnum(s[2]) ==>
      IsHex(s[1]) && IsHex(s[2]) && !IsUnreserved(Decoded(s[1], s[2]))
  }

  predicate Quiet(s: string) {
    s != "" ==> QuietHere(s) && Quiet(s[1..])
  }

  /** No escape can begin in a and end in b. */
  predicate Parted(a: string, b: string) {
    b == "" || b[0] == '%' || forall i :: 0 <= i < |a| && |a| - 2 <= i ==> a[i] != '%'
  }

  lemma PartedTail(a: string, b: string)
    requires Parted(a, b)
    ensures a != "" ==> Parted(a[1..], b)
    ensures |a| >= 3 ==> Parted(a[3..], b)
  {
  }

  lemma Prefixed(h: string, x: string, y: string)
    ensures h + (x + y) == (h + x) + y
  {
  }

  lemma {:induction false} DecodeAppend(a: string, b: string)
    requires Parted(a, b)
    ensures Decode(a + b) == Decode(a) + Decode(b)
    decreases |a|
  {
    if a == "" {
      assert a + b == b;
    } else {
      PartedTail(a, b);
      assert Triplet(a + b) <==> Triplet(a);
      if Triplet(a) {
        assert (a + b)[3..] == a[3..] + b;
        DecodeAppend(a[3..], b);
        assert Decode(a + b) == [Decoded(a[1], a[2])] + Decode(a[3..] + b);
        hide Parted, Decode, Triplet, Decoded;
        Prefixed([Decoded(a[1], a[2])], Decode(a[3..]), Decode(b));
      } else {
        assert (a + b)[1..] == a[1..] + b;
        DecodeAppend(a[1..], b);
        assert Decode(a + b) == [a[0]] + Decode(a[1..] + b);
        hide Parted, Decode, Triplet, Decoded;
        Prefixed([a[0]], Decode(a[1..]), Decode(b));
      }
    }
  }

  lemma {:induction false} QuietAppend(a: string, b: string)
    requires Parted(a, b)
    ensures Quiet(a + b) <==> Quiet(a) && Quiet(b)
    decreases |a|
  {
    if a == "" {
      assert a + b == b;
    } else {
      PartedTail(a, b);
      assert (a + b)[1..] == a[1..] + b;
      QuietAppend(a[1..], b);
      assert QuietHere(a + b) <==> QuietHere(a);
    }
  }

  lemma {:induction false} NoPercent(s: string)
    requires '%' !in s
    ensures Decode(s) == s && Quiet(s)
    decreases |s|
  {
    if s != "" {
      NoPercent(s[1..]);
      assert s == [s[0]] + s[1..];
    }
  }

  // ----- Quoting

  lemma {:induction false} QuoteFirst(s: Uri)
    ensures s == "" <==> Quote(s, true) == ""
    ensures s != "" ==> Quote(s, true)[0] == if Keeps(s[0], true) then s[0] else '%'
  {
  }

  lemma EscapeOf(c: char, percent: bool)
    requires c < 128 as char && !Keeps(c, percent)
    ensures
      var q := QuoteChar(c, percent);
      |q| == 3 && q[0] == '%' && IsHex(q[1]) && IsHex(q[2]) && Decoded(q[1], q[2]) == c && !IsUnreserved(c)
  {
  }

  /** Quoting an illegal character does not change the meaning; percent signs stay. */
  lemma {:induction false} QuoteKeepsMeaning(s: Uri)
    ensures Decode(Quote(s, true)) == Decode(s)
    ensures Quiet(s) <==> Quiet(Quote(s, true))
    decreases |s|
  {
    if s != "" {
      QuoteKeepsMeaning(s[1..]);
      var q, rest := QuoteChar(s[0], true), Quote(s[1..], true);
      if !Keeps(s[0], true) {
        EscapeOf(s[0], true);
        QuotedEscape(s[0], q, rest);
      } else {
        assert q == [s[0]];
        QuotedKept(s, rest);
      }
    }
  }

  lemma QuotedEscape(c: char, q: string, rest: string)
    requires |q| == 3 && q[0] == '%' && IsHex(q[1]) && IsHex(q[2]) && Decoded(q[1], q[2]) == c && !IsUnreserved(c)
    ensures Decode(q + rest) == [c] + Decode(rest)
    ensures Quiet(rest) <==> Quiet(q + rest)
  {
    var a := q + rest;
    var b := a[1..];
    var d := b[1..];
    assert a[3..] == rest;
    assert d[1..] == rest && b[0] == q[1] && d[0] == q[2];
    assert Quiet(a) <==> Quiet(b);
    assert Quiet(b) <==> Quiet(d);
    assert Quiet(d) <==> Quiet(rest);
  }

  /** A character after a kept one is the same, or the escape of an illegal one breaks in. */
  lemma NextQuoted(s: Uri)
    requires s != ""
    ensures
      var q := Quote(s, true);
      if Keeps(s[0], true) then q == [s[0]] + Quote(s[1..], true) else q != "" && q[0] == '%'
  {
  }

  lemma IllegalIsNoDigit(c: char)
    ensures IsAlnum(c) ==> Keeps(c, true)
  {
  }

  /** The first two characters after a kept one are the same, or the escape of an illegal one breaks in. */
  lemma KeptStart(s: Uri, rest: string)
    requires s != "" && rest == Quote(s[1..], true)
    ensures Triplet([s[0]] + rest) <==> Triplet(s)
    ensures Triplet(s) ==> rest[..2] == s[1..3]
    ensures QuietHere(s) <==> QuietHere([s[0]] + rest)
  {
    if |s| == 1 {
      QuoteFirst(s[1..]);
    } else {
      NextQuoted(s[1..]);
      IllegalIsNoDigit(s[1]);
      assert s[1..][1..] == s[2..];
      if |s| == 2 {
        QuoteFirst(s[2..]);
      } else {
        NextQuoted(s[2..]);
        IllegalIsNoDigit(s[2]);
      }
      hide Quote, Keeps, Decoded, IsUnreserved;
      assert Keeps(s[1], true) ==> rest[1..] == Quote(s[2..], true);
    }
  }

  lemma DecodeTwo(s: string)
    requires |s| >= 2 && s[0] != '%' && s[1] != '%'
    ensures Decode(s) == s[..2] + Decode(s[2..])
  {
    assert s[1..][1..] == s[2..];
    assert Decode(s) == [s[0]] + Decode(s[1..]) && Decode(s[1..]) == [s[1]] + Decode(s[2..]);
    hide Decode, Triplet;
    assert s[..2] == [s[0]] + [s[1]];
    Prefixed([s[0]], [s[1]], Decode(s[2..]));
  }

  lemma QuotedKept(s: Uri, rest: string)
    requires s != "" && Keeps(s[0], true) && rest == Quote(s[1..], true)
    requires Decode(rest) == Decode(s[1..]) && (Quiet(s[1..]) <==> Quiet(rest))
    ensures Decode([s[0]] + rest) == Decode(s)
    ensures Quiet(s) <==> Quiet([s[0]] + rest)
  {
    var t := [s[0]] + rest;
    KeptStart(s, rest);
    assert t[1..] == rest;
    hide Quote, Keeps;
    if Triplet(s) {
      assert rest[0] == rest[..2][0] == s[1..3][0] == s[1] && rest[1] == rest[..2][1] == s[1..3][1] == s[2];
      DecodeTwo(rest);
      DecodeTwo(s[1..]);
      assert t[3..] == rest[2..] && s[1..][2..] == s[3..] && s[1..][..2] == s[1..3];
      assert Decode(rest)[2..] == Decode(rest[2..]) && Decode(s[1..])[2..] == Decode(s[3..]);
    }
  }

  lemma PlainFirst(c: char, rest: string)
    requires c != '%'
    ensures Decode([c] + rest) == [c] + Decode(rest) && (Quiet([c] + rest) <==> Quiet(rest))
  {
    assert ([c] + rest)[1..] == rest;
  }

  lemma QuoteLiteralStep(s: Uri)
    requires s != ""
    ensures
      var rest := Quote(s[1..], false);
      if Keeps(s[0], false) then s[0] != '%' && Quote(s, false) == [s[0]] + rest
      else Quote(s, false) == QuoteChar(s[0], false) + rest
  {
  }

  /** Quoting percent signs too leaves a text that means the URI literally. */
  lemma {:induction false} QuoteLiterally(s: Uri)
    ensures Decode(Quote(s, false)) == s && Quiet(Quote(s, false))
    decreases |s|
  {
    if s == "" {
      NoPercent("");
    } else {
      hide Decode, Quiet, Keeps, QuoteChar, Quote, IsUnreserved, Decoded;
      QuoteLiterally(s[1..]);
      QuoteLiteralStep(s);
      var rest := Quote(s[1..], false);
      assert s == [s[0]] + s[1..];
      if Keeps(s[0], false) {
        PlainFirst(s[0], rest);
      } else {
        EscapeOf(s[0], false);
        QuotedEscape(s[0], QuoteChar(s[0], false), rest);
      }
    }
  }

  // ----- Unquoting

  /** After every percent sign there are two characters before the next. */
  predicate NoneShort(uri: Uri) {
    forall i :: 1 <= i < |Split(uri)| ==> |Split(uri)[i]| >= 2
  }

  lemma PartMeaning(part: Uri)
    requires '%' !in part && |part| >= 2 && UnquotePart(part).Some?
    ensures
      var piece := UnquotePart(part).value;
      && Decode(piece) == Decode("%" + part) && Quiet(piece)
      && forall i :: 0 <= i < |piece| && |piece| - 2 <= i ==> piece[i] != '%'
  {
    var piece := UnquotePart(part).value;
    if piece == "%" + part {
      KeptPart(part);
    } else {
      hide Decode, Quiet;
      FreedPart(part, piece);
    }
  }

  lemma KeptPart(part: Uri)
    requires '%' !in part && |part| >= 2 && UnquotePart(part) == Some("%" + part)
    ensures Quiet("%" + part)
    ensures forall i :: 0 <= i < |"%" + part| && |"%" + part| - 2 <= i ==> ("%" + part)[i] != '%'
  {
    hide Decode;
    NoPercent(part);
    assert ("%" + part)[1..] == part;
  }

  lemma FreedPart(part: Uri, piece: Uri)
    requires '%' !in part && |part| >= 2 && IsHex(part[0]) && IsHex(part[1])
    requires piece == [Decoded(part[0], part[1])] + part[2..] && IsUnreserved(Decoded(part[0], part[1]))
    ensures Decode(piece) == Decode("%" + part) && Quiet(piece) && '%' !in piece
  {
    hide Decoded, Quiet;
    assert '%' !in part[2..] && '%' !in piece;
    NoPercent(part[2..]);
    NoPercent(piece);
    assert ("%" + part)[3..] == part[2..];
  }

  lemma {:induction false} PiecesMeaning(parts: seq<Uri>)
    requires UnquoteParts(parts).Some?
    requires forall i :: 0 <= i < |parts| ==> '%' !in parts[i] && |parts[i]| >= 2
    ensures
      var v := Concat(UnquoteParts(parts).value);
      Decode(v) == Decode(Concat(Marked(parts))) && Quiet(v)
    decreases |parts|
  {
    if parts == [] {
      assert Marked(parts) == [];
    } else {
      PiecesMeaning(parts[1..]);
      PartMeaning(parts[0]);
      var piece, rest := UnquotePart(parts[0]).value, Concat(UnquoteParts(parts[1..]).value);
      MarkedCons(parts);
      var marked, tail := "%" + parts[0], Concat(Marked(parts[1..]));
      assert Parted(marked, tail) by { TailMarked(parts[1..]); }
      DecodeAppend(piece, rest);
      QuietAppend(piece, rest);
      DecodeAppend(marked, tail);
    }
  }

  lemma TailMarked(parts: seq<Uri>)
    ensures parts == [] ==> Concat(Marked(parts)) == ""
    ensures parts != [] ==> Concat(Marked(parts)) != "" && Concat(Marked(parts))[0] == '%'
  {
    if parts != [] { MarkedCons(parts); }
  }

  /** Unquoting keeps the meaning, and leaves nothing more to unquote. */
  lemma UnquoteKeepsMeaning(uri: Uri)
    requires NoneShort(uri) && Unquote(uri).Some?
    ensures Decode(Unquote(uri).value) == Decode(uri) && Quiet(Unquote(uri).value)
  {
    var parts := Split(uri);
    SplitJoins(uri);
    assert forall i :: 0 <= i < |parts[1..]| ==> parts[1..][i] == parts[i + 1];
    PiecesMeaning(parts[1..]);
    NoPercent(parts[0]);
    var pieces := Concat(UnquoteParts(parts[1..]).value);
    DecodeAppend(parts[0], pieces);
    QuietAppend(parts[0], pieces);
    DecodeAppend(parts[0], Concat(Marked(parts[1..])));
  }

  /** Every percent sign starts an escape. */
  predicate WellFormed(uri: Uri) {
    forall i :: 0 <= i < |uri| && uri[i] == '%' ==> Triplet(uri[i..])
  }

  lemma {:induction false} WellFormedParts(uri: Uri, i: nat)
    requires WellFormed(uri) && 1 <= i < |Split(uri)|
    ensures |Split(uri)[i]| >= 2 && IsHex(Split(uri)[i][0]) && IsHex(Split(uri)[i][1])
    decreases |uri|
  {
    var n := PercentAt(uri, 0);
    SplitStep(uri);
    hide Split, PercentAt, Triplet;
    var rest: Uri := uri[n + 1..];
    WellFormedRest(uri, n);
    hide WellFormed;
    if i > 1 {
      WellFormedParts(rest, i - 1);
    } else {
      HexStart(rest);
    }
  }

  lemma SplitStep(uri: Uri)
    ensures
      var n := PercentAt(uri, 0);
      Split(uri) == if n == |uri| then [uri] else [uri[..n]] + Split(uri[n + 1..])
  {
  }

  lemma WellFormedRest(uri: Uri, n: nat)
    requires WellFormed(uri) && n < |uri| && uri[n] == '%'
    ensures
      var rest := uri[n + 1..];
      WellFormed(rest) && |rest| >= 2 && IsHex(rest[0]) && IsHex(rest[1])
  {
    var rest := uri[n + 1..];
    forall k | 0 <= k < |rest| && rest[k] == '%' ensures Triplet(rest[k..]) {
      assert rest[k..] == uri[k + n + 1..];
    }
    assert Triplet(uri[n..]) && rest[0] == uri[n..][1] && rest[1] == uri[n..][2];
  }

  lemma HexStart(rest: Uri)
    requires |rest| >= 2 && IsHex(rest[0]) && IsHex(rest[1])
    ensures
      var part := Split(rest)[0];
      |part| >= 2 && IsHex(part[0]) && IsHex(part[1])
  {
    assert PercentAt(rest, 0) >= 2;
    assert Split(rest)[0] == rest[..PercentAt(rest, 0)];
  }

  lemma WellFormedUnquotes(uri: Uri)
    requires WellFormed(uri)
    ensures NoneShort(uri) && Unquote(uri).Some?
  {
    var parts := Split(uri);
    forall i | 1 <= i < |parts|
      ensures |parts[i]| >= 2 && UnquotePart(parts[i]).Some?
    {
      WellFormedParts(uri, i);
    }
    assert forall i :: 0 <= i < |parts[1..]| ==> parts[1..][i] == parts[i + 1];
    UnquotePartsAt(parts[1..]);
  }

  // ----- Texts that requoting leaves alone

  predicate Legal(s: string) {
    forall i :: 0 <= i < |s| ==> Keeps(s[i], true)
  }

  lemma {:induction false} QuoteIsLegal(s: Uri, percent: bool)
    ensures Legal(Quote(s, percent)) && |Quote(s, percent)| >= |s|
    ensures Quote(s, percent) == s <==> forall i :: 0 <= i < |s| ==> Keeps(s[i], percent)
    decreases |s|
  {
    if s != "" {
      QuoteIsLegal(s[1..], percent);
      var q, rest := QuoteChar(s[0], percent), Quote(s[1..], percent);
      assert s == [s[0]] + s[1..];
      assert Legal(q);
      if Keeps(s[0], percent) {
        assert q + rest == s ==> rest == (q + rest)[1..] == s[1..];
      } else {
        assert |q + rest| > |s|;
      }
    }
  }

  lemma PartUnchanged(part: Uri)
    requires '%' !in part
    ensures UnquotePart(part) == Some("%" + part) <==> Quiet("%" + part)
    ensures UnquotePart(part).Some? ==>
      |UnquotePart(part).value| <= |part| + 1 && (|UnquotePart(part).value| == |part| + 1 ==> UnquotePart(part).value == "%" + part)
    ensures UnquotePart(part).Some? && Legal(part) ==> Legal(UnquotePart(part).value)
  {
    assert ("%" + part)[1..] == part;
    NoPercent(part);
  }

  lemma {:induction false} PartsUnchanged(parts: seq<Uri>)
    requires forall i :: 0 <= i < |parts| ==> '%' !in parts[i]
    ensures UnquoteParts(parts) == Some(Marked(parts)) <==> Quiet(Concat(Marked(parts)))
    ensures UnquoteParts(parts).Some? ==>
      var v := Concat(UnquoteParts(parts).value);
      && |v| <= |Concat(Marked(parts))|
      && (|v| == |Concat(Marked(parts))| ==> UnquoteParts(parts).value == Marked(parts))
      && (Legal(Concat(Marked(parts))) ==> Legal(v))
    decreases |parts|
  {
    if parts == [] {
      assert Marked(parts) == [];
    } else {
      var rest := parts[1..];
      PartsUnchanged(rest);
      PartUnchanged(parts[0]);
      MarkedCons(parts);
      TailMarked(rest);
      var marked, tail := "%" + parts[0], Concat(Marked(rest));
      QuietAppend(marked, tail);
      assert Marked(parts) == [marked] + Marked(rest);
      LegalAppend(marked, tail);
      assert Legal(marked) ==> Legal(parts[0]) by { assert marked[1..] == parts[0]; }
      hide UnquotePart, Quiet, Legal, Marked, Parted;
      if UnquotePart(parts[0]).Some? && UnquoteParts(rest).Some? {
        LegalAppend(UnquotePart(parts[0]).value, Concat(UnquoteParts(rest).value));
      }
    }
  }

  lemma LegalAppend(a: string, b: string)
    ensures Legal(a + b) <==> Legal(a) && Legal(b)
  {
    assert forall i :: 0 <= i < |a| ==> (a + b)[i] == a[i];
    assert forall i :: 0 <= i < |b| ==> (a + b)[|a| + i] == b[i];
  }

  lemma UnquoteUnchanged(uri: Uri)
    ensures Quiet(uri) <==> Unquote(uri) == Some(uri)
    ensures Unquote(uri).Some? && Legal(uri) ==> Legal(Unquote(uri).value)
  {
    var parts := Split(uri);
    SplitJoins(uri);
    assert forall i :: 0 <= i < |parts[1..]| ==> parts[1..][i] == parts[i + 1];
    PartsUnchanged(parts[1..]);
    var tail := Concat(Marked(parts[1..]));
    NoPercent(parts[0]);
    QuietAppend(parts[0], tail);
    LegalAppend(parts[0], tail);
    if Unquote(uri).Some? {
      var v := Concat(UnquoteParts(parts[1..]).value);
      LegalAppend(parts[0], v);
      if parts[0] + v == uri {
        assert |v| == |tail|;
      }
    }
  }

  /** Requoting leaves alone exactly the texts of legal characters in which no escape is malformed or stands for an
      unreserved character. */
  lemma FixedPoints(uri: Uri)
    ensures RequoteUri(uri) == uri <==> Legal(uri) && Quiet(uri)
  {
    RequoteCases(uri);
    UnquoteUnchanged(uri);
    hide Unquote, Quote, Quiet, RequoteUri;
    var unquoted := Unquote(uri);
    QuoteIsLegal(uri, true);
    if unquoted.Some? {
      QuoteIsLegal(unquoted.value, true);
      hide Keeps;
    } else {
      QuoteIsLegal(uri, false);
      if RequoteUri(uri) == uri {
        assert forall i :: 0 <= i < |uri| ==> Keeps(uri[i], false) && uri[i] != '%';
        NoPercent(uri);
      }
    }
  }

  lemma RequoteCases(uri: Uri)
    ensures RequoteUri(uri) == if Unquote(uri).Some? then Quote(Unquote(uri).value, true) else Quote(uri, false)
  {
  }

  /** A requoted URI is settled exactly when unquoting left nothing more to unquote, or an escape was malformed. */
  lemma SettledIffQuiet(uri: Uri)
    ensures Legal(RequoteUri(uri))
    ensures RequoteUri(RequoteUri(uri)) == RequoteUri(uri) <==> Unquote(uri).None? || Quiet(Unquote(uri).value)
    ensures Quiet(RequoteUri(uri)) <==> Unquote(uri).None? || Quiet(Unquote(uri).value)
  {
    var unquoted := Unquote(uri);
    if unquoted.Some? {
      QuoteKeepsMeaning(unquoted.value);
      QuoteIsLegal(unquoted.value, true);
    } else {
      QuoteLiterally(uri);
      QuoteIsLegal(uri, false);
    }
    FixedPoints(RequoteUri(uri));
  }

  /** The meaning is kept when every percent sign is followed by two other characters, and the whole URI is taken
      literally when an escape is malformed. */
  lemma RequoteDecodes(uri: Uri)
    requires NoneShort(uri) || Unquote(uri).None?
    ensures Decode(RequoteUri(uri)) == if Unquote(uri).Some? then Decode(uri) else uri
  {
    var unquoted := Unquote(uri);
    if unquoted.Some? {
      UnquoteKeepsMeaning(uri);
      QuoteKeepsMeaning(unquoted.value);
    } else {
      QuoteLiterally(uri);
    }
  }

  /** Where every percent sign starts an escape, requoting keeps the decoded meaning and is idempotent. */
  lemma RequoteKeepsMeaning(uri: Uri)
    requires WellFormed(uri)
    ensures Decode(RequoteUri(uri)) == Decode(uri)
    ensures RequoteUri(RequoteUri(uri)) == RequoteUri(uri) && Quiet(RequoteUri(uri))
  {
    WellFormedUnquotes(uri);
    UnquoteKeepsMeaning(uri);
    RequoteDecodes(uri);
    SettledIffQuiet(uri);
  }
}

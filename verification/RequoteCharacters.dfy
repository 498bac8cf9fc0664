/** Requoting character by character, with the characters of sections 2.2 and 2.3 of RFC 3986 written out. */
module RequoteCharacters {
  import opened Results
  import opened Requote

  predicate Unreserved(c: char) {
    'A' <= c <= 'Z' || 'a' <= c <= 'z' || '0' <= c <= '9' || c == '-' || c == '.' || c == '_' || c == '~'
  }

  predicate Reserved(c: char) {
    || c == ':' || c == '/' || c == '?' || c == '#' || c == '[' || c == ']' || c == '@'
    || c == '!' || c == '$' || c == '&' || c == '\'' || c == '(' || c == ')'
    || c == '*' || c == '+' || c == ',' || c == ';' || c == '='
  }

  const LOWER_DIGITS := "0123456789abcdef"
  const UPPER_DIGITS := "0123456789ABCDEF"

  /** A hexadecimal digit, of either case, for a number. */
  predicate DigitOf(c: char, n: nat) {
    n < 16 && (c == LOWER_DIGITS[n] || c == UPPER_DIGITS[n])
  }

  predicate LetterOrDigit(c: char) {
    'A' <= c <= 'Z' || 'a' <= c <= 'z' || '0' <= c <= '9'
  }

  // ----- Quoting

  /** What becomes of a character: itself, or its escape with upper-case digits. */
  predicate QuotedAs(c: char, percent: bool, piece: string) {
    if Unreserved(c) || Reserved(c) || (percent && c == '%') then piece == [c]
    else
      && c < 128 as char && |piece| == 3 && piece[0] == '%'
      && piece[1] == UPPER_DIGITS[c as nat / 16] && piece[2] == UPPER_DIGITS[c as nat % 16]
  }

  lemma KeptCharacters(c: char, percent: bool)
    ensures Keeps(c, percent) <==> Unreserved(c) || Reserved(c) || (percent && c == '%')
  {
  }

  lemma CharacterQuoted(c: char, percent: bool)
    requires c < 128 as char
    ensures QuotedAs(c, percent, QuoteChar(c, percent))
  {
    KeptCharacters(c, percent);
    hide Keeps, Reserved, Unreserved;
  }

  /** Quoting takes every character on its own; reserved and unreserved ones stay as they are. */
  lemma {:induction false} QuotedByCharacter(s: Uri, percent: bool) returns (pieces: seq<string>)
    ensures |pieces| == |s| && Quote(s, percent) == Concat(pieces)
    ensures forall i :: 0 <= i < |s| ==> QuotedAs(s[i], percent, pieces[i])
    decreases |s|
  {
    if s == "" {
      pieces := [];
    } else {
      var rest := QuotedByCharacter(s[1..], percent);
      CharacterQuoted(s[0], percent);
      hide QuoteChar, QuotedAs;
      pieces := [QuoteChar(s[0], percent)] + rest;
      assert pieces[1..] == rest;
      assert forall i :: 1 <= i < |s| ==> s[i] == s[1..][i - 1] && pieces[i] == rest[i - 1];
    }
  }

  // ----- Unquoting

  lemma DigitIs(c: char, n: nat)
    ensures DigitOf(c, n) <==> IsHex(c) && HexValue(c) == n
  {
  }

  /** An escape that is no number: letters or digits, but not both hexadecimal. */
  ghost predicate BadEscape(part: string) {
    && |part| >= 2 && LetterOrDigit(part[0]) && LetterOrDigit(part[1])
    && !exists m, n :: DigitOf(part[0], m) && DigitOf(part[1], n)
  }

  /** What becomes of the text after a percent sign: only escapes of unreserved characters are undone. */
  ghost predicate UnquotedAs(part: string, piece: string) {
    if |part| >= 2 && exists m, n :: DigitOf(part[0], m) && DigitOf(part[1], n) && Unreserved((16 * m + n) as char) then
      exists m, n :: DigitOf(part[0], m) && DigitOf(part[1], n) && piece == [(16 * m + n) as char] + part[2..]
    else piece == "%" + part
  }

  lemma DigitsOf(a: char, b: char)
    ensures IsHex(a) && IsHex(b) <==> exists m, n :: DigitOf(a, m) && DigitOf(b, n)
    ensures IsHex(a) && IsHex(b) ==>
      forall m, n :: DigitOf(a, m) && DigitOf(b, n) <==> m == HexValue(a) && n == HexValue(b)
  {
    hide DigitOf, IsHex, HexValue;
    forall m: nat, n: nat
      ensures DigitOf(a, m) <==> IsHex(a) && HexValue(a) == m
      ensures DigitOf(b, n) <==> IsHex(b) && HexValue(b) == n
    {
      DigitIs(a, m);
      DigitIs(b, n);
    }
    if IsHex(a) && IsHex(b) {
      DigitIs(a, HexValue(a));
      DigitIs(b, HexValue(b));
    }
  }

  lemma PartUnquoted(part: Uri)
    ensures UnquotePart(part).None? <==> BadEscape(part)
    ensures UnquotePart(part).Some? ==> UnquotedAs(part, UnquotePart(part).value)
  {
    if |part| >= 2 {
      DigitsOf(part[0], part[1]);
      assert IsHex(part[0]) ==> LetterOrDigit(part[0]);
      assert IsHex(part[1]) ==> LetterOrDigit(part[1]);
      assert IsAlnum(part[0]) <==> LetterOrDigit(part[0]);
      assert IsAlnum(part[1]) <==> LetterOrDigit(part[1]);
      hide DigitOf, IsHex, HexValue, IsAlnum, LetterOrDigit;
      if IsHex(part[0]) && IsHex(part[1]) {
        var m, n := HexValue(part[0]), HexValue(part[1]);
        assert DigitOf(part[0], m) && DigitOf(part[1], n);
        assert IsUnreserved(Decoded(part[0], part[1])) <==> Unreserved((16 * m + n) as char) by {
          UnreservedIs(Decoded(part[0], part[1]));
        }
      }
    }
  }

  lemma UnreservedIs(c: char)
    ensures IsUnreserved(c) <==> Unreserved(c)
  {
  }

  /** Unquoting fails exactly on a bad escape, and otherwise takes the text behind every percent sign on its own. */
  lemma UnquotedByPart(uri: Uri) returns (pieces: seq<Uri>)
    ensures Unquote(uri).None? <==> exists i :: 1 <= i < |Split(uri)| && BadEscape(Split(uri)[i])
    ensures Unquote(uri).Some? ==>
      && |pieces| == |Split(uri)| - 1
      && (forall i :: 0 <= i < |pieces| ==> UnquotedAs(Split(uri)[i + 1], pieces[i]))
      && Unquote(uri) == Some(Split(uri)[0] + Concat(pieces))
  {
    var parts := Split(uri);
    UnquotePartsAt(parts[1..]);
    forall i | 0 <= i < |parts|
      ensures UnquotePart(parts[i]).None? <==> BadEscape(parts[i])
      ensures UnquotePart(parts[i]).Some? ==> UnquotedAs(parts[i], UnquotePart(parts[i]).value)
    {
      PartUnquoted(parts[i]);
    }
    hide Split, UnquoteParts, UnquotePart, BadEscape, UnquotedAs;
    assert forall i :: 0 <= i < |parts| - 1 ==> parts[1..][i] == parts[i + 1];
    assert forall i :: 1 <= i < |parts| ==> parts[i] == parts[1..][i - 1];
    pieces := if UnquoteParts(parts[1..]).Some? then UnquoteParts(parts[1..]).value else [];
  }

  // ----- Both

  lemma {:induction false} ConcatOfCharacters(s: string, pieces: seq<string>)
    requires |pieces| == |s| && forall i :: 0 <= i < |s| ==> pieces[i] == [s[i]]
    ensures Concat(pieces) == s
    decreases |s|
  {
    if s != "" {
      ConcatOfCharacters(s[1..], pieces[1..]);
      assert s == [s[0]] + s[1..];
    }
  }

  /** A URI of reserved and unreserved characters is left alone. */
  lemma LegalStays(uri: Uri)
    requires forall i :: 0 <= i < |uri| ==> Reserved(uri[i]) || Unreserved(uri[i])
    ensures RequoteUri(uri) == uri
  {
    assert PercentAt(uri, 0) == |uri|;
    assert Split(uri) == [uri] && Unquote(uri) == Some(uri + "");
    assert uri + "" == uri;
    hide Split, Unquote, Reserved, Unreserved;
    var pieces := QuotedByCharacter(uri, true);
    ConcatOfCharacters(uri, pieces);
  }
}

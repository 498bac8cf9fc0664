/** requote_uri and unquote_unreserved of botocore/vendored/requests/utils.py, on ASCII URIs. */
module Requote {
  import opened Results

  predicate AsciiOnly(s: string) {
    forall i :: 0 <= i < |s| ==> s[i] < 128 as char
  }

  type Uri = s: string | AsciiOnly(s) witness ""

  predicate IsDigit(c: char) { '0' <= c <= '9' }

  predicate IsLetter(c: char) { 'a' <= c <= 'z' || 'A' <= c <= 'Z' }

  predicate IsAlnum(c: char) { IsDigit(c) || IsLetter(c) }

  predicate IsHex(c: char) { IsDigit(c) || 'a' <= c <= 'f' || 'A' <= c <= 'F' }

  predicate IsUnreserved(c: char) { IsAlnum(c) || c in "-._~" }

  function HexValue(c: char): (n: nat)
    requires IsHex(c)
    ensures n < 16
  {
    if IsDigit(c) then (c - '0') as nat
    else if 'a' <= c <= 'f' then (c - 'a') as nat + 10
    else (c - 'A') as nat + 10
  }

  /** chr(int(h, 16)) */
  function Decoded(h1: char, h2: char): char
    requires IsHex(h1) && IsHex(h2)
  {
    (16 * HexValue(h1) + HexValue(h2)) as char
  }

  // ----- Splitting at percent signs

  function PercentAt(s: string, from: nat): (n: nat)
    requires from <= |s|
    ensures from <= n <= |s| && (n < |s| ==> s[n] == '%')
    ensures forall i :: from <= i < n ==> s[i] != '%'
    decreases |s| - from
  {
    if from == |s| || s[from] == '%' then from else PercentAt(s, from + 1)
  }

  /** uri.split('%') */
  function Split(s: Uri): (parts: seq<Uri>)
    ensures |parts| >= 1 && forall i :: 0 <= i < |parts| ==> '%' !in parts[i]
    decreases |s|
  {
    var n := PercentAt(s, 0);
    if n == |s| then [s] else [s[..n]] + Split(s[n + 1..])
  }

  function Concat(parts: seq<string>): string {
    if parts == [] then "" else parts[0] + Concat(parts[1..])
  }

  /** The parts after the first, each with its percent sign. */
  function Marked(parts: seq<Uri>): seq<string> {
    seq(|parts|, i requires 0 <= i < |parts| => "%" + parts[i])
  }

  lemma {:induction false} SplitJoins(s: Uri)
    ensures s == Split(s)[0] + Concat(Marked(Split(s)[1..]))
    decreases |s|
  {
    var n := PercentAt(s, 0);
    if n == |s| {
      assert Split(s)[1..] == [] && Marked([]) == [] && s + "" == s;
    } else {
      var rest: Uri := s[n + 1..];
      SplitJoins(rest);
      var parts := Split(rest);
      assert Split(s)[1..] == parts && Split(s)[0] == s[..n];
      MarkedCons(parts);
      hide Split, PercentAt, Concat, Marked;
      Reassembled(s, n, parts[0], Concat(Marked(parts[1..])));
    }
  }

  lemma Reassembled(s: string, n: nat, part: string, tail: string)
    requires n < |s| && s[n] == '%' && s[n + 1..] == part + tail
    ensures s == s[..n] + (("%" + part) + tail)
  {
    assert s[n..] == ['%'] + s[n + 1..];
    assert ("%" + part) + tail == "%" + (part + tail);
  }

  lemma MarkedCons(parts: seq<Uri>)
    requires parts != []
    ensures Concat(Marked(parts)) == ("%" + parts[0]) + Concat(Marked(parts[1..]))
  {
    assert Marked(parts)[1..] == Marked(parts[1..]);
  }

  // ----- Unquoting

  /** The new text of a part after a percent sign; None for InvalidURL. */
  function UnquotePart(part: Uri): Option<Uri> {
    if |part| >= 2 && IsAlnum(part[0]) && IsAlnum(part[1]) then
      if !IsHex(part[0]) || !IsHex(part[1]) then None
      else if IsUnreserved(Decoded(part[0], part[1])) then Some([Decoded(part[0], part[1])] + part[2..])
      else Some("%" + part)
    else Some("%" + part)
  }

  function UnquoteParts(parts: seq<Uri>): Option<seq<Uri>> {
    if parts == [] then Some([])
    else
      var first, rest := UnquotePart(parts[0]), UnquoteParts(parts[1..]);
      if first.None? || rest.None? then None else Some([first.value] + rest.value)
  }

  lemma {:induction false} UnquotePartsAt(parts: seq<Uri>)
    ensures UnquoteParts(parts).None? <==> exists i :: 0 <= i < |parts| && UnquotePart(parts[i]).None?
    ensures UnquoteParts(parts).Some? ==>
      var pieces := UnquoteParts(parts).value;
      |pieces| == |parts| && forall i :: 0 <= i < |parts| ==> UnquotePart(parts[i]) == Some(pieces[i])
    decreases |parts|
  {
    if parts != [] {
      UnquotePartsAt(parts[1..]);
      hide UnquotePart;
      assert forall i :: 1 <= i < |parts| ==> parts[i] == parts[1..][i - 1];
      assert forall i :: 0 <= i < |parts[1..]| ==> parts[1..][i] == parts[i + 1];
    }
  }

  lemma ConcatAscii(parts: seq<Uri>)
    ensures AsciiOnly(Concat(parts))
  {
    if parts != [] { ConcatAscii(parts[1..]); }
  }

  /** unquote_unreserved; None for InvalidURL. */
  function Unquote(uri: Uri): Option<Uri> {
    var parts := Split(uri);
    var pieces := UnquoteParts(parts[1..]);
    if pieces.None? then None
    else
      ConcatAscii(pieces.value);
      Some(parts[0] + Concat(pieces.value))
  }

  // ----- Quoting

  const SAFE_WITHOUT_PERCENT := "!#$&'()*+,/:;=?@[]~"

  predicate Keeps(c: char, percent: bool) {
    IsAlnum(c) || c in "_.-" || c in SAFE_WITHOUT_PERCENT || (percent && c == '%')
  }

  function HexDigit(n: nat): (c: char)
    requires n < 16
    ensures IsHex(c) && HexValue(c) == n && c < 128 as char
  {
    if n < 10 then '0' + n as char else 'A' + (n - 10) as char
  }

  function QuoteChar(c: char, percent: bool): (s: string)
    requires c < 128 as char
    ensures AsciiOnly(s) && |s| >= 1
  {
    if Keeps(c, percent) then [c] else ['%', HexDigit(c as nat / 16), HexDigit(c as nat % 16)]
  }

  /** urllib's quote with the given safe characters. */
  function Quote(s: Uri, percent: bool): Uri {
    if s == "" then "" else QuoteChar(s[0], percent) + Quote(s[1..], percent)
  }

  function RequoteUri(uri: Uri): Uri {
    var unquoted := Unquote(uri);
    if unquoted.Some? then Quote(unquoted.value, true) else Quote(uri, false)
  }

  // ----- The code

  lemma AllUnquoted(parts: seq<Uri>, pieces: seq<Uri>)
    requires |parts| == |pieces| && forall i :: 0 <= i < |parts| ==> UnquotePart(parts[i]) == Some(pieces[i])
    ensures UnquoteParts(parts) == Some(pieces)
  {
    hide UnquotePart, UnquoteParts;
    UnquotePartsAt(parts);
    assert UnquoteParts(parts).value == pieces;
  }

  lemma OneFails(parts: seq<Uri>, i: nat)
    requires i < |parts| && UnquotePart(parts[i]).None?
    ensures UnquoteParts(parts).None?
  {
    hide UnquotePart, UnquoteParts;
    UnquotePartsAt(parts);
  }

  /** The parts are rewritten in place and joined. */
  method UnquoteUnreserved(uri: Uri) returns (r: Option<Uri>)
    ensures r == Unquote(uri)
  {
    var parts := Split(uri);
    var n := |parts|;
    var rewritten := new Uri[n](i requires 0 <= i < n => parts[i]);
    hide Split, UnquotePart, UnquoteParts;
    for i := 1 to n
      invariant rewritten[0] == parts[0]
      invariant forall k :: 1 <= k < i ==> UnquotePart(parts[k]) == Some(rewritten[k])
      invariant forall k :: i <= k < n ==> rewritten[k] == parts[k]
    {
      var piece := UnquotePart(rewritten[i]);
      if piece.None? {
        OneFails(parts[1..], i - 1);
        return None;
      }
      rewritten[i] := piece.value;
    }
    AllUnquoted(parts[1..], rewritten[1..]);
    assert rewritten[..][1..] == rewritten[1..] && rewritten[..][0] == parts[0];
    ConcatAscii(rewritten[..]);
    return Some(Concat(rewritten[..]));
  }

  method RequoteUriRun(uri: Uri) returns (r: Uri)
    ensures r == RequoteUri(uri)
  {
    var unquoted := UnquoteUnreserved(uri);
    if unquoted.Some? {
      return Quote(unquoted.value, true);
    }
    return Quote(uri, false);
  }
}

/** What byte strings the escape-sequence automata recognize. */
module EscLanguages {
  import opened EscMachines

  predicate Plain(w: Which, bytes: seq<byte>) {
    forall i :: 0 <= i < |bytes| ==> !Bad(w, bytes[i]) && bytes[i] != ESC
  }

  /** Plain text, then ESC, then the given bytes. */
  ghost predicate Follows(w: Which, bytes: seq<byte>, escape: seq<byte>) {
    && |bytes| > |escape| && bytes[|bytes| - |escape| - 1] == ESC && bytes[|bytes| - |escape|..] == escape
    && Plain(w, bytes[..|bytes| - |escape| - 1])
  }

  /** Some prefix is plain text and one of the escape sequences. */
  ghost predicate Starts(w: Which, bytes: seq<byte>, escapes: set<seq<byte>>) {
    exists n, e :: 0 <= n <= |bytes| && e in escapes && Follows(w, bytes[..n], e)
  }

  lemma FollowsMore(w: Which, bytes: seq<byte>, escape: seq<byte>, c: byte)
    requires Follows(w, bytes, escape)
    ensures Follows(w, bytes + [c], escape + [c])
  {
    var more, k := bytes + [c], |bytes| - |escape| - 1;
    assert |more| - |escape + [c]| - 1 == k;
    assert more[..k] == bytes[..k] && more[k + 1..] == bytes[k + 1..] + [c];
  }

  lemma EscapeBegins(w: Which, bytes: seq<byte>)
    requires Plain(w, bytes)
    ensures Follows(w, bytes + [ESC], [])
  {
    var more := bytes + [ESC];
    assert more[..|bytes|] == bytes && more[|more|..] == [];
  }

  lemma StartsMore(w: Which, bytes: seq<byte>, escapes: set<seq<byte>>)
    requires bytes != [] && Starts(w, bytes[..|bytes| - 1], escapes)
    ensures Starts(w, bytes, escapes)
  {
    var before := bytes[..|bytes| - 1];
    var n, e :| 0 <= n <= |before| && e in escapes && Follows(w, before[..n], e);
    assert before[..n] == bytes[..n];
  }

  lemma StartsHere(w: Which, bytes: seq<byte>, escapes: set<seq<byte>>, e: seq<byte>)
    requires e in escapes && Follows(w, bytes, e)
    ensures Starts(w, bytes, escapes)
  {
    assert bytes[..|bytes|] == bytes;
  }

  lemma {:induction false} PlainRuns(w: Which, bytes: seq<byte>)
    requires Plain(w, bytes) && !w.HZ?
    ensures Run(w, bytes) == START
    decreases |bytes|
  {
    if bytes != [] {
      var c := bytes[|bytes| - 1];
      PlainRuns(w, bytes[..|bytes| - 1]);
      match w
      case CN => NextCN0(c);
      case JP => NextJP0(c);
      case KR => NextKR0(c);
    }
  }

  // ----- ISO-2022-KR

  const KR_ESCAPES: set<seq<byte>> := {['$' as byte, ')' as byte, 'C' as byte]}

  /** What each state of the machine says about the bytes so far. */
  ghost predicate MeansKR(bytes: seq<byte>, state: nat) {
    if state == START then Plain(KR, bytes)
    else if state == 3 then Follows(KR, bytes, [])
    else if state == 4 then Follows(KR, bytes, ['$' as byte])
    else if state == 5 then Follows(KR, bytes, ['$' as byte, ')' as byte])
    else if state == ITS_ME then Starts(KR, bytes, KR_ESCAPES)
    else true
  }

  lemma StepMeansKR(bytes: seq<byte>, state: nat, c: byte)
    requires Reachable(KR, state) && MeansKR(bytes, state)
    ensures MeansKR(bytes + [c], Next(KR, state, c))
  {
    hide Next, Follows, Starts, Bad;
    AbsorbingKR(c); NextKR0(c); NextKR3(c); NextKR4(c); NextKR5(c);
    var more := bytes + [c];
    assert more[..|more| - 1] == bytes;
    if state == START {
      if c == ESC { EscapeBegins(KR, bytes); } else { assert Next(KR, state, c) == START ==> Plain(KR, more); }
    } else if state == 3 {
      FollowsMore(KR, bytes, [], c);
      assert [] + [c] == [c];
    } else if state == 4 {
      FollowsMore(KR, bytes, ['$' as byte], c);
      assert ['$' as byte] + [c] == ['$' as byte, c];
    } else if state == 5 {
      FollowsMore(KR, bytes, ['$' as byte, ')' as byte], c);
      assert ['$' as byte, ')' as byte] + [c] == ['$' as byte, ')' as byte, c];
      if c == 'C' as byte { StartsHere(KR, more, KR_ESCAPES, ['$' as byte, ')' as byte, c]); }
    } else if state == ITS_ME {
      StartsMore(KR, more, KR_ESCAPES);
    }
  }

  lemma {:induction false} RunMeansKR(bytes: seq<byte>)
    ensures MeansKR(bytes, Run(KR, bytes))
    decreases |bytes|
  {
    if bytes != [] {
      var before, c := bytes[..|bytes| - 1], bytes[|bytes| - 1];
      RunMeansKR(before);
      hide MeansKR;
      StepMeansKR(before, Run(KR, before), c);
      assert bytes == before + [c];
    }
  }

  lemma RunMore(w: Which, bytes: seq<byte>, c: byte)
    ensures Run(w, bytes + [c]) == Next(w, Run(w, bytes), c)
  {
    assert (bytes + [c])[..|bytes|] == bytes;
  }

  lemma AcceptsKR(plain: seq<byte>)
    requires Plain(KR, plain)
    ensures Run(KR, plain + [ESC] + ['$' as byte] + [')' as byte] + ['C' as byte]) == ITS_ME
  {
    PlainRuns(KR, plain);
    RunMore(KR, plain, ESC);
    RunMore(KR, plain + [ESC], '$' as byte);
    RunMore(KR, plain + [ESC] + ['$' as byte], ')' as byte);
    RunMore(KR, plain + [ESC] + ['$' as byte] + [')' as byte], 'C' as byte);
    hide Next, Run;
    NextKR0(ESC); NextKR3('$' as byte); NextKR4(')' as byte); NextKR5('C' as byte);
  }

  lemma Parts(w: Which, bytes: seq<byte>, e: seq<byte>)
    requires Follows(w, bytes, e)
    ensures
      var plain := bytes[..|bytes| - |e| - 1];
      Plain(w, plain) && bytes == plain + [ESC] + e
  {
  }

  /** ISO-2022-KR is recognized exactly when plain text and ESC $ ) C start the bytes. */
  lemma RecognizesKR(bytes: seq<byte>)
    ensures Run(KR, bytes) == ITS_ME <==> Starts(KR, bytes, KR_ESCAPES)
  {
    RunMeansKR(bytes);
    hide Run;
    if Starts(KR, bytes, KR_ESCAPES) {
      hide Starts;
      var n, e :| 0 <= n <= |bytes| && e in KR_ESCAPES && Follows(KR, bytes[..n], e);
      Parts(KR, bytes[..n], e);
      var plain := bytes[..n][..n - 4];
      AcceptsKR(plain);
      hide Plain, Follows;
      assert plain + [ESC] + e == plain + [ESC] + ['$' as byte] + [')' as byte] + ['C' as byte];
      VerdictStays(KR, bytes, n);
    }
  }

  // ----- ISO-2022-JP

  const JP_ESCAPES: set<seq<byte>> :=
    {['$' as byte, '@' as byte], ['$' as byte, 'B' as byte], ['$' as byte, '(' as byte, 'D' as byte],
     ['(' as byte, 'B' as byte], ['(' as byte, 'J' as byte], ['(' as byte, 'I' as byte]}

  ghost predicate MeansJP(bytes: seq<byte>, state: nat) {
    if state == START then Plain(JP, bytes)
    else if state == 3 then Follows(JP, bytes, [])
    else if state == 4 then Follows(JP, bytes, ['$' as byte])
    else if state == 5 then Follows(JP, bytes, ['(' as byte])
    else if state == 6 then Follows(JP, bytes, ['$' as byte, '(' as byte])
    else if state == ITS_ME then Starts(JP, bytes, JP_ESCAPES)
    else true
  }

  lemma StepMeansJP(bytes: seq<byte>, state: nat, c: byte)
    requires Reachable(JP, state) && MeansJP(bytes, state)
    ensures MeansJP(bytes + [c], Next(JP, state, c))
  {
    hide Next, Follows, Starts, Bad;
    var more := bytes + [c];
    assert more[..|more| - 1] == bytes;
    if state == START {
      NextJP0(c);
      if c == ESC { EscapeBegins(JP, bytes); } else { assert Next(JP, state, c) == START ==> Plain(JP, more); }
    } else if state == 3 {
      NextJP3(c);
      FollowsMore(JP, bytes, [], c);
      assert [] + [c] == [c];
    } else if state == 4 {
      NextJP4(c);
      FollowsMore(JP, bytes, ['$' as byte], c);
      assert ['$' as byte] + [c] == ['$' as byte, c];
      if c == '@' as byte || c == 'B' as byte { StartsHere(JP, more, JP_ESCAPES, ['$' as byte, c]); }
    } else if state == 5 {
      NextJP5(c);
      FollowsMore(JP, bytes, ['(' as byte], c);
      assert ['(' as byte] + [c] == ['(' as byte, c];
      if c == 'B' as byte || c == 'J' as byte || c == 'I' as byte { StartsHere(JP, more, JP_ESCAPES, ['(' as byte, c]); }
    } else if state == 6 {
      NextJP6(c);
      FollowsMore(JP, bytes, ['$' as byte, '(' as byte], c);
      assert ['$' as byte, '(' as byte] + [c] == ['$' as byte, '(' as byte, c];
      if c == 'D' as byte { StartsHere(JP, more, JP_ESCAPES, ['$' as byte, '(' as byte, c]); }
    } else {
      AbsorbingJP(c);
      if state == ITS_ME { StartsMore(JP, more, JP_ESCAPES); }
    }
  }

  lemma {:induction false} RunMeansJP(bytes: seq<byte>)
    ensures MeansJP(bytes, Run(JP, bytes))
    decreases |bytes|
  {
    if bytes != [] {
      var before, c := bytes[..|bytes| - 1], bytes[|bytes| - 1];
      RunMeansJP(before);
      hide MeansJP;
      StepMeansJP(before, Run(JP, before), c);
      assert bytes == before + [c];
    }
  }

  lemma AfterEscape(plain: seq<byte>, a: byte)
    requires Plain(JP, plain)
    ensures Run(JP, plain + [ESC] + [a]) == if a == '(' as byte then 5 else if a == '$' as byte then 4 else ERROR
  {
    PlainRuns(JP, plain);
    hide Next, Run, Plain, Bad;
    RunMore(JP, plain, ESC);
    RunMore(JP, plain + [ESC], a);
    NextJP0(ESC);
    NextJP3(a);
  }

  lemma AcceptsTwo(plain: seq<byte>, a: byte, b: byte)
    requires Plain(JP, plain) && [a, b] in JP_ESCAPES
    ensures Run(JP, plain + [ESC] + [a] + [b]) == ITS_ME
  {
    assert [a, b][0] == a && [a, b][1] == b;
    hide Next, Run, Plain, Bad;
    AfterEscape(plain, a);
    RunMore(JP, plain + [ESC] + [a], b);
    NextJP4(b);
    NextJP5(b);
  }

  lemma AcceptsThree(plain: seq<byte>)
    requires Plain(JP, plain)
    ensures Run(JP, plain + [ESC] + ['$' as byte] + ['(' as byte] + ['D' as byte]) == ITS_ME
  {
    hide Next, Run, Plain, Bad;
    var first := plain + [ESC] + ['$' as byte];
    AfterEscape(plain, '$' as byte);
    RunMore(JP, first, '(' as byte);
    NextJP4('(' as byte);
    RunMore(JP, first + ['(' as byte], 'D' as byte);
    NextJP6('D' as byte);
  }

  lemma AcceptsJP(plain: seq<byte>, e: seq<byte>)
    requires Plain(JP, plain) && e in JP_ESCAPES
    ensures Run(JP, plain + [ESC] + e) == ITS_ME
  {
    if |e| == 2 {
      assert e == [e[0], e[1]];
      AcceptsTwo(plain, e[0], e[1]);
      hide Run, Plain;
      assert plain + [ESC] + e == plain + [ESC] + [e[0]] + [e[1]];
    } else {
      assert e == ['$' as byte, '(' as byte, 'D' as byte];
      AcceptsThree(plain);
      hide Run, Plain;
      assert plain + [ESC] + e == plain + [ESC] + ['$' as byte] + ['(' as byte] + ['D' as byte];
    }
  }

  lemma AcceptedPrefix(bytes: seq<byte>, n: nat, e: seq<byte>)
    requires n <= |bytes| && e in JP_ESCAPES && Follows(JP, bytes[..n], e)
    ensures Run(JP, bytes) == ITS_ME
  {
    hide Run, JP_ESCAPES;
    Parts(JP, bytes[..n], e);
    AcceptsJP(bytes[..n][..n - |e| - 1], e);
    hide *;
    VerdictStays(JP, bytes, n);
  }

  lemma FoundJP(bytes: seq<byte>)
    requires Run(JP, bytes) == ITS_ME
    ensures Starts(JP, bytes, JP_ESCAPES)
  {
    hide Run, Starts, JP_ESCAPES, Follows;
    RunMeansJP(bytes);
  }

  /** ISO-2022-JP is recognized exactly when plain text and one of its six escape sequences start the bytes. */
  lemma RecognizesJP(bytes: seq<byte>)
    ensures Run(JP, bytes) == ITS_ME <==> Starts(JP, bytes, JP_ESCAPES)
  {
    hide Run, JP_ESCAPES, Follows, MeansJP;
    if Run(JP, bytes) == ITS_ME {
      FoundJP(bytes);
    }
    if Starts(JP, bytes, JP_ESCAPES) {
      var n, e :| 0 <= n <= |bytes| && e in JP_ESCAPES && Follows(JP, bytes[..n], e);
      AcceptedPrefix(bytes, n, e);
    }
  }

  // ----- ISO-2022-CN

  lemma StepNotCN(state: nat, c: byte)
    requires Reachable(CN, state) && state != ITS_ME
    ensures Next(CN, state, c) != ITS_ME
  {
    hide Next, Bad;
    if state == ERROR { AbsorbingCN(c); }
    else if state == START { NextCN0(c); }
    else if state == 3 { NextCN3(c); }
    else if state == 4 { NextCN4(c); }
    else { NextCN5(c); }
  }

  /** The class table of ISO-2022-CN has no class for $, so its machine recognizes nothing at all. */
  lemma {:induction false} NeverCN(bytes: seq<byte>)
    ensures Run(CN, bytes) != ITS_ME
    decreases |bytes|
  {
    if bytes != [] {
      hide Next, Reachable;
      NeverCN(bytes[..|bytes| - 1]);
      StepNotCN(Run(CN, bytes[..|bytes| - 1]), bytes[|bytes| - 1]);
    }
  }

  // ----- HZ

  const TILDE := '~' as byte
  const OPENING := '{' as byte
  const CLOSING := '}' as byte

  /** Plain bytes and doubled tildes. */
  predicate TextHZ(bytes: seq<byte>) {
    if bytes == [] then true
    else
      var n, c := |bytes|, bytes[|bytes| - 1];
      if c != TILDE then !Bad(HZ, c) && TextHZ(bytes[..n - 1])
      else n >= 2 && bytes[n - 2] == TILDE && TextHZ(bytes[..n - 2])
  }

  /** Text, the opening ~{, and pairs of plain bytes that are not the closing ~}. */
  predicate OpenHZ(bytes: seq<byte>) {
    var n := |bytes|;
    n >= 2 &&
      var a, b := bytes[n - 2], bytes[n - 1];
      || (a == TILDE && b == OPENING && TextHZ(bytes[..n - 2]))
      || (!Bad(HZ, a) && !Bad(HZ, b) && (a != TILDE || b != CLOSING) && OpenHZ(bytes[..n - 2]))
  }

  /** Some prefix is such a text with its closing ~}. */
  ghost predicate StartsHZ(bytes: seq<byte>) {
    exists n: nat :: ClosesAt(bytes, n)
  }

  predicate ClosesAt(bytes: seq<byte>, n: nat) {
    n + 2 <= |bytes| && OpenHZ(bytes[..n]) && bytes[n] == TILDE && bytes[n + 1] == CLOSING
  }

  /** What each state of the machine says about the bytes so far. */
  ghost predicate MeansHZ(bytes: seq<byte>, state: nat) {
    var n := |bytes|;
    if state == START then TextHZ(bytes)
    else if state == 3 then n >= 1 && bytes[n - 1] == TILDE && TextHZ(bytes[..n - 1])
    else if state == 4 then OpenHZ(bytes)
    else if state == 5 then n >= 1 && !Bad(HZ, bytes[n - 1]) && bytes[n - 1] != TILDE && OpenHZ(bytes[..n - 1])
    else if state == 6 then n >= 1 && bytes[n - 1] == TILDE && OpenHZ(bytes[..n - 1])
    else if state == ITS_ME then StartsHZ(bytes)
    else true
  }

  lemma TextMore(bytes: seq<byte>, c: byte)
    ensures TextHZ(bytes) && c != TILDE && !Bad(HZ, c) ==> TextHZ(bytes + [c])
  {
    assert (bytes + [c])[..|bytes|] == bytes;
  }

  /** A tilde after text, and what may follow it. */
  lemma AfterTilde(bytes: seq<byte>)
    requires bytes != [] && bytes[|bytes| - 1] == TILDE && TextHZ(bytes[..|bytes| - 1])
    ensures TextHZ(bytes + [TILDE]) && OpenHZ(bytes + [OPENING])
  {
    assert (bytes + [TILDE])[..|bytes| - 1] == bytes[..|bytes| - 1];
    assert (bytes + [OPENING])[..|bytes| - 1] == bytes[..|bytes| - 1];
  }

  /** The second byte of a pair. */
  lemma PairMore(bytes: seq<byte>, c: byte)
    requires bytes != [] && OpenHZ(bytes[..|bytes| - 1]) && !Bad(HZ, bytes[|bytes| - 1]) && !Bad(HZ, c)
    ensures if bytes[|bytes| - 1] == TILDE && c == CLOSING then StartsHZ(bytes + [c]) else OpenHZ(bytes + [c])
  {
    hide Bad;
    var n := |bytes| - 1;
    assert (bytes + [c])[..n] == bytes[..n];
    if bytes[n] == TILDE && c == CLOSING {
      assert ClosesAt(bytes + [c], n);
    }
  }

  lemma StepMeansHZ(bytes: seq<byte>, state: nat, c: byte)
    requires Reachable(HZ, state) && MeansHZ(bytes, state)
    ensures MeansHZ(bytes + [c], Next(HZ, state, c))
  {
    hide Next, TextHZ, OpenHZ, StartsHZ, Bad;
    var more, n := bytes + [c], |bytes|;
    assert more[..|more| - 1] == bytes;
    PlainTilde();
    if state == START {
      NextHZ0(c);
      TextMore(bytes, c);
    } else if state == 3 {
      NextHZ3(c);
      AfterTilde(bytes);
    } else if state == 4 {
      NextHZ4(c);
    } else if state == 5 {
      NextHZ5(c);
      if !Bad(HZ, c) { PairMore(bytes, c); }
    } else if state == 6 {
      NextHZ6(c);
      if !Bad(HZ, c) { PairMore(bytes, c); }
    } else {
      AbsorbingHZ(c);
      if state == ITS_ME { StartsHZMore(bytes, c); }
    }
  }

  lemma PlainTilde()
    ensures !Bad(HZ, TILDE) && !Bad(HZ, OPENING) && !Bad(HZ, CLOSING)
  {
  }

  lemma StartsHZMore(bytes: seq<byte>, c: byte)
    requires StartsHZ(bytes)
    ensures StartsHZ(bytes + [c])
  {
    hide OpenHZ;
    var n: nat :| ClosesAt(bytes, n);
    assert (bytes + [c])[..n] == bytes[..n];
    assert ClosesAt(bytes + [c], n);
  }

  lemma {:induction false} RunMeansHZ(bytes: seq<byte>)
    ensures MeansHZ(bytes, Run(HZ, bytes))
    decreases |bytes|
  {
    if bytes != [] {
      var before, c := bytes[..|bytes| - 1], bytes[|bytes| - 1];
      RunMeansHZ(before);
      hide MeansHZ;
      StepMeansHZ(before, Run(HZ, before), c);
      assert bytes == before + [c];
    }
  }

  lemma RunTwo(bytes: seq<byte>)
    requires |bytes| >= 2
    ensures Run(HZ, bytes) == Next(HZ, Next(HZ, Run(HZ, bytes[..|bytes| - 2]), bytes[|bytes| - 2]), bytes[|bytes| - 1])
  {
    hide Next;
    var before := bytes[..|bytes| - 1];
    assert before[..|before| - 1] == bytes[..|bytes| - 2] && before[|before| - 1] == bytes[|bytes| - 2];
  }

  lemma {:induction false} TextRuns(bytes: seq<byte>)
    requires TextHZ(bytes)
    ensures Run(HZ, bytes) == START
    decreases |bytes|
  {
    if bytes != [] {
      hide Next;
      var n, c := |bytes|, bytes[|bytes| - 1];
      if c != TILDE {
        TextRuns(bytes[..n - 1]);
        NextHZ0(c);
      } else {
        TextRuns(bytes[..n - 2]);
        RunTwo(bytes);
        NextHZ0(TILDE);
        NextHZ3(TILDE);
      }
    }
  }

  lemma {:induction false} OpenRuns(bytes: seq<byte>)
    requires OpenHZ(bytes)
    ensures Run(HZ, bytes) == 4
    decreases |bytes|
  {
    hide Next;
    var n := |bytes|;
    var a, b := bytes[n - 2], bytes[n - 1];
    RunTwo(bytes);
    hide Run;
    if a == TILDE && b == OPENING && TextHZ(bytes[..n - 2]) {
      TextRuns(bytes[..n - 2]);
      NextHZ0(TILDE);
      NextHZ3(OPENING);
    } else {
      OpenRuns(bytes[..n - 2]);
      NextHZ4(a);
      NextHZ5(b);
      NextHZ6(b);
    }
  }

  /** HZ is recognized exactly when text, ~{, pairs of bytes and ~} start the bytes. */
  lemma RecognizesHZ(bytes: seq<byte>)
    ensures Run(HZ, bytes) == ITS_ME <==> StartsHZ(bytes)
  {
    RunMeansHZ(bytes);
    hide Run, OpenHZ, Next;
    if StartsHZ(bytes) {
      var n: nat :| ClosesAt(bytes, n);
      var upTo := bytes[..n + 2];
      OpenRuns(bytes[..n]);
      RunTwo(upTo);
      assert upTo[..|upTo| - 2] == bytes[..n];
      NextHZ4(TILDE);
      NextHZ6(CLOSING);
      VerdictStays(HZ, bytes, n + 2);
    }
  }
}

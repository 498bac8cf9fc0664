/** The escape-sequence automata of botocore/vendored/requests/packages/chardet (escsm.py, codingstatemachine.py). */
module EscMachines {
  datatype Which = HZ | CN | JP | KR

  newtype byte = x: int | 0 <= x < 256

  const START: nat := 0
  const ERROR: nat := 1
  const ITS_ME: nat := 2

  const ESC: byte := 0x1b

  /** The class tables. Bytes that are not named have class 0. */
  function ClassOf(w: Which, c: byte): (k: nat)
    ensures k < Classes(w)
  {
    match w
    case HZ =>
      if c == 0x00 || c == ESC || c >= 0x80 then 1 else if c == '~' as byte then 2
      else if c == '{' as byte then 4 else if c == '}' as byte then 5 else 0
    case CN =>
      if c == 0x00 || c >= 0x80 then 2 else if c == ESC then 1
      else if c == ')' as byte then 3 else if c == 'C' as byte then 4 else 0
    case JP =>
      if c == 0x00 || c == 0x0e || c == 0x0f || c >= 0x80 then 2 else if c == ESC then 1
      else if c == '$' as byte then 7 else if c == '(' as byte then 3 else if c == '@' as byte then 6
      else if c == 'B' as byte then 4 else if c == 'D' as byte then 8 else if c == 'I' as byte then 9
      else if c == 'J' as byte then 5 else 0
    case KR =>
      if c == 0x00 || c >= 0x80 then 2 else if c == ESC then 1
      else if c == '$' as byte then 3 else if c == ')' as byte then 4 else if c == 'C' as byte then 5 else 0
  }

  /** One more than the largest class that the class table yields. */
  function Classes(w: Which): nat {
    match w
    case HZ => 6
    case CN => 5
    case JP => 10
    case KR => 6
  }

  function ClassFactor(w: Which): nat {
    match w
    case HZ => 6
    case CN => 9
    case JP => 10
    case KR => 6
  }

  /** One more than the largest state that the state table yields. */
  function StateCount(w: Which): nat {
    if w.KR? then 6 else 7
  }

  const S := START
  const E := ERROR
  const I := ITS_ME

  /** The state tables, eight entries a row. */
  function StateTable(w: Which): (rows: seq<seq<nat>>)
    ensures forall r :: 0 <= r < |rows| ==> |rows[r]| == 8
  {
    match w
    case HZ =>
      [[S, E, 3, S, S, S, E, E],
       [E, E, E, E, I, I, I, I],
       [I, I, E, E, S, S, 4, E],
       [5, E, 6, E, 5, 5, 4, E],
       [4, E, 4, 4, 4, E, 4, E],
       [4, I, S, S, S, S, S, S]]
    case CN =>
      [[S, 3, E, S, S, S, S, S],
       [S, E, E, E, E, E, E, E],
       [E, E, I, I, I, I, I, I],
       [I, I, I, E, E, E, 4, E],
       [E, E, E, I, E, E, E, E],
       [5, 6, E, E, E, E, E, E],
       [E, E, E, I, E, E, E, E],
       [E, E, E, E, E, I, E, S]]
    case JP =>
      [[S, 3, E, S, S, S, S, S],
       [S, S, E, E, E, E, E, E],
       [E, E, E, E, I, I, I, I],
       [I, I, I, I, I, I, E, E],
       [E, 5, E, E, E, 4, E, E],
       [E, E, E, 6, I, E, I, E],
       [E, E, E, E, E, E, I, I],
       [E, E, E, I, E, E, E, E],
       [E, E, E, E, I, E, S, S]]
    case KR =>
      [[S, 3, E, S, S, S, E, E],
       [E, E, E, E, I, I, I, I],
       [I, I, E, E, E, 4, E, E],
       [E, E, E, E, 5, E, E, E],
       [E, E, E, I, S, S, S, S]]
  }

  /** The index into the state table never leaves it, whatever the bytes. */
  lemma IndexInTable(w: Which, state: nat, c: byte)
    requires state < StateCount(w)
    ensures state * ClassFactor(w) + ClassOf(w, c) < 8 * |StateTable(w)|
  {
    hide ClassOf;
  }

  function Entry(w: Which, i: nat): nat
    requires i < 8 * |StateTable(w)|
  {
    StateTable(w)[i / 8][i % 8]
  }

  /** CodingStateMachine.next_state */
  function Next(w: Which, state: nat, c: byte): nat
    requires state < StateCount(w)
  {
    IndexInTable(w, state, c);
    Entry(w, state * ClassFactor(w) + ClassOf(w, c))
  }

  /** Bytes that end a machine outside an escape sequence. */
  predicate Bad(w: Which, c: byte) {
    c == 0x00 || c >= 0x80 || (w.JP? && (c == 0x0e || c == 0x0f)) || (w.HZ? && c == ESC)
  }

  // ----- The rows, in terms of bytes

  lemma AbsorbingHZ(c: byte)
    ensures Next(HZ, ERROR, c) == ERROR && Next(HZ, ITS_ME, c) == ITS_ME
  {
  }

  lemma AbsorbingCN(c: byte)
    ensures Next(CN, ERROR, c) == ERROR && Next(CN, ITS_ME, c) == ITS_ME
  {
  }

  lemma AbsorbingJP(c: byte)
    ensures Next(JP, ERROR, c) == ERROR && Next(JP, ITS_ME, c) == ITS_ME
  {
  }

  lemma AbsorbingKR(c: byte)
    ensures Next(KR, ERROR, c) == ERROR && Next(KR, ITS_ME, c) == ITS_ME
  {
  }

  lemma NextKR0(c: byte)
    ensures Next(KR, 0, c) == if c == ESC then 3 else if Bad(KR, c) then ERROR else START
  {
  }

  lemma NextKR3(c: byte)
    ensures Next(KR, 3, c) == if c == '$' as byte then 4 else ERROR
  {
  }

  lemma NextKR4(c: byte)
    ensures Next(KR, 4, c) == if c == ')' as byte then 5 else ERROR
  {
  }

  lemma NextKR5(c: byte)
    ensures Next(KR, 5, c) == if c == 'C' as byte then ITS_ME else ERROR
  {
  }

  lemma NextJP0(c: byte)
    ensures Next(JP, 0, c) == if c == ESC then 3 else if Bad(JP, c) then ERROR else START
  {
  }

  lemma NextJP3(c: byte)
    ensures Next(JP, 3, c) == if c == '(' as byte then 5 else if c == '$' as byte then 4 else ERROR
  {
  }

  lemma NextJP4(c: byte)
    ensures Next(JP, 4, c) == if c == '(' as byte then 6 else if c == 'B' as byte || c == '@' as byte then ITS_ME else ERROR
  {
  }

  lemma NextJP5(c: byte)
    ensures Next(JP, 5, c) == if c == 'B' as byte || c == 'J' as byte || c == 'I' as byte then ITS_ME else ERROR
  {
  }

  lemma NextJP6(c: byte)
    ensures Next(JP, 6, c) == if c == 'D' as byte then ITS_ME else ERROR
  {
  }

  lemma NextCN0(c: byte)
    ensures Next(CN, 0, c) == if c == ESC then 3 else if Bad(CN, c) then ERROR else START
  {
  }

  lemma NextCN3(c: byte)
    ensures Next(CN, 3, c) == if c == ')' as byte then 4 else ERROR
  {
  }

  lemma NextCN4(c: byte)
    ensures Next(CN, 4, c) == if c == 'C' as byte then 5 else ERROR
  {
  }

  lemma NextCN5(c: byte)
    ensures Next(CN, 5, c) == ERROR
  {
  }

  lemma NextHZ0(c: byte)
    ensures Next(HZ, 0, c) == if Bad(HZ, c) then ERROR else if c == '~' as byte then 3 else START
  {
  }

  lemma NextHZ3(c: byte)
    ensures Next(HZ, 3, c) == if c == '~' as byte then START else if c == '{' as byte then 4 else ERROR
  {
  }

  lemma NextHZ4(c: byte)
    ensures Next(HZ, 4, c) == if Bad(HZ, c) then ERROR else if c == '~' as byte then 6 else 5
  {
  }

  lemma NextHZ5(c: byte)
    ensures Next(HZ, 5, c) == if Bad(HZ, c) then ERROR else 4
  {
  }

  lemma NextHZ6(c: byte)
    ensures Next(HZ, 6, c) == if Bad(HZ, c) then ERROR else if c == '}' as byte then ITS_ME else 4
  {
  }

  /** The state numbers that a machine can be in. */
  predicate Reachable(w: Which, state: nat) {
    state < StateCount(w) && !(w.CN? && state == 6)
  }

  lemma NextReachable(w: Which, state: nat, c: byte)
    requires Reachable(w, state)
    ensures Reachable(w, Next(w, state, c))
  {
    hide Next;
    match w
    case HZ => AbsorbingHZ(c); NextHZ0(c); NextHZ3(c); NextHZ4(c); NextHZ5(c); NextHZ6(c);
    case CN => AbsorbingCN(c); NextCN0(c); NextCN3(c); NextCN4(c); NextCN5(c);
    case JP => AbsorbingJP(c); NextJP0(c); NextJP3(c); NextJP4(c); NextJP5(c); NextJP6(c);
    case KR => AbsorbingKR(c); NextKR0(c); NextKR3(c); NextKR4(c); NextKR5(c);
  }

  /** The state after all bytes from the start: every index stays in the tables. */
  function Run(w: Which, bytes: seq<byte>): (state: nat)
    ensures Reachable(w, state)
  {
    if bytes == [] then START
    else
      var before := Run(w, bytes[..|bytes| - 1]);
      NextReachable(w, before, bytes[|bytes| - 1]);
      Next(w, before, bytes[|bytes| - 1])
  }

  lemma Absorbing(w: Which, state: nat, c: byte)
    requires state == ERROR || state == ITS_ME
    ensures Next(w, state, c) == state
  {
    match w
    case HZ => AbsorbingHZ(c);
    case CN => AbsorbingCN(c);
    case JP => AbsorbingJP(c);
    case KR => AbsorbingKR(c);
  }

  /** A verdict on a prefix is a verdict on the whole. */
  lemma {:induction false} VerdictStays(w: Which, bytes: seq<byte>, n: nat)
    requires n <= |bytes| && (Run(w, bytes[..n]) == ERROR || Run(w, bytes[..n]) == ITS_ME)
    ensures Run(w, bytes) == Run(w, bytes[..n])
    decreases |bytes|
  {
    if n == |bytes| {
      assert bytes[..n] == bytes;
    } else {
      assert bytes[..|bytes| - 1][..n] == bytes[..n];
      VerdictStays(w, bytes[..|bytes| - 1], n);
      Absorbing(w, Run(w, bytes[..n]), bytes[|bytes| - 1]);
    }
  }
}

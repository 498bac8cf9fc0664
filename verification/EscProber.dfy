/** EscCharSetProber of botocore/vendored/requests/packages/chardet/escprober.py. */
module EscProbers {
  import opened Results
  import opened EscMachines
  import opened EscLanguages

  datatype ProbeState = Detecting | FoundIt | NotMe

  datatype Machine = Machine(which: Which, state: nat, active: bool)

  datatype Probing = Probing(machines: seq<Machine>, activeCount: int, state: ProbeState, charset: Option<Which>)

  /** The machines in the order in which every byte is given to them. */
  const CODINGS := [HZ, CN, JP, KR]

  function Fresh(ws: seq<Which>): seq<Machine> {
    seq(|ws|, i requires 0 <= i < |ws| => Machine(ws[i], START, true))
  }

  const RESET := Probing(Fresh(CODINGS), |CODINGS|, Detecting, None)

  predicate InRange(m: Machine) {
    Reachable(m.which, m.state)
  }

  predicate Sound(p: Probing) {
    forall i :: 0 <= i < |p.machines| ==> InRange(p.machines[i])
  }

  function Step(m: Machine, c: byte): (r: Machine)
    requires InRange(m)
    ensures InRange(r)
  {
    NextReachable(m.which, m.state, c);
    var s := Next(m.which, m.state, c);
    m.(state := s, active := m.active && s != ERROR)
  }

  /** The turn of machine i on a byte, and whether feed returns there. */
  function Turn(p: Probing, c: byte, i: nat): (r: (Probing, bool))
    requires Sound(p) && i < |p.machines|
    ensures Sound(r.0) && |r.0.machines| == |p.machines|
  {
    if !p.machines[i].active then (p, false)
    else
      var m := Step(p.machines[i], c);
      var q := p.(machines := p.machines[i := m]);
      if m.state == ERROR then
        if q.activeCount - 1 <= 0 then (q.(activeCount := q.activeCount - 1, state := NotMe), true)
        else (q.(activeCount := q.activeCount - 1), false)
      else if m.state == ITS_ME then (q.(state := FoundIt, charset := Some(m.which)), true)
      else (q, false)
  }

  /** The loop over the machines, from machine i on. */
  function Visit(p: Probing, c: byte, i: nat): (r: (Probing, bool))
    requires Sound(p) && i <= |p.machines|
    ensures Sound(r.0) && |r.0.machines| == |p.machines|
    decreases |p.machines| - i
  {
    if i == |p.machines| then (p, false)
    else
      var (q, stop) := Turn(p, c, i);
      if stop then (q, true) else Visit(q, c, i + 1)
  }

  /** The loop over the bytes. */
  function FeedFrom(p: Probing, buf: seq<byte>): (r: (Probing, bool))
    requires Sound(p)
    ensures Sound(r.0)
    decreases |buf|
  {
    if buf == [] then (p, false)
    else
      var (q, stop) := Visit(p, buf[0], 0);
      if stop then (q, true) else FeedFrom(q, buf[1..])
  }

  function Feed(p: Probing, buf: seq<byte>): Probing
    requires Sound(p)
  {
    FeedFrom(p, buf).0
  }

  /** Until there is a verdict it does not matter how the bytes are cut into chunks. */
  lemma {:induction false} FeedChunks(p: Probing, a: seq<byte>, b: seq<byte>)
    requires Sound(p)
    ensures FeedFrom(p, a + b) == if FeedFrom(p, a).1 then FeedFrom(p, a) else FeedFrom(FeedFrom(p, a).0, b)
    decreases |a|
  {
    if a == [] {
      assert a + b == b;
    } else {
      var (q, stop) := Visit(p, a[0], 0);
      assert (a + b)[1..] == a[1..] + b && (a + b)[0] == a[0];
      if !stop { FeedChunks(q, a[1..], b); }
    }
  }

  // ----- The count of active machines

  function ActiveIn(machines: seq<Machine>): nat {
    if machines == [] then 0
    else ActiveIn(machines[..|machines| - 1]) + if machines[|machines| - 1].active then 1 else 0
  }

  predicate Counts(p: Probing) {
    p.activeCount == ActiveIn(p.machines)
  }

  lemma {:induction false} OneLess(machines: seq<Machine>, i: nat, m: Machine)
    requires i < |machines|
    ensures ActiveIn(machines[i := m]) ==
            ActiveIn(machines) - (if machines[i].active then 1 else 0) + (if m.active then 1 else 0)
    decreases |machines|
  {
    var n := |machines| - 1;
    if i < n {
      OneLess(machines[..n], i, m);
      assert machines[i := m][..n] == machines[..n][i := m];
    } else {
      assert machines[i := m][..n] == machines[..n];
    }
  }

  lemma TurnCounts(p: Probing, c: byte, i: nat)
    requires Sound(p) && Counts(p) && i < |p.machines|
    ensures Counts(Turn(p, c, i).0)
  {
    if p.machines[i].active { OneLess(p.machines, i, Step(p.machines[i], c)); }
    hide ActiveIn, Step, Sound;
  }

  lemma {:induction false} VisitCounts(p: Probing, c: byte, i: nat)
    requires Sound(p) && Counts(p) && i <= |p.machines|
    ensures Counts(Visit(p, c, i).0)
    decreases |p.machines| - i
  {
    hide Turn, Counts, Sound;
    if i < |p.machines| {
      TurnCounts(p, c, i);
      var (q, stop) := Turn(p, c, i);
      if !stop { VisitCounts(q, c, i + 1); }
    }
  }

  /** The counter always equals the number of active machines, even after a verdict. */
  lemma {:induction false} FeedCounts(p: Probing, buf: seq<byte>)
    requires Sound(p) && Counts(p)
    ensures Counts(Feed(p, buf))
    decreases |buf|
  {
    if buf != [] {
      VisitCounts(p, buf[0], 0);
      var (q, stop) := Visit(p, buf[0], 0);
      if !stop { FeedCounts(q, buf[1..]); }
    }
  }

  // ----- The verdict

  /** A machine has read these bytes, as far as it is still active, and has not recognized them. */
  ghost predicate Read(m: Machine, w: Which, bytes: seq<byte>) {
    var run := Run(w, bytes);
    m.which == w && run != ITS_ME && m.active == (run != ERROR) && (m.active ==> m.state == run)
  }

  /** In the middle of a byte: the machines before i have read it, the others have not. */
  ghost predicate Between(p: Probing, ws: seq<Which>, bytes: seq<byte>, c: byte, i: nat) {
    && Sound(p) && Counts(p) && p.state == Detecting && p.charset == None && p.activeCount > 0
    && |p.machines| == |ws| && i <= |ws|
    && (forall j :: 0 <= j < i ==> Read(p.machines[j], ws[j], bytes + [c]))
    && (forall j :: i <= j < |ws| ==> Read(p.machines[j], ws[j], bytes))
  }

  /** No verdict yet: all machines have read the bytes, and some are active. */
  ghost predicate Undecided(p: Probing, ws: seq<Which>, bytes: seq<byte>) {
    && Sound(p) && Counts(p) && p.state == Detecting && p.charset == None && p.activeCount > 0 && |p.machines| == |ws|
    && forall i :: 0 <= i < |ws| ==> Read(p.machines[i], ws[i], bytes)
  }

  ghost predicate AllDead(ws: seq<Which>, bytes: seq<byte>) {
    forall j :: 0 <= j < |ws| ==> Run(ws[j], bytes) == ERROR
  }

  lemma {:induction false} NoneActive(machines: seq<Machine>, j: nat)
    requires ActiveIn(machines) == 0 && j < |machines|
    ensures !machines[j].active
    decreases |machines|
  {
    var n := |machines| - 1;
    if j < n { NoneActive(machines[..n], j); }
  }

  lemma StepReads(m: Machine, w: Which, bytes: seq<byte>, c: byte)
    requires InRange(m) && Read(m, w, bytes)
    ensures m.active ==> Step(m, c).state == Run(w, bytes + [c])
    ensures !m.active ==> Run(w, bytes + [c]) == ERROR
    ensures Run(w, bytes + [c]) != ITS_ME ==> Read(if m.active then Step(m, c) else m, w, bytes + [c])
  {
    RunMore(w, bytes, c);
    if !m.active { Absorbing(w, ERROR, c); }
  }

  lemma {:induction false} InactiveIsDead(p: Probing, ws: seq<Which>, bytes: seq<byte>, c: byte, i: nat)
    requires Sound(p) && |p.machines| == |ws| && ActiveIn(p.machines) == 0 && i < |ws|
    requires forall j :: 0 <= j < i ==> Read(p.machines[j], ws[j], bytes + [c])
    requires forall j :: i < j < |ws| ==> Read(p.machines[j], ws[j], bytes)
    requires Run(ws[i], bytes + [c]) == ERROR
    ensures AllDead(ws, bytes + [c])
  {
    hide Run, ActiveIn, Step, InRange;
    assert forall j :: 0 <= j < |ws| ==> InRange(p.machines[j]);
    forall j | 0 <= j < |ws| ensures Run(ws[j], bytes + [c]) == ERROR {
      NoneActive(p.machines, j);
      if j < i { assert Read(p.machines[j], ws[j], bytes + [c]); }
      if j > i { StepReads(p.machines[j], ws[j], bytes, c); }
    }
  }

  lemma TurnReads(p: Probing, ws: seq<Which>, bytes: seq<byte>, c: byte, i: nat)
    requires Between(p, ws, bytes, c, i) && i < |ws|
    ensures
      var (q, stop) := Turn(p, c, i);
      if Run(ws[i], bytes + [c]) == ITS_ME then stop && q.state == FoundIt && q.charset == Some(ws[i])
      else if stop then q.state == NotMe && q.charset == None && AllDead(ws, bytes + [c])
      else Between(q, ws, bytes, c, i + 1)
  {
    var m := p.machines[i];
    var (q, stop) := Turn(p, c, i);
    assert Read(m, ws[i], bytes) && InRange(m);
    assert m.which == ws[i];
    hide Step, Read, Run, InRange, ActiveIn;
    StepReads(m, ws[i], bytes, c);
    TurnCounts(p, c, i);
    StepKeeps(m, c);
    assert q.machines == if m.active then p.machines[i := Step(m, c)] else p.machines;
    hide Sound, AllDead, Between;
    if stop && q.state == NotMe {
      OthersHaveRead(p, q, ws, bytes, c, i);
      InactiveIsDead(q, ws, bytes, c, i);
    } else if !stop {
      hide Turn;
      GoesOn(p, q, ws, bytes, c, i);
    }
  }

  lemma OthersHaveRead(p: Probing, q: Probing, ws: seq<Which>, bytes: seq<byte>, c: byte, i: nat)
    requires Between(p, ws, bytes, c, i) && i < |ws| && |q.machines| == |p.machines|
    requires forall j :: 0 <= j < |ws| && j != i ==> q.machines[j] == p.machines[j]
    ensures |q.machines| == |ws|
    ensures forall j :: 0 <= j < i ==> Read(q.machines[j], ws[j], bytes + [c])
    ensures forall j :: i < j < |ws| ==> Read(q.machines[j], ws[j], bytes)
  {
    hide Read, Sound, Counts;
  }

  lemma GoesOn(p: Probing, q: Probing, ws: seq<Which>, bytes: seq<byte>, c: byte, i: nat)
    requires Between(p, ws, bytes, c, i) && i < |ws| && |q.machines| == |p.machines|
    requires Sound(q) && Counts(q) && q.state == Detecting && q.charset == None && q.activeCount > 0
    requires forall j :: 0 <= j < |ws| && j != i ==> q.machines[j] == p.machines[j]
    requires Read(q.machines[i], ws[i], bytes + [c])
    ensures Between(q, ws, bytes, c, i + 1)
  {
    hide Read, Sound, Counts;
    OthersHaveRead(p, q, ws, bytes, c, i);
  }

  lemma StepKeeps(m: Machine, c: byte)
    requires InRange(m)
    ensures Step(m, c).which == m.which && Step(m, c).active == (m.active && Step(m, c).state != ERROR)
  {
  }

  /** Machine k recognizes the bytes, and no machine from i to k does. */
  ghost predicate FirstFrom(ws: seq<Which>, bytes: seq<byte>, i: nat, k: nat) {
    i <= k < |ws| && Run(ws[k], bytes) == ITS_ME && forall j :: i <= j < k ==> Run(ws[j], bytes) != ITS_ME
  }

  /** What holds when feed returns early. */
  ghost predicate Decided(p: Probing, ws: seq<Which>, bytes: seq<byte>, i: nat) {
    || (p.state == NotMe && p.charset == None && AllDead(ws, bytes))
    || (p.state == FoundIt && exists k: nat :: FirstFrom(ws, bytes, i, k) && p.charset == Some(ws[k]))
  }

  lemma {:induction false} VisitReads(p: Probing, ws: seq<Which>, bytes: seq<byte>, c: byte, i: nat)
    requires Between(p, ws, bytes, c, i)
    ensures
      var (q, stop) := Visit(p, c, i);
      if stop then Decided(q, ws, bytes + [c], i) else Undecided(q, ws, bytes + [c])
    decreases |ws| - i
  {
    hide Run, Turn, Read, InRange, Counts;
    if i < |ws| {
      TurnReads(p, ws, bytes, c, i);
      var (q, stop) := Turn(p, c, i);
      if stop {
        if q.state == FoundIt { assert FirstFrom(ws, bytes + [c], i, i); }
      } else {
        VisitReads(q, ws, bytes, c, i + 1);
        var (r, halt) := Visit(q, c, i + 1);
        if halt && r.state == FoundIt {
          var k: nat :| FirstFrom(ws, bytes + [c], i + 1, k) && r.charset == Some(ws[k]);
          assert FirstFrom(ws, bytes + [c], i, k);
        }
      }
    }
  }

  /** After n bytes machine k recognizes what it read; no machine recognized less, and none before it in the list did. */
  ghost predicate FirstToRecognize(ws: seq<Which>, bytes: seq<byte>, n: nat, k: nat) {
    && 0 < n <= |bytes| && FirstFrom(ws, bytes[..n], 0, k)
    && forall j :: 0 <= j < |ws| ==> Run(ws[j], bytes[..n - 1]) != ITS_ME
  }

  ghost predicate Verdict(p: Probing, ws: seq<Which>, bytes: seq<byte>) {
    match p.state
    case Detecting => Undecided(p, ws, bytes)
    case NotMe => AllDead(ws, bytes) && p.charset == None
    case FoundIt => exists n: nat, k: nat :: FirstToRecognize(ws, bytes, n, k) && p.charset == Some(ws[k])
  }

  lemma {:induction false} FeedReads(p: Probing, ws: seq<Which>, before: seq<byte>, buf: seq<byte>)
    requires Undecided(p, ws, before)
    ensures Verdict(Feed(p, buf), ws, before + buf)
    decreases |buf|
  {
    if buf == [] {
      assert before + buf == before;
    } else {
      var c, rest := buf[0], buf[1..];
      assert before + buf == (before + [c]) + rest;
      assert Between(p, ws, before, c, 0);
      VisitReads(p, ws, before, c, 0);
      var (q, stop) := Visit(p, c, 0);
      hide Visit, Undecided, Between, Run, Verdict, Decided;
      if !stop {
        FeedReads(q, ws, before + [c], rest);
      } else {
        DecidedStays(p, q, ws, before, c, rest);
      }
    }
  }

  lemma DecidedStays(p: Probing, q: Probing, ws: seq<Which>, before: seq<byte>, c: byte, rest: seq<byte>)
    requires Undecided(p, ws, before) && Decided(q, ws, before + [c], 0)
    ensures Verdict(q, ws, (before + [c]) + rest)
  {
    var bytes, n := (before + [c]) + rest, |before| + 1;
    assert bytes[..n] == before + [c] && bytes[..n - 1] == before;
    if q.state == NotMe {
      forall j | 0 <= j < |ws| ensures Run(ws[j], bytes) == ERROR {
        assert Run(ws[j], bytes[..n]) == ERROR;
        VerdictStays(ws[j], bytes, n);
      }
    } else {
      hide Run;
      var k: nat :| FirstFrom(ws, before + [c], 0, k) && q.charset == Some(ws[k]);
      assert forall j :: 0 <= j < |ws| ==> Read(p.machines[j], ws[j], before);
      assert FirstToRecognize(ws, bytes, n, k);
    }
  }

  ghost predicate SomeRecognizes(ws: seq<Which>, bytes: seq<byte>) {
    exists k :: 0 <= k < |ws| && Run(ws[k], bytes) == ITS_ME
  }

  lemma VerdictExact(p: Probing, ws: seq<Which>, bytes: seq<byte>)
    requires Verdict(p, ws, bytes) && ws != []
    ensures p.state == FoundIt <==> SomeRecognizes(ws, bytes)
    ensures p.state == NotMe <==> AllDead(ws, bytes)
  {
    hide Run;
    match p.state
    case FoundIt =>
      var n: nat, k: nat :| FirstToRecognize(ws, bytes, n, k) && p.charset == Some(ws[k]);
      VerdictStays(ws[k], bytes, n);
      assert Run(ws[k], bytes) == ITS_ME;
    case NotMe => assert Run(ws[0], bytes) == ERROR;
    case Detecting =>
      var i := ActiveOne(p.machines);
      assert Read(p.machines[i], ws[i], bytes);
      assert forall j :: 0 <= j < |ws| ==> Read(p.machines[j], ws[j], bytes);
  }

  lemma {:induction false} ActiveOne(machines: seq<Machine>) returns (i: nat)
    requires ActiveIn(machines) > 0
    ensures i < |machines| && machines[i].active
    decreases |machines|
  {
    var n := |machines| - 1;
    if machines[n].active { i := n; } else { i := ActiveOne(machines[..n]); }
  }

  lemma {:induction false} AllFresh(ws: seq<Which>)
    ensures ActiveIn(Fresh(ws)) == |ws|
    decreases |ws|
  {
    if ws != [] {
      AllFresh(ws[..|ws| - 1]);
      assert Fresh(ws)[..|ws| - 1] == Fresh(ws[..|ws| - 1]);
    }
  }

  lemma StartsUndecided()
    ensures Sound(RESET) && Undecided(RESET, CODINGS, [])
  {
    AllFresh(CODINGS);
  }

  /** From a reset the prober finds a charset exactly when one of its machines recognizes the bytes, and gives up exactly
      when all of them failed; the charset is that of the first machine to recognize some part. */
  lemma FeedVerdict(bytes: seq<byte>)
    ensures Sound(RESET)
    ensures
      var p := Feed(RESET, bytes);
      && (p.state == FoundIt <==> SomeRecognizes(CODINGS, bytes))
      && (p.state == NotMe <==> AllDead(CODINGS, bytes))
      && (p.charset.Some? <==> p.state == FoundIt)
      && (p.state == FoundIt ==> exists n: nat, k: nat :: FirstToRecognize(CODINGS, bytes, n, k) && p.charset == Some(CODINGS[k]))
  {
    StartsUndecided();
    FeedReads(RESET, CODINGS, [], bytes);
    assert [] + bytes == bytes;
    VerdictExact(Feed(RESET, bytes), CODINGS, bytes);
    hide Feed, Run, SomeRecognizes, AllDead, FirstToRecognize;
  }

  /** In terms of the bytes: the verdict on HZ, ISO-2022-JP and -KR is about how the bytes start, and ISO-2022-CN is
      never found. */
  lemma FoundCharsets(bytes: seq<byte>)
    ensures Sound(RESET)
    ensures
      var p := Feed(RESET, bytes);
      && (p.state == FoundIt <==>
           StartsHZ(bytes) || Starts(JP, bytes, JP_ESCAPES) || Starts(KR, bytes, KR_ESCAPES))
      && p.charset != Some(CN)
      && (p.charset == Some(HZ) ==> StartsHZ(bytes))
      && (p.charset == Some(JP) ==> Starts(JP, bytes, JP_ESCAPES))
      && (p.charset == Some(KR) ==> Starts(KR, bytes, KR_ESCAPES))
  {
    FeedVerdict(bytes);
    FourCodings(bytes);
    NeverCN(bytes);
    RecognizesHZ(bytes);
    RecognizesJP(bytes);
    RecognizesKR(bytes);
    hide Feed, Run, Starts, StartsHZ, SomeRecognizes;
    var p := Feed(RESET, bytes);
    if p.state == FoundIt {
      var n: nat, k: nat :| FirstToRecognize(CODINGS, bytes, n, k) && p.charset == Some(CODINGS[k]);
      VerdictStays(CODINGS[k], bytes, n);
    }
  }

  lemma FourCodings(bytes: seq<byte>)
    ensures SomeRecognizes(CODINGS, bytes) <==>
      Run(HZ, bytes) == ITS_ME || Run(CN, bytes) == ITS_ME || Run(JP, bytes) == ITS_ME || Run(KR, bytes) == ITS_ME
  {
    hide Run;
    assert CODINGS[0] == HZ && CODINGS[1] == CN && CODINGS[2] == JP && CODINGS[3] == KR;
  }

  // ----- The objects

  class CodingStateMachine {
    const which: Which
    var state: nat
    var active: bool

    constructor (which: Which)
      ensures this.which == which && state == START && active
    {
      this.which, state, active := which, START, true;
    }

    method Reset()
      modifies this
      ensures state == START && active == old(active)
    {
      state := START;
    }

    method NextState(c: byte) returns (next: nat)
      requires Reachable(which, state)
      modifies this`state
      ensures next == state == Next(which, old(state), c)
    {
      state := Next(which, state, c);
      next := state;
    }
  }

  class EscCharSetProber {
    const machines: seq<CodingStateMachine>
    var activeCount: int
    var state: ProbeState
    var charset: Option<Which>

    ghost function View(): Probing
      reads this, machines
    {
      Probing(seq(|machines|, i requires 0 <= i < |machines| reads this, machines =>
                Machine(machines[i].which, machines[i].state, machines[i].active)), activeCount, state, charset)
    }

    ghost predicate Valid()
      reads this, machines
    {
      && |machines| == |CODINGS| && (forall i :: 0 <= i < |machines| ==> machines[i].which == CODINGS[i])
      && (forall i, j :: 0 <= i < j < |machines| ==> machines[i] != machines[j])
      && Sound(View())
    }

    constructor ()
      ensures Valid() && View() == RESET && fresh(machines)
    {
      var hz := new CodingStateMachine(HZ);
      var cn := new CodingStateMachine(CN);
      var jp := new CodingStateMachine(JP);
      var kr := new CodingStateMachine(KR);
      machines := [hz, cn, jp, kr];
      activeCount, state, charset := 4, Detecting, None;
    }

    method Reset()
      requires Valid()
      modifies this, machines
      ensures Valid() && View() == RESET
    {
      state := Detecting;
      for i := 0 to |machines|
        modifies machines
        invariant forall j :: 0 <= j < i ==> machines[j].active && machines[j].state == START
      {
        machines[i].active := true;
        machines[i].Reset();
      }
      activeCount := |machines|;
      charset := None;
      assert View().machines == Fresh(CODINGS);
    }

    /** Give the bytes to the machines until there is a verdict. */
    method FeedBytes(buf: seq<byte>) returns (s: ProbeState)
      requires Valid()
      modifies this, machines
      ensures Valid() && View() == Feed(old(View()), buf) && s == state
    {
      ghost var start := View();
      assert buf[0..] == buf;
      for k := 0 to |buf|
        invariant Valid() && FeedFrom(start, buf) == FeedFrom(View(), buf[k..])
      {
        assert buf[k..][0] == buf[k] && buf[k..][1..] == buf[k + 1..];
        var stop := FeedByte(buf[k]);
        if stop { return state; }
      }
      return state;
    }

    /** The loop over the machines. */
    method FeedByte(c: byte) returns (stop: bool)
      requires Valid()
      modifies this, machines
      ensures Valid() && (View(), stop) == Visit(old(View()), c, 0)
    {
      ghost var start := View();
      for i := 0 to |machines|
        invariant Valid() && Visit(start, c, 0) == Visit(View(), c, i)
      {
        stop := FeedMachine(c, i);
        if stop { return; }
      }
      stop := false;
    }

    method FeedMachine(c: byte, i: nat) returns (stop: bool)
      requires Valid() && i < |machines|
      modifies this, machines[i]
      ensures Valid() && (View(), stop) == Turn(old(View()), c, i)
    {
      var m := machines[i];
      if !m.active { return false; }
      assert InRange(View().machines[i]);
      var next := m.NextState(c);
      if next == ERROR {
        m.active := false;
        activeCount := activeCount - 1;
        if activeCount <= 0 {
          state := NotMe;
          stop := true;
        } else {
          stop := false;
        }
      } else if next == ITS_ME {
        state := FoundIt;
        charset := Some(m.which);
        stop := true;
      } else {
        stop := false;
      }
      assert View().machines == old(View()).machines[i := Step(old(View()).machines[i], c)];
    }
  }
}

/** A counted unique id that an emitter shares with its copy. */
module SharedCounts {
  import opened Results
  import opened Dots
  import opened TrieSpec
  import opened EmitterSpec
  import opened EmitterFamilies

  /** Register with a counted id, copy, register again on the copy, unregister on the first. */
  function SharedCalls(h: Handler): seq<Call> {
    [RegisterCall(0, "a", h, Some("id"), true, Middle), CopyCall(0), RegisterCall(1, "a", h, Some("id"), true, Middle),
     UnregisterCall(0, "a", h, Some("id"), true)]
  }

  lemma OneHandler(h: Handler)
    ensures SplitDots("a") == ["a"]
    ensures
      var vals := Append(map[], ["a"], h, Middle);
      && Search(vals, ["a"]) == [h]
      && Search(AfterRemove(vals, ["a"], h), ["a"]) == []
  {
    assert DotAt("a", 0) == 1;
    var vals := Append(map[], ["a"], h, Middle);
    assert ["a"] in vals && vals[["a"]] == Handlers([], [h], []);
    var after := AfterRemove(vals, ["a"], h);
    assert [h][1..] == [];
    assert after[["a"]] == NO_HANDLERS;
    assert ["a"][1..] == [] && [] + ["*"] == ["*"] && [] + ["a"] == ["a"];
    assert ["*"] != ["a"] by { assert ["*"][0] != ["a"][0]; }
  }

  /** The state after registering with the counted id n times. */
  function CountedState(h: Handler, n: nat): State {
    State(Append(map[], ["a"], h, Middle), map["id" := Uid(h, Some(n))])
  }

  lemma CountedSteps(h: Handler)
    ensures SplitDots("a") == ["a"]
    ensures Heard(CountedState(h, 1), "a") == [h]
    ensures Register(EMPTY, "a", h, Some("id"), true, Middle) == (CountedState(h, 1), Done)
    ensures Register(CountedState(h, 1), "a", h, Some("id"), true, Middle) == (CountedState(h, 2), Done)
    ensures Unregister(CountedState(h, 2), "a", h, Some("id"), true) == (CountedState(h, 1), Done)
    ensures Heard(Unregister(CountedState(h, 1), "a", h, Some("id"), true).0, "a") == []
  {
    OneHandler(h);
    hide SplitDots, Search, Append, AfterRemove;
    var vals := Append(map[], ["a"], h, Middle);
    assert map["id" := Uid(h, Some(1))]["id" := Uid(h, Some(2))] == map["id" := Uid(h, Some(2))];
    assert map["id" := Uid(h, Some(2))]["id" := Uid(h, Some(1))] == map["id" := Uid(h, Some(1))];
    assert Unregister(CountedState(h, 1), "a", h, Some("id"), true).0.vals == AfterRemove(vals, ["a"], h);
  }

  /** Had the copy a count of its own, the first emitter would be left with nothing to call. */
  lemma CopiedCountsWouldRemove(h: Handler)
    ensures Playable(SharedCalls(h)) && Heard(RunAlone(SharedCalls(h), 4)[0], "a") == []
  {
    CountedSteps(h);
    hide SplitDots, Register, Unregister, CountedState, Heard;
    var calls := SharedCalls(h);
    assert Count(calls, 1) == 1 && Count(calls, 2) == 2 && Count(calls, 3) == 2;
    assert RunAlone(calls, 1)[0] == CountedState(h, 1);
    assert RunAlone(calls, 2)[0] == CountedState(h, 1);
    assert RunAlone(calls, 3)[0] == CountedState(h, 1);
  }

  /** Emitters that hold the handler and share its entry. */
  function Counted(h: Handler, n: nat, emitters: nat): (f: Family)
    ensures Rooted(f) && |f.members| == emitters
  {
    var m := Member(CountedState(h, 1).vals, map["id" := 0]);
    Family([Shared("id", Uid(h, Some(n)))], seq(emitters, _ => m))
  }

  lemma CountedView(h: Handler, n: nat, emitters: nat, i: nat)
    requires i < emitters
    ensures View(Counted(h, n, emitters), i) == CountedState(h, n)
  {
    hide Append;
    assert View(Counted(h, n, emitters), i).uids == map["id" := Uid(h, Some(n))];
  }

  lemma CountedFirst(h: Handler)
    ensures Store(FIRST, 0, Some("id"), CountedState(h, 1)) == Counted(h, 1, 1)
  {
    hide Append;
    assert map[]["id" := 0] == map["id" := 0];
    assert Store(FIRST, 0, Some("id"), CountedState(h, 1)).members == Counted(h, 1, 1).members;
  }

  lemma CountedAgain(h: Handler, n: nat, m: nat, i: nat)
    requires i < 2
    ensures Store(Counted(h, n, 2), i, Some("id"), CountedState(h, m)) == Counted(h, m, 2)
  {
    hide Append;
    var f := Counted(h, n, 2);
    assert f.entries[0 := Shared("id", Uid(h, Some(m)))] == [Shared("id", Uid(h, Some(m)))];
    assert f.members[i := f.members[i]] == f.members;
  }

  lemma CountedCopy(h: Handler)
    ensures Play(Counted(h, 1, 1), CopyCall(0)) == Counted(h, 1, 2)
  {
    hide Append;
    assert Play(Counted(h, 1, 1), CopyCall(0)).members == Counted(h, 1, 2).members;
  }

  lemma Plays(f: Family, call: Call, st: State, out: Outcome)
    requires Rooted(f) && call.who < |f.members| && Changes(call) && Changed(View(f, call.who), call) == (st, out)
    ensures Play(f, call) == Store(f, call.who, call.uid, st)
  {
  }

  lemma SharedRun(calls: seq<Call>, f1: Family, f2: Family, f3: Family, f4: Family)
    requires |calls| == 4 && Playable(calls) && calls[0].who == 0
    requires Play(FIRST, calls[0]) == f1 && Rooted(f1) && calls[1].who < |f1.members| && Play(f1, calls[1]) == f2
    requires Rooted(f2) && calls[2].who < |f2.members| && Play(f2, calls[2]) == f3
    requires Rooted(f3) && calls[3].who < |f3.members| && Play(f3, calls[3]) == f4
    ensures RunFamily(calls, 4) == f4
  {
    hide Play;
    assert RunFamily(calls, 1) == f1;
    assert RunFamily(calls, 2) == f2;
    assert RunFamily(calls, 3) == f3;
  }

  /** The copy counts in the same entry, so the handler stays. */
  lemma SharedCountKeepsHandler(h: Handler)
    ensures
      var calls := SharedCalls(h);
      Playable(calls) && |RunFamily(calls, 4).members| == 2 && Heard(View(RunFamily(calls, 4), 0), "a") == [h]
  {
    hide *;
    var calls := SharedCalls(h);
    Playable4(h);
    StepOne(h);
    CountedCopy(h);
    StepThree(h);
    StepFour(h);
    SharedRun(calls, Counted(h, 1, 1), Counted(h, 1, 2), Counted(h, 2, 2), Counted(h, 1, 2));
    CountedView(h, 1, 2, 0);
    CountedSteps(h);
  }

  lemma Playable4(h: Handler)
    ensures
      var calls := SharedCalls(h);
      && |calls| == 4 && Playable(calls) && calls[0].who == 0 && calls[1] == CopyCall(0)
      && calls[2].who == 1 && calls[3].who == 0 && Count(calls, 4) == 2
  {
    var calls := SharedCalls(h);
    assert Count(calls, 1) == 1 && Count(calls, 2) == 2 && Count(calls, 3) == 2;
  }

  lemma StepOne(h: Handler)
    ensures Play(FIRST, SharedCalls(h)[0]) == Counted(h, 1, 1)
  {
    hide View, Register, Unregister, Store, Counted, CountedState, Heard, SplitDots, Play, Views;
    CountedSteps(h);
    FirstView();
    Plays(FIRST, SharedCalls(h)[0], CountedState(h, 1), Done);
    CountedFirst(h);
  }

  lemma StepThree(h: Handler)
    ensures Play(Counted(h, 1, 2), SharedCalls(h)[2]) == Counted(h, 2, 2)
  {
    hide View, Register, Unregister, Store, Counted, CountedState, Heard, SplitDots, Play;
    CountedSteps(h);
    CountedView(h, 1, 2, 1);
    Plays(Counted(h, 1, 2), SharedCalls(h)[2], CountedState(h, 2), Done);
    CountedAgain(h, 1, 2, 1);
  }

  lemma StepFour(h: Handler)
    ensures Play(Counted(h, 2, 2), SharedCalls(h)[3]) == Counted(h, 1, 2)
  {
    hide View, Register, Unregister, Store, Counted, CountedState, Heard, SplitDots, Play;
    CountedSteps(h);
    CountedView(h, 2, 2, 0);
    Plays(Counted(h, 2, 2), SharedCalls(h)[3], CountedState(h, 1), Done);
    CountedAgain(h, 2, 1, 0);
  }
}

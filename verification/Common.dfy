/** Result types shared by the models. */
module Results {
  datatype Option<+T> = None | Some(value: T)

  datatype Result<+T, +E> = Ok(value: T) | Err(error: E) {
    predicate IsFailure() { Err? }

    function PropagateFailure<U>(): (r: Result<U, E>)
      requires Err?
    {
      Err(error)
    }

    function Extract(): T
      requires Ok?
    {
      value
    }
  }
}

/** Decimal numerals: Python's str(int) and int(str). */
module Numerals {
  import opened Results

  predicate IsDigit(c: char) {
    '0' <= c <= '9'
  }

  predicate AllDigits(s: string) {
    forall i :: 0 <= i < |s| ==> IsDigit(s[i])
  }

  function NatText(n: nat): (s: string)
    ensures s != "" && AllDigits(s)
  {
    var d := ['0' + (n % 10) as char];
    if n < 10 then d else NatText(n / 10) + d
  }

  function DigitsValue(s: string): nat
    requires AllDigits(s)
  {
    if s == "" then 0
    else 10 * DigitsValue(s[..|s| - 1]) + (s[|s| - 1] - '0') as nat
  }

  function IntText(i: int): (s: string)
    ensures s != ""
  {
    if i < 0 then "-" + NatText(-i) else NatText(i)
  }

  /** int(text) for an optional sign followed by ASCII digits. */
  function ReadInt(s: string): Option<int> {
    if s != "" && (s[0] == '-' || s[0] == '+') then
      if s[1..] != "" && AllDigits(s[1..]) then
        var n: int := DigitsValue(s[1..]);
        Some(if s[0] == '-' then -n else n)
      else None
    else if s != "" && AllDigits(s) then Some(DigitsValue(s))
    else None
  }

  lemma {:induction false} NatTextValue(n: nat)
    ensures DigitsValue(NatText(n)) == n
  {
    var s := NatText(n);
    if n < 10 {
      assert s[..0] == "";
    } else {
      assert s[..|s| - 1] == NatText(n / 10);
      NatTextValue(n / 10);
    }
  }

  /** Only digits with at most one sign are read. */
  lemma ReadIntIs(s: string)
    ensures
      var digits := if s != "" && (s[0] == '-' || s[0] == '+') then s[1..] else s;
      if digits == "" || !AllDigits(digits) then ReadInt(s) == None
      else
        var n: int := DigitsValue(digits);
        ReadInt(s) == Some(if s[0] == '-' then -n else n)
  {
  }

  lemma ReadIntOfText(i: int)
    ensures ReadInt(IntText(i)) == Some(i)
  {
    if i < 0 {
      NatTextValue(-i);
      assert IntText(i)[1..] == NatText(-i);
    } else {
      NatTextValue(i);
      assert IsDigit(NatText(i)[0]);
    }
  }

  lemma NatTextInjective(m: nat, n: nat)
    requires NatText(m) == NatText(n)
    ensures m == n
  {
    NatTextValue(m);
    NatTextValue(n);
  }
}

/** Runs of assignments d[key] = value into a dictionary. */
module Assignments {
  datatype Write<+V> = Write(key: string, value: V)

  /** The dictionary after the assignments, in order. */
  function Stored<V>(dict: map<string, V>, ws: seq<Write<V>>): map<string, V> {
    if ws == [] then dict else Stored(dict, ws[..|ws| - 1])[ws[|ws| - 1].key := ws[|ws| - 1].value]
  }

  predicate Distinct<V>(ws: seq<Write<V>>) {
    forall i, j :: 0 <= i < j < |ws| ==> ws[i].key != ws[j].key
  }

  predicate Apart<V>(a: seq<Write<V>>, b: seq<Write<V>>) {
    forall i, j :: 0 <= i < |a| && 0 <= j < |b| ==> a[i].key != b[j].key
  }

  lemma DistinctBoth<V>(a: seq<Write<V>>, b: seq<Write<V>>)
    requires Distinct(a) && Distinct(b) && Apart(a, b)
    ensures Distinct(a + b)
  {
  }

  lemma StoredOne<V>(dict: map<string, V>, w: Write<V>)
    ensures Stored(dict, [w]) == dict[w.key := w.value]
  {
    assert [w][..0] == [];
  }

  lemma {:induction false} StoredBoth<V>(dict: map<string, V>, a: seq<Write<V>>, b: seq<Write<V>>)
    ensures Stored(Stored(dict, a), b) == Stored(dict, a + b)
    decreases |b|
  {
    if b == [] {
      assert a + b == a;
    } else {
      var n := |b| - 1;
      assert (a + b)[..|a + b| - 1] == a + b[..n];
      StoredBoth(dict, a, b[..n]);
    }
  }

  lemma {:induction false} StoredKeys<V>(ws: seq<Write<V>>, key: string)
    ensures key in Stored(map[], ws) <==> exists i :: 0 <= i < |ws| && ws[i].key == key
    ensures |Stored(map[], ws)| <= |ws|
    decreases |ws|
  {
    if ws != [] {
      StoredKeys(ws[..|ws| - 1], key);
    }
  }

  /** Every assignment survives in the dictionary exactly when no key is assigned twice. */
  lemma {:induction false} AllSurviveIffDistinct<V>(ws: seq<Write<V>>)
    ensures Distinct(ws) <==> |Stored(map[], ws)| == |ws|
    ensures Distinct(ws) ==>
      forall i :: 0 <= i < |ws| ==> ws[i].key in Stored(map[], ws) && Stored(map[], ws)[ws[i].key] == ws[i].value
    decreases |ws|
  {
    if ws != [] {
      var before, last := ws[..|ws| - 1], ws[|ws| - 1];
      AllSurviveIffDistinct(before);
      StoredKeys(before, last.key);
      if Distinct(ws) {
        assert Distinct(before);
      } else if Distinct(before) {
        var i, j :| 0 <= i < j < |ws| && ws[i].key == ws[j].key;
        assert before[i].key == last.key;
      }
    }
  }
}

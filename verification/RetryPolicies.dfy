/** When an attempt is retried, told from the policies of the configuration alone. */
module RetryPolicies {
  import opened Results
  import opened Numerals
  import opened RetryHandlers
  import opened RetryLoop

  // ----- What one policy has to say

  /** The policy asks for a retry of the response: its status, and its error code if it names one. */
  predicate Wants(p: Policy, r: Response) {
    && p.response.Some?
    && p.response.value.httpStatusCode == Some(r.status)
    && (p.response.value.serviceErrorCode.Some? ==> p.response.value.serviceErrorCode == r.errorCode)
  }

  /** The policy looks at the checksum of the body, and at nothing else. */
  predicate ChecksBody(p: Policy) {
    && p.response.Some? && p.response.value.crc32body.Some?
    && p.response.value.httpStatusCode.None? && p.response.value.serviceErrorCode.None?
  }

  predicate WrongChecksum(p: Policy, r: Response) {
    ChecksBody(p) && Corrupt(p.response.value.crc32body.value, r)
  }

  /** The header holds no number. */
  predicate NoChecksum(p: Policy, r: Response) {
    && ChecksBody(p) && p.response.value.crc32body.value in r.headers
    && ReadInt(r.headers[p.response.value.crc32body.value]).None?
  }

  predicate WatchesConnection(p: Policy) {
    p.response.None? && p.socketErrors.Some?
  }

  /** Neither a response nor socket errors: there is no checker to call. */
  predicate Unset(p: Policy) {
    p.response.None? && p.socketErrors.None?
  }

  predicate Speaks(p: Policy, a: Attempt) {
    || Unset(p)
    || match a
       case Responded(r) => Wants(p, r) || WrongChecksum(p, r) || NoChecksum(p, r)
       case Failed(_) => WatchesConnection(p)
  }

  predicate SpeaksFirst(policies: seq<Policy>, a: Attempt, k: nat) {
    k < |policies| && Speaks(policies[k], a) && forall i :: 0 <= i < k ==> !Speaks(policies[i], a)
  }

  /** An exception that some policy wants to see retried. */
  predicate Retryable(policies: seq<Policy>, e: Exn) {
    exists i :: 0 <= i < |policies| && RetryableBy(policies[i], e)
  }

  predicate RetryableBy(p: Policy, e: Exn) {
    if p.response.Some? && p.response.value.crc32body.Some? then "ChecksumError" in e.classes
    else
      && p.socketErrors.Some? && p.socketErrors.value != []
      && e.classes * {"ConnectionError", "ClosedPoolError", "Timeout", "EndpointConnectionError"} != {}
  }

  /** The default policies, then those of the operation. */
  function InForce(config: Config, operation: Option<string>): seq<Policy> {
    match operation
    case None => config.default.policies
    case Some(name) => config.default.policies + if name in config.operations then config.operations[name] else []
  }

  /** The verdict when policy k is the first to speak: alone it may not have its exception retried. */
  function Decision(policies: seq<Policy>, k: nat, below: bool, a: Attempt): Verdict
    requires k < |policies|
  {
    var p := policies[k];
    if Unset(p) then Raises(TYPE_ERROR)
    else
      match a
      case Responded(r) =>
        if Wants(p, r) then if below then Yes else No
        else if WrongChecksum(p, r) then if below && |policies| > 1 then Yes else Raises(CHECKSUM_ERROR)
        else Raises(VALUE_ERROR)
      case Failed(e) => if below && |policies| > 1 && Retryable(policies, e) then Yes else Raises(e)
  }

  // ----- The checkers of the policies

  lemma {:induction false} CheckerAt(policies: seq<Policy>, k: nat)
    requires Gather(policies).Ok? && k < |policies|
    ensures |Gather(policies).value.checkers| == |policies|
    ensures SingleChecker(policies[k]) == Ok(Gather(policies).value.checkers[k])
    decreases |policies|
  {
    OneCheckerEach(policies);
    var n := |policies| - 1;
    OneCheckerEach(policies[..n]);
    if k < n {
      CheckerAt(policies[..n], k);
    }
  }

  /** What the checker of a policy makes of an attempt. */
  lemma CheckOfPolicy(p: Policy, a: Attempt)
    requires SingleChecker(p).Ok?
    ensures
      var v := Check(SingleChecker(p).value, a);
      && (v != No <==> Speaks(p, a))
      && (Speaks(p, a) ==>
            v == if Unset(p) then Raises(TYPE_ERROR)
                 else match a
                      case Responded(r) =>
                        if Wants(p, r) then Yes else if WrongChecksum(p, r) then Raises(CHECKSUM_ERROR) else Raises(VALUE_ERROR)
                      case Failed(e) => Raises(e))
  {
    hide ReadInt;
  }

  lemma {:induction false} SocketCatches(names: seq<string>, e: Exn)
    requires SocketClasses(names).Ok?
    ensures Catches(SocketClasses(names).value, e) <==>
            names != [] && e.classes * {"ConnectionError", "ClosedPoolError", "Timeout", "EndpointConnectionError"} != {}
    decreases |names|
  {
    if names != [] {
      SocketCatches(names[1..], e);
      CatchesBoth(CONNECTION_CLASSES, SocketClasses(names[1..]).value, e);
      ConnectionCatches(e);
    }
  }

  lemma ConnectionCatches(e: Exn)
    ensures Catches(CONNECTION_CLASSES, e) <==>
            e.classes * {"ConnectionError", "ClosedPoolError", "Timeout", "EndpointConnectionError"} != {}
  {
    var meet := e.classes * {"ConnectionError", "ClosedPoolError", "Timeout", "EndpointConnectionError"};
    assert forall n :: n in CONNECTION_CLASSES <==> n in {"ConnectionError", "ClosedPoolError", "Timeout", "EndpointConnectionError"};
    if Catches(CONNECTION_CLASSES, e) {
      var n :| n in CONNECTION_CLASSES && n in e.classes;
      assert n in meet;
    }
    if meet != {} {
      var n :| n in meet;
      assert n in CONNECTION_CLASSES;
    }
  }

  lemma CatchesBoth(a: seq<string>, b: seq<string>, e: Exn)
    ensures Catches(a + b, e) <==> Catches(a, e) || Catches(b, e)
  {
    if n :| n in a && n in e.classes {
      assert n in a + b;
    }
    if n :| n in b && n in e.classes {
      assert n in a + b;
    }
  }

  lemma ClassesCatch(p: Policy, e: Exn)
    requires RetryableClasses(p).Ok?
    ensures Catches(RetryableClasses(p).value, e) <==> RetryableBy(p, e)
  {
    if p.response.Some? && p.response.value.crc32body.Some? {
      assert "ChecksumError" in ["ChecksumError"];
    } else if p.socketErrors.Some? {
      SocketCatches(p.socketErrors.value, e);
    }
  }

  lemma {:induction false} GatheredCatch(policies: seq<Policy>, e: Exn)
    requires Gather(policies).Ok?
    ensures Catches(Gather(policies).value.retryable, e) <==> Retryable(policies, e)
    decreases |policies|
  {
    if policies != [] {
      var n := |policies| - 1;
      GatheredCatch(policies[..n], e);
      ClassesCatch(policies[n], e);
      CatchesBoth(Gather(policies[..n]).value.retryable, RetryableClasses(policies[n]).value, e);
      hide RetryableBy, Catches, RetryableClasses, SingleChecker;
      assert forall i :: 0 <= i < n ==> policies[..n][i] == policies[i];
      if i :| 0 <= i < |policies| && RetryableBy(policies[i], e) {
        assert i < n ==> RetryableBy(policies[..n][i], e);
      }
      if i :| 0 <= i < n && RetryableBy(policies[..n][i], e) {
        assert RetryableBy(policies[i], e);
      }
    }
  }

  lemma FirstToSpeak(policies: seq<Policy>, a: Attempt, k: nat)
    requires Gather(policies).Ok? && k <= |policies|
    requires forall i :: 0 <= i < k ==> !Speaks(policies[i], a)
    ensures |Gather(policies).value.checkers| == |policies|
    ensures k == |policies| ==> FirstVerdict(Gather(policies).value.checkers, a) == No
    ensures k < |policies| && Speaks(policies[k], a) ==>
      SingleChecker(policies[k]).Ok? &&
      FirstVerdict(Gather(policies).value.checkers, a) == Check(SingleChecker(policies[k]).value, a)
  {
    OneCheckerEach(policies);
    var checkers := Gather(policies).value.checkers;
    forall i | 0 <= i < |policies|
      ensures SingleChecker(policies[i]) == Ok(checkers[i])
      ensures Check(checkers[i], a) != No <==> Speaks(policies[i], a)
    {
      CheckerAt(policies, i);
      CheckOfPolicy(policies[i], a);
    }
    hide Check, Speaks, Gather, SingleChecker;
    FirstVerdictAt(checkers, a, k);
  }

  lemma KnownErrorsPass(policies: seq<Policy>)
    ensures Retryable(policies, CHECKSUM_ERROR) <==>
            exists i :: 0 <= i < |policies| && policies[i].response.Some? && policies[i].response.value.crc32body.Some?
    ensures !Retryable(policies, VALUE_ERROR) && !Retryable(policies, TYPE_ERROR)
  {
    assert CHECKSUM_ERROR.classes * {"ConnectionError", "ClosedPoolError", "Timeout", "EndpointConnectionError"} == {};
    assert VALUE_ERROR.classes * {"ConnectionError", "ClosedPoolError", "Timeout", "EndpointConnectionError"} == {};
    assert TYPE_ERROR.classes * {"ConnectionError", "ClosedPoolError", "Timeout", "EndpointConnectionError"} == {};
  }

  // ----- The whole decision

  /** The first policy that has something to say of an attempt decides; without one it is not retried. */
  lemma DecidedByPolicies(config: Config, operation: Option<string>, attempts: int, a: Attempt)
    requires CheckerFor(config, operation).Ok?
    ensures
      var policies, below := InForce(config, operation), attempts < config.default.maxAttempts;
      var v := Decide(CheckerFor(config, operation).value, attempts, a);
      && ((forall i :: 0 <= i < |policies| ==> !Speaks(policies[i], a)) ==> v == No)
      && (forall k: nat :: SpeaksFirst(policies, a, k) ==> v == Decision(policies, k, below, a))
  {
    var policies, below := InForce(config, operation), attempts < config.default.maxAttempts;
    assert policies == Policies(config, operation) by {
      assert config.default.policies + [] == config.default.policies;
    }
    var d := CheckerFor(config, operation).value;
    var v := Decide(d, attempts, a);
    hide Policies, InForce, Decide, Speaks, Retryable, Gather, FirstVerdict;
    FirstToSpeak(policies, a, 0);
    if forall i :: 0 <= i < |policies| ==> !Speaks(policies[i], a) {
      FirstToSpeak(policies, a, |policies|);
      Declined(d, attempts, a);
    }
    forall k: nat | SpeaksFirst(policies, a, k)
      ensures v == Decision(policies, k, below, a)
    {
      FirstToSpeak(policies, a, k);
      CheckOfPolicy(policies[k], a);
      SpokenVerdict(policies, d, k, attempts, a);
    }
  }

  lemma Declined(d: Decorated, attempts: int, a: Attempt)
    requires FirstVerdict(d.checkers, a) == No
    ensures Decide(d, attempts, a) == No
  {
  }

  lemma SpokenVerdict(policies: seq<Policy>, d: Decorated, k: nat, attempts: int, a: Attempt)
    requires Gather(policies).Ok? && k < |policies| && Speaks(policies[k], a)
    requires d.checkers == Gather(policies).value.checkers && |d.checkers| == |policies|
    requires d.retryable == if |d.checkers| == 1 then [] else Gather(policies).value.retryable
    requires SingleChecker(policies[k]).Ok? && FirstVerdict(d.checkers, a) == Check(SingleChecker(policies[k]).value, a)
    ensures Decide(d, attempts, a) == Decision(policies, k, attempts < d.maxAttempts, a)
  {
    var raw := FirstVerdict(d.checkers, a);
    CheckOfPolicy(policies[k], a);
    KnownErrorsPass(policies);
    if raw.Raises? {
      GatheredCatch(policies, raw.exception);
    }
    hide Gather, FirstVerdict, Check, Retryable, SingleChecker, Corrupt, ReadInt, Catches;
    DecideExact(d, attempts, a);
  }

  /** No policy that looks at checksums or lacks a condition, by its place in the configuration. */
  predicate OnlyStatusAndSockets(policies: seq<Policy>) {
    forall i :: 0 <= i < |policies| ==> !ChecksBody(policies[i]) && !Unset(policies[i])
  }

  predicate SomeWants(policies: seq<Policy>, r: Response) {
    exists i :: 0 <= i < |policies| && Wants(policies[i], r)
  }

  /** A response is retried below the limit exactly when a default policy or one of the operation asks for it. */
  lemma RetriedIffWanted(config: Config, operation: Option<string>, attempts: int, r: Response)
    requires CheckerFor(config, operation).Ok?
    requires OnlyStatusAndSockets(config.default.policies)
    requires operation.Some? && operation.value in config.operations ==> OnlyStatusAndSockets(config.operations[operation.value])
    ensures
      var v := Decide(CheckerFor(config, operation).value, attempts, Responded(r));
      && (v == Yes <==>
            && attempts < config.default.maxAttempts
            && (SomeWants(config.default.policies, r)
                || (operation.Some? && operation.value in config.operations && SomeWants(config.operations[operation.value], r))))
      && (v == Yes || v == No)
  {
    var policies := InForce(config, operation);
    var v := Decide(CheckerFor(config, operation).value, attempts, Responded(r));
    DecidedByPolicies(config, operation, attempts, Responded(r));
    hide CheckerFor, Decide, Wants;
    var own := if operation.Some? && operation.value in config.operations then config.operations[operation.value] else [];
    assert policies == config.default.policies + own;
    forall i | 0 <= i < |policies|
      ensures Speaks(policies[i], Responded(r)) <==> Wants(policies[i], r)
    {
      assert policies[i] == if i < |config.default.policies| then config.default.policies[i] else own[i - |config.default.policies|];
    }
    EitherWants(config.default.policies, own, r);
    if SomeWants(policies, r) {
      var k := FirstWant(policies, r);
      assert SpeaksFirst(policies, Responded(r), k);
      assert v == Decision(policies, k, attempts < config.default.maxAttempts, Responded(r));
    }
  }

  lemma EitherWants(a: seq<Policy>, b: seq<Policy>, r: Response)
    ensures SomeWants(a + b, r) <==> SomeWants(a, r) || SomeWants(b, r)
  {
    hide Wants;
    if i :| 0 <= i < |a| && Wants(a[i], r) {
      assert Wants((a + b)[i], r);
    }
    if i :| 0 <= i < |b| && Wants(b[i], r) {
      assert Wants((a + b)[|a| + i], r);
    }
  }

  lemma {:induction false} FirstWant(policies: seq<Policy>, r: Response) returns (k: nat)
    requires SomeWants(policies, r)
    ensures k < |policies| && Wants(policies[k], r) && forall i :: 0 <= i < k ==> !Wants(policies[i], r)
    decreases |policies|
  {
    hide Wants;
    var n := |policies| - 1;
    if SomeWants(policies[..n], r) {
      k := FirstWant(policies[..n], r);
      assert forall i :: 0 <= i < n ==> policies[..n][i] == policies[i];
    } else {
      assert forall i :: 0 <= i < n ==> policies[..n][i] == policies[i];
      k := n;
    }
  }

  // ----- Configurations that cannot be used

  /** An error code without a status, or a socket error of another name. */
  predicate LacksKey(p: Policy) {
    if p.response.Some? && p.response.value.serviceErrorCode.Some? && p.response.value.httpStatusCode.None? then true
    else
      && !NoCondition(p) && !(p.response.Some? && p.response.value.crc32body.Some?) && p.socketErrors.Some?
      && exists i :: 0 <= i < |p.socketErrors.value| && p.socketErrors.value[i] != "GENERAL_CONNECTION_ERROR"
  }

  /** A response with no condition on it. */
  predicate NoCondition(p: Policy) {
    && p.response.Some? && p.response.value.serviceErrorCode.None?
    && p.response.value.httpStatusCode.None? && p.response.value.crc32body.None?
  }

  predicate Unusable(p: Policy) {
    LacksKey(p) || NoCondition(p)
  }

  predicate FirstUnusable(policies: seq<Policy>, k: nat) {
    k < |policies| && Unusable(policies[k]) && forall i :: 0 <= i < k ==> !Unusable(policies[i])
  }

  lemma {:induction false} SocketNames(names: seq<string>)
    ensures SocketClasses(names).Ok? <==> forall i :: 0 <= i < |names| ==> names[i] == "GENERAL_CONNECTION_ERROR"
    ensures SocketClasses(names).Err? ==> SocketClasses(names).error == KeyError
    decreases |names|
  {
    if names != [] {
      SocketNames(names[1..]);
      assert forall i :: 1 <= i < |names| ==> names[i] == names[1..][i - 1];
      assert forall i :: 0 <= i < |names| - 1 ==> names[1..][i] == names[i + 1];
    }
  }

  /** How one policy fails to become a checker with exceptions. */
  lemma PolicyFails(p: Policy)
    ensures
      var checker, classes := SingleChecker(p), RetryableClasses(p);
      && (checker.Err? || classes.Err? <==> Unusable(p))
      && (checker.Err? ==> checker.error == if NoCondition(p) then NameError else KeyError)
      && (checker.Ok? && classes.Err? ==> classes.error == KeyError && !NoCondition(p))
  {
    if p.socketErrors.Some? {
      SocketNames(p.socketErrors.value);
    }
  }

  /** The first policy that cannot be used says how the configuration fails; without one it gives a checker. */
  lemma {:induction false} GatherFails(policies: seq<Policy>)
    ensures Gather(policies).Ok? <==> forall i :: 0 <= i < |policies| ==> !Unusable(policies[i])
    ensures forall k: nat :: FirstUnusable(policies, k) ==> Gather(policies) == Err(if NoCondition(policies[k]) then NameError else KeyError)
    decreases |policies|
  {
    if policies != [] {
      var n := |policies| - 1;
      GatherFails(policies[..n]);
      PolicyFails(policies[n]);
      hide Unusable, NoCondition, SingleChecker, RetryableClasses;
      assert forall i :: 0 <= i < n ==> policies[..n][i] == policies[i];
      forall k: nat | FirstUnusable(policies, k) && k < n
        ensures FirstUnusable(policies[..n], k)
      {
      }
    }
  }

  lemma ConfigurationFails(config: Config, operation: Option<string>)
    ensures
      var policies := InForce(config, operation);
      && (CheckerFor(config, operation).Ok? <==> forall i :: 0 <= i < |policies| ==> !Unusable(policies[i]))
      && (forall k: nat :: FirstUnusable(policies, k) ==>
            CheckerFor(config, operation) == Err(if NoCondition(policies[k]) then NameError else KeyError))
  {
    var policies := InForce(config, operation);
    assert policies == Policies(config, operation) by {
      assert config.default.policies + [] == config.default.policies;
    }
    hide InForce, Policies, Unusable, NoCondition;
    GatherFails(policies);
  }

  // ----- What the retry handler answers

  /** A lone retry handler sleeps after an attempt exactly when the policies decide for a retry, and so long. */
  lemma SleepsAsDecided(d: Decorated, base: real, growth: real, attempts: nat, a: Attempt)
    requires attempts >= 1 && base > 0.0
    ensures
      var answer := Judge([Retrying(d, Exponential(Fixed(base), growth))], attempts, a);
      match Decide(d, attempts, a)
      case Yes => answer == Sleep(base * Power(growth, attempts - 1))
      case No => answer == Nothing
      case Raises(e) => answer == Throws(e)
  {
    hide Decide, Power;
    var handler := Retrying(d, Exponential(Fixed(base), growth));
    assert [handler][1..] == [] && Judge([], attempts, a) == Nothing;
  }

  /** A random base is drawn anew for every attempt. */
  lemma SleepsAsDrawn(d: Decorated, draws: nat -> real, growth: real, attempts: nat, a: Attempt)
    requires attempts >= 1 && Decide(d, attempts, a) == Yes
    ensures Judge([Retrying(d, Exponential(Rand(draws), growth))], attempts, a) == Sleep(draws(attempts) * Power(growth, attempts - 1))
  {
    hide Decide, Power;
    var handler := Retrying(d, Exponential(Rand(draws), growth));
    assert [handler][1..] == [] && Judge([], attempts, a) == Nothing;
  }
}

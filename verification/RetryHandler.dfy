/** The checkers and retry handlers of botocore/retryhandler.py. */
module RetryHandlers {
  import opened Results
  import opened Numerals

  /** An exception object with the names of all classes it is an instance of. */
  datatype Exn = Exn(classes: set<string>, id: nat)

  predicate Catches(names: seq<string>, e: Exn) {
    exists n :: n in names && n in e.classes
  }

  /** An HTTP response with the CRC-32 of its body, and the error code of the parsed response. */
  datatype Response = Response(status: int, headers: map<string, string>, crc: int, errorCode: Option<string>)

  /** One attempt gives a response or an exception, never both. */
  datatype Attempt = Responded(response: Response) | Failed(exception: Exn)

  datatype Checker =
    | StatusCodeChecker(status: int)
    | ServiceErrorCodeChecker(status: int, errorCode: string)
    | Crc32Checker(header: string)
    | ExceptionRaiser
    | NotCallable

  datatype Verdict = Yes | No | Raises(exception: Exn)

  const CHECKSUM_ERROR := Exn({"ChecksumError", "BotoCoreError", "Exception"}, 0)
  const VALUE_ERROR := Exn({"ValueError", "Exception"}, 0)
  const TYPE_ERROR := Exn({"TypeError", "Exception"}, 0)

  /** One checker's verdict. */
  function Check(c: Checker, a: Attempt): Verdict {
    match c
    case StatusCodeChecker(status) => if a.Responded? && a.response.status == status then Yes else No
    case ServiceErrorCodeChecker(status, code) =>
      if a.Responded? && a.response.status == status && a.response.errorCode == Some(code) then Yes else No
    case Crc32Checker(header) =>
      if a.Failed? || header !in a.response.headers then No
      else
        var expected := ReadInt(a.response.headers[header]);
        if expected.None? then Raises(VALUE_ERROR)
        else if expected.value == a.response.crc then No
        else Raises(CHECKSUM_ERROR)
    case ExceptionRaiser => if a.Failed? then Raises(a.exception) else No
    case NotCallable => Raises(TYPE_ERROR)
  }

  /** The first checker that does not decline. */
  function FirstVerdict(checkers: seq<Checker>, a: Attempt): Verdict {
    if checkers == [] then No
    else
      var v := Check(checkers[0], a);
      if v != No then v else FirstVerdict(checkers[1..], a)
  }

  lemma {:induction false} FirstVerdictAt(checkers: seq<Checker>, a: Attempt, k: nat)
    requires k <= |checkers| && forall i :: 0 <= i < k ==> Check(checkers[i], a) == No
    ensures FirstVerdict(checkers, a) ==
            if k == |checkers| then No
            else if Check(checkers[k], a) != No then Check(checkers[k], a)
            else FirstVerdict(checkers[k + 1..], a)
    decreases |checkers|
  {
    if k > 0 {
      FirstVerdictAt(checkers[1..], a, k - 1);
      assert k < |checkers| ==> checkers[1..][k - 1 + 1..] == checkers[k + 1..];
    }
  }

  /** MultiChecker. */
  method RunCheckers(checkers: seq<Checker>, a: Attempt) returns (v: Verdict)
    ensures v == FirstVerdict(checkers, a)
  {
    for i := 0 to |checkers|
      invariant forall k :: 0 <= k < i ==> Check(checkers[k], a) == No
    {
      FirstVerdictAt(checkers, a, i);
      v := Check(checkers[i], a);
      if v != No { return; }
    }
    FirstVerdictAt(checkers, a, |checkers|);
    v := No;
  }

  // ----- The limit on attempts

  /** A MaxAttemptsDecorator over its checkers. */
  datatype Decorated = Decorated(checkers: seq<Checker>, maxAttempts: int, retryable: seq<string>)

  /** MaxAttemptsDecorator.__call__. */
  function Decide(d: Decorated, attempts: int, a: Attempt): Verdict {
    var raw := FirstVerdict(d.checkers, a);
    var should :=
      if d.retryable != [] && attempts < d.maxAttempts && raw.Raises? && Catches(d.retryable, raw.exception) then Yes else raw;
    if should == Yes && attempts >= d.maxAttempts then No else should
  }

  // ----- Delays

  /** A fixed base, or 'rand' with the number drawn at each attempt. */
  datatype Base = Rand(draws: nat -> real) | Fixed(value: real)

  /** What a handler does once its checker agrees. */
  datatype Action = Exponential(base: Base, growth: real) | NoAction

  function Power(g: real, n: nat): real {
    if n == 0 then 1.0 else g * Power(g, n - 1)
  }

  datatype Answer = Nothing | Sleep(seconds: real) | Throws(exception: Exn)

  /** delay_exponential. */
  function Act(action: Action, attempts: nat): Answer
    requires attempts >= 1
  {
    match action
    case NoAction => Throws(TYPE_ERROR)
    case Exponential(base, growth) =>
      if base.Fixed? && base.value <= 0.0 then Throws(VALUE_ERROR)
      else Sleep((if base.Rand? then base.draws(attempts) else base.value) * Power(growth, attempts - 1))
  }

  /** RetryHandler.__call__. */
  function Handle(d: Decorated, action: Action, attempts: nat, a: Attempt): Answer
    requires attempts >= 1
  {
    match Decide(d, attempts, a)
    case Yes => Act(action, attempts)
    case No => Nothing
    case Raises(e) => Throws(e)
  }

  // ----- Creating checkers from a configuration

  datatype ResponseRule = ResponseRule(serviceErrorCode: Option<string>, httpStatusCode: Option<int>, crc32body: Option<string>)

  /** The applies_when part of a policy. */
  datatype Policy = Policy(response: Option<ResponseRule>, socketErrors: Option<seq<string>>)

  datatype Default = Default(policies: seq<Policy>, maxAttempts: int)

  datatype Config = Config(default: Default, operations: map<string, seq<Policy>>)

  datatype ConfigError = KeyError | NameError

  const CONNECTION_CLASSES := ["ConnectionError", "ClosedPoolError", "Timeout", "EndpointConnectionError"]

  function ResponseChecker(r: ResponseRule): Result<Checker, ConfigError> {
    if r.serviceErrorCode.Some? then
      if r.httpStatusCode.Some? then Ok(ServiceErrorCodeChecker(r.httpStatusCode.value, r.serviceErrorCode.value))
      else Err(KeyError)
    else if r.httpStatusCode.Some? then Ok(StatusCodeChecker(r.httpStatusCode.value))
    else if r.crc32body.Some? then Ok(Crc32Checker(r.crc32body.value))
    // The message of the intended ValueError refers to a name that is not defined there.
    else Err(NameError)
  }

  function SingleChecker(p: Policy): Result<Checker, ConfigError> {
    if p.response.Some? then ResponseChecker(p.response.value)
    else if p.socketErrors.Some? then Ok(ExceptionRaiser)
    else Ok(NotCallable)
  }

  function SocketClasses(names: seq<string>): Result<seq<string>, ConfigError> {
    if names == [] then Ok([])
    else if names[0] != "GENERAL_CONNECTION_ERROR" then Err(KeyError)
    else
      var rest :- SocketClasses(names[1..]);
      Ok(CONNECTION_CLASSES + rest)
  }

  function RetryableClasses(p: Policy): Result<seq<string>, ConfigError> {
    if p.response.Some? && p.response.value.crc32body.Some? then Ok(["ChecksumError"])
    else if p.socketErrors.Some? then SocketClasses(p.socketErrors.value)
    else Ok([])
  }

  datatype Gathered = Gathered(checkers: seq<Checker>, retryable: seq<string>)

  function Gather(policies: seq<Policy>): Result<Gathered, ConfigError> {
    if policies == [] then Ok(Gathered([], []))
    else
      var last := policies[|policies| - 1];
      var before :- Gather(policies[..|policies| - 1]);
      var checker :- SingleChecker(last);
      var classes :- RetryableClasses(last);
      Ok(Gathered(before.checkers + [checker], before.retryable + classes))
  }

  /** The default policies, then those of the operation. */
  function Policies(config: Config, operation: Option<string>): seq<Policy> {
    config.default.policies
    + if operation.Some? && operation.value in config.operations then config.operations[operation.value] else []
  }

  /** create_checker_from_retry_config: a lone checker is decorated without the retryable exceptions. */
  function CheckerFor(config: Config, operation: Option<string>): Result<Decorated, ConfigError> {
    var g :- Gather(Policies(config, operation));
    Ok(Decorated(g.checkers, config.default.maxAttempts, if |g.checkers| == 1 then [] else g.retryable))
  }

  lemma {:induction false} ErrorStays(policies: seq<Policy>, k: nat)
    requires k <= |policies| && Gather(policies[..k]).Err?
    ensures Gather(policies) == Gather(policies[..k])
    decreases |policies|
  {
    if k == |policies| {
      assert policies[..k] == policies;
    } else {
      assert policies[..|policies| - 1][..k] == policies[..k];
      ErrorStays(policies[..|policies| - 1], k);
    }
  }

  /** The loops that collect the checkers and the exceptions they want to see retried. */
  method GatherCheckers(policies: seq<Policy>) returns (r: Result<Gathered, ConfigError>)
    ensures r == Gather(policies)
  {
    var checkers, retryable := [], [];
    assert policies[..0] == [];
    for i := 0 to |policies|
      invariant Gather(policies[..i]) == Ok(Gathered(checkers, retryable))
    {
      assert policies[..i + 1][..i] == policies[..i];
      if Gather(policies[..i + 1]).Err? { ErrorStays(policies, i + 1); }
      var checker := SingleChecker(policies[i]);
      if checker.Err? { return Err(checker.error); }
      var classes := RetryableClasses(policies[i]);
      if classes.Err? { return Err(classes.error); }
      checkers, retryable := checkers + [checker.value], retryable + classes.value;
    }
    assert policies[..|policies|] == policies;
    return Ok(Gathered(checkers, retryable));
  }

  method CreateChecker(config: Config, operation: Option<string>) returns (r: Result<Decorated, ConfigError>)
    ensures r == CheckerFor(config, operation)
  {
    var g := GatherCheckers(Policies(config, operation));
    if g.Err? { return Err(g.error); }
    if |g.value.checkers| == 1 {
      return Ok(Decorated(g.value.checkers, config.default.maxAttempts, []));
    }
    return Ok(Decorated(g.value.checkers, config.default.maxAttempts, g.value.retryable));
  }

  // ----- What the checkers amount to

  /** An attempt is retried below the limit when a checker says so or raises an exception that is to be retried. */
  lemma DecideExact(d: Decorated, attempts: int, a: Attempt)
    ensures
      var raw := FirstVerdict(d.checkers, a);
      && (Decide(d, attempts, a) == Yes <==>
            attempts < d.maxAttempts && (raw == Yes || (raw.Raises? && Catches(d.retryable, raw.exception))))
      && (attempts >= d.maxAttempts ==> Decide(d, attempts, a) == if raw == Yes then No else raw)
      && (Decide(d, attempts, a).Raises? ==> Decide(d, attempts, a) == raw)
  {
  }

  /** On a failed attempt a checker raises the exception again, or declines. */
  lemma {:induction false} OnFailure(checkers: seq<Checker>, e: Exn)
    requires NotCallable !in checkers
    ensures FirstVerdict(checkers, Failed(e)) == if ExceptionRaiser in checkers then Raises(e) else No
    decreases |checkers|
  {
    if checkers != [] {
      OnFailure(checkers[1..], e);
      assert checkers == [checkers[0]] + checkers[1..];
    }
  }

  /** The exception is one that a socket_errors policy names. */
  predicate Named(policies: seq<Policy>, e: Exn) {
    exists i :: 0 <= i < |policies| && NamedBy(policies[i], e)
  }

  predicate NamedBy(p: Policy, e: Exn) {
    p.response.None? && p.socketErrors.Some? && p.socketErrors.value != [] && Catches(CONNECTION_CLASSES, e)
  }

  lemma {:induction false} OneCheckerEach(policies: seq<Policy>)
    requires Gather(policies).Ok?
    ensures |Gather(policies).value.checkers| == |policies|
    decreases |policies|
  {
    if policies != [] { OneCheckerEach(policies[..|policies| - 1]); }
  }

  lemma {:induction false} GatherNames(policies: seq<Policy>, e: Exn)
    requires Gather(policies).Ok? && Named(policies, e)
    ensures ExceptionRaiser in Gather(policies).value.checkers && Catches(Gather(policies).value.retryable, e)
    decreases |policies|
  {
    var i :| 0 <= i < |policies| && NamedBy(policies[i], e);
    var last := |policies| - 1;
    var g, classes := Gather(policies).value, RetryableClasses(policies[last]).value;
    if i == last {
      assert g.checkers[last] == ExceptionRaiser by { OneCheckerEach(policies); OneCheckerEach(policies[..last]); }
      var n :| n in CONNECTION_CLASSES && n in e.classes;
      assert n in classes;
    } else {
      assert NamedBy(policies[..last][i], e);
      GatherNames(policies[..last], e);
    }
  }

  /** Below the limit a named connection error is retried exactly when the configuration has more than the one checker:
      a lone checker loses the exceptions it should retry, and the error is raised at once. */
  lemma NamedErrorRetriedUnlessAlone(config: Config, operation: Option<string>, e: Exn, attempts: int)
    requires CheckerFor(config, operation).Ok? && Named(Policies(config, operation), e)
    requires attempts < config.default.maxAttempts
    requires NotCallable !in CheckerFor(config, operation).value.checkers
    ensures
      var d := CheckerFor(config, operation).value;
      Decide(d, attempts, Failed(e)) == if |d.checkers| == 1 then Raises(e) else Yes
  {
    var policies := Policies(config, operation);
    GatherNames(policies, e);
    OnFailure(CheckerFor(config, operation).value.checkers, e);
  }

  // ----- Corrupted bodies

  /** The header holds a number that is not the checksum of the body. */
  predicate Corrupt(header: string, r: Response) {
    header in r.headers && ReadInt(r.headers[header]).Some? && ReadInt(r.headers[header]).value != r.crc
  }

  /** The checker that decides finds the body corrupted. */
  ghost predicate FoundCorrupt(checkers: seq<Checker>, r: Response) {
    exists k :: 0 <= k < |checkers| && checkers[k].Crc32Checker? && Corrupt(checkers[k].header, r)
                && forall i :: 0 <= i < k ==> Check(checkers[i], Responded(r)) == No
  }

  lemma {:induction false} OnCorruption(checkers: seq<Checker>, r: Response)
    ensures FirstVerdict(checkers, Responded(r)) == Raises(CHECKSUM_ERROR) <==> FoundCorrupt(checkers, r)
    decreases |checkers|
  {
    if checkers != [] {
      var rest := checkers[1..];
      OnCorruption(rest, r);
      assert "ValueError" in VALUE_ERROR.classes && "TypeError" in TYPE_ERROR.classes;
      assert CHECKSUM_ERROR != VALUE_ERROR && CHECKSUM_ERROR != TYPE_ERROR;
      assert Check(checkers[0], Responded(r)) == Raises(CHECKSUM_ERROR) <==>
             checkers[0].Crc32Checker? && Corrupt(checkers[0].header, r);
      if Check(checkers[0], Responded(r)) == No {
        CorruptLater(checkers, r);
      }
    }
  }

  lemma CorruptLater(checkers: seq<Checker>, r: Response)
    requires checkers != [] && Check(checkers[0], Responded(r)) == No
    ensures FoundCorrupt(checkers[1..], r) <==> FoundCorrupt(checkers, r)
  {
    var rest := checkers[1..];
    assert forall k :: 1 <= k < |checkers| ==> checkers[k] == rest[k - 1];
    hide Corrupt;
    if k :| 0 <= k < |rest| && rest[k].Crc32Checker? && Corrupt(rest[k].header, r) &&
            forall i :: 0 <= i < k ==> Check(rest[i], Responded(r)) == No {
      assert checkers[k + 1] == rest[k];
    }
    if k :| 0 <= k < |checkers| && checkers[k].Crc32Checker? && Corrupt(checkers[k].header, r) &&
            forall i :: 0 <= i < k ==> Check(checkers[i], Responded(r)) == No {
      assert Check(checkers[k], Responded(r)) != No;
      assert rest[k - 1] == checkers[k];
    }
  }

  lemma {:induction false} CrcIsRetryable(policies: seq<Policy>, k: nat)
    requires Gather(policies).Ok? && k < |Gather(policies).value.checkers| && Gather(policies).value.checkers[k].Crc32Checker?
    ensures "ChecksumError" in Gather(policies).value.retryable
    decreases |policies|
  {
    OneCheckerEach(policies);
    var n := |policies| - 1;
    OneCheckerEach(policies[..n]);
    if k < n {
      CrcIsRetryable(policies[..n], k);
    }
  }

  /** Below the limit a response with a corrupted body is retried exactly when the configuration has more than the one
      checker: the lone one raises the checksum error that it should have retried. At the limit it is raised either way. */
  lemma ChecksumRetriedUnlessAlone(config: Config, operation: Option<string>, r: Response, attempts: int)
    requires CheckerFor(config, operation).Ok? && FoundCorrupt(CheckerFor(config, operation).value.checkers, r)
    ensures
      var d := CheckerFor(config, operation).value;
      Decide(d, attempts, Responded(r)) ==
      if |d.checkers| == 1 || attempts >= config.default.maxAttempts then Raises(CHECKSUM_ERROR) else Yes
  {
    var checkers := CheckerFor(config, operation).value.checkers;
    OnCorruption(checkers, r);
    var k :| 0 <= k < |checkers| && checkers[k].Crc32Checker?;
    CrcIsRetryable(Policies(config, operation), k);
    assert "ChecksumError" in CHECKSUM_ERROR.classes;
  }
}

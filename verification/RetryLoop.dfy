/** Endpoint._send_request of botocore/endpoint.py over an arbitrary sequence of attempts. */
module RetryLoop {
  import opened Results
  import opened RetryHandlers

  /** What is registered for needs-retry: retry handlers, or anything else that answers. */
  datatype Handler = Retrying(checker: Decorated, action: Action) | Other(answer: (nat, Attempt) -> Answer)

  function AnswerOf(h: Handler, attempts: nat, a: Attempt): Answer
    requires attempts >= 1
  {
    match h
    case Retrying(d, action) => Handle(d, action, attempts, a)
    case Other(answer) => answer(attempts, a)
  }

  /** The first answer of all handlers; every handler runs, so one that raises outweighs an earlier answer. */
  function Judge(handlers: seq<Handler>, attempts: nat, a: Attempt): Answer
    requires attempts >= 1
  {
    if handlers == [] then Nothing
    else
      var first := AnswerOf(handlers[0], attempts, a);
      if first.Throws? then first
      else
        var rest := Judge(handlers[1..], attempts, a);
        if rest.Throws? || first.Nothing? then rest else first
  }

  lemma {:induction false} JudgeAt(handlers: seq<Handler>, attempts: nat, a: Attempt, k: nat)
    requires attempts >= 1 && k <= |handlers|
    ensures
      var before, rest := Judge(handlers[..k], attempts, a), Judge(handlers[k..], attempts, a);
      Judge(handlers, attempts, a) ==
        if before.Throws? then before else if rest.Throws? || before.Nothing? then rest else before
    decreases |handlers|
  {
    if k == 0 {
      assert handlers[..0] == [] && handlers[0..] == handlers;
    } else {
      JudgeAt(handlers[1..], attempts, a, k - 1);
      assert handlers[1..][..k - 1] == handlers[..k][1..] && handlers[1..][k - 1..] == handlers[k..];
    }
  }

  /** _needs_retry: emit to all handlers, then the first response that is not None. */
  method NeedsRetry(handlers: seq<Handler>, attempts: nat, a: Attempt) returns (verdict: Answer)
    requires attempts >= 1
    ensures verdict == Judge(handlers, attempts, a)
  {
    var answer: Option<real> := None;
    assert handlers[..0] == [];
    for i := 0 to |handlers|
      invariant Judge(handlers[..i], attempts, a) == if answer.None? then Nothing else Sleep(answer.value)
    {
      JudgeAt(handlers[..i + 1], attempts, a, i);
      assert handlers[..i + 1][..i] == handlers[..i] && handlers[..i + 1][i..] == [handlers[i]];
      assert [handlers[i]][1..] == [];
      JudgeAt(handlers, attempts, a, i + 1);
      var response := AnswerOf(handlers[i], attempts, a);
      if response.Throws? { return response; }
      if answer.None? && response.Sleep? { answer := Some(response.seconds); }
    }
    assert handlers[..|handlers|] == handlers;
    verdict := if answer.None? then Nothing else Sleep(answer.value);
  }

  datatype Outcome = Returned(response: Response) | Raised(exception: Exn)

  /** From the limit on no attempt is judged retryable. */
  ghost predicate Stops(handlers: seq<Handler>, limit: nat) {
    forall n: nat, a :: n >= 1 && n >= limit ==> !Judge(handlers, n, a).Sleep?
  }

  /** The seconds slept before attempt n. */
  function Slept(handlers: seq<Handler>, service: nat -> Attempt, n: nat): real {
    if n <= 1 then 0.0
    else
      var judged := Judge(handlers, n - 1, service(n - 1));
      Slept(handlers, service, n - 1) + if judged.Sleep? then judged.seconds else 0.0
  }

  /** Every attempt but the last was judged retryable; the outcome is that of the last attempt, or what a checker raised
      about it; and the limit is kept. */
  method SendRequest(handlers: seq<Handler>, service: nat -> Attempt, ghost limit: nat)
    returns (outcome: Outcome, attempts: nat, slept: real)
    requires Stops(handlers, limit)
    ensures 1 <= attempts && (attempts == 1 || attempts <= limit)
    ensures forall k :: 1 <= k < attempts ==> Judge(handlers, k, service(k)).Sleep?
    ensures slept == Slept(handlers, service, attempts)
    ensures
      match Judge(handlers, attempts, service(attempts))
      case Sleep(_) => false
      case Throws(e) => outcome == Raised(e)
      case Nothing =>
        outcome == match service(attempts)
                   case Responded(r) => Returned(r)
                   case Failed(e) => Raised(e)
  {
    attempts, slept := 1, 0.0;
    var result := service(attempts);
    var judged := NeedsRetry(handlers, attempts, result);
    while judged.Sleep?
      invariant 1 <= attempts && (attempts == 1 || attempts <= limit)
      invariant result == service(attempts) && judged == Judge(handlers, attempts, result)
      invariant forall k :: 1 <= k < attempts ==> Judge(handlers, k, service(k)).Sleep?
      invariant slept == Slept(handlers, service, attempts)
      decreases limit - attempts
    {
      slept := slept + judged.seconds;
      attempts := attempts + 1;
      result := service(attempts);
      judged := NeedsRetry(handlers, attempts, result);
    }
    if judged.Throws? { return Raised(judged.exception), attempts, slept; }
    match result
    case Failed(e) => outcome := Raised(e);
    case Responded(r) => outcome := Returned(r);
  }

  // ----- Limits and delays of retry handlers

  /** Handlers that only answer below the limit. */
  ghost predicate Limited(handlers: seq<Handler>, limit: nat) {
    forall i :: 0 <= i < |handlers| ==>
      match handlers[i]
      case Retrying(d, _) => d.maxAttempts <= limit
      case Other(answer) => forall n: nat, a :: n >= 1 ==> !answer(n, a).Sleep?
  }

  lemma {:induction false} LimitedJudge(handlers: seq<Handler>, limit: nat, n: nat, a: Attempt)
    requires Limited(handlers, limit) && n >= 1 && n >= limit
    ensures !Judge(handlers, n, a).Sleep?
    decreases |handlers|
  {
    if handlers != [] {
      assert forall i :: 0 <= i < |handlers[1..]| ==> handlers[1..][i] == handlers[i + 1];
      LimitedJudge(handlers[1..], limit, n, a);
      if handlers[0].Retrying? { DecideExact(handlers[0].checker, n, a); }
    }
  }

  /** When all that answer are retry handlers with at most `limit` attempts, no more requests than that are sent. */
  lemma RetryHandlersStop(handlers: seq<Handler>, limit: nat)
    requires Limited(handlers, limit)
    ensures Stops(handlers, limit)
  {
    forall n: nat, a | n >= 1 && n >= limit ensures !Judge(handlers, n, a).Sleep? {
      LimitedJudge(handlers, limit, n, a);
    }
  }

  lemma PowerStep(g: real, n: nat)
    ensures Power(g, n + 1) == g * Power(g, n)
  {
  }

  /** One step of the geometric sum, without the division. */
  lemma SumStep(base: real, g: real, p: real, total: real)
    requires total * (g - 1.0) == base * (p - 1.0)
    ensures (total + base * p) * (g - 1.0) == base * (g * p - 1.0)
  {
  }

  lemma Divided(total: real, d: real, x: real)
    requires total * d == x && d != 0.0
    ensures total == x / d
  {
  }

  /** The handler has a fixed base above zero, and the first n - 1 attempts were judged retryable. */
  ghost predicate Exponentially(handler: Handler, base: real, g: real, service: nat -> Attempt, n: nat) {
    && handler.Retrying? && handler.action == Exponential(Fixed(base), g) && base > 0.0 && n >= 1
    && forall k :: 1 <= k < n ==> Judge([handler], k, service(k)).Sleep?
  }

  lemma OneSleep(handler: Handler, base: real, g: real, service: nat -> Attempt, n: nat)
    requires n > 1 && Exponentially(handler, base, g, service, n)
    ensures Slept([handler], service, n) == Slept([handler], service, n - 1) + base * Power(g, n - 2)
  {
    var a := service(n - 1);
    assert [handler][1..] == [] && Judge([], n - 1, a) == Nothing;
    assert Judge([handler], n - 1, a).Sleep?;
    assert AnswerOf(handler, n - 1, a) == Judge([handler], n - 1, a);
    assert AnswerOf(handler, n - 1, a) == Act(handler.action, n - 1);
  }

  lemma {:induction false} GeometricTotal(handler: Handler, base: real, g: real, service: nat -> Attempt, n: nat)
    requires Exponentially(handler, base, g, service, n)
    ensures Slept([handler], service, n) * (g - 1.0) == base * (Power(g, n - 1) - 1.0)
    decreases n
  {
    if n > 1 {
      GeometricTotal(handler, base, g, service, n - 1);
      OneSleep(handler, base, g, service, n);
      PowerStep(g, n - 2);
      hide Power, Slept, Exponentially;
      SumStep(base, g, Power(g, n - 2), Slept([handler], service, n - 1));
    }
  }

  lemma {:induction false} PowerOfOne(n: nat)
    ensures Power(1.0, n) == 1.0
    decreases n
  {
    if n > 0 { PowerOfOne(n - 1); }
  }

  lemma {:induction false} ConstantTotal(handler: Handler, base: real, service: nat -> Attempt, n: nat)
    requires Exponentially(handler, base, 1.0, service, n)
    ensures Slept([handler], service, n) == base * ((n - 1) as real)
    decreases n
  {
    if n > 1 {
      ConstantTotal(handler, base, service, n - 1);
      OneSleep(handler, base, 1.0, service, n);
      PowerOfOne(n - 2);
      hide Power, Slept, Exponentially;
    }
  }

  /** With one handler of fixed base and growth g the sleeps form a geometric series. */
  lemma GeometricSleep(handler: Handler, base: real, g: real, service: nat -> Attempt, n: nat)
    requires Exponentially(handler, base, g, service, n)
    ensures Slept([handler], service, n) ==
            if g == 1.0 then base * ((n - 1) as real) else base * (Power(g, n - 1) - 1.0) / (g - 1.0)
  {
    if g == 1.0 {
      ConstantTotal(handler, base, service, n);
    } else {
      GeometricTotal(handler, base, g, service, n);
      hide Power, Slept, Exponentially;
      Divided(Slept([handler], service, n), g - 1.0, base * (Power(g, n - 1) - 1.0));
    }
  }
}

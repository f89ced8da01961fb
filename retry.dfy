/** The retry rule of the download routine. A status error is retried
    for 429, 502, 503 and 504 while `retry_count < MAX_RETRIES`; a transport
    error is retried under the same bound, after the client is closed;
    anything else is raised. The wait before retry `n` is
    `2^n * RATE_LIMIT_DELAY`. */
module Retry {
  import opened Common

  /** What one request came back with. */
  datatype Outcome =
    | Success(size: nat)       // 2xx; the body has this many bytes
    | StatusError(code: int)   // `raise_for_status()` raised for this code
    | TransportError           // `httpx.RequestError`
    | OtherError               // any other exception

  /** What the routine does after a request. */
  datatype Decision =
    | Done                                   // write the file and return `True`
    | Again(delay: nat, closeClient: bool)   // wait `delay` seconds and call itself again
    | Raise(failure: Failure)                // re-raise to the caller

  /** The retry bound and base delay; the script fixes them to 1 and 3. */
  datatype Config = Config(maxRetries: nat, rateLimitDelay: nat)

  const LegacyConfig := Config(1, 3)

  predicate IsRetryableCode(code: int) {
    code == 429 || code == 502 || code == 503 || code == 504
  }

  /** Failures of a kind the rule retries while retries remain. */
  predicate IsRetryable(o: Outcome) {
    (o.StatusError? && IsRetryableCode(o.code)) || o.TransportError?
  }

  function Pow2(n: nat): (r: nat)
    ensures r >= 1
  {
    if n == 0 then 1 else 2 * Pow2(n - 1)
  }

  function Backoff(retryCount: nat, cfg: Config): nat {
    Pow2(retryCount) * cfg.rateLimitDelay
  }

  /** The branch the routine takes after a request answered with `o`. */
  function Decide(o: Outcome, retryCount: nat, cfg: Config): (d: Decision)
    ensures d.Done? <==> o.Success?
    ensures d.Again? <==> IsRetryable(o) && retryCount < cfg.maxRetries
    ensures d.Again? ==> d.delay == Backoff(retryCount, cfg) && (d.closeClient <==> o.TransportError?)
    ensures d.Raise? && o.StatusError? ==> d.failure == HttpStatus(o.code)
    ensures d.Raise? && o.TransportError? ==> d.failure == Transport
    ensures d.Raise? && o.OtherError? ==> d.failure == RequestFailed
  {
    match o
    case Success(_) => Done
    case StatusError(code) =>
      if IsRetryableCode(code) && retryCount < cfg.maxRetries then Again(Backoff(retryCount, cfg), false)
      else Raise(HttpStatus(code))
    case TransportError =>
      if retryCount < cfg.maxRetries then Again(Backoff(retryCount, cfg), true)
      else Raise(Transport)
    case OtherError => Raise(RequestFailed)
  }

  /** The whole recursion of one download when nobody cancels: the request
      numbered `next` is answered by `respond(next)`. */
  datatype Run = Run(result: Result<nat>, attempts: nat, delays: seq<nat>, closes: nat)

  function RunFrom(respond: nat -> Outcome, next: nat, retryCount: nat, cfg: Config): (r: Run)
    ensures r.attempts >= 1
    ensures |r.delays| == r.attempts - 1 && r.closes <= r.attempts - 1
    decreases if retryCount <= cfg.maxRetries then cfg.maxRetries - retryCount else 0
  {
    match Decide(respond(next), retryCount, cfg)
    case Done => Run(Ok(respond(next).size), 1, [], 0)
    case Raise(f) => Run(Err(f), 1, [], 0)
    case Again(delay, close) =>
      var rest := RunFrom(respond, next + 1, retryCount + 1, cfg);
      Run(rest.result, rest.attempts + 1, [delay] + rest.delays, rest.closes + (if close then 1 else 0))
  }

  /** A retried request adds one attempt, and one close of the client for a
      transport failure, to the rest of the run. */
  lemma RunAgain(respond: nat -> Outcome, next: nat, retryCount: nat, cfg: Config)
    requires Decide(respond(next), retryCount, cfg).Again?
    ensures var r := RunFrom(respond, next, retryCount, cfg);
      var rest := RunFrom(respond, next + 1, retryCount + 1, cfg);
      && r.result == rest.result
      && r.attempts == rest.attempts + 1
      && r.closes == rest.closes + (if respond(next).TransportError? then 1 else 0)
  {
  }

  /** A request that is not retried ends the run with its own answer. */
  lemma RunEnds(respond: nat -> Outcome, next: nat, retryCount: nat, cfg: Config)
    requires !Decide(respond(next), retryCount, cfg).Again?
    ensures var r := RunFrom(respond, next, retryCount, cfg);
      && r.attempts == 1 && r.closes == 0
      && (respond(next).Success? ==> r.result == Ok(respond(next).size))
      && (!respond(next).Success? ==> r.result == Err(Decide(respond(next), retryCount, cfg).failure))
  {
  }

  /** Total requests never exceed `MAX_RETRIES + 1` (fewer once some retries are used). */
  lemma {:induction false} AttemptsBound(respond: nat -> Outcome, next: nat, retryCount: nat, cfg: Config)
    requires retryCount <= cfg.maxRetries
    ensures RunFrom(respond, next, retryCount, cfg).attempts <= cfg.maxRetries - retryCount + 1
    decreases cfg.maxRetries - retryCount
  {
    if Decide(respond(next), retryCount, cfg).Again? {
      AttemptsBound(respond, next + 1, retryCount + 1, cfg);
    }
  }

  /** Retry `i` waits `2^(retryCount + i) * RATE_LIMIT_DELAY`. */
  lemma {:induction false} DelaysDouble(respond: nat -> Outcome, next: nat, retryCount: nat, cfg: Config)
    ensures forall i :: 0 <= i < |RunFrom(respond, next, retryCount, cfg).delays| ==>
      RunFrom(respond, next, retryCount, cfg).delays[i] == Pow2(retryCount + i) * cfg.rateLimitDelay
    decreases if retryCount <= cfg.maxRetries then cfg.maxRetries - retryCount else 0
  {
    var d := Decide(respond(next), retryCount, cfg);
    if d.Again? {
      DelaysDouble(respond, next + 1, retryCount + 1, cfg);
      var rest := RunFrom(respond, next + 1, retryCount + 1, cfg);
      var r := RunFrom(respond, next, retryCount, cfg);
      forall i | 0 < i < |r.delays| ensures r.delays[i] == Pow2(retryCount + i) * cfg.rateLimitDelay {
        assert r.delays[i] == rest.delays[i - 1];
        assert rest.delays[i - 1] == Pow2(retryCount + 1 + (i - 1)) * cfg.rateLimitDelay;
        assert retryCount + 1 + (i - 1) == retryCount + i;
      }
    }
  }

  /** The answer to the `k`-th request counted from `next`. */
  function Answer(respond: nat -> Outcome, next: nat, k: nat): Outcome {
    respond(next + k)
  }

  /** The first `n` requests from `next` all failed in a retryable way. */
  predicate RetryableUpTo(respond: nat -> Outcome, next: nat, n: nat) {
    forall k: nat :: k < n ==> IsRetryable(Answer(respond, next, k))
  }

  /** A download succeeds exactly when a success arrives within the
      `MAX_RETRIES - retry_count` retries and every earlier answer was
      retryable; the file then holds that success's body. */
  lemma {:induction false} SucceedsIff(respond: nat -> Outcome, next: nat, retryCount: nat, cfg: Config, size: nat)
    requires retryCount <= cfg.maxRetries
    ensures RunFrom(respond, next, retryCount, cfg).result == Ok(size) <==>
      exists n: nat :: n <= cfg.maxRetries - retryCount && Answer(respond, next, n) == Success(size)
        && RetryableUpTo(respond, next, n)
    decreases cfg.maxRetries - retryCount
  {
    var d := Decide(respond(next), retryCount, cfg);
    assert Answer(respond, next, 0) == respond(next);
    if d.Done? {
      if respond(next) == Success(size) {
        assert Answer(respond, next, 0) == Success(size) && RetryableUpTo(respond, next, 0);
      }
      forall n: nat | Answer(respond, next, n) == Success(size) && RetryableUpTo(respond, next, n)
        ensures respond(next) == Success(size)
      {
        assert n > 0 ==> IsRetryable(respond(next));
      }
    } else if d.Raise? {
      forall n: nat | n <= cfg.maxRetries - retryCount && RetryableUpTo(respond, next, n)
        ensures Answer(respond, next, n) != Success(size)
      {
        assert n > 0 ==> IsRetryable(respond(next));
      }
    } else {
      SucceedsIff(respond, next + 1, retryCount + 1, cfg, size);
      if RunFrom(respond, next, retryCount, cfg).result == Ok(size) {
        var m: nat :| m <= cfg.maxRetries - (retryCount + 1) && Answer(respond, next + 1, m) == Success(size)
          && RetryableUpTo(respond, next + 1, m);
        ShiftAnswers(respond, next, m);
        assert Answer(respond, next, m + 1) == Answer(respond, next + 1, m);
      }
      forall n: nat | n <= cfg.maxRetries - retryCount && Answer(respond, next, n) == Success(size)
        && RetryableUpTo(respond, next, n)
        ensures RunFrom(respond, next, retryCount, cfg).result == Ok(size)
      {
        assert n > 0;
        ShiftAnswers(respond, next, n - 1);
        assert Answer(respond, next + 1, n - 1) == Answer(respond, next, n);
      }
    }
  }

  /** Failing retryably on requests `next..next+m` is failing on `next` and
      then on the `m` requests after it. */
  lemma ShiftAnswers(respond: nat -> Outcome, next: nat, m: nat)
    ensures RetryableUpTo(respond, next, m + 1) <==>
      IsRetryable(Answer(respond, next, 0)) && RetryableUpTo(respond, next + 1, m)
  {
    if IsRetryable(Answer(respond, next, 0)) && RetryableUpTo(respond, next + 1, m) {
      forall k: nat | k < m + 1 ensures IsRetryable(Answer(respond, next, k)) {
        if k > 0 {
          assert Answer(respond, next, k) == Answer(respond, next + 1, k - 1);
        }
      }
    }
    if RetryableUpTo(respond, next, m + 1) {
      assert IsRetryable(Answer(respond, next, 0));
      var after := next + 1;
      forall k: nat | k < m ensures IsRetryable(Answer(respond, after, k)) {
        assert Answer(respond, after, k) == Answer(respond, next, k + 1);
      }
    }
  }

  /** How many of the `n` requests from `next` failed in transport. */
  function CountTransport(respond: nat -> Outcome, next: nat, n: nat): nat
    decreases n
  {
    if n == 0 then 0
    else (if respond(next).TransportError? then 1 else 0) + CountTransport(respond, next + 1, n - 1)
  }

  /** Only transport errors close the client: every retried request that
      failed in transport closes it once, a retried status error never does. */
  lemma {:induction false} ClosesCountTransportRetries(respond: nat -> Outcome, next: nat, retryCount: nat, cfg: Config)
    ensures var r := RunFrom(respond, next, retryCount, cfg);
      r.closes == CountTransport(respond, next, r.attempts - 1)
    decreases if retryCount <= cfg.maxRetries then cfg.maxRetries - retryCount else 0
  {
    if Decide(respond(next), retryCount, cfg).Again? {
      ClosesCountTransportRetries(respond, next + 1, retryCount + 1, cfg);
    }
  }

  /** With the script's constants a download makes at most two requests and
      its one retry waits three seconds. */
  lemma LegacyRetry(respond: nat -> Outcome, next: nat)
    ensures var r := RunFrom(respond, next, 0, LegacyConfig);
      r.attempts <= 2 && (r.attempts == 2 ==> r.delays == [3])
  {
    AttemptsBound(respond, next, 0, LegacyConfig);
    DelaysDouble(respond, next, 0, LegacyConfig);
  }

  /** Two 503 answers with one retry allowed: two requests, then the status error. */
  lemma TwoUnavailableFail()
    ensures var respond := (n: nat) => StatusError(503);
      RunFrom(respond, 0, 0, Config(1, 3)) == Run(Err(HttpStatus(503)), 2, [3], 0)
  {
  }

  /** A 503 then a success: the retry succeeds with the second body. */
  lemma UnavailableThenSuccess()
    ensures var respond := (n: nat) => if n == 0 then StatusError(503) else Success(42);
      RunFrom(respond, 0, 0, Config(1, 3)) == Run(Ok(42), 2, [3], 0)
  {
  }

  /** A 404 is never retried. */
  lemma NotFoundNotRetried(respond: nat -> Outcome, next: nat, retryCount: nat, cfg: Config)
    requires respond(next) == StatusError(404)
    ensures RunFrom(respond, next, retryCount, cfg) == Run(Err(HttpStatus(404)), 1, [], 0)
  {
  }
}

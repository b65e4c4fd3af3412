/**
 * The contact form's delivery step, `sendEmailWithRetry` with its
 * `RETRY_CONFIG`. Every call of `fetch` is replaced by the next element of
 * an outcome sequence, the timer by the list of delays it would have waited,
 * and the "Retrying..." notification by the attempt label it would show.
 */
module EmailRetry {
  import opened Wrappers

  /** `RETRY_CONFIG`: retry budget and the capped exponential backoff, in milliseconds. */
  datatype RetryConfig = RetryConfig(
    maxRetries: nat,
    baseDelay: nat,
    maxDelay: nat,
    backoffMultiplier: nat)

  /** The configuration the site ships with. */
  const ShippedConfig: RetryConfig := RetryConfig(3, 1000, 8000, 2)

  /** The parsed JSON object a call hands back to the submit handler. */
  datatype Reply = Reply(success: bool, error: Option<string>, shouldRetry: Option<bool>)

  /** What `response.json()` yields when it succeeds: JSON `null`, or a
      value read through the fields the code uses (a missing field is None). */
  datatype Body = NullBody | ObjectBody(fields: Reply)

  /**
   * What one `fetch` produced.
   *  - Ok: a response whose `ok` is true; `bodyParses` says whether
   *    `response.json()` succeeds, `body` is what it yields.
   *  - HttpError: a response whose `ok` is false, with the same two parts.
   *  - Transport: `fetch` itself rejected (timeout, connection failure),
   *    with the error's name.
   */
  datatype Outcome =
    | Ok(bodyParses: bool, body: Body)
    | HttpError(status: nat, bodyParses: bool, body: Body)
    | Transport(name: string)

  /** An error response whose body parses to `null`: reading `errorData.error` throws. */
  predicate ReadsNull(o: Outcome)
  {
    o.HttpError? && o.bodyParses && o.body.NullBody?
  }

  /** `errorData.error`, where `errorData` is `{}` when the body does not parse. */
  function ErrorDataField(o: Outcome): Option<string>
    requires o.HttpError? && !ReadsNull(o)
  {
    if o.bodyParses then o.body.fields.error else None
  }

  /** An error raised inside the `try` block. */
  datatype Thrown =
    | ServerError(status: nat)   // `new Error("Server error: N")`
    | ParseError                 // `response.json()` rejected on a 2xx body
    | NetworkError(name: string) // the rejection of `fetch`
    | NullAccess                 // reading `.error` of a `null` error body
  {
    /** The error's `name` property, which the submit handler inspects. Only
        a rejection of `fetch` can carry the name `AbortError`. */
    function Name(): (n: string)
      ensures n == "AbortError" ==> NetworkError?
    {
      match this
      case ServerError(_) => "Error"
      case ParseError => "SyntaxError"
      case NetworkError(n) => n
      case NullAccess => "TypeError"
    }
  }

  /** How a whole call ends: a resolved value, or a rejection with the last error. */
  datatype Terminal = Returned(value: Body) | Rethrown(error: Thrown)

  /** The label of a "Retrying... (Attempt n/of)" notification. */
  datatype Notice = Notice(attempt: nat, of: nat)

  /**
   * A whole call: how it ended, how many requests it sent, the delays it
   * waited (in order) and the retry notices it showed (in order).
   */
  datatype Run = Run(terminal: Terminal, attempts: nat, delays: seq<nat>, notices: seq<Notice>)

  /** What the `try` block of one attempt does: finish with a value or throw. */
  datatype Step = Finished(value: Body) | Threw(error: Thrown)

  function Pow(b: nat, e: nat): nat
  {
    if e == 0 then 1 else b * Pow(b, e - 1)
  }

  /** The delay waited before retry number `retryCount + 1`. */
  function BackoffDelay(cfg: RetryConfig, retryCount: nat): (d: nat)
    ensures d <= cfg.maxDelay
    ensures d <= cfg.baseDelay * Pow(cfg.backoffMultiplier, retryCount)
    ensures d == cfg.maxDelay || d == cfg.baseDelay * Pow(cfg.backoffMultiplier, retryCount)
  {
    var grown := cfg.baseDelay * Pow(cfg.backoffMultiplier, retryCount);
    if grown <= cfg.maxDelay then grown else cfg.maxDelay
  }

  /** Decimal digits of a natural number, as a template literal renders it. */
  function NatToString(n: nat): (s: string)
    ensures |s| >= 1
    ensures forall i :: 0 <= i < |s| ==> '0' <= s[i] <= '9'
    ensures n == 0 || s[0] != '0'
    ensures DigitsValue(s) == n
  {
    var last := [('0' as int + n % 10) as char];
    if n < 10 then last
    else
      var prefix := NatToString(n / 10);
      assert (prefix + last)[..|prefix|] == prefix;
      prefix + last
  }

  /** The number a string of decimal digits denotes. */
  function DigitsValue(s: string): int
  {
    if s == [] then 0
    else DigitsValue(s[..|s| - 1]) * 10 + (s[|s| - 1] as int - '0' as int)
  }

  /** `errorData.error || \`Request failed with status ${status}\``: an empty field is falsy. */
  function FailureMessage(status: nat, errorField: Option<string>): (m: string)
    ensures errorField.Some? && errorField.value != "" ==> m == errorField.value
    ensures errorField.None? || errorField.value == "" ==>
      m == "Request failed with status " + NatToString(status)
  {
    match errorField
    case Some(e) => if e != "" then e else "Request failed with status " + NatToString(status)
    case None => "Request failed with status " + NatToString(status)
  }

  /** The value returned for a response that is not retried: a failure,
      marked not to retry, whose error text is never empty. */
  function FailureReply(status: nat, errorField: Option<string>): (r: Reply)
    ensures !r.success && r.shouldRetry == Some(false)
    ensures r.error.Some? && r.error.value != ""
  {
    Reply(false, Some(FailureMessage(status, errorField)), Some(false))
  }

  /**
   * The `try` block of one attempt. A 2xx whose body does not parse throws;
   * a status of 500 or more throws only while retries remain; any other
   * response that is not ok finishes with a failure reply, unless its body
   * is `null`, whose `.error` cannot be read.
   */
  function TryOnce(cfg: RetryConfig, retryCount: nat, o: Outcome): (s: Step)
    ensures s.Threw? <==>
      o.Transport? || (o.Ok? && !o.bodyParses) ||
      (o.HttpError? && ((o.status >= 500 && retryCount < cfg.maxRetries) || ReadsNull(o)))
    ensures s.Finished? && o.Ok? ==> s.value == o.body
    ensures s.Finished? && o.HttpError? ==>
      !ReadsNull(o) && s.value == ObjectBody(FailureReply(o.status, ErrorDataField(o)))
    ensures s.Threw? && o.Transport? ==> s.error == NetworkError(o.name)
    ensures s.Threw? && o.HttpError? ==>
      s.error == if o.status >= 500 && retryCount < cfg.maxRetries then ServerError(o.status) else NullAccess
  {
    match o
    case Ok(parses, body) =>
      if parses then Finished(body) else Threw(ParseError)
    case HttpError(status, parses, body) =>
      if status >= 500 && retryCount < cfg.maxRetries then Threw(ServerError(status))
      else if parses && body.NullBody? then Threw(NullAccess)
      else Finished(ObjectBody(FailureReply(status, ErrorDataField(o))))
    case Transport(name) => Threw(NetworkError(name))
  }

  /** Retries still allowed to a call made with `retryCount`. */
  function RetriesLeft(cfg: RetryConfig, retryCount: nat): nat
  {
    if retryCount < cfg.maxRetries then cfg.maxRetries - retryCount else 0
  }

  /** The notice shown before retry number `retryCount + 1`. */
  function RetryNotice(cfg: RetryConfig, retryCount: nat): (n: Notice)
    requires retryCount < cfg.maxRetries
    ensures n.attempt == retryCount + 2
    ensures 2 <= n.attempt <= n.of
    ensures n.of == cfg.maxRetries + 1
  {
    Notice(retryCount + 2, cfg.maxRetries + 1)
  }

  /**
   * `sendEmailWithRetry(data, retryCount)`: `outcomes[k]` is what the k-th
   * request of this call gets back. The oracle must cover every request the
   * call can make.
   */
  function SendEmailWithRetry(cfg: RetryConfig, outcomes: seq<Outcome>, retryCount: nat): (r: Run)
    requires |outcomes| > RetriesLeft(cfg, retryCount)
    ensures 1 <= r.attempts <= RetriesLeft(cfg, retryCount) + 1
    ensures |r.delays| == r.attempts - 1 && |r.notices| == r.attempts - 1
    ensures forall k :: 0 <= k < |r.delays| ==> r.delays[k] == BackoffDelay(cfg, retryCount + k)
    ensures forall k :: 0 <= k < |r.notices| ==>
      r.notices[k] == Notice(retryCount + k + 2, cfg.maxRetries + 1)
    decreases |outcomes|
  {
    match TryOnce(cfg, retryCount, outcomes[0])
    case Finished(value) => Run(Returned(value), 1, [], [])
    case Threw(e) =>
      if retryCount < cfg.maxRetries then
        var rest := SendEmailWithRetry(cfg, outcomes[1..], retryCount + 1);
        Run(rest.terminal, rest.attempts + 1,
            [BackoffDelay(cfg, retryCount)] + rest.delays,
            [RetryNotice(cfg, retryCount)] + rest.notices)
      else
        Run(Rethrown(e), 1, [], [])
  }

  /** An attempt made with `retryCount` that throws and is followed by a retry. */
  ghost predicate Retried(cfg: RetryConfig, retryCount: nat, o: Outcome)
  {
    retryCount < cfg.maxRetries && TryOnce(cfg, retryCount, o).Threw?
  }

  /**
   * Attempt `n` (counted from 0) is the one where a call stops: every
   * earlier attempt threw with a retry left, and attempt `n` either
   * finished or threw with none left.
   */
  ghost predicate StopsAt(cfg: RetryConfig, outcomes: seq<Outcome>, retryCount: nat, n: nat)
  {
    n < |outcomes| &&
    (forall k :: 0 <= k < n ==> Retried(cfg, retryCount + k, outcomes[k])) &&
    (TryOnce(cfg, retryCount + n, outcomes[n]).Finished? || retryCount + n >= cfg.maxRetries)
  }

  /** The terminal value a call stopping at attempt `n` must produce. */
  ghost function TerminalAt(cfg: RetryConfig, outcomes: seq<Outcome>, retryCount: nat, n: nat): Terminal
    requires n < |outcomes|
  {
    match TryOnce(cfg, retryCount + n, outcomes[n])
    case Finished(value) => Returned(value)
    case Threw(e) => Rethrown(e)
  }

  lemma {:induction false} StopsAtUnique(cfg: RetryConfig, outcomes: seq<Outcome>, retryCount: nat, n: nat, m: nat)
    requires StopsAt(cfg, outcomes, retryCount, n) && StopsAt(cfg, outcomes, retryCount, m)
    ensures n == m
  {
  }

  /** A retried first attempt shifts the stopping point of the rest of the call by one. */
  lemma StopsAtShift(cfg: RetryConfig, outcomes: seq<Outcome>, retryCount: nat, n: nat)
    requires |outcomes| > 0 && retryCount < cfg.maxRetries
    requires TryOnce(cfg, retryCount, outcomes[0]).Threw?
    requires StopsAt(cfg, outcomes[1..], retryCount + 1, n)
    ensures StopsAt(cfg, outcomes, retryCount, n + 1)
    ensures TerminalAt(cfg, outcomes, retryCount, n + 1) == TerminalAt(cfg, outcomes[1..], retryCount + 1, n)
  {
    var tail := outcomes[1..];
    forall k | 0 <= k < n + 1
      ensures Retried(cfg, retryCount + k, outcomes[k])
    {
      if k > 0 {
        assert outcomes[k] == tail[k - 1];
        assert retryCount + k == (retryCount + 1) + (k - 1);
      }
    }
    assert outcomes[n + 1] == tail[n];
    assert retryCount + (n + 1) == (retryCount + 1) + n;
  }

  /** A call stops exactly where `StopsAt` says, and ends as `TerminalAt` says. */
  lemma {:induction false} RunStopsAt(cfg: RetryConfig, outcomes: seq<Outcome>, retryCount: nat)
    requires |outcomes| > RetriesLeft(cfg, retryCount)
    ensures var r := SendEmailWithRetry(cfg, outcomes, retryCount);
      StopsAt(cfg, outcomes, retryCount, r.attempts - 1) &&
      r.terminal == TerminalAt(cfg, outcomes, retryCount, r.attempts - 1)
    decreases |outcomes|
  {
    if TryOnce(cfg, retryCount, outcomes[0]).Threw? && retryCount < cfg.maxRetries {
      var tail := outcomes[1..];
      RunStopsAt(cfg, tail, retryCount + 1);
      var rest := SendEmailWithRetry(cfg, tail, retryCount + 1);
      StopsAtShift(cfg, outcomes, retryCount, rest.attempts - 1);
    }
  }

  /** The number of attempts is the stopping index plus one, in both directions. */
  lemma AttemptsIff(cfg: RetryConfig, outcomes: seq<Outcome>, retryCount: nat, n: nat)
    requires |outcomes| > RetriesLeft(cfg, retryCount)
    ensures SendEmailWithRetry(cfg, outcomes, retryCount).attempts == n + 1 <==>
      StopsAt(cfg, outcomes, retryCount, n)
  {
    var r := SendEmailWithRetry(cfg, outcomes, retryCount);
    RunStopsAt(cfg, outcomes, retryCount);
    if StopsAt(cfg, outcomes, retryCount, n) {
      StopsAtUnique(cfg, outcomes, retryCount, n, r.attempts - 1);
    }
  }

  /** A call made with `retryCount == 0` sends at most `maxRetries + 1` requests. */
  lemma AttemptBound(cfg: RetryConfig, outcomes: seq<Outcome>)
    requires |outcomes| > cfg.maxRetries
    ensures 1 <= SendEmailWithRetry(cfg, outcomes, 0).attempts <= cfg.maxRetries + 1
  {
  }

  /** Every delay waited is at most `maxDelay`. */
  lemma DelaysCapped(cfg: RetryConfig, outcomes: seq<Outcome>, retryCount: nat)
    requires |outcomes| > RetriesLeft(cfg, retryCount)
    ensures forall d :: d in SendEmailWithRetry(cfg, outcomes, retryCount).delays ==> d <= cfg.maxDelay
  {
  }

  lemma {:induction false} PowMonotone(b: nat, i: nat, j: nat)
    requires b >= 1 && i <= j
    ensures Pow(b, i) <= Pow(b, j)
    decreases j
  {
    if i < j {
      PowMonotone(b, i, j - 1);
      MulMonotone(Pow(b, j - 1), 1, b);
      assert Pow(b, j) == b * Pow(b, j - 1);
    }
  }

  /** With a multiplier of at least one, later retries never wait less. */
  lemma BackoffMonotone(cfg: RetryConfig, i: nat, j: nat)
    requires cfg.backoffMultiplier >= 1 && i <= j
    ensures BackoffDelay(cfg, i) <= BackoffDelay(cfg, j)
  {
    PowMonotone(cfg.backoffMultiplier, i, j);
    assert cfg.baseDelay * Pow(cfg.backoffMultiplier, i) <= cfg.baseDelay * Pow(cfg.backoffMultiplier, j) by {
      MulMonotone(cfg.baseDelay, Pow(cfg.backoffMultiplier, i), Pow(cfg.backoffMultiplier, j));
    }
  }

  lemma MulMonotone(a: nat, x: nat, y: nat)
    requires x <= y
    ensures a * x <= a * y
  {
  }

  /** The delays of one call are non-decreasing when the multiplier is at least one. */
  lemma DelaysNonDecreasing(cfg: RetryConfig, outcomes: seq<Outcome>, retryCount: nat, i: nat, j: nat)
    requires |outcomes| > RetriesLeft(cfg, retryCount)
    requires cfg.backoffMultiplier >= 1
    requires i <= j < |SendEmailWithRetry(cfg, outcomes, retryCount).delays|
    ensures SendEmailWithRetry(cfg, outcomes, retryCount).delays[i] <=
            SendEmailWithRetry(cfg, outcomes, retryCount).delays[j]
  {
    BackoffMonotone(cfg, retryCount + i, retryCount + j);
  }

  /** The shipped configuration waits 1000, 2000, 4000 ms, and would cap an eventual fourth at 8000. */
  lemma ShippedBackoff()
    ensures BackoffDelay(ShippedConfig, 0) == 1000
    ensures BackoffDelay(ShippedConfig, 1) == 2000
    ensures BackoffDelay(ShippedConfig, 2) == 4000
    ensures BackoffDelay(ShippedConfig, 3) == 8000
    ensures BackoffDelay(ShippedConfig, 4) == 8000
  {
    assert Pow(2, 1) == 2;
    assert Pow(2, 2) == 4;
    assert Pow(2, 3) == 8;
    assert Pow(2, 4) == 16;
  }

  /** Each retry notice's label lies in `2..maxRetries+1`, out of `maxRetries + 1`. */
  lemma NoticeLabelsInRange(cfg: RetryConfig, outcomes: seq<Outcome>)
    requires |outcomes| > cfg.maxRetries
    ensures forall n :: n in SendEmailWithRetry(cfg, outcomes, 0).notices ==>
      2 <= n.attempt <= cfg.maxRetries + 1 && n.of == cfg.maxRetries + 1
  {
  }

  /** A response that is not ok, with status below 500 and a body that is
      not `null`, is never retried. */
  lemma ClientErrorNeverRetried(cfg: RetryConfig, outcomes: seq<Outcome>, retryCount: nat, k: nat)
    requires |outcomes| > RetriesLeft(cfg, retryCount)
    requires k < |outcomes| && outcomes[k].HttpError? && outcomes[k].status < 500
    ensures !ReadsNull(outcomes[k]) ==> SendEmailWithRetry(cfg, outcomes, retryCount).attempts <= k + 1
  {
    RunStopsAt(cfg, outcomes, retryCount);
  }

  /** A first response below 500 that is not ok, with a body that is not
      `null`, ends the call at once with `shouldRetry: false` and the body's
      error or the status message. */
  lemma ClientErrorTerminal(cfg: RetryConfig, outcomes: seq<Outcome>, retryCount: nat)
    requires |outcomes| > RetriesLeft(cfg, retryCount)
    requires outcomes[0].HttpError? && outcomes[0].status < 500
    ensures var r := SendEmailWithRetry(cfg, outcomes, retryCount);
      !ReadsNull(outcomes[0]) ==>
        r.attempts == 1 && r.delays == [] &&
        r.terminal == Returned(ObjectBody(Reply(false, Some(FailureMessage(outcomes[0].status, ErrorDataField(outcomes[0]))), Some(false))))
  {
  }

  /** An error response whose body is `null` throws a `TypeError` inside the
      `try`, whatever its status: it is retried while retries remain, and
      rethrown when none do. */
  lemma NullErrorBodyThrows(cfg: RetryConfig, outcomes: seq<Outcome>, retryCount: nat)
    requires |outcomes| > RetriesLeft(cfg, retryCount)
    requires ReadsNull(outcomes[0])
    ensures var r := SendEmailWithRetry(cfg, outcomes, retryCount);
      (retryCount < cfg.maxRetries ==> r.attempts >= 2 && r.delays[0] == BackoffDelay(cfg, retryCount)) &&
      (retryCount >= cfg.maxRetries ==> r.attempts == 1 && r.terminal == Rethrown(NullAccess))
  {
  }

  /** A server error on the last allowed attempt is returned, not thrown,
      unless its body is `null`. */
  lemma ServerErrorOnLastAttempt(cfg: RetryConfig, outcomes: seq<Outcome>, retryCount: nat)
    requires |outcomes| > RetriesLeft(cfg, retryCount)
    requires retryCount >= cfg.maxRetries
    requires outcomes[0].HttpError? && outcomes[0].status >= 500
    ensures var r := SendEmailWithRetry(cfg, outcomes, retryCount);
      r.attempts == 1 &&
      (!ReadsNull(outcomes[0]) ==>
        r.terminal == Returned(ObjectBody(FailureReply(outcomes[0].status, ErrorDataField(outcomes[0])))) &&
        r.terminal.value.fields.shouldRetry == Some(false))
  {
  }

  /** The ending of a call whose last attempt got a server error with no retry left. */
  function LastServerErrorEnding(o: Outcome): Terminal
    requires o.HttpError?
  {
    if ReadsNull(o) then Rethrown(NullAccess) else Returned(ObjectBody(FailureReply(o.status, ErrorDataField(o))))
  }

  /** Server errors on every attempt: all retries are used, and the last
      error comes back as a returned `shouldRetry: false` failure (or, for a
      `null` body, as a rethrown `TypeError`). */
  lemma {:induction false} AllServerErrors(cfg: RetryConfig, outcomes: seq<Outcome>, retryCount: nat)
    requires |outcomes| > RetriesLeft(cfg, retryCount)
    requires forall k :: 0 <= k < |outcomes| ==> outcomes[k].HttpError? && outcomes[k].status >= 500
    ensures var r := SendEmailWithRetry(cfg, outcomes, retryCount);
      r.attempts == RetriesLeft(cfg, retryCount) + 1 &&
      r.terminal == LastServerErrorEnding(outcomes[RetriesLeft(cfg, retryCount)])
    decreases |outcomes|
  {
    var o := outcomes[0];
    if retryCount < cfg.maxRetries {
      assert TryOnce(cfg, retryCount, o) == Threw(ServerError(o.status));
      var tail := outcomes[1..];
      AllServerErrors(cfg, tail, retryCount + 1);
      assert tail[RetriesLeft(cfg, retryCount + 1)] == outcomes[RetriesLeft(cfg, retryCount)];
      var rest := SendEmailWithRetry(cfg, tail, retryCount + 1);
      assert SendEmailWithRetry(cfg, outcomes, retryCount).terminal == rest.terminal;
    } else {
      assert RetriesLeft(cfg, retryCount) == 0;
      var step := TryOnce(cfg, retryCount, o);
      if ReadsNull(o) {
        assert step == Threw(NullAccess);
      } else {
        assert step == Finished(ObjectBody(FailureReply(o.status, ErrorDataField(o))));
      }
    }
  }

  /** Transport failures or unparsable 2xx bodies on every attempt: all
      retries are used and the last error is rethrown. */
  lemma {:induction false} AllThrowing(cfg: RetryConfig, outcomes: seq<Outcome>, retryCount: nat)
    requires |outcomes| > RetriesLeft(cfg, retryCount)
    requires forall k :: 0 <= k < |outcomes| ==>
      outcomes[k].Transport? || (outcomes[k].Ok? && !outcomes[k].bodyParses)
    ensures var r := SendEmailWithRetry(cfg, outcomes, retryCount);
      var last := outcomes[RetriesLeft(cfg, retryCount)];
      r.attempts == RetriesLeft(cfg, retryCount) + 1 &&
      r.terminal == Rethrown(if last.Transport? then NetworkError(last.name) else ParseError)
    decreases |outcomes|
  {
    if retryCount < cfg.maxRetries {
      AllThrowing(cfg, outcomes[1..], retryCount + 1);
      assert outcomes[1..][RetriesLeft(cfg, retryCount + 1)] == outcomes[RetriesLeft(cfg, retryCount)];
    }
  }

  /** With the shipped configuration, four connection failures give four
      attempts, waits of 1000, 2000 and 4000 ms, and a rethrown error. */
  lemma ShippedAllConnectionFailures(name: string)
    ensures var r := SendEmailWithRetry(ShippedConfig, [Transport(name), Transport(name), Transport(name), Transport(name)], 0);
      r.attempts == 4 && r.delays == [1000, 2000, 4000] &&
      r.notices == [Notice(2, 4), Notice(3, 4), Notice(4, 4)] &&
      r.terminal == Rethrown(NetworkError(name))
  {
    var os := [Transport(name), Transport(name), Transport(name), Transport(name)];
    AllThrowing(ShippedConfig, os, 0);
    ShippedBackoff();
    var r := SendEmailWithRetry(ShippedConfig, os, 0);
    assert r.delays == [BackoffDelay(ShippedConfig, 0), BackoffDelay(ShippedConfig, 1), BackoffDelay(ShippedConfig, 2)];
  }

  /** One connection failure, then a parsed 2xx body: two attempts, one
      wait of `baseDelay`, and the body is returned. */
  lemma SuccessAfterOneFailure(cfg: RetryConfig, outcomes: seq<Outcome>, body: Body)
    requires cfg.maxRetries >= 1 && |outcomes| > cfg.maxRetries
    requires cfg.baseDelay <= cfg.maxDelay
    requires outcomes[0].Transport? && outcomes[1] == Ok(true, body)
    ensures var r := SendEmailWithRetry(cfg, outcomes, 0);
      r.attempts == 2 && r.delays == [cfg.baseDelay] && r.terminal == Returned(body)
  {
    var rest := SendEmailWithRetry(cfg, outcomes[1..], 1);
    assert outcomes[1..][0] == outcomes[1];
    assert rest == Run(Returned(body), 1, [], []);
    assert Pow(cfg.backoffMultiplier, 0) == 1;
  }

  /** A call only rejects after its last allowed attempt, and never with a
      server-status error: a 5xx on the last attempt is returned instead. */
  lemma RethrowOnlyWhenExhausted(cfg: RetryConfig, outcomes: seq<Outcome>, retryCount: nat)
    requires |outcomes| > RetriesLeft(cfg, retryCount)
    ensures var r := SendEmailWithRetry(cfg, outcomes, retryCount);
      r.terminal.Rethrown? ==>
        r.attempts == RetriesLeft(cfg, retryCount) + 1 && !r.terminal.error.ServerError?
  {
    var r := SendEmailWithRetry(cfg, outcomes, retryCount);
    RunStopsAt(cfg, outcomes, retryCount);
  }
}

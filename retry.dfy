/** HTTP GET with retries: transient network errors and responses whose
    status is in a "force list" are retried with exponential backoff and
    jitter, honouring a `Retry-After` header. The network is a function
    from attempt number (1, 2, ...) to what that attempt's request gave;
    the random jitter is a function from attempt number to the number drawn;
    sleeping is recorded as the sequence of durations slept. */
module Retry {
  import opened Common

  /** The exceptions `requests.get` can raise, as far as retrying goes. */
  datatype RequestError =
    | Timeout
    | ConnectTimeout
    | ReadTimeout
    | ConnectionError
    | ChunkedEncodingError
    | OtherError(name: string)

  /** The four exception classes caught as transient (with their subclasses). */
  predicate Transient(e: RequestError)
  {
    !e.OtherError?
  }

  /** A response: its status and its `Retry-After` header, if present. */
  datatype Response = Response(status: int, retryAfter: Option<string>)

  /** What one call of `requests.get` gave. */
  datatype Outcome = Answered(response: Response) | Raised(error: RequestError)

  /** The keyword arguments that steer retrying. */
  datatype Config = Config(maxAttempts: int, backoffBase: real, backoffMax: real, forcelist: seq<int>)

  /** The default configuration (4 attempts, base 0.5 s, cap 8 s,
      statuses 429 and 500 / 502 / 503 / 504). */
  const DefaultConfig := Config(4, 0.5, 8.0, [429, 500, 502, 503, 504])

  /** How a call ends: the response returned; the exception raised; the
      final `assert last_exc is not None` failing; or `time.sleep`
      rejecting a negative duration with ValueError. */
  datatype Ending =
    | Returned(response: Response)
    | Failed(error: RequestError)
    | AssertionFailed
    | SleepRejected(seconds: real)

  /** The whole run: how it ended, how many requests were made and the
      sleeps taken in between. */
  datatype Trace = Trace(ending: Ending, calls: nat, sleeps: seq<real>)

  function Pow2(k: nat): (p: real)
    ensures p >= 1.0
  {
    if k == 0 then 1.0 else 2.0 * Pow2(k - 1)
  }

  function Min(a: real, b: real): real
  {
    if a <= b then a else b
  }

  /** `_compute_sleep_seconds`: `base * 2^(attempt-1)` plus the jitter,
      capped at the maximum. */
  function ComputeSleep(attempt: int, backoffBase: real, backoffMax: real, jitter: real): real
  {
    Min(backoffMax, backoffBase * Pow2(if attempt - 1 > 0 then attempt - 1 else 0) + jitter)
  }

  /** The backoff never exceeds its cap and, for a non-negative base and cap
      and a jitter drawn from `[0, base]`, is never negative; below the
      cap it is at least the exponential term. */
  lemma ComputeSleepBounds(attempt: int, backoffBase: real, backoffMax: real, jitter: real)
    ensures ComputeSleep(attempt, backoffBase, backoffMax, jitter) <= backoffMax
    ensures 0.0 <= backoffBase && 0.0 <= backoffMax && 0.0 <= jitter <= backoffBase ==>
      0.0 <= ComputeSleep(attempt, backoffBase, backoffMax, jitter)
    ensures 0.0 <= jitter ==>
      ComputeSleep(attempt, backoffBase, backoffMax, jitter)
      >= Min(backoffMax, backoffBase * Pow2(if attempt - 1 > 0 then attempt - 1 else 0))
  {
    var k := if attempt - 1 > 0 then attempt - 1 else 0;
    var grown := backoffBase * Pow2(k);
    assert ComputeSleep(attempt, backoffBase, backoffMax, jitter) == Min(backoffMax, grown + jitter);
    if 0.0 <= backoffBase {
      assert 0.0 <= grown by { MulNonNegative(backoffBase, Pow2(k)); }
    }
    assert Min(backoffMax, backoffBase * Pow2(if attempt - 1 > 0 then attempt - 1 else 0)) == Min(backoffMax, grown);
    if 0.0 <= jitter {
      MinMonotone(backoffMax, grown, grown + jitter);
    }
  }

  lemma MinMonotone(m: real, a: real, b: real)
    requires a <= b
    ensures Min(m, a) <= Min(m, b)
  {
  }

  lemma MulNonNegative(a: real, b: real)
    requires 0.0 <= a && 0.0 <= b
    ensures 0.0 <= a * b
  {
  }

  /** The sleep before retrying a force-listed response: the `Retry-After`
      value when it reads as a number, the backoff otherwise. */
  function ResponseSleep(cfg: Config, resp: Response, attempt: int, jitter: real): real
  {
    match resp.retryAfter
    case None => ComputeSleep(attempt, cfg.backoffBase, cfg.backoffMax, jitter)
    case Some(text) =>
      match ParseNumber(text)
      case Some(seconds) => seconds
      case None => ComputeSleep(attempt, cfg.backoffBase, cfg.backoffMax, jitter)
  }

  /** Whether attempt `n`'s outcome leads to another attempt. */
  predicate Retries(cfg: Config, o: Outcome, n: int)
  {
    match o
    case Answered(resp) => resp.status in cfg.forcelist && n < cfg.maxAttempts
    case Raised(e) => Transient(e) && n < cfg.maxAttempts
  }

  /** The sleep after attempt `n`, when it retries. */
  function SleepAfter(cfg: Config, o: Outcome, n: int, jitter: real): real
  {
    match o
    case Answered(resp) => ResponseSleep(cfg, resp, n, jitter)
    case Raised(_) => ComputeSleep(n, cfg.backoffBase, cfg.backoffMax, jitter)
  }

  function Prepend(s: real, t: Trace): Trace
  {
    Trace(t.ending, t.calls, [s] + t.sleeps)
  }

  /** The run from attempt `n` on, spec form. */
  function From(cfg: Config, outcomes: nat -> Outcome, jitter: nat -> real, n: nat): Trace
    requires 1 <= n <= cfg.maxAttempts
    decreases cfg.maxAttempts - n
  {
    var o := outcomes(n);
    if Retries(cfg, o, n) then
      var s := SleepAfter(cfg, o, n, jitter(n));
      if s < 0.0 then Trace(SleepRejected(s), n, []) else Prepend(s, From(cfg, outcomes, jitter, n + 1))
    else
      match o
      case Answered(resp) => Trace(Returned(resp), n, [])
      case Raised(e) => Trace(Failed(e), n, [])
  }

  /** `http_get_with_retries`, spec form. */
  function Get(cfg: Config, outcomes: nat -> Outcome, jitter: nat -> real): Trace
  {
    if cfg.maxAttempts <= 0 then Trace(AssertionFailed, 0, []) else From(cfg, outcomes, jitter, 1)
  }

  /** `http_get_with_retries`: the loop over attempts. The `Retry-After`
      value, when present, overrides the backoff after a force-listed
      status; a transient error on the last attempt is re-raised after the
      loop; any other exception propagates at once. */
  method HttpGetWithRetries(cfg: Config, outcomes: nat -> Outcome, jitter: nat -> real)
    returns (ending: Ending, calls: nat, sleeps: seq<real>)
    ensures Trace(ending, calls, sleeps) == Get(cfg, outcomes, jitter)
  {
    var attempt: nat := 0;
    var lastExc: Option<RequestError> := None;
    sleeps := [];
    while attempt < cfg.maxAttempts
      invariant 0 <= attempt < cfg.maxAttempts ==>
        Get(cfg, outcomes, jitter) == Trace(From(cfg, outcomes, jitter, attempt + 1).ending,
                                            From(cfg, outcomes, jitter, attempt + 1).calls,
                                            sleeps + From(cfg, outcomes, jitter, attempt + 1).sleeps)
      invariant attempt >= cfg.maxAttempts ==> attempt == 0 && sleeps == []
      invariant attempt == 0 ==> lastExc.None?
      decreases cfg.maxAttempts - attempt
    {
      attempt := attempt + 1;
      var o := outcomes(attempt);
      match o {
        case Answered(resp) =>
          if resp.status in cfg.forcelist && attempt < cfg.maxAttempts {
            var sleepSec: real;
            if resp.retryAfter.Some? {
              var parsed := ParseNumber(resp.retryAfter.value);
              if parsed.Some? {
                sleepSec := parsed.value;
              } else {
                sleepSec := ComputeSleep(attempt, cfg.backoffBase, cfg.backoffMax, jitter(attempt));
              }
            } else {
              sleepSec := ComputeSleep(attempt, cfg.backoffBase, cfg.backoffMax, jitter(attempt));
            }
            if sleepSec < 0.0 {
              return SleepRejected(sleepSec), attempt, sleeps;
            }
            SleepsAppend(sleeps, sleepSec, From(cfg, outcomes, jitter, attempt + 1).sleeps);
            sleeps := sleeps + [sleepSec];
            continue;
          }
          return Returned(resp), attempt, sleeps;
        case Raised(exc) =>
          if !Transient(exc) {
            return Failed(exc), attempt, sleeps;
          }
          lastExc := Some(exc);
          if attempt >= cfg.maxAttempts {
            break;
          }
          var sleepSec := ComputeSleep(attempt, cfg.backoffBase, cfg.backoffMax, jitter(attempt));
          if sleepSec < 0.0 {
            return SleepRejected(sleepSec), attempt, sleeps;
          }
          SleepsAppend(sleeps, sleepSec, From(cfg, outcomes, jitter, attempt + 1).sleeps);
          sleeps := sleeps + [sleepSec];
      }
    }
    if lastExc.None? {
      return AssertionFailed, 0, sleeps;
    }
    return Failed(lastExc.value), attempt, sleeps;
  }

  lemma SleepsAppend(done: seq<real>, s: real, rest: seq<real>)
    ensures done + ([s] + rest) == (done + [s]) + rest
  {
  }

  /** No more than `maxAttempts` requests are made, and at least one when
      `maxAttempts` is positive; exactly one sleep separates consecutive
      requests. */
  lemma {:induction false} FromCounts(cfg: Config, outcomes: nat -> Outcome, jitter: nat -> real, n: nat)
    requires 1 <= n <= cfg.maxAttempts
    ensures var t := From(cfg, outcomes, jitter, n);
      n <= t.calls <= cfg.maxAttempts && |t.sleeps| == t.calls - n
    decreases cfg.maxAttempts - n
  {
    var o := outcomes(n);
    if Retries(cfg, o, n) && SleepAfter(cfg, o, n, jitter(n)) >= 0.0 {
      FromCounts(cfg, outcomes, jitter, n + 1);
    }
  }

  lemma GetCounts(cfg: Config, outcomes: nat -> Outcome, jitter: nat -> real)
    ensures var t := Get(cfg, outcomes, jitter);
      (cfg.maxAttempts <= 0 ==> t == Trace(AssertionFailed, 0, []))
      && (cfg.maxAttempts >= 1 ==> 1 <= t.calls <= cfg.maxAttempts && |t.sleeps| == t.calls - 1)
  {
    if cfg.maxAttempts >= 1 {
      FromCounts(cfg, outcomes, jitter, 1);
    }
  }

  /** Every attempt before the last one retried, and the sleep after it
      is the one its outcome calls for. */
  lemma {:induction false} FromRetriedBefore(cfg: Config, outcomes: nat -> Outcome, jitter: nat -> real, n: nat, k: nat)
    requires 1 <= n <= cfg.maxAttempts
    requires n <= k < From(cfg, outcomes, jitter, n).calls
    ensures Retries(cfg, outcomes(k), k)
    ensures k - n < |From(cfg, outcomes, jitter, n).sleeps|
      && From(cfg, outcomes, jitter, n).sleeps[k - n] == SleepAfter(cfg, outcomes(k), k, jitter(k))
    decreases cfg.maxAttempts - n
  {
    var o := outcomes(n);
    assert Retries(cfg, o, n) && SleepAfter(cfg, o, n, jitter(n)) >= 0.0;
    if k > n {
      FromCounts(cfg, outcomes, jitter, n + 1);
      FromRetriedBefore(cfg, outcomes, jitter, n + 1, k);
    }
  }

  /** How the last attempt ends the run: a returned response is one that
      needs no retry (not force-listed, or the attempts are used up); a
      raised error is non-transient or came on the last attempt; a
      rejected sleep is the negative duration the last outcome called for. */
  lemma {:induction false} FromEnding(cfg: Config, outcomes: nat -> Outcome, jitter: nat -> real, n: nat)
    requires 1 <= n <= cfg.maxAttempts
    ensures var t := From(cfg, outcomes, jitter, n);
      var last := outcomes(t.calls);
      match t.ending
      case Returned(resp) =>
        last == Answered(resp) && (resp.status !in cfg.forcelist || t.calls == cfg.maxAttempts)
      case Failed(e) =>
        last == Raised(e) && (Transient(e) ==> t.calls == cfg.maxAttempts)
      case SleepRejected(s) =>
        Retries(cfg, last, t.calls) && s == SleepAfter(cfg, last, t.calls, jitter(t.calls)) && s < 0.0
      case AssertionFailed => false
    decreases cfg.maxAttempts - n
  {
    var o := outcomes(n);
    if Retries(cfg, o, n) && SleepAfter(cfg, o, n, jitter(n)) >= 0.0 {
      FromEnding(cfg, outcomes, jitter, n + 1);
    }
  }

  /** The assertion after the loop fails exactly when no attempt is allowed. */
  lemma AssertionFailsIffNoAttempts(cfg: Config, outcomes: nat -> Outcome, jitter: nat -> real)
    ensures Get(cfg, outcomes, jitter).ending == AssertionFailed <==> cfg.maxAttempts <= 0
  {
    if cfg.maxAttempts >= 1 {
      FromEnding(cfg, outcomes, jitter, 1);
    }
  }

  /** With no `Retry-After` headers, a non-negative base and cap and jitter
      drawn from `[0, base]`, every sleep lies between 0 and the cap, so no
      sleep is rejected. */
  lemma {:induction false} FromSleepsCapped(cfg: Config, outcomes: nat -> Outcome, jitter: nat -> real, n: nat)
    requires 1 <= n <= cfg.maxAttempts
    requires 0.0 <= cfg.backoffBase && 0.0 <= cfg.backoffMax
    requires forall k :: n <= k ==> 0.0 <= jitter(k) <= cfg.backoffBase
    requires forall k :: n <= k ==> outcomes(k).Raised? || outcomes(k).response.retryAfter.None?
    ensures var t := From(cfg, outcomes, jitter, n);
      !t.ending.SleepRejected? && forall i :: 0 <= i < |t.sleeps| ==> 0.0 <= t.sleeps[i] <= cfg.backoffMax
    decreases cfg.maxAttempts - n
  {
    var o := outcomes(n);
    ComputeSleepBounds(n, cfg.backoffBase, cfg.backoffMax, jitter(n));
    if Retries(cfg, o, n) {
      var s := SleepAfter(cfg, o, n, jitter(n));
      assert 0.0 <= s <= cfg.backoffMax;
      FromSleepsCapped(cfg, outcomes, jitter, n + 1);
      var rest := From(cfg, outcomes, jitter, n + 1).sleeps;
      assert From(cfg, outcomes, jitter, n).sleeps == [s] + rest;
    }
  }

  /** A force-listed response with a numeric `Retry-After` sleeps exactly
      that long, whatever the backoff settings. */
  lemma RetryAfterHonoured(cfg: Config, status: int, digits: string, attempt: int, jitter: real)
    requires AllDigits(digits)
    ensures ResponseSleep(cfg, Response(status, Some(digits)), attempt, jitter) == DigitsValue(digits) as real
  {
    ParseNumberOfDigits(digits);
  }

  /** A negative `Retry-After` value reaches `time.sleep`, which raises
      ValueError, ending the run on that attempt. */
  lemma NegativeRetryAfterRejected(cfg: Config, outcomes: nat -> Outcome, jitter: nat -> real, digits: string)
    requires AllDigits(digits) && DigitsValue(digits) > 0
    requires 1 < cfg.maxAttempts
    requires outcomes(1).Answered? && outcomes(1).response.status in cfg.forcelist
    requires outcomes(1).response.retryAfter == Some("-" + digits)
    ensures Get(cfg, outcomes, jitter) == Trace(SleepRejected(-(DigitsValue(digits) as real)), 1, [])
  {
    var s := -(DigitsValue(digits) as real);
    assert SleepAfter(cfg, outcomes(1), 1, jitter(1)) == s by {
      ParseNumberOfNegativeDigits(digits);
    }
    assert Retries(cfg, outcomes(1), 1);
    assert s < 0.0;
    assert From(cfg, outcomes, jitter, 1) == Trace(SleepRejected(s), 1, []);
  }
}

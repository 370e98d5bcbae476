/**
 * The request wrapper: up to five attempts, retrying only an HTTP 403 whose
 * `x-ratelimit-remaining` header is "0", after sleeping until the reset time
 * the server announced (at least ten seconds).
 *
 * The server's answers and the clock are parameters: `answer(n)` is what the
 * attempt numbered n (from 0) gets, `clock(n)` is the time in whole seconds
 * read when that attempt's rate-limit error is handled.
 */
module Retry {

  import opened Wrappers
  import opened Values

  /** The number of attempts the wrapper makes at most. */
  const MaxAttempts: nat := 5

  /** The shortest sleep before a retry, in seconds. */
  const MinWait: int := 10

  /** The `x-ratelimit-reset` header as `int(...)` sees it. */
  datatype ResetHeader =
    | Absent             // header missing: the default 0 is used
    | Unparsable         // `int` raises ValueError
    | Reset(epoch: int)  // the announced reset time, in epoch seconds

  /** What one request attempt gets back. */
  datatype Attempt<R> =
    | Response(resp: R)
    | HttpError(status: int, remaining: Option<string>, reset: ResetHeader)
    | OtherError(reason: string)

  /** How the wrapper ends: a response, a raised error, or falling off the loop with `None`. */
  datatype RetryOutcome<R> = Returned(resp: R) | Raised(error: Failure) | NoResponse

  /** The errors the wrapper retries: a 403 with no requests remaining. */
  predicate IsRateLimit<R>(a: Attempt<R>)
    ensures IsRateLimit(a) ==> a.HttpError? && a.status == 403
    ensures a.HttpError? && a.remaining != Some("0") ==> !IsRateLimit(a)
    ensures a.HttpError? && a.status == 403 && a.remaining == Some("0") ==> IsRateLimit(a)
  {
    a.HttpError? && a.status == 403 && a.remaining == Some("0")
  }

  /** The reset time before clamping, given the clock reading `t0`. */
  function ResetTime(h: ResetHeader, t0: int): (reset: int)
    ensures h.Absent? ==> reset == 0
    ensures h.Unparsable? ==> reset == t0 + MinWait
    ensures h.Reset? ==> reset == h.epoch
  {
    match h
    case Absent => 0
    case Unparsable => t0 + MinWait
    case Reset(epoch) => epoch
  }

  /**
   * The sleep before a retry: until the announced reset, but never less
   * than ten seconds.
   */
  function Wait(h: ResetHeader, t0: int): (w: int)
    ensures w >= MinWait
    ensures t0 + w >= ResetTime(h, t0)
    ensures w == MinWait || t0 + w == ResetTime(h, t0)
  {
    var resetTime := ResetTime(h, t0);
    var until := if resetTime > t0 + MinWait then resetTime else t0 + MinWait;
    until - t0
  }

  /** The exception an attempt that is neither a response nor a rate limit raises. */
  function AsFailure<R>(a: Attempt<R>): Failure
    requires !a.Response?
  {
    match a
    case HttpError(status, _, _) => HttpFailure(status)
    case OtherError(reason) => NetworkError(reason)
  }

  /**
   * The source's retry_urlopen. Returns how it ended and the sleeps it
   * made, in order; `attempts` counts the requests it issued.
   */
  method RetryUrlopen<R>(answer: nat -> Attempt<R>, clock: nat -> int)
    returns (out: RetryOutcome<R>, sleeps: seq<int>, ghost attempts: nat)
    ensures attempts <= MaxAttempts
    ensures attempts == |sleeps| + (if out.NoResponse? then 0 else 1)
    ensures forall n :: 0 <= n < |sleeps| ==>
      IsRateLimit(answer(n)) && sleeps[n] == Wait(answer(n).reset, clock(n))
    ensures out.NoResponse? <==> |sleeps| == MaxAttempts
    ensures out.Returned? ==> answer(|sleeps|) == Response(out.resp)
    ensures out.Raised? ==>
      !answer(|sleeps|).Response? && !IsRateLimit(answer(|sleeps|)) && out.error == AsFailure(answer(|sleeps|))
  {
    sleeps := [];
    for n := 0 to MaxAttempts
      invariant |sleeps| == n
      invariant forall k :: 0 <= k < n ==> IsRateLimit(answer(k)) && sleeps[k] == Wait(answer(k).reset, clock(k))
    {
      match answer(n)
      case Response(resp) =>
        out, attempts := Returned(resp), n + 1;
        return;
      case HttpError(status, remaining, reset) =>
        if status == 403 && remaining == Some("0") {
          var t0 := clock(n);
          var resetTime := t0 + MinWait;
          match reset {
            case Absent => resetTime := 0;
            case Unparsable =>
            case Reset(epoch) => resetTime := epoch;
          }
          resetTime := if resetTime > t0 + MinWait then resetTime else t0 + MinWait;
          sleeps := sleeps + [resetTime - t0];
          continue;
        }
        out, attempts := Raised(HttpFailure(status)), n + 1;
        return;
      case OtherError(reason) =>
        out, attempts := Raised(NetworkError(reason)), n + 1;
        return;
    }
    out, attempts := NoResponse, MaxAttempts;
  }

  /**
   * `retry_urlopen(req).read()` followed by parsing: the response, the
   * raised error, or AttributeError when the wrapper returned `None`.
   */
  function ReadResponse<R>(out: RetryOutcome<R>): (r: Result<R, Failure>)
    ensures r.Ok? <==> out.Returned?
    ensures out.Returned? ==> r == Ok(out.resp)
    ensures out.Raised? ==> r == Err(out.error)
    ensures out.NoResponse? ==> r == Err(AttributeError)
  {
    match out
    case Returned(resp) => Ok(resp)
    case Raised(e) => Err(e)
    case NoResponse => Err(AttributeError)
  }

}

/**
 * The view decorators of ggongsul/core/decorators.py: exponential_backoff_retry,
 * api_status_response and the argument logging (_print_args) that scrubs
 * passwords from request data.
 */
module CoreDecorators {
  import opened Wrappers

  // ---- exponential_backoff_retry ----

  const MAX_ATTEMPTS: nat := 6

  function Pow2(i: nat): (p: nat)
    ensures p >= 1
  {
    if i == 0 then 1 else 2 * Pow2(i - 1)
  }

  /** How one call of the wrapped function ends. */
  datatype Attempt<T> =
    | Returned(value: T)
    | TimedOut                 // ReadTimeout or ConnectTimeout
    | Raised(error: string)    // any other exception

  /** How the decorated call ends. */
  datatype RetryOutcome<T> =
    | Done(value: T)
    | Reraised(error: string)
    | MaxRetryOver             // Exception("ERROR: <name> max retry over!!")

  /** The outcome, the number of calls made and the sleeps taken, in order. */
  datatype RetryRun<T> = RetryRun(outcome: RetryOutcome<T>, calls: nat, sleeps: seq<nat>)

  /**
   * The attempts from the i-th on, where attempt(j) is how the j-th call ends:
   * a timeout sleeps 2^j seconds and tries again, anything else ends the run, and
   * after the sixth timeout the run gives up.
   */
  function RunFrom<T>(attempt: nat -> Attempt<T>, i: nat): (r: RetryRun<T>)
    requires i <= MAX_ATTEMPTS
    decreases MAX_ATTEMPTS - i
  {
    if i == MAX_ATTEMPTS then RetryRun(MaxRetryOver, 0, [])
    else
      match attempt(i)
      case Returned(v) => RetryRun(Done(v), 1, [])
      case Raised(e) => RetryRun(Reraised(e), 1, [])
      case TimedOut =>
        var rest := RunFrom(attempt, i + 1);
        RetryRun(rest.outcome, rest.calls + 1, [Pow2(i)] + rest.sleeps)
  }

  /**
   * A run from the i-th attempt makes at most 6 - i calls; every call but the
   * last timed out and was followed by a sleep of 2^j seconds; it gives up
   * exactly when all remaining attempts time out, and otherwise ends as its last
   * call did.
   */
  lemma RunFromSpec<T>(attempt: nat -> Attempt<T>, i: nat)
    requires i <= MAX_ATTEMPTS
    ensures var r := RunFrom(attempt, i);
            && r.calls <= MAX_ATTEMPTS - i
            && |r.sleeps| == (if r.outcome.MaxRetryOver? then r.calls else r.calls - 1)
            && (forall j :: 0 <= j < |r.sleeps| ==> r.sleeps[j] == Pow2(i + j) && attempt(i + j).TimedOut?)
            && (r.outcome.MaxRetryOver? <==> forall j :: i <= j < MAX_ATTEMPTS ==> attempt(j).TimedOut?)
            && (r.outcome.Done? ==> r.calls >= 1 && attempt(i + r.calls - 1) == Returned(r.outcome.value))
            && (r.outcome.Reraised? ==> r.calls >= 1 && attempt(i + r.calls - 1) == Raised(r.outcome.error))
  {
    RunFromSleeps(attempt, i);
    RunFromEnds(attempt, i);
  }

  /** The calls and sleeps of a run: one sleep of 2^j after each timed-out call j. */
  lemma RunFromSleeps<T>(attempt: nat -> Attempt<T>, i: nat)
    requires i <= MAX_ATTEMPTS
    ensures var r := RunFrom(attempt, i);
            && r.calls <= MAX_ATTEMPTS - i
            && |r.sleeps| == (if r.outcome.MaxRetryOver? then r.calls else r.calls - 1)
            && (forall j :: 0 <= j < |r.sleeps| ==> r.sleeps[j] == Pow2(i + j) && attempt(i + j).TimedOut?)
  {
    RunFromCalls(attempt, i);
    RunFromSleepValues(attempt, i);
  }

  /** A run makes at most 6 - i calls and sleeps once per call that timed out. */
  lemma {:induction false} RunFromCalls<T>(attempt: nat -> Attempt<T>, i: nat)
    requires i <= MAX_ATTEMPTS
    ensures var r := RunFrom(attempt, i);
            && r.calls <= MAX_ATTEMPTS - i
            && |r.sleeps| == (if r.outcome.MaxRetryOver? then r.calls else r.calls - 1)
    decreases MAX_ATTEMPTS - i
  {
    if i < MAX_ATTEMPTS && attempt(i).TimedOut? {
      RunFromCalls(attempt, i + 1);
    }
  }

  /** Sleep j of a run from attempt i follows the timed-out call i + j and lasts 2^(i+j) seconds. */
  predicate SleepsAfterTimeouts<T>(attempt: nat -> Attempt<T>, i: nat, sleeps: seq<nat>)
  {
    forall j :: 0 <= j < |sleeps| ==> sleeps[j] == Pow2(i + j) && attempt(i + j).TimedOut?
  }

  /** The j-th sleep follows a timed-out call j and lasts 2^j seconds. */
  lemma {:induction false} RunFromSleepValues<T>(attempt: nat -> Attempt<T>, i: nat)
    requires i <= MAX_ATTEMPTS
    ensures SleepsAfterTimeouts(attempt, i, RunFrom(attempt, i).sleeps)
    decreases MAX_ATTEMPTS - i
  {
    if i < MAX_ATTEMPTS && attempt(i).TimedOut? {
      RunFromSleepValues(attempt, i + 1);
      RunFromAfterTimeout(attempt, i);
      SleepBeforeRest(attempt, i, RunFrom(attempt, i + 1).sleeps);
    }
  }

  /** A timeout at attempt i: the run is the run from i + 1 after one more call and a sleep of 2^i. */
  lemma RunFromAfterTimeout<T>(attempt: nat -> Attempt<T>, i: nat)
    requires i < MAX_ATTEMPTS && attempt(i).TimedOut?
    ensures var rest := RunFrom(attempt, i + 1);
            RunFrom(attempt, i) == RetryRun(rest.outcome, rest.calls + 1, [Pow2(i)] + rest.sleeps)
  {
  }

  /** Prefixing the sleep of a timed-out attempt i to the sleeps from attempt i + 1. */
  lemma SleepBeforeRest<T>(attempt: nat -> Attempt<T>, i: nat, rest: seq<nat>)
    requires attempt(i).TimedOut? && SleepsAfterTimeouts(attempt, i + 1, rest)
    ensures SleepsAfterTimeouts(attempt, i, [Pow2(i)] + rest)
  {
    var sleeps := [Pow2(i)] + rest;
    forall j | 0 <= j < |sleeps| ensures sleeps[j] == Pow2(i + j) && attempt(i + j).TimedOut? {
      if j > 0 {
        var k := j - 1;
        assert sleeps[j] == rest[k];
        assert i + 1 + k == i + j;
      }
    }
  }

  /** How a run ends: it gives up iff every remaining attempt times out, otherwise as its last call did. */
  lemma {:induction false} RunFromEnds<T>(attempt: nat -> Attempt<T>, i: nat)
    requires i <= MAX_ATTEMPTS
    ensures var r := RunFrom(attempt, i);
            && (r.outcome.MaxRetryOver? <==> forall j :: i <= j < MAX_ATTEMPTS ==> attempt(j).TimedOut?)
            && (r.outcome.Done? ==> r.calls >= 1 && attempt(i + r.calls - 1) == Returned(r.outcome.value))
            && (r.outcome.Reraised? ==> r.calls >= 1 && attempt(i + r.calls - 1) == Raised(r.outcome.error))
    decreases MAX_ATTEMPTS - i
  {
    if i < MAX_ATTEMPTS && attempt(i).TimedOut? {
      RunFromEnds(attempt, i + 1);
      var rest := RunFrom(attempt, i + 1);
      var r := RunFrom(attempt, i);
      assert r.outcome == rest.outcome && r.calls == rest.calls + 1;
      assert i + r.calls - 1 == (i + 1) + rest.calls - 1;
    }
  }

  /**
   * exponential_backoff_retry around a function whose j-th call ends as
   * attempt(j): returns how the decorated call ends, how often the function was
   * called and the seconds slept after each timeout.
   */
  method ExponentialBackoffRetry<T>(attempt: nat -> Attempt<T>)
    returns (outcome: RetryOutcome<T>, calls: nat, sleeps: seq<nat>)
    ensures RetryRun(outcome, calls, sleeps) == RunFrom(attempt, 0)
  {
    calls := 0;
    sleeps := [];
    for i := 0 to MAX_ATTEMPTS
      invariant calls == i
      invariant RunFrom(attempt, 0) ==
                  RetryRun(RunFrom(attempt, i).outcome, RunFrom(attempt, i).calls + i, sleeps + RunFrom(attempt, i).sleeps)
    {
      calls := calls + 1;
      match attempt(i) {
        case Returned(v) =>
          return Done(v), calls, sleeps;
        case TimedOut =>
          RunFromAfterTimeout(attempt, i);
          assert sleeps + ([Pow2(i)] + RunFrom(attempt, i + 1).sleeps) == (sleeps + [Pow2(i)]) + RunFrom(attempt, i + 1).sleeps;
          sleeps := sleeps + [Pow2(i)];
        case Raised(e) =>
          return Reraised(e), calls, sleeps;
      }
    }
    assert sleeps + [] == sleeps;
    outcome := MaxRetryOver;
  }

  function Sum(s: seq<nat>): nat
  {
    if s == [] then 0 else Sum(s[..|s| - 1]) + s[|s| - 1]
  }

  /** 2^0 + ... + 2^(n-1) == 2^n - 1. */
  lemma {:induction false} SumOfPowers(s: seq<nat>)
    requires forall j :: 0 <= j < |s| ==> s[j] == Pow2(j)
    ensures Sum(s) == Pow2(|s|) - 1
  {
    if s != [] {
      SumOfPowers(s[..|s| - 1]);
    }
  }

  lemma {:induction false} Pow2Monotone(a: nat, b: nat)
    requires a <= b
    ensures Pow2(a) <= Pow2(b)
    decreases b
  {
    if a < b {
      Pow2Monotone(a, b - 1);
    }
  }

  /**
   * The decorated function is called at most six times, and the total sleep is
   * at most 1 + 2 + 4 + 8 + 16 + 32 = 63 seconds.
   */
  lemma TotalSleepAtMost63<T>(attempt: nat -> Attempt<T>)
    ensures RunFrom(attempt, 0).calls <= 6
    ensures Sum(RunFrom(attempt, 0).sleeps) <= 63
  {
    var r := RunFrom(attempt, 0);
    RunFromSpec(attempt, 0);
    SumOfPowers(r.sleeps);
    Pow2Monotone(|r.sleeps|, 6);
  }

  /**
   * The decorated call returns the result of the first attempt that does not
   * time out, re-raises a non-timeout exception at once, and gives up only after
   * six timeouts in a row.
   */
  lemma FirstNonTimeoutDecides<T>(attempt: nat -> Attempt<T>, k: nat)
    requires k < MAX_ATTEMPTS && !attempt(k).TimedOut?
    requires forall j :: 0 <= j < k ==> attempt(j).TimedOut?
    ensures RunFrom(attempt, 0).calls == k + 1
    ensures attempt(k).Returned? ==> RunFrom(attempt, 0).outcome == Done(attempt(k).value)
    ensures attempt(k).Raised? ==> RunFrom(attempt, 0).outcome == Reraised(attempt(k).error)
  {
    RunFromSpec(attempt, 0);
  }

  // ---- api_status_response ----

  /** The exceptions api_status_response tells apart, each with its str(). */
  datatype ApiError =
    | ValidationError(message: string)
    | InvalidArgumentError(message: string)
    | PasswordMismatch(message: string)
    | NotAuthError(message: string)
    | IntegrityError(message: string)
    | NotAllowedError(message: string)
    | OtherError(message: string)

  /** A DRF Response carrying the result, or a plain HttpResponse with a text body. */
  datatype ApiResponse<T> = Response(data: T, status: nat) | HttpResponse(content: string, status: nat)

  const SERVER_ERROR_MESSAGE: string := "서버에 오류가 발생했습니다."

  /** The HTTP status of each exception class. */
  function ErrorStatus(e: ApiError): nat
  {
    match e
    case ValidationError(_) => 400
    case InvalidArgumentError(_) => 400
    case PasswordMismatch(_) => 403
    case NotAuthError(_) => 403
    case IntegrityError(_) => 404
    case NotAllowedError(_) => 406
    case OtherError(_) => 500
  }

  /** api_status_response: a normal return is 200 with the result; an exception becomes its status. */
  function ApiStatusResponse<T>(result: Result<T, ApiError>): (r: ApiResponse<T>)
    ensures result.Success? <==> r.Response?
    ensures result.Success? ==> r == Response(result.value, 200)
    ensures result.Failure? ==> r.status == ErrorStatus(result.error)
    ensures result.Failure? && !result.error.OtherError? ==> r.content == result.error.message
    ensures result.Failure? && result.error.OtherError? ==> r.content == SERVER_ERROR_MESSAGE
  {
    match result
    case Success(v) => Response(v, 200)
    case Failure(e) =>
      HttpResponse(if e.OtherError? then SERVER_ERROR_MESSAGE else e.message, ErrorStatus(e))
  }

  /**
   * Only the unexpected exceptions answer 500 and hide their message; every
   * known exception class answers a 4xx status that carries its own message.
   */
  lemma ErrorStatusClasses(e: ApiError)
    ensures ErrorStatus(e) in {400, 403, 404, 406, 500}
    ensures ErrorStatus(e) == 500 <==> e.OtherError?
    ensures ErrorStatus(e) == 400 <==> e.ValidationError? || e.InvalidArgumentError?
    ensures ErrorStatus(e) == 403 <==> e.PasswordMismatch? || e.NotAuthError?
  {
  }

  // ---- _print_args ----

  const PASSWORD_KEY: string := "password"

  /** A DRF Request: its data, and whether that data is a QueryDict. */
  class Request {
    var data: map<string, string>
    const isQueryDict: bool

    constructor (data: map<string, string>, isQueryDict: bool)
      ensures this.data == data && this.isQueryDict == isQueryDict
    {
      this.data := data;
      this.isQueryDict := isQueryDict;
    }
  }

  /** A positional argument of the decorated view. */
  datatype Arg = RequestArg(request: Request) | PlainArg(text: string)

  /** One logger.error line of _print_args. */
  datatype LogLine = LoggedData(data: map<string, string>) | LoggedArg(text: string)

  /** The requests among the arguments. */
  function Requests(args: seq<Arg>): set<Request>
  {
    set i | 0 <= i < |args| && args[i].RequestArg? :: args[i].request
  }

  /**
   * _print_args: log each argument; a request is logged as its data without the
   * "password" key. The data of a QueryDict is copied first (dict()) and stays as
   * it is; any other request data loses its "password" key in place.
   */
  method PrintArgs(args: seq<Arg>) returns (log: seq<LogLine>)
    modifies Requests(args)
    ensures |log| == |args|
    ensures forall i :: 0 <= i < |args| ==>
              log[i] == (if args[i].RequestArg? then LoggedData(old(args[i].request.data) - {PASSWORD_KEY})
                         else LoggedArg(args[i].text))
    ensures forall i :: 0 <= i < |args| && args[i].RequestArg? ==>
              args[i].request.data == (if args[i].request.isQueryDict then old(args[i].request.data)
                                       else old(args[i].request.data) - {PASSWORD_KEY})
  {
    log := [];
    for i := 0 to |args|
      invariant |log| == i
      invariant forall j :: 0 <= j < i ==>
                  log[j] == (if args[j].RequestArg? then LoggedData(old(args[j].request.data) - {PASSWORD_KEY})
                             else LoggedArg(args[j].text))
      invariant forall j :: 0 <= j < |args| && args[j].RequestArg? ==>
                  args[j].request.data == old(args[j].request.data)
                  || (!args[j].request.isQueryDict && args[j].request.data == old(args[j].request.data) - {PASSWORD_KEY})
      invariant forall j :: 0 <= j < i && args[j].RequestArg? ==>
                  args[j].request.data == (if args[j].request.isQueryDict then old(args[j].request.data)
                                           else old(args[j].request.data) - {PASSWORD_KEY})
    {
      match args[i] {
        case RequestArg(request) =>
          var argDict := request.data;
          if PASSWORD_KEY in argDict {
            argDict := argDict - {PASSWORD_KEY};
            if !request.isQueryDict {
              request.data := argDict;
            }
          }
          log := log + [LoggedData(argDict)];
        case PlainArg(text) =>
          log := log + [LoggedArg(text)];
      }
    }
  }
}

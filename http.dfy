/**
 * The retrying HTTP helpers of src/utils/http.ts.
 *
 * The wrapped operation `fn` is modelled by what its i-th call settles to
 * (`fn(i)` for i = 1, 2, ...). The calls on `fn`, the calls on the logger and
 * the `setTimeout` waits are recorded, in order, as a trace of `Event`s, so
 * that the number of attempts, warnings and delays can be stated exactly.
 */
module Http {
  import opened Wrappers
  import opened Logging

  /** Default retry ceiling and delay between attempts, in milliseconds. */
  const DefaultRetries: int := 3
  const DefaultDelayMs: int := 5000

  /** A value a promise is rejected with (or that is thrown). */
  datatype Thrown =
    | Undefined
    | Null
      /** Any other value; `code` is its `code` property when that is a string. */
    | Failure(code: Option<string>, message: string)
      /** The TypeError raised by reading `.code` of `undefined` or `null`. */
    | CodeReadTypeError

  /** How one call of the wrapped operation settles. */
  datatype Attempt<T> = Ok(value: T) | Fail(error: Thrown)

  /** How the call of `withRetries` settles. */
  datatype Completion<T> = Returned(value: T) | Raised(error: Thrown)

  /** The warning logged before a retry: attempt number, the error, the delay announced. */
  datatype Notice = RetryNotice(attempt: int, error: Thrown, delayMs: int)

  datatype Event =
    | Call(attempt: int)          // the wrapped operation is called for this attempt
    | Log(call: LogCall<Notice>)  // a call on the logger
    | Sleep(ms: int)              // a `setTimeout` wait requested for this many milliseconds

  datatype Run<T> = Run(result: Completion<T>, trace: seq<Event>)

  /** The transient-error classification: the `code` is exactly one of three strings. */
  predicate IsTemporary(e: Thrown)
    ensures IsTemporary(e) <==> e.Failure? && e.code.Some? && e.code.value in {"EAI_AGAIN", "ENOTFOUND", "ECONNRESET"}
  {
    e.Failure? && (e.code == Some("EAI_AGAIN") || e.code == Some("ENOTFOUND") || e.code == Some("ECONNRESET"))
  }

  /** An attempt whose failure the retry loop would retry, if attempts remain. */
  predicate Retryable<T>(a: Attempt<T>) {
    a.Fail? && IsTemporary(a.error)
  }

  /** What escapes the retry loop when it stops on attempt outcome `a`. */
  function Settle<T>(a: Attempt<T>): (r: Completion<T>)
    ensures r.Returned? <==> a.Ok?
    ensures a.Ok? ==> r.value == a.value
    ensures r.Raised? ==> !r.error.Undefined? && !r.error.Null?
    ensures a.Fail? && (a.error.Undefined? || a.error.Null?) ==> r == Raised(CodeReadTypeError)
    ensures a.Fail? && !a.error.Undefined? && !a.error.Null? ==> r == Raised(a.error)
  {
    match a
    case Ok(v) => Returned(v)
    case Fail(Undefined) => Raised(CodeReadTypeError)
    case Fail(Null) => Raised(CodeReadTypeError)
    case Fail(e) => Raised(e)
  }

  /** The first attempt, from `from` on, at which the loop stops: not retryable, or the last one. */
  function FirstStop<T>(fn: nat -> Attempt<T>, from: nat, retries: int): (n: nat)
    requires 1 <= from <= retries
    ensures from <= n <= retries
    ensures forall i :: from <= i < n ==> Retryable(fn(i))
    ensures n == retries || !Retryable(fn(n))
    decreases retries - from
  {
    if from == retries || !Retryable(fn(from)) then from else FirstStop(fn, from + 1, retries)
  }

  /** The events of one retried attempt: the call, one warning, one delay. */
  function Round<T>(fn: nat -> Attempt<T>, i: nat, delayMs: int): seq<Event>
    requires Retryable(fn(i))
  {
    [Call(i), Log(Warn(RetryNotice(i, fn(i).error, delayMs))), Sleep(delayMs)]
  }

  /** The events of attempts 1..m, all of them retried. */
  function Rounds<T>(fn: nat -> Attempt<T>, m: nat, delayMs: int): seq<Event>
    requires forall i :: 1 <= i <= m ==> Retryable(fn(i))
  {
    if m == 0 then [] else Rounds(fn, m - 1, delayMs) + Round(fn, m, delayMs)
  }

  /**
   * Reference definition of `withRetries(fn, retries, delayMs)`: with no
   * attempt allowed, `undefined` is thrown; otherwise attempts 1..n-1 are
   * retried and attempt n, the first that is not retryable or the last
   * allowed, decides the outcome.
   */
  function Retry<T>(fn: nat -> Attempt<T>, retries: int := DefaultRetries, delayMs: int := DefaultDelayMs): Run<T>
  {
    if retries < 1 then Run(Raised(Undefined), [])
    else
      var n := FirstStop(fn, 1, retries);
      Run(Settle(fn(n)), Rounds(fn, n - 1, delayMs) + [Call(n)])
  }

  /** `withRetries`: the bounded, sequential retry loop. */
  method WithRetries<T>(fn: nat -> Attempt<T>, retries: int := DefaultRetries, delayMs: int := DefaultDelayMs)
    returns (result: Completion<T>, trace: seq<Event>)
    ensures Run(result, trace) == Retry(fn, retries, delayMs)
  {
    var lastError: Thrown := Undefined;
    trace := [];
    var attempt: nat := 1;
    while attempt <= retries
      invariant 1 <= attempt
      invariant attempt <= if retries < 1 then 1 else retries
      invariant forall i :: 1 <= i < attempt ==> Retryable(fn(i))
      invariant trace == Rounds(fn, attempt - 1, delayMs)
      invariant lastError == if attempt == 1 then Undefined else fn(attempt - 1).error
    {
      trace := trace + [Call(attempt)];
      var outcome := fn(attempt);
      if outcome.Ok? {
        FirstStopUnique(fn, retries, attempt);
        return Returned(outcome.value), trace;
      }
      var err := outcome.error;
      lastError := err;
      if err.Undefined? || err.Null? {
        FirstStopUnique(fn, retries, attempt);
        return Raised(CodeReadTypeError), trace;
      }
      var isTemporary := IsTemporary(err);
      if !isTemporary || attempt == retries {
        FirstStopUnique(fn, retries, attempt);
        return Raised(err), trace;
      }
      trace := trace + [Log(Warn(RetryNotice(attempt, err, delayMs))), Sleep(delayMs)];
      attempt := attempt + 1;
    }
    result := Raised(lastError);
  }

  /** The stopping attempt is determined by its two defining properties. */
  lemma FirstStopUnique<T>(fn: nat -> Attempt<T>, retries: int, n: nat)
    requires 1 <= n <= retries
    requires forall i :: 1 <= i < n ==> Retryable(fn(i))
    requires n == retries || !Retryable(fn(n))
    ensures FirstStop(fn, 1, retries) == n
  {
  }

  // ---------------------------------------------------------------------
  // Tallies over a trace

  /** The attempt numbers of the calls on the wrapped operation, in order. */
  function Calls(t: seq<Event>): seq<int> {
    if t == [] then []
    else Calls(t[..|t| - 1]) + (if t[|t| - 1].Call? then [t[|t| - 1].attempt] else [])
  }

  /** The number of `logger.warn` calls. */
  function Warnings(t: seq<Event>): nat {
    if t == [] then 0
    else Warnings(t[..|t| - 1]) + (if t[|t| - 1].Log? && t[|t| - 1].call.Warn? then 1 else 0)
  }

  /** The number of delays. */
  function Sleeps(t: seq<Event>): nat {
    if t == [] then 0
    else Sleeps(t[..|t| - 1]) + (if t[|t| - 1].Sleep? then 1 else 0)
  }

  /** The total delay requested from `setTimeout`, in milliseconds. */
  function TotalDelay(t: seq<Event>): int {
    if t == [] then 0
    else TotalDelay(t[..|t| - 1]) + (if t[|t| - 1].Sleep? then t[|t| - 1].ms else 0)
  }

  lemma {:induction false} TalliesAppend(a: seq<Event>, b: seq<Event>)
    ensures Calls(a + b) == Calls(a) + Calls(b)
    ensures Warnings(a + b) == Warnings(a) + Warnings(b)
    ensures Sleeps(a + b) == Sleeps(a) + Sleeps(b)
    ensures TotalDelay(a + b) == TotalDelay(a) + TotalDelay(b)
    decreases |b|
  {
    if b == [] {
      assert a + b == a;
    } else {
      var b' := b[..|b| - 1];
      assert (a + b)[..|a + b| - 1] == a + b';
      TalliesAppend(a, b');
    }
  }

  /** Every `logger` call in `t` is a warning for an attempt in 1..m, right after that attempt's call and right before one delay. */
  predicate WarningsWellPlaced(t: seq<Event>, m: int, delayMs: int) {
    forall k :: 0 <= k < |t| && t[k].Log? ==>
      t[k].call.Warn? && 1 <= t[k].call.msg.attempt <= m &&
      0 < k && t[k - 1] == Call(t[k].call.msg.attempt) &&
      k + 1 < |t| && t[k + 1] == Sleep(delayMs)
  }

  /** The tallies of one retried attempt: its own call, one warning, one delay. */
  lemma RoundTallies<T>(fn: nat -> Attempt<T>, m: nat, delayMs: int)
    requires Retryable(fn(m))
    ensures var q := Round(fn, m, delayMs);
      Calls(q) == [m] && Warnings(q) == 1 && Sleeps(q) == 1 && TotalDelay(q) == delayMs
  {
    var c, w, z := [Call(m)], [Log(Warn(RetryNotice(m, fn(m).error, delayMs)))], [Sleep(delayMs)];
    assert Round(fn, m, delayMs) == c + w + z;
    assert c[..0] == w[..0] == z[..0] == [];
    TalliesAppend(c, w);
    TalliesAppend(c + w, z);
  }

  /** Retrying attempts 1..m calls them in order, with m warnings, m delays and m × delayMs of requested delay. */
  lemma {:induction false} RoundsTallies<T>(fn: nat -> Attempt<T>, m: nat, delayMs: int)
    requires forall i :: 1 <= i <= m ==> Retryable(fn(i))
    ensures var r := Rounds(fn, m, delayMs);
      |Calls(r)| == m && (forall k :: 0 <= k < m ==> Calls(r)[k] == k + 1) &&
      Warnings(r) == m && Sleeps(r) == m && TotalDelay(r) == m * delayMs
  {
    if m > 0 {
      RoundsTallies(fn, m - 1, delayMs);
      RoundTallies(fn, m, delayMs);
      TalliesAppend(Rounds(fn, m - 1, delayMs), Round(fn, m, delayMs));
      assert m * delayMs == (m - 1) * delayMs + delayMs;
    }
  }

  /** In the retried prefix, each warning sits between its attempt's call and one delay. */
  lemma {:induction false} RoundsWarningsWellPlaced<T>(fn: nat -> Attempt<T>, m: nat, delayMs: int)
    requires forall i :: 1 <= i <= m ==> Retryable(fn(i))
    ensures WarningsWellPlaced(Rounds(fn, m, delayMs), m, delayMs)
  {
    if m > 0 {
      var p := Rounds(fn, m - 1, delayMs);
      var r := p + Round(fn, m, delayMs);
      RoundsWarningsWellPlaced(fn, m - 1, delayMs);
      forall k | 0 <= k < |r| && r[k].Log?
        ensures r[k].call.Warn? && 1 <= r[k].call.msg.attempt <= m &&
          0 < k && r[k - 1] == Call(r[k].call.msg.attempt) &&
          k + 1 < |r| && r[k + 1] == Sleep(delayMs)
      {
        if k < |p| {
          assert r[k] == p[k] && r[k - 1] == p[k - 1] && r[k + 1] == p[k + 1];
        } else {
          assert k == |p| + 1;
        }
      }
    }
  }

  /** Appending a call keeps every earlier warning well placed. */
  lemma WarningsWellPlacedAppendCall(p: seq<Event>, m: int, n: int, delayMs: int)
    requires WarningsWellPlaced(p, m, delayMs)
    ensures WarningsWellPlaced(p + [Call(n)], m, delayMs)
  {
  }

  /** The trace of a run that stops at attempt n: the retried prefix, then attempt n's call. */
  lemma {:induction false} StoppedTraceShape<T>(fn: nat -> Attempt<T>, n: nat, delayMs: int)
    requires 1 <= n
    requires forall i :: 1 <= i < n ==> Retryable(fn(i))
    ensures var t := Rounds(fn, n - 1, delayMs) + [Call(n)];
      |Calls(t)| == n && (forall k :: 0 <= k < n ==> Calls(t)[k] == k + 1) &&
      Warnings(t) == n - 1 && Sleeps(t) == n - 1 && TotalDelay(t) == (n - 1) * delayMs &&
      WarningsWellPlaced(t, n - 1, delayMs)
  {
    var p := Rounds(fn, n - 1, delayMs);
    RoundsTallies(fn, n - 1, delayMs);
    RoundsWarningsWellPlaced(fn, n - 1, delayMs);
    WarningsWellPlacedAppendCall(p, n - 1, n, delayMs);
    TalliesAppend(p, [Call(n)]);
    assert Calls([Call(n)]) == [n] by { assert [Call(n)][..0] == []; }
  }

  /**
   * The shape of every run of `withRetries`: the calls are attempts 1..n in
   * order with 1 <= n <= retries (none when retries < 1); each of the first
   * n - 1 attempts is followed by exactly one warning and one delay of
   * `delayMs`; the n-th attempt's call is the last event.
   */
  lemma RetryShape<T>(fn: nat -> Attempt<T>, retries: int, delayMs: int)
    ensures var t := Retry(fn, retries, delayMs).trace;
      var n := |Calls(t)|;
      (retries < 1 ==> t == []) &&
      (retries >= 1 ==>
        n == FirstStop(fn, 1, retries) && 1 <= n <= retries &&
        (forall k :: 0 <= k < n ==> Calls(t)[k] == k + 1) &&
        t[|t| - 1] == Call(n) &&
        Warnings(t) == n - 1 && Sleeps(t) == n - 1 && TotalDelay(t) == (n - 1) * delayMs &&
        WarningsWellPlaced(t, n - 1, delayMs))
  {
    if retries >= 1 {
      StoppedTraceShape(fn, FirstStop(fn, 1, retries), delayMs);
    }
  }

  /** `fn` is called at most `retries` times, for attempts 1, 2, ... in order. */
  lemma AttemptsInOrder<T>(fn: nat -> Attempt<T>, retries: int, delayMs: int)
    ensures var cs := Calls(Retry(fn, retries, delayMs).trace);
      |cs| <= (if retries < 1 then 0 else retries) &&
      (forall k :: 0 <= k < |cs| ==> cs[k] == k + 1)
  {
    RetryShape(fn, retries, delayMs);
    if retries < 1 {
      assert Calls([]) == [];
    }
  }

  /** Total delay equals warnings times `delayMs`, and there are at most retries - 1 warnings (no backoff). */
  lemma DelayIsConstant<T>(fn: nat -> Attempt<T>, retries: int, delayMs: int)
    ensures var t := Retry(fn, retries, delayMs).trace;
      Sleeps(t) == Warnings(t) &&
      TotalDelay(t) == Warnings(t) * delayMs &&
      Warnings(t) <= (if retries < 1 then 0 else retries - 1)
  {
    RetryShape(fn, retries, delayMs);
    if retries < 1 {
      assert Retry(fn, retries, delayMs).trace == [];
    }
  }

  /** The first successful attempt's value is returned; nothing happens after its call. */
  lemma FirstSuccessReturned<T>(fn: nat -> Attempt<T>, retries: int, delayMs: int, n: nat)
    requires 1 <= n <= retries
    requires forall i :: 1 <= i < n ==> Retryable(fn(i))
    requires fn(n).Ok?
    ensures var run := Retry(fn, retries, delayMs);
      run.result == Returned(fn(n).value) &&
      |Calls(run.trace)| == n && run.trace[|run.trace| - 1] == Call(n) &&
      Warnings(run.trace) == n - 1 && TotalDelay(run.trace) == (n - 1) * delayMs
  {
    FirstStopUnique(fn, retries, n);
    RetryShape(fn, retries, delayMs);
  }

  /** Conversely, a returned value is the value of the last attempt made, and every earlier attempt failed transiently. */
  lemma ReturnedOnlyOnSuccess<T>(fn: nat -> Attempt<T>, retries: int, delayMs: int)
    ensures var run := Retry(fn, retries, delayMs);
      var n := |Calls(run.trace)|;
      run.result.Returned? ==>
        1 <= n <= retries && fn(n) == Ok(run.result.value) &&
        forall i :: 1 <= i < n ==> Retryable(fn(i))
  {
    RetryShape(fn, retries, delayMs);
  }

  /**
   * A failure that is not transient is surfaced on the attempt where it
   * occurs, with no warning and no delay for that attempt; `undefined` and
   * `null` rejections surface as the TypeError of reading their `code`.
   */
  lemma NonTransientFailsFast<T>(fn: nat -> Attempt<T>, retries: int, delayMs: int, n: nat)
    requires 1 <= n <= retries
    requires forall i :: 1 <= i < n ==> Retryable(fn(i))
    requires fn(n).Fail? && !IsTemporary(fn(n).error)
    ensures var run := Retry(fn, retries, delayMs);
      run.result == Raised(if fn(n).error.Undefined? || fn(n).error.Null? then CodeReadTypeError else fn(n).error) &&
      |Calls(run.trace)| == n && run.trace[|run.trace| - 1] == Call(n) &&
      Warnings(run.trace) == n - 1 && TotalDelay(run.trace) == (n - 1) * delayMs
  {
    FirstStopUnique(fn, retries, n);
    RetryShape(fn, retries, delayMs);
  }

  /** In particular, a non-transient failure on the first attempt gives one call and nothing else. */
  lemma NonTransientOnFirstAttempt<T>(fn: nat -> Attempt<T>, retries: int, delayMs: int)
    requires 1 <= retries
    requires fn(1).Fail? && fn(1).error.Failure? && !IsTemporary(fn(1).error)
    ensures Retry(fn, retries, delayMs) == Run(Raised(fn(1).error), [Call(1)])
  {
    FirstStopUnique(fn, retries, 1);
  }

  /**
   * When every allowed attempt fails transiently, the last attempt's own
   * error is rethrown, and no warning or delay follows it.
   */
  lemma ExhaustionRethrowsLastError<T>(fn: nat -> Attempt<T>, retries: int, delayMs: int)
    requires 1 <= retries
    requires forall i :: 1 <= i <= retries ==> Retryable(fn(i))
    ensures var run := Retry(fn, retries, delayMs);
      run.result.Raised? && fn(retries) == Fail(run.result.error) &&
      |Calls(run.trace)| == retries && run.trace[|run.trace| - 1] == Call(retries) &&
      Warnings(run.trace) == retries - 1 && TotalDelay(run.trace) == (retries - 1) * delayMs &&
      WarningsWellPlaced(run.trace, retries - 1, delayMs)
  {
    FirstStopUnique(fn, retries, retries);
    RetryShape(fn, retries, delayMs);
  }

  /** With no attempt allowed, `fn` is never called and `undefined` is thrown. */
  lemma NoAttemptAllowed<T>(fn: nat -> Attempt<T>, retries: int, delayMs: int)
    requires retries < 1
    ensures Retry(fn, retries, delayMs) == Run(Raised(Undefined), [])
  {
  }

  /** With the defaults, at most 3 calls and at most 10000 ms of requested delay. */
  lemma DefaultsBound<T>(fn: nat -> Attempt<T>)
    ensures var t := Retry(fn).trace;
      |Calls(t)| <= 3 && Warnings(t) <= 2 && TotalDelay(t) <= 10000
  {
    AttemptsInOrder(fn, DefaultRetries, DefaultDelayMs);
    DelayIsConstant(fn, DefaultRetries, DefaultDelayMs);
  }

  /** Two connection resets then a success: the value is returned after exactly two warnings and two delays. */
  lemma TwoResetsThenSuccess<T>(v: T, delayMs: int)
    ensures var reset := Fail(Failure(Some("ECONNRESET"), "socket hang up"));
      var run := Retry((i: nat) => if i <= 2 then reset else Ok(v), 3, delayMs);
      run.result == Returned(v) && Warnings(run.trace) == 2 && TotalDelay(run.trace) == 2 * delayMs
  {
    var reset := Fail(Failure(Some("ECONNRESET"), "socket hang up"));
    var fn := (i: nat) => if i <= 2 then reset else Ok(v);
    FirstSuccessReturned(fn, 3, delayMs, 3);
  }

  // ---------------------------------------------------------------------
  // fetchStream

  /** The response handed back by `fetchStream` (the open stream), by its status. */
  datatype Response = Response(status: int)

  /** What one `https.get` call produces: a response, or an `error` event. */
  datatype Exchange = Responded(status: int) | RequestError(error: Thrown)

  /** Decimal rendering of an integer, as in a template literal. */
  function DecimalText(n: int): string
    decreases if n < 0 then 1 - n else n
  {
    if n < 0 then "-" + DecimalText(-n)
    else if n < 10 then [(n as char) + '0']
    else DecimalText(n / 10) + [((n % 10) as char) + '0']
  }

  /** The status gate of `fetchStream`: only status 200 is accepted. */
  function StatusGate(url: string, status: int): (a: Attempt<Response>)
    ensures a.Ok? <==> status == 200
    ensures a.Ok? ==> a.value == Response(200)
    ensures a.Fail? ==> a.error.Failure? && a.error.code == None && !IsTemporary(a.error)
  {
    if status == 200 then Ok(Response(status))
    else Fail(Failure(None, "Failed to fetch " + url + " (status " + DecimalText(status) + ")"))
  }

  /** One attempt of `fetchStream`, given what the request produced. */
  function StreamAttempt(url: string, ex: Exchange): (a: Attempt<Response>)
    ensures a.Ok? <==> ex == Responded(200)
    ensures ex.RequestError? ==> a == Fail(ex.error)
    ensures ex.Responded? && a.Fail? ==> a.error.Failure? && a.error.code == None && !IsTemporary(a.error)
  {
    match ex
    case Responded(status) => StatusGate(url, status)
    case RequestError(e) => Fail(e)
  }

  function StreamAttempts(url: string, exchanges: nat -> Exchange): nat -> Attempt<Response> {
    (i: nat) => StreamAttempt(url, exchanges(i))
  }

  /** `fetchStream`: the status-gated request wrapped in the default retry policy. */
  method FetchStream(url: string, exchanges: nat -> Exchange) returns (result: Completion<Response>, trace: seq<Event>)
    ensures Run(result, trace) == Retry(StreamAttempts(url, exchanges))
  {
    result, trace := WithRetries(StreamAttempts(url, exchanges));
  }

  /** A non-200 response is never retried: one request, no warning, no delay. */
  lemma RejectedStatusNotRetried(url: string, exchanges: nat -> Exchange, retries: int, delayMs: int)
    requires 1 <= retries
    requires exchanges(1).Responded? && exchanges(1).status != 200
    ensures Retry(StreamAttempts(url, exchanges), retries, delayMs)
      == Run(Raised(StatusGate(url, exchanges(1).status).error), [Call(1)])
  {
    NonTransientOnFirstAttempt(StreamAttempts(url, exchanges), retries, delayMs);
  }
}

# FHIR Package Installer utilities — a Dafny model

This project models the three decision-making utilities of the FHIR Package
Installer, the client that downloads FHIR Implementation Guide packages from a
registry, unpacks them into a local cache, and indexes their resource files.

- `Http` (`http.dfy`) models `withRetries`, the bounded, sequential retry loop that wraps every
  registry request, and the status-200 gate of `fetchStream`. The wrapped operation is given as
  the outcome of each of its calls, `fn(i)` for the i-th attempt. The loop is a method.
  Its calls on `fn`, its `logger.warn` calls and its `setTimeout` waits are recorded in a trace of
  events: `Call(attempt)`, `Log(Warn(notice))` and `Sleep(ms)`.
  The method is proved equal to a closed-form reference definition, `Retry`.
  Lemmas about `Retry` then state how many attempts run, in what order, how many warnings and
  delays occur, and which error escapes.
- `ResourceIndex` (`fpi.dfy`) models `extractResourceIndexEntry` and its helper `evalAttribute`.
  The extractor is a total, pure map from a file name and a decoded resource to a
  `FileInPackageIndex` record. Resource properties are `Str(s)`, `Other` (any non-string JSON
  value) or `Absent`. Index fields are `Option<string>`. The field `type` is spelled `type_`
  because `type` is a Dafny keyword.
- `ErrorUtils` (`error.dfy`) models `defaultPrethrow`, a function, and `prethrowWithLogger`, a method
  returning the error together with the `logger.error` calls it makes.
- `Logging` (`logging.dfy`) is the injected logger's three operations (`info`, `warn`, `error`)
  as a datatype of recorded calls. `Wrappers` (`wrappers.dfy`) holds `Option`.

Behaviours of the code kept in the model:

- A rejection with `undefined` or `null` makes the read of `err.code` throw a TypeError.
  That TypeError escapes at once, not the rejection value (`Thrown.CodeReadTypeError`).
- With `retries < 1`, `fn` is never called and `throw lastError` throws `undefined`.
- The code throws plain `Error`s without a `code`. A non-200 status is a
  `Failure(None, "Failed to fetch <url> (status <n>)")` and is never retried.
- `new Error(msg)` converts `msg` to a string, which throws a TypeError for some values.
  `JSON.stringify` throws on an error with a circular or BigInt-valued enumerable property.
  Both throwing paths of the normalisers are modelled (`ToStringFailed`, `StringifyFailed`).

## Model

| member | source | states |
|---|---|---|
| `Http.WithRetries` | src/utils/http.ts:11-36 | The loop returns exactly what the reference definition `Retry` gives, for every script of attempt outcomes, every ceiling and every delay: result and full event trace. |
| `Http.IsTemporary` | src/utils/http.ts:22-23 | An error is transient exactly when it is an object whose `code` is one of the strings EAI_AGAIN, ENOTFOUND, ECONNRESET. |
| `Http.Settle` | src/utils/http.ts:19-26 | The loop returns a value exactly when the stopping attempt succeeded, and returns that value. A nullish rejection never escapes: reading its `code` throws a TypeError instead. Any other failure escapes as itself. |
| `Http.FirstStop` | src/utils/http.ts:17-27 | The attempt where the loop stops lies in 1..retries. Every earlier attempt failed with a transient code. It is either the last allowed attempt or one that is not retryable. |
| `Http.FirstStopUnique` | src/utils/http.ts:17-27 | Those properties determine the stopping attempt uniquely. |
| `Http.RoundsTallies` | src/utils/http.ts:17-32 | Retrying attempts 1..m makes calls 1..m in order, with m warnings, m delays and m × delayMs of requested delay. |
| `Http.RoundsWarningsWellPlaced` | src/utils/http.ts:29-32 | While attempts 1..m are retried, each warning names an attempt in 1..m. It comes directly after that attempt's call and directly before one delay of delayMs. |
| `Http.StoppedTraceShape` | src/utils/http.ts:17-32 | A run stopping at attempt n makes calls 1..n in order, with n − 1 warnings, n − 1 delays and (n − 1) × delayMs of requested delay. |
| `Http.RetryShape` | src/utils/http.ts:16-35 | Every run makes calls 1..n in order, with 1 ≤ n ≤ retries, or makes none when retries < 1. The n-th call is the last event. Only the first n − 1 attempts get a warning and a delay. |
| `Http.AttemptsInOrder` | src/utils/http.ts:17-19 | `fn` is called at most `retries` times (never when retries < 1), for attempts 1, 2, … strictly in order. |
| `Http.DelayIsConstant` | src/utils/http.ts:29-32 | Delays equal warnings in number. Total delay = warnings × delayMs (no backoff). Warnings ≤ retries − 1. |
| `Http.FirstSuccessReturned` | src/utils/http.ts:19 | If attempt n is the first success after transient failures, its value is returned and nothing follows its call. |
| `Http.ReturnedOnlyOnSuccess` | src/utils/http.ts:17-27 | Conversely, a returned value is the value of the last attempt made, and every earlier attempt failed transiently. |
| `Http.NonTransientFailsFast` | src/utils/http.ts:20-27 | A failure whose code is not EAI_AGAIN, ENOTFOUND or ECONNRESET is rethrown on its own attempt, with no warning or delay for it. A nullish rejection surfaces as the TypeError from reading its `code`. |
| `Http.NonTransientOnFirstAttempt` | src/utils/http.ts:22-27 | A non-transient first failure gives exactly one call, that error thrown, and no warning or delay. |
| `Http.ExhaustionRethrowsLastError` | src/utils/http.ts:25-26 | When every allowed attempt fails transiently, the error of attempt `retries` itself is thrown. There are retries − 1 warnings and delays, none after the last attempt. |
| `Http.NoAttemptAllowed` | src/utils/http.ts:16-35 | With retries < 1, `fn` is never called and `undefined` is thrown. |
| `Http.DefaultsBound` | src/utils/http.ts:13-14 | With the defaults (3 attempts, 5000 ms), there are at most 3 calls, 2 warnings and 10000 ms of requested delay. |
| `Http.TwoResetsThenSuccess` | src/utils/http.ts:17-32 | Two ECONNRESET failures then a success: the value is returned after exactly 2 warnings and 2 × delayMs of requested delay. |
| `Http.StatusGate` | src/utils/http.ts:57-61 | A response is accepted exactly when its status is 200. Any other status is rejected with an error that has no code and is not transient. |
| `Http.FetchStream` | src/utils/http.ts:54-64 | `fetchStream` is the status-gated request under the default retry policy. |
| `Http.StreamAttempt` | src/utils/http.ts:55-62 | One `fetchStream` request succeeds exactly when the response status is 200. A request `error` event rejects with that error. A non-200 status rejects with a code-less, non-transient error. |
| `Http.RejectedStatusNotRetried` | src/utils/http.ts:55-63 | A non-200 response on the first request gives one request, that rejection thrown, and no warning or delay. |
| `ResourceIndex.EvalAttribute` | src/utils/fpi.ts:15 | The result is present exactly when the attribute is a string, and then it is that string. |
| `ResourceIndex.ExtractResourceIndexEntry` | src/utils/fpi.ts:14-32 | Total. `filename`, `resourceType` and `id` are copied unchanged, with no string check. Each of the ten scalar fields is `evalAttribute` of the attribute with the same name. |
| `ResourceIndex.StringAttributeIndexed` | src/utils/fpi.ts:15-29 | A string attribute appears unchanged in the output field of the same name. |
| `ResourceIndex.NonStringAttributeAbsent` | src/utils/fpi.ts:15-29 | A non-string attribute (array, number, object or missing) gives an absent field. |
| `ResourceIndex.FieldDependsOnItsAttributeOnly` | src/utils/fpi.ts:20-29 | An output field depends only on the input attribute of the same name. Fields are never mixed. |
| `ResourceIndex.EvalAttributeIdempotent` | src/utils/fpi.ts:15 | Applying `evalAttribute` to its own result changes nothing. |
| `ResourceIndex.ReextractionIsIdentity` | src/utils/fpi.ts:14-32 | Extracting from a record shaped like an entry returns that entry. |
| `ResourceIndex.UrlScalarIndexedArrayDropped` | src/utils/fpi.ts:20 | A string `url` is indexed. An array-valued `url` leaves the field absent. |
| `ErrorUtils.NewError` | src/utils/error.ts:12 | `new Error(v)` returns exactly when the string conversion of `v` succeeds. The new error's message is that conversion, empty for `undefined`, and it can always be dumped. Otherwise a TypeError is thrown. |
| `ErrorUtils.DefaultPrethrow` | src/utils/error.ts:8-14 | An `Error` is returned unchanged. Any other value goes through `new Error`, so it is wrapped or the conversion's TypeError is thrown. It never fails in `JSON.stringify` and logs nothing. |
| `ErrorUtils.DefaultPrethrowIdempotent` | src/utils/error.ts:9-11 | Applying the normaliser to an error it returned gives back that error. |
| `ErrorUtils.PrethrowWithLogger` | src/utils/error.ts:16-23 | When it returns, it returns the same error as `defaultPrethrow`, after exactly two `error` logger calls: the message first, then the JSON dump. If `new Error` throws, nothing is logged. If the dump throws, only the message line is logged. No `info` or `warn` call is made. |

## Left out

- `fetchJson` (src/utils/http.ts:38-52): reading the body, `JSON.parse` and the parse-failure error are not modelled. Only its wrapping in `withRetries` is, through `Retry`.
- `downloadFile` (src/utils/http.ts:66-70): file-stream creation, piping and `finished` are filesystem and stream I/O.
- The `https.get` requests are network I/O. Each request is replaced by its outcome (`Exchange`, or `fn(i)`).
- `setTimeout` waits are recorded as `Sleep(delayMs)` events holding the requested delay, not elapsed time. Node clamps delays below 1 ms or above 2^31 − 1 ms to about 1 ms; `TotalDelay` sums the requested values, negative ones included.
- The exact text of the retry warning and the `JSON.stringify` layout of the error dump are not modelled. The warning carries its attempt, error and delay. The dump carries the error object.
- `Http.WithRetries`: `retries` and `delayMs` are integers. A fractional `retries` (a JavaScript number such as 2.5) would make the loop warn and wait after its last attempt; this is not modelled.
- `Http.Thrown`: a `code` property that is not a string is modelled as no code. Strict equality with a string is false for it, as in the code.
- `ResourceIndex.ExtractResourceIndexEntry`: a non-string `resourceType` or `id` (a number, an object) is copied as the `Other` tag only. The code copies the value itself, so "copied unchanged" holds up to that abstraction.
- `ErrorUtils.DefaultPrethrow`: object identity is modelled by value. An existing `Error` is returned as the very same value. Two wrappers with equal messages compare equal, although JavaScript would create two distinct objects.
- The string conversion of arbitrary values is not computed. A non-`Error` value carries either its conversion as text or the fact that converting it throws. Likewise, whether `JSON.stringify` throws on an existing error is a flag on it.
- The `FhirPackageInstaller` facade is not part of this model: reference parsing, cache paths, installation, dependency traversal and index-file persistence.
- The command-line interface (src/cli.ts), the build script (test/dist-to-module.js) and the utility aggregator (src/utils/index.ts) have no decision logic.

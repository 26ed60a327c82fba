# faas-flow function template: request shim, timeout parsing, store selection

This project models the Go entry point of the faas-flow function template
(`template/faas-flow/main.go`). That file holds three things.

- **Timeout parsing** (`parseIntOrDurationValue`). A setting is read first as a non-negative count of whole seconds using `strconv.Atoi`. If that fails, it is read with `time.ParseDuration`. If that fails too, the fallback is used.
- **The HTTP handler** built by `makeRequestHandler`. It turns the transport request into an `HttpRequest` and calls the executor once with a fresh `HttpResponse`. It copies the response headers onto the writer, then makes its `WriteHeader` / `Write` calls.
- **Store selection in `main`**. The durable file store `default.db` is used when it opens without error. Otherwise the in-memory default store is used.

Modules, one per component:

- `Wrappers` (wrappers.dfy): `Option`.
- `Strconv` (strconv.dfy): `strconv.Atoi` as Go implements it on a 64-bit platform. That is an optional sign, one or more decimal digits, and an int64 range check. It comes with a decimal formatter that it inverts.
- `DurationConfig` (duration_config.dfy): `parseIntOrDurationValue`. `time.Duration` is modelled as signed 64-bit nanoseconds, and the `n * time.Second` product wraps around explicitly. `time.ParseDuration` is a function parameter. The lemmas assume only `BareNumberBehaviour` about it:
  - `""`, `"+"` and `"-"` are invalid;
  - a number with no unit is invalid unless its digits are exactly `0`. Go accepts `0`, `+0` and `-0`.
- `StateStore` (state_store.dfy): a store is the opaque tagged value `Durable(file) | InMemory`, plus the selection policy.
- `RequestAdapter` (request_adapter.dfy): the writer is a recording object (`RecordingWriter`). It holds a header map and a trace of events. Each event records the writer's header map at the moment of the call, so "headers first" becomes a statement about the trace. The executor (`Executor`) is an abstract behaviour with a log of its invocations. `ServeHTTP` is the handler closure.
- `Startup` (startup.dfy): the assignments `main` makes before serving, in a `Process` class. Environment values, the outcome of opening the durable store, and `time.ParseDuration` are inputs.

Points where the code's behaviour is easy to misread. The model follows the code in each case:

- A body read error is only logged. The executor gets the bytes `ReadAll` returned, not an empty body.
- On an executor error, the failure message is written before `WriteHeader(500)`. The executor's own body is still written afterwards; it is not discarded.
- No lower bound is put on a parsed timeout. A negative duration accepted by `time.ParseDuration` is returned unchanged. So is a wrapped whole-second count that overflows int64.
- A non-zero status set by the executor is written as it is, without validation.

## Model

| member | source | states |
|---|---|---|
| `Strconv.Atoi` | template/faas-flow/main.go:99 | An accepted string is non-empty. After at most one sign it is all decimal digits. Its value fits in int64, and it is negative only with a leading `-` |
| `Strconv.DecimalValue` | template/faas-flow/main.go:99 | A digit string's value is 0 exactly when every digit is `0` |
| `Strconv.DecimalValueOfFormatNat` | template/faas-flow/main.go:99 | Reading back the decimal spelling of n gives n |
| `Strconv.AtoiItoa` | template/faas-flow/main.go:99 | `Atoi` inverts `Itoa` on every 64-bit integer |
| `Strconv.AtoiPlusSign` | template/faas-flow/main.go:99-102 | A leading `+` is accepted and does not change the value (`"+5"` is 5) |
| `Strconv.AtoiOfSignedDigits` | template/faas-flow/main.go:99-100 | A digit string with an optional sign parses to its signed value if that fits in int64, and fails otherwise |
| `DurationConfig.Wrap64` | template/faas-flow/main.go:101 | The 64-bit result agrees with the exact product modulo 2^64, and equals it when it fits |
| `DurationConfig.ParseIntOrDurationValue` | template/faas-flow/main.go:97-110 | The result is one of three things: the `Atoi` value times one second (wrapped), what `time.ParseDuration` returned, or the fallback. It is exactly n seconds when `Atoi` gives 0 <= n <= 9223372036 |
| `DurationConfig.IntegerSecondsTakePrecedence` | template/faas-flow/main.go:98-102 | A bare or `+`-signed digit string that fits is read as whole seconds, whatever `time.ParseDuration` would say |
| `DurationConfig.WholeSecondsWrapAround` | template/faas-flow/main.go:99-101 | A digit string, bare or after `+`, whose count `Atoi` accepts but which exceeds 9223372036 seconds gives the wrapped 64-bit product of n and one second |
| `DurationConfig.NegativeIntegerFallsBack` | template/faas-flow/main.go:99-108 | `"-"` followed by a non-zero digit string (for example `"-1"`) yields the fallback |
| `DurationConfig.OutOfRangeIntegerFallsBack` | template/faas-flow/main.go:99-108 | A digit string above int64 range, bare or after `+`, yields the fallback |
| `DurationConfig.EmptyFallsBack` | template/faas-flow/main.go:98-108 | The empty string yields the fallback |
| `DurationConfig.DurationGrammarOtherwise` | template/faas-flow/main.go:105-109 | When the integer grammar declines, the result is the `time.ParseDuration` value, or the fallback if that fails |
| `DurationConfig.NegativeDurationPassesThrough` | template/faas-flow/main.go:105-109 | If `time.ParseDuration` accepts `"-5s"` as minus five seconds, the result is negative: no lower bound is enforced |
| `DurationConfig.ResolveExamples` | template/faas-flow/main.go:97-110 | With a 5s fallback: `"30"` is 30s, `"2m"` is the duration parser's 2 minutes, and `""`, `"-1"`, `"bogus"` are 5s |
| `StateStore.SelectStore` | template/faas-flow/main.go:118-120 | The store is in-memory exactly when opening the durable store errored. Otherwise it is the durable store on `default.db` |
| `Startup.Process.constructor` | template/faas-flow/main.go:41-43 | Before `main` runs there is no state store |
| `Startup.Process.Start` | template/faas-flow/main.go:113-120 | Starting from the state before `main` (no store), both timeouts are resolved from their settings with a 10s fallback, and the package store ends as `SelectStore(open)` |
| `RequestAdapter.Normalize` | template/faas-flow/main.go:47-67 | The executor's request copies the header map, method, raw query and host unchanged. Its body is what `ReadAll` returned, or empty when there is no body |
| `RequestAdapter.ReadErrorIsNotSurfaced` | template/faas-flow/main.go:52-58 | A body read error does not change the request in any way; the bytes read are kept |
| `RequestAdapter.FailedPrefixIsAscii` | template/faas-flow/main.go:81 | The message bytes are the ASCII text `"[ Failed ] "` and `"\n"` |
| `RequestAdapter.FailureMessage` | template/faas-flow/main.go:81 | The failure body is the prefix `"[ Failed ] "`, then the error text, then a line feed |
| `RequestAdapter.StatusFor` | template/faas-flow/main.go:86-90 | Status 0 becomes 200. Any other status is kept verbatim |
| `RequestAdapter.CommitTrace` | template/faas-flow/main.go:80-93 | Every call sees the copied headers, and the body write is last. Without an error the calls are status then body. With an error they are message, 500, then the executor's body |
| `RequestAdapter.StatusWritesAppend` | template/faas-flow/main.go:80-93 | The status codes written by two call sequences made one after the other are those of the first, then those of the second |
| `RequestAdapter.ErrorOverridesStatus` | template/faas-flow/main.go:80-84 | On an error exactly one status is written, 500, whatever status the executor set. The failure message comes first |
| `RequestAdapter.SuccessWritesOneStatus` | template/faas-flow/main.go:85-91 | Without an error exactly one status is written, and it is the `StatusFor` of the executor's status |
| `RequestAdapter.RecordingWriter.SetHeader` | template/faas-flow/main.go:77 | `w.Header()[k] = v` replaces that one key and records no event |
| `RequestAdapter.RecordingWriter.WriteHeader` | template/faas-flow/main.go:84-89 | Appends one status event carrying the current headers |
| `RequestAdapter.RecordingWriter.Write` | template/faas-flow/main.go:83-93 | Appends one body event carrying the current headers |
| `RequestAdapter.Executor.Handle` | template/faas-flow/main.go:72-74 | Logs one invocation with its store, request and response, and returns the executor's behaviour on them |
| `RequestAdapter.CopyHeaders` | template/faas-flow/main.go:76-78 | Every response header is set on the writer, whatever order the map is ranged over. The writer's other headers and its trace are unchanged |
| `RequestAdapter.ServeHTTP` | template/faas-flow/main.go:45-95 | The executor runs exactly once, on the normalised request, a fresh response and the given store. The writer's headers become the old ones overridden by all response headers, with other keys left unchanged. The copy finishes before the first event, and the events are then exactly `CommitTrace` |

## Left out

- Server setup is not modelled: `http.Server`, port 8082, `MaxHeaderBytes`, `HandleFunc` and `ListenAndServe`. The timeouts are computed, but what the transport does with them is I/O.
- `net/http`'s commit rules are not modelled. In `net/http` the first `Write` implicitly sends status 200, and a later `WriteHeader` is ignored. The model records the order of calls the handler makes, not the status the library finally sends.
- `RequestAdapter.CommitTrace` and `RequestAdapter.ServeHTTP` assume `WriteHeader` always returns. In `net/http`, `WriteHeader` panics for a code outside 100..999, and the executor's status is passed on unvalidated. So for an executor status such as 42, -1 or 1000, the handler stops at that call and the final body write never happens. The model's trace does not capture that case.
- `Startup.Process.Start` gives only the final value of the package store. On the failure path, `main` first stores whatever `GetBoltStateStore` returned along with its error, then overwrites it; that intermediate value is not modelled, since `GetBoltStateStore` is not part of this model.
- Concurrent requests sharing the package-level store are not modelled. `ServeHTTP` takes the selected store as a parameter.
- The following are not part of this model; only their observable outcomes enter it: `GetBoltStateStore`, `DefaultStateStore`, `openFaasExecutor` and `sdk.StateStore`. Those outcomes are "opened or failed" for the durable store, and an abstract behaviour for the executor. The stores' get/set/delete behaviour is not modelled.
- The full `time.ParseDuration` grammar (units, fractions) is not modelled. It is a parameter constrained only by `BareNumberBehaviour`.
- Logging and I/O calls are left out: `fmt.Printf`, `log.Print` (including the "File based" message logged even after the fallback), `os.Getenv` and `defer r.Body.Close()`. The environment values are parameters, and reading the body is represented by its outcome (`BodyRead`).
- Go's nil slices and empty slices are both modelled as the empty sequence, and nil and empty header maps as the empty map.
- Go's `int` is taken to be 64 bits wide, as on the platforms the template targets.

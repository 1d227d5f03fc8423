# excon-relative_timing in Dafny

A model of `Excon::RelativeTiming::Middleware`, an Excon middleware that
times one HTTP exchange as the client sees it. `request_call` records the
current instant; `response_call` takes the elapsed time, reads the
server-reported runtime from the `X-Runtime` response header, derives the
network overhead as the difference, and reports both, in whole milliseconds,
to an optional statsd client (tagged with request host and method when tags
are supported) and to an optional logger, before handing the datum on to the
next middleware.

Files:

- `wrappers.dfy` — `Option` and `Result`.
- `ruby_numeric.dfy` — the Ruby built-ins the middleware relies on:
  `String#to_f` (`ToF`), `Float#round` (`Round`), `Integer#to_s`
  (`IntToString`), with their round-trip and uniqueness lemmas.
- `excon_datum.dfy` — the datum: scalar request entries, the response
  headers, `datum[key]`, `datum.fetch(key, default)`, `dig` of the header and
  string interpolation.
- `relative_timing.dfy` — configuration, sink events, the pure report
  functions and the `Middleware` class with its one mutable field
  `requestTime` and the trace of sink calls.
- `relative_timing_properties.dfy` — what one `response_call` reports, as
  lemmas over `ResponseEvents`, and the scenarios of the test suite.

Modelling choices:

- Instants are exact `real` seconds supplied by the caller (the clock is a
  parameter of `RequestCall` and `ResponseCall`). The subtraction of two Ruby
  `Time` values and all float arithmetic are exact real arithmetic.
- The class-level accessors `logger`, `statsd_client` and
  `statsd_supports_tags` become a `Config` given to the constructor; a
  `nil` or `false` setting is `false`.
- Sink calls are events appended to `trace`:
  `Timing(name, ms, tags)` (`tags == None` is the untagged call signature)
  and `LogInfo(record)`. `ResponseCall` collects the calls of one exchange in
  the order it makes them and appends them to `trace` together; since no
  sink call can fail in the model, the resulting trace is the same.
- The next middleware is two total functions given to the constructor; its
  results are returned untouched.
- `response_call` before any `request_call` raises in Ruby when `Time - nil`
  is evaluated; the model returns `Failure(NilRequestTime)`, reports nothing
  and does not call the next stage.
- `datum[:host]` in the tags is `nil` when the key is absent and interpolates
  as empty text; `datum.fetch(:host, '')` in the log record yields `''` only
  when the key is absent and keeps a stored `nil`. Both are modelled
  (`Lookup`, `Fetch`).
- The tags are the array of two `"key:value"` strings the code passes, not a
  key/value mapping.

## Model

| member | source | states |
|---|---|---|
| `RelativeTiming.Middleware.constructor` | lib/excon/relative_timing/middleware.rb:6-16 | a fresh middleware holds the given configuration and next stage, no request time and no sink calls |
| `RelativeTiming.Middleware.RequestCall` | lib/excon/relative_timing/middleware.rb:22-25 | stores the current instant as the request time, makes no sink call, and returns exactly what the next stage returns for the unchanged datum |
| `RelativeTiming.Middleware.ResponseCall` | lib/excon/relative_timing/middleware.rb:27-71 | without a stored request time it fails and reports nothing; otherwise it appends exactly the report of the exchange to the sink trace, leaves the request time as it was, and returns what the next stage returns for the unchanged datum |
| `RelativeTiming.Millis` | lib/excon/relative_timing/middleware.rb:36-37 | a span in seconds becomes the integer number of milliseconds within half a millisecond of it |
| `RelativeTiming.Tags` | lib/excon/relative_timing/middleware.rb:41-44 | exactly two tags: `request_host:` followed by the interpolated `datum[:host]`, then `request_method:` followed by the interpolated `datum[:method]` |
| `RelativeTiming.LoggedAttrs` | lib/excon/relative_timing/middleware.rb:54-65 | each of method, host, port and path is the datum's stored entry, or '' when the key is absent; the message is the fixed text |
| `RelativeTiming.StatsdEvents` | lib/excon/relative_timing/middleware.rb:39-51 | no call without a statsd client; otherwise exactly two timing calls, `excon.remote_runtime` with the runtime then `excon.network_overhead` with the overhead, sharing one tags argument that is present exactly when tags are supported and is then the host and method tags |
| `RelativeTiming.LoggerEvents` | lib/excon/relative_timing/middleware.rb:53-67 | no call without a logger; otherwise exactly one `info` call carrying the log record |
| `RelativeTiming.Report` | lib/excon/relative_timing/middleware.rb:33-67 | two calls with a statsd client plus one with a logger, and no timing call comes after the log call |
| `RelativeTiming.ResponseEvents` | lib/excon/relative_timing/middleware.rb:31-32 | without an `X-Runtime` header no sink call is made, whatever the configuration |
| `RelativeTimingProperties.ReportsIffHeaderAndSink` | lib/excon/relative_timing/middleware.rb:31-68 | some sink call is made if and only if the header is present and a statsd client or a logger is configured |
| `RelativeTimingProperties.EventCount` | lib/excon/relative_timing/middleware.rb:39-67 | with the header, exactly two timing calls when statsd is configured plus exactly one log call when a logger is; none without the header |
| `RelativeTimingProperties.StatsdTimings` | lib/excon/relative_timing/middleware.rb:33-50 | with a statsd client the first call is `excon.remote_runtime` with round(to_f(header)·1000), the second `excon.network_overhead` with round((duration − to_f(header))·1000); both carry `request_host:<host>` and `request_method:<method>` when tags are supported and no tags argument otherwise |
| `RelativeTimingProperties.NoStatsdNoTimings` | lib/excon/relative_timing/middleware.rb:39 | without a statsd client no timing call is made |
| `RelativeTimingProperties.NoLoggerNoLog` | lib/excon/relative_timing/middleware.rb:53 | without a logger no log call is made |
| `RelativeTimingProperties.LogRecordIsLast` | lib/excon/relative_timing/middleware.rb:53-67 | with a logger the last and only log call comes after every timing call and carries method, host, port and path of the datum (each '' when absent), the fixed message and both spans as decimal text |
| `RelativeTimingProperties.LoggedSpansReadBack` | lib/excon/relative_timing/middleware.rb:63-64 | the logged span texts read back with `to_f` as exactly the integer spans reported |
| `RelativeTimingProperties.EventsDependOnlyOnParsedHeader` | lib/excon/relative_timing/middleware.rb:33 | two responses with the same request entries and headers of equal parsed value are reported identically |
| `RelativeTimingProperties.MalformedHeaderReportsZeroRuntime` | lib/excon/relative_timing/middleware.rb:33-67 | a header with no numeric prefix (no digit after an optional sign) does not fail: for every configuration the exchange is reported exactly as one of runtime 0, so statsd gets 0 ms and the whole duration as overhead, and the log record says "0" |
| `RelativeTimingProperties.SpansAddUpToDuration` | lib/excon/relative_timing/middleware.rb:29-37 | reported runtime plus reported overhead is within one millisecond of the measured duration |
| `RelativeTimingProperties.NegativeOverheadPropagates` | lib/excon/relative_timing/middleware.rb:29-37 | a duration shorter than the runtime by more than half a millisecond is not clamped: the reported overhead is negative |
| `RelativeTimingProperties.ShortDurationNoPositiveOverhead` | lib/excon/relative_timing/middleware.rb:29-37 | a duration shorter than the runtime never gives a positive overhead; a shortfall under half a millisecond rounds to 0 |
| `RelativeTimingProperties.NoOverheadWhenDurationIsRuntime` | lib/excon/relative_timing/middleware.rb:34-37 | when the measured duration equals the reported runtime the overhead is 0 ms |
| `RelativeTimingProperties.SampleExchangeTagged` | spec/middleware_spec.rb:120-132 | request at T, response at T + 0.5 s, header `0.13243546`, tagged statsd: exactly the timings 132 and 368 with tags `request_host:example.com` and `request_method:` |
| `RelativeTimingProperties.SampleExchangeLogged` | spec/middleware_spec.rb:91-98 | the test's unstubbed clock gives any duration: with only a logger there is exactly one record, with method '', the datum's host, port and path, the message, remote runtime "132" and the overhead of that duration; with the 0.5 s of the stubbed clock at spec/middleware_spec.rb:128-130 the overhead is "368" |
| `RelativeTimingProperties.DatadogClientScenario` | spec/middleware_spec.rb:120-132 | on the object, with the clock at 23:59:59 and 23:59:59.5: both data are forwarded unchanged and the statsd trace is exactly the tagged timings 132 and 368 |
| `RelativeTimingProperties.MissingHeaderScenario` | spec/middleware_spec.rb:135-144 | a response without `X-Runtime` is forwarded unchanged and neither sink receives a call |
| `RelativeTimingProperties.ResponseWithoutRequestScenario` | lib/excon/relative_timing/middleware.rb:27-29 | a `response_call` with no earlier `request_call` fails, forwards nothing and makes no sink call |
| `RubyNumeric.ToF` | lib/excon/relative_timing/middleware.rb:33 | `to_f` never fails; its result is not positive when the text starts with `-` and not negative otherwise |
| `RubyNumeric.ToFOfFormat` | lib/excon/relative_timing/middleware.rb:33 | `to_f` reads back the exact value of any decimal literal `[+-]digits[.digits]`, leading zeros included, whatever text follows it that does not extend the number (a bare '.' included) |
| `RubyNumeric.ToFOfSignedText` | lib/excon/relative_timing/middleware.rb:33 | a leading `-` negates the number read after it, a leading `+` or no sign leaves it as it is |
| `RubyNumeric.ToFWithoutNumericPrefix` | lib/excon/relative_timing/middleware.rb:33 | a text with no digit after an optional sign reads as 0 instead of failing |
| `RubyNumeric.ToFWithoutNumericPrefixExamples` | lib/excon/relative_timing/middleware.rb:33 | `n/a-1`, `abc1`, `-x1`, `0x10` and the empty text all read as 0 |
| `RubyNumeric.ToFOfSampleRuntime` | spec/middleware_spec.rb:47 | the test header `0.13243546` reads as exactly 0.13243546 |
| `RubyNumeric.ToFIgnoresTrailingText` | lib/excon/relative_timing/middleware.rb:33 | `-1.5s` reads as −1.5, `12abc` as 12, `5.` as 5 and `1.x` as 1: the text after the number is ignored |
| `RubyNumeric.ToFReadsLeadingZerosAndPlus` | lib/excon/relative_timing/middleware.rb:33 | `+007.5` reads as 7.5 |
| `RubyNumeric.ToFOfIntToString` | lib/excon/relative_timing/middleware.rb:63-64 | `to_f` inverts `Integer#to_s` on every integer, negative ones included |
| `RubyNumeric.NatValueOfNatToString` | lib/excon/relative_timing/middleware.rb:63-64 | the decimal digits written for a natural number denote that number |
| `RubyNumeric.DigitRun` | lib/excon/relative_timing/middleware.rb:33 | the numeric prefix `to_f` reads is the longest run of leading digits |
| `RubyNumeric.FracValue` | lib/excon/relative_timing/middleware.rb:33 | the digits after the decimal point denote a value in [0, 1) |
| `RubyNumeric.NatToString` | lib/excon/relative_timing/middleware.rb:63-64 | the text of a natural number is non-empty, all digits, with no leading zero |
| `RubyNumeric.IntToString` | lib/excon/relative_timing/middleware.rb:63-64 | the text of an integer starts with '-' exactly when it is negative |
| `RubyNumeric.Round` | lib/excon/relative_timing/middleware.rb:36-37 | rounding gives an integer within half of the value, a tie going away from zero |
| `RubyNumeric.RoundIsNearestAwayFromZero` | lib/excon/relative_timing/middleware.rb:36-37 | an integer is the nearest to the value (ties away from zero) if and only if it is the rounded value |
| `RubyNumeric.RoundIsNotTruncation` | lib/excon/relative_timing/middleware.rb:36-37 | 367.56454 rounds to 368 and 132.43546 to 132; 2.5 to 3 and −2.5 to −3 |
| `ExconDatum.RuntimeHeader` | lib/excon/relative_timing/middleware.rb:31 | the header is found exactly when the datum has a response with headers holding the exact key `X-Runtime`, and it is the text stored under that key |
| `ExconDatum.Lookup` | lib/excon/relative_timing/middleware.rb:42-43 | `datum[key]` is the stored value, or nil when the key is absent |
| `ExconDatum.Fetch` | lib/excon/relative_timing/middleware.rb:56-59 | `fetch(key, default)` is the stored value when the key is present, even a stored nil, and the default otherwise |
| `ExconDatum.Interpolate` | lib/excon/relative_timing/middleware.rb:42-43 | nil interpolates as empty text, a string or symbol as itself, and an integer as text that reads back as that integer |
| `ExconDatum.FetchKeepsStoredNil` | lib/excon/relative_timing/middleware.rb:42-59 | an absent key gives '' from `fetch` and empty text from `datum[key]`; a key stored with nil gives nil from `fetch`; a present key gives the same value both ways |

## Left out

- The clock (`Time.now.utc`, lib/excon/relative_timing/middleware.rb:18-20): it is the `now` argument of both calls.
- The statsd client, the DataDog client and the Ruby `Logger`: only the calls made on them are modelled, not packets, formatting or IO; a sink call that raises is not modelled.
- `Excon::Middleware::Base` and the `@stack` chain: the next stage is a pure function whose result is returned untouched.
- `Excon::Headers` case-insensitive keys: headers are a plain map looked up with the exact key `X-Runtime`.
- IEEE-754 floats: all arithmetic is exact over `real`, so float rounding error in `Time` subtraction, in `to_f` and in the ×1000 is not modelled. Nor is overflow: from a header of about 306 digits on, `runtime_sec * 1000` (lib/excon/relative_timing/middleware.rb:36, and the overhead at line 37) is `Infinity` in Ruby even where `to_f` is still finite (beyond about 308 digits `to_f` itself is `Infinity`); `.round` then raises `FloatDomainError`, no sink call is made and the datum is not forwarded, whereas the model reports a very large finite runtime.
- `RubyNumeric.ToF`: reads only `[+-]?digits(.digits)?`; leading whitespace, a leading `.` (`.5`), underscores between digits, exponents and a signed hexadecimal prefix (`-0x10`, which Ruby reads as −16), all of which Ruby's `to_f` also accepts, are not modelled (a text read differently, such as `.5`, which Ruby reads as 0.5, reads as 0 here).
- Concurrency: a middleware instance shared by overlapping exchanges overwriting `requestTime` is not modelled; use is sequential.
- The process-wide class-level accessors and the test harness that saves and restores them (spec/middleware_spec.rb:11-27): the configuration is a constructor argument.
- Datum entries other than scalar request entries and the response headers: they are never read and the datum is forwarded whole.

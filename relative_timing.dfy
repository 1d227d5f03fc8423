/**
 * `Excon::RelativeTiming::Middleware`: times one request/response exchange,
 * reads the server's own runtime from the `X-Runtime` response header, and
 * reports runtime and network overhead, in whole milliseconds, to an
 * optional statsd client and an optional logger.
 *
 * Instants are exact `real` seconds and are passed in by the caller (the
 * clock). The sinks are modelled by the trace of calls made on them.
 */
module RelativeTiming {
  import opened Wrappers
  import opened RubyNumeric
  import opened ExconDatum

  /** The class-level settings: which sinks are configured and whether statsd takes tags. */
  datatype Config = Config(hasLogger: bool, hasStatsd: bool, supportsTags: bool)

  /** The hash handed to `logger.info`. */
  datatype LogRecord = LogRecord(
    httpMethod: Value,
    host: Value,
    port: Value,
    path: Value,
    message: string,
    remoteRuntimeMs: string,
    networkOverheadMs: string)

  /** One call on a sink: `statsd_client.timing(name, ms[, tags: tags])` or `logger.info(record)`. */
  datatype Event =
    | Timing(name: string, ms: int, tags: Option<seq<string>>)
    | LogInfo(record: LogRecord)

  /** Raised when `response_call` runs before any `request_call`: `Time - nil`. */
  datatype Fault = NilRequestTime

  const RemoteRuntimeMetric: string := "excon.remote_runtime"
  const NetworkOverheadMetric: string := "excon.network_overhead"
  const LogMessage: string := "Relative timing info the API call."

  /** A span in seconds as whole milliseconds, rounded to the nearest. */
  function Millis(seconds: real): (ms: int)
    ensures -0.5 <= ms as real - seconds * 1000.0 <= 0.5
  {
    Round(seconds * 1000.0)
  }

  /** The statsd tags: request host and request method, `nil` interpolating as empty text. */
  function Tags(datum: Datum): (tags: seq<string>)
    ensures |tags| == 2
    ensures |tags[0]| >= 13 && tags[0][..13] == "request_host:"
    ensures tags[0][13..] == Interpolate(Lookup(datum, "host"))
    ensures |tags[1]| >= 15 && tags[1][..15] == "request_method:"
    ensures tags[1][15..] == Interpolate(Lookup(datum, "method"))
  {
    ["request_host:" + Interpolate(Lookup(datum, "host")),
     "request_method:" + Interpolate(Lookup(datum, "method"))]
  }

  /** `v` is what `datum.fetch(key, '')` yields: the stored value, or '' when the key is absent. */
  ghost predicate EntryOrEmpty(datum: Datum, key: string, v: Value) {
    if key in datum.fields then v == datum.fields[key] else v == Str("")
  }

  /** The log record: four request entries defaulting to '', the message and both spans as text. */
  function LoggedAttrs(datum: Datum, runtimeMs: int, overheadMs: int): (r: LogRecord)
    ensures EntryOrEmpty(datum, "method", r.httpMethod) && EntryOrEmpty(datum, "host", r.host)
    ensures EntryOrEmpty(datum, "port", r.port) && EntryOrEmpty(datum, "path", r.path)
    ensures r.message == "Relative timing info the API call."
  {
    LogRecord(
      Fetch(datum, "method", Str("")),
      Fetch(datum, "host", Str("")),
      Fetch(datum, "port", Str("")),
      Fetch(datum, "path", Str("")),
      LogMessage,
      IntToString(runtimeMs),
      IntToString(overheadMs))
  }

  /** What reaches statsd for one exchange: nothing without a client, else the two timings. */
  function StatsdEvents(config: Config, datum: Datum, runtimeMs: int, overheadMs: int): (r: seq<Event>)
    ensures |r| == if config.hasStatsd then 2 else 0
    ensures forall e | e in r :: e.Timing?
    ensures config.hasStatsd ==>
      r[0].name == "excon.remote_runtime" && r[0].ms == runtimeMs &&
      r[1].name == "excon.network_overhead" && r[1].ms == overheadMs &&
      r[0].tags == r[1].tags &&
      (r[0].tags.Some? <==> config.supportsTags) &&
      (config.supportsTags ==> r[0].tags.value == Tags(datum))
  {
    if !config.hasStatsd then []
    else
      var tags := if config.supportsTags then Some(Tags(datum)) else None;
      [Timing(RemoteRuntimeMetric, runtimeMs, tags), Timing(NetworkOverheadMetric, overheadMs, tags)]
  }

  /** What reaches the logger for one exchange: nothing without a logger, else one record. */
  function LoggerEvents(config: Config, datum: Datum, runtimeMs: int, overheadMs: int): (r: seq<Event>)
    ensures |r| == if config.hasLogger then 1 else 0
    ensures forall e | e in r :: e.LogInfo? && e.record == LoggedAttrs(datum, runtimeMs, overheadMs)
  {
    if config.hasLogger then [LogInfo(LoggedAttrs(datum, runtimeMs, overheadMs))] else []
  }

  /**
   * The sink calls for an exchange that took `durationSec` and whose server
   * reported `runtimeSec`: the timings first, then the log record.
   */
  function Report(config: Config, datum: Datum, durationSec: real, runtimeSec: real): (r: seq<Event>)
    ensures |r| == (if config.hasStatsd then 2 else 0) + (if config.hasLogger then 1 else 0)
    ensures forall i, j | 0 <= i < j < |r| :: !(r[i].LogInfo? && r[j].Timing?)
  {
    var runtimeMs := Millis(runtimeSec);
    var overheadMs := Millis(durationSec - runtimeSec);
    StatsdEvents(config, datum, runtimeMs, overheadMs) + LoggerEvents(config, datum, runtimeMs, overheadMs)
  }

  /** The sink calls `response_call` makes: none without the header, else the report of its parsed value. */
  function ResponseEvents(config: Config, datum: Datum, durationSec: real): (r: seq<Event>)
    ensures RuntimeHeader(datum).None? ==> r == []
  {
    match RuntimeHeader(datum)
    case None => []
    case Some(header) => Report(config, datum, durationSec, ToF(header))
  }

  class Middleware {
    const config: Config
    /** The next middleware's `request_call` and `response_call`, whose results are passed back. */
    const nextRequest: Datum -> Datum
    const nextResponse: Datum -> Datum
    /** `@request_time`: unset until the first `request_call`. */
    var requestTime: Option<real>
    /** Every sink call made so far, oldest first. */
    var trace: seq<Event>

    constructor (config: Config, nextRequest: Datum -> Datum, nextResponse: Datum -> Datum)
      ensures this.config == config
      ensures this.nextRequest == nextRequest && this.nextResponse == nextResponse
      ensures requestTime == None && trace == []
    {
      this.config := config;
      this.nextRequest := nextRequest;
      this.nextResponse := nextResponse;
      requestTime := None;
      trace := [];
    }

    /** Records the current instant as the request time and forwards the datum. */
    method RequestCall(now: real, datum: Datum) returns (r: Datum)
      modifies this`requestTime
      ensures requestTime == Some(now)
      ensures r == nextRequest(datum)
    {
      requestTime := Some(now);
      r := nextRequest(datum);
    }

    /**
     * Reports the exchange to the configured sinks and forwards the datum.
     * Without a recorded request time the subtraction raises before anything
     * is reported or forwarded.
     */
    method ResponseCall(now: real, datum: Datum) returns (r: Result<Datum, Fault>)
      modifies this`trace
      ensures requestTime == old(requestTime)
      ensures requestTime.None? ==> r == Failure(NilRequestTime) && trace == old(trace)
      ensures requestTime.Some? ==>
        r == Success(nextResponse(datum)) &&
        trace == old(trace) + ResponseEvents(config, datum, now - requestTime.value)
    {
      var responseTime := now;
      if requestTime.None? {
        return Failure(NilRequestTime);
      }
      var durationSec := responseTime - requestTime.value;

      var runtime := RuntimeHeader(datum);
      if runtime.Some? {
        var runtimeSec := ToF(runtime.value);
        var overheadSec := durationSec - runtimeSec;

        var runtimeMs := Millis(runtimeSec);
        var overheadMs := Millis(overheadSec);

        // The sink calls of this exchange, in the order they are made.
        var calls: seq<Event> := [];
        if config.hasStatsd {
          if config.supportsTags {
            var tags := Tags(datum);
            calls := calls + [Timing(RemoteRuntimeMetric, runtimeMs, Some(tags))];
            calls := calls + [Timing(NetworkOverheadMetric, overheadMs, Some(tags))];
          } else {
            calls := calls + [Timing(RemoteRuntimeMetric, runtimeMs, None)];
            calls := calls + [Timing(NetworkOverheadMetric, overheadMs, None)];
          }
        }
        assert calls == StatsdEvents(config, datum, runtimeMs, overheadMs);

        if config.hasLogger {
          var loggedAttrs := LoggedAttrs(datum, runtimeMs, overheadMs);
          calls := calls + [LogInfo(loggedAttrs)];
        }
        assert calls == Report(config, datum, durationSec, runtimeSec);
        trace := trace + calls;
      }

      r := Success(nextResponse(datum));
    }
  }
}

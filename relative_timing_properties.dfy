/**
 * What the middleware promises about the sink calls of one exchange, stated
 * over `ResponseEvents` (which `Middleware.ResponseCall` appends to its
 * trace), and the scenarios of the middleware's own tests.
 */
module RelativeTimingProperties {
  import opened Wrappers
  import opened RubyNumeric
  import opened ExconDatum
  import opened RelativeTiming

  /** Something is reported exactly when the header is present and some sink is configured. */
  lemma ReportsIffHeaderAndSink(config: Config, datum: Datum, durationSec: real)
    ensures ResponseEvents(config, datum, durationSec) != [] <==>
      RuntimeHeader(datum).Some? && (config.hasStatsd || config.hasLogger)
  {
    EventCount(config, datum, durationSec);
  }

  /** Two timings with a statsd client, one record with a logger, when the header is present. */
  lemma EventCount(config: Config, datum: Datum, durationSec: real)
    ensures |ResponseEvents(config, datum, durationSec)| ==
      if RuntimeHeader(datum).None? then 0
      else (if config.hasStatsd then 2 else 0) + (if config.hasLogger then 1 else 0)
  {
  }

  /**
   * With a statsd client the first two calls are the runtime then the
   * overhead, both rounded to the nearest millisecond, carrying the host and
   * method tags exactly when tags are supported.
   */
  lemma StatsdTimings(config: Config, datum: Datum, durationSec: real, header: string)
    requires RuntimeHeader(datum) == Some(header)
    requires config.hasStatsd
    ensures var events := ResponseEvents(config, datum, durationSec);
      |events| >= 2 && events[0].Timing? && events[1].Timing? &&
      events[0].name == "excon.remote_runtime" &&
      events[0].ms == Round(ToF(header) * 1000.0) &&
      events[1].name == "excon.network_overhead" &&
      events[1].ms == Round((durationSec - ToF(header)) * 1000.0) &&
      events[0].tags == events[1].tags &&
      (config.supportsTags ==> events[0].tags == Some([
        "request_host:" + Interpolate(Lookup(datum, "host")),
        "request_method:" + Interpolate(Lookup(datum, "method"))])) &&
      (!config.supportsTags ==> events[0].tags == None)
  {
  }

  /** Without a statsd client no timing is sent. */
  lemma NoStatsdNoTimings(config: Config, datum: Datum, durationSec: real)
    requires !config.hasStatsd
    ensures forall e | e in ResponseEvents(config, datum, durationSec) :: e.LogInfo?
  {
  }

  /** Without a logger nothing is logged. */
  lemma NoLoggerNoLog(config: Config, datum: Datum, durationSec: real)
    requires !config.hasLogger
    ensures forall e | e in ResponseEvents(config, datum, durationSec) :: e.Timing?
  {
  }

  /**
   * With a logger the last call, and the only log call, is one record of the
   * request's method, host, port and path (each '' when absent), the fixed
   * message, and both spans as decimal text.
   */
  lemma LogRecordIsLast(config: Config, datum: Datum, durationSec: real, header: string)
    requires RuntimeHeader(datum) == Some(header)
    requires config.hasLogger
    ensures var events := ResponseEvents(config, datum, durationSec);
      var runtimeMs := Round(ToF(header) * 1000.0);
      var overheadMs := Round((durationSec - ToF(header)) * 1000.0);
      |events| >= 1 &&
      (forall i | 0 <= i < |events| - 1 :: events[i].Timing?) &&
      events[|events| - 1] == LogInfo(LogRecord(
        Fetch(datum, "method", Str("")),
        Fetch(datum, "host", Str("")),
        Fetch(datum, "port", Str("")),
        Fetch(datum, "path", Str("")),
        "Relative timing info the API call.",
        IntToString(runtimeMs),
        IntToString(overheadMs)))
  {
  }

  /** The span texts of the log record read back, with `to_f`, as the reported integers. */
  lemma LoggedSpansReadBack(config: Config, datum: Datum, durationSec: real, header: string)
    requires RuntimeHeader(datum) == Some(header)
    requires config.hasLogger
    ensures var events := ResponseEvents(config, datum, durationSec);
      |events| >= 1 && events[|events| - 1].LogInfo? &&
      ToF(events[|events| - 1].record.remoteRuntimeMs) == Round(ToF(header) * 1000.0) as real &&
      ToF(events[|events| - 1].record.networkOverheadMs) == Round((durationSec - ToF(header)) * 1000.0) as real
  {
    LogRecordIsLast(config, datum, durationSec, header);
    ToFOfIntToString(Round(ToF(header) * 1000.0));
    ToFOfIntToString(Round((durationSec - ToF(header)) * 1000.0));
  }

  /** Reporting depends on the header only through the number `to_f` reads from it. */
  lemma EventsDependOnlyOnParsedHeader(config: Config, d1: Datum, d2: Datum, durationSec: real, h1: string, h2: string)
    requires d1.fields == d2.fields
    requires RuntimeHeader(d1) == Some(h1) && RuntimeHeader(d2) == Some(h2)
    requires ToF(h1) == ToF(h2)
    ensures ResponseEvents(config, d1, durationSec) == ResponseEvents(config, d2, durationSec)
  {
    assert Lookup(d1, "host") == Lookup(d2, "host") && Lookup(d1, "method") == Lookup(d2, "method");
  }

  /**
   * A header with no numeric prefix does not fail: whatever the sinks, the
   * exchange is reported as one of runtime 0, so statsd gets 0 ms and the
   * whole duration as overhead and the log record says "0".
   */
  lemma MalformedHeaderReportsZeroRuntime(config: Config, datum: Datum, durationSec: real, header: string)
    requires RuntimeHeader(datum) == Some(header)
    requires !(|header| > 0 && IsDigit(header[0]))
    requires !(|header| > 1 && (header[0] == '-' || header[0] == '+') && IsDigit(header[1]))
    ensures ResponseEvents(config, datum, durationSec) == Report(config, datum, durationSec, 0.0)
    ensures var events := ResponseEvents(config, datum, durationSec);
      (config.hasStatsd ==> events[0].ms == 0 && events[1].ms == Millis(durationSec)) &&
      (config.hasLogger ==> events[|events| - 1] == LogInfo(LoggedAttrs(datum, 0, Millis(durationSec))) &&
                            events[|events| - 1].record.remoteRuntimeMs == "0")
  {
    ToFWithoutNumericPrefix(header);
    var events := ResponseEvents(config, datum, durationSec);
    var statsd := StatsdEvents(config, datum, 0, Millis(durationSec));
    var logger := LoggerEvents(config, datum, 0, Millis(durationSec));
    assert events == statsd + logger;
    if config.hasLogger {
      assert events[|events| - 1] == logger[0];
      assert IntToString(0) == "0";
    }
  }

  /** The two reported spans add up to the measured duration to within one millisecond. */
  lemma SpansAddUpToDuration(config: Config, datum: Datum, durationSec: real, header: string)
    requires RuntimeHeader(datum) == Some(header)
    requires config.hasStatsd
    ensures var events := ResponseEvents(config, datum, durationSec);
      |events| >= 2 &&
      -1.0 <= (events[0].ms + events[1].ms) as real - durationSec * 1000.0 <= 1.0
  {
    StatsdTimings(config, datum, durationSec, header);
  }

  /**
   * A duration shorter than the reported runtime by more than half a
   * millisecond is not clamped: the overhead goes negative.
   */
  lemma NegativeOverheadPropagates(config: Config, datum: Datum, durationSec: real, header: string)
    requires RuntimeHeader(datum) == Some(header)
    requires config.hasStatsd
    requires durationSec - ToF(header) < -0.0005
    ensures var events := ResponseEvents(config, datum, durationSec);
      |events| >= 2 && events[1].ms < 0
  {
    StatsdTimings(config, datum, durationSec, header);
  }

  /**
   * A duration shorter than the reported runtime never yields a positive
   * overhead, and a shortfall under half a millisecond rounds to 0.
   */
  lemma ShortDurationNoPositiveOverhead(config: Config, datum: Datum, durationSec: real, header: string)
    requires RuntimeHeader(datum) == Some(header)
    requires config.hasStatsd
    requires durationSec < ToF(header)
    ensures var events := ResponseEvents(config, datum, durationSec);
      |events| >= 2 && events[1].ms <= 0 &&
      (ToF(header) - durationSec < 0.0005 ==> events[1].ms == 0)
  {
    StatsdTimings(config, datum, durationSec, header);
  }

  /** When the measured duration equals the reported runtime, the overhead is 0 ms. */
  lemma NoOverheadWhenDurationIsRuntime(config: Config, datum: Datum, header: string)
    requires RuntimeHeader(datum) == Some(header)
    requires config.hasStatsd
    ensures var events := ResponseEvents(config, datum, ToF(header));
      |events| >= 2 && events[1].ms == 0
  {
    StatsdTimings(config, datum, ToF(header), header);
  }

  // ---------------------------------------------------------------------
  // The scenarios of the middleware's test suite
  // ---------------------------------------------------------------------

  /** The request datum of the tests: host, port and path, but no method. */
  function SampleRequest(): Datum {
    Datum(map["host" := Str("example.com"), "port" := Int(80), "path" := Str("/some/path")], None)
  }

  function SampleResponse(): Datum {
    Datum(SampleRequest().fields, Some(Response(Some(map["X-Runtime" := "0.13243546"]))))
  }

  lemma SampleResponseFields()
    ensures RuntimeHeader(SampleResponse()) == Some("0.13243546")
    ensures "request_host:" + Interpolate(Lookup(SampleResponse(), "host")) == "request_host:example.com"
    ensures "request_method:" + Interpolate(Lookup(SampleResponse(), "method")) == "request_method:"
  {
    assert Interpolate(Lookup(SampleResponse(), "host")) == "example.com";
    assert "request_host:" + "example.com" == "request_host:example.com";
    assert "request_method:" + "" == "request_method:";
  }

  lemma SampleSpans()
    ensures ToF("0.13243546") == 0.13243546
    ensures Round(ToF("0.13243546") * 1000.0) == 132
    ensures Round((0.5 - ToF("0.13243546")) * 1000.0) == 368
  {
    ToFOfSampleRuntime();
    assert Round(0.13243546 * 1000.0) == 132;
    assert Round((0.5 - 0.13243546) * 1000.0) == 368;
  }

  /** A response half a second after the request, with runtime 0.13243546 s: 132 ms and 368 ms. */
  lemma SampleExchangeTagged()
    ensures ResponseEvents(Config(false, true, true), SampleResponse(), 0.5) ==
      [Timing("excon.remote_runtime", 132, Some(["request_host:example.com", "request_method:"])),
       Timing("excon.network_overhead", 368, Some(["request_host:example.com", "request_method:"]))]
  {
    var config := Config(false, true, true);
    var datum := SampleResponse();
    var events := ResponseEvents(config, datum, 0.5);
    SampleResponseFields();
    SampleSpans();
    EventCount(config, datum, 0.5);
    StatsdTimings(config, datum, 0.5, "0.13243546");
    assert events[0] == Timing("excon.remote_runtime", 132, Some(["request_host:example.com", "request_method:"]));
    assert events[1] == Timing("excon.network_overhead", 368, Some(["request_host:example.com", "request_method:"]));
    assert events == [events[0], events[1]];
  }

  lemma SampleSpanTexts()
    ensures IntToString(132) == "132" && IntToString(368) == "368"
  {
    assert NatToString(1) == "1" && NatToString(13) == "13";
    assert NatToString(3) == "3" && NatToString(36) == "36";
  }

  lemma SampleLoggedEntries()
    ensures Fetch(SampleResponse(), "method", Str("")) == Str("")
    ensures Fetch(SampleResponse(), "host", Str("")) == Str("example.com")
    ensures Fetch(SampleResponse(), "port", Str("")) == Int(80)
    ensures Fetch(SampleResponse(), "path", Str("")) == Str("/some/path")
  {
  }

  /**
   * With only a logger, whatever the duration, the one record carries '' for
   * the missing method, the datum's host, port and path, and "132" as the
   * runtime; half a second after the request the overhead is "368".
   */
  lemma SampleExchangeLogged(durationSec: real)
    ensures ResponseEvents(Config(true, false, false), SampleResponse(), durationSec) ==
      [LogInfo(LogRecord(Str(""), Str("example.com"), Int(80), Str("/some/path"),
                         "Relative timing info the API call.", "132",
                         IntToString(Round((durationSec - 0.13243546) * 1000.0))))]
    ensures durationSec == 0.5 ==>
      ResponseEvents(Config(true, false, false), SampleResponse(), durationSec)[0].record.networkOverheadMs == "368"
  {
    var config := Config(true, false, false);
    var datum := SampleResponse();
    var events := ResponseEvents(config, datum, durationSec);
    SampleResponseFields();
    SampleSpans();
    SampleSpanTexts();
    SampleLoggedEntries();
    EventCount(config, datum, durationSec);
    LogRecordIsLast(config, datum, durationSec, "0.13243546");
    assert events == [events[0]];
  }

  /**
   * The tests' request-then-response cycle on the object, with the clock at
   * 23:59:59 and then 23:59:59.5 on 1999-12-31 and a pass-through next stage:
   * both data are forwarded and statsd gets the tagged 132 ms and 368 ms.
   */
  method DatadogClientScenario() returns (forwarded: Datum, result: Result<Datum, Fault>, trace: seq<Event>)
    ensures forwarded == SampleRequest()
    ensures result == Success(SampleResponse())
    ensures trace ==
      [Timing("excon.remote_runtime", 132, Some(["request_host:example.com", "request_method:"])),
       Timing("excon.network_overhead", 368, Some(["request_host:example.com", "request_method:"]))]
  {
    var passThrough := (d: Datum) => d;
    var m := new Middleware(Config(false, true, true), passThrough, passThrough);
    forwarded := m.RequestCall(946684799.0, SampleRequest());
    result := m.ResponseCall(946684799.5, SampleResponse());
    SampleExchangeTagged();
    trace := m.trace;
  }

  /** A response without the header is forwarded and leaves both sinks untouched. */
  method MissingHeaderScenario() returns (result: Result<Datum, Fault>, trace: seq<Event>)
    ensures result == Success(Datum(SampleRequest().fields, Some(Response(Some(map[])))))
    ensures trace == []
  {
    var passThrough := (d: Datum) => d;
    var m := new Middleware(Config(true, true, false), passThrough, passThrough);
    var _ := m.RequestCall(0.0, SampleRequest());
    var incompatible := Datum(SampleRequest().fields, Some(Response(Some(map[]))));
    result := m.ResponseCall(1.0, incompatible);
    trace := m.trace;
  }

  /** A response before any request raises, reports nothing and forwards nothing. */
  method ResponseWithoutRequestScenario() returns (result: Result<Datum, Fault>, trace: seq<Event>)
    ensures result == Failure(NilRequestTime)
    ensures trace == []
  {
    var passThrough := (d: Datum) => d;
    var m := new Middleware(Config(true, true, true), passThrough, passThrough);
    result := m.ResponseCall(1.0, SampleResponse());
    trace := m.trace;
  }
}

/**
 * The part of an Excon datum (the hash passed along the middleware stack)
 * that the relative-timing middleware reads: the request's scalar entries
 * (`:host`, `:method`, `:port`, `:path`, ...) and the response headers.
 */
module ExconDatum {
  import opened Wrappers
  import RubyNumeric

  /** A scalar Ruby value stored in a datum entry. */
  datatype Value = Nil | Str(s: string) | Int(i: int) | Sym(name: string)

  /** The `:response` entry; `headers` is absent until the response has headers. */
  datatype Response = Response(headers: Option<map<string, string>>)

  /** A datum: scalar entries keyed by symbol name, and the optional `:response` entry. */
  datatype Datum = Datum(fields: map<string, Value>, response: Option<Response>)

  const RuntimeHeaderName: string := "X-Runtime"

  /** `datum.dig(:response, :headers, 'X-Runtime')`: None when any level is missing. */
  function RuntimeHeader(datum: Datum): (h: Option<string>)
    ensures h.Some? <==>
      datum.response.Some? && datum.response.value.headers.Some? &&
      RuntimeHeaderName in datum.response.value.headers.value
    ensures h.Some? ==> h.value == datum.response.value.headers.value[RuntimeHeaderName]
  {
    match datum.response
    case None => None
    case Some(resp) =>
      match resp.headers
      case None => None
      case Some(headers) =>
        if RuntimeHeaderName in headers then Some(headers[RuntimeHeaderName]) else None
  }

  /** `datum[key]`: nil when the key is absent. */
  function Lookup(datum: Datum, key: string): (v: Value)
    ensures v == Fetch(datum, key, Nil)
  {
    if key in datum.fields then datum.fields[key] else Nil
  }

  /** `datum.fetch(key, fallback)`: the stored value, even a stored nil, else the fallback. */
  function Fetch(datum: Datum, key: string, fallback: Value): (v: Value)
    ensures key in datum.fields ==> v == datum.fields[key]
    ensures key !in datum.fields ==> v == fallback
  {
    if key in datum.fields then datum.fields[key] else fallback
  }

  /** What string interpolation `"#{v}"` produces for a value. */
  function Interpolate(v: Value): (text: string)
    ensures v.Nil? ==> text == ""
    ensures v.Str? ==> text == v.s
    ensures v.Sym? ==> text == v.name
    ensures v.Int? ==> RubyNumeric.ToF(text) == v.i as real
  {
    match v
    case Nil => ""
    case Str(s) => s
    case Int(i) => RubyNumeric.ToFOfIntToString(i); RubyNumeric.IntToString(i)
    case Sym(name) => name
  }

  /**
   * A key stored with `nil` is where the two lookups part: `datum[key]` and
   * `fetch(key, '')` agree on text when the key is absent, but `fetch` keeps
   * the stored `nil` rather than the default.
   */
  lemma FetchKeepsStoredNil(datum: Datum, key: string)
    ensures key !in datum.fields ==> Fetch(datum, key, Str("")) == Str("") && Interpolate(Lookup(datum, key)) == ""
    ensures key in datum.fields && datum.fields[key] == Nil ==> Fetch(datum, key, Str("")) == Nil
    ensures key in datum.fields ==> Fetch(datum, key, Str("")) == Lookup(datum, key)
  {
  }
}

/**
 * The client's `API_CONFIG` object and `getDefaultHeaders`. The headers live in a
 * mutable JavaScript object, so that handing out a copy can be told apart from
 * handing out the object itself.
 */
module ApiConfig {
  import opened OrderedDicts
  import opened JsValues

  const BaseUrl: string := "http://localhost:8000"
  const DefaultHeaderEntries: seq<(string, JsValue)> := [("Content-Type", Str("application/json"))]
  /** Declared in milliseconds; no request reads it. */
  const TimeoutMs: int := 10000

  /** A plain JavaScript object whose properties can be assigned. */
  class JsObject {
    var props: seq<(string, JsValue)>

    constructor(initial: seq<(string, JsValue)>)
      ensures props == initial
    {
      props := initial;
    }

    /** `obj[key] = value`. */
    method Set(key: string, value: JsValue)
      modifies this
      ensures props == DictSet(old(props), key, value)
    {
      props := DictSet(props, key, value);
    }
  }

  /** `API_CONFIG`. */
  class Config {
    var baseURL: string
    var headers: JsObject
    var timeout: int

    constructor()
      ensures baseURL == BaseUrl && timeout == TimeoutMs
      ensures fresh(headers) && headers.props == DefaultHeaderEntries
    {
      baseURL := BaseUrl;
      headers := new JsObject(DefaultHeaderEntries);
      timeout := TimeoutMs;
    }
  }

  /** `getDefaultHeaders`: a new object with the configured headers (the token
      lookup is commented out in the client). */
  method GetDefaultHeaders(config: Config) returns (h: JsObject)
    ensures fresh(h) && h.props == SetAll([], config.headers.props)
  {
    h := new JsObject(SetAll([], config.headers.props));
  }

  /** Changing the returned headers leaves the configuration as it was. */
  method ChangeDefaultHeaders(config: Config, key: string, value: JsValue) returns (h: JsObject)
    ensures config.headers.props == old(config.headers.props)
    ensures h.props == DictSet(SetAll([], config.headers.props), key, value)
  {
    h := GetDefaultHeaders(config);
    h.Set(key, value);
  }

  /** Copying a list of headers without repeated names gives the same list. */
  lemma {:induction false} SetAllUnique(pairs: seq<(string, JsValue)>)
    requires UniqueKeys(pairs)
    ensures SetAll([], pairs) == pairs
  {
    if pairs != [] {
      var init := pairs[..|pairs| - 1];
      SetAllUnique(init);
      assert KeyIndex(init, pairs[|pairs| - 1].0).None?;
      assert init + [pairs[|pairs| - 1]] == pairs;
    }
  }

  /** The default headers are exactly one JSON content type. */
  lemma DefaultHeadersCopied()
    ensures SetAll([], DefaultHeaderEntries) == [("Content-Type", Str("application/json"))]
  {
    SetAllUnique(DefaultHeaderEntries);
  }
}

/**
 * The React client's `httpClient`: the request `fetch` receives, how the response
 * is read, and which `ApiError` a failure becomes. `fetch` is a parameter, from
 * the call it receives to what it produced: a network failure, or a response
 * together with what reading its body as JSON and as text gives. The default
 * headers are those `API_CONFIG` is created with, which nothing changes.
 */
module HttpClient {
  import opened Wrappers
  import opened Text
  import opened OrderedDicts
  import opened JsValues
  import opened ApiErrors
  import opened ApiConfig

  type Props = seq<(string, JsValue)>

  /** What `fetch(url, config)` is called with. */
  datatype FetchCall = FetchCall(url: string, init: Props)

  /** What reading the body gives: `response.json()` (a value or a parse error's
      message) and `response.text()`. */
  datatype Body = Body(json: Result<JsValue, string>, text: string)

  datatype FetchOutcome = NetworkFailure(message: string) | Received(response: HttpResponse, body: Body)

  /** A request's promise: resolved with the data or rejected with an `ApiError`. */
  datatype Outcome = Resolved(data: JsValue) | Rejected(error: ApiError)

  /** The own properties `...v` copies; nothing for `null` or `undefined`. */
  function Spread(v: JsValue): Props
  {
    if v.Obj? then v.props else []
  }

  /** `{...getDefaultHeaders(), ...options.headers}`. */
  function SentHeaders(options: Props): Props
  {
    SetAll(SetAll([], DefaultHeaderEntries), Spread(OptionalProp(Obj(options), "headers")))
  }

  /** `{...options, headers: ...}`. */
  function Config(options: Props): Props
  {
    DictSet(options, "headers", Obj(SentHeaders(options)))
  }

  function Call(endpoint: string, options: Props): (r: FetchCall)
    ensures r.url == BaseUrl + endpoint
  {
    FetchCall(BaseUrl + endpoint, Config(options))
  }

  /** The body is read as JSON exactly when the content type names it. */
  predicate IsJson(contentType: Option<string>)
  {
    contentType.Some? && contentType.value != "" && Contains(contentType.value, "application/json")
  }

  function Parsed(response: HttpResponse, body: Body): Result<JsValue, string>
  {
    if IsJson(response.contentType) then body.json else Ok(Str(body.text))
  }

  /** The `ApiError` every failure other than an error response becomes. */
  function NetworkError(message: string): (r: ApiError)
    ensures r.status == 0 && r.data == Null && r.name == "ApiError"
    ensures r.message == (if message != "" then message else "Network request failed")
  {
    NewApiError(Str(if message != "" then message else "Network request failed"), 0, Null)
  }

  /** The `try` block and its `catch`. */
  function Settle(outcome: FetchOutcome): Outcome
  {
    match outcome
    case NetworkFailure(message) => Rejected(NetworkError(message))
    case Received(response, body) =>
      var parsed := Parsed(response, body);
      if parsed.Err? then Rejected(NetworkError(parsed.error))
      else if !response.ok then Rejected(FromResponse(response, parsed.value))
      else Resolved(parsed.value)
  }

  /** `request(endpoint, options)`. */
  function Request(endpoint: string, options: Props, fetch: FetchCall -> FetchOutcome): Outcome
  {
    Settle(fetch(Call(endpoint, options)))
  }

  function GetOptions(options: Props): Props { DictSet(options, "method", Str("GET")) }
  function DeleteOptions(options: Props): Props { DictSet(options, "method", Str("DELETE")) }

  /** `{...options, method, body: JSON.stringify(body)}`; `JSON.stringify` is a
      parameter. */
  function BodyOptions(options: Props, verb: string, body: JsValue, stringify: JsValue -> JsValue): Props
  {
    DictSet(DictSet(options, "method", Str(verb)), "body", stringify(body))
  }

  function HttpGet(endpoint: string, options: Props, fetch: FetchCall -> FetchOutcome): Outcome
  {
    Request(endpoint, GetOptions(options), fetch)
  }

  function HttpPost(endpoint: string, body: JsValue, options: Props,
                    fetch: FetchCall -> FetchOutcome, stringify: JsValue -> JsValue): Outcome
  {
    Request(endpoint, BodyOptions(options, "POST", body, stringify), fetch)
  }

  function HttpPut(endpoint: string, body: JsValue, options: Props,
                   fetch: FetchCall -> FetchOutcome, stringify: JsValue -> JsValue): Outcome
  {
    Request(endpoint, BodyOptions(options, "PUT", body, stringify), fetch)
  }

  function HttpDel(endpoint: string, options: Props, fetch: FetchCall -> FetchOutcome): Outcome
  {
    Request(endpoint, DeleteOptions(options), fetch)
  }

  // ---------------------------------------------------------------------------
  // Properties

  /** A header passed with the call wins over a default of the same name; every
      other default is sent as configured. */
  lemma SentHeaderLookup(options: Props, name: string)
    ensures var extra := Spread(OptionalProp(Obj(options), "headers"));
      Get(SentHeaders(options), name)
        == (if LastValue(extra, name).Some? then LastValue(extra, name) else LastValue(DefaultHeaderEntries, name))
  {
    var defaults := SetAll([], DefaultHeaderEntries);
    SetAllLookup(defaults, Spread(OptionalProp(Obj(options), "headers")), name);
    SetAllLookup([], DefaultHeaderEntries, name);
  }

  /** Every option other than the headers reaches `fetch` unchanged. */
  lemma OptionsPassThrough(options: Props, key: string)
    requires key != "headers"
    ensures Get(Config(options), key) == Get(options, key)
    ensures Get(Config(options), "headers") == Some(Obj(SentHeaders(options)))
  {
    GetAfterSet(options, "headers", Obj(SentHeaders(options)), key);
  }

  /** A resolved promise holds the body of an ok response: the parsed JSON when the
      content type names JSON, else the text. */
  lemma ResolvedMeaning(outcome: FetchOutcome)
    ensures Settle(outcome).Resolved? <==>
      outcome.Received? && outcome.response.ok && Parsed(outcome.response, outcome.body).Ok?
    ensures Settle(outcome).Resolved? ==>
      Settle(outcome).data == (if IsJson(outcome.response.contentType) then outcome.body.json.value
                               else Str(outcome.body.text))
  {
  }

  /** A rejection is always an `ApiError`: for an error response it carries the
      response's status and parsed body, whether or not the body was JSON; for a
      network failure or an unreadable body it has status 0, data `null` and a
      non-empty message. */
  lemma RejectedMeaning(outcome: FetchOutcome)
    ensures var r := Settle(outcome);
      r.Rejected? ==> r.error.name == "ApiError"
    ensures var r := Settle(outcome);
      outcome.Received? && !outcome.response.ok && Parsed(outcome.response, outcome.body).Ok? ==>
        r == Rejected(FromResponse(outcome.response, Parsed(outcome.response, outcome.body).value))
        && r.error.status == outcome.response.status
    ensures var r := Settle(outcome);
      (outcome.NetworkFailure? || Parsed(outcome.response, outcome.body).Err?) ==>
        r.Rejected? && r.error.status == 0 && r.error.data == Null && r.error.message != ""
  {
  }

  /** `get` and `del` send their own method whatever the caller asked for; `post`
      and `put` send their method and the serialised body, and keep every other
      option. */
  lemma VerbsForced(options: Props, body: JsValue, stringify: JsValue -> JsValue, other: string)
    ensures Get(Config(GetOptions(options)), "method") == Some(Str("GET"))
    ensures Get(Config(DeleteOptions(options)), "method") == Some(Str("DELETE"))
    ensures Get(Config(BodyOptions(options, "POST", body, stringify)), "method") == Some(Str("POST"))
    ensures Get(Config(BodyOptions(options, "PUT", body, stringify)), "body") == Some(stringify(body))
    ensures other != "method" && other != "body" && other != "headers" ==>
      Get(Config(BodyOptions(options, "POST", body, stringify)), other) == Get(options, other)
  {
    VerbSent(options, "GET", JsValues.Undefined, stringify, other);
    VerbSent(options, "DELETE", JsValues.Undefined, stringify, other);
    VerbSent(options, "POST", body, stringify, other);
    VerbSent(options, "PUT", body, stringify, other);
  }

  lemma VerbSent(options: Props, verb: string, body: JsValue, stringify: JsValue -> JsValue, other: string)
    ensures Get(Config(DictSet(options, "method", Str(verb))), "method") == Some(Str(verb))
    ensures Get(Config(BodyOptions(options, verb, body, stringify)), "method") == Some(Str(verb))
    ensures Get(Config(BodyOptions(options, verb, body, stringify)), "body") == Some(stringify(body))
    ensures other != "method" && other != "body" && other != "headers" ==>
      Get(Config(BodyOptions(options, verb, body, stringify)), other) == Get(options, other)
  {
    var m := DictSet(options, "method", Str(verb));
    var b := BodyOptions(options, verb, body, stringify);
    OptionsPassThrough(m, "method");
    OptionsPassThrough(b, "method");
    OptionsPassThrough(b, "body");
    GetAfterSet(options, "method", Str(verb), "method");
    GetAfterSet(m, "body", stringify(body), "method");
    GetAfterSet(m, "body", stringify(body), "body");
    if other != "method" && other != "body" && other != "headers" {
      OptionsPassThrough(b, other);
      GetAfterSet(m, "body", stringify(body), other);
      GetAfterSet(options, "method", Str(verb), other);
    }
  }
}

/**
 * API-key checks of the first backend. The REST dependency accepts a bearer token
 * in the sense of section 2.1 of RFC 6750 or a bare key; the MCP dependency wants
 * exactly "<scheme> <token>" with the scheme compared case-insensitively, as
 * section 2.1 of RFC 7235 allows. Environment variables are parameters, `None` when
 * unset, and a raised `HTTPException` is the error side of a result.
 */
module ApiKeyAuth {
  import opened Wrappers
  import opened Text
  import opened HttpProblems

  /** The challenge header every 401 of the header checks carries. */
  const BearerChallenge: seq<(string, string)> := [("WWW-Authenticate", "Bearer")]

  /** Python truthiness of an optional string. */
  predicate Truthy(s: Option<string>)
  {
    s.Some? && s.value != ""
  }

  // ---------------------------------------------------------------------------
  // shared/dependencies.py: verify_api_key

  const NotConfigured: string := "API key authentication is enabled but API_KEY environment variable is not set"

  /** `os.getenv("ENABLE_API_KEY_AUTH", "false").lower() == "true"`. */
  predicate AuthEnabled(flag: Option<string>)
  {
    Lower(flag.GetOr("false")) == "true"
  }

  /** The key carried by a header: the rest after a case-sensitive "Bearer " prefix, or
      the whole header, trimmed either way. */
  function HeaderKey(authorization: string): string
  {
    if StartsWith(authorization, "Bearer ") then Strip(authorization[7..]) else Strip(authorization)
  }

  /** The dependency's answer: `None` when the check is off, the key on success, or
      the exception it raises. */
  function VerifyApiKey(enableFlag: Option<string>, apiKey: Option<string>, authorization: Option<string>)
    : (r: Result<Option<string>, HttpException>)
    ensures !AuthEnabled(enableFlag) ==> r == Ok(None)
    ensures AuthEnabled(enableFlag) && !Truthy(apiKey) ==> r == Err(HttpException(500, NotConfigured, []))
    ensures AuthEnabled(enableFlag) && Truthy(apiKey) && !Truthy(authorization) ==>
      r == Err(HttpException(401, "Authorization header is required", BearerChallenge))
    ensures AuthEnabled(enableFlag) && Truthy(apiKey) && Truthy(authorization) ==>
      r == (if HeaderKey(authorization.value) == apiKey.value then Ok(Some(apiKey.value))
            else Err(HttpException(401, "Invalid API key", BearerChallenge)))
  {
    if !AuthEnabled(enableFlag) then Ok(None)
    else if !Truthy(apiKey) then Err(HttpException(500, NotConfigured, []))
    else if !Truthy(authorization) then Err(HttpException(401, "Authorization header is required", BearerChallenge))
    else
      var key := HeaderKey(authorization.value);
      if key == "" || key != apiKey.value then Err(HttpException(401, "Invalid API key", BearerChallenge))
      else Ok(Some(key))
  }

  /** What the dependency promises its routes: it lets a request through with a key
      only when checking is on, and then the key is exactly the configured one; any
      failure is a 401 with the Bearer challenge except the missing configuration. */
  lemma VerifyApiKeyOutcomes(enableFlag: Option<string>, apiKey: Option<string>, authorization: Option<string>)
    ensures var r := VerifyApiKey(enableFlag, apiKey, authorization);
      (r == Ok(None) <==> !AuthEnabled(enableFlag))
      && (r.Ok? && r.value.Some? ==> Truthy(apiKey) && r.value.value == apiKey.value)
      && (r.Err? ==> (r.error.status == 500 <==> !Truthy(apiKey)))
      && (r.Err? && r.error.status == 401 ==> r.error.headers == BearerChallenge)
  {
  }

  /** A configured key is accepted both as "Bearer <key>" and bare, provided the key
      itself has no surrounding whitespace. */
  lemma {:induction false} ConfiguredKeyAccepted(enableFlag: Option<string>, key: string)
    requires AuthEnabled(enableFlag) && key != "" && Strip(key) == key
    ensures VerifyApiKey(enableFlag, Some(key), Some("Bearer " + key)) == Ok(Some(key))
    ensures !StartsWith(key, "Bearer ") ==> VerifyApiKey(enableFlag, Some(key), Some(key)) == Ok(Some(key))
  {
    var h := "Bearer " + key;
    assert h[..7] == "Bearer ";
    assert h[7..] == key;
  }

  /** "Bearer " with nothing after it never authenticates: the trimmed key is empty. */
  lemma EmptyBearerRejected(enableFlag: Option<string>, apiKey: Option<string>)
    requires AuthEnabled(enableFlag) && Truthy(apiKey)
    ensures VerifyApiKey(enableFlag, apiKey, Some("Bearer ")) == Err(HttpException(401, "Invalid API key", BearerChallenge))
  {
    BearerOnlyKeyEmpty();
  }

  lemma BearerOnlyKeyEmpty()
    ensures HeaderKey("Bearer ") == ""
  {
    var h := "Bearer ";
    assert h[..7] == "Bearer ";
    assert h[7..] == [];
    assert TrimStart([]) == [] && TrimEnd([]) == [];
  }

  // ---------------------------------------------------------------------------
  // mcp/auth.py: verify_api_key and verify_api_key_query

  const FormatError: string := "Invalid Authorization header format. Expected: 'Bearer <token>'"

  /** The token of a well-formed header: exactly two whitespace-separated parts, the
      first "bearer" in any case. */
  function BearerToken(authorization: string): (r: Option<string>)
    ensures r.Some? <==> |SplitWhitespace(authorization)| == 2 && Lower(SplitWhitespace(authorization)[0]) == "bearer"
    ensures r.Some? ==> r.value == SplitWhitespace(authorization)[1]
  {
    var parts := SplitWhitespace(authorization);
    if |parts| == 2 && Lower(parts[0]) == "bearer" then Some(parts[1]) else None
  }

  /** The MCP header check: `True` or the exception raised. */
  function VerifyMcpApiKey(mcpApiKey: Option<string>, authorization: Option<string>): (r: Result<bool, HttpException>)
    ensures r.Ok? ==> r.value
    ensures !Truthy(mcpApiKey) ==> r.Ok?
    ensures Truthy(mcpApiKey) ==>
      (r.Ok? <==> Truthy(authorization) && BearerToken(authorization.value) == Some(mcpApiKey.value))
    ensures r.Err? ==> r.error.status == 401 && r.error.headers == BearerChallenge
    ensures Truthy(mcpApiKey) && !Truthy(authorization) ==> r.Err? && r.error.detail == "Missing Authorization header"
    ensures Truthy(mcpApiKey) && Truthy(authorization) && BearerToken(authorization.value).None? ==>
      r.Err? && r.error.detail == FormatError
  {
    if !Truthy(mcpApiKey) then Ok(true)
    else if !Truthy(authorization) then Err(HttpException(401, "Missing Authorization header", BearerChallenge))
    else
      var token := BearerToken(authorization.value);
      if token.None? then Err(HttpException(401, FormatError, BearerChallenge))
      else if token.value != mcpApiKey.value then Err(HttpException(401, "Invalid API key", BearerChallenge))
      else Ok(true)
  }

  /** The query-parameter check: no challenge header on its 401. */
  function VerifyMcpApiKeyQuery(mcpApiKey: Option<string>, apiKey: Option<string>): (r: Result<bool, HttpException>)
    ensures r.Ok? ==> r.value
    ensures r.Ok? <==> !Truthy(mcpApiKey) || (Truthy(apiKey) && apiKey.value == mcpApiKey.value)
    ensures r.Err? ==> r.error == HttpException(401, "Invalid or missing API key", [])
  {
    if !Truthy(mcpApiKey) then Ok(true)
    else if !Truthy(apiKey) || apiKey.value != mcpApiKey.value then Err(HttpException(401, "Invalid or missing API key", []))
    else Ok(true)
  }

  /** "Bearer <key>", in any case of the scheme, authenticates a key without
      whitespace. */
  lemma {:induction false} McpBearerAccepted(scheme: string, key: string)
    requires Lower(scheme) == "bearer" && key != [] && NoSpace(scheme) && NoSpace(key)
    ensures VerifyMcpApiKey(Some(key), Some(scheme + " " + key)) == Ok(true)
  {
    assert scheme != [] by {
      assert Lower([]) == [];
    }
    var h := scheme + " " + key;
    SplitTwoWords(scheme, key);
    assert BearerToken(h) == Some(key);
  }

  /** Extra words after the token are a format error, not a key mismatch. */
  lemma {:induction false} McpThreePartsRejected(key: string, a: string, b: string, c: string)
    requires key != [] && a != [] && b != [] && c != []
    requires NoSpace(a) && NoSpace(b) && NoSpace(c)
    ensures VerifyMcpApiKey(Some(key), Some(a + " " + b + " " + c)) == Err(HttpException(401, FormatError, BearerChallenge))
  {
    SplitThreeWords(a, b, c);
    MalformedRejected(key, a + " " + b + " " + c);
  }

  /** Any header that does not split into exactly two words is a format error. */
  lemma MalformedRejected(key: string, h: string)
    requires key != [] && h != [] && |SplitWhitespace(h)| != 2
    ensures VerifyMcpApiKey(Some(key), Some(h)) == Err(HttpException(401, FormatError, BearerChallenge))
  {
  }

  lemma SplitThreeWords(a: string, b: string, c: string)
    requires a != [] && b != [] && c != [] && NoSpace(a) && NoSpace(b) && NoSpace(c)
    ensures |SplitWhitespace(a + " " + b + " " + c)| == 3
  {
    Regroup(a, b, c);
    SplitWords(a, b + " " + c);
    SplitTwoWords(b, c);
    ConsLength(a, SplitWhitespace(b + " " + c));
  }

  lemma Regroup(a: string, b: string, c: string)
    ensures a + " " + b + " " + c == a + " " + (b + " " + c)
  {
  }

  lemma ConsLength(a: string, y: seq<string>)
    ensures |[a] + y| == |y| + 1
  {
  }

  predicate NoSpace(w: string)
  {
    forall i :: 0 <= i < |w| ==> !IsSpace(w[i])
  }

  lemma {:induction false} WordOfWord(w: string, rest: string)
    requires NoSpace(w) && (rest == [] || IsSpace(rest[0]))
    ensures Word(w + rest) == w
  {
    if w != [] {
      assert (w + rest)[1..] == w[1..] + rest;
      WordOfWord(w[1..], rest);
      assert [w[0]] + w[1..] == w;
    }
  }

  /** Splitting on whitespace after a leading word and one space. */
  lemma {:induction false} SplitWords(w: string, rest: string)
    requires w != [] && NoSpace(w)
    ensures SplitWhitespace(w + " " + rest) == [w] + SplitWhitespace(rest)
  {
    var s := w + " " + rest;
    assert TrimStart(s) == s;
    WordOfWord(w, " " + rest);
    assert s == w + (" " + rest);
    assert s[|w|..] == " " + rest;
    assert TrimStart(" " + rest) == TrimStart(rest) by {
      assert (" " + rest)[1..] == rest;
    }
    assert SplitWhitespace(" " + rest) == SplitWhitespace(rest);
  }

  lemma SplitTwoWords(w1: string, w2: string)
    requires w1 != [] && w2 != [] && NoSpace(w1) && NoSpace(w2)
    ensures SplitWhitespace(w1 + " " + w2) == [w1, w2]
  {
    SplitWords(w1, w2);
    SplitOneWord(w2);
    ConsPair(w1, w2, SplitWhitespace(w2));
  }

  lemma ConsPair(a: string, b: string, y: seq<string>)
    requires y == [b]
    ensures [a] + y == [a, b]
  {
  }

  lemma SplitOneWord(w: string)
    requires w != [] && NoSpace(w)
    ensures SplitWhitespace(w) == [w]
  {
    assert TrimStart(w) == w;
    WordOfWord(w, []);
    assert w + [] == w;
    assert w[|w|..] == [];
    assert SplitWhitespace([]) == [];
  }
}

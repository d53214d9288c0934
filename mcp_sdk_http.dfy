/**
 * The glue between FastAPI and the MCP SDK's Streamable HTTP transport in the
 * second backend: the Accept-header normalisation applied to every request scope,
 * and the collection of the ASGI messages the SDK sends back into one response.
 * The SDK's session manager itself is not part of this model; the messages it
 * sends are an input.
 *
 * Header names and values are byte strings, written here as strings whose
 * characters are the bytes (their Latin-1 reading); the Accept value is read as
 * UTF-8 with undecodable bytes dropped, as `bytes.decode(errors="ignore")` does.
 */
module McpSdkHttp {
  import opened Wrappers
  import opened Text
  import opened OrderedDicts

  type Header = (string, string)

  /** The parts of an ASGI scope the normalisation reads: its type, its header list
      (which may be missing), and every other entry, which is copied. */
  datatype Scope = Scope(kind: string, headers: Option<seq<Header>>, rest: seq<(string, string)>)

  const AcceptBoth: string := "application/json, text/event-stream"

  /** The first header at or after `from` whose name, ASCII-lowercased, is "accept". */
  function FirstAccept(headers: seq<Header>, from: nat): (r: Option<nat>)
    requires from <= |headers|
    ensures r.Some? ==> from <= r.value < |headers| && AsciiLower(headers[r.value].0) == "accept"
    ensures r.Some? ==> forall j :: from <= j < r.value ==> AsciiLower(headers[j].0) != "accept"
    ensures r.None? ==> forall j :: from <= j < |headers| ==> AsciiLower(headers[j].0) != "accept"
    decreases |headers| - from
  {
    if from == |headers| then None
    else if AsciiLower(headers[from].0) == "accept" then Some(from)
    else FirstAccept(headers, from + 1)
  }

  // ---------------------------------------------------------------------------
  // `bytes.decode(errors="ignore")`: UTF-8 (RFC 3629, section 4), skipping what
  // does not decode

  predicate InByteRange(c: char, lo: int, hi: int)
  {
    lo <= c as int <= hi
  }

  predicate IsContinuation(c: char)
  {
    InByteRange(c, 0x80, 0xBF)
  }

  /** The length of the well-formed UTF-8 sequence at the start of `s`, or 0 when none
      starts there. Overlong forms, surrogates and code points above U+10FFFF are not
      well-formed. */
  function SequenceLength(s: string): (n: nat)
    requires s != []
    ensures n <= 4 && n <= |s|
  {
    var b := s[0] as int;
    if b < 0x80 then 1
    else if 0xC2 <= b <= 0xDF then
      (if |s| >= 2 && IsContinuation(s[1]) then 2 else 0)
    else if 0xE0 <= b <= 0xEF then
      var lo := if b == 0xE0 then 0xA0 else 0x80;
      var hi := if b == 0xED then 0x9F else 0xBF;
      (if |s| >= 3 && InByteRange(s[1], lo, hi) && IsContinuation(s[2]) then 3 else 0)
    else if 0xF0 <= b <= 0xF4 then
      var lo := if b == 0xF0 then 0x90 else 0x80;
      var hi := if b == 0xF4 then 0x8F else 0xBF;
      (if |s| >= 4 && InByteRange(s[1], lo, hi) && IsContinuation(s[2]) && IsContinuation(s[3]) then 4 else 0)
    else 0
  }

  /** The character a well-formed sequence of `n` bytes at the start of `s` encodes. */
  function DecodedChar(s: string, n: nat): (c: char)
    requires s != [] && n == SequenceLength(s) && n > 0
    ensures n == 1 <==> c as int < 0x80
  {
    var b := s[0] as int;
    if n == 1 then s[0]
    else if n == 2 then
      var v := (b - 0xC0) * 64 + (s[1] as int - 0x80);
      assert 0x80 <= v < 0x800;
      v as char
    else if n == 3 then
      var v := (b - 0xE0) * 4096 + (s[1] as int - 0x80) * 64 + (s[2] as int - 0x80);
      assert 0x800 <= v < 0x10000 && (v < 0xD800 || 0xE000 <= v) by {
        assert b == 0xE0 ==> s[1] as int >= 0xA0;
        assert b == 0xED ==> s[1] as int <= 0x9F;
      }
      v as char
    else
      var v := (b - 0xF0) * 262144 + (s[1] as int - 0x80) * 4096 + (s[2] as int - 0x80) * 64 + (s[3] as int - 0x80);
      assert 0x10000 <= v <= 0x10FFFF by {
        assert b == 0xF0 ==> s[1] as int >= 0x90;
        assert b == 0xF4 ==> s[1] as int <= 0x8F;
      }
      v as char
  }

  /** Decode with errors ignored: each well-formed sequence gives its character and any
      byte that starts none is dropped. Dropping an ill-formed sequence's bytes one at a
      time drops what Python drops, since its continuation bytes start no sequence. */
  function DecodeIgnore(s: string): (r: string)
    ensures |r| <= |s|
    decreases |s|
  {
    if s == [] then []
    else if s[0] as int < 0x80 then [s[0]] + DecodeIgnore(s[1..])
    else
      var n := SequenceLength(s);
      if n == 0 then DecodeIgnore(s[1..]) else [DecodedChar(s, n)] + DecodeIgnore(s[n..])
  }

  /** ASCII bytes decode as themselves. */
  lemma {:induction false} AsciiDecodesAsItself(s: string)
    requires forall k :: 0 <= k < |s| ==> s[k] as int < 0x80
    ensures DecodeIgnore(s) == s
    decreases |s|
  {
    if s != [] {
      AsciiDecodesAsItself(s[1..]);
    }
  }

  /** A byte that starts no sequence, such as 0xFF, disappears. */
  lemma UndecodableByteDropped(s: string, rest: string)
    requires s != [] && SequenceLength(s) == 0 && rest == s[1..]
    ensures DecodeIgnore(s) == DecodeIgnore(rest)
  {
  }

  /** A JSON Accept value with a stray 0xFF byte is still read as naming JSON, and so
      is replaced, although its Latin-1 reading does not contain "application/json". */
  lemma StrayByteStillNamesJson()
    ensures NeedsRewrite(StrayByteJson)
    ensures !Contains(StrayByteJson, "application/json")
  {
    StrayByteDecoded();
    JsonTextLower();
    JsonTextNamesOnlyJson();
    StrayByteNotJsonLiterally();
  }

  const StrayByteJson: string := "application/\U{ff}json"

  lemma StrayByteDecoded()
    ensures DecodeIgnore(StrayByteJson) == "application/json"
  {
    assert StrayByteJson == "application/" + ['\U{ff}'] + "json";
    assert "application/json" == "application/" + "json";
    DropBetween("application/", '\U{ff}', "json");
  }

  /** An undecodable byte between ASCII text is dropped and nothing else changes. */
  lemma DropBetween(a: string, x: char, b: string)
    requires forall k :: 0 <= k < |a| ==> a[k] as int < 0x80
    requires forall k :: 0 <= k < |b| ==> b[k] as int < 0x80
    requires SequenceLength([x]) == 0
    ensures DecodeIgnore(a + [x] + b) == a + b
  {
    AsciiDecodesAsItself(b);
    assert ([x] + b)[1..] == b;
    UndecodableByteDropped([x] + b, b);
    assert a + [x] + b == a + ([x] + b);
    DecodeAsciiPrefix(a, [x] + b);
  }

  lemma JsonTextLower()
    ensures Lower("application/json") == "application/json"
  {
    LowerOfLower("application/json");
  }

  lemma JsonTextNamesOnlyJson()
    ensures Contains("application/json", "application/json")
    ensures !Contains("application/json", "text/event-stream")
  {
    ContainsAt("application/json", "application/json", 0);
    ContainsWitness("application/json", "text/event-stream");
  }

  lemma StrayByteNotJsonLiterally()
    ensures !Contains(StrayByteJson, "application/json")
  {
    NotContainedNearEnd(StrayByteJson, "application/json");
  }

  /** A 16-character string occurs in a 17-character one only at position 0 or 1. */
  lemma NotContainedNearEnd(s: string, t: string)
    requires |s| == 17 && |t| == 16 && s[12] != t[12] && s[1] != t[0]
    ensures !Contains(s, t)
  {
    ContainsWitness(s, t);
    forall i | 0 <= i <= |s| ensures !StartsWith(s[i..], t) {
      if i == 0 {
        assert s[i..][12] != t[12];
      } else if i == 1 {
        assert s[i..][0] != t[0];
      }
    }
  }

  /** ASCII bytes in front pass through the decoder unchanged. */
  lemma {:induction false} DecodeAsciiPrefix(a: string, b: string)
    requires forall k :: 0 <= k < |a| ==> a[k] as int < 0x80
    ensures DecodeIgnore(a + b) == a + DecodeIgnore(b)
    decreases |a|
  {
    if a != [] {
      assert (a + b)[0] == a[0] && (a + b)[1..] == a[1..] + b;
      DecodeAsciiPrefix(a[1..], b);
    } else {
      assert a + b == b;
    }
  }

  /** The Accept value as the normalisation inspects it: decoded, then lowercased. */
  function AcceptText(value: string): string
  {
    Lower(DecodeIgnore(value))
  }

  /** Whether an Accept value is replaced: it names JSON, the event stream or a
      wildcard that covers them, but not both types already. */
  predicate NeedsRewrite(value: string)
  {
    var v := AcceptText(value);
    var hasJson := Contains(v, "application/json");
    var hasSse := Contains(v, "text/event-stream");
    var hasWildcard := Contains(v, "*/*") || Contains(v, "application/*");
    !(hasJson && hasSse) && (hasWildcard || hasJson || hasSse)
  }

  /** The scope `_normalize_accept_header` returns. */
  function Normalized(scope: Scope): (r: Scope)
    ensures scope.kind != "http" ==> r == scope
    ensures scope.kind == "http" ==> r.kind == scope.kind && r.rest == scope.rest && r.headers.Some?
  {
    if scope.kind != "http" then scope
    else
      var headers := scope.headers.GetOr([]);
      var i := FirstAccept(headers, 0);
      var result :=
        if i.None? then headers + [("accept", AcceptBoth)]
        else if NeedsRewrite(headers[i.value].1) then headers[i.value := ("accept", AcceptBoth)]
        else headers;
      Scope(scope.kind, Some(result), scope.rest)
  }

  /** `_normalize_accept_header`: a copy of the header list, a search that stops at
      the first Accept header, then an append or an assignment in place. */
  method NormalizeAcceptHeader(scope: Scope) returns (r: Scope)
    ensures r == Normalized(scope)
  {
    if scope.kind != "http" {
      return scope;
    }
    var headers := scope.headers.GetOr([]);
    var acceptIndex: Option<nat> := None;
    var acceptValue: Option<string> := None;
    var i := 0;
    while i < |headers|
      invariant 0 <= i <= |headers|
      invariant acceptIndex.None? ==> acceptValue.None? && FirstAccept(headers, 0) == FirstAccept(headers, i)
      decreases if acceptIndex.None? then |headers| - i else 0
    {
      var (key, value) := headers[i];
      if AsciiLower(key) == "accept" {
        acceptIndex := Some(i);
        acceptValue := Some(AcceptText(value));
        break;
      }
      i := i + 1;
    }
    if acceptValue.None? {
      headers := headers + [("accept", AcceptBoth)];
    } else {
      var v := acceptValue.value;
      var hasJson := Contains(v, "application/json");
      var hasSse := Contains(v, "text/event-stream");
      var hasWildcard := Contains(v, "*/*") || Contains(v, "application/*");
      if !(hasJson && hasSse) && (hasWildcard || hasJson || hasSse) {
        headers := headers[acceptIndex.value := ("accept", AcceptBoth)];
      }
    }
    r := Scope(scope.kind, Some(headers), scope.rest);
  }

  /** What happens to the header list of an HTTP scope: without an Accept header
      one is added at the end; otherwise only the first Accept header may change,
      in its own position, and every other header keeps its place and value. */
  lemma NormalizedHeaders(scope: Scope)
    requires scope.kind == "http"
    ensures var headers := scope.headers.GetOr([]);
      var out := Normalized(scope).headers.value;
      var i := FirstAccept(headers, 0);
      (i.None? ==> out == headers + [("accept", AcceptBoth)])
      && (i.Some? ==>
            |out| == |headers|
            && (forall j :: 0 <= j < |headers| && j != i.value ==> out[j] == headers[j])
            && out[i.value] == (if NeedsRewrite(headers[i.value].1) then ("accept", AcceptBoth) else headers[i.value]))
  {
  }

  /** The cases of the rewrite: a value naming both types, or naming neither type
      nor a wildcard (say "text/html"), is kept; a wildcard or exactly one of the
      two types is replaced. */
  lemma RewriteCases(value: string)
    ensures var v := AcceptText(value);
      (Contains(v, "application/json") && Contains(v, "text/event-stream") ==> !NeedsRewrite(value))
      && ((!Contains(v, "application/json") && !Contains(v, "text/event-stream")
           && !Contains(v, "*/*") && !Contains(v, "application/*")) ==> !NeedsRewrite(value))
      && (Contains(v, "application/json") != Contains(v, "text/event-stream") ==> NeedsRewrite(value))
      && (!(Contains(v, "application/json") && Contains(v, "text/event-stream")) && Contains(v, "*/*") ==> NeedsRewrite(value))
  {
  }

  lemma {:induction false} LowerAppend(a: string, b: string)
    ensures Lower(a + b) == Lower(a) + Lower(b)
  {
    if a != [] {
      assert (a + b)[0] == a[0] && (a + b)[1..] == a[1..] + b;
      LowerAppend(a[1..], b);
    } else {
      assert a + b == b;
    }
  }

  lemma {:induction false} LowerOfLower(s: string)
    requires forall k :: 0 <= k < |s| ==> 'a' <= s[k] <= 'z' || s[k] in " ,/-"
    ensures Lower(s) == s
  {
    if s != [] {
      LowerOfLower(s[1..]);
      assert LowerChar(s[0]) == [s[0]];
    }
  }

  /** The value written in place of an Accept header is kept by a second pass. */
  lemma AcceptBothKept()
    ensures !NeedsRewrite(AcceptBoth)
  {
    AcceptBothRead();
    AcceptBothNamesBoth();
  }

  lemma AcceptBothRead()
    ensures AcceptText(AcceptBoth) == AcceptBoth
  {
    AcceptBothDecoded();
    AcceptBothLower();
  }

  lemma AcceptBothDecoded()
    ensures DecodeIgnore(AcceptBoth) == AcceptBoth
  {
    AcceptBothAscii();
    AsciiDecodesAsItself(AcceptBoth);
  }

  lemma AcceptBothLower()
    ensures Lower(AcceptBoth) == AcceptBoth
  {
    LowerOfLower(AcceptBoth);
  }

  lemma AcceptBothAscii()
    ensures forall k :: 0 <= k < |AcceptBoth| ==> AcceptBoth[k] as int < 0x80
  {
  }

  lemma AcceptBothNamesBoth()
    ensures Contains(AcceptBoth, "application/json") && Contains(AcceptBoth, "text/event-stream")
  {
    var j := "application/json";
    var sse := "text/event-stream";
    assert AcceptBoth == j + ", " + sse;
    ContainsAt(AcceptBoth, j, 0);
    ContainsAt(AcceptBoth, sse, 18);
  }

  lemma AcceptNameLower()
    ensures AsciiLower("accept") == "accept"
  {
  }

  /** Normalising twice is normalising once. */
  lemma NormalizedIdempotent(scope: Scope)
    ensures Normalized(Normalized(scope)) == Normalized(scope)
  {
    if scope.kind == "http" {
      var headers := scope.headers.GetOr([]);
      var out := Normalized(scope).headers.value;
      var i := FirstAccept(headers, 0);
      AcceptBothKept();
      AcceptNameLower();
      NormalizedHeaders(scope);
      if i.None? {
        assert FirstAccept(out, 0) == Some(|headers|) by { FirstAcceptAt(out, |headers|); }
      } else {
        assert FirstAccept(out, 0) == i by { FirstAcceptAt(out, i.value); }
      }
    }
  }

  /** An Accept header preceded by none is the first one. */
  lemma FirstAcceptAt(headers: seq<Header>, i: nat)
    requires i < |headers| && AsciiLower(headers[i].0) == "accept"
    requires forall j :: 0 <= j < i ==> AsciiLower(headers[j].0) != "accept"
    ensures FirstAccept(headers, 0) == Some(i)
  {
  }

  // ---------------------------------------------------------------------------
  // Collecting the response

  type Bytes = seq<bv8>

  /** An ASGI message the SDK sends: a response start (status, optional headers), a
      body chunk (optional body), or anything else, which is ignored. */
  datatype SendMessage = ResponseStart(status: int, headers: Option<seq<Header>>)
                       | ResponseBody(body: Option<Bytes>)
                       | OtherMessage(kind: string)

  /** The variables the handler's `_send` closure updates. */
  datatype Collected = Collected(status: Option<int>, headers: seq<Header>, chunks: seq<Bytes>)

  function SendStep(c: Collected, message: SendMessage): Collected
  {
    match message
    case ResponseStart(status, headers) => Collected(Some(status), headers.GetOr([]), c.chunks)
    case ResponseBody(body) => Collected(c.status, c.headers, c.chunks + [body.GetOr([])])
    case OtherMessage(_) => c
  }

  /** The state after the SDK has sent `messages`, in order. */
  function CollectAll(messages: seq<SendMessage>): Collected
  {
    if messages == [] then Collected(None, [], [])
    else SendStep(CollectAll(messages[..|messages| - 1]), messages[|messages| - 1])
  }

  /** The response the handler builds. */
  datatype Response = Response(status: int, headers: seq<Header>, content: Bytes)

  function Flatten(chunks: seq<Bytes>): Bytes
  {
    if chunks == [] then [] else chunks[0] + Flatten(chunks[1..])
  }

  function Respond(c: Collected): Response
  {
    Response(if c.status.Some? && c.status.value != 0 then c.status.value else 500,
             SetAll([], c.headers), Flatten(c.chunks))
  }

  /** The ASGI `send` callable of `mcp_sdk_request_handler`, with its state. */
  class ResponseCollector {
    var responseStatus: Option<int>
    var responseHeaders: seq<Header>
    var bodyChunks: seq<Bytes>

    function State(): Collected
      reads this
    {
      Collected(responseStatus, responseHeaders, bodyChunks)
    }

    constructor()
      ensures State() == Collected(None, [], [])
    {
      responseStatus := None;
      responseHeaders := [];
      bodyChunks := [];
    }

    /** `_send`: a start replaces the status and headers, a body chunk is appended. */
    method Send(message: SendMessage)
      modifies this
      ensures State() == SendStep(old(State()), message)
    {
      match message {
        case ResponseStart(status, headers) =>
          responseStatus := Some(status);
          responseHeaders := headers.GetOr([]);
        case ResponseBody(body) =>
          bodyChunks := bodyChunks + [body.GetOr([])];
        case OtherMessage(_) =>
      }
    }

    /** The response built once the SDK is done. */
    method ToResponse() returns (r: Response)
      ensures r == Respond(State())
    {
      var status := if responseStatus.Some? && responseStatus.value != 0 then responseStatus.value else 500;
      var headers: seq<Header> := [];
      for k := 0 to |responseHeaders|
        invariant headers == SetAll([], responseHeaders[..k])
      {
        assert responseHeaders[..k + 1][..k] == responseHeaders[..k];
        headers := DictSet(headers, responseHeaders[k].0, responseHeaders[k].1);
      }
      assert responseHeaders[..|responseHeaders|] == responseHeaders;
      r := Response(status, headers, Flatten(bodyChunks));
    }
  }

  /** `mcp_sdk_request_handler` with the SDK sending `messages` to the collector. */
  method RequestHandler(messages: seq<SendMessage>) returns (r: Response)
    ensures r == Respond(CollectAll(messages))
  {
    var collector := new ResponseCollector();
    for k := 0 to |messages|
      invariant collector.State() == CollectAll(messages[..k])
    {
      assert messages[..k + 1][..k] == messages[..k];
      collector.Send(messages[k]);
    }
    assert messages[..|messages|] == messages;
    r := collector.ToResponse();
  }

  // ---------------------------------------------------------------------------
  // What the collected response is

  /** The last response start among the messages. */
  function LastStart(messages: seq<SendMessage>): (r: Option<nat>)
    ensures r.Some? ==> r.value < |messages| && messages[r.value].ResponseStart?
    ensures r.Some? ==> forall j :: r.value < j < |messages| ==> !messages[j].ResponseStart?
    ensures r.None? ==> forall j :: 0 <= j < |messages| ==> !messages[j].ResponseStart?
  {
    if messages == [] then None
    else if messages[|messages| - 1].ResponseStart? then Some(|messages| - 1)
    else LastStart(messages[..|messages| - 1])
  }

  /** The body chunks among the messages, a missing body counting as empty. */
  function Chunks(messages: seq<SendMessage>): (r: seq<Bytes>)
    ensures |r| <= |messages|
  {
    if messages == [] then []
    else
      var rest := Chunks(messages[1..]);
      match messages[0]
      case ResponseBody(body) => [body.GetOr([])] + rest
      case _ => rest
  }

  /** The status and headers come from the last response start (status 500 without
      one, or when its status is 0); the body is every chunk, in order. */
  lemma {:induction false} CollectAllMeaning(messages: seq<SendMessage>)
    ensures var c := CollectAll(messages);
      var s := LastStart(messages);
      (s.None? ==> c.status.None? && c.headers == [])
      && (s.Some? ==> c.status == Some(messages[s.value].status) && c.headers == messages[s.value].headers.GetOr([]))
      && c.chunks == Chunks(messages)
  {
    if messages != [] {
      var init := messages[..|messages| - 1];
      CollectAllMeaning(init);
      ChunksSnoc(init, messages[|messages| - 1]);
      assert init + [messages[|messages| - 1]] == messages;
    }
  }

  lemma {:induction false} ChunksSnoc(messages: seq<SendMessage>, m: SendMessage)
    ensures Chunks(messages + [m]) == Chunks(messages) + (if m.ResponseBody? then [m.body.GetOr([])] else [])
  {
    if messages != [] {
      assert (messages + [m])[1..] == messages[1..] + [m];
      ChunksSnoc(messages[1..], m);
    } else {
      assert [m][1..] == [];
    }
  }

  lemma {:induction false} FlattenAppend(a: seq<Bytes>, b: seq<Bytes>)
    ensures Flatten(a + b) == Flatten(a) + Flatten(b)
  {
    if a != [] {
      assert (a + b)[0] == a[0] && (a + b)[1..] == a[1..] + b;
      FlattenAppend(a[1..], b);
    } else {
      assert a + b == b;
    }
  }

  /** The handler's response, in the terms of the messages. */
  lemma ResponseMeaning(messages: seq<SendMessage>)
    ensures var r := Respond(CollectAll(messages));
      var s := LastStart(messages);
      r.status == (if s.Some? && messages[s.value].status != 0 then messages[s.value].status else 500)
      && r.headers == SetAll([], if s.Some? then messages[s.value].headers.GetOr([]) else [])
      && r.content == Flatten(Chunks(messages))
  {
    CollectAllMeaning(messages);
  }

  /** Messages sent later add their chunks after the earlier ones. */
  lemma ContentInOrder(a: seq<SendMessage>, b: seq<SendMessage>)
    ensures Respond(CollectAll(a + b)).content == Respond(CollectAll(a)).content + Respond(CollectAll(b)).content
  {
    CollectAllMeaning(a);
    CollectAllMeaning(b);
    CollectAllMeaning(a + b);
    ChunksAppend(a, b);
    FlattenAppend(Chunks(a), Chunks(b));
  }

  lemma {:induction false} ChunksAppend(a: seq<SendMessage>, b: seq<SendMessage>)
    ensures Chunks(a + b) == Chunks(a) + Chunks(b)
  {
    if a != [] {
      assert (a + b)[0] == a[0] && (a + b)[1..] == a[1..] + b;
      ChunksAppend(a[1..], b);
    } else {
      assert a + b == b;
    }
  }

  /** The header dictionary of the response: a name repeated in the last response
      start keeps its last value, and the headers of earlier starts are dropped. */
  lemma ResponseHeaderLookup(messages: seq<SendMessage>, name: string)
    ensures var s := LastStart(messages);
      Get(Respond(CollectAll(messages)).headers, name)
        == (if s.Some? then LastValue(messages[s.value].headers.GetOr([]), name) else None)
  {
    ResponseMeaning(messages);
    var s := LastStart(messages);
    SetAllLookup([], if s.Some? then messages[s.value].headers.GetOr([]) else [], name);
  }
}

/**
 * The JSON values and JSON-RPC 2.0 replies both backends' MCP endpoints build: a
 * reply is an object with "jsonrpc": "2.0", the request's id, then a result or an
 * error object (code, message, optional data) as in section 5.1 of JSON-RPC 2.0. The
 * MCP server's tool list and tool calls are parameters: what they return is not
 * part of this model.
 */
module JsonRpc {
  import opened Wrappers
  import opened Text
  import opened OrderedDicts
  import opened HttpProblems

  /** A parsed JSON value; numbers are integers, objects keep their member order. */
  datatype Json = JNull | JBool(b: bool) | JNum(n: int) | JStr(s: string)
                | JArr(items: seq<Json>) | JObj(members: seq<(string, Json)>)

  /** Python truthiness of the parsed value. */
  predicate Truthy(j: Json)
  {
    match j
    case JNull => false
    case JBool(b) => b
    case JNum(n) => n != 0
    case JStr(s) => s != ""
    case JArr(items) => items != []
    case JObj(members) => members != []
  }

  /** The Python type name of the parsed value. */
  function PyTypeName(j: Json): string
  {
    match j
    case JNull => "NoneType"
    case JBool(_) => "bool"
    case JNum(_) => "int"
    case JStr(_) => "str"
    case JArr(_) => "list"
    case JObj(_) => "dict"
  }

  /** `str(value)` for the scalar values; a list or dict is known only by its type. */
  function PyStr(j: Json): string
  {
    match j
    case JNull => "None"
    case JBool(b) => if b then "True" else "False"
    case JNum(n) => IntToString(n)
    case JStr(s) => s
    case JArr(_) => "[...]"
    case JObj(_) => "{...}"
  }

  /** `d.get(key, default)` on a parsed object: the last member with that key, as
      `json.loads` keeps it. */
  function GetOr(members: seq<(string, Json)>, key: string, default: Json): Json
  {
    var v := Get(members, key);
    if v.Some? then v.value else default
  }

  /** The message of the `AttributeError` raised by `value.get(...)` on a non-dict. */
  function NoGetMessage(j: Json): string
  {
    "'" + PyTypeName(j) + "' object has no attribute 'get'"
  }

  // ---------------------------------------------------------------------------
  // What the MCP server is asked for

  /** A tool the server lists; the description may be missing. */
  datatype Tool = Tool(name: string, description: Option<string>, inputSchema: Json)

  /** One text content item a tool returns. */
  datatype Content = Content(contentType: string, text: string)

  /** What `call_tool(name, arguments)` did: returned contents, raised a pydantic
      `ValidationError` (its error list and its rendering), raised an `HTTPException`,
      or raised anything else (its rendering). */
  datatype CallOutcome = Returned(contents: seq<Content>)
                       | InvalidArguments(errors: Json, rendering: string)
                       | RaisedHttp(exc: HttpException)
                       | Failed(message: string)

  // ---------------------------------------------------------------------------
  // Replies

  function Reply(id: Json, key: string, value: Json): Json
  {
    JObj([("jsonrpc", JStr("2.0")), ("id", id), (key, value)])
  }

  function ErrorReply(id: Json, code: int, message: string, data: Option<Json>): Json
  {
    var fields := [("code", JNum(code)), ("message", JStr(message))];
    Reply(id, "error", JObj(if data.Some? then fields + [("data", data.value)] else fields))
  }

  /** The reply is a JSON-RPC 2.0 reply to the request with this id. */
  predicate IsReplyTo(reply: Json, id: Json)
  {
    reply.JObj? && |reply.members| == 3
    && reply.members[0] == ("jsonrpc", JStr("2.0")) && reply.members[1] == ("id", id)
    && (reply.members[2].0 == "result" || reply.members[2].0 == "error")
  }

  /** The error code of a reply that carries an error. */
  function ErrorCode(reply: Json): Option<int>
  {
    if reply.JObj? && |reply.members| == 3 && reply.members[2].0 == "error"
       && reply.members[2].1.JObj? && |reply.members[2].1.members| >= 1
       && reply.members[2].1.members[0].0 == "code" && reply.members[2].1.members[0].1.JNum?
    then Some(reply.members[2].1.members[0].1.n)
    else None
  }

  /** The data member of a reply's error object. */
  function ErrorData(reply: Json): Option<Json>
  {
    if reply.JObj? && |reply.members| == 3 && reply.members[2].0 == "error"
       && reply.members[2].1.JObj? && |reply.members[2].1.members| == 3
    then Some(reply.members[2].1.members[2].1)
    else None
  }

  lemma ErrorReplyShape(id: Json, code: int, message: string, data: Option<Json>)
    ensures var r := ErrorReply(id, code, message, data);
      IsReplyTo(r, id) && ErrorCode(r) == Some(code) && ErrorData(r) == data
  {
  }

  /** The fixed result of "initialize". */
  function InitializeResult(): Json
  {
    JObj([("protocolVersion", JStr("2024-11-05")),
          ("capabilities", JObj([("tools", JObj([("listChanged", JBool(false))]))])),
          ("serverInfo", JObj([("name", JStr("intents-mcp-server")), ("version", JStr("1.0.0"))]))])
  }

  function ToolJson(t: Tool): Json
  {
    JObj([("name", JStr(t.name)),
          ("description", if t.description.Some? then JStr(t.description.value) else JNull),
          ("inputSchema", t.inputSchema)])
  }

  /** The result of "tools/list": one entry per tool, in order. */
  function ToolsResult(tools: seq<Tool>): (r: Json)
    ensures r.JObj? && |r.members| == 1 && r.members[0].0 == "tools" && r.members[0].1.JArr?
    ensures var items := r.members[0].1.items;
      |items| == |tools| && forall k :: 0 <= k < |tools| ==> items[k] == ToolJson(tools[k])
  {
    JObj([("tools", JArr(seq(|tools|, k requires 0 <= k < |tools| => ToolJson(tools[k]))))])
  }

  function ContentJson(c: Content): Json
  {
    JObj([("type", JStr(c.contentType)), ("text", JStr(c.text))])
  }

  /** The result of a successful "tools/call": the contents in order, not an error. */
  function CallResult(contents: seq<Content>): (r: Json)
    ensures r.JObj? && |r.members| == 2 && r.members[0].0 == "content" && r.members[1] == ("isError", JBool(false))
    ensures r.members[0].1.JArr? && |r.members[0].1.items| == |contents|
    ensures forall k :: 0 <= k < |contents| ==> r.members[0].1.items[k] == ContentJson(contents[k])
  {
    JObj([("content", JArr(seq(|contents|, k requires 0 <= k < |contents| => ContentJson(contents[k])))),
          ("isError", JBool(false))])
  }

  // ---------------------------------------------------------------------------
  // The endpoint

  /** What the POST endpoint answers: a JSON body (200), no content (204), a raised
      `HTTPException`, or an exception nothing handles (a 500 from the framework). */
  datatype EndpointReply = JsonBody(body: Json) | NoContent | HttpError(exc: HttpException) | Unhandled

  /** How the endpoint's `"jsonrpc" not in body or body.get("jsonrpc") != "2.0"`
      fares on a parsed body: the request members, a 400, or a crash (`in` on a value
      that is not a container, or `.get` on a list or string that passed `in`). */
  datatype EnvelopeCheck = Envelope(members: seq<(string, Json)>) | NotJsonRpc | EnvelopeCrash

  function CheckEnvelope(body: Json): (r: EnvelopeCheck)
    ensures r.Envelope? <==> body.JObj? && Get(body.members, "jsonrpc") == Some(JStr("2.0"))
    ensures r.Envelope? ==> r.members == body.members
  {
    match body
    case JObj(members) =>
      if Get(members, "jsonrpc") == Some(JStr("2.0")) then Envelope(members) else NotJsonRpc
    case JArr(items) => if JStr("jsonrpc") in items then EnvelopeCrash else NotJsonRpc
    case JStr(s) => if Contains(s, "jsonrpc") then EnvelopeCrash else NotJsonRpc
    case _ => EnvelopeCrash
  }

  const InvalidRequest: HttpException := HttpException(400, "Invalid JSON-RPC request", [])

  /** The common part of both endpoints after the origin check: parse failure, the
      envelope check, then the dispatcher's answer. */
  function AfterOrigin(parsed: Result<Json, string>, dispatch: seq<(string, Json)> -> Dispatched): (r: EndpointReply)
    ensures parsed.Err? ==> r == HttpError(HttpException(400, "Invalid JSON: " + parsed.error, []))
    ensures parsed.Ok? && CheckEnvelope(parsed.value).NotJsonRpc? ==> r == HttpError(InvalidRequest)
    ensures parsed.Ok? && CheckEnvelope(parsed.value).Envelope? ==>
      var d := dispatch(parsed.value.members);
      r == (match d
            case Answer(reply) => JsonBody(reply)
            case Silent => NoContent
            case Raise(exc) => HttpError(exc))
  {
    if parsed.Err? then HttpError(HttpException(400, "Invalid JSON: " + parsed.error, []))
    else
      match CheckEnvelope(parsed.value)
      case NotJsonRpc => HttpError(InvalidRequest)
      case EnvelopeCrash => Unhandled
      case Envelope(members) =>
        match dispatch(members)
        case Answer(reply) => JsonBody(reply)
        case Silent => NoContent
        case Raise(exc) => HttpError(exc)
  }

  /** What `_handle_mcp_request` does: a reply, `None` (a notification), or a raised
      `HTTPException`. */
  datatype Dispatched = Answer(reply: Json) | Silent | Raise(exc: HttpException)

  /** The pieces of the request `_handle_mcp_request` reads. */
  function MethodOf(members: seq<(string, Json)>): Json { GetOr(members, "method", JNull) }
  function ParamsOf(members: seq<(string, Json)>): Json { GetOr(members, "params", JObj([])) }
  function IdOf(members: seq<(string, Json)>): Json { GetOr(members, "id", JNull) }
}

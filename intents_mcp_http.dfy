/**
 * The second backend's MCP endpoint over plain HTTP POST: the origin check, the
 * JSON-RPC envelope check, and the dispatch of initialize, tools/list, tools/call
 * and the initialized notification. Every failure inside the dispatch is a
 * JSON-RPC error reply (codes of section 5.1 of JSON-RPC 2.0), and a notification
 * gets no reply (section 4.1).
 */
module IntentsMcpHttp {
  import opened Wrappers
  import opened HttpProblems
  import opened JsonRpc
  import opened McpOrigins

  /** The part of `tools/call` after its parameters were found to be an object. */
  function CallTool(id: Json, params: seq<(string, Json)>, callTool: (Json, Json) -> CallOutcome): Dispatched
  {
    var name := GetOr(params, "name", JNull);
    var arguments := GetOr(params, "arguments", JObj([]));
    if !Truthy(name) then Answer(ErrorReply(id, -32602, "Tool name is required", None))
    else
      match callTool(name, arguments)
      case Returned(contents) => Answer(Reply(id, "result", CallResult(contents)))
      case InvalidArguments(errors, _) =>
        Answer(ErrorReply(id, -32602, "Invalid arguments for tool " + PyStr(name), Some(errors)))
      case RaisedHttp(exc) => Raise(exc)
      case Failed(message) => Answer(ErrorReply(id, -32603, "Internal error", Some(JStr(message))))
  }

  /** `_handle_mcp_request`. */
  function HandleMcpRequest(body: seq<(string, Json)>, tools: seq<Tool>, callTool: (Json, Json) -> CallOutcome)
    : (r: Dispatched)
    ensures r.Silent? <==> MethodOf(body) == JStr("notifications/initialized")
    ensures r.Answer? ==> IsReplyTo(r.reply, IdOf(body))
    ensures r.Raise? ==>
      MethodOf(body) == JStr("tools/call") && ParamsOf(body).JObj?
      && callTool(GetOr(ParamsOf(body).members, "name", JNull), GetOr(ParamsOf(body).members, "arguments", JObj([])))
         == RaisedHttp(r.exc)
  {
    var rpcMethod := MethodOf(body);
    var params := ParamsOf(body);
    var id := IdOf(body);
    if rpcMethod == JStr("initialize") then Answer(Reply(id, "result", InitializeResult()))
    else if rpcMethod == JStr("tools/list") then Answer(Reply(id, "result", ToolsResult(tools)))
    else if rpcMethod == JStr("tools/call") then
      if !params.JObj? then Answer(ErrorReply(id, -32603, "Internal error", Some(JStr(NoGetMessage(params)))))
      else CallTool(id, params.members, callTool)
    else if rpcMethod == JStr("notifications/initialized") then Silent
    else Answer(ErrorReply(id, -32601, "Unknown method: " + PyStr(rpcMethod), None))
  }

  predicate KnownMethod(rpcMethod: Json)
  {
    rpcMethod == JStr("initialize") || rpcMethod == JStr("tools/list") || rpcMethod == JStr("tools/call")
    || rpcMethod == JStr("notifications/initialized")
  }

  /** The error codes the dispatcher uses: -32601 exactly for an unknown method,
      -32602 for a missing tool name or arguments the tool rejects (with the error
      list as data), -32603 for anything the tool raises (with the message as data). */
  lemma DispatchErrorCodes(body: seq<(string, Json)>, tools: seq<Tool>, callTool: (Json, Json) -> CallOutcome)
    ensures var r := HandleMcpRequest(body, tools, callTool);
      var params := ParamsOf(body);
      var name := if params.JObj? then GetOr(params.members, "name", JNull) else JNull;
      var outcome := callTool(name, if params.JObj? then GetOr(params.members, "arguments", JObj([])) else JNull);
      (!KnownMethod(MethodOf(body)) <==> r.Answer? && ErrorCode(r.reply) == Some(-32601))
      && (MethodOf(body) == JStr("tools/call") && params.JObj? && !Truthy(name) ==>
            r.Answer? && ErrorCode(r.reply) == Some(-32602) && ErrorData(r.reply).None?)
      && (MethodOf(body) == JStr("tools/call") && params.JObj? && Truthy(name) && outcome.InvalidArguments? ==>
            r.Answer? && ErrorCode(r.reply) == Some(-32602) && ErrorData(r.reply) == Some(outcome.errors))
      && (MethodOf(body) == JStr("tools/call") && params.JObj? && Truthy(name) && outcome.Failed? ==>
            r.Answer? && ErrorCode(r.reply) == Some(-32603) && ErrorData(r.reply) == Some(JStr(outcome.message)))
  {
    var rpcMethod := MethodOf(body);
    var id := IdOf(body);
    if !KnownMethod(rpcMethod) {
      ErrorReplyShape(id, -32601, "Unknown method: " + PyStr(rpcMethod), None);
    } else if rpcMethod == JStr("tools/call") && ParamsOf(body).JObj? {
      CallToolCodes(id, ParamsOf(body).members, callTool);
    }
  }

  lemma CallToolCodes(id: Json, params: seq<(string, Json)>, callTool: (Json, Json) -> CallOutcome)
    ensures var r := CallTool(id, params, callTool);
      var name := GetOr(params, "name", JNull);
      var outcome := callTool(name, GetOr(params, "arguments", JObj([])));
      (!Truthy(name) ==> r.Answer? && ErrorCode(r.reply) == Some(-32602) && ErrorData(r.reply).None?)
      && (Truthy(name) && outcome.InvalidArguments? ==>
            r.Answer? && ErrorCode(r.reply) == Some(-32602) && ErrorData(r.reply) == Some(outcome.errors))
      && (Truthy(name) && outcome.Failed? ==>
            r.Answer? && ErrorCode(r.reply) == Some(-32603) && ErrorData(r.reply) == Some(JStr(outcome.message)))
      && (Truthy(name) && outcome.Returned? ==> r.Answer? && ErrorCode(r.reply).None?)
  {
  }

  /** The POST endpoint: the origin first (403 before the body is read), then the
      body and the envelope, then the dispatch; no reply means 204. */
  function McpEndpoint(origin: Option<string>, allowed: seq<string>, parsed: Result<Json, string>,
                       tools: seq<Tool>, callTool: (Json, Json) -> CallOutcome): (r: EndpointReply)
    ensures !ValidateOrigin(origin, allowed) ==> r == HttpError(HttpException(403, "Invalid origin", []))
    ensures ValidateOrigin(origin, allowed) ==>
      r == AfterOrigin(parsed, body => HandleMcpRequest(body, tools, callTool))
  {
    if !ValidateOrigin(origin, allowed) then HttpError(HttpException(403, "Invalid origin", []))
    else AfterOrigin(parsed, body => HandleMcpRequest(body, tools, callTool))
  }

  /** A 204 means an admitted, well-formed notification; a 200 always carries a
      JSON-RPC reply to the request's id. */
  lemma EndpointReplies(origin: Option<string>, allowed: seq<string>, parsed: Result<Json, string>,
                        tools: seq<Tool>, callTool: (Json, Json) -> CallOutcome)
    ensures var r := McpEndpoint(origin, allowed, parsed, tools, callTool);
      (r.NoContent? <==>
        ValidateOrigin(origin, allowed) && parsed.Ok? && CheckEnvelope(parsed.value).Envelope?
        && MethodOf(parsed.value.members) == JStr("notifications/initialized"))
      && (r.JsonBody? ==> parsed.Ok? && parsed.value.JObj? && IsReplyTo(r.body, IdOf(parsed.value.members)))
  {
    if ValidateOrigin(origin, allowed) && parsed.Ok? && CheckEnvelope(parsed.value).Envelope? {
      var d := HandleMcpRequest(parsed.value.members, tools, callTool);
      assert d.Silent? <==> MethodOf(parsed.value.members) == JStr("notifications/initialized");
    }
  }
}

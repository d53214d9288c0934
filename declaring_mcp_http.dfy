/**
 * The first backend's MCP endpoint over plain HTTP POST. It differs from the second
 * backend's in three places: a missing tool name and an unknown method are raised
 * as HTTP 400 instead of being answered as JSON-RPC errors, argument validation
 * errors are not told apart from other failures, and the origin check skips only an
 * allow-list of exactly `["*"]`.
 */
module DeclaringMcpHttp {
  import opened Wrappers
  import opened HttpProblems
  import opened JsonRpc
  import opened McpOrigins
  import IntentsMcpHttp

  function CallTool(id: Json, params: seq<(string, Json)>, callTool: (Json, Json) -> CallOutcome): Dispatched
  {
    var name := GetOr(params, "name", JNull);
    var arguments := GetOr(params, "arguments", JObj([]));
    if !Truthy(name) then Raise(HttpException(400, "Tool name is required", []))
    else
      match callTool(name, arguments)
      case Returned(contents) => Answer(Reply(id, "result", CallResult(contents)))
      case InvalidArguments(_, rendering) => Answer(ErrorReply(id, -32603, "Internal error", Some(JStr(rendering))))
      case RaisedHttp(exc) => Raise(exc)
      case Failed(message) => Answer(ErrorReply(id, -32603, "Internal error", Some(JStr(message))))
  }

  /** `_handle_mcp_request`. */
  function HandleMcpRequest(body: seq<(string, Json)>, tools: seq<Tool>, callTool: (Json, Json) -> CallOutcome)
    : (r: Dispatched)
    ensures r.Silent? <==> MethodOf(body) == JStr("notifications/initialized")
    ensures r.Answer? ==> IsReplyTo(r.reply, IdOf(body))
    ensures !IntentsMcpHttp.KnownMethod(MethodOf(body)) ==>
      r == Raise(HttpException(400, "Unknown method: " + PyStr(MethodOf(body)), []))
  {
    var rpcMethod := MethodOf(body);
    var params := ParamsOf(body);
    var id := IdOf(body);
    if rpcMethod == JStr("initialize") then Answer(Reply(id, "result", InitializeResult()))
    else if rpcMethod == JStr("tools/list") then Answer(Reply(id, "result", ToolsResult(tools)))
    else if rpcMethod == JStr("tools/call") then
      if !params.JObj? then Answer(ErrorReply(id, -32603, "Internal error", Some(JStr(NoGetMessage(params)))))
      else CallTool(id, params.members, callTool)
    else if rpcMethod == JStr("notifications/initialized") then Silent
    else Raise(HttpException(400, "Unknown method: " + PyStr(rpcMethod), []))
  }

  /** Every JSON-RPC error this dispatcher answers with is -32603, and its data is
      the rendering of what went wrong. */
  lemma OnlyInternalErrors(body: seq<(string, Json)>, tools: seq<Tool>, callTool: (Json, Json) -> CallOutcome)
    ensures var r := HandleMcpRequest(body, tools, callTool);
      r.Answer? && ErrorCode(r.reply).Some? ==>
        ErrorCode(r.reply) == Some(-32603) && ErrorData(r.reply).Some? && ErrorData(r.reply).value.JStr?
  {
    var rpcMethod := MethodOf(body);
    var params := ParamsOf(body);
    var id := IdOf(body);
    if rpcMethod == JStr("tools/call") {
      if !params.JObj? {
        ErrorReplyShape(id, -32603, "Internal error", Some(JStr(NoGetMessage(params))));
      } else {
        var name := GetOr(params.members, "name", JNull);
        var outcome := callTool(name, GetOr(params.members, "arguments", JObj([])));
        if Truthy(name) && outcome.InvalidArguments? {
          ErrorReplyShape(id, -32603, "Internal error", Some(JStr(outcome.rendering)));
        } else if Truthy(name) && outcome.Failed? {
          ErrorReplyShape(id, -32603, "Internal error", Some(JStr(outcome.message)));
        }
      }
    }
  }

  /** The two dispatchers give the same answer except on a missing tool name, on
      arguments the tool rejects, and on an unknown method; where they differ, this
      one raises a 400 or reports -32603. */
  lemma DispatchersAgree(body: seq<(string, Json)>, tools: seq<Tool>, callTool: (Json, Json) -> CallOutcome)
    ensures var params := ParamsOf(body);
      var name := if params.JObj? then GetOr(params.members, "name", JNull) else JNull;
      var outcome := callTool(name, if params.JObj? then GetOr(params.members, "arguments", JObj([])) else JNull);
      var differs := !IntentsMcpHttp.KnownMethod(MethodOf(body))
        || (MethodOf(body) == JStr("tools/call") && params.JObj? && (!Truthy(name) || outcome.InvalidArguments?));
      !differs ==> HandleMcpRequest(body, tools, callTool) == IntentsMcpHttp.HandleMcpRequest(body, tools, callTool)
  {
  }

  /** The three places where the first backend's answer differs, one by one. */
  lemma DispatchersDiffer(body: seq<(string, Json)>, tools: seq<Tool>, callTool: (Json, Json) -> CallOutcome)
    ensures var params := ParamsOf(body);
      var name := if params.JObj? then GetOr(params.members, "name", JNull) else JNull;
      var outcome := callTool(name, if params.JObj? then GetOr(params.members, "arguments", JObj([])) else JNull);
      var mine := HandleMcpRequest(body, tools, callTool);
      var theirs := IntentsMcpHttp.HandleMcpRequest(body, tools, callTool);
      (!IntentsMcpHttp.KnownMethod(MethodOf(body)) ==>
         mine.Raise? && mine.exc.status == 400 && theirs.Answer? && ErrorCode(theirs.reply) == Some(-32601))
      && (MethodOf(body) == JStr("tools/call") && params.JObj? && !Truthy(name) ==>
         mine == Raise(HttpException(400, "Tool name is required", []))
         && theirs.Answer? && ErrorCode(theirs.reply) == Some(-32602))
      && (MethodOf(body) == JStr("tools/call") && params.JObj? && Truthy(name) && outcome.InvalidArguments? ==>
         mine.Answer? && ErrorData(mine.reply) == Some(JStr(outcome.rendering)) && ErrorCode(mine.reply) == Some(-32603)
         && theirs.Answer? && ErrorData(theirs.reply) == Some(outcome.errors) && ErrorCode(theirs.reply) == Some(-32602))
  {
    IntentsMcpHttp.DispatchErrorCodes(body, tools, callTool);
    var params := ParamsOf(body);
    if MethodOf(body) == JStr("tools/call") && params.JObj? {
      var name := GetOr(params.members, "name", JNull);
      var outcome := callTool(name, GetOr(params.members, "arguments", JObj([])));
      if Truthy(name) && outcome.InvalidArguments? {
        ErrorReplyShape(IdOf(body), -32603, "Internal error", Some(JStr(outcome.rendering)));
      }
    }
  }

  /** The POST endpoint behind the first backend's origin gate. */
  function McpEndpoint(origin: Option<string>, allowed: seq<string>, parsed: Result<Json, string>,
                       tools: seq<Tool>, callTool: (Json, Json) -> CallOutcome): (r: EndpointReply)
    ensures !StrictGate(origin, allowed) ==> r == HttpError(HttpException(403, "Invalid origin", []))
    ensures StrictGate(origin, allowed) ==>
      r == AfterOrigin(parsed, body => HandleMcpRequest(body, tools, callTool))
  {
    if allowed != ["*"] && !ValidateOriginStrict(origin, allowed) then HttpError(HttpException(403, "Invalid origin", []))
    else AfterOrigin(parsed, body => HandleMcpRequest(body, tools, callTool))
  }

  /** A 204 means an admitted, well-formed notification; a 200 always carries a
      JSON-RPC reply to the request's id. */
  lemma EndpointReplies(origin: Option<string>, allowed: seq<string>, parsed: Result<Json, string>,
                        tools: seq<Tool>, callTool: (Json, Json) -> CallOutcome)
    ensures var r := McpEndpoint(origin, allowed, parsed, tools, callTool);
      (r.NoContent? <==>
        StrictGate(origin, allowed) && parsed.Ok? && CheckEnvelope(parsed.value).Envelope?
        && MethodOf(parsed.value.members) == JStr("notifications/initialized"))
      && (r.JsonBody? ==> parsed.Ok? && parsed.value.JObj? && IsReplyTo(r.body, IdOf(parsed.value.members)))
  {
    if StrictGate(origin, allowed) && parsed.Ok? && CheckEnvelope(parsed.value).Envelope? {
      var d := HandleMcpRequest(parsed.value.members, tools, callTool);
      assert d.Silent? <==> MethodOf(parsed.value.members) == JStr("notifications/initialized");
    }
  }
}

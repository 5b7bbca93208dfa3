/** The MCP method handlers (handshake, tool discovery, tool invocation) and their
    registration on a JSON-RPC dispatcher. */
module McpServer {
  import opened Wrappers
  import opened JsonRpcErrors
  import opened JsonRpcTypes
  import Rpc = JsonRpcServer
  import opened McpTypes
  import opened McpHelper
  import opened McpRegistry

  const ProtocolVersion: string := "2025-11-25"
  const ServerName: string := "CartopherCopilot"
  const ServerVersion: string := "1.0.0"

  /** The four methods the server answers. */
  const MethodNames: set<string> := {"initialize", "initialized", "tools/list", "tools/call"}

  type McpHandler = Rpc.Handler<Params, McpResult>
  type Outcome = Rpc.Outcome<McpResult>
  type RpcServer = Rpc.Server<Params, McpResult>

  /** An MCP server: its dispatcher and the registry its tool methods consult. */
  datatype Server = Server(rpcServer: RpcServer, toolRegistry: Registry)

  /** The fixed handshake answer. */
  const InitializeReply: InitializeResult :=
    InitializeResult(
      ProtocolVersion,
      ServerCapabilities(Some(ToolsCapability(false)), None, None),
      ServerInfo(ServerName, ServerVersion))

  /** `initialize`: params that do not decode are a protocol error (InvalidParams);
      otherwise the server's fixed version, identity and tool capability, whatever the
      client sent. */
  function HandleInitialize(params: Params): (out: Outcome)
    ensures params.asInitialize.None? ==> out.RpcErr? && out.err.code == ErrorInvalidParams
    ensures params.asInitialize.Some? ==>
              && out.Ok? && out.result.Some? && out.result.value.Initialized?
              && out.result.value.init.protocolVersion == "2025-11-25"
              && out.result.value.init.serverInfo == ServerInfo("CartopherCopilot", "1.0.0")
              && out.result.value.init.capabilities.tools == Some(ToolsCapability(false))
  {
    match params.asInitialize
    case None => Rpc.RpcErr(NewInvalidParamsError("Invalid initialize parameters"))
    case Some(_) => Rpc.Ok(Some(Initialized(InitializeReply)))
  }

  /** The handshake reply does not depend on what the client announced, so repeating
      `initialize` gives the same answer. */
  lemma InitializeIgnoresClient(p1: Params, p2: Params)
    requires p1.asInitialize.Some? && p2.asInitialize.Some?
    ensures HandleInitialize(p1) == HandleInitialize(p2)
  {
  }

  /** `initialized`: a nil result and no error, for any params. */
  function HandleInitialized(params: Params): (out: Outcome)
    ensures out.Ok? && out.result.None?
  {
    Rpc.Ok(None)
  }

  /** The registries and visiting orders a running server can have: the registry was built by
      `NewRegistry` and `Register`, and `order` visits each registered name once, as one
      iteration of Go's map does. */
  predicate Servable(reg: Registry, order: seq<string>) {
    reg.Valid() && IsEnumeration(order, reg.tools.Keys)
  }

  /** `tools/list`: never an error; the result lists every registered tool exactly once, each
      as registered, in the visiting order. */
  function HandleToolsList(reg: Registry, order: seq<string>, params: Params): (out: Outcome)
    requires Servable(reg, order)
    ensures out.Ok? && out.result.Some? && out.result.value.ToolsListed?
    ensures var ts := out.result.value.list.tools;
      && ts == ListToolsIn(reg, order)
      && |ts| == |reg.tools.Keys|
      && (forall i :: 0 <= i < |ts| ==> ts[i].name in reg.tools && reg.tools[ts[i].name] == ts[i])
      && (forall i, j :: 0 <= i < j < |ts| ==> ts[i].name != ts[j].name)
      && (forall n :: n in reg.tools ==> reg.tools[n] in ts)
  {
    ListingIsPermutation(reg, order);
    Rpc.Ok(Some(ToolsListed(ToolsListResult(ListToolsIn(reg, order)))))
  }

  /** `tools/call`: undecodable params are the only protocol error; a failed execution is a
      successful call whose result is flagged as an error and carries the prefixed message;
      a successful execution's result is passed on as is. */
  function HandleToolsCall(reg: Registry, params: Params): (out: Outcome)
    ensures out.RpcErr? <==> params.asToolCall.None?
    ensures out.RpcErr? ==> out.err.code == ErrorInvalidParams
    ensures !out.OtherErr?
    ensures params.asToolCall.Some? ==>
              var exec := ExecuteTool(reg, params.asToolCall.value.name, params.asToolCall.value.arguments);
              && out.Ok? && out.result.Some? && out.result.value.ToolCalled?
              && (exec.err.Some? ==>
                    && out.result.value.call.isError
                    && out.result.value.call.content == [Content("text", "Error: " + exec.err.value)])
              && (exec.err.None? ==> out.result.value.call == exec.result)
  {
    match params.asToolCall
    case None => Rpc.RpcErr(NewInvalidParamsError("Invalid tool call parameters"))
    case Some(req) =>
      var exec := ExecuteTool(reg, req.name, req.arguments);
      if exec.err.Some? then
        Rpc.Ok(Some(ToolCalled(CallToolResult([Content("text", "Error: " + exec.err.value)], true))))
      else
        Rpc.Ok(Some(ToolCalled(exec.result)))
  }

  /** The failure result `tools/call` builds is the helper's failure result for the message
      with "Error: " in front. */
  lemma ToolCallFailureIsPrefixedToolCallError(reg: Registry, params: Params)
    requires params.asToolCall.Some?
    requires ExecuteTool(reg, params.asToolCall.value.name, params.asToolCall.value.arguments).err.Some?
    ensures HandleToolsCall(reg, params)
              == Rpc.Ok(Some(ToolCalled(NewToolCallError(
                   "Error: " + ExecuteTool(reg, params.asToolCall.value.name, params.asToolCall.value.arguments).err.value))))
  {
  }

  /** Adds the four MCP methods to `rpc`, bound to `reg`; the rest of the table is kept. */
  function RegisterHandlers(rpc: RpcServer, reg: Registry, order: seq<string>): (r: RpcServer)
    requires Servable(reg, order)
    ensures r.handlers.Keys == rpc.handlers.Keys + MethodNames
    ensures forall p :: r.handlers["initialize"](p) == HandleInitialize(p)
    ensures forall p :: r.handlers["initialized"](p) == HandleInitialized(p)
    ensures forall p :: r.handlers["tools/list"](p) == HandleToolsList(reg, order, p)
    ensures forall p :: r.handlers["tools/call"](p) == HandleToolsCall(reg, p)
    ensures forall m :: m in rpc.handlers && m !in MethodNames ==> r.handlers[m] == rpc.handlers[m]
  {
    var s1 := Rpc.RegisterMethod(rpc, "initialize", p => HandleInitialize(p));
    var s2 := Rpc.RegisterMethod(s1, "initialized", p => HandleInitialized(p));
    var s3 := Rpc.RegisterMethod(s2, "tools/list", p => HandleToolsList(reg, order, p));
    Rpc.RegisterMethod(s3, "tools/call", p => HandleToolsCall(reg, p))
  }

  /** A fresh server answers exactly the four MCP methods. `order` is the order in which
      every `tools/list` visits the registry's names. */
  function NewServer(reg: Registry, order: seq<string>): (s: Server)
    requires Servable(reg, order)
    ensures s.rpcServer.handlers.Keys == MethodNames
    ensures forall p :: s.rpcServer.handlers["initialize"](p) == HandleInitialize(p)
    ensures forall p :: s.rpcServer.handlers["initialized"](p) == HandleInitialized(p)
    ensures forall p :: s.rpcServer.handlers["tools/list"](p) == HandleToolsList(reg, order, p)
    ensures forall p :: s.rpcServer.handlers["tools/call"](p) == HandleToolsCall(reg, p)
    ensures s.toolRegistry == reg
  {
    Server(RegisterHandlers(Rpc.NewServer(), reg, order), reg)
  }

  /** A well-formed `initialize` request with decodable params is answered with the fixed
      version and identity, under the request's own identifier. */
  lemma InitializeScenario(reg: Registry, order: seq<string>, req: Request<Params>)
    requires Servable(reg, order)
    requires req.jsonrpc == "2.0" && req.methodName == "initialize"
    requires req.params.asInitialize.Some?
    ensures var r := Rpc.HandleRequest(NewServer(reg, order).rpcServer, req);
      && r.id == req.id && r.error.None?
      && r.result == Some(Initialized(InitializeReply))
      && r.result.value.init.protocolVersion == ProtocolVersion
      && r.result.value.init.serverInfo.name == ServerName
  {
  }

  /** A well-formed request for any other method is MethodNotFound, under its own id. */
  lemma UnknownMethodScenario(reg: Registry, order: seq<string>, req: Request<Params>)
    requires Servable(reg, order)
    requires req.jsonrpc == "2.0" && req.methodName != "" && req.methodName !in MethodNames
    ensures var r := Rpc.HandleRequest(NewServer(reg, order).rpcServer, req);
      && r.id == req.id && r.result.None?
      && r.error.Some? && r.error.value.code == ErrorMethodNotFound
  {
  }

  /** Calling a tool that is not registered is not a protocol error: the response has no
      error and its result is flagged as failed, naming the missing tool. */
  lemma UnknownToolScenario(reg: Registry, order: seq<string>, req: Request<Params>)
    requires Servable(reg, order)
    requires req.jsonrpc == "2.0" && req.methodName == "tools/call"
    requires req.params.asToolCall.Some? && req.params.asToolCall.value.name !in reg.handlers
    ensures var r := Rpc.HandleRequest(NewServer(reg, order).rpcServer, req);
      && r.id == req.id && r.error.None?
      && r.result.Some? && r.result.value.ToolCalled? && r.result.value.call.isError
      && r.result.value.call.content
           == [Content("text", "Error: tool not found: " + req.params.asToolCall.value.name)]
  {
    var s := NewServer(reg, order).rpcServer;
    assert s.handlers["tools/call"](req.params) == HandleToolsCall(reg, req.params);
    var name := req.params.asToolCall.value.name;
    assert "Error: " + ("tool not found: " + name) == "Error: tool not found: " + name;
  }

  /** Register a tool, then call it: when its handler succeeds, the response's result is
      exactly what the handler returned. */
  lemma ToolCallRoundTrip(reg: Registry, t: Tool, h: ToolFunc, order: seq<string>, req: Request<Params>)
    requires Servable(Register(reg, t, h), order)
    requires req.jsonrpc == "2.0" && req.methodName == "tools/call"
    requires req.params.asToolCall.Some? && req.params.asToolCall.value.name == t.name
    requires h(req.params.asToolCall.value.arguments).err.None?
    ensures var r := Rpc.HandleRequest(NewServer(Register(reg, t, h), order).rpcServer, req);
      && r.id == req.id && r.error.None?
      && r.result == Some(ToolCalled(h(req.params.asToolCall.value.arguments).result))
  {
  }

  /** `tools/list` answers with each registered tool exactly once, in some order. */
  lemma ToolsListScenario(reg: Registry, order: seq<string>, req: Request<Params>)
    requires Servable(reg, order)
    requires req.jsonrpc == "2.0" && req.methodName == "tools/list"
    ensures var r := Rpc.HandleRequest(NewServer(reg, order).rpcServer, req);
      && r.id == req.id && r.error.None?
      && r.result.Some? && r.result.value.ToolsListed?
      && |r.result.value.list.tools| == |reg.tools.Keys|
      && (forall i, j :: 0 <= i < j < |r.result.value.list.tools| ==>
            r.result.value.list.tools[i].name != r.result.value.list.tools[j].name)
      && (forall n :: n in reg.tools ==> reg.tools[n] in r.result.value.list.tools)
  {
    var s := NewServer(reg, order).rpcServer;
    assert s.handlers["tools/list"](req.params) == HandleToolsList(reg, order, req.params);
  }

  /** The `initialized` notification is handled but nothing is written for it. */
  lemma InitializedNotificationIsSilent(reg: Registry, order: seq<string>, req: Request<Params>)
    requires Servable(reg, order)
    requires req.methodName == "initialized" && req.id.None?
    ensures Rpc.ServeLine(NewServer(reg, order).rpcServer, Rpc.Decoded(req)).None?
  {
  }
}

# CartopherCopilot protocol core, modelled in Dafny

CartopherCopilot is an MCP (Model Context Protocol) server. It exposes e-commerce tools to an
agent over newline-framed JSON-RPC 2.0 on stdin/stdout. This project models the server's
protocol core and proves properties of it:

- **JSON-RPC layer** (`internal/jsonrpc`). It models the request, response and error records,
  request validation (version first, then method), the method table, and `HandleRequest`
  (validate, look up, invoke, respond). It maps handler outcomes to responses: a typed error
  passes through, any other error becomes an internal error. The `ServeStdio` loop is a fold
  over decoded input lines. An undecodable line always gets a parse error with a nil id. A
  decoded notification never gets a reply. The loop ends with nil at end of stream and with
  the error on any other read failure.
- **Tool registry** (`internal/mcp/registry.go`). Two maps are keyed by tool name.
  Registration is last-wins. Listing visits the names in an order the model leaves open, as
  Go's map iteration does. Execution either runs the registered handler or reports
  "tool not found".
- **MCP handlers** (`internal/mcp/server.go`, `helper.go`). These are the fixed `initialize`
  reply, the no-op `initialized`, and `tools/list`. `tools/call` reports every tool failure
  as a *successful* JSON-RPC result flagged `isError` with the text `"Error: " + message`.
  Only undecodable params are a protocol error (InvalidParams).

Files and modules:

| file | module | models |
|---|---|---|
| `wrappers.dfy` | `Wrappers` | `Option` (Go's nil) |
| `json.dfy` | `Json` | opaque decoded JSON values; non-null request ids |
| `jsonrpc_errors.dfy` | `JsonRpcErrors` | `internal/jsonrpc/errors.go` |
| `jsonrpc_types.dfy` | `JsonRpcTypes` | `internal/jsonrpc/types.go` |
| `jsonrpc_server.dfy` | `JsonRpcServer` | `internal/jsonrpc/server.go` |
| `mcp_types.dfy` | `McpTypes` | records of `internal/mcp/types.go` |
| `mcp_helper.dfy` | `McpHelper` | `internal/mcp/helper.go` |
| `mcp_registry.dfy` | `McpRegistry` | `internal/mcp/registry.go` |
| `mcp_server.dfy` | `McpServer` | `internal/mcp/server.go` |

Modelling choices:

- JSON decoding is abstract.
  - An input line is `Undecodable(cause)` or `Decoded(request)`.
  - An MCP request's raw `params` is a `Params` record. It holds what unmarshalling into
    `InitializeRequest` and into `CallToolRequest` would give, with `None` where it fails.
- The JSON-RPC layer is generic in the params type `P` and the result type `R`.
  - A handler is a total function `P -> Outcome<R>`.
  - `Outcome<R>` is `Ok(result)`, `RpcErr(error)` or `OtherErr(text)`.
  - `Ok(None)` is a nil result. `RpcErr` stands for any Go error whose chain holds a
    `*Error`, which `errors.As` finds.
- A tool handler returns both of Go's values as a `ToolOutcome(result, err)`.
- An id is `Option<Id>`, where `None` is Go's nil. `Json.Id` excludes JSON `null`, because
  an absent id or a JSON `null` id decodes to nil. Any other id, `0` and `""` included, is a
  non-nil `Id`, so such a request is not a notification.
- `Request.Validate` only ever returns an `*Error`. So the internal-error fallback after
  validation in `HandleRequest` (internal/jsonrpc/server.go:31-32) cannot be reached, and the
  model's `Validate` returns `Option<Error>`.
- `ReadBytes` returns an unterminated last line together with `io.EOF`. The loop then returns
  without handling that fragment. The model's `Eof` end discards it too.
- `ListTools` iterates a Go map.
  - The method `McpRegistry.ListTools` chooses each next name nondeterministically. It also
    reports the order it took as a ghost output.
  - `ListToolsIn(reg, order)` is the same listing for a given visiting order.
  - A server instance is built with one such order, which its `tools/list` handler uses.
    `McpServer.Servable(reg, order)` requires the registry to satisfy the invariant that
    `NewRegistry` and `Register` keep. It also requires `order` to visit each registered name
    exactly once, as one run of Go's map loop does. So every server the model can build lists
    each registered tool exactly once.
- A request whose method is `initialized` but that carries an id gets a response with
  neither result nor error (`HandleInitialized` returns nil, nil). The model keeps this:
  `Response.result` and `Response.error` are both `None` there.

## Model

| member | source | states |
|---|---|---|
| `JsonRpcErrors.CodesReservedAndDistinct` | internal/jsonrpc/errors.go:4-8 | the five codes are pairwise distinct and all lie in -32768..-32000, the range section 5.1 of the JSON-RPC 2.0 specification reserves |
| `JsonRpcTypes.Validate` | internal/jsonrpc/types.go:36-52 | no error exactly when the version is "2.0" and the method is non-empty; every failure is InvalidRequest; a bad version is reported by the version message, an empty method with a good version by the method message |
| `JsonRpcServer.NotificationIffUnanswered` | internal/jsonrpc/types.go:32-34 | being a notification means exactly a nil id, and exactly that no method table writes anything for the decoded request, whatever its version, method or params |
| `JsonRpcTypes.VersionCheckedFirst` | internal/jsonrpc/types.go:37-49 | a request with both a bad version and no method gets the version error |
| `JsonRpcTypes.NewResponse` | internal/jsonrpc/types.go:54-61 | every response has version "2.0" and echoes the given id, result and error |
| `JsonRpcTypes.NewErrorResponse` | internal/jsonrpc/types.go:63-65 | nil result, the given error, the given id |
| `JsonRpcTypes.NewSuccessResponse` | internal/jsonrpc/types.go:67-69 | nil error, the given result, the given id |
| `JsonRpcServer.NewServer` | internal/jsonrpc/server.go:99-104 | a new dispatcher has no methods |
| `JsonRpcServer.RegisterMethod` | internal/jsonrpc/server.go:19-22 | the method gets the new handler (last-wins); the method set grows by that name only; every other method keeps its handler |
| `JsonRpcServer.OutcomeResponse` | internal/jsonrpc/server.go:40-49 | a typed handler error is returned unchanged; any other error becomes code -32603; a success carries exactly the handler's result and no error; the id is echoed |
| `JsonRpcServer.HandleRequest` | internal/jsonrpc/server.go:24-50 | the response always has version "2.0" and the request's id; a validation failure is answered with that error; a bad version or empty method gives InvalidRequest; an unknown method gives MethodNotFound; otherwise the handler's outcome decides |
| `JsonRpcServer.InvalidRequestNeverDispatched` | internal/jsonrpc/server.go:27-33 | an invalid request gets the same response from any two method tables, so no handler is consulted |
| `JsonRpcServer.UnknownMethodNeverDispatched` | internal/jsonrpc/server.go:35-38 | an unregistered method gets MethodNotFound, independent of what else is registered |
| `JsonRpcServer.DispatchDependsOnlyOnOutcome` | internal/jsonrpc/server.go:40-49 | a registered method's response depends on its handler only through that handler's outcome on the request's params |
| `JsonRpcServer.DecodedAnsweredIffIdentified` | internal/jsonrpc/server.go:79-82 | a decoded request is written out exactly when it has an id, i.e. is not a notification, and then as `HandleRequest`'s response; a notification's response is dropped |
| `JsonRpcServer.ServeLine` | internal/jsonrpc/server.go:71-82 | a line is answered iff it is undecodable or not a notification; an undecodable line gets a parse error (-32700) with nil id and no result; a decoded non-notification gets exactly `HandleRequest`'s response |
| `JsonRpcServer.Replies` | internal/jsonrpc/server.go:58-83 | the loop's output has one entry per answered line, and never more entries than lines |
| `JsonRpcServer.RepliesAppend` | internal/jsonrpc/server.go:58-83 | output for two stretches of input is the first stretch's output followed by the second's |
| `JsonRpcServer.AnsweredFromPositions` | internal/jsonrpc/server.go:79-82 | the answered positions are answered lines, strictly increasing, and include every line that is undecodable or carries an id |
| `JsonRpcServer.RepliesFrom` | internal/jsonrpc/server.go:58-83 | the replies written for a stretch of input match the answered positions one for one |
| `JsonRpcServer.RepliesInInputOrder` | internal/jsonrpc/server.go:58-83 | the k-th response written answers the k-th answered line; answered positions strictly increase; every undecodable or non-notification line is among them |
| `JsonRpcServer.ServeStdio` | internal/jsonrpc/server.go:52-84 | the loop writes exactly the fold's output (one response per undecodable line or decoded non-notification, in order); it returns nil exactly at end of stream and the read error otherwise |
| `McpHelper.NewToolCallError` | internal/mcp/helper.go:3-13 | the result is flagged as an error and holds exactly one text item equal to the message, with no prefix |
| `McpRegistry.NewRegistry` | internal/mcp/registry.go:40-46 | a new registry has no tools and no handlers |
| `McpRegistry.NewRegistryListsNothing` | internal/mcp/registry.go:23-28 | a new registry lists nothing, for any order the loop visits names in |
| `McpRegistry.Register` | internal/mcp/registry.go:17-21 | after registration the name maps to the new record and handler; no other name changes; the registry invariant is kept |
| `McpRegistry.RegisterLastWins` | internal/mcp/registry.go:17-19 | registering a name twice is the same as registering only the second tool and handler |
| `McpRegistry.ListToolsIn` | internal/mcp/registry.go:23-28 | when every visited name is registered, the listing has one entry per visited name, each the record filed under that name |
| `McpRegistry.EnumerationListing` | internal/mcp/registry.go:23-28 | visiting each registered name once gives one entry per name, only registered records, every record present, and in a valid registry no name twice |
| `McpRegistry.ListingIsPermutation` | internal/mcp/registry.go:23-28 | in any visiting order, the listing of a valid registry has as many entries as names, each name once, each entry its registered record, every record present |
| `McpRegistry.ListingAfterRegister` | internal/mcp/registry.go:17-28 | after `Register(t, h)` every listing contains `t` |
| `McpRegistry.ListTools` | internal/mcp/registry.go:23-29 | visiting the map in some order: one entry per registered name, only registered records, every record present, distinct names in a valid registry |
| `McpRegistry.ExecuteTool` | internal/mcp/registry.go:31-38 | a registered name runs exactly its handler on the arguments; an unknown name gives the zero result and the error "tool not found: " + name |
| `McpRegistry.ExecuteAfterRegister` | internal/mcp/registry.go:17-19 | after `Register(t, h)`, executing `t.name` returns exactly `h(args)` |
| `McpRegistry.ExecuteOtherAfterRegister` | internal/mcp/registry.go:17-19 | registering one tool does not change how any other name executes |
| `McpServer.HandleInitialize` | internal/mcp/server.go:30-50 | undecodable params give InvalidParams; otherwise protocol version "2025-11-25", server info CartopherCopilot/1.0.0 and a tools capability with listChanged false |
| `McpServer.InitializeIgnoresClient` | internal/mcp/server.go:38-49 | the reply is the same whatever the client announced, so repeated calls agree |
| `McpServer.HandleInitialized` | internal/mcp/server.go:52-55 | nil result and no error for any params |
| `McpServer.HandleToolsList` | internal/mcp/server.go:57-65 | never fails; for a servable registry and order the result lists every registered tool exactly once, each as registered, as many entries as names |
| `McpServer.HandleToolsCall` | internal/mcp/server.go:67-94 | a protocol error occurs iff the params do not decode, and then it is InvalidParams; a failed execution yields a successful result flagged isError with the single text "Error: " + message; a successful execution's result is passed on unchanged, isError included |
| `McpServer.ToolCallFailureIsPrefixedToolCallError` | internal/mcp/server.go:78-91 | the failure result built by `tools/call` equals the helper's failure result for the message with "Error: " in front |
| `McpServer.RegisterHandlers` | internal/mcp/server.go:23-28 | exactly `initialize`, `initialized`, `tools/list` and `tools/call` are added, each bound to its handler; other methods are kept |
| `McpServer.NewServer` | internal/mcp/server.go:100-109 | a fresh server answers exactly the four MCP methods, each bound to its handler over the given registry, and keeps that registry |
| `McpServer.InitializeScenario` | internal/mcp/server.go:11-15 | a well-formed `initialize` gets the fixed version and server name, no error, and the request's id |
| `McpServer.UnknownMethodScenario` | internal/jsonrpc/server.go:35-38 | a well-formed request for any other method gets MethodNotFound with its own id |
| `McpServer.UnknownToolScenario` | internal/mcp/server.go:78-91 | calling an unregistered tool gives no JSON-RPC error and a result flagged isError with text "Error: tool not found: " + name |
| `McpServer.ToolCallRoundTrip` | internal/mcp/server.go:78-93 | register `t` with `h`, call it: if `h` succeeds, the response's result is exactly `h`'s result |
| `McpServer.ToolsListScenario` | internal/mcp/server.go:57-65 | `tools/list` answers with every registered tool exactly once, in some order |
| `McpServer.InitializedNotificationIsSilent` | internal/jsonrpc/server.go:79-82 | the `initialized` notification produces no output |

## Left out

- Real JSON parsing and marshalling are not modelled. Decoding is an abstract `Option` per line
  and per params target. The `json.Marshal` failure in `writeResponse`
  (internal/jsonrpc/server.go:86-97) is not modelled either.
- The `omitempty` wire details are not modelled. Go omits a nil id entirely rather than writing
  `"id": null`, and omits a nil result. The model keeps `None` instead.
- The bufio/stdin/stdout plumbing, flushing and all logging are I/O and are left out.
- `context.Context` is left out. It is only passed through to tool handlers.
- `Error.Error()` (internal/jsonrpc/types.go:28-30) is left out. Its `%v` formatting of
  arbitrary data is string formatting that no modelled decision depends on.
- `JsonRpcTypes.NewParseError`, `NewInternalError`, `NewMethodNotFoundError` and
  `NewInvalidParamsError` are defined elsewhere in the jsonrpc package and not modelled.
  Only their codes are known (internal/jsonrpc/errors.go:4-8). The model stores their
  argument as `data` under a placeholder message, and no contract states either.
- `McpServer.NewServer`: Go re-randomises map iteration on every `tools/list` call. The model
  uses one visiting order per server instance, so two listings within one session come out in
  the same order. Every listing is still a permutation of the registered tools, since the
  order must be `Servable`. Go's server also holds a pointer to the registry, so a tool
  registered after `NewServer` would still be listed and callable. The model copies the
  registry into the server when it is built, and so assumes that registration ends before
  `NewServer`, as the bootstrap does.
- The tool implementations (products, cart, orders), their data records, the REST client,
  configuration and bootstrap are left out. They reach the core only as opaque `ToolFunc`
  outcomes.
- Go's exported `Registry.Handlers` field can be written by other packages. The model's
  registry changes only through `Register`.

/** The MCP records exchanged by the handshake and the tool methods. */
module McpTypes {
  import opened Wrappers
  import opened Json

  datatype ClientInfo = ClientInfo(name: string, version: string)

  datatype ClientCapabilities = ClientCapabilities(experimental: map<string, Value>, sampling: map<string, Value>)

  /** The params of `initialize`; the server logs them and otherwise ignores them. */
  datatype InitializeRequest = InitializeRequest(protocolVersion: string, capabilities: ClientCapabilities, clientInfo: ClientInfo)

  datatype ToolsCapability = ToolsCapability(listChanged: bool)
  datatype ResourcesCapability = ResourcesCapability(subscribe: bool, listChanged: bool)
  datatype PromptsCapability = PromptsCapability(listChanged: bool)

  /** Each capability is optional (a nil pointer in the wire record). */
  datatype ServerCapabilities = ServerCapabilities(
    tools: Option<ToolsCapability>,
    resources: Option<ResourcesCapability>,
    prompts: Option<PromptsCapability>)

  datatype ServerInfo = ServerInfo(name: string, version: string)

  datatype InitializeResult = InitializeResult(protocolVersion: string, capabilities: ServerCapabilities, serverInfo: ServerInfo)

  datatype Items = Items(itemType: string)

  datatype Property = Property(propertyType: string, description: string, items: Option<Items>, enumValues: seq<string>)

  datatype InputSchema = InputSchema(schemaType: string, properties: map<string, Property>, required: seq<string>)

  /** A tool's discovery record; `name` is its registry key. */
  datatype Tool = Tool(name: string, description: string, inputSchema: InputSchema)

  datatype ToolsListResult = ToolsListResult(tools: seq<Tool>)

  datatype CallToolRequest = CallToolRequest(name: string, arguments: map<string, Value>)

  datatype Content = Content(contentType: string, text: string)

  /** What a tool call reports: a failed tool is data (`isError`), not a protocol error. */
  datatype CallToolResult = CallToolResult(content: seq<Content>, isError: bool)

  /** Go's zero `CallToolResult`: no content, not an error. */
  const EmptyCallToolResult: CallToolResult := CallToolResult([], false)

  /** The raw `params` of an MCP request, seen through the two decodings the handlers
      attempt: each is `None` exactly when unmarshalling into that record fails. */
  datatype Params = Params(asInitialize: Option<InitializeRequest>, asToolCall: Option<CallToolRequest>)

  /** The results the MCP handlers hand back to the JSON-RPC layer. */
  datatype McpResult =
    | Initialized(init: InitializeResult)
    | ToolsListed(list: ToolsListResult)
    | ToolCalled(call: CallToolResult)
}

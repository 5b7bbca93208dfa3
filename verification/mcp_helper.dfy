/** The tool-side constructor for a failed tool call. */
module McpHelper {
  import opened McpTypes

  /** A failed tool call reported as data: one text item holding `message` verbatim (no
      "Error: " prefix is added here) and the error flag set. */
  function NewToolCallError(message: string): (r: CallToolResult)
    ensures r.isError
    ensures |r.content| == 1
    ensures r.content[0].contentType == "text"
    ensures r.content[0].text == message
  {
    CallToolResult([Content("text", message)], true)
  }
}

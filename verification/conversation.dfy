/** The chat transcript exchanged with the language model: user turns made of
    content parts, assistant turns, assistant turns that request tools, and
    tool results. */
module Conversation {
  import opened Wrappers
  import Tools

  /** A content part of a user turn. */
  datatype Part = TextPart(text: string) | ImageUrl(url: string)

  /** The arguments of a tool call as far as the tools read them; a missing
      string argument is the empty string. */
  datatype Args = Args(query: string, country: string, table: Tools.Table, message: string, duration: string)

  /** A requested tool call; `arguments` is `None` when the argument text is
      not valid JSON. */
  datatype ToolCall = ToolCall(id: string, name: string, arguments: Option<Args>)

  /** What a tool result carries: the search results (sent as JSON), or a
      fixed note. */
  datatype ToolContent = SearchJson(results: seq<Tools.SearchResult>) | Note(text: string)

  datatype Turn =
    | User(parts: seq<Part>)
    | Assistant(text: string)
    | AssistantCalls(calls: seq<ToolCall>)
    | Tool(callId: string, name: string, content: ToolContent)
}

/** Chat messages as the agent passes them to the model and stores them in checkpoints. */
module Messages {
  import opened Wrappers

  datatype Role = System | User | Assistant | Tool

  datatype ToolCall = ToolCall(id: string, name: string, arguments: string)

  datatype ChatMessage = ChatMessage(
    role: Role,
    content: string,
    toolCallId: Option<string>,
    name: Option<string>,
    toolCalls: Option<seq<ToolCall>>)

  function UserMessage(content: string): ChatMessage {
    ChatMessage(User, content, None, None, None)
  }

  function AssistantMessage(content: string): ChatMessage {
    ChatMessage(Assistant, content, None, None, None)
  }

  // The assistant message that opens a block of tool calls; an empty list is left out of it.
  function AssistantWithToolCalls(content: Option<string>, calls: seq<ToolCall>): ChatMessage {
    ChatMessage(Assistant, if content.Some? then content.value else "", None, None,
                if calls == [] then None else Some(calls))
  }

  function ToolResult(callId: string, name: string, content: string): ChatMessage {
    ChatMessage(Tool, content, Some(callId), Some(name), None)
  }
}

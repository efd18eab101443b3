/** The conversation messages a subagent inherits (src/agent/run_agent.py:221-272 and
    src/agent/fork_subagent.py read them by role and block type). */
module AgentMessages {
  import opened Unicode
  import opened Json

  // An id that is not a string keeps only its `str(id or "")` form.
  datatype Id = Name(name: Text) | NotText(shown: Text)

  datatype Block =
    | TextBlock(text: Text)
    | ToolUse(id: Id, tool: Text, input: Json)
    | ToolResult(toolUseId: Id, result: Json)
    | OtherBlock(payload: Json)

  datatype Content = Plain(text: Text) | Blocks(blocks: seq<Block>)

  // `extra` stands for the other fields: timestamp, model, usage and so on.
  datatype Message =
    | UserMessage(content: Content, uuid: Text, extra: Json)
    | AssistantMessage(content: Content, uuid: Text, extra: Json)
    | OtherMessage(uuid: Text, extra: Json)

  function BlocksOf(m: Message): seq<Block> {
    if !m.OtherMessage? && m.content.Blocks? then m.content.blocks else []
  }
}

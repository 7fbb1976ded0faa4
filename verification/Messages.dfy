/** Conversation turns (agentcook-core/src/agentcook_core/types.py). */
module Messages {
  import opened Wrappers

  datatype Role = System | User | Assistant | Tool

  /** The items of an argument dictionary, in insertion order, values in printed form. */
  type Arguments = seq<(string, string)>

  datatype ToolCall = ToolCall(id: string, name: string, arguments: Arguments)

  datatype MetaValue = Text(text: string) | Number(number: nat)

  /** `toolCalls` is empty both for an absent and for an empty tuple: the code only tests truth. */
  datatype Message = Message(
    role: Role,
    content: string,
    name: Option<string>,
    toolCalls: seq<ToolCall>,
    toolCallId: Option<string>,
    metadata: map<string, MetaValue>)

  function IsSystem(): Message -> bool {
    (m: Message) => m.role == System
  }

  function SystemMessage(content: string, metadata: map<string, MetaValue>): Message {
    Message(System, content, None, [], None, metadata)
  }
}

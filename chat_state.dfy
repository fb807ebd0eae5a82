/** The chat message list the handlers of app/components/chat/handlers/ work
    on (`MessageType` of app/utils/types.ts), threaded through the model as a
    value in place of React state. */
module ChatState {
  import opened Wrappers

  datatype Role = User | Assistant

  /** A chat message; `error` and `id` are optional fields. */
  datatype Message = Message(role: Role, text: string, error: Option<bool>, id: Option<string>)

  /** `appendMessage(role, text, error, id)` of app/hooks/useChat.ts: the new
      message goes at the end, built from exactly the arguments given. */
  function AppendMessage(msgs: seq<Message>, role: Role, text: string, error: Option<bool>, id: Option<string>): (r: seq<Message>)
    ensures |r| == |msgs| + 1 && r[..|msgs|] == msgs
    ensures r[|msgs|] == Message(role, text, error, id)
  {
    msgs + [Message(role, text, error, id)]
  }

  /** Appending an error text, as every handler does on failure. */
  function AppendError(msgs: seq<Message>, text: string): seq<Message> {
    AppendMessage(msgs, Assistant, text, Some(true), None)
  }
}

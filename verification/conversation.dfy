/** Role-tagged messages and the per-session message log (`ChatMessage` and
    `SimpleChatHistory` in backend/services/chat_service.py). */
module Conversation {

  datatype Role = System | User | Assistant

  /** One turn; immutable once created. */
  datatype Message = Message(role: Role, content: string)

  /** The messages of one session, oldest first. */
  datatype ChatHistory = ChatHistory(messages: seq<Message>)

  const EmptyHistory := ChatHistory([])

  /** `add_user_message`: one user turn at the end; earlier turns keep their
      places. */
  function AddUserMessage(h: ChatHistory, message: string): (h': ChatHistory)
    ensures |h'.messages| == |h.messages| + 1
    ensures h.messages <= h'.messages
    ensures h'.messages[|h.messages|] == Message(User, message)
  {
    ChatHistory(h.messages + [Message(User, message)])
  }

  /** `add_ai_message`: one assistant turn at the end; earlier turns keep
      their places. */
  function AddAiMessage(h: ChatHistory, message: string): (h': ChatHistory)
    ensures |h'.messages| == |h.messages| + 1
    ensures h.messages <= h'.messages
    ensures h'.messages[|h.messages|] == Message(Assistant, message)
  {
    ChatHistory(h.messages + [Message(Assistant, message)])
  }

  /** `clear`: drops every message. */
  function Clear(h: ChatHistory): (h': ChatHistory)
    ensures |h'.messages| == 0
  {
    EmptyHistory
  }

  /** `__len__`. */
  function Length(h: ChatHistory): (n: nat)
    ensures n == |h.messages|
  {
    |h.messages|
  }

  /** The length counts the turns the operations add and drop: one per
      `add_user_message` or `add_ai_message`, none left after `clear`. */
  lemma LengthCountsTurns(h: ChatHistory, prompt: string, reply: string)
    ensures Length(AddUserMessage(h, prompt)) == Length(h) + 1
    ensures Length(AddAiMessage(h, reply)) == Length(h) + 1
    ensures Length(AddAiMessage(AddUserMessage(h, prompt), reply)) == Length(h) + 2
    ensures Length(Clear(h)) == 0
  {
  }
}

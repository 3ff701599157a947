/** Building the turn list sent to the language model (`_format_conversation`)
    and post-processing its reply (the tail of `_generate_response`). */
module Prompt {
  import opened Conversation
  import opened Text
  import PySlice

  const SystemPrompt: string :=
    "You are a knowledgeable world history expert. Provide accurate, detailed, and engaging historical information."

  const SystemMessage := Message(System, SystemPrompt)

  /** The last `min(|xs|, k)` elements of `xs`. */
  function Recent<T>(xs: seq<T>, k: nat): (r: seq<T>)
    ensures |r| == if |xs| < k then |xs| else k
    ensures r == xs[|xs| - |r|..]
  {
    if |xs| < k then xs else xs[|xs| - k..]
  }

  /** `_format_conversation(history, prompt)` with `MAX_HISTORY_LENGTH` as
      `maxHistory`: the system turn, the stored turns and the new user turn,
      trimmed with a Python negative slice when longer than
      `2 * maxHistory + 1` entries. */
  function FormatConversation(history: ChatHistory, prompt: string, maxHistory: int): (r: seq<Message>)
    ensures |r| >= 1 && r[0] == SystemMessage
    ensures maxHistory >= 0 ==> |r| >= 2 && r[|r| - 1] == Message(User, prompt)
    ensures maxHistory >= 1 ==> |r| <= 2 * maxHistory + 1
    ensures |history.messages| + 2 <= 2 * maxHistory + 1 ==>
              r == [SystemMessage] + history.messages + [Message(User, prompt)]
    ensures maxHistory >= 1 && |history.messages| + 2 > 2 * maxHistory + 1 ==>
              |r| == 2 * maxHistory + 1
  {
    var messages := [SystemMessage] + history.messages + [Message(User, prompt)];
    var maxMessages := maxHistory * 2 + 1;
    if |messages| > maxMessages then
      [messages[0]] + PySlice.Drop(messages, -(maxMessages - 1))
    else
      messages
  }

  /** The window rule in its declarative form: for a positive pair count `n`,
      the model sees the system turn followed by the most recent
      `min(|history| + 1, 2n)` of the stored turns and the new user turn. */
  lemma FormatKeepsRecentWindow(history: ChatHistory, prompt: string, n: int)
    requires n >= 1
    ensures FormatConversation(history, prompt, n)
         == [SystemMessage] + Recent(history.messages + [Message(User, prompt)], 2 * n)
  {
    var turns := history.messages + [Message(User, prompt)];
    var messages := [SystemMessage] + turns;
    assert messages == [SystemMessage] + history.messages + [Message(User, prompt)];
    if |messages| > 2 * n + 1 {
      assert messages[|messages| - 2 * n..] == turns[|turns| - 2 * n..];
    }
  }

  /** With a pair count of 0 the slice `messages[-0:]` is the whole list, so
      the system turn is sent twice and nothing is trimmed. */
  lemma FormatZeroWindowDuplicatesSystem(history: ChatHistory, prompt: string)
    ensures FormatConversation(history, prompt, 0)
         == [SystemMessage, SystemMessage] + history.messages + [Message(User, prompt)]
    ensures |FormatConversation(history, prompt, 0)| == |history.messages| + 3
  {
    var messages := [SystemMessage] + history.messages + [Message(User, prompt)];
    assert PySlice.Bound(0, |messages|) == 0;
    assert PySlice.Drop(messages, -(0 * 2 + 1 - 1)) == messages;
    assert [messages[0]] + messages
        == [SystemMessage, SystemMessage] + history.messages + [Message(User, prompt)];
  }

  /** With one pair and three stored round trips, the model sees the system
      turn, the last assistant turn and the new user turn: three entries. */
  lemma FormatOneWindowExample(history: ChatHistory, prompt: string)
    requires |history.messages| == 6
    ensures FormatConversation(history, prompt, 1)
         == [SystemMessage, history.messages[5], Message(User, prompt)]
  {
    FormatKeepsRecentWindow(history, prompt, 1);
  }

  /** The fixed reply used instead of a degenerate one (written in pieces,
      which lets the verifier evaluate its characters). */
  const Apology: string :=
    "I apologize, but I couldn't " + "generate a proper response. "
    + "Please try rephrasing your " + "question."

  const MinReplyLength := 5

  lemma ApologyIsTrimmed()
    ensures NoEdgeSpace(Apology) && |Apology| >= MinReplyLength
  {
  }

  /** The degenerate-output check: a reply shorter than five characters
      (the empty reply included) is replaced by the fixed apology. */
  function ApplyFallback(response: string): (r: string)
    ensures r == response <==> |response| >= MinReplyLength
    ensures r != response ==> r == Apology
    ensures |r| >= MinReplyLength
  {
    if |response| == 0 || |response| < MinReplyLength then Apology else response
  }

  /** The decoded model output after `.strip()` and the fallback check: never
      shorter than five characters and never padded by whitespace. */
  function FinishReply(decoded: string): (r: string)
    ensures r == Strip(decoded) || r == Apology
    ensures r == Strip(decoded) <==> |Strip(decoded)| >= MinReplyLength
    ensures |r| >= MinReplyLength && NoEdgeSpace(r)
  {
    ApologyIsTrimmed();
    ApplyFallback(Strip(decoded))
  }
}

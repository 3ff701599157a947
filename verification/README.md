# Chat session manager: a Dafny model

This project models the conversation core of a small HTTP chat backend that
serves a locally loaded language model. The model covers these parts:

- **The session store** of `ChatService`. It is two dicts: `session_store`
  maps a session id to its `SimpleChatHistory`, and `session_created` maps the
  id to its creation time. The model also keeps the insertion order of
  `session_store`, because `get_all_sessions` lists sessions in that order.
- **The prompt window** (`_format_conversation`). It builds the system turn,
  the stored turns and the new user turn. When that list is longer than
  `2 * MAX_HISTORY_LENGTH + 1`, it keeps the system turn and the most recent
  `2 * MAX_HISTORY_LENGTH` entries.
- **The reply post-processing** of `_generate_response`. The decoded reply is
  stripped. A reply shorter than five characters becomes a fixed apology.
- **The `chat` orchestration.** The model must be loaded. The session is then
  found or created, the prompt is windowed and the model is asked. The user
  turn and then the answer are appended, and only when the model answered.
- **The `ChatRequest` validation** of the `/chat` body.
- **The string helpers** `validate_session_id`, `sanitize_input`,
  `truncate_text` and `extract_error_message`.

Everything is a pure function over immutable values. The language model is a
parameter: a total function from the turn list to `Generated(text)` or
`Failed(reason)`. The clock is a parameter too: a `Timestamp` passed in as
`now`. `MAX_HISTORY_LENGTH` is the integer `maxHistory` of the `Service`
value. Python's `str.strip`, `str.split` with a one-character separator,
substring tests and slicing are modelled exactly. This includes negative
slice bounds and the full `str.isspace` character set (module `Text`, module `PySlice`).

Modules: `Wrappers` (results), `PySlice`, `Text`, `Conversation`
(`ChatMessage`, `SimpleChatHistory`), `Prompt`, `Sessions`, `ChatService`,
`Helpers` (backend/utils/helpers.py), `Schemas` (backend/models/schemas.py).

The store invariant is `Sessions.Valid`. It requires that both dicts have the
same keys, and that the insertion order lists each key exactly once. Every
store operation preserves it. `ChatService.RunPreservesValid` extends this to
any sequence of requests.

Two facts about `_format_conversation` that are easy to miss:

- The new user turn is part of the windowed list, so it counts toward the
  `2N + 1` cap. With one history pair and three stored round trips, the
  model sees three turns: the system turn, the last assistant turn and the
  new user turn (`Prompt.FormatOneWindowExample`). In general the window is
  the system turn followed by the last `2N` entries of history ++ [user turn]
  (`Prompt.FormatKeepsRecentWindow`).
- With `MAX_HISTORY_LENGTH = 0` the slice `messages[-0:]` is the whole list,
  so the system turn is sent twice (`Prompt.FormatZeroWindowDuplicatesSystem`).

## Model

| member | source | states |
|---|---|---|
| Conversation.AddUserMessage | backend/services/chat_service.py:55-58 | one user message is added at the end; every earlier message keeps its place (append-only) |
| Conversation.AddAiMessage | backend/services/chat_service.py:60-63 | one assistant message is added at the end; every earlier message keeps its place |
| Conversation.Clear | backend/services/chat_service.py:65-69 | a cleared history has no messages |
| Conversation.Length | backend/services/chat_service.py:71-72 | the length is the number of stored messages |
| Conversation.LengthCountsTurns | backend/services/chat_service.py:55-72 | `len` grows by one per `add_user_message` or `add_ai_message` (by two for a recorded turn) and is 0 after `clear` |
| Prompt.FormatConversation | backend/services/chat_service.py:224-254 | the list starts with the fixed system turn; for a pair count of at least 0 it ends with the new user turn; for a pair count of at least 1 it has at most 2N+1 entries, exactly 2N+1 when trimmed; untrimmed it is system ++ history ++ [user], i.e. length len(history)+2 |
| Prompt.FormatKeepsRecentWindow | backend/services/chat_service.py:245-250 | for N >= 1 the list is the system turn followed by the last min(len(history)+1, 2N) entries of history ++ [user prompt], an order-preserving suffix |
| Prompt.FormatZeroWindowDuplicatesSystem | backend/services/chat_service.py:245-250 | with N = 0, `messages[-0:]` is the whole list, so the system turn is sent twice and the list has len(history)+3 entries, above the 2N+1 bound |
| Prompt.FormatOneWindowExample | backend/services/chat_service.py:245-250 | with N = 1 and six stored messages the model sees exactly the system turn, the sixth stored message and the new user turn |
| Prompt.ApplyFallback | backend/services/chat_service.py:304-310 | the reply is kept exactly when it has at least 5 characters, and is otherwise replaced by the apology; the result always has at least 5 characters |
| Prompt.FinishReply | backend/services/chat_service.py:297-310 | the result is either the stripped decoded text (exactly when that has at least 5 characters) or the apology; it never has edge whitespace |
| ChatService.GenerateResponse | backend/services/chat_service.py:256-314 | succeeds exactly when the model produced text, with the finished reply; a model failure becomes an error whose message is "Failed to generate response: " followed by the cause |
| ChatService.RecordTurn | backend/services/chat_service.py:337-339 | the session's messages become old ++ [user prompt, assistant reply]; creation times and other sessions are unchanged; the invariant is kept |
| ChatService.Converse | backend/services/chat_service.py:327-348 | after the loaded check: the session exists afterwards (created with `now` and listed last if it was new, the listing otherwise unchanged) even when generation fails; messages grow by the user turn then the reply on success, and are unchanged on failure |
| ChatService.Chat | backend/services/chat_service.py:316-348 | an unloaded model is refused with the fixed message before any session is created; otherwise the session exists afterwards, a new one created at `now` and listed last with the listing otherwise unchanged; success holds exactly when the model answers the windowed prompt, the answer is the finished reply, the session's messages become old ++ [user, answer] (growing by exactly 2) and stay unchanged on failure, and the invariant is kept |
| ChatService.ChatLeavesOtherSessions | backend/services/chat_service.py:316-348 | a chat request changes neither the history nor the creation time of any other session |
| ChatService.ChatCountsTurn | backend/services/chat_service.py:327-348 | after a chat request on a loaded model the session exists, its message count grows by 2 exactly when the model answered, and its reported creation time is `now` for a new session and unchanged for an existing one |
| ChatService.RunPreservesValid | backend/services/chat_service.py:87-88 | every sequence of get/chat/clear/delete requests keeps the two dicts on the same key set with a duplicate-free insertion order |
| ChatService.StepKeepsCreatedTime | backend/services/chat_service.py:216-222 | one get, chat or clear request (anything except deleting that id) leaves an existing session's creation time unchanged |
| ChatService.RunKeepsCreatedTime | backend/services/chat_service.py:350-362 | across any sequence of requests without a delete of that id, a session's creation time is set once and never changed, clears included |
| ChatService.ChatAppendsOnly | backend/services/chat_service.py:329-339 | a chat request extends its session's messages at the end, by 2 when the model is loaded and answers and by 0 otherwise |
| ChatService.StepAppendsOnly | backend/services/chat_service.py:329-339 | any request other than a clear or delete of an id only extends that id's messages at the end, by exactly 2 for an answered chat request |
| ChatService.RunAppendsOnly | backend/services/chat_service.py:55-63 | without a clear or delete of an id, its stored messages are never reordered or shortened, and grow by exactly two per answered chat request, so stored history is unbounded while each prompt is windowed |
| Sessions.EmptyStoreValid | backend/services/chat_service.py:87-88 | the freshly constructed store (two empty dicts) satisfies the invariant |
| Sessions.GetSessionHistory | backend/services/chat_service.py:216-222 | a known id returns its history and changes nothing; an unseen id gets an empty history, its creation time `now`, and a place at the end of the order, and the session count grows by one; other sessions are untouched; the invariant is kept |
| Sessions.ClearHistory | backend/services/chat_service.py:350-354 | an existing session is emptied but keeps its id, its creation time and its place in the order; an unknown id changes nothing; other sessions are untouched; the invariant is kept |
| Sessions.RemoveId | backend/services/chat_service.py:359 | removing a key from the insertion order keeps exactly the other keys, as a subsequence (same relative order), still without duplicates; an absent key changes nothing |
| Sessions.SubsequenceKeepsOrder | backend/services/chat_service.py:378-386 | any two entries of a subsequence appear in the same order in the original list (`Before`: some index of the first precedes some index of the second) |
| Sessions.DeleteSession | backend/services/chat_service.py:356-362 | the id leaves both dicts and the order, whose remaining keys keep their relative order, and the session count drops by one; an unknown id changes nothing; other sessions are untouched; the invariant is kept |
| Sessions.DeleteKeepsListingOrder | backend/services/chat_service.py:356-362 | after a delete, any two listed sessions appear in the same order as they did before |
| Sessions.DeleteForgetsSession | backend/services/chat_service.py:356-390 | after a delete the id does not exist, reports 0 messages and the clock reading as its creation time, and a stored id leaves one fewer active session |
| Sessions.MessageCount | backend/services/chat_service.py:364-368 | 0 for an absent id, otherwise the number of stored messages |
| Sessions.SessionExists | backend/services/chat_service.py:370-372 | under the invariant, membership in `session_store` and in `session_created` agree; a missing session has message count 0 |
| Sessions.OrderCoversSessions | backend/services/chat_service.py:378-386 | under the invariant, the ids in the iteration order are exactly the stored ids, and there are as many of them as stored sessions |
| Sessions.ActiveSessionsCount | backend/services/chat_service.py:374-376 | the number of stored ids, which under the invariant is the length of the iteration order |
| Sessions.AllSessions | backend/services/chat_service.py:378-386 | one summary per stored id, in insertion order, each with that id's message count; under the invariant its length equals the active session count and its ids are exactly the stored ids |
| Sessions.SessionCreatedTime | backend/services/chat_service.py:388-390 | the recorded creation time, or the clock reading supplied for an unknown id |
| Sessions.GetCreatesSession | backend/services/chat_service.py:216-222 | after `get_session_history` of an unseen id the session exists with 0 messages and reports `now` as its creation time at any later query |
| Sessions.ClearKeepsSession | backend/services/chat_service.py:350-354 | after clearing an existing session it still exists, reports 0 messages and reports the same creation time as before |
| Text.StripPadded | backend/utils/helpers.py:42 | `strip()` of whitespace ++ m ++ whitespace is m whenever m has no edge whitespace, so the result is the unique such infix |
| Text.StripAllSpace | backend/models/schemas.py:24 | `not v.strip()` holds exactly when every character of v is whitespace |
| Text.StripIdempotent | backend/utils/helpers.py:42 | stripping twice is the same as stripping once |
| Text.SplitJoin | backend/utils/helpers.py:97 | `split("\n")` round-trips with joining on "\n"; the pieces are never an empty list and contain no newline |
| Text.LastPartIsTail | backend/utils/helpers.py:97-98 | `lines[-1]` is the suffix after the last newline: it has no newline, it is the whole text when there is no newline, and otherwise a newline precedes it |
| Helpers.ValidateSessionId | backend/utils/helpers.py:9-24 | false for any id shorter than 5 characters (the empty one included); for longer ids, true exactly when it is a non-empty run of `[A-Za-z0-9_-]`, optionally followed by one final newline that Python's `$` accepts |
| Helpers.SanitizeInput | backend/utils/helpers.py:27-48 | the limit defaults to 5000; the empty input gives ""; the result is a prefix of the stripped input, of length min(len(stripped), max_length) for a non-negative limit, and with a negative limit that many characters are cut from the end |
| Helpers.DefaultLimits | backend/utils/helpers.py:27-80 | called with the default arguments, `sanitize_input` returns at most 5000 characters, and `truncate_text` returns text of at most 100 characters unchanged and longer text cut to exactly 100 characters ending in "..." |
| Helpers.SanitizeWithinLimit | backend/utils/helpers.py:41-48 | when the stripped input fits the limit, sanitising is stripping and a second pass changes nothing |
| Helpers.SanitizeNotIdempotent | backend/utils/helpers.py:41-48 | sanitize_input("ab c", 3) is "ab ", and sanitising that again gives "ab": cutting can expose trailing whitespace |
| Helpers.TruncateText | backend/utils/helpers.py:66-80 | the limit defaults to 100 and the suffix to "..."; input within the limit is returned unchanged; otherwise the result ends with the suffix and is preceded by a prefix of text whose length follows Python's slice `[:max_length-len(suffix)]` (counted from the end when negative); for max_length >= len(suffix) the result is exactly max_length long |
| Helpers.TruncateShortLimitOvershoots | backend/utils/helpers.py:80 | with a limit shorter than the suffix the slice bound is negative: truncate_text("abcdef", 2, "...") is "abcde...", longer than the limit |
| Helpers.ExtractErrorMessage | backend/utils/helpers.py:83-100 | the result has no edge whitespace; without "Traceback" it is the stripped message; with it, it is the stripped last line and contains no newline |
| Helpers.ExtractTakesLastLine | backend/utils/helpers.py:96-100 | with "Traceback" present, the result is the stripped text after the last newline (the whole message if it has none) |
| Schemas.PromptNotEmpty | backend/models/schemas.py:22-26 | rejects exactly the all-whitespace prompts; otherwise returns the stripped prompt, which is non-empty |
| Schemas.ValidateSessionFormat | backend/models/schemas.py:28-33 | accepts exactly the ids of at least 5 characters and returns them unchanged |
| Schemas.ValidatePromptField | backend/models/schemas.py:10-26 | accepted exactly when the raw length is in [1, 5000] and not all whitespace, giving the stripped prompt; a rejection names which of the three conditions failed |
| Schemas.ValidateSessionIdField | backend/models/schemas.py:16-33 | accepted exactly when the id has at least 5 characters, unchanged |
| Schemas.ValidateChatRequest | backend/models/schemas.py:8-33 | a request is accepted exactly when both fields are; an accepted prompt is stored stripped, non-empty, without edge whitespace and at most 5000 characters long, and the id is unchanged; a rejection lists one error per failing field and names each failure |
| Schemas.EmptyPromptRejected | test.py:128-143 | a request with an empty prompt is rejected as too short, whatever the session id |

## Left out

- Model and tokenizer loading and device choice (`_get_device`, `_load_model`): these are calls into torch and transformers and checks on the filesystem. Their only effect on the model is the `modelLoaded` flag, which stands for `is_model_loaded()`.
- The generation itself (chat template, tokenisation, sampling, decoding): these are foreign calls, and temperature and top-p are floats. The model is the `generate` parameter, and the `.strip()` of the decoded text and the fallback are modelled.
- Clocks: `datetime.now()` is the `now` parameter, and `format_timestamp` is not modelled because it only formats the clock.
- The global `chat_service` instance and its fall back to `None` on import: this is an import-time side effect.
- `async` and concurrent requests on one session: requests are applied one after another (`ChatService.Run`).
- The HTTP routes, status codes, app setup, CORS, logging and environment settings: only `MAX_HISTORY_LENGTH` enters, as `maxHistory`.
- The response and health schemas other than `ChatRequest`: these are plain data containers.
- The wording of pydantic's own constraint errors: the model names which check failed (`RequestError`), not the library's message text.
- `ChatMessage.__repr__` and all log messages.
- Prompt.FormatConversation: for a negative `MAX_HISTORY_LENGTH` only the leading system turn is stated. The Python slice arithmetic is modelled exactly, but no bound is claimed for that configuration.

/** `ChatService.chat` and `_generate_response`: resolve the session, build
    the prompt, ask the language model, and record the turn only when the
    model answered. The model itself is a parameter: a function from the
    turn list to either decoded text or the reason it failed. */
module ChatService {
  import opened Wrappers
  import opened Text
  import opened Conversation
  import opened Prompt
  import opened Sessions

  /** What the language model did with one turn list. */
  datatype Generation = Generated(text: string) | Failed(reason: string)

  datatype ChatError = NotLoaded(message: string) | GenerationError(message: string)

  /** The service's state: the session store, whether the model is loaded,
      and the configured `MAX_HISTORY_LENGTH`. */
  datatype Service = Service(store: Store, modelLoaded: bool, maxHistory: int)

  datatype ChatOutcome = ChatOutcome(service: Service, answer: Result<string, ChatError>)

  const NotLoadedMessage: string :=
    "Model is not loaded. Please check server logs. "
    + "The model should load automatically on startup."

  const GenerationErrorPrefix: string := "Failed to generate response: "

  /** `_generate_response`: a failure of the model becomes a `RuntimeError`
      whose text names the cause; a reply is stripped and, when degenerate,
      replaced by the apology. */
  function GenerateResponse(messages: seq<Message>, generate: seq<Message> -> Generation): (r: Result<string, ChatError>)
    ensures r.Ok? <==> generate(messages).Generated?
    ensures r.Ok? ==> r.value == FinishReply(generate(messages).text)
    ensures r.Ok? ==> |r.value| >= MinReplyLength && NoEdgeSpace(r.value)
    ensures r.Err? ==> r.error == GenerationError(GenerationErrorPrefix + generate(messages).reason)
  {
    match generate(messages)
    case Failed(reason) => Err(GenerationError(GenerationErrorPrefix + reason))
    case Generated(text) => Ok(FinishReply(text))
  }

  /** The history update after a successful generation: the user turn, then
      the assistant turn, at the end of the session's messages. */
  function RecordTurn(s: Store, id: SessionId, prompt: string, response: string): (r: Store)
    requires id in s.histories
    ensures id in r.histories
    ensures MessagesOf(r, id) == MessagesOf(s, id) + [Message(User, prompt), Message(Assistant, response)]
    ensures r.created == s.created && r.order == s.order
    ensures forall other :: other != id ==> SameSession(s, r, other)
    ensures Valid(s) ==> Valid(r)
  {
    ReplaceHistory(s, id, AddAiMessage(AddUserMessage(s.histories[id], prompt), response))
  }

  /** The turn list the model is given for `prompt` in session `id`. */
  function PromptFor(s: Store, id: SessionId, prompt: string, maxHistory: int): (window: seq<Message>)
  {
    FormatConversation(ChatHistory(MessagesOf(s, id)), prompt, maxHistory)
  }

  datatype Turn = Turn(store: Store, answer: Result<string, ChatError>)

  /** The part of `chat` after the loaded-model check: find or create the
      session, answer, and record the turn. */
  function Converse(s: Store, maxHistory: int, prompt: string, sessionId: SessionId, now: Timestamp,
                    generate: seq<Message> -> Generation): (r: Turn)
    ensures sessionId in r.store.histories
    ensures r.store.created == if sessionId in s.histories then s.created else s.created[sessionId := now]
    // a new session is listed last; the listing is otherwise unchanged
    ensures r.store.order == if sessionId in s.histories then s.order else s.order + [sessionId]
    ensures r.answer == GenerateResponse(PromptFor(s, sessionId, prompt, maxHistory), generate)
    ensures r.answer.Ok? ==>
              MessagesOf(r.store, sessionId)
                == MessagesOf(s, sessionId) + [Message(User, prompt), Message(Assistant, r.answer.value)]
    ensures r.answer.Err? ==> MessagesOf(r.store, sessionId) == MessagesOf(s, sessionId)
    ensures Valid(s) ==> Valid(r.store)
  {
    var lookup := GetSessionHistory(s, sessionId, now);
    // the history found or created above is the one formatted here
    var response := GenerateResponse(FormatConversation(lookup.history, prompt, maxHistory), generate);
    if response.Err? then
      Turn(lookup.store, response)
    else
      Turn(RecordTurn(lookup.store, sessionId, prompt, response.value), response)
  }

  /** `chat(prompt, session_id)`. The clock reading `now` is used only when the
      session is new. */
  function Chat(svc: Service, prompt: string, sessionId: SessionId, now: Timestamp,
                generate: seq<Message> -> Generation): (r: ChatOutcome)
    ensures r.service.modelLoaded == svc.modelLoaded && r.service.maxHistory == svc.maxHistory
    // refused before any session is touched when the model is not loaded
    ensures !svc.modelLoaded ==> r == ChatOutcome(svc, Err(NotLoaded(NotLoadedMessage)))
    // otherwise the session exists afterwards, even when generation failed
    ensures svc.modelLoaded ==>
              && sessionId in r.service.store.histories
              && r.service.store.created == (if sessionId in svc.store.histories then svc.store.created
                                             else svc.store.created[sessionId := now])
              && r.service.store.order == (if sessionId in svc.store.histories then svc.store.order
                                           else svc.store.order + [sessionId])
    // success exactly when the model is loaded and produces text for the windowed prompt
    ensures var window := PromptFor(svc.store, sessionId, prompt, svc.maxHistory);
            && (r.answer.Ok? <==> svc.modelLoaded && generate(window).Generated?)
            && (r.answer.Ok? ==> r.answer.value == FinishReply(generate(window).text))
    // the user turn then the answer are appended, and only on success
    ensures r.answer.Ok? ==>
              MessagesOf(r.service.store, sessionId)
                == MessagesOf(svc.store, sessionId) + [Message(User, prompt), Message(Assistant, r.answer.value)]
    ensures r.answer.Err? ==> MessagesOf(r.service.store, sessionId) == MessagesOf(svc.store, sessionId)
    ensures Valid(svc.store) ==> Valid(r.service.store)
  {
    if !svc.modelLoaded then
      ChatOutcome(svc, Err(NotLoaded(NotLoadedMessage)))
    else
      var turn := Converse(svc.store, svc.maxHistory, prompt, sessionId, now, generate);
      ChatOutcome(svc.(store := turn.store), turn.answer)
  }

  /** A chat request leaves every other session as it was. */
  lemma ChatLeavesOtherSessions(svc: Service, prompt: string, sessionId: SessionId, now: Timestamp,
                                generate: seq<Message> -> Generation, other: SessionId)
    requires other != sessionId
    ensures SameSession(svc.store, Chat(svc, prompt, sessionId, now, generate).service.store, other)
  {
    if svc.modelLoaded {
      var lookup := GetSessionHistory(svc.store, sessionId, now);
      assert SameSession(svc.store, lookup.store, other);
    }
  }

  /** What `/sessions/{id}/info` reports after a chat request on a loaded
      model: the message count grows by two exactly when the model answered,
      and a new session reports `now` as its creation time while an existing
      one keeps its own. */
  lemma ChatCountsTurn(svc: Service, prompt: string, sessionId: SessionId, now: Timestamp,
                       generate: seq<Message> -> Generation, later: Timestamp)
    requires svc.modelLoaded
    ensures var r := Chat(svc, prompt, sessionId, now, generate);
      && SessionExists(r.service.store, sessionId)
      && MessageCount(r.service.store, sessionId)
           == MessageCount(svc.store, sessionId) + (if r.answer.Ok? then 2 else 0)
      && SessionCreatedTime(r.service.store, sessionId, later)
           == (if sessionId in svc.store.histories then SessionCreatedTime(svc.store, sessionId, later) else now)
  {
  }

  /** One request against the service, with the model's behaviour for a chat
      request fixed in advance. */
  datatype Op =
    | GetOp(id: SessionId, now: Timestamp)
    | ChatOp(id: SessionId, prompt: string, now: Timestamp, outcome: Generation)
    | ClearOp(id: SessionId)
    | DeleteOp(id: SessionId)

  function Step(svc: Service, op: Op): (r: Service)
    ensures r.modelLoaded == svc.modelLoaded && r.maxHistory == svc.maxHistory
    ensures Valid(svc.store) ==> Valid(r.store)
  {
    match op
    case GetOp(id, now) => svc.(store := GetSessionHistory(svc.store, id, now).store)
    case ChatOp(id, prompt, now, outcome) =>
      Chat(svc, prompt, id, now, (messages: seq<Message>) => outcome).service
    case ClearOp(id) => svc.(store := ClearHistory(svc.store, id))
    case DeleteOp(id) => svc.(store := DeleteSession(svc.store, id))
  }

  /** The requests of `ops`, in order. */
  function Run(svc: Service, ops: seq<Op>): (r: Service)
    ensures r.modelLoaded == svc.modelLoaded && r.maxHistory == svc.maxHistory
    decreases |ops|
  {
    if |ops| == 0 then svc else Run(Step(svc, ops[0]), ops[1..])
  }

  /** Every sequence of requests keeps the store's invariant. */
  lemma {:induction false} RunPreservesValid(svc: Service, ops: seq<Op>)
    requires Valid(svc.store)
    ensures Valid(Run(svc, ops).store)
    decreases |ops|
  {
    if |ops| > 0 {
      RunPreservesValid(Step(svc, ops[0]), ops[1..]);
    }
  }

  /** A request that can make session `id` lose messages. */
  predicate Resets(op: Op, id: SessionId)
  {
    (op.ClearOp? || op.DeleteOp?) && op.id == id
  }

  /** The creation time of a session survives every request except its
      deletion; clearing keeps it. */
  lemma {:induction false} RunKeepsCreatedTime(svc: Service, ops: seq<Op>, id: SessionId)
    requires Valid(svc.store) && id in svc.store.created
    requires forall k :: 0 <= k < |ops| ==> ops[k] != DeleteOp(id)
    ensures id in Run(svc, ops).store.created
    ensures Run(svc, ops).store.created[id] == svc.store.created[id]
    decreases |ops|
  {
    if |ops| > 0 {
      StepKeepsCreatedTime(svc, ops[0], id);
      RunKeepsCreatedTime(Step(svc, ops[0]), ops[1..], id);
    }
  }

  /** One request other than deleting `id` keeps its creation time. */
  lemma StepKeepsCreatedTime(svc: Service, op: Op, id: SessionId)
    requires Valid(svc.store) && id in svc.store.created
    requires op != DeleteOp(id)
    ensures id in Step(svc, op).store.created
    ensures Step(svc, op).store.created[id] == svc.store.created[id]
  {
    match op
    case GetOp(i, now) =>
    case ChatOp(i, prompt, now, outcome) =>
      if i != id {
        ChatLeavesOtherSessions(svc, prompt, i, now, (messages: seq<Message>) => outcome, id);
      }
    case ClearOp(i) =>
    case DeleteOp(i) =>
  }

  /** Whether `op` is a chat request for `id` that adds a turn: the model is
      loaded and answers. */
  predicate Answers(loaded: bool, op: Op, id: SessionId)
  {
    loaded && op.ChatOp? && op.id == id && op.outcome.Generated?
  }

  /** The requests of `ops` that add a turn to `id`. */
  function AnsweredTurns(loaded: bool, ops: seq<Op>, id: SessionId): (n: nat)
    ensures n <= |ops|
    ensures !loaded ==> n == 0
  {
    if |ops| == 0 then 0
    else (if Answers(loaded, ops[0], id) then 1 else 0) + AnsweredTurns(loaded, ops[1..], id)
  }

  /** Without a clear or delete of `id`, its messages only grow at the end,
      by exactly two per answered chat request: the stored history is
      unbounded even though each prompt is windowed. */
  lemma {:induction false} RunAppendsOnly(svc: Service, ops: seq<Op>, id: SessionId)
    requires forall k :: 0 <= k < |ops| ==> !Resets(ops[k], id)
    ensures MessagesOf(svc.store, id) <= MessagesOf(Run(svc, ops).store, id)
    ensures |MessagesOf(Run(svc, ops).store, id)|
         == |MessagesOf(svc.store, id)| + 2 * AnsweredTurns(svc.modelLoaded, ops, id)
    decreases |ops|
  {
    if |ops| > 0 {
      StepAppendsOnly(svc, ops[0], id);
      RunAppendsOnly(Step(svc, ops[0]), ops[1..], id);
    }
  }

  /** A chat request whose model outcome is fixed grows its session by two
      messages when answered and leaves it alone otherwise. */
  lemma ChatAppendsOnly(svc: Service, prompt: string, id: SessionId, now: Timestamp, outcome: Generation)
    ensures var after := MessagesOf(Chat(svc, prompt, id, now, (messages: seq<Message>) => outcome).service.store, id);
      && MessagesOf(svc.store, id) <= after
      && |after| == |MessagesOf(svc.store, id)| + (if svc.modelLoaded && outcome.Generated? then 2 else 0)
  {
    var r := Chat(svc, prompt, id, now, (messages: seq<Message>) => outcome);
    if r.answer.Ok? {
      assert MessagesOf(r.service.store, id)
          == MessagesOf(svc.store, id) + [Message(User, prompt), Message(Assistant, r.answer.value)];
    }
  }

  /** One request that does not reset `id` appends to its messages: two
      entries when it is an answered chat request for `id`, none otherwise. */
  lemma StepAppendsOnly(svc: Service, op: Op, id: SessionId)
    requires !Resets(op, id)
    ensures MessagesOf(svc.store, id) <= MessagesOf(Step(svc, op).store, id)
    ensures |MessagesOf(Step(svc, op).store, id)|
         == |MessagesOf(svc.store, id)| + (if Answers(svc.modelLoaded, op, id) then 2 else 0)
  {
    match op
    case GetOp(i, now) =>
    case ChatOp(i, prompt, now, outcome) =>
      var generate := (messages: seq<Message>) => outcome;
      assert Step(svc, op) == Chat(svc, prompt, i, now, generate).service;
      if i != id {
        ChatLeavesOtherSessions(svc, prompt, i, now, generate, id);
      } else {
        ChatAppendsOnly(svc, prompt, id, now, outcome);
      }
    case ClearOp(i) =>
    case DeleteOp(i) =>
  }
}

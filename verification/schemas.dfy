/** Validation of the `/chat` request body (`ChatRequest` in
    backend/models/schemas.py). Field constraints run first; a field's
    validator runs only when its constraints hold; errors of both fields are
    reported together. */
module Schemas {
  import opened Wrappers
  import opened Text

  const PromptMinLength := 1
  const PromptMaxLength := 5000
  const SessionIdMinLength := 5

  datatype RequestError = PromptTooShort | PromptTooLong | PromptBlank | SessionIdTooShort

  /** A request that passed validation; the prompt is in stripped form. */
  datatype ChatRequest = ChatRequest(prompt: string, sessionId: string)

  /** The `prompt_not_empty` validator. */
  function PromptNotEmpty(v: string): (r: Result<string, RequestError>)
    ensures r.Ok? <==> !AllSpace(v)
    ensures r.Ok? ==> r.value == Strip(v) && |r.value| >= 1
    ensures r.Err? ==> r.error == PromptBlank
  {
    StripAllSpace(v);
    if Strip(v) == [] then Err(PromptBlank) else Ok(Strip(v))
  }

  /** The `validate_session_format` validator. */
  function ValidateSessionFormat(v: string): (r: Result<string, RequestError>)
    ensures r.Ok? <==> |v| >= SessionIdMinLength
    ensures r.Ok? ==> r.value == v
  {
    if |v| == 0 || |v| < SessionIdMinLength then Err(SessionIdTooShort) else Ok(v)
  }

  /** The `prompt` field: `min_length=1`, `max_length=5000` on the raw text,
      then `prompt_not_empty`. */
  function ValidatePromptField(v: string): (r: Result<string, RequestError>)
    ensures r.Ok? <==> PromptMinLength <= |v| <= PromptMaxLength && !AllSpace(v)
    ensures r.Ok? ==> r.value == Strip(v)
    ensures r.Err? ==>
              && (r.error == PromptTooShort <==> |v| < PromptMinLength)
              && (r.error == PromptTooLong <==> |v| > PromptMaxLength)
              && (r.error == PromptBlank <==> PromptMinLength <= |v| <= PromptMaxLength && AllSpace(v))
  {
    if |v| < PromptMinLength then Err(PromptTooShort)
    else if |v| > PromptMaxLength then Err(PromptTooLong)
    else PromptNotEmpty(v)
  }

  /** The `session_id` field: `min_length=5`, then `validate_session_format`,
      which can no longer fail. */
  function ValidateSessionIdField(v: string): (r: Result<string, RequestError>)
    ensures r.Ok? <==> |v| >= SessionIdMinLength
    ensures r.Ok? ==> r.value == v
    ensures r.Err? ==> r.error == SessionIdTooShort
  {
    if |v| < SessionIdMinLength then Err(SessionIdTooShort) else ValidateSessionFormat(v)
  }

  /** Building a `ChatRequest`: accepted exactly when both fields are; an
      accepted prompt is stored stripped and the id unchanged; a rejection
      lists one error per failing field. */
  function ValidateChatRequest(prompt: string, sessionId: string): (r: Result<ChatRequest, seq<RequestError>>)
    ensures r.Ok? <==>
              && PromptMinLength <= |prompt| <= PromptMaxLength && !AllSpace(prompt)
              && |sessionId| >= SessionIdMinLength
    ensures r.Ok? ==>
              && r.value.prompt == Strip(prompt) && NoEdgeSpace(r.value.prompt)
              && 1 <= |r.value.prompt| <= PromptMaxLength
              && r.value.sessionId == sessionId
    ensures r.Err? ==>
              && 1 <= |r.error| <= 2
              && (PromptTooShort in r.error <==> |prompt| < PromptMinLength)
              && (PromptTooLong in r.error <==> |prompt| > PromptMaxLength)
              && (PromptBlank in r.error <==> PromptMinLength <= |prompt| <= PromptMaxLength && AllSpace(prompt))
              && (SessionIdTooShort in r.error <==> |sessionId| < SessionIdMinLength)
  {
    var p := ValidatePromptField(prompt);
    var s := ValidateSessionIdField(sessionId);
    if p.Ok? && s.Ok? then Ok(ChatRequest(p.value, s.value))
    else if p.Err? && s.Err? then Err([p.error, s.error])
    else if p.Err? then Err([p.error])
    else Err([s.error])
  }

  /** An empty prompt is refused, whatever the session id. */
  lemma EmptyPromptRejected(sessionId: string)
    ensures ValidateChatRequest("", sessionId).Err?
    ensures PromptTooShort in ValidateChatRequest("", sessionId).error
  {
  }
}

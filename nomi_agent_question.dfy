/**
 * `POST /api/nomi/agent/question` (`src/app/api/nomi/agent/question/route.ts`):
 * ask the Nomi Echo agent for the next question of a session over an uploaded
 * context, and answer with what it returned.
 */
module NomiAgentQuestion {
  import opened Wrappers
  import Js
  import opened Requests
  import opened NomiErrors
  import opened NomiTypes

  const Fallback := "Error al generar la pregunta"

  /**
   * Validation: `contextId` must be a string holding more than whitespace
   * (400) and is sent trimmed. `sessionId` and `topic` are sent, trimmed,
   * whenever they are non-empty strings.
   */
  function Plan(body: Body): (p: NomiErrors.Plan<QuestionRequest>)
    ensures !Readable(body) ==> p == Reject(MapToResponse(Other(ReadError(body)), Fallback))
    ensures Readable(body) ==> (p.Call? <==> FilledIn(Field(body, "contextId")))
    ensures Readable(body) && p.Reject? ==> p.response == ErrorResponse(400, "contextId es obligatorio", None)
    ensures p.Call? ==> && p.request.contextId == Js.Trim(Field(body, "contextId").s) && p.request.contextId != ""
                        && p.request.sessionId == TrimmedIfTruthy(Field(body, "sessionId"))
                        && p.request.topic == TrimmedIfTruthy(Field(body, "topic"))
  {
    if !Readable(body) then Reject(MapToResponse(Other(ReadError(body)), Fallback))
    else
      var contextId := Field(body, "contextId");
      if !FilledIn(contextId) then Reject(ErrorResponse(400, "contextId es obligatorio", None))
      else Call(QuestionRequest(Js.Trim(contextId.s), TrimmedIfTruthy(Field(body, "sessionId")), TrimmedIfTruthy(Field(body, "topic"))))
  }

  /**
   * The route: the agent's question, audio, language, suggested topics,
   * interaction id and session id are answered as they came.
   */
  function Handle(body: Body, upstream: Upstream<QuestionResult>): (r: Reply<QuestionResult>)
    ensures r.Failure? ==> 400 <= r.error.status < 600
    ensures Plan(body).Reject? ==> r == Failure(Plan(body).response)
    ensures Plan(body).Call? && upstream.Failed? ==> r == Failure(MapToResponse(upstream.thrown, Fallback))
    ensures r.Success? <==> Plan(body).Call? && upstream.Ok?
    ensures r.Success? ==> r.value == upstream.value
  {
    match Plan(body)
    case Reject(response) => Failure(response)
    case Call(_) => Settle(upstream, Fallback)
  }

  /**
   * Unlike `contextId`, a whitespace-only `sessionId` is not dropped: it is
   * forwarded as the empty string.
   */
  lemma BlankSessionForwardedEmpty(body: Body)
    requires Readable(body) && FilledIn(Field(body, "contextId"))
    requires Field(body, "sessionId").Str? && Field(body, "sessionId").s != "" && Js.IsBlank(Field(body, "sessionId").s)
    ensures Plan(body).Call? && Plan(body).request.sessionId == Some("")
  {
  }
}

/**
 * `POST /api/nomi/agent/analyze-response` (`src/app/api/nomi/agent/analyze-response/route.ts`):
 * send the learner's recorded answer to the Nomi Echo agent for analysis. The
 * request is multipart form data; a field that is absent reads as null.
 */
module NomiAnalyzeResponse {
  import opened Wrappers
  import Js
  import opened NomiErrors
  import opened NomiTypes

  const Fallback := "Error al analizar la respuesta"
  const NoAudio := "audio es obligatorio y debe ser un archivo no vacío"
  const NoContextId := "contextId es obligatorio"
  const NoQuestion := "originalQuestion es obligatorio"

  /** The outcome of `await request.formData()`: the fields, or what it threw. */
  datatype Form = Fields(entries: map<string, Js.Value>) | Unparsable(error: Js.Value)

  /** `formData.get(name)` */
  function Get(entries: map<string, Js.Value>, name: string): Js.Value {
    if name in entries then entries[name] else Js.Null
  }

  /** `audio && audio instanceof Blob && audio.size !== 0` */
  predicate UsableAudio(v: Js.Value) {
    v.BlobObj? && v.size != 0
  }

  /**
   * Validation in the handler's order (audio, then `contextId`, then
   * `originalQuestion`), the first failure deciding the 400 message. The two
   * optional ids are sent, trimmed, only when they hold more than whitespace.
   */
  function Plan(form: Form): (p: NomiErrors.Plan<AnalyzeRequest>)
    ensures form.Unparsable? ==> p == Reject(MapToResponse(Other(form.error), Fallback))
    ensures form.Fields? && !UsableAudio(Get(form.entries, "audio")) ==> p == Reject(ErrorResponse(400, NoAudio, None))
    ensures form.Fields? && UsableAudio(Get(form.entries, "audio")) && !FilledIn(Get(form.entries, "contextId")) ==>
              p == Reject(ErrorResponse(400, NoContextId, None))
    ensures form.Fields? && UsableAudio(Get(form.entries, "audio")) && FilledIn(Get(form.entries, "contextId"))
            && !FilledIn(Get(form.entries, "originalQuestion")) ==>
              p == Reject(ErrorResponse(400, NoQuestion, None))
    ensures p.Call? <==> && form.Fields? && UsableAudio(Get(form.entries, "audio"))
                         && FilledIn(Get(form.entries, "contextId")) && FilledIn(Get(form.entries, "originalQuestion"))
    ensures p.Call? ==>
              var f := form.entries;
              && p.request.audio == Get(f, "audio")
              && p.request.contextId == Js.Trim(Get(f, "contextId").s)
              && p.request.originalQuestion == Js.Trim(Get(f, "originalQuestion").s)
              && p.request.sessionId == TrimmedIfFilledIn(Get(f, "sessionId"))
              && p.request.originalQuestionId == TrimmedIfFilledIn(Get(f, "originalQuestionId"))
  {
    match form
    case Unparsable(error) => Reject(MapToResponse(Other(error), Fallback))
    case Fields(f) =>
      var audio := Get(f, "audio");
      var contextId := Get(f, "contextId");
      var originalQuestion := Get(f, "originalQuestion");
      if !Js.Truthy(audio) || !audio.BlobObj? || audio.size == 0 then Reject(ErrorResponse(400, NoAudio, None))
      else if !FilledIn(contextId) then Reject(ErrorResponse(400, NoContextId, None))
      else if !FilledIn(originalQuestion) then Reject(ErrorResponse(400, NoQuestion, None))
      else
        Call(AnalyzeRequest(audio, Js.Trim(contextId.s), TrimmedIfFilledIn(Get(f, "sessionId")),
                            Js.Trim(originalQuestion.s), TrimmedIfFilledIn(Get(f, "originalQuestionId"))))
  }

  /** The route: the analysis, feedback, suggestions and correct answer are answered as they came. */
  function Handle(form: Form, upstream: Upstream<AnalyzeResult>): (r: Reply<AnalyzeResult>)
    ensures r.Failure? ==> 400 <= r.error.status < 600
    ensures Plan(form).Reject? ==> r == Failure(Plan(form).response)
    ensures Plan(form).Call? && upstream.Failed? ==> r == Failure(MapToResponse(upstream.thrown, Fallback))
    ensures r.Success? <==> Plan(form).Call? && upstream.Ok?
    ensures r.Success? ==> r.value == upstream.value
  {
    match Plan(form)
    case Reject(response) => Failure(response)
    case Call(_) => Settle(upstream, Fallback)
  }

  /** A missing or empty recording is refused whatever else the form holds, before Nomi Echo is called. */
  lemma AudioCheckedFirst(f: map<string, Js.Value>, g: map<string, Js.Value>)
    requires !UsableAudio(Get(f, "audio")) && !UsableAudio(Get(g, "audio"))
    ensures Plan(Fields(f)) == Plan(Fields(g))
    ensures Plan(Fields(f)).Reject? && Plan(Fields(f)).response.status == 400
  {
  }
}

/**
 * `POST /api/nomi/suggest-question` (`src/app/api/nomi/suggest-question/route.ts`):
 * upload a protocol's study text to Nomi Echo, then ask its agent for a
 * question about it. The route's own `buildDocsFromProtocol` is the same
 * function as the context-upload route's and is used from there.
 */
module NomiSuggestQuestion {
  import opened Wrappers
  import Js
  import opened Requests
  import opened NomiErrors
  import opened NomiTypes
  import NomiContextUpload

  const Fallback := "Error al generar sugerencia"
  const NoDocs := "El protocolo no tiene documentación. Añade \"Documentación completa\" en Admin > Protocolos."
  const NoContext := "No se pudo crear el contexto para el protocolo"

  /** The payload of a successful answer. */
  datatype Suggestion = Suggestion(question: string, suggestedTopics: seq<string>)

  /**
   * Validation before the upload: `protocolId` must hold more than whitespace
   * (400), the trimmed id must name a protocol (404), and that protocol must
   * give something to upload (400). The upload always asks for 400 words.
   */
  function Plan(body: Body, db: map<string, DbProtocol>): (p: NomiErrors.Plan<UploadRequest>)
    ensures !Readable(body) ==> p == Reject(MapToResponse(Other(ReadError(body)), Fallback))
    ensures Readable(body) && !FilledIn(Field(body, "protocolId")) ==> p == Reject(ErrorResponse(400, "protocolId es obligatorio", None))
    ensures Readable(body) && FilledIn(Field(body, "protocolId")) && Js.Trim(Field(body, "protocolId").s) !in db ==>
              p == Reject(ErrorResponse(404, "Protocolo no encontrado", None))
    ensures Readable(body) && FilledIn(Field(body, "protocolId")) && Js.Trim(Field(body, "protocolId").s) in db
            && Js.IsBlank(NomiContextUpload.BuildDocs(db[Js.Trim(Field(body, "protocolId").s)])) ==>
              p == Reject(ErrorResponse(400, NoDocs, None))
    ensures p.Reject? ==> p.response.status in {400, 404, 502}
    ensures p.Call? <==> && Readable(body) && FilledIn(Field(body, "protocolId"))
                         && Js.Trim(Field(body, "protocolId").s) in db
                         && !Js.IsBlank(NomiContextUpload.BuildDocs(db[Js.Trim(Field(body, "protocolId").s)]))
    ensures p.Call? ==> p.request == UploadRequest(NomiContextUpload.BuildDocs(db[Js.Trim(Field(body, "protocolId").s)]), Js.Num(400))
  {
    if !Readable(body) then Reject(MapToResponse(Other(ReadError(body)), Fallback))
    else
      var protocolId := Field(body, "protocolId");
      if !Js.Truthy(protocolId) || !protocolId.Str? || Js.IsBlank(protocolId.s) then
        Reject(ErrorResponse(400, "protocolId es obligatorio", None))
      else
        var id := Js.Trim(protocolId.s);
        if id !in db then Reject(ErrorResponse(404, "Protocolo no encontrado", None))
        else
          var docs := NomiContextUpload.BuildDocs(db[id]);
          if Js.IsBlank(docs) then Reject(ErrorResponse(400, NoDocs, None))
          else Call(UploadRequest(docs, Js.Num(400)))
  }

  /** The agent request for a new context: no session, and the topic only when it holds more than whitespace. */
  function Ask(body: Body, contextId: string): (q: QuestionRequest)
    requires Readable(body)
    ensures q.contextId == contextId && q.sessionId == None
    ensures q.topic.Some? <==> FilledIn(Field(body, "topic"))
    ensures q.topic.Some? ==> q.topic.value == Js.Trim(Field(body, "topic").s)
  {
    QuestionRequest(contextId, None, TrimmedIfFilledIn(Field(body, "topic")))
  }

  /**
   * The route. `upload` is what the context upload returned, and `agent` what
   * the agent returns for a request; it is asked only after an upload that
   * produced a context id, with the request `Ask` builds for that context.
   * Missing suggested topics are answered as [].
   */
  function Handle(body: Body, db: map<string, DbProtocol>, upload: Upstream<UploadResult>,
                  agent: QuestionRequest -> Upstream<QuestionResult>): (r: Reply<Suggestion>)
    ensures r.Failure? ==> 400 <= r.error.status < 600
    ensures Plan(body, db).Reject? ==> r == Failure(Plan(body, db).response)
    ensures Plan(body, db).Call? && upload.Failed? ==> r == Failure(MapToResponse(upload.thrown, Fallback))
    ensures Plan(body, db).Call? && upload.Ok? && upload.value.contextId == "" ==> r == Failure(ErrorResponse(502, NoContext, None))
    ensures Plan(body, db).Call? && upload.Ok? && upload.value.contextId != "" ==>
              var answer := agent(Ask(body, upload.value.contextId));
              && (answer.Failed? ==> r == Failure(MapToResponse(answer.thrown, Fallback)))
              && (answer.Ok? ==> r == Success(Suggestion(answer.value.question, answer.value.suggestedTopics.GetOr([]))))
    ensures r.Success? ==> Plan(body, db).Call? && upload.Ok? && upload.value.contextId != ""
                           && agent(Ask(body, upload.value.contextId)).Ok?
  {
    match Plan(body, db)
    case Reject(response) => Failure(response)
    case Call(_) =>
      match upload
      case Failed(t) => Failure(MapToResponse(t, Fallback))
      case Ok(context) =>
        if context.contextId == "" then Failure(ErrorResponse(502, NoContext, None))
        else
          match agent(Ask(body, context.contextId))
          case Failed(t) => Failure(MapToResponse(t, Fallback))
          case Ok(q) => Success(Suggestion(q.question, q.suggestedTopics.GetOr([])))
  }

  /** Surrounding whitespace in `protocolId` changes nothing: the lookup and the upload use the trimmed id. */
  lemma IdIsTrimmed(a: Body, b: Body, db: map<string, DbProtocol>)
    requires Readable(a) && Readable(b)
    requires FilledIn(Field(a, "protocolId")) && FilledIn(Field(b, "protocolId"))
    requires Js.Trim(Field(a, "protocolId").s) == Js.Trim(Field(b, "protocolId").s)
    ensures Plan(a, db) == Plan(b, db)
  {
  }
}

/**
 * The request and response records of the Nomi Echo API (`src/lib/nomi/types.ts`),
 * the protocol record the routes read from the database, and the two ways the
 * routes forward an optional text field.
 */
module NomiTypes {
  import opened Wrappers
  import Js

  /** The protocol columns `buildDocsFromProtocol` reads from `@/lib/db/protocols`. */
  datatype DbProtocol = DbProtocol(name: string, title: Option<string>, description: Option<string>, docs: Option<string>)

  /** Body of `POST /api/context/upload`; `maxWords` is passed through as given. */
  datatype UploadRequest = UploadRequest(text: string, maxWords: Js.Value)

  /** `ContextUploadResponse`; `None` stands for a null or absent optional field. */
  datatype UploadResult = UploadResult(
    contextId: string, localId: Option<string>, brief: string, language: string,
    wordCount: Option<int>, createdAt: Option<string>)

  /** Body of `POST /api/agent/question`. */
  datatype QuestionRequest = QuestionRequest(contextId: string, sessionId: Option<string>, topic: Option<string>)

  /** `AgentQuestionResponse` */
  datatype QuestionResult = QuestionResult(
    question: string, questionAudio: Option<string>, language: string,
    suggestedTopics: Option<seq<string>>, interactionId: Option<string>, sessionId: Option<string>)

  /** Arguments of `voiceSynthesize(text, language)`. */
  datatype SynthesizeRequest = SynthesizeRequest(text: string, language: string)

  /** Fields of the multipart `POST /api/agent/analyze-response`; `audio` is the uploaded Blob. */
  datatype AnalyzeRequest = AnalyzeRequest(
    audio: Js.Value, contextId: string, sessionId: Option<string>,
    originalQuestion: string, originalQuestionId: Option<string>)

  /** `AnalyzeResponseResult`; the scores of `analysis` are passed through untouched. */
  datatype AnalyzeResult = AnalyzeResult(
    analysis: Js.Value, feedback: Option<string>, suggestions: Option<seq<string>>, correctAnswer: Option<string>)

  /** A required text field: a string with something other than whitespace in it. */
  predicate FilledIn(v: Js.Value) {
    Js.Truthy(v) && v.Str? && !Js.IsBlank(v.s)
  }

  /**
   * `...(v && typeof v === 'string' && v.trim() && { f: v.trim() })`: the
   * field is sent, trimmed, only when it holds something besides whitespace.
   */
  function TrimmedIfFilledIn(v: Js.Value): (r: Option<string>)
    ensures r.Some? <==> FilledIn(v)
    ensures r.Some? ==> r.value == Js.Trim(v.s) && r.value != ""
  {
    if FilledIn(v) then Some(Js.Trim(v.s)) else None
  }

  /**
   * `...(v && typeof v === 'string' && { f: v.trim() })`: any non-empty
   * string is sent, trimmed, so whitespace alone is sent as "".
   */
  function TrimmedIfTruthy(v: Js.Value): (r: Option<string>)
    ensures r.Some? <==> v.Str? && v.s != ""
    ensures r.Some? ==> r.value == Js.Trim(v.s)
  {
    if Js.Truthy(v) && v.Str? then Some(Js.Trim(v.s)) else None
  }

  /** What is forwarded is already trimmed: trimming it again on the far side changes nothing. */
  lemma ForwardedIsTrimmed(v: Js.Value)
    requires TrimmedIfTruthy(v).Some?
    ensures Js.Trim(TrimmedIfTruthy(v).value) == TrimmedIfTruthy(v).value
  {
    Js.TrimIdempotent(v.s);
  }
}

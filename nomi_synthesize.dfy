/**
 * `POST /api/nomi/voice/synthesize` (`src/app/api/nomi/voice/synthesize/route.ts`):
 * turn a text into MP3 speech through Nomi Echo and answer with the audio bytes.
 */
module NomiSynthesize {
  import opened Wrappers
  import Js
  import opened Requests
  import opened NomiErrors
  import opened NomiTypes

  const Fallback := "Error al sintetizar voz"
  const DefaultLanguage := "es-MX"
  const EmptyText := "text es obligatorio y no puede estar vacío"

  /** A successful answer: status 200, the audio bytes and these two headers. */
  datatype Audio = Audio(status: int, contentType: string, cacheControl: string, bytes: seq<bv8>)

  /** `typeof language === 'string' && language ? language : DEFAULT_LANGUAGE` */
  function Language(v: Js.Value): (r: string)
    ensures r != ""
    ensures v.Str? && v.s != "" ==> r == v.s
    ensures !(v.Str? && v.s != "") ==> r == DefaultLanguage
  {
    if v.Str? && v.s != "" then v.s else DefaultLanguage
  }

  /** Validation: `text` must be a string holding more than whitespace; it is sent trimmed. */
  function Plan(body: Body): (p: NomiErrors.Plan<SynthesizeRequest>)
    ensures !Readable(body) ==> p == Reject(MapToResponse(Other(ReadError(body)), Fallback))
    ensures Readable(body) ==> (p.Call? <==> Field(body, "text").Str? && !Js.IsBlank(Field(body, "text").s))
    ensures Readable(body) && p.Reject? ==> p.response == ErrorResponse(400, EmptyText, None)
    ensures p.Call? ==> && p.request.text == Js.Trim(Field(body, "text").s) && p.request.text != ""
                        && p.request.language == Language(Field(body, "language"))
  {
    if !Readable(body) then Reject(MapToResponse(Other(ReadError(body)), Fallback))
    else
      var text := Field(body, "text");
      if text.Null? || text.Undefined? || !text.Str? || Js.IsBlank(text.s) then Reject(ErrorResponse(400, EmptyText, None))
      else Call(SynthesizeRequest(Js.Trim(text.s), Language(Field(body, "language"))))
  }

  /** The route; `upstream` is the audio buffer Nomi Echo returned, or what was thrown. */
  function Handle(body: Body, upstream: Upstream<seq<bv8>>): (r: Reply<Audio>)
    ensures r.Failure? ==> 400 <= r.error.status < 600
    ensures Plan(body).Reject? ==> r == Failure(Plan(body).response)
    ensures Plan(body).Call? && upstream.Failed? ==> r == Failure(MapToResponse(upstream.thrown, Fallback))
    ensures r.Success? <==> Plan(body).Call? && upstream.Ok?
    ensures r.Success? ==> r.value == Audio(200, "audio/mpeg", "private, max-age=3600", upstream.value)
  {
    match Plan(body)
    case Reject(response) => Failure(response)
    case Call(_) =>
      match upstream
      case Failed(t) => Failure(MapToResponse(t, Fallback))
      case Ok(buffer) => Success(Audio(200, "audio/mpeg", "private, max-age=3600", buffer))
  }

  /** Texts that differ only in surrounding whitespace are synthesised identically. */
  lemma SurroundingWhitespaceIgnored(a: Body, b: Body)
    requires Readable(a) && Readable(b)
    requires Field(a, "text").Str? && Field(b, "text").Str?
    requires Js.Trim(Field(a, "text").s) == Js.Trim(Field(b, "text").s)
    requires Field(a, "language") == Field(b, "language")
    ensures Plan(a) == Plan(b)
  {
  }
}

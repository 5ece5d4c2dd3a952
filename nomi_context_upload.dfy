/**
 * `POST /api/nomi/context-upload` (`src/app/api/nomi/context-upload/route.ts`):
 * build the study text of a protocol from its database record and upload it to
 * Nomi Echo, answering with the context id and brief. The database is a map
 * from protocol id to record; the Nomi Echo call is an `Upstream` outcome.
 */
module NomiContextUpload {
  import opened Wrappers
  import Js
  import opened Requests
  import opened NomiErrors
  import opened NomiTypes

  const Fallback := "Error al conectar con Nomi Echo"
  const DefaultMaxWords := 400
  const NoDocs := "El protocolo no tiene documentación (docs) ni descripción en la base de datos. Añade \"Documentación completa\" en Admin > Protocolos."

  /** `x || ''` for a nullable column. */
  function OrEmpty(x: Option<string>): string {
    if x.Some? then x.value else ""
  }

  /** `protocol.title || protocol.name` */
  function TitleOrName(p: DbProtocol): string {
    if p.title.Some? && p.title.value != "" then p.title.value else p.name
  }

  /**
   * `buildDocsFromProtocol`: the full documentation, trimmed, when there is
   * any; otherwise the title (or name), followed by a blank line and the
   * trimmed description when there is one.
   */
  function BuildDocs(p: DbProtocol): (r: string)
    ensures !Js.IsBlank(OrEmpty(p.docs)) ==> r == Js.Trim(OrEmpty(p.docs))
    ensures Js.IsBlank(OrEmpty(p.docs)) && Js.IsBlank(OrEmpty(p.description)) ==> r == TitleOrName(p)
    ensures Js.IsBlank(OrEmpty(p.docs)) && !Js.IsBlank(OrEmpty(p.description)) ==>
              r == TitleOrName(p) + "\n\n" + Js.Trim(OrEmpty(p.description))
  {
    var fullDocs := Js.Trim(OrEmpty(p.docs));
    if fullDocs != "" then fullDocs
    else
      var title := TitleOrName(p);
      var desc := Js.Trim(OrEmpty(p.description));
      if desc == "" then title else title + "\n\n" + desc
  }

  /** A string with a character that is not whitespace is not blank. */
  lemma NotBlankWitness(s: string, i: nat)
    requires i < |s| && !Js.IsSpace(s[i])
    ensures !Js.IsBlank(s)
  {
    Js.BlankIffAllSpace(s);
  }

  /** A trimmed text that is not empty is not blank. */
  lemma TrimmedNotBlank(s: string)
    requires !Js.IsBlank(s)
    ensures !Js.IsBlank(Js.Trim(s))
  {
    NotBlankWitness(Js.Trim(s), 0);
  }

  /** A text that ends with a trimmed, non-empty part is not blank, whatever comes before it. */
  lemma EndsNotBlank(prefix: string, s: string)
    requires !Js.IsBlank(s)
    ensures !Js.IsBlank(prefix + Js.Trim(s))
  {
    var d := Js.Trim(s);
    assert (prefix + d)[|prefix|] == d[0];
    NotBlankWitness(prefix + d, |prefix|);
  }

  /**
   * The built text is blank exactly when the documentation, the description
   * and the title-or-name are all blank, which is when the route answers 400
   * without calling Nomi Echo.
   */
  lemma BuildDocsBlankIff(p: DbProtocol)
    ensures Js.IsBlank(BuildDocs(p)) <==>
              Js.IsBlank(OrEmpty(p.docs)) && Js.IsBlank(OrEmpty(p.description)) && Js.IsBlank(TitleOrName(p))
  {
    if !Js.IsBlank(OrEmpty(p.docs)) {
      TrimmedNotBlank(OrEmpty(p.docs));
    } else if !Js.IsBlank(OrEmpty(p.description)) {
      EndsNotBlank(TitleOrName(p) + "\n\n", OrEmpty(p.description));
    }
  }

  /** `maxWords ?? 400` */
  function MaxWords(v: Js.Value): (r: Js.Value)
    ensures (v.Null? || v.Undefined?) ==> r == Js.Num(DefaultMaxWords)
    ensures !(v.Null? || v.Undefined?) ==> r == v
  {
    if v.Null? || v.Undefined? then Js.Num(DefaultMaxWords) else v
  }

  /** The step after the lookup: refuse a protocol with nothing to upload, else upload its text. */
  function Upload(p: DbProtocol, maxWords: Js.Value): (r: NomiErrors.Plan<UploadRequest>)
    ensures r.Call? <==> !Js.IsBlank(BuildDocs(p))
    ensures r.Reject? ==> r.response == ErrorResponse(400, NoDocs, None)
    ensures r.Call? ==> r.request == UploadRequest(BuildDocs(p), MaxWords(maxWords))
  {
    var docs := BuildDocs(p);
    if Js.IsBlank(docs) then Reject(ErrorResponse(400, NoDocs, None))
    else Call(UploadRequest(docs, MaxWords(maxWords)))
  }

  /**
   * Validation, in the handler's order: an unreadable body goes to the error
   * mapping; a missing or non-string `protocolId` is 400; an unknown protocol
   * is 404; a protocol with nothing to upload is 400. Otherwise the upload call.
   */
  function Plan(body: Body, db: map<string, DbProtocol>): (p: NomiErrors.Plan<UploadRequest>)
    ensures !Readable(body) ==> p == Reject(MapToResponse(Other(ReadError(body)), Fallback))
    ensures Readable(body) && !(Js.Truthy(Field(body, "protocolId")) && Field(body, "protocolId").Str?) ==>
              p == Reject(ErrorResponse(400, "protocolId es obligatorio", None))
    ensures Readable(body) && Field(body, "protocolId").Str? && Field(body, "protocolId").s != ""
            && Field(body, "protocolId").s !in db ==>
              p == Reject(ErrorResponse(404, "Protocolo no encontrado", None))
    ensures Readable(body) && Field(body, "protocolId").Str? && Field(body, "protocolId").s != ""
            && Field(body, "protocolId").s in db && Js.IsBlank(BuildDocs(db[Field(body, "protocolId").s])) ==>
              p == Reject(ErrorResponse(400, NoDocs, None))
    ensures p.Reject? ==> p.response.status in {400, 404, 502}
    ensures p.Call? <==> && Readable(body) && Field(body, "protocolId").Str? && Field(body, "protocolId").s != ""
                         && Field(body, "protocolId").s in db && !Js.IsBlank(BuildDocs(db[Field(body, "protocolId").s]))
    ensures p.Call? ==> p.request == UploadRequest(BuildDocs(db[Field(body, "protocolId").s]), MaxWords(Field(body, "maxWords")))
  {
    if !Readable(body) then Reject(MapToResponse(Other(ReadError(body)), Fallback))
    else
      var protocolId := Field(body, "protocolId");
      if !Js.Truthy(protocolId) || !protocolId.Str? then Reject(ErrorResponse(400, "protocolId es obligatorio", None))
      else if protocolId.s !in db then Reject(ErrorResponse(404, "Protocolo no encontrado", None))
      else Upload(db[protocolId.s], Field(body, "maxWords"))
  }

  /**
   * The route: the upload result is answered as it came (its optional fields
   * present only when set), and a failed call goes through the error mapping.
   */
  function Handle(body: Body, db: map<string, DbProtocol>, upstream: Upstream<UploadResult>): (r: Reply<UploadResult>)
    ensures r.Failure? ==> 400 <= r.error.status < 600
    ensures Plan(body, db).Reject? ==> r == Failure(Plan(body, db).response)
    ensures r.Success? <==> Plan(body, db).Call? && upstream.Ok?
    ensures r.Success? ==> r.value == upstream.value
    ensures Plan(body, db).Call? && upstream.Failed? ==> r == Failure(MapToResponse(upstream.thrown, Fallback))
  {
    match Plan(body, db)
    case Reject(response) => Failure(response)
    case Call(_) => Settle(upstream, Fallback)
  }

  /** A protocol whose record gives nothing to upload is refused before Nomi Echo is called. */
  lemma NothingToUploadRefused(body: Body, db: map<string, DbProtocol>)
    requires Readable(body) && Field(body, "protocolId").Str? && Field(body, "protocolId").s != ""
    requires Field(body, "protocolId").s in db
    requires var p := db[Field(body, "protocolId").s];
             Js.IsBlank(OrEmpty(p.docs)) && Js.IsBlank(OrEmpty(p.description)) && Js.IsBlank(TitleOrName(p))
    ensures Plan(body, db) == Reject(ErrorResponse(400, NoDocs, None))
  {
    var id := Field(body, "protocolId").s;
    BuildDocsBlankIff(db[id]);
    assert Js.Truthy(Field(body, "protocolId"));
    assert Js.IsBlank(BuildDocs(db[id]));
  }
}

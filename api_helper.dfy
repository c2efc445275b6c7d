/**
 * The operation dispatcher and its performers, the request helper they share, and the
 * status poll loop. Every exchange with the outside is an input: the download of the
 * user's file, the reply to the upload, the reply to the final request, and the
 * multipart boundary. A performer returns the calls it makes and what it resolves with.
 */
module ApiHelper {
  import opened Wrappers
  import opened JsValues
  import opened Constants
  import opened Authentication
  import opened Utils

  /** What the host's request call delivers: a response for the classifier, or the transport's error message. */
  type Transport = Result<HttpResponse, string>

  datatype HttpMethod = GET | POST

  /**
   * The request bodies the performers build. `EmptyBody` is the default body `{}`, an object
   * with no fields; `UploadForm` is the multipart form carrying the file.
   */
  datatype Body =
    | EmptyBody
    | ImagePayload(image: string, model: Json, domain: Option<Domain>)
    | GenerateRequest(fileId: Json, model: Json, domain: Option<Domain>, batch: bool)
    | WebpageRequest(url: Json, model: Json, domain: Option<Domain>, mode: Json)
    | DocumentEmbeddingRequest(fileId: Json, model: Json, batch: bool)
    | ImageEmbeddingPayload(image: string, model: Json)
    | UploadForm(fileName: string)

  /** An outgoing exchange: the download of the user's file, or an API request. */
  datatype Call =
    | Download(url: string)
    | Request(verb: HttpMethod, url: string, headers: map<string, string>, body: Body)

  /** The calls an operation makes, in order, and the value it resolves with or the message it throws. */
  datatype Run = Run(calls: seq<Call>, result: Result<Json, string>)

  /** The fields of `bundle.inputData` the performers read; a missing field is `undefined`. */
  datatype InputData = InputData(operation: Json, file: string, model: Json, url: Json, mode: Json)

  /** The replies of the outside world to one operation. */
  datatype World = World(download: DownloadReply, uploadReply: Transport, apiReply: Transport, boundary: string)

  const ApiFailedPrefix := "API request failed: "
  const UploadFailedPrefix := "File upload failed: "
  const InvalidOperationPrefix := "Invalid operation: "
  const TimedOutMessage := "Document processing timed out"
  const NoFileFound := "No file found"

  /**
   * `makeApiRequest`: the response's `data` once the classifier has let it pass; a
   * transport error or a classifier error is rethrown with the request prefix.
   */
  function MakeApiRequest(reply: Transport): (r: Result<Json, string>)
    ensures r.Failure? ==> StartsWith(r.error, ApiFailedPrefix)
    ensures r.Success? <==> reply.Success? && HandleBadResponses(reply.value).Success?
    ensures r.Success? ==> r.value == reply.value.data
  {
    match reply
    case Failure(e) => Failure(ApiFailedPrefix + e)
    case Success(response) =>
      match HandleBadResponses(response)
      case Failure(thrown) => Failure(ApiFailedPrefix + thrown.message)
      case Success(passed) => Success(passed.data)
  }

  /** The request that follows `prior`: appended to its calls, resolving with the reply's data. */
  function Then(prior: seq<Call>, call: Call, reply: Transport): Run {
    Run(prior + [call], MakeApiRequest(reply))
  }

  // ---------------------------------------------------------------- routing

  /** The six operation lists of the dispatcher. */
  datatype Family = ImageFamily | DocumentFamily | AgentFamily | AudioFamily | ExperimentalFamily | FileHandleFamily

  function Members(f: Family): seq<Operation> {
    match f
    case ImageFamily => [ImageCataloging, ImageCaptioning]
    case DocumentFamily => [ResumeParser, InvoiceParser, PresentationParser, FormFilling]
    case AgentFamily => [GithubAgent]
    case AudioFamily => [AudioTranscription]
    case ExperimentalFamily => [DocumentEmbedding, ImageEmbedding]
    case FileHandleFamily => [FileList, FileUpload]
  }

  function IdentifiersOf(ops: seq<Operation>): (r: seq<string>)
    ensures |r| == |ops| && forall i :: 0 <= i < |ops| ==> r[i] == Identifier(ops[i])
  {
    if ops == [] then [] else [Identifier(ops[0])] + IdentifiersOf(ops[1..])
  }

  /** A list as the dispatcher holds it: the identifier strings of its operations. */
  function Names(f: Family): seq<string> {
    IdentifiersOf(Members(f))
  }

  /** The dispatcher's chain of `includes` tests, in its order: image, document, agent, audio, experimental, file handling. */
  function Route(op: string): (r: Option<Family>)
    ensures r.Some? ==> op in Names(r.value)
  {
    if op in Names(ImageFamily) then Some(ImageFamily)
    else if op in Names(DocumentFamily) then Some(DocumentFamily)
    else if op in Names(AgentFamily) then Some(AgentFamily)
    else if op in Names(AudioFamily) then Some(AudioFamily)
    else if op in Names(ExperimentalFamily) then Some(ExperimentalFamily)
    else if op in Names(FileHandleFamily) then Some(FileHandleFamily)
    else None
  }

  /** The family each operation belongs to, one case per operation; five operations have none. */
  function FamilyOf(o: Operation): Option<Family> {
    match o
    case ImageCataloging | ImageCaptioning => Some(ImageFamily)
    case ResumeParser | InvoiceParser | PresentationParser | FormFilling => Some(DocumentFamily)
    case GithubAgent => Some(AgentFamily)
    case AudioTranscription => Some(AudioFamily)
    case DocumentEmbedding | ImageEmbedding => Some(ExperimentalFamily)
    case FileList | FileUpload => Some(FileHandleFamily)
    case LinkedinAgent | MarketResearchAgent | WebGeneration | Get | Post => None
  }

  /** The lists hold exactly the operations of their family. */
  lemma MembersOfFamily(o: Operation, f: Family)
    ensures o in Members(f) <==> FamilyOf(o) == Some(f)
  {
  }

  /** An operation's identifier is in a list exactly when the operation is. */
  lemma ListedIdentifier(o: Operation, f: Family)
    ensures Identifier(o) in Names(f) <==> o in Members(f)
  {
    var ops := Members(f);
    if Identifier(o) in Names(f) {
      var i :| 0 <= i < |ops| && Names(f)[i] == Identifier(o);
      IdentifierInjective(ops[i], o);
    }
  }

  /** A listed string is the identifier of one of the list's operations. */
  lemma ListedName(op: string, f: Family) returns (o: Operation)
    requires op in Names(f)
    ensures o in Members(f) && Identifier(o) == op
  {
    var i :| 0 <= i < |Names(f)| && Names(f)[i] == op;
    o := Members(f)[i];
  }

  /** The six lists are pairwise disjoint. */
  lemma FamiliesDisjoint(op: string, f: Family, g: Family)
    requires op in Names(f) && op in Names(g)
    ensures f == g
  {
    var o := ListedName(op, f);
    ListedIdentifier(o, g);
    MembersOfFamily(o, f);
    MembersOfFamily(o, g);
  }

  /** The chain sends a string to a family exactly when that family lists it, so the order of the tests does not matter. */
  lemma RouteIsMembership(op: string, f: Family)
    ensures Route(op) == Some(f) <==> op in Names(f)
  {
    if op in Names(f) {
      RouteFindsListed(op, f);
      var g := Route(op).value;
      FamiliesDisjoint(op, f, g);
    }
  }

  /** A listed string is routed somewhere. */
  lemma RouteFindsListed(op: string, f: Family)
    requires op in Names(f)
    ensures Route(op).Some?
  {
    if f == ImageFamily || f == DocumentFamily || f == AgentFamily {
      EarlyListsRouted(op, f);
    } else if !(op in Names(ImageFamily) || op in Names(DocumentFamily) || op in Names(AgentFamily)) {
      LateListsRouted(op, f);
    }
  }

  lemma EarlyListsRouted(op: string, f: Family)
    requires f == ImageFamily || f == DocumentFamily || f == AgentFamily
    requires op in Names(f)
    ensures Route(op).Some?
  {
  }

  lemma LateListsRouted(op: string, f: Family)
    requires f == AudioFamily || f == ExperimentalFamily || f == FileHandleFamily
    requires !(op in Names(ImageFamily) || op in Names(DocumentFamily) || op in Names(AgentFamily))
    requires op in Names(f)
    ensures Route(op).Some?
  {
  }

  /** Each operation's identifier is routed to the family the operation belongs to. */
  lemma RouteOfOperation(o: Operation)
    ensures Route(Identifier(o)) == FamilyOf(o)
  {
    match FamilyOf(o)
    case Some(f) =>
      MembersOfFamily(o, f);
      ListedIdentifier(o, f);
      RouteIsMembership(Identifier(o), f);
    case None =>
      if Route(Identifier(o)).Some? {
        var f := Route(Identifier(o)).value;
        RouteIsMembership(Identifier(o), f);
        ListedIdentifier(o, f);
        MembersOfFamily(o, f);
      }
  }

  /**
   * Five identifiers the caller can send reach no performer: the LinkedIn and market
   * research agents, web generation, and the two method names.
   */
  lemma UnroutedOperations(o: Operation)
    ensures Route(Identifier(o)).None? <==> o in {LinkedinAgent, MarketResearchAgent, WebGeneration, Get, Post}
  {
    RouteOfOperation(o);
  }

  /** `includes` compares strictly: an operation field that is not a string is in no list. */
  function RouteInput(operation: Json): (r: Option<Family>)
    ensures !operation.JStr? ==> r.None?
    ensures operation.JStr? ==> r == Route(operation.s)
  {
    match operation
    case JStr(op) => Route(op)
    case _ => None
  }

  // ---------------------------------------------------------------- request bodies

  /** `data:<mime>;base64,<text>`, the data URL of section 3 of RFC 2397. */
  function DataUrl(mimeType: string, base64: string): string {
    "data:" + mimeType + ";base64," + base64
  }

  function FirstIndexOf(s: string, c: char): (r: Option<nat>)
    ensures r.None? <==> c !in s
    ensures r.Some? ==> r.value < |s| && s[r.value] == c && c !in s[..r.value]
  {
    if |s| == 0 then None
    else if s[0] == c then Some(0)
    else
      var r := FirstIndexOf(s[1..], c);
      if r.None? then None
      else
        assert s[..r.value + 1] == [s[0]] + s[1..][..r.value];
        Some(r.value + 1)
  }

  /** Reads a base64 data URL back into its media type and its data. */
  function SplitDataUrl(url: string): Option<(string, string)> {
    if !StartsWith(url, "data:") then None
    else
      var rest := url[5..];
      match FirstIndexOf(rest, ';')
      case None => None
      case Some(i) =>
        if StartsWith(rest[i..], ";base64,") then Some((rest[..i], rest[i + 8..])) else None
  }

  lemma FirstIndexAt(s: string, i: nat, c: char)
    requires i < |s| && s[i] == c && c !in s[..i]
    ensures FirstIndexOf(s, c) == Some(i)
  {
  }

  /** A media type without `;` is read back from its data URL together with the data. */
  lemma DataUrlRoundTrip(mimeType: string, base64: string)
    requires ';' !in mimeType
    ensures SplitDataUrl(DataUrl(mimeType, base64)) == Some((mimeType, base64))
  {
    var marker := ";base64,";
    var tail := marker + base64;
    var rest := mimeType + tail;
    var url := "data:" + rest;
    assert url == DataUrl(mimeType, base64);
    assert url[..5] == "data:" && url[5..] == rest;
    var i := |mimeType|;
    assert rest[..i] == mimeType && rest[i..] == tail;
    FirstIndexAt(rest, i, ';');
    assert tail[..8] == marker;
    assert tail[8..] == base64;
  }

  /** The field names of the JSON bodies. */
  datatype Field = ImageField | ModelField | DomainField | FileIdField | BatchField | UrlField | ModeField

  /** The name a field has on the wire. */
  function FieldName(f: Field): string {
    match f
    case ImageField => "image"
    case ModelField => "model"
    case DomainField => "domain"
    case FileIdField => "file_id"
    case BatchField => "batch"
    case UrlField => "url"
    case ModeField => "mode"
  }

  /**
   * The object a JSON body is sent as: the fields of the literal the performer builds,
   * less those that are `undefined`, which serialisation drops.
   */
  function Fields(body: Body): map<Field, Json>
    requires !body.UploadForm?
  {
    match body
    case EmptyBody => map[]
    case ImagePayload(image, model, domain) =>
      Put(Put(Put(map[], ImageField, JStr(image)), ModelField, model), DomainField, DomainJson(domain))
    case GenerateRequest(fileId, model, domain, batch) =>
      Put(Put(Put(Put(map[], FileIdField, fileId), ModelField, model), DomainField, DomainJson(domain)), BatchField, JBool(batch))
    case WebpageRequest(url, model, domain, mode) =>
      Put(Put(Put(Put(map[], UrlField, url), ModelField, model), DomainField, DomainJson(domain)), ModeField, mode)
    case DocumentEmbeddingRequest(fileId, model, batch) =>
      Put(Put(Put(map[], FileIdField, fileId), ModelField, model), BatchField, JBool(batch))
    case ImageEmbeddingPayload(image, model) =>
      Put(Put(map[], ImageField, JStr(image)), ModelField, model)
  }

  /** Adds a field to an object literal as serialisation sees it: an `undefined` value leaves no field. */
  function Put(m: map<Field, Json>, key: Field, value: Json): map<Field, Json> {
    if value == JUndefined then m else m[key := value]
  }

  /** `OperationToDomain[operation]` as a field value: the taxonomy string, or `undefined`. */
  function DomainJson(domain: Option<Domain>): Json {
    match domain
    case Some(d) => JStr(DomainValue(d))
    case None => JUndefined
  }

  // ---------------------------------------------------------------- performers

  /** The download step's own call: the file is fetched once its URL has parsed. */
  function DownloadCalls(file: string, reply: DownloadReply): seq<Call> {
    if reply.pathname.Success? then [Download(file)] else []
  }

  /** The headers of the upload: the bearer token and the form's multipart content type, naming the form's boundary. */
  function UploadHeaders(auth: AuthData, boundary: string): (h: map<string, string>)
    ensures h.Keys == {"Authorization", "content-type"}
    ensures h["Authorization"] == BearerToken(auth.apiKey)
    ensures h["content-type"] == "multipart/form-data; boundary=" + boundary
  {
    map["Authorization" := BearerToken(auth.apiKey), "content-type" := "multipart/form-data; boundary=" + boundary]
  }

  /** `performFileUpload`: downloads the file and posts it, under its derived name, to `/files`. */
  function PerformFileUpload(auth: AuthData, input: InputData, w: World): (r: Run)
    ensures |r.calls| <= 2
    ensures r.result.Success? ==> |r.calls| == 2 && r.result == MakeApiRequest(w.uploadReply)
  {
    var fetched := DownloadCalls(input.file, w.download);
    match DownloadStream(w.download)
    case Failure(e) => Run(fetched, Failure(e))
    case Success(download) =>
      Then(fetched, Request(POST, GetBaseUrl(auth) + "/files", UploadHeaders(auth, w.boundary),
                            UploadForm(download.fileName)), w.uploadReply)
  }

  /** `fileResponse.id` of a finished upload. */
  function UploadedFileId(upload: Run): Result<Json, string> {
    match upload.result
    case Failure(e) => Failure(e)
    case Success(file) => Property(file, "id")
  }

  /** A POST of a JSON body with the common headers to a path under the base URL. */
  function JsonPost(auth: AuthData, path: string, body: Body): Call {
    Request(POST, GetBaseUrl(auth) + path, GetCommonHeaders(auth, JsonContent), body)
  }

  /** `performImageOperation`: reads the file inline and posts it with the model and the operation's domain. */
  function PerformImageOperation(auth: AuthData, op: string, input: InputData, w: World): (r: Run)
    ensures |r.calls| <= 2
    ensures r.result.Success? ==> |r.calls| == 2 && r.result == MakeApiRequest(w.apiReply)
  {
    var fetched := DownloadCalls(input.file, w.download);
    match InlinePayloadOf(w.download)
    case Failure(e) => Run(fetched, Failure(e))
    case Success(payload) =>
      var image := DataUrl(payload.mimeType, payload.base64);
      Then(fetched, JsonPost(auth, "/image/generate", ImagePayload(image, input.model, DomainOf(op))), w.apiReply)
  }

  /** `performDocumentOperation`: uploads the file, then asks for generation over it with `batch: false`. */
  function PerformDocumentOperation(auth: AuthData, op: string, input: InputData, w: World): (r: Run)
    ensures |r.calls| <= 3
    ensures r.result.Success? ==> |r.calls| == 3 && r.result == MakeApiRequest(w.apiReply)
  {
    var upload := PerformFileUpload(auth, input, w);
    match UploadedFileId(upload)
    case Failure(e) => Run(upload.calls, Failure(e))
    case Success(id) =>
      Then(upload.calls, JsonPost(auth, "/document/generate", GenerateRequest(id, input.model, DomainOf(op), false)), w.apiReply)
  }

  /** `performAudioOperation`: as for documents, against the audio endpoint. */
  function PerformAudioOperation(auth: AuthData, op: string, input: InputData, w: World): (r: Run)
    ensures |r.calls| <= 3
    ensures r.result.Success? ==> |r.calls| == 3 && r.result == MakeApiRequest(w.apiReply)
  {
    var upload := PerformFileUpload(auth, input, w);
    match UploadedFileId(upload)
    case Failure(e) => Run(upload.calls, Failure(e))
    case Success(id) =>
      Then(upload.calls, JsonPost(auth, "/audio/generate", GenerateRequest(id, input.model, DomainOf(op), false)), w.apiReply)
  }

  /** `performAgentOperation`: one request with the page URL, model, domain and mode, without `batch`. */
  function PerformAgentOperation(auth: AuthData, op: string, input: InputData, w: World): (r: Run)
    ensures |r.calls| == 1 && r.result == MakeApiRequest(w.apiReply)
  {
    Then([], JsonPost(auth, "/web/generate", WebpageRequest(input.url, input.model, DomainOf(op), input.mode)), w.apiReply)
  }

  /** Document embeddings go through an upload, image embeddings inline; any other operation resolves with `undefined`. */
  function PerformExperimentalOperation(auth: AuthData, op: string, input: InputData, w: World): (r: Run)
    ensures |r.calls| <= 3
    ensures op == Identifier(DocumentEmbedding) || op == Identifier(ImageEmbedding) ==>
      (r.result.Success? ==> r.result == MakeApiRequest(w.apiReply))
  {
    if op == Identifier(DocumentEmbedding) then
      var upload := PerformFileUpload(auth, input, w);
      match UploadedFileId(upload)
      case Failure(e) => Run(upload.calls, Failure(e))
      case Success(id) =>
        Then(upload.calls, JsonPost(auth, "/experimental/document/embeddings", DocumentEmbeddingRequest(id, input.model, false)), w.apiReply)
    else if op == Identifier(ImageEmbedding) then
      var fetched := DownloadCalls(input.file, w.download);
      match InlinePayloadOf(w.download)
      case Failure(e) => Run(fetched, Failure(e))
      case Success(payload) =>
        var image := DataUrl(payload.mimeType, payload.base64);
        Then(fetched, JsonPost(auth, "/experimental/image/embeddings", ImageEmbeddingPayload(image, input.model)), w.apiReply)
    else Run([], Success(JUndefined))
  }

  /** The file listing URL: the query `skip=0&limit=10` is never empty, so the `?` is always there. */
  function FileListUrl(auth: AuthData): string {
    GetBaseUrl(auth) + "/files" + "?" + "skip=0&limit=10"
  }

  /** `fileList.length > 0`, for the values a length can be; a text, array or object length counts as not positive. */
  predicate IsPositive(n: Json) {
    match n
    case JNum(k) => k > 0
    case JBool(b) => b
    case _ => false
  }

  /** `{fileList: list}` for a list with entries, `{fileList: 'No file found'}` otherwise. */
  function FileListResult(list: Json): (r: Result<Json, string>)
    ensures r.Failure? <==> list.JUndefined? || list.JNull?
    ensures r.Success? ==> r.value.JObj? && r.value.fields.Keys == {"fileList"}
    ensures list.JArr? ==>
      r == Success(JObj(map["fileList" := if |list.items| > 0 then list else JStr(NoFileFound)]))
  {
    match Property(list, "length")
    case Failure(e) => Failure(e)
    case Success(n) => Success(JObj(map["fileList" := if IsPositive(n) then list else JStr(NoFileFound)]))
  }

  function PerformFileHandleOperation(auth: AuthData, op: string, input: InputData, w: World): (r: Run)
    ensures |r.calls| <= 2
  {
    if op == Identifier(FileUpload) then PerformFileUpload(auth, input, w)
    else if op == Identifier(FileList) then
      var listing := Then([], Request(GET, FileListUrl(auth), GetCommonHeaders(auth, JsonContent), EmptyBody), w.apiReply);
      match listing.result
      case Failure(_) => listing
      case Success(list) => Run(listing.calls, FileListResult(list))
    else Run([], Success(JUndefined))
  }

  /** The performer of a family. */
  function Perform(f: Family, auth: AuthData, op: string, input: InputData, w: World): Run {
    match f
    case ImageFamily => PerformImageOperation(auth, op, input, w)
    case DocumentFamily => PerformDocumentOperation(auth, op, input, w)
    case AgentFamily => PerformAgentOperation(auth, op, input, w)
    case AudioFamily => PerformAudioOperation(auth, op, input, w)
    case ExperimentalFamily => PerformExperimentalOperation(auth, op, input, w)
    case FileHandleFamily => PerformFileHandleOperation(auth, op, input, w)
  }

  /**
   * `performOperation`: routes the operation to its performer; an operation in no list
   * is invalid, and every error that leaves is rethrown with the upload prefix.
   */
  function PerformOperation(auth: AuthData, input: InputData, w: World): (r: Run)
    ensures r.result.Failure? ==> StartsWith(r.result.error, UploadFailedPrefix)
    ensures RouteInput(input.operation).None? ==>
      r == Run([], Failure(UploadFailedPrefix + InvalidOperationPrefix + ToText(input.operation)))
    ensures RouteInput(input.operation).Some? ==>
      var inner := Perform(RouteInput(input.operation).value, auth, input.operation.s, input, w);
      r.calls == inner.calls && r.result.Success? == inner.result.Success? &&
      (inner.result.Success? ==> r.result.value == inner.result.value) &&
      (inner.result.Failure? ==> r.result.error == UploadFailedPrefix + inner.result.error)
  {
    match RouteInput(input.operation)
    case None => Run([], Failure(UploadFailedPrefix + InvalidOperationPrefix + ToText(input.operation)))
    case Some(f) =>
      var inner := Perform(f, auth, input.operation.s, input, w);
      match inner.result
      case Failure(e) => Run(inner.calls, Failure(UploadFailedPrefix + e))
      case Success(v) => inner
  }

  /**
   * Dispatch by operation: an operation with a family runs that family's performer, and
   * the five without one fail as invalid before any call is made.
   */
  lemma OperationDispatch(auth: AuthData, input: InputData, w: World, o: Operation)
    requires input.operation == JStr(Identifier(o))
    ensures var r := PerformOperation(auth, input, w);
      (FamilyOf(o).Some? ==> r.calls == Perform(FamilyOf(o).value, auth, Identifier(o), input, w).calls) &&
      (FamilyOf(o).None? ==>
        r == Run([], Failure(UploadFailedPrefix + InvalidOperationPrefix + Identifier(o))))
  {
    RouteOfOperation(o);
  }

  /**
   * Listing files: one GET of the listing URL; a non-empty list is returned under
   * `fileList`, an empty one is replaced by the sentinel text, and a failed request or a
   * reply without data fails.
   */
  lemma FileListOutcome(auth: AuthData, input: InputData, w: World)
    ensures var r := PerformFileHandleOperation(auth, Identifier(FileList), input, w);
      r.calls == [Request(GET, FileListUrl(auth), GetCommonHeaders(auth, JsonContent), EmptyBody)] &&
      (MakeApiRequest(w.apiReply).Failure? ==> r.result == Failure(MakeApiRequest(w.apiReply).error)) &&
      (MakeApiRequest(w.apiReply).Success? ==>
        var list := MakeApiRequest(w.apiReply).value;
        (list.JArr? && |list.items| > 0 ==> r.result == Success(JObj(map["fileList" := list]))) &&
        (list.JArr? && |list.items| == 0 ==> r.result == Success(JObj(map["fileList" := JStr(NoFileFound)]))) &&
        (list.JNull? || list.JUndefined? ==> r.result.Failure?))
  {
    assert Identifier(FileList) != Identifier(FileUpload);
  }

  /** The listing URL is the base URL followed by `/files?skip=0&limit=10`. */
  lemma FileListUrlText(auth: AuthData)
    ensures FileListUrl(auth) == GetBaseUrl(auth) + "/files?skip=0&limit=10"
  {
    assert "/files" + "?" + "skip=0&limit=10" == "/files?skip=0&limit=10";
  }

  /**
   * An inline read that cannot open the download adds its own prefix, and a stream error
   * is reported as it is; the dispatcher then adds the upload prefix.
   */
  lemma InlineDownloadErrors(auth: AuthData, op: string, input: InputData, w: World)
    ensures var r := PerformImageOperation(auth, op, input, w);
      (DownloadStream(w.download).Failure? ==>
        r.result == Failure(DownloadFailedPrefix + DownloadStream(w.download).error)) &&
      (DownloadStream(w.download).Success? && DownloadStream(w.download).value.stream.streamError.Some? ==>
        r.result == Failure(DownloadStream(w.download).value.stream.streamError.value))
  {
  }

  /** An upload that cannot open the download reports the bare error, after at most the download call. */
  lemma UploadDownloadErrors(auth: AuthData, op: string, input: InputData, w: World)
    requires DownloadStream(w.download).Failure?
    ensures var r := PerformDocumentOperation(auth, op, input, w);
      r.result == Failure(DownloadStream(w.download).error) && |r.calls| <= 1
  {
  }

  /**
   * The credential hook changes no header the performers send: they already carry
   * `Bearer <key>` in `Authorization`, which is what the hook would set.
   */
  lemma ApiKeyHookKeepsHeaders(auth: AuthData, kind: ContentKind, boundary: string)
    ensures HasApiKey(auth.apiKey) ==>
      GetCommonHeaders(auth, kind)["Authorization" := "Bearer " + auth.apiKey.value] == GetCommonHeaders(auth, kind)
    ensures HasApiKey(auth.apiKey) ==>
      UploadHeaders(auth, boundary)["Authorization" := "Bearer " + auth.apiKey.value] == UploadHeaders(auth, boundary)
  {
  }

  // ---------------------------------------------------------------- what the requests carry

  /** The families whose requests name a domain, and those whose requests carry `batch`. */
  predicate SendsDomain(f: Family) {
    f == ImageFamily || f == DocumentFamily || f == AgentFamily || f == AudioFamily
  }

  predicate SendsBatch(f: Family, op: string) {
    f == DocumentFamily || f == AudioFamily || (f == ExperimentalFamily && op == Identifier(DocumentEmbedding))
  }

  /** The families whose JSON request carries the downloaded file inline: images and image embeddings. */
  predicate SendsImage(f: Family, op: string) {
    f == ImageFamily || (f == ExperimentalFamily && op != Identifier(DocumentEmbedding))
  }

  /** The policy of the fields of a body, given the domain the performer looked up. */
  predicate FieldPolicy(f: Family, op: string, domain: Option<Domain>, fields: map<Field, Json>) {
    (BatchField in fields <==> SendsBatch(f, op)) &&
    (BatchField in fields ==> fields[BatchField] == JBool(false)) &&
    (DomainField in fields <==> SendsDomain(f) && domain.Some?) &&
    (DomainField in fields ==> fields[DomainField] == JStr(DomainValue(domain.value)))
  }

  /** A field copied from the input: present exactly when the family sends it and the input defines it, and then the input's value. */
  predicate Copied(fields: map<Field, Json>, key: Field, sent: bool, value: Json) {
    (key in fields <==> sent && value != JUndefined) && (key in fields ==> fields[key] == value)
  }

  /** Every body but the file listing's carries the model; the agent's also carries the page URL and the mode. */
  predicate InputPolicy(f: Family, input: InputData, fields: map<Field, Json>) {
    Copied(fields, ModelField, f != FileHandleFamily, input.model) &&
    Copied(fields, UrlField, f == AgentFamily, input.url) &&
    Copied(fields, ModeField, f == AgentFamily, input.mode)
  }

  /** The verb of a family's JSON request: the file listing reads, every other family posts. */
  function EndpointVerb(f: Family): HttpMethod {
    if f == FileHandleFamily then GET else POST
  }

  /** The URL of a family's JSON request, one endpoint per family and two for the experimental one. */
  function EndpointUrl(auth: AuthData, f: Family, op: string): string {
    match f
    case ImageFamily => GetBaseUrl(auth) + "/image/generate"
    case DocumentFamily => GetBaseUrl(auth) + "/document/generate"
    case AgentFamily => GetBaseUrl(auth) + "/web/generate"
    case AudioFamily => GetBaseUrl(auth) + "/audio/generate"
    case ExperimentalFamily =>
      if op == Identifier(DocumentEmbedding) then GetBaseUrl(auth) + "/experimental/document/embeddings"
      else GetBaseUrl(auth) + "/experimental/image/embeddings"
    case FileHandleFamily => FileListUrl(auth)
  }

  /**
   * What a JSON request of an operation of family `f` carries: the family's verb and
   * endpoint and the common JSON headers; `batch: false` exactly for the upload-based
   * generate and embedding requests; the operation's domain exactly when the family sends
   * one and the table maps the operation; the model, page URL and mode from the input;
   * the uploaded file's id as `file_id` exactly for those upload-based requests whose id is
   * defined; the downloaded file as a data URL in `image` exactly for the inline families.
   */
  predicate JsonRequestOk(auth: AuthData, f: Family, op: string, input: InputData, w: World, c: Call)
    requires c.Request? && !c.body.UploadForm?
  {
    var fields := Fields(c.body);
    c.verb == EndpointVerb(f) && c.url == EndpointUrl(auth, f, op) &&
    c.headers == GetCommonHeaders(auth, JsonContent) &&
    FieldPolicy(f, op, DomainOf(op), fields) &&
    InputPolicy(f, input, fields) &&
    (FileIdField in fields <==>
      SendsBatch(f, op) && UploadedFileId(PerformFileUpload(auth, input, w)).Success? &&
      UploadedFileId(PerformFileUpload(auth, input, w)).value != JUndefined) &&
    (FileIdField in fields ==> UploadedFileId(PerformFileUpload(auth, input, w)) == Success(fields[FileIdField])) &&
    (ImageField in fields <==> SendsImage(f, op)) &&
    (ImageField in fields ==>
      InlinePayloadOf(w.download).Success? &&
      var p := InlinePayloadOf(w.download).value; fields[ImageField] == JStr(DataUrl(p.mimeType, p.base64)))
  }

  /** The upload: a POST of the form to `/files`, under the name the download step derived. */
  predicate UploadRequestOk(auth: AuthData, w: World, c: Call)
    requires c.Request? && c.body.UploadForm?
  {
    c.verb == POST && c.url == GetBaseUrl(auth) + "/files" && c.headers == UploadHeaders(auth, w.boundary) &&
    DownloadStream(w.download).Success? && c.body.fileName == DownloadStream(w.download).value.fileName
  }

  /**
   * An upload downloads the file and, once the download has opened, posts the form and
   * resolves with the reply; otherwise it fails with the download's error.
   */
  lemma UploadRequests(auth: AuthData, input: InputData, w: World)
    ensures var r := PerformFileUpload(auth, input, w);
      (forall c | c in r.calls && c.Request? :: c.body.UploadForm? && UploadRequestOk(auth, w, c)) &&
      (DownloadStream(w.download).Success? ==>
        |r.calls| == 2 && r.calls[0] == Download(input.file) && r.calls[1].Request? &&
        r.result == MakeApiRequest(w.uploadReply)) &&
      (DownloadStream(w.download).Failure? ==>
        |r.calls| <= 1 && (forall c | c in r.calls :: c == Download(input.file)) &&
        r.result == Failure(DownloadStream(w.download).error))
  {
  }

  /** What every request of a routed operation carries, for each family. */
  predicate RequestOk(auth: AuthData, f: Family, op: string, input: InputData, w: World, c: Call)
    requires c.Request?
  {
    if c.body.UploadForm? then UploadRequestOk(auth, w, c) else JsonRequestOk(auth, f, op, input, w, c)
  }

  /** A run that read the file inline: the download, then one JSON request whose reply it resolves with. */
  predicate InlineThenRequest(input: InputData, w: World, r: Run) {
    |r.calls| == 2 && r.calls[0] == Download(input.file) &&
    r.calls[1].Request? && !r.calls[1].body.UploadForm? &&
    r.result == MakeApiRequest(w.apiReply)
  }

  /** A run that uploaded the file: the download, the upload, then one JSON request whose reply it resolves with. */
  predicate UploadThenRequest(input: InputData, w: World, r: Run) {
    |r.calls| == 3 && r.calls[0] == Download(input.file) &&
    r.calls[1].Request? && r.calls[1].body.UploadForm? &&
    r.calls[2].Request? && !r.calls[2].body.UploadForm? &&
    r.result == MakeApiRequest(w.apiReply)
  }

  /** A run that stopped before its JSON request: only the download's calls, and the inline read's error. */
  predicate InlineFailed(input: InputData, w: World, r: Run) {
    InlinePayloadOf(w.download).Failure? &&
    r == Run(DownloadCalls(input.file, w.download), Failure(InlinePayloadOf(w.download).error))
  }

  /** A run that stopped before its JSON request: only the upload's calls, and the error of reading the file id. */
  predicate UploadFailed(auth: AuthData, input: InputData, w: World, r: Run) {
    var upload := PerformFileUpload(auth, input, w);
    UploadedFileId(upload).Failure? && r == Run(upload.calls, Failure(UploadedFileId(upload).error))
  }

  lemma ImagePayloadPolicy(op: string, image: string, input: InputData, domain: Option<Domain>)
    ensures var fields := Fields(ImagePayload(image, input.model, domain));
      FieldPolicy(ImageFamily, op, domain, fields) && InputPolicy(ImageFamily, input, fields) &&
      FileIdField !in fields && ImageField in fields && fields[ImageField] == JStr(image)
  {
  }

  /** The download step makes no request. */
  lemma DownloadCallsAreDownloads(file: string, reply: DownloadReply)
    ensures forall x | x in DownloadCalls(file, reply) :: x.Download?
  {
  }

  /** The upload's request passes for every family, since it carries the form. */
  lemma UploadCallsOk(auth: AuthData, f: Family, op: string, input: InputData, w: World)
    ensures forall x | x in PerformFileUpload(auth, input, w).calls && x.Request? :: RequestOk(auth, f, op, input, w, x)
  {
    UploadRequests(auth, input, w);
  }

  /** A request that passes, appended to calls whose requests pass. */
  lemma AppendedRequestOk(auth: AuthData, f: Family, op: string, input: InputData, w: World, prior: seq<Call>, c: Call)
    requires forall x | x in prior && x.Request? :: RequestOk(auth, f, op, input, w, x)
    requires c.Request? && RequestOk(auth, f, op, input, w, c)
    ensures forall x | x in prior + [c] && x.Request? :: RequestOk(auth, f, op, input, w, x)
  {
  }

  lemma ImageCallOk(auth: AuthData, op: string, input: InputData, w: World, p: InlinePayload)
    requires InlinePayloadOf(w.download) == Success(p)
    ensures JsonRequestOk(auth, ImageFamily, op, input, w,
      JsonPost(auth, "/image/generate", ImagePayload(DataUrl(p.mimeType, p.base64), input.model, DomainOf(op))))
  {
    ImagePayloadPolicy(op, DataUrl(p.mimeType, p.base64), input, DomainOf(op));
  }

  /**
   * An image operation downloads the file and posts it inline to its endpoint, with the
   * common headers, the model and the operation's domain, and resolves with the reply;
   * a failed inline read stops it before the request.
   */
  lemma ImageRequests(auth: AuthData, op: string, input: InputData, w: World)
    ensures var r := Perform(ImageFamily, auth, op, input, w);
      (forall c | c in r.calls && c.Request? :: RequestOk(auth, ImageFamily, op, input, w, c)) &&
      (InlinePayloadOf(w.download).Success? ==> InlineThenRequest(input, w, r)) &&
      (InlinePayloadOf(w.download).Failure? ==> InlineFailed(input, w, r))
  {
    var fetched := DownloadCalls(input.file, w.download);
    DownloadCallsAreDownloads(input.file, w.download);
    if InlinePayloadOf(w.download).Success? {
      var p := InlinePayloadOf(w.download).value;
      var c := JsonPost(auth, "/image/generate", ImagePayload(DataUrl(p.mimeType, p.base64), input.model, DomainOf(op)));
      ImageCallOk(auth, op, input, w, p);
      AppendedRequestOk(auth, ImageFamily, op, input, w, fetched, c);
    }
  }

  lemma GeneratePolicy(f: Family, op: string, fileId: Json, input: InputData, domain: Option<Domain>)
    requires f == DocumentFamily || f == AudioFamily
    ensures var fields := Fields(GenerateRequest(fileId, input.model, domain, false));
      FieldPolicy(f, op, domain, fields) && InputPolicy(f, input, fields) && ImageField !in fields &&
      (FileIdField in fields <==> fileId != JUndefined) && (FileIdField in fields ==> fields[FileIdField] == fileId)
  {
  }

  lemma GenerateCallOk(auth: AuthData, f: Family, op: string, input: InputData, w: World, id: Json)
    requires f == DocumentFamily || f == AudioFamily
    requires UploadedFileId(PerformFileUpload(auth, input, w)) == Success(id)
    ensures var path := if f == DocumentFamily then "/document/generate" else "/audio/generate";
      JsonRequestOk(auth, f, op, input, w, JsonPost(auth, path, GenerateRequest(id, input.model, DomainOf(op), false)))
  {
    var path := if f == DocumentFamily then "/document/generate" else "/audio/generate";
    var c := JsonPost(auth, path, GenerateRequest(id, input.model, DomainOf(op), false));
    GeneratePolicy(f, op, id, input, DomainOf(op));
    assert c.url == EndpointUrl(auth, f, op);
    assert SendsBatch(f, op) && !SendsImage(f, op);
  }

  /** The run of an upload-based performer once the file id is known. */
  lemma UploadThenRequestShape(auth: AuthData, input: InputData, w: World, c: Call)
    requires UploadedFileId(PerformFileUpload(auth, input, w)).Success?
    requires c.Request? && !c.body.UploadForm?
    ensures UploadThenRequest(input, w, Then(PerformFileUpload(auth, input, w).calls, c, w.apiReply))
  {
    UploadRequests(auth, input, w);
  }

  /**
   * Document and audio operations upload the file, then post the uploaded id with
   * `batch: false`, the model and the operation's domain to their endpoint, and resolve
   * with the reply. A failed upload, or one whose reply is `null` or `undefined` so that
   * reading its `id` throws, stops before the request; a reply without `id` is posted
   * without `file_id`.
   */
  lemma GenerateRequests(auth: AuthData, f: Family, op: string, input: InputData, w: World)
    requires f == DocumentFamily || f == AudioFamily
    ensures var r := Perform(f, auth, op, input, w);
      (forall c | c in r.calls && c.Request? :: RequestOk(auth, f, op, input, w, c)) &&
      (UploadedFileId(PerformFileUpload(auth, input, w)).Success? ==> UploadThenRequest(input, w, r)) &&
      (UploadedFileId(PerformFileUpload(auth, input, w)).Failure? ==> UploadFailed(auth, input, w, r))
  {
    var upload := PerformFileUpload(auth, input, w);
    UploadCallsOk(auth, f, op, input, w);
    if UploadedFileId(upload).Success? {
      var id := UploadedFileId(upload).value;
      var path := if f == DocumentFamily then "/document/generate" else "/audio/generate";
      var c := JsonPost(auth, path, GenerateRequest(id, input.model, DomainOf(op), false));
      GenerateCallOk(auth, f, op, input, w, id);
      AppendedRequestOk(auth, f, op, input, w, upload.calls, c);
      UploadThenRequestShape(auth, input, w, c);
    }
  }

  lemma WebpagePolicy(op: string, input: InputData, domain: Option<Domain>)
    ensures var fields := Fields(WebpageRequest(input.url, input.model, domain, input.mode));
      FieldPolicy(AgentFamily, op, domain, fields) && InputPolicy(AgentFamily, input, fields) &&
      ImageField !in fields && FileIdField !in fields
  {
  }

  /**
   * An agent operation makes one request, a POST to the web endpoint carrying the page
   * URL, model, mode and the operation's domain, and resolves with its reply.
   */
  lemma AgentRequests(auth: AuthData, op: string, input: InputData, w: World)
    ensures var r := Perform(AgentFamily, auth, op, input, w);
      |r.calls| == 1 && r.calls[0].Request? && !r.calls[0].body.UploadForm? &&
      RequestOk(auth, AgentFamily, op, input, w, r.calls[0]) &&
      r.result == MakeApiRequest(w.apiReply)
  {
    WebpagePolicy(op, input, DomainOf(op));
  }

  lemma DocumentEmbeddingPolicy(op: string, fileId: Json, input: InputData, domain: Option<Domain>)
    requires op == Identifier(DocumentEmbedding)
    ensures var fields := Fields(DocumentEmbeddingRequest(fileId, input.model, false));
      FieldPolicy(ExperimentalFamily, op, domain, fields) && InputPolicy(ExperimentalFamily, input, fields) &&
      ImageField !in fields &&
      (FileIdField in fields <==> fileId != JUndefined) && (FileIdField in fields ==> fields[FileIdField] == fileId)
  {
  }

  lemma ImageEmbeddingPolicy(op: string, image: string, input: InputData, domain: Option<Domain>)
    requires op != Identifier(DocumentEmbedding)
    ensures var fields := Fields(ImageEmbeddingPayload(image, input.model));
      FieldPolicy(ExperimentalFamily, op, domain, fields) && InputPolicy(ExperimentalFamily, input, fields) &&
      FileIdField !in fields && ImageField in fields && fields[ImageField] == JStr(image)
  {
  }

  lemma DocumentEmbeddingCallOk(auth: AuthData, op: string, input: InputData, w: World, id: Json)
    requires op == Identifier(DocumentEmbedding)
    requires UploadedFileId(PerformFileUpload(auth, input, w)) == Success(id)
    ensures JsonRequestOk(auth, ExperimentalFamily, op, input, w,
      JsonPost(auth, "/experimental/document/embeddings", DocumentEmbeddingRequest(id, input.model, false)))
  {
    var c := JsonPost(auth, "/experimental/document/embeddings", DocumentEmbeddingRequest(id, input.model, false));
    DocumentEmbeddingPolicy(op, id, input, DomainOf(op));
    assert c.url == EndpointUrl(auth, ExperimentalFamily, op);
  }

  /**
   * Document embedding uploads the file, then posts the uploaded id and the model with
   * `batch: false` and no domain, and resolves with the reply. A failed upload, or one
   * whose reply is `null` or `undefined`, stops before the request; a reply without `id`
   * is posted without `file_id`.
   */
  lemma DocumentEmbeddingRequests(auth: AuthData, input: InputData, w: World)
    ensures var op := Identifier(DocumentEmbedding); var r := Perform(ExperimentalFamily, auth, op, input, w);
      (forall c | c in r.calls && c.Request? :: RequestOk(auth, ExperimentalFamily, op, input, w, c)) &&
      (UploadedFileId(PerformFileUpload(auth, input, w)).Success? ==> UploadThenRequest(input, w, r)) &&
      (UploadedFileId(PerformFileUpload(auth, input, w)).Failure? ==> UploadFailed(auth, input, w, r))
  {
    var op := Identifier(DocumentEmbedding);
    var upload := PerformFileUpload(auth, input, w);
    UploadCallsOk(auth, ExperimentalFamily, op, input, w);
    if UploadedFileId(upload).Success? {
      var id := UploadedFileId(upload).value;
      var c := JsonPost(auth, "/experimental/document/embeddings", DocumentEmbeddingRequest(id, input.model, false));
      DocumentEmbeddingCallOk(auth, op, input, w, id);
      AppendedRequestOk(auth, ExperimentalFamily, op, input, w, upload.calls, c);
      UploadThenRequestShape(auth, input, w, c);
    }
  }

  lemma ImageEmbeddingCallOk(auth: AuthData, op: string, input: InputData, w: World, p: InlinePayload)
    requires op != Identifier(DocumentEmbedding)
    requires InlinePayloadOf(w.download) == Success(p)
    ensures JsonRequestOk(auth, ExperimentalFamily, op, input, w,
      JsonPost(auth, "/experimental/image/embeddings", ImageEmbeddingPayload(DataUrl(p.mimeType, p.base64), input.model)))
  {
    ImageEmbeddingPolicy(op, DataUrl(p.mimeType, p.base64), input, DomainOf(op));
  }

  /**
   * Image embedding downloads the file and posts it inline with the model and no domain,
   * and resolves with the reply; a failed inline read stops it before the request. Any
   * other experimental identifier makes no call and resolves with `undefined`.
   */
  lemma ImageEmbeddingRequests(auth: AuthData, op: string, input: InputData, w: World)
    requires op != Identifier(DocumentEmbedding)
    ensures var r := Perform(ExperimentalFamily, auth, op, input, w);
      (forall c | c in r.calls && c.Request? :: RequestOk(auth, ExperimentalFamily, op, input, w, c)) &&
      (op == Identifier(ImageEmbedding) && InlinePayloadOf(w.download).Success? ==> InlineThenRequest(input, w, r)) &&
      (op == Identifier(ImageEmbedding) && InlinePayloadOf(w.download).Failure? ==> InlineFailed(input, w, r)) &&
      (op != Identifier(ImageEmbedding) ==> r == Run([], Success(JUndefined)))
  {
    DownloadCallsAreDownloads(input.file, w.download);
    if op == Identifier(ImageEmbedding) && InlinePayloadOf(w.download).Success? {
      var p := InlinePayloadOf(w.download).value;
      var c := JsonPost(auth, "/experimental/image/embeddings", ImageEmbeddingPayload(DataUrl(p.mimeType, p.base64), input.model));
      ImageEmbeddingCallOk(auth, op, input, w, p);
      AppendedRequestOk(auth, ExperimentalFamily, op, input, w, DownloadCalls(input.file, w.download), c);
    }
  }

  lemma FileListCallOk(auth: AuthData, op: string, input: InputData, w: World)
    ensures JsonRequestOk(auth, FileHandleFamily, op, input, w,
      Request(GET, FileListUrl(auth), GetCommonHeaders(auth, JsonContent), EmptyBody))
  {
    assert Fields(EmptyBody) == map[];
  }

  /** The listing's run: one GET of the listing URL with the common headers and the empty body `{}`, which passes; a listing that succeeds resolves with an object holding only `fileList`. */
  lemma FileListRun(auth: AuthData, op: string, input: InputData, w: World)
    requires op == Identifier(FileList)
    ensures var r := PerformFileHandleOperation(auth, op, input, w);
      r.calls == [Request(GET, FileListUrl(auth), GetCommonHeaders(auth, JsonContent), EmptyBody)] &&
      RequestOk(auth, FileHandleFamily, op, input, w, r.calls[0]) &&
      (r.result.Success? ==> r.result.value.JObj? && r.result.value.fields.Keys == {"fileList"})
  {
    assert Identifier(FileList) != Identifier(FileUpload);
    FileListCallOk(auth, op, input, w);
  }

  /** The upload's run: the download and, once it has opened, the upload form, whose requests pass. */
  lemma FileUploadRun(auth: AuthData, op: string, input: InputData, w: World)
    requires op == Identifier(FileUpload)
    ensures var r := PerformFileHandleOperation(auth, op, input, w);
      (forall c | c in r.calls && c.Request? :: RequestOk(auth, FileHandleFamily, op, input, w, c)) &&
      (DownloadStream(w.download).Success? ==>
        |r.calls| == 2 && r.calls[0] == Download(input.file) && r.calls[1].Request? && r.calls[1].body.UploadForm?)
  {
    UploadCallsOk(auth, FileHandleFamily, op, input, w);
    UploadRequests(auth, input, w);
  }

  /**
   * Listing files makes one GET of the listing URL with the common headers and the body `{}`;
   * uploading makes the download and the upload; any other identifier makes no call.
   */
  lemma FileHandleRequests(auth: AuthData, op: string, input: InputData, w: World)
    ensures var r := Perform(FileHandleFamily, auth, op, input, w);
      (forall c | c in r.calls && c.Request? :: RequestOk(auth, FileHandleFamily, op, input, w, c)) &&
      (op == Identifier(FileList) ==> |r.calls| == 1 && r.calls[0].Request? && r.calls[0].verb == GET && r.calls[0].body == EmptyBody) &&
      (op == Identifier(FileUpload) && DownloadStream(w.download).Success? ==>
        |r.calls| == 2 && r.calls[0] == Download(input.file) && r.calls[1].Request? && r.calls[1].body.UploadForm?) &&
      (op != Identifier(FileList) && op != Identifier(FileUpload) ==> r == Run([], Success(JUndefined)))
  {
    if op == Identifier(FileUpload) {
      assert op != Identifier(FileList);
      FileUploadRun(auth, op, input, w);
    } else if op == Identifier(FileList) {
      FileListRun(auth, op, input, w);
    }
  }

  /**
   * Every request a routed operation makes is either the upload of the downloaded file,
   * under its derived name, or a JSON request to its family's endpoint with the common
   * headers whose fields follow the policy of its family.
   */
  lemma RequestsOfOperation(auth: AuthData, input: InputData, w: World)
    ensures var r := PerformOperation(auth, input, w);
      (RouteInput(input.operation).None? ==> r.calls == []) &&
      (RouteInput(input.operation).Some? ==>
        forall c | c in r.calls && c.Request? ::
          RequestOk(auth, RouteInput(input.operation).value, input.operation.s, input, w, c))
  {
    if RouteInput(input.operation).Some? {
      var op := input.operation.s;
      match RouteInput(input.operation).value
      case ImageFamily => ImageRequests(auth, op, input, w);
      case DocumentFamily => GenerateRequests(auth, DocumentFamily, op, input, w);
      case AgentFamily => AgentRequests(auth, op, input, w);
      case AudioFamily => GenerateRequests(auth, AudioFamily, op, input, w);
      case ExperimentalFamily =>
        if op == Identifier(DocumentEmbedding) {
          DocumentEmbeddingRequests(auth, input, w);
        } else {
          ImageEmbeddingRequests(auth, op, input, w);
        }
      case FileHandleFamily => FileHandleRequests(auth, op, input, w);
    }
  }

  // ---------------------------------------------------------------- the status poll loop

  /** The status request the poll loop repeats. */
  function StatusRequest(auth: AuthData, documentId: string): Call {
    Request(GET, GetBaseUrl(auth) + "/response/" + documentId, GetCommonHeaders(auth, JsonContent), EmptyBody)
  }

  /** How a poll ends, with the number of status requests it made and of delays it slept. */
  datatype Poll = Poll(result: Result<Json, string>, requests: nat, sleeps: nat)

  /**
   * What the outcome of one status request decides: `Some` of the outcome when the loop
   * leaves, with the data when its status is exactly "completed" or with what the request
   * or the read of `status` threw; `None` when it retries.
   */
  function PollStep(reply: Transport): (r: Option<Result<Json, string>>)
    ensures r.Some? && r.value.Failure? ==>
      StartsWith(r.value.error, ApiFailedPrefix) || StartsWith(r.value.error, "Cannot read properties of ")
  {
    match MakeApiRequest(reply)
    case Failure(e) => Some(Failure(e))
    case Success(data) =>
      match Property(data, "status")
      case Failure(e) => Some(Failure(e))
      case Success(status) => if status == JStr("completed") then Some(Success(data)) else None
  }

  /**
   * The rest of the poll once `attempts` status requests have been answered with a retry;
   * `server(k)` is what `makeApiRequest` resolves with or throws for request `k`.
   */
  function PollFrom(server: nat -> Transport, attempts: nat): (p: Poll)
    requires attempts <= MaxAttempts
    ensures attempts < MaxAttempts ==> p.requests >= 1
    decreases MaxAttempts - attempts
  {
    if attempts == MaxAttempts then Poll(Failure(TimedOutMessage), 0, 0)
    else
      match PollStep(server(attempts))
      case Some(result) => Poll(result, 1, 0)
      case None =>
        var rest := PollFrom(server, attempts + 1);
        Poll(rest.result, rest.requests + 1, rest.sleeps + 1)
  }

  /** After `attempts` retries the poll goes on as from that attempt, with those requests and sleeps added. */
  lemma {:induction false} PollAfterRetries(server: nat -> Transport, attempts: nat)
    requires attempts <= MaxAttempts
    requires forall k :: 0 <= k < attempts ==> PollStep(server(k)).None?
    ensures var rest := PollFrom(server, attempts);
      PollFrom(server, 0) == Poll(rest.result, rest.requests + attempts, rest.sleeps + attempts)
  {
    if attempts > 0 {
      PollAfterRetries(server, attempts - 1);
      assert PollStep(server(attempts - 1)).None?;
    }
  }

  /**
   * `getDocumentResponseWithRetry`: requests the document's status until it is
   * "completed", sleeping after every other answer, and gives up after the budget.
   */
  method GetDocumentResponseWithRetry(auth: AuthData, documentId: string, server: nat -> Transport)
    returns (result: Result<Json, string>, calls: seq<Call>, sleeps: nat)
    ensures result == PollFrom(server, 0).result
    ensures |calls| == PollFrom(server, 0).requests && sleeps == PollFrom(server, 0).sleeps
    ensures forall c | c in calls :: c == StatusRequest(auth, documentId)
  {
    var request := StatusRequest(auth, documentId);
    var attempts := 0;
    calls := [];
    sleeps := 0;
    while attempts < MaxAttempts
      invariant attempts <= MaxAttempts
      invariant |calls| == attempts && sleeps == attempts
      invariant forall c | c in calls :: c == request
      invariant forall k :: 0 <= k < attempts ==> PollStep(server(k)).None?
      decreases MaxAttempts - attempts
    {
      calls := calls + [request];
      // One status request: its failure, a failed read of `status`, or "completed" ends the loop.
      var decision := PollStep(server(attempts));
      if decision.Some? {
        PollAfterRetries(server, attempts);
        return decision.value, calls, sleeps;
      }
      attempts := attempts + 1;
      sleeps := sleeps + 1;
    }
    PollAfterRetries(server, attempts);
    result := Failure(TimedOutMessage);
  }

  /**
   * A poll makes at least one and at most `MaxAttempts` status requests, and sleeps once
   * after each request but the last, unless it timed out, when it slept after every one.
   */
  lemma {:induction false} PollBounds(server: nat -> Transport, attempts: nat)
    requires attempts <= MaxAttempts
    ensures var p := PollFrom(server, attempts);
      p.requests <= MaxAttempts - attempts &&
      (attempts < MaxAttempts ==> p.requests >= 1) &&
      (p.result == Failure(TimedOutMessage) ==> p.requests == p.sleeps == MaxAttempts - attempts) &&
      (p.result != Failure(TimedOutMessage) ==> p.sleeps + 1 == p.requests)
    decreases MaxAttempts - attempts
  {
    if attempts < MaxAttempts {
      var step := PollStep(server(attempts));
      if step.Some? {
        if step.value.Failure? {
          TimeoutIsNotAStepError(step.value.error);
        }
      } else {
        PollBounds(server, attempts + 1);
      }
    }
  }

  /** The errors a status request can throw are not the timeout. */
  lemma TimeoutIsNotAStepError(e: string)
    requires StartsWith(e, ApiFailedPrefix) || StartsWith(e, "Cannot read properties of ")
    ensures e != TimedOutMessage
  {
    assert e[0] == 'A' || e[0] == 'C';
  }

  /** The worst-case total delay of a poll is `MaxAttempts * RetryDelay`: 30 times 4000 ms, two minutes. */
  lemma PollDelay(server: nat -> Transport)
    ensures PollFrom(server, 0).sleeps * RetryDelay <= MaxAttempts * RetryDelay
  {
    PollBounds(server, 0);
  }

  /**
   * When the first `n` replies ask for a retry and reply `n` decides, the poll ends with
   * that decision after `n + 1` requests and `n` sleeps.
   */
  lemma {:induction false} PollStopsAtFirstDecision(server: nat -> Transport, attempts: nat, n: nat)
    requires attempts <= n < MaxAttempts
    requires forall k :: attempts <= k < n ==> PollStep(server(k)).None?
    requires PollStep(server(n)).Some?
    ensures PollFrom(server, attempts) == Poll(PollStep(server(n)).value, n - attempts + 1, n - attempts)
    decreases n - attempts
  {
    if attempts < n {
      PollStopsAtFirstDecision(server, attempts + 1, n);
    }
  }

  /** The poll times out exactly when every one of the `MaxAttempts` replies asks for a retry. */
  lemma {:induction false} TimeoutIffAllRetry(server: nat -> Transport, attempts: nat)
    requires attempts <= MaxAttempts
    ensures PollFrom(server, attempts).result == Failure(TimedOutMessage) <==>
      forall k :: attempts <= k < MaxAttempts ==> PollStep(server(k)).None?
    decreases MaxAttempts - attempts
  {
    if attempts < MaxAttempts {
      var step := PollStep(server(attempts));
      if step.Some? {
        if step.value.Failure? {
          TimeoutIsNotAStepError(step.value.error);
        }
      } else {
        TimeoutIffAllRetry(server, attempts + 1);
      }
    }
  }

  /** A reply with status 200 whose body reports the given processing status. */
  function StatusReply(status: string): Transport {
    Success(HttpResponse(Some(200), JObj(map["status" := JStr(status)])))
  }

  /** A status reply decides the poll exactly when its status is "completed". */
  lemma StatusReplyStep(status: string)
    ensures PollStep(StatusReply(status)).Some? <==> status == "completed"
    ensures status == "completed" ==>
      PollStep(StatusReply(status)) == Some(Success(JObj(map["status" := JStr(status)])))
  {
    var response := HttpResponse(Some(200), JObj(map["status" := JStr(status)]));
    assert HandleBadResponses(response) == Success(response);
  }

  /** A server that reports "processing" to the first `n` requests and "completed" from then on. */
  function LateServer(n: nat): nat -> Transport {
    k => if k < n then StatusReply("processing") else StatusReply("completed")
  }

  /**
   * Completion at reply `n`: `n + 1` requests and `n` sleeps of four seconds; on the last
   * attempt that is thirty requests and 116 seconds of sleep.
   */
  lemma CompletedAfter(n: nat)
    requires n < MaxAttempts
    ensures var p := PollFrom(LateServer(n), 0);
      p.result.Success? && p.requests == n + 1 && p.sleeps == n && p.sleeps * RetryDelay == n * 4000
  {
    var server := LateServer(n);
    StatusReplyStep("processing");
    StatusReplyStep("completed");
    forall k | 0 <= k < n
      ensures PollStep(server(k)).None?
    {
      assert server(k) == StatusReply("processing");
    }
    assert server(n) == StatusReply("completed");
    PollStopsAtFirstDecision(server, 0, n);
  }

  /** A poll whose every reply asks for a retry times out after thirty requests and thirty sleeps. */
  lemma AllRetriesTimeOut(server: nat -> Transport)
    requires forall k :: 0 <= k < MaxAttempts ==> PollStep(server(k)).None?
    ensures PollFrom(server, 0) == Poll(Failure(TimedOutMessage), MaxAttempts, MaxAttempts)
  {
    PollAfterRetries(server, MaxAttempts);
  }
}

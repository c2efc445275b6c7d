# VLM Run Zapier integration: a Dafny model of its core

This project models the core of the VLM Run integration for Zapier. The core has four parts:

- the operation dispatcher `performOperation`, with its six performers and the request helper they share;
- the operation-to-domain table and the other constants;
- the two authentication hooks: the response classifier and the API-key injector;
- the download helpers, which name a remote file and read it inline as base64 text.

Everything that crosses the network is an input to the model:

- a `DownloadReply` holds the parsed URL pathname or its parse error, then the response headers, data chunks and stream error, or the request error;
- a `World` holds that download, the reply to the upload, the reply to the final API request, and the multipart boundary;
- the poll loop's server is a function from the attempt number to the reply.

A performer is a function that returns a `Run`. A `Run` is the sequence of calls the performer makes plus the value it resolves with or the message it throws.

The code that changes state step by step is imperative Dafny:

- `MakeDownloadStream` reassigns the file name;
- `GetMimeTypeAndBase64` appends the chunks in a loop;
- `GetDocumentResponseWithRetry` is the counted poll loop;
- `IncludeApiKey` updates the header map of a `RequestOptions` object in place.

`MakeDownloadStream`, `GetMimeTypeAndBase64` and `GetDocumentResponseWithRetry` are each proved equal to a specification function, and the promised properties are proved about that function. `IncludeApiKey` states its new header map outright in its postcondition.

Modules:

- `Wrappers`: `Option` and `Result`.
- `JsValues`: JSON values, property access `v.key`, and `String(v)`.
- `Constants`: `src/constants/constants.ts`.
- `NodePath`: Node's POSIX `path.basename` and `path.extname` as specification functions.
- `Authentication`: `src/authentication/authentication.ts`.
- `Utils`: `src/helper/utils.ts`. The private copies of these helpers in `src/helper/apiHelper.ts` have the same text, so one model serves both files.
- `ApiHelper`: `src/helper/apiHelper.ts`.

Section 4.1 of RFC 6266 reads `Content-Disposition: attachment; filename="invoice.csv"` as naming the file `invoice.csv`. The pattern `/filename="?(.+)"?/i` is greedy, so its group keeps the closing quote and the model follows the code, which names the file `invoice.csv"`. Because the name then already has the extension `.csv"`, no extension is added. `QuotedFilenameKeepsClosingQuote`, `NameFromDisposition` and `QuoteEndsExtension` state this behaviour.

## Model

| member | source | states |
|---|---|---|
| Constants.OperationNamed | src/constants/constants.ts:14-32 | Reading a string back as an operation yields an operation exactly when the string is that operation's identifier. It yields none when no identifier equals the string. |
| Constants.OperationNamedIdentifier | src/constants/constants.ts:14-32 | Reading an operation's identifier back gives that operation (round trip). |
| Constants.IdentifierInjective | src/constants/constants.ts:14-32 | Two operations with the same identifier string are the same operation. |
| Constants.IdentifiersDistinct | src/constants/constants.ts:14-32 | The seventeen identifier strings are pairwise distinct, so the table is a function of the string. |
| Constants.DomainValueInjective | src/constants/constants.ts:34-85 | The thirty taxonomy strings of `Domain` are pairwise distinct. |
| Constants.DomainOf | src/constants/constants.ts:88-97 | A lookup of `OperationToDomain[key]` finds a domain only when the key is the identifier of an operation in the table, and then finds that entry's domain. |
| Constants.DomainOfIdentifier | src/constants/constants.ts:88-97 | Looking up an operation's identifier gives its entry when the table has one and `undefined` otherwise. |
| Constants.DomainOfOperation | src/constants/constants.ts:88-97 | An operation has a domain if and only if it is one of the seven mapped operations. |
| Constants.TableHasSevenKeys | src/constants/constants.ts:88-97 | The keys of the table are exactly the seven mapped operations. |
| Constants.MappedDomains | src/constants/constants.ts:89-96 | The values of the table are exactly the seven domains of its entries, all members of `Domain`. |
| Constants.TableEntries | src/constants/constants.ts:89-96 | Gives each key's value. `imageCaptioning` maps to `document.generative`, not to `image.caption`. |
| Constants.UnmappedKeys | src/constants/constants.ts:88-97 | Ten keys look up `undefined`. They include `audioTranscription`, the two embeddings, `fileList`, `fileUpload`, `GET` and `POST`. |
| Constants.UnmappedNotInTable | src/constants/constants.ts:88-97 | No unmapped operation is a key of the table. |
| Constants.NoAudioDomain | src/constants/constants.ts:88-97 | No entry uses `audio.transcription`, although that domain exists. |
| Constants.TableInjective | src/constants/constants.ts:88-97 | Two keys whose lookups give the same domain are the same key. |
| Constants.EntriesInjective | src/constants/constants.ts:88-97 | No two operations of the table share a domain. |
| NodePath.Basename | src/helper/apiHelper.ts:275 | `path.basename` has no slash and is no longer than the path. |
| NodePath.BasenameShape | src/helper/apiHelper.ts:275 | `path.basename` has no slash. It is empty exactly for a pathname made only of slashes. |
| NodePath.BasenameIgnoresTrailingSlash | src/helper/apiHelper.ts:275 | A trailing slash does not change `path.basename`, so `/y/` and `/y` both give `y`. |
| NodePath.Extname | src/helper/apiHelper.ts:295 | `path.extname` is empty or starts with a dot. |
| NodePath.ExtnameShape | src/helper/apiHelper.ts:295 | A non-empty `path.extname` is a dot followed by text without dots or slashes, and it ends the base name. |
| NodePath.ExtnameOfAppended | src/helper/apiHelper.ts:299 | When the name is non-empty and has no slash, and the segment is non-empty with no dot or slash, appending `.` and the segment makes that segment the extension. |
| Authentication.HandleBadResponses | src/authentication/authentication.ts:9-32 | A response the classifier lets through is returned unchanged. |
| Authentication.HandleBadResponsesPolicy | src/authentication/authentication.ts:9-32 | The response passes through unchanged if and only if its status is falsy or matches no rule. 401 and 403 throw `AuthenticationError` with the body's `detail` as message, the tag `AuthenticationError` and the status as third argument, or a TypeError when the body is missing. 429 and 503 throw `SystemBusyError` with the fixed message. Any other 4xx status, and only such a status, throws `UnexpectedError` with the fixed message. |
| Authentication.ClassifierExamples | src/authentication/authentication.ts:9-32 | Examples: 404 is unexpected, 200 and 500 pass, 503 is busy, and a 401 carries its `detail` text. |
| Authentication.RequestOptions.IncludeApiKey | src/authentication/authentication.ts:34-43 | With a truthy key, the hook creates the header map when it is absent and sets `Authorization: Bearer <key>`. Without one, the headers are unchanged. No other header changes, and the same request is returned. |
| Utils.GetBaseUrl | src/helper/utils.ts:99-101 | Returns the configured base URL when it is truthy and `https://api.vlm.run/v1` otherwise. |
| Utils.BearerToken | src/helper/utils.ts:95 | The token is `Bearer ` followed by the key. |
| Utils.GetCommonHeaders | src/helper/utils.ts:86-97 | Exactly three headers. `Accept` is JSON and `Authorization` is the bearer token. `Content-Type` is JSON for the JSON kind and `multipart/form-data` for the form kind. |
| Utils.TruthyHeader | src/helper/utils.ts:62-63 | A header counts as present exactly when it exists and is non-empty. |
| Utils.UrlFileName | src/helper/utils.ts:50-55 | The name taken from the URL is never empty. |
| Utils.UrlFileNameIsBasename | src/helper/utils.ts:50-55 | The URL name is the path's base name, or `downloaded_file` when the path is only slashes. It is never empty and has no slash. |
| Utils.MatchFrom | src/helper/utils.ts:64 | A capture of `/filename="?(.+)"?/i` is never empty and holds no line terminator, since `.` does not match one. |
| Utils.FilenameMatch | src/helper/utils.ts:64-66 | A disposition header's match, when there is one, is a non-empty name on one line. |
| Utils.MatchHasKey | src/helper/utils.ts:64 | Every match starts at a case-insensitive `filename=` and is the capture right after it. |
| Utils.NoKeyNoMatch | src/helper/utils.ts:64 | A header without `filename=` in any case does not match. |
| Utils.MatchOnOneLine | src/helper/utils.ts:64-66 | On a one-line header, the capture runs from the first key to the end of the header, less one opening quote. |
| Utils.QuotedFilenameKeepsClosingQuote | src/helper/utils.ts:64-66 | `attachment; filename="N"` captures `N"` for every one-line `N`. |
| Utils.ContentTypeExtension | src/helper/utils.ts:74 | `split("/").pop()` contains no slash. |
| Utils.WithInferredExtension | src/helper/utils.ts:70-77 | Inferring an extension only appends: the name is kept as a prefix of the result. |
| Utils.InferredExtensionIsSubtype | src/helper/utils.ts:70-77 | When the name is non-empty, has no slash and no extension, and the content type's last segment is non-empty and has no dot, the name gets `.` plus that segment as its extension. Inferring again changes nothing. |
| Utils.InferredExtensionKeepsName | src/helper/utils.ts:70-77 | A name with an extension, or a response without a content type, keeps the name. |
| Utils.ExtensionKept | src/helper/utils.ts:70-77 | A name made of a stem, a dot and a segment is never extended, when the stem is non-empty with no slash and the segment is non-empty with no dot or slash. (A dot file such as `.x` has no extension and is extended.) |
| Utils.QuoteEndsExtension | src/helper/utils.ts:70-77 | A captured name of the form stem, dot, segment, closing quote is never extended, when the stem is non-empty with no slash and the segment is non-empty with no dot or slash. The quote then ends the extension. |
| Utils.DownloadFileName | src/helper/utils.ts:50-77 | The derived file name is never empty. |
| Utils.DownloadStream | src/helper/utils.ts:48-84 | The download opens if and only if the URL parsed and the request answered. It then yields the response as its stream, under a non-empty name. |
| Utils.DispositionOverridesUrl | src/helper/utils.ts:61-68 | When the disposition header matches, the URL plays no part in the name. |
| Utils.NameFromUrl | src/helper/apiHelper.ts:274-279 | Without a disposition header, a URL base name with an extension is the file name (`/y/report.pdf` gives `report.pdf`). |
| Utils.NameFromDisposition | src/helper/apiHelper.ts:286-292 | A quoted disposition name replaces the URL's name and keeps its closing quote. |
| Utils.NameFromContentType | src/helper/apiHelper.ts:295-300 | With no disposition header, a non-empty content type, and a pathname that is not all slashes and whose base name has no extension, the name is the base name plus `.` and the content type's last segment (`blob` with `image/png` gives `blob.png`). |
| Utils.MakeDownloadStream | src/helper/utils.ts:48-84 | The method reassigns the name step by step: URL, then disposition, then extension. It equals the download specification and never yields an empty name. A URL or request error is passed on. |
| Utils.MimeTypeOf | src/helper/utils.ts:17-18 | The mime type is never empty: the Content-Type header, or `application/octet-stream`. |
| Utils.ConcatAppend | src/helper/utils.ts:24-26 | Joining the chunks distributes over splitting the chunk sequence, so no chunk is lost, repeated or moved. |
| Utils.ConcatFirst | src/helper/utils.ts:24-26 | The first chunk comes first in the joined text. |
| Utils.InlinePayloadOf | src/helper/utils.ts:12-46 | A download that cannot open fails with the `Failed to download and process the file: ` prefix. A payload read inline always has a non-empty mime type. |
| Utils.GetMimeTypeAndBase64 | src/helper/utils.ts:12-46 | The loop's result equals the inline payload specification. A download that cannot open fails with the `Failed to download and process the file: ` prefix. A stream error fails with its bare message. Otherwise the result is the mime type and the chunks joined in arrival order. |
| ApiHelper.MakeApiRequest | src/helper/apiHelper.ts:37-57 | A request succeeds if and only if the transport answered and the classifier passed the response, and then it yields the response's `data`. Every failure carries the `API request failed: ` prefix. |
| ApiHelper.IdentifiersOf | src/helper/apiHelper.ts:350-363 | A list holds, position by position, the identifiers of its operations. |
| ApiHelper.Route | src/helper/apiHelper.ts:365-377 | The chain of `includes` tests picks a family only when that family lists the string. |
| ApiHelper.MembersOfFamily | src/helper/apiHelper.ts:350-363 | Each list holds exactly the operations of its family. |
| ApiHelper.ListedIdentifier | src/helper/apiHelper.ts:350-363 | An identifier is in a list if and only if its operation is. |
| ApiHelper.FamiliesDisjoint | src/helper/apiHelper.ts:350-363 | The six lists are pairwise disjoint. |
| ApiHelper.RouteIsMembership | src/helper/apiHelper.ts:365-377 | A string is routed to a family if and only if that family lists it, so each listed operation reaches exactly one performer. |
| ApiHelper.RouteOfOperation | src/helper/apiHelper.ts:350-377 | Each operation's identifier is routed to the operation's own family, or to none. |
| ApiHelper.UnroutedOperations | src/helper/apiHelper.ts:365-379 | Exactly five identifiers reach no performer: `linkedinAgent`, `marketResearchAgent`, `webGeneration`, `GET` and `POST`. |
| ApiHelper.RouteInput | src/helper/apiHelper.ts:365-377 | `includes` compares strictly, so an operation field that is not a string is routed nowhere. |
| ApiHelper.DataUrlRoundTrip | src/helper/apiHelper.ts:98 | The data URL `data:<mime>;base64,<text>` (section 3 of RFC 2397) reads back as its mime type and data when the mime type has no `;`. |
| ApiHelper.PerformFileUpload | src/helper/apiHelper.ts:140-161 | An upload makes at most two calls. One that succeeds made exactly two and resolves with the upload reply's data. |
| ApiHelper.PerformImageOperation | src/helper/apiHelper.ts:89-110 | An image operation makes at most two calls. One that succeeds made exactly two and resolves with the API reply's data. |
| ApiHelper.PerformAudioOperation | src/helper/apiHelper.ts:112-138 | An audio operation makes at most three calls. One that succeeds made exactly three and resolves with the API reply's data. |
| ApiHelper.PerformAgentOperation | src/helper/apiHelper.ts:163-183 | An agent operation makes exactly one call and resolves as that request does. |
| ApiHelper.PerformFileHandleOperation | src/helper/apiHelper.ts:185-200 | A file operation makes at most two calls. |
| ApiHelper.FileListResult | src/helper/apiHelper.ts:198 | The listing fails exactly when the reply is `null` or `undefined`. Otherwise it is an object whose only key is `fileList`. For an array, that key holds the array when it is non-empty and `No file found` when it is empty. |
| ApiHelper.PerformExperimentalOperation | src/helper/apiHelper.ts:202-242 | An experimental operation makes at most three calls. Either embedding that succeeds resolves with the API reply's data. |
| ApiHelper.PerformDocumentOperation | src/helper/apiHelper.ts:244-270 | A document operation makes at most three calls. One that succeeds made exactly three and resolves with the API reply's data. |
| ApiHelper.UploadHeaders | src/helper/apiHelper.ts:146-149 | The upload sends exactly two headers: the bearer token, and the content type `multipart/form-data; boundary=` followed by the form's own boundary. |
| ApiHelper.PerformOperation | src/helper/apiHelper.ts:346-383 | An operation in no list throws `Invalid operation: <op>` before any call. A routed one makes the calls of its performer and resolves with the performer's value. Every error leaving the dispatcher is the inner message prefixed by `File upload failed: `. |
| ApiHelper.OperationDispatch | src/helper/apiHelper.ts:346-383 | Each operation makes the calls of its family's performer. The five operations without a family fail as invalid with no calls. |
| ApiHelper.FileListOutcome | src/helper/apiHelper.ts:185-199 | Listing files is one GET of the listing URL. A non-empty list is returned under `fileList`, and an empty list is replaced by `No file found`. A failed request, or a reply that is `null` or `undefined`, fails. |
| ApiHelper.FileListUrlText | src/helper/apiHelper.ts:191-193 | The listing URL is the base URL followed by `/files?skip=0&limit=10`. |
| ApiHelper.InlineDownloadErrors | src/helper/apiHelper.ts:310-344 | An image operation whose download cannot open fails with the download prefix. A stream error fails with its bare message. |
| ApiHelper.UploadDownloadErrors | src/helper/apiHelper.ts:140-161 | A document operation whose download cannot open fails with the bare error, after at most the download call. |
| ApiHelper.ApiKeyHookKeepsHeaders | src/authentication/authentication.ts:37-41 | The key hook changes none of the headers the performers send, since they already carry the same bearer token. |
| ApiHelper.UploadRequests | src/helper/apiHelper.ts:140-161 | Every request of an upload is a POST of the form to `/files` with the bearer and multipart headers, under the name the download step derived. When the download opens, the run is exactly the download and then that request, and it resolves with the upload reply. Otherwise the run is at most the download and fails with the download's error. |
| ApiHelper.ImagePayloadPolicy | src/helper/apiHelper.ts:97-101 | The image body carries the image, the input's model when it is defined, and the table's domain when one exists. It has no `batch`, no `file_id`, no `url` and no `mode`. |
| ApiHelper.ImageRequests | src/helper/apiHelper.ts:89-110 | After the download, an image operation makes one POST to `/image/generate` with the common headers. The POST always carries the data URL of the downloaded file in `image`, and never `file_id`. It also carries the model and the operation's domain, and the operation resolves with its reply. A failed inline read stops the run after the download, with that read's error. |
| ApiHelper.GeneratePolicy | src/helper/apiHelper.ts:120-125 | A document or audio body carries `file_id` exactly when the uploaded id is defined, and then that id. It also carries the input's model when it is defined, the domain when one exists, and `batch: false`. It has no `image`, `url` or `mode`. |
| ApiHelper.GenerateRequests | src/helper/apiHelper.ts:244-270 | Document and audio operations make the download, then the upload form, then one POST to `/document/generate` or `/audio/generate` with the common headers. The POST carries the uploaded id as `file_id` whenever that id is defined, the model, `batch: false` and the operation's domain. It never carries `image`, and the operation resolves with its reply. A failed upload, or an upload reply that is `null` or `undefined` so that reading `id` throws, stops the run before the POST. A reply without `id` is still posted, without `file_id`. |
| ApiHelper.WebpagePolicy | src/helper/apiHelper.ts:169-174 | The agent body carries the input's page URL, model and mode, each when defined, and the table's domain when one exists. It has no `batch`, `image` or `file_id`. |
| ApiHelper.AgentRequests | src/helper/apiHelper.ts:163-183 | An agent operation makes exactly one call, a POST to `/web/generate` with the common headers and the agent body, and resolves with its reply. |
| ApiHelper.DocumentEmbeddingPolicy | src/helper/apiHelper.ts:210-214 | The document embedding body carries `file_id` exactly when the uploaded id is defined, and then that id. It also carries the model when defined and `batch: false`. It has no `domain` and no `image`. |
| ApiHelper.ImageEmbeddingPolicy | src/helper/apiHelper.ts:229-232 | The image embedding body carries the data URL and the model when defined. It has no `domain`, `batch` or `file_id`. |
| ApiHelper.DocumentEmbeddingRequests | src/helper/apiHelper.ts:202-223 | Document embedding makes the download, then the upload form, then one POST to `/experimental/document/embeddings` with the uploaded id as `file_id` whenever that id is defined, the model and `batch: false`, and resolves with its reply. A failed upload, or an upload reply that is `null` or `undefined`, stops the run before the POST. A reply without `id` is still posted, without `file_id`. |
| ApiHelper.ImageEmbeddingRequests | src/helper/apiHelper.ts:224-242 | Image embedding makes the download, then one POST to `/experimental/image/embeddings` that always carries the data URL in `image`, and the model. It resolves with its reply. A failed inline read stops it after the download. Any other experimental identifier makes no call and resolves with `undefined`. |
| ApiHelper.FileListRun | src/helper/apiHelper.ts:190-198 | Listing files makes exactly one call, a GET of the listing URL with the common JSON headers and the default body `{}`. A listing that succeeds resolves with an object holding only `fileList`. |
| ApiHelper.FileUploadRun | src/helper/apiHelper.ts:188-189 | The `fileUpload` operation's requests are upload forms. When the download opens, it makes the download and then the upload. |
| ApiHelper.FileHandleRequests | src/helper/apiHelper.ts:185-200 | `fileList` makes one GET with the default body `{}`. `fileUpload` makes the download and then the upload form. Any other identifier makes no call and resolves with `undefined`. Every request follows its operation's policy. |
| ApiHelper.RequestsOfOperation | src/helper/apiHelper.ts:346-383 | An unrouted operation makes no call. For a routed one, every request is either the upload of the downloaded file or a JSON request. A JSON request uses its family's verb and endpoint and the common headers. Its `batch` and `domain` fields follow its family's policy, and its `model`, `url` and `mode` are copied from the input as its family sends them. It carries `image`, the downloaded file's data URL, exactly for the image and image-embedding requests. It carries `file_id`, the uploaded id, exactly for the upload-based requests whose id is defined. |
| ApiHelper.PollStep | src/helper/apiHelper.ts:68-83 | A status reply that ends the loop with an error has thrown either from the request, with its prefix, or from reading `status`. |
| ApiHelper.GetDocumentResponseWithRetry | src/helper/apiHelper.ts:59-87 | The loop's result, request count and sleep count equal those of the poll specification. Every request is the status GET of the document. |
| ApiHelper.PollFrom | src/helper/apiHelper.ts:64-86 | A poll from an attempt below `MAX_ATTEMPTS` makes at least one status request. |
| ApiHelper.PollAfterRetries | src/helper/apiHelper.ts:64-84 | After `k` retries, the poll continues as from attempt `k`, with `k` requests and `k` sleeps added. |
| ApiHelper.PollBounds | src/helper/apiHelper.ts:64-86 | A poll makes between 1 and `MAX_ATTEMPTS` status requests. It sleeps once after every request but the last, and after every request when it times out. |
| ApiHelper.TimeoutIsNotAStepError | src/helper/apiHelper.ts:86 | The timeout message is never an error that a status request throws. |
| ApiHelper.PollDelay | src/constants/constants.ts:1-2 | A poll's total delay, its sleeps times `RETRY_DELAY`, is at most `MAX_ATTEMPTS * RETRY_DELAY`: 30 × 4000 = 120000 ms. |
| ApiHelper.PollStopsAtFirstDecision | src/helper/apiHelper.ts:65-83 | The first reply that decides ends the poll with that outcome. A success on request `n + 1` follows `n` sleeps. |
| ApiHelper.TimeoutIffAllRetry | src/helper/apiHelper.ts:65-86 | The poll throws `Document processing timed out` if and only if all `MAX_ATTEMPTS` replies ask for a retry. |
| ApiHelper.StatusReplyStep | src/helper/apiHelper.ts:78-83 | A reply with status `processing` (or any other text) retries, and only `completed` ends the loop with the data. |
| ApiHelper.CompletedAfter | src/helper/apiHelper.ts:64-83 | Completion on reply `n` means `n + 1` requests and `n` sleeps of 4000 ms. |
| ApiHelper.AllRetriesTimeOut | src/helper/apiHelper.ts:64-86 | Thirty replies that all retry give the timeout after thirty requests and thirty sleeps. |

## Left out

- The transport is not modelled: `https.request`, `z.request`, stream `pause`/`resume`, and the building of the multipart form (RFC 7578). Their results are inputs: the pathname, headers, chunks, stream error, upload reply, API reply and boundary.
- `setTimeout` is not modelled, and neither is the wall clock. A delay is a count of sleeps of `RETRY_DELAY` milliseconds.
- The byte-level base64 encoding done by `setEncoding('base64')` is not modelled. Chunks are opaque strings.
- WHATWG `new URL` parsing is not modelled. The pathname, or the parse error, is given.
- `z.console.log` logging is not modelled, because it has no effect on results.
- The credential `test` request is not modelled, because it is a plain request with no logic.
- The field builders and samples in `src/creates/`, the app registration in `src/index.ts`, and the log-and-swallow `perform` wrapper are host or UI metadata, not the core.
- `OperationToDomain` is keyed by `Operation`. A lookup by inherited object keys such as `toString` is not modelled.
- Authentication.HandleBadResponses: the message of a thrown `z.errors.Error` is taken to be its first argument. How the host library may fold the code and status into that message is not modelled. `MakeApiRequest` prefixes that message.
- ApiHelper.MakeApiRequest: the host's own exception for a status of 400 or more that the classifier passes (500, 502, 504 and above) is not modelled. Such a reply resolves with its data.
- ApiHelper.FileListOutcome: JavaScript's coercion of a `length` that is not a number (a numeric string such as `"5"`) is not modelled. Only numbers and booleans count as positive.
- JsValues.NatText: numbers are integers. Fractional numbers, `NaN` and infinities are not modelled.
- Utils.GetMimeTypeAndBase64: a stream that never ends is not modelled. Neither is the order of `end` and `error` events, because a stream error is taken to end the stream.
- ApiHelper.UploadRequests: an error of the download stream while the form is being sent is not modelled. It surfaces only as the upload reply.

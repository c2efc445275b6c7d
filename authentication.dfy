/**
 * The two hooks the integration registers with its host: a classifier run on every
 * HTTP response, and a hook that puts the API key into every outgoing request.
 */
module Authentication {
  import opened Wrappers
  import opened JsValues

  /** An HTTP response as the hook sees it; `status` is `None` when the field is missing. */
  datatype HttpResponse = HttpResponse(status: Option<int>, data: Json)

  datatype ErrorCode = AuthenticationError | SystemBusyError | UnexpectedError

  /** What the classifier can throw: the host's tagged error, or a TypeError from reading `data.detail`. */
  datatype Thrown =
    | AppError(message: string, code: ErrorCode, status: int)
    | TypeError(message: string)

  const BusyMessage := "System is busy, please try again later."
  const UnexpectedMessage := "Unexpected error, please contact support."

  /** `if (response.status)`: a missing status and status 0 are falsy. */
  predicate HasStatus(response: HttpResponse) {
    response.status.Some? && response.status.value != 0
  }

  predicate IsAuthStatus(s: int) { s == 401 || s == 403 }
  predicate IsBusyStatus(s: int) { s == 429 || s == 503 }
  predicate IsClientErrorStatus(s: int) { 400 <= s < 500 }

  /**
   * The response classifier: an ordered, first-match chain over the status code that
   * throws a tagged error or passes the response through unchanged.
   */
  function HandleBadResponses(response: HttpResponse): (r: Result<HttpResponse, Thrown>)
    ensures r.Success? ==> r.value == response
  {
    if !HasStatus(response) then Success(response)
    else
      var s := response.status.value;
      if IsAuthStatus(s) then
        match Property(response.data, "detail")
        case Success(detail) => Failure(AppError(ErrorMessage(detail), AuthenticationError, s))
        case Failure(e) => Failure(TypeError(e))
      else if IsBusyStatus(s) then Failure(AppError(BusyMessage, SystemBusyError, s))
      else if IsClientErrorStatus(s) then Failure(AppError(UnexpectedMessage, UnexpectedError, s))
      else Success(response)
  }

  /** What the classifier decides for every response. */
  lemma HandleBadResponsesPolicy(response: HttpResponse)
    // pass-through: a falsy status, or a status no rule matches; the response is returned as it is
    ensures var r := HandleBadResponses(response);
      (r.Success? ==> r.value == response) &&
      (r.Success? <==>
        !HasStatus(response) ||
        var s := response.status.value; !IsAuthStatus(s) && !IsBusyStatus(s) && !IsClientErrorStatus(s))
    // 401 and 403: an authentication error whose message is the body's `detail`
    ensures var r := HandleBadResponses(response);
      HasStatus(response) && IsAuthStatus(response.status.value) ==>
        match Property(response.data, "detail")
        case Success(detail) => r == Failure(AppError(ErrorMessage(detail), AuthenticationError, response.status.value))
        case Failure(e) => r == Failure(TypeError(e))
    // 429 and 503: busy, with the fixed message
    ensures var r := HandleBadResponses(response);
      HasStatus(response) && IsBusyStatus(response.status.value) ==>
        r == Failure(AppError(BusyMessage, SystemBusyError, response.status.value))
    // any other 4xx: unexpected, with the fixed message
    ensures var r := HandleBadResponses(response);
      (r.Failure? && r.error.AppError? && r.error.code == UnexpectedError <==>
        HasStatus(response) &&
        var s := response.status.value; IsClientErrorStatus(s) && !IsAuthStatus(s) && s != 429) &&
      (r.Failure? && r.error.AppError? && r.error.code == UnexpectedError ==>
        r.error.message == UnexpectedMessage && r.error.status == response.status.value)
  {
  }

  /** The examples of the classifier's policy: 404 is unexpected, 200 and 500 pass, 503 is busy. */
  lemma ClassifierExamples(data: Json)
    ensures HandleBadResponses(HttpResponse(Some(404), data)) == Failure(AppError(UnexpectedMessage, UnexpectedError, 404))
    ensures HandleBadResponses(HttpResponse(Some(200), data)).Success?
    ensures HandleBadResponses(HttpResponse(Some(500), data)).Success?
    ensures HandleBadResponses(HttpResponse(Some(503), data)) == Failure(AppError(BusyMessage, SystemBusyError, 503))
    ensures HandleBadResponses(HttpResponse(Some(401), JObj(map["detail" := JStr("Invalid API key")])))
            == Failure(AppError("Invalid API key", AuthenticationError, 401))
  {
  }

  /** `if (bundle.authData.apiKey)`: a missing or empty key is falsy. */
  predicate HasApiKey(apiKey: Option<string>) {
    apiKey.Some? && apiKey.value != ""
  }

  /** The outgoing request options; the hook changes only its header map, which may be absent. */
  class RequestOptions {
    var headers: Option<map<string, string>>

    constructor (headers: Option<map<string, string>>)
      ensures this.headers == headers
    {
      this.headers := headers;
    }

    /** The headers, with an absent map read as empty. */
    function HeaderMap(): map<string, string>
      reads this
    {
      headers.GetOr(map[])
    }

    /**
     * The credential hook: with a truthy key, creates the header map when it is absent
     * and sets `Authorization: Bearer <key>`; otherwise leaves the request as it is.
     * Either way the request itself is returned.
     */
    method IncludeApiKey(apiKey: Option<string>) returns (request: RequestOptions)
      modifies this
      ensures request == this
      ensures HasApiKey(apiKey) ==>
        headers == Some(old(HeaderMap())["Authorization" := "Bearer " + apiKey.value])
      ensures !HasApiKey(apiKey) ==> headers == old(headers)
      ensures forall name :: name != "Authorization" ==>
        (name in HeaderMap() <==> name in old(HeaderMap())) &&
        (name in HeaderMap() ==> HeaderMap()[name] == old(HeaderMap())[name])
    {
      if HasApiKey(apiKey) {
        var current := if headers.Some? then headers.value else map[];
        headers := Some(current["Authorization" := "Bearer " + apiKey.value]);
      }
      request := this;
    }
  }
}

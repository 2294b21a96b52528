/**
 * The messages the client produces: the error text `_handle_http_error`
 * returns for a failed download, the per-attempt handling of `make_request`'s
 * `except` clauses, and the log events both emit.
 */
module Messages {
  import opened Wrappers
  import opened Httpx
  import opened Paths

  /** Every message the client writes, one constructor per format string. */
  datatype Message =
    | EmptyUrl
    | TooManyRedirectsFor(url: string, repr: string)
    | HttpErrorField(status: nat, url: string, field: string)
    | HttpErrorBody(status: nat, url: string, body: string)
    | ReadTimeoutFor(url: string, repr: string)
    | RequestFailedFor(url: string, repr: string)
    | UnexpectedErrorFor(url: string, repr: string)
    | ApiErrorField(status: nat, url: string, field: string)
    | RedirectLoopFor(url: string, repr: string)
    | InvalidJsonFrom(url: string, repr: string)
    | AllRetriesFailed(url: string)
    | RequestSucceeded(url: string)
    | Downloaded(path: Path)

  /**
   * A log call.  `LoggerObjectWarning` is the warning on the redirect path of
   * `make_request`, which is issued on the imported logger object itself
   * rather than on a named logger; what that call does is not modelled.
   */
  datatype LogEvent =
    | Debug(message: Message)
    | Warning(message: Message)
    | Error(message: Message)
    | LoggerObjectWarning(message: Message)

  // ---------------------------------------------------------------------
  // Text

  /** The decimal digits of `n`, as an f-string prints an int. */
  function Decimal(n: nat): (s: string)
    ensures s != []
    ensures forall i :: 0 <= i < |s| ==> '0' <= s[i] <= '9'
    decreases n
  {
    var d := ('0' as nat + n % 10) as char;
    if n < 10 then [d] else Decimal(n / 10) + [d]
  }

  /** The number a string of decimal digits denotes. */
  function DecimalValue(s: string): nat
    requires forall i :: 0 <= i < |s| ==> '0' <= s[i] <= '9'
    decreases |s|
  {
    if s == [] then 0
    else 10 * DecimalValue(s[..|s| - 1]) + (s[|s| - 1] as nat - '0' as nat)
  }

  /** Reading the printed status code gives the code back. */
  lemma {:induction false} DecimalRoundTrip(n: nat)
    ensures DecimalValue(Decimal(n)) == n
    decreases n
  {
    var s := Decimal(n);
    if n >= 10 {
      DecimalRoundTrip(n / 10);
      assert s[..|s| - 1] == Decimal(n / 10);
    }
  }

  /** The fixed text each format string starts with. */
  function Lead(m: Message): string {
    match m
    case EmptyUrl => "Empty URL provided"
    case TooManyRedirectsFor(_, _) => "Too many redirects for "
    case HttpErrorField(_, _, _) => "HTTP error "
    case HttpErrorBody(_, _, _) => "HTTP error "
    case ReadTimeoutFor(_, _) => "Read timeout for "
    case RequestFailedFor(_, _) => "Request failed for "
    case UnexpectedErrorFor(_, _) => "Unexpected error for "
    case ApiErrorField(_, _, _) => "API Error "
    case RedirectLoopFor(_, _) => "Redirect loop for "
    case InvalidJsonFrom(_, _) => "Invalid JSON response from "
    case AllRetriesFailed(_) => "All retries failed for URL: "
    case RequestSucceeded(_) => "Request to "
    case Downloaded(_) => "Successfully downloaded file to "
  }

  /** What each format string puts after its fixed start. */
  function Fields(m: Message): string {
    match m
    case EmptyUrl => ""
    case TooManyRedirectsFor(url, repr) => url + ": " + repr
    case HttpErrorField(status, url, field) => Decimal(status) + " for " + url + ": " + field
    case HttpErrorBody(status, url, body) => Decimal(status) + " for " + url + ". Body: " + body
    case ReadTimeoutFor(url, repr) => url + ": " + repr
    case RequestFailedFor(url, repr) => url + ": " + repr
    case UnexpectedErrorFor(url, repr) => url + ": " + repr
    case ApiErrorField(status, url, field) => Decimal(status) + " for " + url + ": " + field
    case RedirectLoopFor(url, repr) => url + ": " + repr
    case InvalidJsonFrom(url, repr) => url + ": " + repr
    case AllRetriesFailed(url) => url
    case RequestSucceeded(url) => url + " succeeded"
    case Downloaded(path) => PathText(path)
  }

  /** The text of a message, as the source's format strings lay it out. */
  function Render(m: Message): (text: string)
    ensures Lead(m) <= text
  {
    Lead(m) + Fields(m)
  }

  // ---------------------------------------------------------------------
  // Classification

  /** The `"error"` member of a JSON object body, when the body is one and has it. */
  function ErrorField(body: JsonBody): (field: Option<string>)
    ensures field.Some? <==> body.Parsed? && body.value.JObject? && "error" in body.value.fields
    ensures field.Some? ==> field.value == body.value.fields["error"]
  {
    match body
    case Parsed(JObject(fields)) => if "error" in fields then Some(fields["error"]) else None
    case _ => None
  }

  /** The class whose branch produced a download error message. */
  function DownloadBranch(m: Message): ExceptionClass {
    match m
    case TooManyRedirectsFor(_, _) => TooManyRedirectsCls
    case HttpErrorField(_, _, _) => HTTPStatusErrorCls
    case HttpErrorBody(_, _, _) => HTTPStatusErrorCls
    case ReadTimeoutFor(_, _) => ReadTimeoutCls
    case RequestFailedFor(_, _) => RequestErrorCls
    case _ => ExceptionCls
  }

  /** The classes `_handle_http_error` tests for, the final fallback included. */
  const DownloadTested: set<ExceptionClass> :=
    {TooManyRedirectsCls, HTTPStatusErrorCls, ReadTimeoutCls, RequestErrorCls, ExceptionCls}

  /**
   * `_handle_http_error`: an ordered chain of `isinstance` tests.  The chain
   * picks the most specific tested class the exception belongs to: testing
   * `TooManyRedirects` and `ReadTimeout` before their base `RequestError` is
   * what gives them their own messages.
   */
  function DescribeDownloadError(e: Exception, url: string): (m: Message)
    ensures DownloadBranch(m) in DownloadTested && IsInstance(e, DownloadBranch(m))
    ensures forall t :: t in DownloadTested && IsInstance(e, t) ==> IsSubclass(DownloadBranch(m), t)
  {
    InstanceFacts(e);
    if IsInstance(e, TooManyRedirectsCls) then TooManyRedirectsFor(url, e.repr)
    else if IsInstance(e, HTTPStatusErrorCls) then
      match ErrorField(e.response.json)
      case Some(field) => HttpErrorField(e.response.status, url, field)
      case None => HttpErrorBody(e.response.status, url, e.response.text)
    else if IsInstance(e, ReadTimeoutCls) then ReadTimeoutFor(url, e.repr)
    else if IsInstance(e, RequestErrorCls) then RequestFailedFor(url, e.repr)
    else UnexpectedErrorFor(url, e.repr)
  }

  /** How `_handle_http_error` ends: with the text it returns, or with an exception raised while building it. */
  datatype ErrorText = Described(message: Message) | Raises(error: Exception)

  /** The repr of the exception httpx raises when the content of an unread streamed response is accessed. */
  const NotReadRepr: string :=
    "ResponseNotRead('Attempted to access streaming response content, without having called `read()`.')"

  /**
   * `_handle_http_error` as written, on the exceptions `download_file` passes
   * it.  The response of a status error there is a streamed one whose body was
   * never read, so `e.response.json()` raises `ResponseNotRead`; that is a
   * `RuntimeError`, which `except ValueError` does not catch, so it escapes.
   */
  function DescribeStreamedDownloadError(e: Exception, url: string): (r: ErrorText)
    ensures r.Raises? <==> IsInstance(e, HTTPStatusErrorCls)
    ensures r.Raises? ==> IsInstance(r.error, RuntimeErrorCls) && !IsInstance(r.error, ValueErrorCls)
    ensures r.Described? ==> r.message == DescribeDownloadError(e, url)
  {
    InstanceFacts(e);
    if IsInstance(e, TooManyRedirectsCls) then Described(TooManyRedirectsFor(url, e.repr))
    else if IsInstance(e, HTTPStatusErrorCls) then
      var raised := ResponseNotRead(NotReadRepr);
      InstanceFacts(raised);
      Raises(raised)
    else if IsInstance(e, ReadTimeoutCls) then Described(ReadTimeoutFor(url, e.repr))
    else if IsInstance(e, RequestErrorCls) then Described(RequestFailedFor(url, e.repr))
    else Described(UnexpectedErrorFor(url, e.repr))
  }

  /** What `make_request` does with the exception one attempt raised. */
  datatype Handling =
    | Retried(message: Message, onLoggerObject: bool)
    | GiveUp(message: Message)

  /** The exceptions `make_request` retries: status errors and every request error. */
  predicate IsRetried(e: Exception) {
    e.HTTPStatusError? || e.TooManyRedirects? || e.ReadTimeout? || e.RequestError?
  }

  /**
   * The `except` clauses of one `make_request` attempt, in their order, with
   * each `isinstance` test unfolded to the kinds it admits (`ExceptClauses`
   * states them as class tests).
   */
  function HandleAttemptError(e: Exception, url: string): (h: Handling)
    ensures h.Retried? <==> IsRetried(e)
    ensures h.Retried? && h.onLoggerObject <==> e.TooManyRedirects?
    ensures h.message != AllRetriesFailed(url)
  {
    if e.HTTPStatusError? then
      match ErrorField(e.response.json)
      case Some(field) => Retried(ApiErrorField(e.response.status, url, field), false)
      case None => Retried(HttpErrorBody(e.response.status, url, e.response.text), false)
    else if e.TooManyRedirects? then Retried(RedirectLoopFor(url, e.repr), true)
    else if e.ReadTimeout? || e.RequestError? then Retried(RequestFailedFor(url, e.repr), false)
    else if e.ValueError? then GiveUp(InvalidJsonFrom(url, e.repr))
    else GiveUp(UnexpectedErrorFor(url, e.repr))
  }

  /** The retried kinds are exactly the instances of the classes of the three retrying clauses. */
  lemma RetriedKinds(e: Exception)
    ensures IsRetried(e) <==>
              IsInstance(e, HTTPStatusErrorCls) || IsInstance(e, TooManyRedirectsCls) || IsInstance(e, RequestErrorCls)
  {
    InstanceFacts(e);
  }

  /**
   * The clause that handles an exception is the first whose class it is an
   * instance of: status errors and request errors (redirect loops and
   * timeouts included) are retried, a redirect loop by its own clause, a
   * ValueError gives up with the invalid-JSON message, anything else with
   * the unexpected-error message.
   */
  lemma ExceptClauses(e: Exception, url: string)
    ensures var h := HandleAttemptError(e, url);
      (h.Retried? && h.onLoggerObject <==> IsInstance(e, TooManyRedirectsCls)) &&
      (h.Retried? && !h.onLoggerObject <==>
         IsInstance(e, HTTPStatusErrorCls) || (IsInstance(e, RequestErrorCls) && !IsInstance(e, TooManyRedirectsCls))) &&
      (h == GiveUp(InvalidJsonFrom(url, e.repr)) <==> IsInstance(e, ValueErrorCls)) &&
      (h == GiveUp(UnexpectedErrorFor(url, e.repr)) <==>
         !IsInstance(e, HTTPStatusErrorCls) && !IsInstance(e, RequestErrorCls) && !IsInstance(e, ValueErrorCls))
  {
    InstanceFacts(e);
  }

  /** A status error is described by its `"error"` field exactly when the body is an object that has one. */
  lemma StatusErrorUsesErrorField(r: ResponseInfo, repr: string, url: string, field: string)
    ensures DescribeDownloadError(HTTPStatusError(r, repr), url) == HttpErrorField(r.status, url, field)
        <==> r.json.Parsed? && r.json.value.JObject? && "error" in r.json.value.fields &&
             r.json.value.fields["error"] == field
    ensures ErrorField(r.json).None? ==>
              DescribeDownloadError(HTTPStatusError(r, repr), url) == HttpErrorBody(r.status, url, r.text)
  {
    InstanceFacts(HTTPStatusError(r, repr));
  }

  /** `make_request` applies the same rule: the field when present, the raw body otherwise. */
  lemma RetryAndDownloadShareErrorFieldRule(r: ResponseInfo, repr: string, url: string)
    ensures var d := DescribeDownloadError(HTTPStatusError(r, repr), url);
            var h := HandleAttemptError(HTTPStatusError(r, repr), url);
      h.Retried? &&
      (d.HttpErrorField? <==> h.message.ApiErrorField?) &&
      (d.HttpErrorField? ==> h.message == ApiErrorField(d.status, d.url, d.field)) &&
      (d.HttpErrorBody? <==> h.message.HttpErrorBody?) &&
      (d.HttpErrorBody? ==> h.message == d)
  {
    InstanceFacts(HTTPStatusError(r, repr));
  }

  /** A JSON decoding error is retried by nobody: `make_request` gives up, a download reports it as unexpected. */
  lemma ValueErrorIsPermanent(repr: string, url: string)
    ensures HandleAttemptError(ValueError(repr), url) == GiveUp(InvalidJsonFrom(url, repr))
    ensures DescribeDownloadError(ValueError(repr), url) == UnexpectedErrorFor(url, repr)
  {
    InstanceFacts(ValueError(repr));
  }
}

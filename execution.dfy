/**
 * What runCode sends to the execution service and how it turns the service's reply into
 * the one log entry the user sees. The network round trip itself is abstracted as a
 * Response value: the settled outcome of fetch and, for an ok status, of response.json().
 */
module Execution {
  import opened Wrappers
  import opened JsText
  import opened OutputLog

  const ExecutePath: string := "/execute"
  const PostMethod: string := "POST"
  const JsonContentType: string := "application/json"

  /** The request runCode issues; `code` is the single field of its JSON body. */
  datatype Request = Request(path: string, httpMethod: string, contentType: string, code: string)

  function ExecuteRequest(code: string): Request {
    Request(ExecutePath, PostMethod, JsonContentType, code)
  }

  const NoCodeNotice: string := "No code to run!"
  const RunningNotice: string := "Running code..."
  const SuccessNotice: string := "Code executed successfully!"
  const NetworkErrorPrefix: string := "Network error: "
  const HttpErrorPrefix: string := "HTTP error! status: "

  /**
   * The parsed JSON body. Each field is None when absent from the object and Some(text)
   * when present; the service only ever sends strings in these fields.
   */
  datatype Body = Json(error: Option<string>, output: Option<string>) | Malformed(reason: string)

  /**
   * How a request settles: fetch rejects with a host-supplied message, or a response
   * arrives with an HTTP status and a body that is only read when the status is ok.
   */
  datatype Response = FetchRejected(reason: string) | Received(status: nat, body: Body)

  /** response.ok: the status is in the 200-299 range. */
  predicate IsOk(status: nat) {
    200 <= status <= 299
  }

  /** JavaScript truthiness of a string field: present and not the empty string. */
  predicate Truthy(v: Option<string>) {
    v.Some? && v.value != ""
  }

  /** What the submit step leaves behind: the request issued (if any), the log and the loading flag. */
  datatype Submission = Submission(request: Option<Request>, log: seq<Entry>, loading: bool)

  /**
   * The synchronous part of runCode, from reading the editor up to issuing the fetch.
   * Blank text only appends an error entry (without clearing the log); any other text
   * sets loading, replaces the log with the running notice and sends the trimmed text.
   */
  function Submit(text: string, log: seq<Entry>, loading: bool): (s: Submission)
    ensures s.request.Some? <==> !AllTrimmable(text)
    ensures s.request.Some? ==> s.request.value.code == Trim(text) && s.request.value.code != []
    ensures s.request.Some? ==> s.loading && s.log == [Entry(InfoMessage, RunningNotice)]
    ensures s.request.None? ==> s.loading == loading && s.log == log + [Entry(ErrorMessage, NoCodeNotice)]
  {
    TrimEmptyIffAllTrimmable(text);
    var code := Trim(text);
    if code == [] then
      Submission(None, log + [EntryFor(NoCodeNotice, "error")], loading)
    else
      Submission(Some(ExecuteRequest(code)), [] + [EntryFor(RunningNotice, "info")], true)
  }

  /** The request carries the editor text stripped of its surrounding whitespace, and nothing else of it. */
  lemma SubmitSendsCore(before: string, core: string, after: string, log: seq<Entry>, loading: bool)
    requires AllTrimmable(before) && AllTrimmable(after) && Trimmed(core) && core != []
    ensures Submit(before + core + after, log, loading).request == Some(ExecuteRequest(core))
  {
    TrimOfPadded(before, core, after);
    TrimEmptyIffAllTrimmable(before + core + after);
  }

  /**
   * Two submissions back to back with no completion in between, as one Ctrl+Enter inside
   * the editor produces: the same request goes out twice and loading stays set; blank
   * text shows the error entry twice.
   */
  lemma SubmitTwice(text: string, log: seq<Entry>, loading: bool)
    ensures var first := Submit(text, log, loading);
      var second := Submit(text, first.log, first.loading);
      && second.request == first.request
      && (first.request.Some? ==> second.loading && second.log == [Entry(InfoMessage, RunningNotice)])
      && (first.request.None? ==>
            && second.loading == loading
            && second.log == log + [Entry(ErrorMessage, NoCodeNotice), Entry(ErrorMessage, NoCodeNotice)])
  {
    var first := Submit(text, log, loading);
    if first.request.None? {
      assert first.log + [Entry(ErrorMessage, NoCodeNotice)]
          == log + [Entry(ErrorMessage, NoCodeNotice), Entry(ErrorMessage, NoCodeNotice)];
    }
  }

  /** The text of the Error runCode's catch block receives, or None when the try block completes. */
  function Thrown(resp: Response): (r: Option<string>)
    ensures r.None? <==> resp.Received? && IsOk(resp.status) && resp.body.Json?
    ensures resp.FetchRejected? ==> r == Some(resp.reason)
    ensures resp.Received? && IsOk(resp.status) && resp.body.Malformed? ==> r == Some(resp.body.reason)
    ensures resp.Received? && !IsOk(resp.status) ==>
              r.Some? && |HttpErrorPrefix| < |r.value| && r.value[..|HttpErrorPrefix|] == HttpErrorPrefix
  {
    match resp
    case FetchRejected(reason) => Some(reason)
    case Received(status, body) =>
      if !IsOk(status) then Some(HttpErrorPrefix + NumberToString(status))
      else if body.Malformed? then Some(body.reason)
      else None
  }

  /**
   * The single entry left in the log once a request settles. A failure becomes a network
   * error; an ok reply shows its error if truthy, else its output if truthy, else the
   * fixed success notice.
   */
  function ReplyEntry(resp: Response): (e: Entry)
    ensures Thrown(resp).Some? ==> e == Entry(ErrorMessage, NetworkErrorPrefix + Thrown(resp).value)
    ensures e.style != InfoMessage
  {
    match Thrown(resp)
    case Some(message) => EntryFor(NetworkErrorPrefix + message, "error")
    case None =>
      var error, output := resp.body.error, resp.body.output;
      if Truthy(error) then EntryFor(error.value, "error")
      else if Truthy(output) then EntryFor(output.value, "success")
      else EntryFor(SuccessNotice, "success")
  }

  /** A reply renders as an error exactly when the request failed or the service reported a non-empty error. */
  lemma ReplyIsErrorIff(resp: Response)
    ensures ReplyEntry(resp).style == ErrorMessage <==>
              Thrown(resp).Some? || Truthy(resp.body.error)
  {
  }

  /** A non-empty error wins over any output. */
  lemma ErrorTakesPrecedence(status: nat, error: Option<string>, output: Option<string>)
    requires IsOk(status) && Truthy(error)
    ensures ReplyEntry(Received(status, Json(error, output))) == Entry(ErrorMessage, error.value)
  {
  }

  /**
   * An absent or empty error lets a non-empty output through; this is the shape the
   * service sends on success, with error set to the empty string.
   */
  lemma OutputShownWhenErrorFalsy(status: nat, error: Option<string>, output: Option<string>)
    requires IsOk(status) && !Truthy(error) && Truthy(output)
    ensures ReplyEntry(Received(status, Json(error, output))) == Entry(OutputMessage, output.value)
  {
  }

  /** With neither a non-empty error nor a non-empty output, the fixed notice is shown. */
  lemma SuccessNoticeWhenBothFalsy(status: nat, error: Option<string>, output: Option<string>)
    requires IsOk(status) && !Truthy(error) && !Truthy(output)
    ensures ReplyEntry(Received(status, Json(error, output))) == Entry(OutputMessage, SuccessNotice)
  {
  }

  /**
   * A bad status becomes one network error whose text ends with the status in decimal,
   * whatever the body; the status can be read back from the text.
   */
  lemma BadStatusNamesStatus(status: nat, body: Body)
    requires !IsOk(status)
    ensures var e := ReplyEntry(Received(status, body));
      var prefix := NetworkErrorPrefix + HttpErrorPrefix;
      && e.style == ErrorMessage
      && |prefix| < |e.text| && e.text[..|prefix|] == prefix
      && IsDigits(e.text[|prefix|..]) && DecimalValue(e.text[|prefix|..]) == status
  {
    var e := ReplyEntry(Received(status, body));
    var prefix := NetworkErrorPrefix + HttpErrorPrefix;
    assert e.text == prefix + NumberToString(status);
    assert e.text[|prefix|..] == NumberToString(status);
    DecimalRoundTrip(status);
  }

  /** Three typical replies: an output, an error, an empty object. */
  lemma ReplyExamples()
    ensures ReplyEntry(Received(200, Json(None, Some("7")))) == Entry(OutputMessage, "7")
    ensures ReplyEntry(Received(200, Json(Some("boom"), None))) == Entry(ErrorMessage, "boom")
    ensures ReplyEntry(Received(200, Json(None, None))) == Entry(OutputMessage, SuccessNotice)
  {
    OutputShownWhenErrorFalsy(200, None, Some("7"));
    ErrorTakesPrecedence(200, Some("boom"), None);
    SuccessNoticeWhenBothFalsy(200, None, None);
  }

  /** A server failure with status 500 shows that status in its message. */
  lemma ServerErrorExample(body: Body)
    ensures ReplyEntry(Received(500, body)) == Entry(ErrorMessage, "Network error: HTTP error! status: 500")
  {
    assert NumberToString(500) == "500" by {
      assert NumberToString(5) == "5";
      assert NumberToString(50) == "50";
    }
    assert !IsOk(500);
    assert HttpErrorPrefix + "500" == "HTTP error! status: 500";
    assert NetworkErrorPrefix + "HTTP error! status: 500" == "Network error: HTTP error! status: 500";
  }
}

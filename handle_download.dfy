/** One run of `handleDownload` (script.js:95-134) as a step from the page state
    before the click to the page state after the request has settled. The
    request's outcome is an input; the `AbortController` bookkeeping and the
    loading spinner's timing are not part of the state. */
module HandleDownload {
  import opened Wrappers
  import opened UrlValidator
  import opened InputGate
  import opened FetchClient
  import opened Display

  /** The parts of the page the handler changes. `current` is the module-level
      `currentVideoData`, `shown` what the result panel last rendered,
      `resultActive` whether that panel is visible, `inputError` the error style
      on the input box and `toast` the last error toast. */
  datatype Page = Page(
    current: Option<Descriptor>,
    shown: Option<View>,
    resultActive: bool,
    inputError: bool,
    toast: Option<string>,
    loading: bool)

  /** The request the handler makes (`None`: none) and the page it leaves. */
  datatype Step = Step(request: Option<string>, page: Page)

  const FallbackErrorMessage: string := "An error occurred. Please try again."

  /** The `catch` block: an `AbortError` is dropped, any other error is shown
      with its message, or with the fallback text when the message is empty. */
  function ReportError(p: Page, e: JsError): Page {
    if e.name == "AbortError" then p
    else p.(inputError := true, toast := Some(if e.message != "" then e.message else FallbackErrorMessage))
  }

  function Run(p: Page, raw: string, t: Transport): Step {
    match Gate(raw)
    case Reject(m) => Step(None, p.(inputError := true, toast := Some(m)))
    case Proceed(url) =>
      // hideError, hideResult and setLoading(true) before the request
      var p1 := p.(inputError := false, resultActive := false, loading := true);
      var p2 := match FetchTikTokData(t)
        case Success(d) => p1.(current := Some(d), shown := Some(DisplayResult(d)), resultActive := true)
        case Failure(e) => ReportError(p1, e);
      // finally: setLoading(false)
      Step(Some(url), p2.(loading := false))
  }

  /** A rejected input starts no request and shows the gate's message; the data,
      the rendered result and its visibility are untouched. */
  lemma RejectedInput(p: Page, raw: string, t: Transport)
    ensures Run(p, raw, t).request.None? <==> Gate(raw).Reject?
    ensures Gate(raw).Reject? ==>
      Run(p, raw, t).page == p.(inputError := true, toast := Some(Gate(raw).message))
    ensures AllTrimmable(raw) ==> Run(p, raw, t).page.toast == Some(EmptyInputMessage)
  {
    GateOutcomes(raw);
  }

  /** An accepted input requests the trimmed URL, which the validator accepts,
      and the spinner is off again once the request has settled. */
  lemma AcceptedInput(p: Page, raw: string, t: Transport)
    requires Gate(raw).Proceed?
    ensures Run(p, raw, t).request == Some(Trim(raw))
    ensures IsValidTikTokUrl(Run(p, raw, t).request.value)
    ensures !Run(p, raw, t).page.loading
  {
    GateOutcomes(raw);
  }

  /** A failed request, an aborted one included, hides the result and shows the
      generic fetch message; the data of the previous run stays in place. */
  lemma FailedRequest(p: Page, raw: string, t: Transport)
    requires Gate(raw).Proceed? && FetchTikTokData(t).Failure?
    ensures Run(p, raw, t).page ==
      p.(resultActive := false, inputError := true, toast := Some(FetchFailureMessage), loading := false)
    ensures Run(p, raw, Aborted).page == Run(p, raw, NetworkError).page
  {
    FetchOutcome(t);
    AbortRewrapped();
  }

  /** A successful request stores the descriptor, renders it and shows the
      result, clearing the input's error style and leaving the toast alone. */
  lemma SuccessfulRequest(p: Page, raw: string, t: Transport)
    requires Gate(raw).Proceed? && FetchTikTokData(t).Success?
    ensures var d := FetchTikTokData(t).value;
            WellFormed(d) &&
            Run(p, raw, t).page ==
              p.(current := Some(d), shown := Some(DisplayResult(d)), resultActive := true, inputError := false, loading := false)
  {
    FetchedDisplayable(t);
  }
}

/**
 * `SummarizeTextUseCase.execute` (src/application/transcription/SummarizeTextUseCase.ts):
 * trim the text, default the language, reject missing text with a `ValidationError`, and
 * otherwise hand the request to the injected summarization service unchanged.
 */
module SummarizeText {
  import opened Wrappers
  import opened JsText
  import opened Errors
  import opened Http

  /** `SummarizeTextInput`: both fields may be `undefined`. */
  datatype SummarizeTextInput = SummarizeTextInput(text: Option<string>, language: Option<string>)

  /** `SummarizationResult` as the service returns it. */
  datatype SummarizationResult = SummarizationResult(summary: string)

  /** The arguments of one `summarizationService.summarize(text, language)` call. */
  datatype SummarizeCall = SummarizeCall(text: string, language: string)

  /** The injected `SummarizationService`: it either returns a summary or throws. */
  type SummarizationService = (string, string) -> Result<SummarizationResult, Thrown>

  /** The language used when the input gives none. */
  const DefaultLanguage: string := "en"

  /** The message of the error raised for missing text. */
  const MissingText: string := "Missing text"

  /** `input.language?.trim() || 'en'`. */
  function ResolveLanguage(language: Option<string>): (r: string)
    ensures r != ""
    ensures language.Some? && Trim(language.value) != "" ==> r == Trim(language.value)
    ensures language.None? || Trim(language.value) == "" ==> r == DefaultLanguage
  {
    match language
    case None => DefaultLanguage
    case Some(l) => if Trim(l) != "" then Trim(l) else DefaultLanguage
  }

  /**
   * The service call `execute` makes for `input`, or None when validation fails: text that is
   * undefined, empty or only white space after trimming is refused; otherwise the service gets
   * the trimmed text and the resolved language.
   */
  function ServiceCall(input: SummarizeTextInput): (call: Option<SummarizeCall>)
    ensures call.None? <==> input.text.None? || Trim(input.text.value) == ""
    ensures call.Some? ==> call.value == SummarizeCall(Trim(input.text.value), ResolveLanguage(input.language))
  {
    match input.text
    case None => None
    case Some(t) =>
      if Trim(t) == "" then None else Some(SummarizeCall(Trim(t), ResolveLanguage(input.language)))
  }

  /** `execute(input)`: the validation error, or exactly what the service returns or throws. */
  function Execute(input: SummarizeTextInput, service: SummarizationService): (r: Result<SummarizationResult, Thrown>)
    ensures ServiceCall(input).None? ==> r == Failure(App(NewValidationError(Some(MissingText), None)))
    ensures ServiceCall(input).Some? ==> r == service(ServiceCall(input).value.text, ServiceCall(input).value.language)
  {
    match ServiceCall(input)
    case None => Failure(App(NewValidationError(Some(MissingText), None)))
    case Some(call) => service(call.text, call.language)
  }

  /**
   * The text the service receives is the raw input with its leading and trailing white space
   * cut off: a non-empty infix of it, starting where the leading white space ends, followed in
   * the input only by white space, and neither starting nor ending with white space itself.
   */
  lemma ServiceGetsTrimmedText(input: SummarizeTextInput)
    requires ServiceCall(input).Some?
    ensures input.text.Some?
    ensures var raw, t := input.text.value, ServiceCall(input).value.text;
      t != "" && HasCleanEnds(t) && IsTrimmedInfix(raw, |raw| - |TrimStart(raw)|, t)
  {
  }

  /**
   * When validation fails the service is not consulted: the outcome is the same whatever
   * service is injected, and at the HTTP boundary it is a 400 with body "Missing text".
   */
  lemma RejectionIgnoresService(input: SummarizeTextInput, s1: SummarizationService, s2: SummarizationService)
    requires input.text.None? || Trim(input.text.value) == ""
    ensures Execute(input, s1) == Execute(input, s2)
    ensures Execute(input, s1).Failure?
    ensures HandleHttpError(Execute(input, s1).error) == Success(Response(400, MissingText))
  {
  }

  /**
   * On valid input a failure of the service reaches the caller unchanged: no catch, no retry,
   * no re-wrapping.
   */
  lemma ServiceFailurePropagates(input: SummarizeTextInput, service: SummarizationService, e: Thrown)
    requires ServiceCall(input).Some?
    requires service(ServiceCall(input).value.text, ServiceCall(input).value.language) == Failure(e)
    ensures Execute(input, service) == Failure(e)
  {
  }

  /** The two examples: white space only is refused; "hello" without a language is summarized in "en". */
  lemma Examples(service: SummarizationService)
    ensures Execute(SummarizeTextInput(Some("  "), None), service) == Failure(App(NewValidationError(Some(MissingText), None)))
    ensures Execute(SummarizeTextInput(Some("hello"), None), service) == service("hello", "en")
  {
    var blank, hello := "  ", "hello";
    assert IsTrimmable(blank[0]) && IsTrimmable(blank[1]);
    assert Trim(blank) == "";
    assert !IsTrimmable(hello[0]) && !IsTrimmable(hello[4]);
    assert Trim(hello) == hello;
  }
}

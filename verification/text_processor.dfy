/**
 * The text processor: request validation, the LLM request it builds, the
 * response it builds from a parse result, and the raw-reply fallback.
 */
module TextProcessor {
  import opened Wrappers
  import opened Strings
  import opened PromptTypes
  import opened LlmTypes

  datatype ProcessRequest = ProcessRequest(
    text: string,
    sourceLanguage: string,
    targetLanguages: seq<string>,
    options: map<string, Value>)

  /** The processing time is set by the caller from a clock and is not modelled. */
  datatype ProcessResponse = ProcessResponse(
    requestId: string,
    status: string,
    sourceText: string,
    translations: map<string, string>,
    rawResponse: string,
    metadata: map<string, Value>)

  /** The text limit, counted in UTF-8 bytes as Go's `len` does. */
  const MaxTextLength: nat := 3000

  /** Validate: empty text, text over 3000 bytes, and an empty target list are rejected, in that order. */
  function Validate(req: ProcessRequest): (r: Option<string>)
    ensures r.None? <==> req.text != "" && Utf8Len(req.text) <= MaxTextLength && |req.targetLanguages| > 0
    ensures req.text == "" ==> r == Some("text is required")
    ensures req.text != "" && Utf8Len(req.text) > MaxTextLength ==>
      r == Some("text length (" + NatToString(Utf8Len(req.text)) + " characters) exceeds maximum allowed length ("
        + NatToString(MaxTextLength) + " characters)")
    ensures req.text != "" && Utf8Len(req.text) <= MaxTextLength && |req.targetLanguages| == 0 ==>
      r == Some("target languages are required")
  {
    if req.text == "" then Some("text is required")
    else if Utf8Len(req.text) > MaxTextLength then
      Some("text length (" + NatToString(Utf8Len(req.text)) + " characters) exceeds maximum allowed length ("
        + NatToString(MaxTextLength) + " characters)")
    else if |req.targetLanguages| == 0 then Some("target languages are required")
    else None
  }

  /** The prompt request: always a translation, with the text as variable "source_text". */
  function PromptRequestFor(req: ProcessRequest, defaults: seq<string>): PromptRequest {
    var targets := if |req.targetLanguages| == 0 then defaults else req.targetLanguages;
    PromptRequest(TaskTranslate, req.sourceLanguage, targets, "", map["source_text" := VStr(req.text)], "", "")
  }

  /**
   * BuildLLMRequest. The engine's text-prompt builder is not part of this
   * model and is a parameter.
   */
  function BuildLLMRequest(req: ProcessRequest, defaults: seq<string>, buildTextPrompt: PromptRequest -> Result<Prompt, string>)
    : (r: Result<(LLMRequest, OutputRules), string>)
    ensures var built := buildTextPrompt(PromptRequestFor(req, defaults));
      && (r.Success? <==> built.Success?)
      && (r.Failure? ==> r.error == "build prompt: " + built.error)
      && (r.Success? ==>
        && r.value.0 == LLMRequest(built.value.system, built.value.user, [], "", "", map[])
        && r.value.1 == built.value.outputRules)
  {
    match buildTextPrompt(PromptRequestFor(req, defaults))
    case Failure(err) => Failure("build prompt: " + err)
    case Success(p) => Success((LLMRequest(p.system, p.user, [], "", "", map[]), p.outputRules))
  }

  /** The prompt request is a translation of the request's own text, with no audio attached. */
  lemma PromptRequestShape(req: ProcessRequest, defaults: seq<string>)
    requires |req.targetLanguages| > 0
    ensures var p := PromptRequestFor(req, defaults);
      p.task == TaskTranslate && p.targetLanguages == req.targetLanguages
      && "source_text" in p.variables && p.variables["source_text"] == VStr(req.text)
  {
  }

  /** A parse result marks failure with a non-nil "parse_error" entry. */
  predicate ParseFailed(parsed: Option<ParsedResponse>) {
    parsed.None? || MetadataOr(parsed.value.metadata, "parse_error") != VNil
  }

  function ResponseMetadata(llm: LLMResponse): map<string, Value> {
    map[
      "model" := VStr(llm.model),
      "prompt_tokens" := VInt(llm.promptTokens),
      "total_tokens" := VInt(llm.totalTokens),
      "backend" := MetadataOr(llm.metadata, "backend")]
  }

  /**
   * BuildSuccessResponse: echoes the request text, marks "partial_success"
   * exactly when the parse failed, and keeps only the sections keyed by a
   * requested code.
   */
  function BuildSuccessResponse(llm: LLMResponse, parsed: Option<ParsedResponse>, req: ProcessRequest, requestId: string)
    : (r: ProcessResponse)
    ensures r.sourceText == req.text && r.rawResponse == llm.content && r.requestId == requestId
    ensures r.status == (if ParseFailed(parsed) then "partial_success" else "success")
    ensures forall k :: k in r.translations <==> parsed.Some? && k in parsed.value.sections && k in req.targetLanguages
    ensures forall k :: k in r.translations ==> r.translations[k] == parsed.value.sections[k]
  {
    var translations :=
      if parsed.None? then map[]
      else map k | k in parsed.value.sections && k in req.targetLanguages :: parsed.value.sections[k];
    ProcessResponse(requestId, if ParseFailed(parsed) then "partial_success" else "success",
      req.text, translations, llm.content, ResponseMetadata(llm))
  }

  const FallbackReason: string := "LLM returned unstructured response, using as translation for first target language"

  /**
   * extractFromRawResponse: the trimmed reply becomes the translation for the
   * first target, unless there is no target or nothing is left after trimming.
   */
  function ExtractFromRawResponse(resp: ProcessResponse, raw: string, targets: seq<string>): (r: ProcessResponse)
    ensures |targets| == 0 || Trim(raw) == "" ==> r == resp
    ensures |targets| > 0 && Trim(raw) != "" ==>
      && r.translations == resp.translations[targets[0] := Trim(raw)]
      && r.status == "partial_success"
      && r.metadata == resp.metadata["fallback_mode" := VBool(true)]["fallback_reason" := VStr(FallbackReason)]
      && r.sourceText == resp.sourceText && r.rawResponse == resp.rawResponse && r.requestId == resp.requestId
  {
    if |targets| > 0 && Trim(raw) != "" then
      resp.(translations := resp.translations[targets[0] := Trim(raw)], status := "partial_success",
        metadata := resp.metadata["fallback_mode" := VBool(true)]["fallback_reason" := VStr(FallbackReason)])
    else resp
  }

  /** ApplyFallback: only a response without translations is touched. */
  function ApplyFallback(resp: ProcessResponse, raw: string, targets: seq<string>): (r: ProcessResponse)
    ensures resp.translations != map[] ==> r == resp
    ensures r.translations != resp.translations ==>
      |targets| > 0 && r.translations == map[targets[0] := Trim(raw)] && Trim(raw) != ""
  {
    if resp.translations == map[] then ExtractFromRawResponse(resp, raw, targets) else resp
  }

  /**
   * After the fallback, the response has a translation exactly when it had
   * one before or there is a target and the trimmed reply is non-empty; the
   * fallback value is a subsequence of the reply.
   */
  lemma FallbackOutcome(resp: ProcessResponse, raw: string, targets: seq<string>)
    ensures var r := ApplyFallback(resp, raw, targets);
      (r.translations != map[] <==> resp.translations != map[] || (|targets| > 0 && Trim(raw) != ""))
      && forall k :: k in r.translations && k !in resp.translations ==> Subseq(r.translations[k], raw)
  {
    var r := ApplyFallback(resp, raw, targets);
    if resp.translations == map[] && |targets| > 0 && Trim(raw) != "" {
      assert targets[0] in r.translations;
    }
    TrimSubseq(raw);
  }

  /** Applying the fallback twice is the same as applying it once. */
  lemma FallbackIdempotent(resp: ProcessResponse, raw: string, targets: seq<string>)
    ensures ApplyFallback(ApplyFallback(resp, raw, targets), raw, targets) == ApplyFallback(resp, raw, targets)
  {
    var r := ApplyFallback(resp, raw, targets);
    if resp.translations == map[] && |targets| > 0 && Trim(raw) != "" {
      assert targets[0] in r.translations;
    }
  }
}

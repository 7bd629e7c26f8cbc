/**
 * The generic processing service: validate, build the LLM request, call the
 * LLM, parse the reply, build the response, apply the fallback. The handler's
 * four steps, the LLM call and the parser are function parameters.
 */
module Processing {
  import opened Wrappers
  import opened Strings
  import opened PromptTypes
  import opened LlmTypes
  import Engine
  import AudioProcessor

  /** The four steps a processor supplies (the LogicHandler interface). */
  datatype Handler<!T, !R> = Handler(
    validate: T -> Option<string>,
    buildRequest: T -> Result<(LLMRequest, OutputRules), string>,
    buildResponse: (LLMResponse, Option<ParsedResponse>, T) -> R,
    applyFallback: (R, string, OutputRules) -> R)

  /** What the parser returns: a result that may be nil, and an error that may be nil. */
  datatype ParseOutcome = ParseOutcome(parsed: Option<ParsedResponse>, err: Option<string>)

  type LLM = LLMRequest -> Result<LLMResponse, string>
  type ReplyParser = (string, OutputRules) -> ParseOutcome

  /**
   * Process. Validation, request building and the LLM call can each fail the
   * whole call, with their error wrapped; a parse error is only logged. On
   * success the result is the built response after exactly one fallback, fed
   * the raw reply and the request's output rules.
   */
  function Process<T, R>(req: T, h: Handler<T, R>, llm: LLM, parse: ReplyParser): (r: Result<R, string>)
    ensures h.validate(req).Some? ==> r == Failure("validation failed: " + h.validate(req).value)
    ensures h.validate(req).None? && h.buildRequest(req).Failure? ==>
      r == Failure("failed to build LLM request: " + h.buildRequest(req).error)
    ensures h.validate(req).None? && h.buildRequest(req).Success? && llm(h.buildRequest(req).value.0).Failure? ==>
      r == Failure("llm process failed: " + llm(h.buildRequest(req).value.0).error)
    ensures r.Success? <==>
      h.validate(req).None? && h.buildRequest(req).Success? && llm(h.buildRequest(req).value.0).Success?
    ensures r.Success? ==>
      var (llmReq, rules) := h.buildRequest(req).value;
      var resp := llm(llmReq).value;
      r.value == h.applyFallback(h.buildResponse(resp, parse(resp.content, rules).parsed, req), resp.content, rules)
  {
    match h.validate(req)
    case Some(err) => Failure("validation failed: " + err)
    case None =>
      match h.buildRequest(req)
      case Failure(err) => Failure("failed to build LLM request: " + err)
      case Success((llmReq, rules)) =>
        match llm(llmReq)
        case Failure(err) => Failure("llm process failed: " + err)
        case Success(resp) =>
          var outcome := parse(resp.content, rules);
          var response := h.buildResponse(resp, outcome.parsed, req);
          Success(h.applyFallback(response, resp.content, rules))
  }

  /** A request that fails validation never reaches the LLM or the parser: neither can change the result. */
  lemma ValidationFailureStopsEarly<T, R>(req: T, h: Handler<T, R>, llm1: LLM, llm2: LLM, parse1: ReplyParser, parse2: ReplyParser)
    requires h.validate(req).Some?
    ensures Process(req, h, llm1, parse1) == Process(req, h, llm2, parse2)
  {
  }

  /** A request whose LLM request cannot be built never reaches the LLM or the parser. */
  lemma BuildFailureStopsEarly<T, R>(req: T, h: Handler<T, R>, llm1: LLM, llm2: LLM, parse1: ReplyParser, parse2: ReplyParser)
    requires h.validate(req).None? && h.buildRequest(req).Failure?
    ensures Process(req, h, llm1, parse1) == Process(req, h, llm2, parse2)
  {
  }

  /** A parse error is never fatal: parsers that differ only in their errors give the same result. */
  lemma ParseErrorIgnored<T, R>(req: T, h: Handler<T, R>, llm: LLM, parse1: ReplyParser, parse2: ReplyParser)
    requires forall s, rules :: parse1(s, rules).parsed == parse2(s, rules).parsed
    ensures Process(req, h, llm, parse1) == Process(req, h, llm, parse2)
  {
  }

  /** The engine's parser, which always yields a result and no error (the clock reading is a parameter). */
  function EngineParser(now: int): ReplyParser {
    (s: string, rules: OutputRules) => ParseOutcome(Some(Engine.ParseResponse(s, rules, now)), None)
  }

  /**
   * The audio processor as a handler. Conversion and rendering outcomes and
   * the request ID are parameters, as in AudioProcessor.
   */
  function AudioHandler(
    engine: Engine.Engine, defaults: seq<string>, converted: Result<seq<byte>, string>,
    render: (string, Engine.TemplateData) -> Result<string, Engine.RenderError>, requestId: string)
    : Handler<AudioProcessor.ProcessRequest, AudioProcessor.ProcessResponse>
  {
    Handler(
      AudioProcessor.Validate,
      (req: AudioProcessor.ProcessRequest) => AudioProcessor.BuildLLMRequest(engine, defaults, req, converted, render),
      (resp: LLMResponse, parsed: Option<ParsedResponse>, req: AudioProcessor.ProcessRequest) =>
        AudioProcessor.BuildSuccessResponse(resp, parsed, req, requestId),
      (r: AudioProcessor.ProcessResponse, raw: string, rules: OutputRules) => AudioProcessor.ApplyFallback(r, raw, Some(rules)))
  }

  /**
   * End to end for audio: a successful call passed validation, its raw
   * response is the LLM's reply, and every translation it carries is either a
   * requested target or the first language of the template's schema, holding
   * the fallback residue.
   */
  lemma AudioProcessOutcome(
    req: AudioProcessor.ProcessRequest, engine: Engine.Engine, defaults: seq<string>, converted: Result<seq<byte>, string>,
    render: (string, Engine.TemplateData) -> Result<string, Engine.RenderError>, requestId: string, llm: LLM, now: int)
    requires Process(req, AudioHandler(engine, defaults, converted, render, requestId), llm, EngineParser(now)).Success?
    ensures var h := AudioHandler(engine, defaults, converted, render, requestId);
      var out := Process(req, h, llm, EngineParser(now)).value;
      var (llmReq, rules) := h.buildRequest(req).value;
      && AudioProcessor.Validate(req).None?
      && out.rawResponse == llm(llmReq).value.content
      && out.requestId == requestId
      && forall k :: k in out.translations ==>
        k in req.targetLanguages
        || (|AudioProcessor.SchemaCodes(Some(rules))| > 0 && k == AudioProcessor.SchemaCodes(Some(rules))[0]
            && out.translations[k] == AudioProcessor.Residue(llm(llmReq).value.content, Some(rules)))
  {
    var h := AudioHandler(engine, defaults, converted, render, requestId);
    var (llmReq, rules) := h.buildRequest(req).value;
    var resp := llm(llmReq).value;
    var parsed := EngineParser(now)(resp.content, rules).parsed;
    var built := AudioProcessor.BuildSuccessResponse(resp, parsed, req, requestId);
    var out := AudioProcessor.ApplyFallback(built, resp.content, Some(rules));
    AudioProcessor.FallbackTranslationKeys(built, resp.content, Some(rules), req.targetLanguages);
    assert Process(req, h, llm, EngineParser(now)).value == out;
  }
}

/**
 * The audio processor: request validation, the LLM request it builds, the
 * response it builds from a parse result, and the fallback that salvages a
 * reply the parser could not structure.
 */
module AudioProcessor {
  import opened Wrappers
  import opened Strings
  import opened PromptTypes
  import opened LlmTypes
  import Engine
  import AudioConverter

  datatype ProcessRequest = ProcessRequest(
    audio: seq<byte>,
    audioFormat: string,
    task: string,
    sourceLanguage: string,
    targetLanguages: seq<string>,
    options: map<string, Value>)

  /** The processing time is set by the caller from a clock and is not modelled. */
  datatype ProcessResponse = ProcessResponse(
    requestId: string,
    status: string,
    transcription: string,
    translations: map<string, string>,
    rawResponse: string,
    metadata: map<string, Value>)

  // ---------------------------------------------------------------------------
  // Validate
  // ---------------------------------------------------------------------------

  const MaxAudioSize: nat := 32 * 1024 * 1024
  const SupportedFormats: set<string> := {"wav", "mp3", "m4a", "opus", "flac"}
  const ValidTasks: set<string> := {TaskTranslate, TaskTranscribe}

  /**
   * Validate: the first failing check, in source order, gives the error.
   * Formats are compared case-sensitively.
   */
  function Validate(req: ProcessRequest): (r: Option<string>)
    ensures r.None? <==>
      && 0 < |req.audio| <= MaxAudioSize
      && req.audioFormat in SupportedFormats
      && req.task in ValidTasks
    ensures |req.audio| == 0 ==> r == Some("audio data is required")
    ensures |req.audio| > 0 && req.audioFormat == "" ==> r == Some("audio format is required")
    ensures |req.audio| > 0 && req.audioFormat != "" && |req.audio| > MaxAudioSize ==>
      r == Some("audio size (" + NatToString(|req.audio|) + " bytes) exceeds maximum allowed size (" + NatToString(MaxAudioSize) + " bytes)")
    ensures 0 < |req.audio| <= MaxAudioSize && req.audioFormat != "" && req.audioFormat !in SupportedFormats ==>
      r == Some("unsupported audio format: " + req.audioFormat)
    ensures 0 < |req.audio| <= MaxAudioSize && req.audioFormat in SupportedFormats && req.task !in ValidTasks ==>
      r == Some("invalid task type: " + req.task)
  {
    if |req.audio| == 0 then Some("audio data is required")
    else if req.audioFormat == "" then Some("audio format is required")
    else if |req.audio| > MaxAudioSize then
      Some("audio size (" + NatToString(|req.audio|) + " bytes) exceeds maximum allowed size (" + NatToString(MaxAudioSize) + " bytes)")
    else if req.audioFormat !in SupportedFormats then Some("unsupported audio format: " + req.audioFormat)
    else if req.task !in ValidTasks then Some("invalid task type: " + req.task)
    else None
  }

  // ---------------------------------------------------------------------------
  // BuildLLMRequest
  // ---------------------------------------------------------------------------

  /** The targets sent to the prompt engine: the configured defaults only for a translate request that names none. */
  function TargetsFor(req: ProcessRequest, defaults: seq<string>): seq<string> {
    if req.task == TaskTranslate && |req.targetLanguages| == 0 then defaults else req.targetLanguages
  }

  /** A request that names targets, or is not a translation, keeps its own list. */
  lemma DefaultsOnlyWhenNoneGiven(req: ProcessRequest, defaults: seq<string>)
    ensures TargetsFor(req, defaults) != req.targetLanguages ==>
      req.task == TaskTranslate && |req.targetLanguages| == 0 && TargetsFor(req, defaults) == defaults
    ensures req.task != TaskTranslate ==> TargetsFor(req, defaults) == req.targetLanguages
  {
  }

  /**
   * BuildLLMRequest. The converter's validation result is only logged, so it
   * has no effect; `converted` is the outcome of the conversion attempt, used
   * only when the format needs converting.
   */
  function BuildLLMRequest(
    engine: Engine.Engine, defaults: seq<string>, req: ProcessRequest, converted: Result<seq<byte>, string>,
    render: (string, Engine.TemplateData) -> Result<string, Engine.RenderError>)
    : (r: Result<(LLMRequest, OutputRules), string>)
    ensures
      var promptReq := PromptRequest(req.task, req.sourceLanguage, TargetsFor(req, defaults), "", map[], "", "");
      var built := Engine.Build(engine, promptReq, render);
      && (built.Failure? <==> r.Failure?)
      && (r.Failure? ==> r.error == "build prompt: " + built.error)
      && (r.Success? ==>
        && r.value.0.systemPrompt == built.value.system
        && r.value.0.userPrompt == built.value.user
        && r.value.1 == built.value.outputRules)
    ensures r.Success? && (!AudioConverter.IsConversionNeeded(req.audioFormat) || converted.Failure?) ==>
      r.value.0.audio == req.audio && r.value.0.audioFormat == req.audioFormat
    ensures r.Success? && AudioConverter.IsConversionNeeded(req.audioFormat) && converted.Success? ==>
      r.value.0.audio == converted.value && r.value.0.audioFormat == "wav"
  {
    var (audio, format) :=
      if AudioConverter.IsConversionNeeded(req.audioFormat) && converted.Success? then (converted.value, "wav")
      else (req.audio, req.audioFormat);
    var promptReq := PromptRequest(req.task, req.sourceLanguage, TargetsFor(req, defaults), "", map[], "", "");
    match Engine.Build(engine, promptReq, render)
    case Failure(err) => Failure("build prompt: " + err)
    case Success(p) => Success((LLMRequest(p.system, p.user, audio, format, "", map[]), p.outputRules))
  }

  // ---------------------------------------------------------------------------
  // BuildSuccessResponse
  // ---------------------------------------------------------------------------

  /** A parse result marks failure with a non-nil "parse_error" entry. */
  predicate ParseFailed(parsed: Option<ParsedResponse>) {
    parsed.None? || MetadataOr(parsed.value.metadata, "parse_error") != VNil
  }

  /** `parsed.Sections[key]` with Go's "" for a missing key or a nil result. */
  function SectionOr(parsed: Option<ParsedResponse>, key: string): string {
    if parsed.Some? && key in parsed.value.sections then parsed.value.sections[key] else ""
  }

  /** The parsed sections whose key is one of the requested target codes. */
  function RequestedSections(parsed: Option<ParsedResponse>, targets: seq<string>): (m: map<string, string>)
    ensures forall k :: k in m <==> parsed.Some? && k in parsed.value.sections && k in targets
    ensures forall k :: k in m ==> m[k] == parsed.value.sections[k]
  {
    if parsed.None? then map[]
    else map k | k in parsed.value.sections && k in targets :: parsed.value.sections[k]
  }

  function ResponseMetadata(llm: LLMResponse, format: string): map<string, Value> {
    map[
      "model" := VStr(llm.model),
      "prompt_tokens" := VInt(llm.promptTokens),
      "total_tokens" := VInt(llm.totalTokens),
      "backend" := MetadataOr(llm.metadata, "backend"),
      "original_format" := VStr(format),
      "processed_format" := VStr("wav"),
      "conversion_applied" := VBool(AudioConverter.IsConversionNeeded(format))]
  }

  /**
   * BuildSuccessResponse: "partial_success" exactly when there is no parse
   * result or it carries a parse error; the transcription is the "原文"
   * section; the translations are the sections keyed by a requested code.
   * The request ID comes from a clock and is a parameter.
   */
  function BuildSuccessResponse(llm: LLMResponse, parsed: Option<ParsedResponse>, req: ProcessRequest, requestId: string)
    : (r: ProcessResponse)
    ensures r.status == "success" || r.status == "partial_success"
    ensures r.status == "partial_success" <==> ParseFailed(parsed)
    ensures r.transcription == SectionOr(parsed, SourceKey)
    ensures forall k :: k in r.translations ==> k in req.targetLanguages
    ensures forall k :: k in r.translations <==> parsed.Some? && k in parsed.value.sections && k in req.targetLanguages
    ensures forall k :: k in r.translations ==> r.translations[k] == parsed.value.sections[k]
    ensures r.rawResponse == llm.content && r.requestId == requestId
  {
    ProcessResponse(
      requestId,
      if ParseFailed(parsed) then "partial_success" else "success",
      SectionOr(parsed, SourceKey),
      RequestedSections(parsed, req.targetLanguages),
      llm.content,
      ResponseMetadata(llm, req.audioFormat))
  }

  // ---------------------------------------------------------------------------
  // ApplyFallback
  // ---------------------------------------------------------------------------

  /** Every section key and alias of the schema, in schema order: the prompt scaffolding. */
  function Keywords(sections: seq<OutputSection>): (ks: seq<string>)
    ensures forall i :: 0 <= i < |sections| ==> sections[i].key in ks
    ensures forall i, a :: 0 <= i < |sections| && a in sections[i].aliases ==> a in ks
    ensures forall w :: w in ks ==> exists i :: 0 <= i < |sections| && (w == sections[i].key || w in sections[i].aliases)
  {
    if |sections| == 0 then []
    else [sections[0].key] + sections[0].aliases + Keywords(sections[1..])
  }

  /**
   * The keywords follow the schema: a schema splits into the keywords of its
   * parts, and one section contributes its key followed by its aliases.
   */
  lemma {:induction false} KeywordsInOrder(a: seq<OutputSection>, b: seq<OutputSection>, s: OutputSection)
    ensures Keywords(a + b) == Keywords(a) + Keywords(b)
    ensures Keywords([s]) == [s.key] + s.aliases
    decreases |a|
  {
    if |a| == 0 {
      assert a + b == b;
    } else {
      assert (a + b)[0] == a[0] && (a + b)[1..] == a[1..] + b;
      KeywordsInOrder(a[1..], b, s);
    }
    assert [s][1..] == [];
  }

  function RulesKeywords(rules: Option<OutputRules>): seq<string> {
    if rules.Some? then Keywords(rules.value.sections) else []
  }

  /** The separators stripped after the keywords. */
  const FallbackSeparators: seq<string> := [":", "：", "\n"]

  /** Remove every occurrence of each pattern, one pattern after the other. */
  function RemoveEach(s: string, patterns: seq<string>): (r: string)
    ensures Subseq(r, s)
    decreases |patterns|
  {
    if |patterns| == 0 then SubseqRefl(s); s
    else
      var t := RemoveAll(s, patterns[0]);
      var r := RemoveEach(t, patterns[1..]);
      RemoveAllSubseq(s, patterns[0]);
      SubseqTrans(r, t, s);
      r
  }

  /** What is left of the reply once all scaffolding and separators are stripped and the rest trimmed. */
  function Residue(raw: string, rules: Option<OutputRules>): string {
    Trim(RemoveEach(RemoveEach(raw, RulesKeywords(rules)), FallbackSeparators))
  }

  /** The residue is made only of the reply's own characters, in their order. */
  lemma ResidueFromReply(raw: string, rules: Option<OutputRules>)
    ensures Subseq(Residue(raw, rules), raw)
  {
    var a := RemoveEach(raw, RulesKeywords(rules));
    var b := RemoveEach(a, FallbackSeparators);
    TrimSubseq(b);
    SubseqTrans(Trim(b), b, a);
    SubseqTrans(Trim(b), a, raw);
  }

  /** The language codes of the schema's sections, in schema order, skipping empty ones. */
  function SchemaCodes(rules: Option<OutputRules>): (codes: seq<string>)
    ensures forall c :: c in codes ==> c != ""
    ensures rules.None? ==> codes == []
    ensures rules.Some? ==> codes == CodesOf(rules.value.sections)
  {
    if rules.Some? then CodesOf(rules.value.sections) else []
  }

  function CodesOf(sections: seq<OutputSection>): (codes: seq<string>)
    ensures forall c :: c in codes ==> c != ""
    ensures |codes| == 0 <==> forall i :: 0 <= i < |sections| ==> sections[i].languageCode == ""
    ensures forall c :: c in codes <==> c != "" && exists i :: 0 <= i < |sections| && sections[i].languageCode == c
    ensures |codes| > 0 ==>
      exists i :: 0 <= i < |sections| && codes[0] == sections[i].languageCode
        && forall j :: 0 <= j < i ==> sections[j].languageCode == ""
  {
    if |sections| == 0 then []
    else if sections[0].languageCode != "" then [sections[0].languageCode] + CodesOf(sections[1..])
    else CodesOf(sections[1..])
  }

  const ArtifactOnlyReason: string := "LLM returned an empty or artifact-only response."
  const TranscriptionReason: string := "using sanitized raw content as transcription"

  function TranslationReason(code: string): string {
    "using sanitized raw content as translation for " + code
  }

  /**
   * ApplyFallback. With an empty residue, a response with neither
   * transcription nor translations is marked failed and anything else is left
   * alone. Otherwise the residue fills an empty transcription, and the first
   * schema language receives it when there are no translations and it differs
   * from the (possibly just filled) transcription.
   */
  function ApplyFallback(resp: ProcessResponse, raw: string, rules: Option<OutputRules>): (r: ProcessResponse)
    ensures var residue := Residue(raw, rules);
      residue == "" ==>
        if resp.transcription == "" && resp.translations == map[] then
          r == resp.(status := "failed", metadata := resp.metadata["error_reason" := VStr(ArtifactOnlyReason)])
        else r == resp
    ensures var residue := Residue(raw, rules);
      residue != "" ==>
        && r.transcription == (if resp.transcription == "" then residue else resp.transcription)
        && r.translations ==
          (if resp.translations == map[] && |SchemaCodes(rules)| > 0 && r.transcription != residue
           then map[SchemaCodes(rules)[0] := residue] else resp.translations)
    ensures r.transcription == resp.transcription && r.translations == resp.translations ==>
      r == resp || (r.status == "failed" && Residue(raw, rules) == "")
    ensures r.transcription != resp.transcription || r.translations != resp.translations ==>
      && r.status == "partial_success"
      && "fallback_mode" in r.metadata && r.metadata["fallback_mode"] == VBool(true)
      && r.requestId == resp.requestId && r.rawResponse == resp.rawResponse
    ensures r.transcription != resp.transcription || r.translations != resp.translations ==>
      var reasons := (if resp.transcription == "" then [TranscriptionReason] else [])
        + (if r.translations != resp.translations && |SchemaCodes(rules)| > 0 then [TranslationReason(SchemaCodes(rules)[0])] else []);
      r.metadata == resp.metadata["fallback_mode" := VBool(true)]["fallback_reason" := VStr(Join(reasons, "; "))]
  {
    var residue := Residue(raw, rules);
    if residue == "" then
      if resp.transcription == "" && resp.translations == map[] then
        resp.(status := "failed", metadata := resp.metadata["error_reason" := VStr(ArtifactOnlyReason)])
      else resp
    else
      var fillTranscription := resp.transcription == "";
      var r1 := if fillTranscription then resp.(transcription := residue) else resp;
      var codes := SchemaCodes(rules);
      var fillTranslation := |codes| > 0 && resp.translations == map[] && r1.transcription != residue;
      var r2 := if fillTranslation then r1.(translations := resp.translations[codes[0] := residue]) else r1;
      var reasons := (if fillTranscription then [TranscriptionReason] else [])
        + (if fillTranslation then [TranslationReason(codes[0])] else []);
      if |reasons| > 0 then
        assert fillTranslation ==> codes[0] in r2.translations;
        r2.(status := "partial_success",
            metadata := r2.metadata["fallback_mode" := VBool(true)]["fallback_reason" := VStr(Join(reasons, "; "))])
      else r2
  }

  /**
   * The fallback never assigns anything but the residue: every text in the
   * result was there before or is a subsequence of the raw reply.
   */
  lemma FallbackOnlyRedistributes(resp: ProcessResponse, raw: string, rules: Option<OutputRules>)
    ensures var r := ApplyFallback(resp, raw, rules);
      && (r.transcription == resp.transcription || Subseq(r.transcription, raw))
      && forall k :: k in r.translations ==>
        (k in resp.translations && r.translations[k] == resp.translations[k]) || Subseq(r.translations[k], raw)
  {
    ResidueFromReply(raw, rules);
  }

  /**
   * The two fills never both happen: filling an empty transcription makes it
   * equal to the residue, which blocks the translation fill.
   */
  lemma FallbackFillsAtMostOne(resp: ProcessResponse, raw: string, rules: Option<OutputRules>)
    ensures var r := ApplyFallback(resp, raw, rules);
      r.transcription == resp.transcription || r.translations == resp.translations
  {
  }

  /**
   * The only translation the fallback can add is the residue, under the
   * first language of the schema, which need not be one the request asked for.
   */
  lemma FallbackTranslationKeys(resp: ProcessResponse, raw: string, rules: Option<OutputRules>, targets: seq<string>)
    requires forall k :: k in resp.translations ==> k in targets
    ensures var r := ApplyFallback(resp, raw, rules);
      forall k :: k in r.translations ==>
        k in targets
        || (|SchemaCodes(rules)| > 0 && k == SchemaCodes(rules)[0] && r.translations[k] == Residue(raw, rules))
  {
  }

  /** Applying the fallback twice is the same as applying it once. */
  lemma FallbackIdempotent(resp: ProcessResponse, raw: string, rules: Option<OutputRules>)
    ensures ApplyFallback(ApplyFallback(resp, raw, rules), raw, rules) == ApplyFallback(resp, raw, rules)
  {
    var r := ApplyFallback(resp, raw, rules);
    var residue := Residue(raw, rules);
    if residue != "" && (r.transcription != resp.transcription || r.translations != resp.translations) {
      assert r.transcription != "";
      assert r.translations != map[] || r.transcription == residue;
    }
  }
}

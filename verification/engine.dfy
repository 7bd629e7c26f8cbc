/**
 * The older prompt engine (internal/core/prompt/engine.go): a language table
 * with a built-in fallback, alias-only language normalisation, template
 * lookup with a configured default name, and response parsing with the
 * first-fuzzy-match header resolution.
 *
 * Template rendering (text/template) and YAML decoding are foreign code: the
 * renderer and the decoded template are parameters.
 */
module Engine {
  import opened Wrappers
  import opened Strings
  import opened PromptTypes
  import opened Languages
  import Parser

  /** The engine: templates by name, the language table, and the configured default template name. */
  datatype Engine = Engine(templates: map<string, PromptTemplate>, languages: Registry, defaultTemplate: string)

  /** The three languages loadDefaultLanguages installs. */
  const DefaultLanguages: Registry := [
    Language("zh", [NameEntry("display", "中文"), NameEntry("english", "Chinese"), NameEntry("native", "中文")],
      ["chinese", "中文", "汉语", "zh-CN", "zh-TW"]),
    Language("en", [NameEntry("display", "英文"), NameEntry("english", "English"), NameEntry("native", "English")],
      ["english", "英文", "英语"]),
    Language("ja", [NameEntry("display", "日文"), NameEntry("english", "Japanese"), NameEntry("native", "日本語")],
      ["japanese", "日文", "日语", "日本語"])
  ]

  /** The "default" template's output schema: source, then English, Japanese, Chinese. */
  const DefaultTemplateRules := OutputRules(FormatStructured, "：", [
    OutputSection(SourceKey, ["Original", "原始文本", "Transcription"], "", true, 1),
    OutputSection("英文", ["English", "英语"], "en", false, 2),
    OutputSection("日文", ["Japanese", "日语", "日本語"], "ja", false, 3),
    OutputSection("中文", ["Chinese", "中文", "汉语"], "zh", false, 4)
  ])

  /** The system prompt source of the default template (a text/template program, kept verbatim). */
  const DefaultSystemPrompt: string :=
    "你是一个高级的语音处理助手。你的任务是：\n"
    + "{{- if or (eq .Task \"transcribe\") (eq .Task \"both\") }}\n"
    + "1. 首先将音频内容转录成其原始语言的文本。\n"
    + "{{- end }}\n"
    + "{{- if or (eq .Task \"translate\") (eq .Task \"both\") }}\n"
    + "{{- range $index, $lang := .TargetLanguages }}\n"
    + "{{ add $index 2 }}. 将文本翻译成{{ $lang }}。\n"
    + "{{- end }}\n"
    + "{{- end }}\n"
    + "\n"
    + "请按照以下格式清晰地组织你的输出：\n"
    + "{{- if or (eq .Task \"transcribe\") (eq .Task \"both\") }}\n"
    + "原文：\n"
    + "{{- end }}\n"
    + "{{- range .TargetLanguages }}\n"
    + "{{ . }}：\n"
    + "{{- end }}"

  /**
   * The template loadDefaultTemplate registers. Its prompt texts are
   * text/template sources, which this model treats as opaque strings.
   */
  const DefaultTemplate := PromptTemplate("default", "1.0", "默认音频处理模板",
    DefaultSystemPrompt,
    "{{ .UserPrompt | default \"请处理下面的音频。\" }}",
    DefaultTemplateRules, map[])

  /**
   * NewEngine: the configured languages (a later entry with the same code
   * wins); the built-in three only when the configuration lists none; and the
   * "default" template.
   */
  function NewEngine(cfg: seq<Language>, defaultTemplate: string): (e: Engine)
    ensures "default" in e.templates && e.templates["default"] == DefaultTemplate
    ensures e.defaultTemplate == defaultTemplate
    ensures |cfg| == 0 ==> e.languages == DefaultLanguages
  {
    var langs := if |cfg| == 0 then DefaultLanguages else NewLanguageManager(cfg).languages;
    Engine(map["default" := DefaultTemplate], langs, defaultTemplate)
  }

  /** With some configured languages, the table holds exactly those codes, each mapped to its last entry. */
  lemma NewEngineLanguages(cfg: seq<Language>, defaultTemplate: string, code: string)
    requires |cfg| > 0
    ensures FindCode(NewEngine(cfg, defaultTemplate).languages, code) == LastWithCode(cfg, code)
  {
    NewLanguageManagerLookup(cfg, code);
  }

  /** The built-in table is never used when the configuration names a language. */
  lemma NewEngineKeepsConfigured(cfg: seq<Language>, defaultTemplate: string, k: nat)
    requires k < |cfg|
    ensures Registered(NewEngine(cfg, defaultTemplate).languages, cfg[k].code)
  {
    NewLanguageManagerLookup(cfg, cfg[k].code);
  }

  // ---------------------------------------------------------------------------
  // normalizeLanguage / normalizeLanguages
  // ---------------------------------------------------------------------------

  /**
   * normalizeLanguage: the trimmed, lowered input as a code, else the first
   * language with an alias equal to it ignoring case. Display names are not
   * consulted, and the empty string is not rejected up front.
   */
  function NormalizeLanguage(reg: Registry, input: string): (r: Result<string, string>)
    ensures r.Success? ==> Registered(reg, r.value)
    ensures r.Success? ==> r.value == Canon(input) || AliasMatch(FindCode(reg, r.value).value, Canon(input))
    ensures r.Failure? <==>
      !Registered(reg, Canon(input)) && forall j :: 0 <= j < |reg| ==> !AliasMatch(reg[j], Canon(input))
    ensures r.Failure? ==> r.error == "unknown language: " + Canon(input)
  {
    var s := Canon(input);
    match FindCode(reg, s)
    case Some(lang) => Success(lang.code)
    case None =>
      match FirstMatch(AliasOnly, reg, s)
      case Some(i) =>
        assert FindCode(reg, reg[i].code) == Some(reg[i]);
        Success(reg[i].code)
      case None => Failure("unknown language: " + s)
  }

  /**
   * Every non-empty input the engine accepts, the language manager accepts too:
   * the manager also compares display names, so it accepts at least as much.
   */
  lemma EngineAcceptsLess(reg: Registry, input: string)
    requires NormalizeLanguage(reg, input).Success? && Canon(input) != ""
    ensures Languages.NormalizeLanguage(reg, input).Success?
  {
    var s := Canon(input);
    if !Registered(reg, s) {
      var i :| 0 <= i < |reg| && AliasMatch(reg[i], s);
      assert Matches(DisplayOrAlias, reg[i], s);
    }
  }

  /** The input is canonicalised first, so f(x) == f(trim(lower(x))). */
  lemma NormalizeCanonical(reg: Registry, x: string)
    ensures NormalizeLanguage(reg, x) == NormalizeLanguage(reg, Canon(x))
  {
    CanonIdempotent(x);
  }

  /** The display name (or code) of the language an accepted input names. */
  function DisplayOf(reg: Registry, input: string): string
    requires NormalizeLanguage(reg, input).Success?
  {
    DisplayOrCode(FindCode(reg, NormalizeLanguage(reg, input).value).value)
  }

  /** One input of normalizeLanguages: its display name (or code), or the wrapped error. */
  function NormalizeOne(reg: Registry, input: string): (r: Result<string, string>)
    ensures r.Success? <==> NormalizeLanguage(reg, input).Success?
    ensures r.Success? ==> r.value == DisplayOf(reg, input)
    ensures r.Failure? ==> r.error == "normalize language " + input + ": " + NormalizeLanguage(reg, input).error
  {
    match NormalizeLanguage(reg, input)
    case Failure(e) => Failure("normalize language " + input + ": " + e)
    case Success(code) =>
      // The source's "not in the table" branch is unreachable: a normalised code is registered.
      Success(DisplayOrCode(FindCode(reg, code).value))
  }

  /** Each input's normalisation, in order. */
  function Normalizations(reg: Registry, langs: seq<string>): (rs: seq<Result<string, string>>)
    ensures |rs| == |langs|
    ensures forall k :: 0 <= k < |langs| ==> rs[k] == NormalizeOne(reg, langs[k])
  {
    seq(|langs|, k requires 0 <= k < |langs| => NormalizeOne(reg, langs[k]))
  }

  /** normalizeLanguages: each input's display name in order, or the first failure. */
  function NormalizeLanguages(reg: Registry, langs: seq<string>): (r: Result<seq<string>, string>)
    ensures r.Success? ==> |r.value| == |langs|
  {
    CollectFrom(Normalizations(reg, langs), 0)
  }

  /** normalizeLanguages succeeds exactly when every input normalises. */
  lemma NormalizeLanguagesSucceeds(reg: Registry, langs: seq<string>)
    ensures NormalizeLanguages(reg, langs).Success? <==>
      forall k :: 0 <= k < |langs| ==> NormalizeLanguage(reg, langs[k]).Success?
  {
    var rs := Normalizations(reg, langs);
    CollectFromAllSuccess(rs, 0);
    if CollectFrom(rs, 0).Success? {
      CollectFromSuccess(rs, 0);
    }
    assert forall k :: 0 <= k < |langs| ==> (rs[k].Success? <==> NormalizeLanguage(reg, langs[k]).Success?);
  }

  /** On success there is one display name (or code) per input, in order. */
  lemma NormalizeLanguagesValues(reg: Registry, langs: seq<string>)
    requires NormalizeLanguages(reg, langs).Success?
    ensures forall k :: 0 <= k < |langs| ==>
      NormalizeLanguage(reg, langs[k]).Success? && NormalizeLanguages(reg, langs).value[k] == DisplayOf(reg, langs[k])
  {
    var rs := Normalizations(reg, langs);
    CollectFromSuccess(rs, 0);
    var vs := CollectFrom(rs, 0).value;
    forall k | 0 <= k < |langs|
      ensures NormalizeLanguage(reg, langs[k]).Success? && vs[k] == DisplayOf(reg, langs[k])
    {
      assert rs[k].Success? && vs[k] == rs[k].value;
    }
  }

  /** The error wraps the first input that does not normalise. */
  lemma NormalizeLanguagesFirstError(reg: Registry, langs: seq<string>) returns (k: nat)
    requires NormalizeLanguages(reg, langs).Failure?
    ensures k < |langs| && NormalizeLanguage(reg, langs[k]).Failure?
    ensures forall j :: 0 <= j < k ==> NormalizeLanguage(reg, langs[j]).Success?
    ensures NormalizeLanguages(reg, langs).error == "normalize language " + langs[k] + ": " + NormalizeLanguage(reg, langs[k]).error
  {
    k := CollectFromFailure(Normalizations(reg, langs), 0);
  }

  // ---------------------------------------------------------------------------
  // Build
  // ---------------------------------------------------------------------------

  /** The data a template is executed with. */
  datatype TemplateData = TemplateData(
    task: string,
    sourceLanguage: string,
    targetLanguages: seq<string>,
    userPrompt: string,
    variables: map<string, Value>)

  /** The two ways text/template can fail. */
  datatype RenderError = ParseError(msg: string) | ExecError(msg: string)

  /** The template name Build looks up: the request's, or the configured default when it is empty. */
  function TemplateName(e: Engine, req: PromptRequest): string {
    if req.template == "" then e.defaultTemplate else req.template
  }

  function RenderFailure(which: string, err: RenderError): string {
    match err
    case ParseError(m) => "parse " + which + " template: " + m
    case ExecError(m) => "execute " + which + " template: " + m
  }

  /**
   * Build: look up the template, normalise the targets to display names,
   * render the system and the user prompt with `render`, and return them with
   * the template's output rules.
   */
  function Build(e: Engine, req: PromptRequest, render: (string, TemplateData) -> Result<string, RenderError>)
    : (r: Result<Prompt, string>)
    ensures TemplateName(e, req) !in e.templates ==> r == Failure("template not found: " + TemplateName(e, req))
    ensures r.Success? ==>
      TemplateName(e, req) in e.templates && r.value.outputRules == e.templates[TemplateName(e, req)].outputRules
    ensures r.Success? ==> NormalizeLanguages(e.languages, req.targetLanguages).Success?
  {
    var name := TemplateName(e, req);
    if name !in e.templates then Failure("template not found: " + name)
    else
      var tmpl := e.templates[name];
      match NormalizeLanguages(e.languages, req.targetLanguages)
      case Failure(err) => Failure("normalize target languages: " + err)
      case Success(targets) =>
        var data := TemplateData(req.task, req.sourceLanguage, targets, req.userPrompt, req.variables);
        match render(tmpl.systemPrompt, data)
        case Failure(err) => Failure(RenderFailure("system", err))
        case Success(system) =>
          match render(tmpl.userPrompt, data)
          case Failure(err) => Failure(RenderFailure("user", err))
          case Success(user) => Success(Prompt(system, user, tmpl.outputRules))
  }

  /**
   * Build succeeds exactly when the template exists, every target normalises
   * and both renderings succeed; the prompts are then the rendered texts,
   * with the template's rules. A failed rendering is reported with the
   * prompt it concerns, the system prompt first.
   */
  lemma BuildSucceeds(e: Engine, req: PromptRequest, render: (string, TemplateData) -> Result<string, RenderError>)
    requires TemplateName(e, req) in e.templates
    requires NormalizeLanguages(e.languages, req.targetLanguages).Success?
    ensures var tmpl := e.templates[TemplateName(e, req)];
      var data := TemplateData(req.task, req.sourceLanguage, NormalizeLanguages(e.languages, req.targetLanguages).value,
        req.userPrompt, req.variables);
      && (Build(e, req, render).Success? <==> render(tmpl.systemPrompt, data).Success? && render(tmpl.userPrompt, data).Success?)
      && (Build(e, req, render).Success? ==>
           Build(e, req, render).value == Prompt(render(tmpl.systemPrompt, data).value, render(tmpl.userPrompt, data).value, tmpl.outputRules))
      && (render(tmpl.systemPrompt, data).Failure? ==>
           Build(e, req, render) == Failure(RenderFailure("system", render(tmpl.systemPrompt, data).error)))
      && (render(tmpl.systemPrompt, data).Success? && render(tmpl.userPrompt, data).Failure? ==>
           Build(e, req, render) == Failure(RenderFailure("user", render(tmpl.userPrompt, data).error)))
  {
  }

  /** A fresh engine with an empty default name still builds requests naming "default". */
  lemma FreshEngineHasDefault(cfg: seq<Language>, req: PromptRequest)
    requires req.template == "default"
    ensures TemplateName(NewEngine(cfg, ""), req) in NewEngine(cfg, "").templates
  {
  }

  /** RegisterTemplate: a decode error is reported; otherwise the template is stored under `name`. */
  function RegisterTemplate(e: Engine, name: string, decoded: Result<PromptTemplate, string>): (r: Result<Engine, string>)
    ensures decoded.Failure? ==> r == Failure("unmarshal template: " + decoded.error)
    ensures decoded.Success? ==>
      && r.Success?
      && name in r.value.templates && r.value.templates[name] == decoded.value
      && (forall n :: n in e.templates && n != name ==> n in r.value.templates && r.value.templates[n] == e.templates[n])
      && r.value.templates.Keys == e.templates.Keys + {name}
      && r.value.languages == e.languages
  {
    match decoded
    case Failure(err) => Failure("unmarshal template: " + err)
    case Success(t) => Success(e.(templates := e.templates[name := t]))
  }

  // ---------------------------------------------------------------------------
  // ParseResponse
  // ---------------------------------------------------------------------------

  /** The parser ParseResponse uses: the four default separators and first-fuzzy resolution. */
  const EngineParser := Parser.StructuredParser(Parser.DefaultSeparators, Parser.FirstFuzzy)

  /** ParseResponse: the engine's own parser over the reply (the clock reading is a parameter). */
  function ParseResponse(content: string, rules: OutputRules, now: int): (r: ParsedResponse)
    ensures r.rawText == content
    ensures r.metadata == map["parse_time" := VInt(now), "parser_version" := VStr("1.0")]
  {
    Parser.Parse(EngineParser, content, rules, now)
  }
}

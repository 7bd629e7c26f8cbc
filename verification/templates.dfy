/**
 * The template manager (internal/core/prompt/template.go): the three built-in
 * templates, name-keyed lookup, insertion and removal, the helper functions
 * the templates call, and hand-written renderings of the two translation
 * prompts (the enumerated steps, the optional "neko" block and the JSON
 * skeleton with its commas).
 *
 * Executing arbitrary text/template programs is foreign code: BuildPrompt
 * takes the renderer as a parameter.
 */
module Templates {
  import opened Wrappers
  import opened Strings
  import opened PromptTypes

  datatype TemplateManager = TemplateManager(templates: map<string, PromptTemplate>)

  /** The two ways text/template can fail. */
  datatype RenderError = ParseError(msg: string) | ExecError(msg: string)

  /** The audio_transcribe system prompt (it has no template actions). */
  const AudioTranscribeSystem: string :=
    "你是一个高级的语音处理助手。你的任务是：\n"
    + "1. 将音频内容转录成其原始语言的文本。\n"
    + "\n"
    + "请最终 **务必** 在回答中包含如下 JSON，对其使用 markdown ```json``` 包裹：\n"
    + "```json\n"
    + "{\n"
    + "  \"transcription\": \"<转录文本>\",\n"
    + "  \"translations\": {}\n"
    + "}\n"
    + "```\n"
    + "除 JSON 与必要换行外，可以补充解释；但 JSON 代码块必须完整、合法。"

  /** The audio_transcribe user prompt. */
  const AudioTranscribeUser: string :=
    "请转录下面的音频内容。"

  /** The audio_translate system prompt source. */
  const AudioTranslateSystem: string :=
    "你是一个高级的语音处理助手。你的任务是：\n"
    + "1. 首先将音频内容转录成其原始语言的文本。\n"
    + "{{- range $index, $langName := .TargetLanguageNames }}\n"
    + "{{ add $index 2 }}. 将文本翻译成{{ $langName }}。\n"
    + "{{- end }}\n"
    + "\n"
    + "{{ if contains .TargetLanguageCodes \"neko\" }}\n"
    + "重要补充（当目标包含\"猫娘语\"时适用）：\n"
    + "- \"猫娘语\"的要求：\n"
    + "  1) 语气可爱、偏撒娇，适当带表情符号和喵\n"
    + "  2) 保持原文语义\n"
    + "- 输出的 JSON 中，\"translations\" 的 \"neko\" 键对应\"猫娘语\"版本\n"
    + "{{ end }}\n"
    + "\n"
    + "请最终 **务必** 在回答中包含如下 JSON，对其使用 markdown ```json``` 包裹：\n"
    + "```json\n"
    + "{\n"
    + "  \"transcription\": \"<转录文本>\",\n"
    + "  \"translations\": {\n"
    + "{{- range $index, $langCode := .TargetLanguageCodes }}\n"
    + "    \"{{ $langCode }}\": \"<{{ index $.TargetLanguageNames $index }} 译文>\"{{ if ne $index (sub (len $.TargetLanguageCodes) 1) }},{{ end }}\n"
    + "{{- end }}\n"
    + "  }\n"
    + "}\n"
    + "```\n"
    + "除 JSON 与必要换行外，可以补充解释；但 JSON 代码块必须完整、合法。"

  /** The audio_translate user prompt. */
  const AudioTranslateUser: string :=
    "请处理下面的音频内容。"

  /** The text_translate system prompt source. */
  const TextTranslateSystem: string :=
    "你是一个专业的翻译助手。你的任务是将给定的文本翻译成指定的目标语言。\n"
    + "\n"
    + "{{- range $index, $langName := .TargetLanguageNames }}\n"
    + "{{ add $index 1 }}. 将文本翻译成{{ $langName }}。\n"
    + "{{- end }}\n"
    + "\n"
    + "{{ if contains .TargetLanguageCodes \"neko\" }}\n"
    + "重要补充（当目标包含\"猫娘语\"时适用）：\n"
    + "- \"猫娘语\"的要求：\n"
    + "  1) 语气可爱、偏撒娇，适当带表情符号和喵\n"
    + "  2) 保持原文语义\n"
    + "- 输出的 JSON 中，\"translations\" 的 \"neko\" 键对应\"猫娘语\"版本\n"
    + "{{ end }}\n"
    + "\n"
    + "请最终 **务必** 在回答中包含如下 JSON，对其使用 markdown ```json``` 包裹：\n"
    + "```json\n"
    + "{\n"
    + "  \"source_text\": \"<原文>\",\n"
    + "  \"translations\": {\n"
    + "{{- range $index, $langCode := .TargetLanguageCodes }}\n"
    + "    \"{{ $langCode }}\": \"<{{ index $.TargetLanguageNames $index }} 译文>\"{{ if ne $index (sub (len $.TargetLanguageCodes) 1) }},{{ end }}\n"
    + "{{- end }}\n"
    + "  }\n"
    + "}\n"
    + "```\n"
    + "除 JSON 与必要换行外，可以补充解释；但 JSON 代码块必须完整、合法。请确保翻译准确、自然，并保持原文的语气和风格。"

  /** The text_translate user prompt source. */
  const TextTranslateUser: string :=
    "请翻译以下文本：\n"
    + "\n"
    + "{{ .SourceText }}"

  // The rendered pieces of the two translation prompts (whitespace already trimmed by `{{-`).


  /** The audio_translate text before the translation steps, ending with the transcription step. */
  const AudioHead: string :=
    "你是一个高级的语音处理助手。你的任务是：\n"
    + "1. 首先将音频内容转录成其原始语言的文本。"

  /** The text_translate text before the translation steps. */
  const TextHead: string :=
    "你是一个专业的翻译助手。你的任务是将给定的文本翻译成指定的目标语言。"

  /** The extra instructions rendered when "neko" is a target code. */
  const NekoText: string :=
    "\n"
    + "重要补充（当目标包含\"猫娘语\"时适用）：\n"
    + "- \"猫娘语\"的要求：\n"
    + "  1) 语气可爱、偏撒娇，适当带表情符号和喵\n"
    + "  2) 保持原文语义\n"
    + "- 输出的 JSON 中，\"translations\" 的 \"neko\" 键对应\"猫娘语\"版本\n"

  /** The audio_translate text between the neko block and the skeleton entries. */
  const AudioJsonHead: string :=
    "\n"
    + "\n"
    + "请最终 **务必** 在回答中包含如下 JSON，对其使用 markdown ```json``` 包裹：\n"
    + "```json\n"
    + "{\n"
    + "  \"transcription\": \"<转录文本>\",\n"
    + "  \"translations\": {"

  /** The text_translate text between the neko block and the skeleton entries. */
  const TextJsonHead: string :=
    "\n"
    + "\n"
    + "请最终 **务必** 在回答中包含如下 JSON，对其使用 markdown ```json``` 包裹：\n"
    + "```json\n"
    + "{\n"
    + "  \"source_text\": \"<原文>\",\n"
    + "  \"translations\": {"

  /** The audio_translate text after the skeleton entries. */
  const AudioTail: string :=
    "\n"
    + "  }\n"
    + "}\n"
    + "```\n"
    + "除 JSON 与必要换行外，可以补充解释；但 JSON 代码块必须完整、合法。"

  /** The text_translate text after the skeleton entries. */
  const TextTail: string :=
    "\n"
    + "  }\n"
    + "}\n"
    + "```\n"
    + "除 JSON 与必要换行外，可以补充解释；但 JSON 代码块必须完整、合法。请确保翻译准确、自然，并保持原文的语气和风格。"

  /** The built-in templates; none declares output rules, so theirs are the zero value. */
  const AudioTranscribeTemplate := PromptTemplate("audio_transcribe", "1.0", "音频转录模板",
    AudioTranscribeSystem, AudioTranscribeUser, EmptyRules, map[])
  const AudioTranslateTemplate := PromptTemplate("audio_translate", "1.0", "音频转录和翻译模板",
    AudioTranslateSystem, AudioTranslateUser, EmptyRules, map[])
  const TextTranslateTemplate := PromptTemplate("text_translate", "1.0", "文本翻译模板",
    TextTranslateSystem, TextTranslateUser, EmptyRules, map[])

  /** NewTemplateManager: exactly the three built-in templates. */
  function NewTemplateManager(): (tm: TemplateManager)
    ensures tm.templates.Keys == {"audio_transcribe", "audio_translate", "text_translate"}
  {
    TemplateManager(map[
      "audio_transcribe" := AudioTranscribeTemplate,
      "audio_translate" := AudioTranslateTemplate,
      "text_translate" := TextTranslateTemplate])
  }

  /** GetTemplate with Go's comma-ok. */
  function GetTemplate(tm: TemplateManager, name: string): (r: Option<PromptTemplate>)
    ensures r.Some? <==> name in tm.templates
    ensures r.Some? ==> r.value == tm.templates[name]
  {
    if name in tm.templates then Some(tm.templates[name]) else None
  }

  /** AddTemplate: stored under its own name, replacing any earlier template of that name. */
  function AddTemplate(tm: TemplateManager, t: PromptTemplate): (r: TemplateManager)
    ensures GetTemplate(r, t.name) == Some(t)
    ensures forall n :: n != t.name ==> GetTemplate(r, n) == GetTemplate(tm, n)
    ensures r.templates.Keys == tm.templates.Keys + {t.name}
  {
    TemplateManager(tm.templates[t.name := t])
  }

  /** RemoveTemplate: reports whether the name was present, and leaves it absent. */
  function RemoveTemplate(tm: TemplateManager, name: string): (r: (TemplateManager, bool))
    ensures r.1 <==> name in tm.templates
    ensures GetTemplate(r.0, name).None?
    ensures forall n :: n != name ==> GetTemplate(r.0, n) == GetTemplate(tm, n)
  {
    if name in tm.templates then (TemplateManager(tm.templates - {name}), true) else (tm, false)
  }

  /** Adding a template and removing it again restores a manager that did not have the name. */
  lemma AddThenRemove(tm: TemplateManager, t: PromptTemplate)
    requires t.name !in tm.templates
    ensures RemoveTemplate(AddTemplate(tm, t), t.name) == (tm, true)
  {
    assert AddTemplate(tm, t).templates - {t.name} == tm.templates;
  }

  function RenderFailure(which: string, err: RenderError): string {
    match err
    case ParseError(m) => "parse " + which + " template: " + m
    case ExecError(m) => "execute " + which + " template: " + m
  }

  /**
   * BuildPrompt: look the template up and render both prompts with `render`;
   * the prompt itself carries no rules, the template's rules are returned
   * beside it.
   */
  function BuildPrompt(tm: TemplateManager, name: string, data: map<string, Value>,
                       render: (string, map<string, Value>) -> Result<string, RenderError>)
    : (r: Result<(Prompt, OutputRules), string>)
    ensures name !in tm.templates ==> r == Failure("template not found: " + name)
    ensures r.Success? ==>
      name in tm.templates && r.value.1 == tm.templates[name].outputRules && r.value.0.outputRules == EmptyRules
    ensures name in tm.templates ==>
      (r.Success? <==> render(tm.templates[name].systemPrompt, data).Success?
                       && render(tm.templates[name].userPrompt, data).Success?)
    ensures r.Success? ==>
      && r.value.0.system == render(tm.templates[name].systemPrompt, data).value
      && r.value.0.user == render(tm.templates[name].userPrompt, data).value
    ensures name in tm.templates && render(tm.templates[name].systemPrompt, data).Failure? ==>
      r == Failure(RenderFailure("system", render(tm.templates[name].systemPrompt, data).error))
    ensures name in tm.templates && render(tm.templates[name].systemPrompt, data).Success?
            && render(tm.templates[name].userPrompt, data).Failure? ==>
      r == Failure(RenderFailure("user", render(tm.templates[name].userPrompt, data).error))
  {
    if name !in tm.templates then Failure("template not found: " + name)
    else
      var tmpl := tm.templates[name];
      match render(tmpl.systemPrompt, data)
      case Failure(err) => Failure(RenderFailure("system", err))
      case Success(system) =>
        match render(tmpl.userPrompt, data)
        case Failure(err) => Failure(RenderFailure("user", err))
        case Success(user) => Success((Prompt(system, user, EmptyRules), tmpl.outputRules))
  }

  /** The built-in templates all come back with empty rules. */
  lemma BuiltinRulesEmpty(name: string, data: map<string, Value>,
                          render: (string, map<string, Value>) -> Result<string, RenderError>)
    requires BuildPrompt(NewTemplateManager(), name, data, render).Success?
    ensures BuildPrompt(NewTemplateManager(), name, data, render).value.1 == EmptyRules
  {
  }

  // ---------------------------------------------------------------------------
  // Template helper functions
  // ---------------------------------------------------------------------------

  /** `add` */
  function Add(a: int, b: int): int {
    a + b
  }

  /** `sub` */
  function Sub(a: int, b: int): int {
    a - b
  }

  /** `len` */
  function Len(s: seq<string>): (n: nat)
    ensures n == |s|
  {
    |s|
  }

  /** `contains`: a linear scan for an equal element. */
  function ListContains(list: seq<string>, s: string): (r: bool)
    ensures r <==> exists i :: 0 <= i < |list| && list[i] == s
  {
    if |list| == 0 then false
    else if list[0] == s then true
    else ListContains(list[1..], s)
  }

  // ---------------------------------------------------------------------------
  // Rendering the two translation prompts
  // ---------------------------------------------------------------------------

  /** One enumerated step, `\n{n}. 将文本翻译成{name}。`. */
  function StepLine(n: nat, name: string): string {
    "\n" + NatToString(n) + ". 将文本翻译成" + name + "。"
  }

  /** The steps for the target names, `{{ add $index first }}` numbering them from `first`. */
  function Steps(names: seq<string>, first: nat): (r: seq<string>)
    ensures |r| == |names|
    ensures forall i :: 0 <= i < |names| ==> r[i] == StepLine(first + i, names[i])
  {
    seq(|names|, i requires 0 <= i < |names| => StepLine(Add(i, first), names[i]))
  }

  /** The `{{ if contains .TargetLanguageCodes "neko" }}` block. */
  function NekoBlock(codes: seq<string>): (r: string)
    ensures r != "" <==> ListContains(codes, "neko")
  {
    if ListContains(codes, "neko") then NekoText else ""
  }

  /** One skeleton entry, `\n    "{code}": "<{name} 译文>"`, with a comma unless it is the last. */
  function Entry(code: string, name: string, last: bool): string {
    "\n    \"" + code + "\": \"<" + name + " 译文>\"" + (if last then "" else ",")
  }

  /**
   * The skeleton entries: `index $.TargetLanguageNames $index` fails once the
   * names run out, and `sub (len codes) 1` marks the entry without a comma.
   */
  function Entries(codes: seq<string>, names: seq<string>): (r: Result<seq<string>, RenderError>)
    ensures r.Success? <==> |codes| <= |names|
    ensures r.Success? ==>
      |r.value| == |codes| && forall i :: 0 <= i < |codes| ==> r.value[i] == Entry(codes[i], names[i], i == |codes| - 1)
  {
    if |codes| <= |names| then
      Success(seq(|codes|, i requires 0 <= i < |codes| => Entry(codes[i], names[i], i == Sub(Len(codes), 1))))
    else
      Failure(ExecError("error calling index: index out of range: " + NatToString(|names|)))
  }

  /** The last character of an entry is a comma exactly when it is not the last entry. */
  lemma EntryComma(code: string, name: string, last: bool)
    ensures var e := Entry(code, name, last); |e| > 0 && (e[|e| - 1] == ',' <==> !last)
  {
  }

  /** How many of the entries end with a comma. */
  function CommaEntries(entries: seq<string>): nat {
    if |entries| == 0 then 0
    else (if |entries[0]| > 0 && entries[0][|entries[0]| - 1] == ',' then 1 else 0) + CommaEntries(entries[1..])
  }

  lemma {:induction false} CommaEntriesCount(codes: seq<string>, names: seq<string>, k: nat)
    requires |codes| <= |names| && k <= |codes|
    ensures CommaEntries(Entries(codes, names).value[k..]) == if k < |codes| then |codes| - 1 - k else 0
    decreases |codes| - k
  {
    var es := Entries(codes, names).value;
    if k < |codes| {
      CommaEntriesCount(codes, names, k + 1);
      EntryComma(codes[k], names[k], k == |codes| - 1);
      assert es[k..][1..] == es[k + 1..];
    }
  }

  /** For n codes the skeleton has exactly n − 1 entries ending with a comma. */
  lemma SkeletonCommas(codes: seq<string>, names: seq<string>)
    requires 0 < |codes| <= |names|
    ensures CommaEntries(Entries(codes, names).value) == |codes| - 1
  {
    CommaEntriesCount(codes, names, 0);
    assert Entries(codes, names).value[0..] == Entries(codes, names).value;
  }

  /** The target names and codes the translation templates are executed with. */
  datatype Targets = Targets(names: seq<string>, codes: seq<string>)

  /** A translation prompt: head, steps from `first`, neko block, JSON head, entries, tail. */
  function RenderTranslation(head: string, first: nat, jsonHead: string, tail: string, t: Targets)
    : (r: Result<string, RenderError>)
    ensures r.Success? <==> |t.codes| <= |t.names|
    ensures r.Success? ==>
      r.value == Assemble(head, Concat(Steps(t.names, first)), NekoBlock(t.codes), jsonHead, Concat(Entries(t.codes, t.names).value), tail)
  {
    match Entries(t.codes, t.names)
    case Failure(e) => Failure(e)
    case Success(entries) =>
      Success(Assemble(head, Concat(Steps(t.names, first)), NekoBlock(t.codes), jsonHead, Concat(entries), tail))
  }

  /** A rendered prompt holds step `first + i` for every target name. */
  lemma RenderedSteps(head: string, first: nat, jsonHead: string, tail: string, t: Targets)
    requires |t.codes| <= |t.names|
    ensures forall i :: 0 <= i < |t.names| ==>
      Contains(RenderTranslation(head, first, jsonHead, tail, t).value, StepLine(first + i, t.names[i]))
  {
    var steps := Steps(t.names, first);
    AssembleHasAllSteps(head, steps, NekoBlock(t.codes), jsonHead, Concat(Entries(t.codes, t.names).value), tail);
  }

  /** A rendered prompt holds the skeleton entry of every target code, comma-terminated except the last. */
  lemma RenderedEntries(head: string, first: nat, jsonHead: string, tail: string, t: Targets)
    requires |t.codes| <= |t.names|
    ensures forall i :: 0 <= i < |t.codes| ==>
      Contains(RenderTranslation(head, first, jsonHead, tail, t).value, Entry(t.codes[i], t.names[i], i == |t.codes| - 1))
  {
    var entries := Entries(t.codes, t.names).value;
    AssembleHasAllEntries(head, Concat(Steps(t.names, first)), NekoBlock(t.codes), jsonHead, entries, tail);
  }

  /**
   * The neko instructions are rendered exactly when "neko" is a target code:
   * then the prompt holds them, and otherwise the prompt is the assembly
   * with an empty neko slot.
   */
  lemma RenderedNeko(head: string, first: nat, jsonHead: string, tail: string, t: Targets)
    requires |t.codes| <= |t.names|
    ensures ListContains(t.codes, "neko") ==> Contains(RenderTranslation(head, first, jsonHead, tail, t).value, NekoText)
    ensures !ListContains(t.codes, "neko") ==>
      RenderTranslation(head, first, jsonHead, tail, t).value
        == Assemble(head, Concat(Steps(t.names, first)), "", jsonHead, Concat(Entries(t.codes, t.names).value), tail)
  {
    var steps := Steps(t.names, first);
    var entries := Entries(t.codes, t.names).value;
    AssembleHasNeko(head, Concat(steps), NekoBlock(t.codes), jsonHead, Concat(entries), tail);
  }

  /** The rendered prompt from its pieces; the steps and the neko block are separated by a blank line. */
  function Assemble(head: string, steps: string, neko: string, jsonHead: string, entries: string, tail: string): string {
    head + steps + "\n\n" + neko + jsonHead + entries + tail
  }

  lemma AssembleHasSteps(head: string, steps: string, neko: string, jsonHead: string, entries: string, tail: string, p: string)
    requires Contains(steps, p)
    ensures Contains(Assemble(head, steps, neko, jsonHead, entries, tail), p)
  {
    assert Assemble(head, steps, neko, jsonHead, entries, tail) == head + steps + ("\n\n" + neko + jsonHead + entries + tail);
    ContainsWithin(head, steps, "\n\n" + neko + jsonHead + entries + tail, p);
  }

  lemma AssembleHasAllSteps(head: string, steps: seq<string>, neko: string, jsonHead: string, entries: string, tail: string)
    ensures forall i :: 0 <= i < |steps| ==> Contains(Assemble(head, Concat(steps), neko, jsonHead, entries, tail), steps[i])
  {
    forall i | 0 <= i < |steps|
      ensures Contains(Assemble(head, Concat(steps), neko, jsonHead, entries, tail), steps[i])
    {
      ConcatContains(steps, i);
      AssembleHasSteps(head, Concat(steps), neko, jsonHead, entries, tail, steps[i]);
    }
  }

  lemma AssembleHasNeko(head: string, steps: string, neko: string, jsonHead: string, entries: string, tail: string)
    ensures Contains(Assemble(head, steps, neko, jsonHead, entries, tail), neko)
  {
    assert Assemble(head, steps, neko, jsonHead, entries, tail) == (head + steps + "\n\n") + neko + (jsonHead + entries + tail);
    ContainsMiddle(head + steps + "\n\n", neko, jsonHead + entries + tail);
  }

  lemma AssembleHasEntries(head: string, steps: string, neko: string, jsonHead: string, entries: string, tail: string, p: string)
    requires Contains(entries, p)
    ensures Contains(Assemble(head, steps, neko, jsonHead, entries, tail), p)
  {
    assert Assemble(head, steps, neko, jsonHead, entries, tail) == (head + steps + "\n\n" + neko + jsonHead) + entries + tail;
    ContainsWithin(head + steps + "\n\n" + neko + jsonHead, entries, tail, p);
  }

  lemma AssembleHasAllEntries(head: string, steps: string, neko: string, jsonHead: string, entries: seq<string>, tail: string)
    ensures forall i :: 0 <= i < |entries| ==> Contains(Assemble(head, steps, neko, jsonHead, Concat(entries), tail), entries[i])
  {
    forall i | 0 <= i < |entries|
      ensures Contains(Assemble(head, steps, neko, jsonHead, Concat(entries), tail), entries[i])
    {
      ConcatContains(entries, i);
      AssembleHasEntries(head, steps, neko, jsonHead, Concat(entries), tail, entries[i]);
    }
  }

  /**
   * The audio_translate system prompt: the transcription step is 1, so
   * translation step i is numbered i + 2; the neko instructions appear when
   * "neko" is a target, and the neko slot is empty otherwise.
   */
  function RenderAudioTranslate(t: Targets): (r: Result<string, RenderError>)
    ensures r.Success? <==> |t.codes| <= |t.names|
    ensures r.Success? ==> forall i :: 0 <= i < |t.names| ==> Contains(r.value, StepLine(2 + i, t.names[i]))
    ensures r.Success? && ListContains(t.codes, "neko") ==> Contains(r.value, NekoText)
    ensures r.Success? && !ListContains(t.codes, "neko") ==>
      r.value == Assemble(AudioHead, Concat(Steps(t.names, 2)), "", AudioJsonHead, Concat(Entries(t.codes, t.names).value), AudioTail)
  {
    var r := RenderTranslation(AudioHead, 2, AudioJsonHead, AudioTail, t);
    if r.Success? then
      RenderedSteps(AudioHead, 2, AudioJsonHead, AudioTail, t);
      RenderedNeko(AudioHead, 2, AudioJsonHead, AudioTail, t);
      r
    else r
  }

  /**
   * The text_translate system prompt: translation step i is numbered i + 1;
   * the neko instructions appear when "neko" is a target, and the neko slot
   * is empty otherwise.
   */
  function RenderTextTranslate(t: Targets): (r: Result<string, RenderError>)
    ensures r.Success? <==> |t.codes| <= |t.names|
    ensures r.Success? ==> forall i :: 0 <= i < |t.names| ==> Contains(r.value, StepLine(1 + i, t.names[i]))
    ensures r.Success? && ListContains(t.codes, "neko") ==> Contains(r.value, NekoText)
    ensures r.Success? && !ListContains(t.codes, "neko") ==>
      r.value == Assemble(TextHead, Concat(Steps(t.names, 1)), "", TextJsonHead, Concat(Entries(t.codes, t.names).value), TextTail)
  {
    var r := RenderTranslation(TextHead, 1, TextJsonHead, TextTail, t);
    if r.Success? then
      RenderedSteps(TextHead, 1, TextJsonHead, TextTail, t);
      RenderedNeko(TextHead, 1, TextJsonHead, TextTail, t);
      r
    else r
  }

  /** The text_translate user prompt: a fixed request, a blank line and the source text. */
  function RenderTextUser(sourceText: string): (r: string)
    ensures |r| >= |sourceText| && r[|r| - |sourceText|..] == sourceText
  {
    "请翻译以下文本：\n\n" + sourceText
  }
}

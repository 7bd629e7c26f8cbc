/**
 * The value types shared by the prompt package: task and format names, output
 * schemas, templates, languages and parsed responses.
 *
 * Go maps whose iteration order matters (a language's names, the registry)
 * are sequences here; maps that are only looked up stay Dafny maps.
 */
module PromptTypes {
  import opened Wrappers

  /**
   * A Go `interface{}` value: nil, a string, a bool, an int, a float64 (as
   * the exact `real` its decimal rendering denotes), a `[]string`, or a
   * `[]interface{}` such as JSON decoding produces.
   */
  datatype Value =
    | VNil
    | VStr(s: string)
    | VBool(b: bool)
    | VInt(i: int)
    | VReal(r: real)
    | VStrs(items: seq<string>)
    | VList(elems: seq<Value>)

  // Task types (TaskType is a string in Go, so any other value is possible)
  const TaskTranscribe: string := "transcribe"
  const TaskTranslate: string := "translate"
  const TaskBoth: string := "both"

  // Output formats
  const FormatStructured: string := "structured"
  const FormatJSON: string := "json"
  const FormatMarkdown: string := "markdown"
  const FormatPlain: string := "plain"

  /** The key of the transcription / source-text section. */
  const SourceKey: string := "原文"

  datatype OutputSection = OutputSection(
    key: string,
    aliases: seq<string>,
    languageCode: string,
    required: bool,
    order: int)

  datatype OutputRules = OutputRules(format: string, separator: string, sections: seq<OutputSection>)

  /** The zero value of OutputRules. */
  const EmptyRules := OutputRules("", "", [])

  datatype PromptRequest = PromptRequest(
    task: string,
    sourceLanguage: string,
    targetLanguages: seq<string>,
    template: string,
    variables: map<string, Value>,
    outputFormat: string,
    userPrompt: string)

  datatype Prompt = Prompt(system: string, user: string, outputRules: OutputRules)

  datatype PromptTemplate = PromptTemplate(
    name: string,
    version: string,
    description: string,
    systemPrompt: string,
    userPrompt: string,
    outputRules: OutputRules,
    variables: map<string, Value>)

  /** One entry of a language's `names` map, such as ("display", "英文"). */
  datatype NameEntry = NameEntry(kind: string, value: string)

  datatype Language = Language(code: string, names: seq<NameEntry>, aliases: seq<string>)

  /** `lang.Names[kind]` with Go's comma-ok. */
  function NameOf(names: seq<NameEntry>, kind: string): (r: Option<string>)
    ensures r.Some? <==> exists i :: 0 <= i < |names| && names[i].kind == kind
    ensures r.Some? ==> exists i :: 0 <= i < |names| && names[i] == NameEntry(kind, r.value)
  {
    if |names| == 0 then None
    else if names[0].kind == kind then Some(names[0].value)
    else NameOf(names[1..], kind)
  }

  function DisplayName(lang: Language): Option<string> {
    NameOf(lang.names, "display")
  }

  /** `lang.Names["display"]` with Go's zero value for a missing key. */
  function DisplayOrEmpty(lang: Language): string {
    DisplayName(lang).GetOr("")
  }

  /**
   * The `default` template helper: the default when the value is nil or the
   * empty string, the value otherwise.
   */
  function DefaultValue(defaultValue: Value, value: Value): (r: Value)
    ensures r == defaultValue <==> value == VNil || value == VStr("") || value == defaultValue
    ensures r == value || r == defaultValue
  {
    if value == VNil || value == VStr("") then defaultValue else value
  }

  datatype ParsedResponse = ParsedResponse(
    rawText: string,
    sections: map<string, string>,
    metadata: map<string, Value>)
}

/**
 * The OpenAI-compatible backend's request assembly, over a JSON value
 * datatype: the chat messages, the default and per-request sampling
 * parameters, the headers, and reading the reply's content back. Sending the
 * request and decoding the reply are not modelled; base64 encoding is a
 * parameter.
 */
module BaseBackend {
  import opened Wrappers
  import opened Strings
  import opened PromptTypes
  import opened LlmTypes

  /**
   * A JSON value. Go's float64 parameters are carried as `real`, the exact
   * value of their decimal rendering; nothing here computes with them.
   */
  datatype Json =
    | JNull
    | JBool(b: bool)
    | JInt(i: int)
    | JReal(r: real)
    | JStr(s: string)
    | JArr(items: seq<Json>)
    | JObj(fields: map<string, Json>)

  /**
   * How a request option value is encoded: scalars as themselves, floats as
   * JSON numbers, both kinds of list as arrays.
   */
  function ValueToJson(v: Value): (j: Json)
    ensures (v.VStrs? || v.VList?) <==> j.JArr?
    ensures v.VStrs? ==> |j.items| == |v.items|
    ensures v.VList? ==> |j.items| == |v.elems|
    decreases v
  {
    match v
    case VNil => JNull
    case VStr(s) => JStr(s)
    case VBool(b) => JBool(b)
    case VInt(i) => JInt(i)
    case VReal(x) => JReal(x)
    case VStrs(items) => JArr(StrItems(items))
    case VList(elems) => JArr(seq(|elems|, k requires 0 <= k < |elems| => ValueToJson(elems[k])))
  }

  /**
   * A structural reading of an encoded value: each JSON kind back to the
   * value kind it came from, arrays as `[]interface{}`. It is not Go's JSON
   * decoding, which would turn every number into a float64. Objects never
   * come out of ValueToJson and read as nil.
   */
  function JsonToValue(j: Json): Value
    decreases j
  {
    match j
    case JNull => VNil
    case JStr(s) => VStr(s)
    case JBool(b) => VBool(b)
    case JInt(i) => VInt(i)
    case JReal(x) => VReal(x)
    case JArr(items) => VList(seq(|items|, k requires 0 <= k < |items| => JsonToValue(items[k])))
    case JObj(_) => VNil
  }

  /** A value with every `[]string` replaced by the `[]interface{}` of its strings. */
  function Untyped(v: Value): Value
    decreases v
  {
    match v
    case VStrs(items) => VList(seq(|items|, k requires 0 <= k < |items| => VStr(items[k])))
    case VList(elems) => VList(seq(|elems|, k requires 0 <= k < |elems| => Untyped(elems[k])))
    case _ => v
  }

  /**
   * Encoding an option loses nothing but the static type of a string list:
   * reading it back gives the value with its `[]string`s untyped.
   */
  lemma {:induction false} ValueJsonRoundTrip(v: Value)
    ensures JsonToValue(ValueToJson(v)) == Untyped(v)
    decreases v
  {
    match v
    case VList(elems) =>
      forall k | 0 <= k < |elems|
        ensures JsonToValue(ValueToJson(elems[k])) == Untyped(elems[k])
      {
        ValueJsonRoundTrip(elems[k]);
      }
    case _ =>
  }

  /** A list of strings as JSON strings, in order. */
  function StrItems(items: seq<string>): (r: seq<Json>)
    ensures |r| == |items| && forall k :: 0 <= k < |items| ==> r[k] == JStr(items[k])
  {
    if |items| == 0 then [] else [JStr(items[0])] + StrItems(items[1..])
  }

  /** base64.StdEncoding.EncodeToString, a parameter. */
  type Base64 = seq<byte> -> string

  // ---------------------------------------------------------------------------
  // Messages
  // ---------------------------------------------------------------------------

  function TextMessage(role: string, content: string): Json {
    JObj(map["role" := JStr(role), "content" := JStr(content)])
  }

  /**
   * buildAudioMessage: a user message whose content is a text part with the
   * user prompt followed by an input_audio part with the encoded audio and
   * its format.
   */
  function BuildAudioMessage(req: LLMRequest, encode: Base64): Json {
    var textPart := JObj(map["type" := JStr("text"), "text" := JStr(req.userPrompt)]);
    var audioPart := JObj(map[
      "type" := JStr("input_audio"),
      "input_audio" := JObj(map["data" := JStr(encode(req.audio)), "format" := JStr(req.audioFormat)])]);
    JObj(map["role" := JStr("user"), "content" := JArr([textPart, audioPart])])
  }

  /**
   * buildMessages: a system message first exactly when there is a system
   * prompt, then one user message: with the audio parts when there is audio,
   * plain text otherwise.
   */
  function BuildMessages(req: LLMRequest, encode: Base64): (r: seq<Json>)
    ensures |r| == (if req.systemPrompt != "" then 2 else 1)
    ensures req.systemPrompt != "" ==> r[0] == TextMessage("system", req.systemPrompt)
    ensures r[|r| - 1] == (if |req.audio| > 0 then BuildAudioMessage(req, encode) else TextMessage("user", req.userPrompt))
  {
    var system := if req.systemPrompt != "" then [TextMessage("system", req.systemPrompt)] else [];
    var user := if |req.audio| > 0 then BuildAudioMessage(req, encode) else TextMessage("user", req.userPrompt);
    system + [user]
  }

  /** A message's role, read back from the JSON. */
  function RoleOf(m: Json): Option<string> {
    if m.JObj? && "role" in m.fields && m.fields["role"].JStr? then Some(m.fields["role"].s) else None
  }

  /** A content part of the given type, read back from a user message. */
  function PartOf(m: Json, kind: string): Option<Json> {
    if m.JObj? && "content" in m.fields && m.fields["content"].JArr? then FindPart(m.fields["content"].items, kind)
    else None
  }

  function FindPart(parts: seq<Json>, kind: string): Option<Json> {
    if |parts| == 0 then None
    else if parts[0].JObj? && "type" in parts[0].fields && parts[0].fields["type"] == JStr(kind) then Some(parts[0])
    else FindPart(parts[1..], kind)
  }

  /** The roles of the messages, in order: "system" only first and only with a prompt, "user" exactly once and last. */
  lemma MessageRoles(req: LLMRequest, encode: Base64)
    ensures var ms := BuildMessages(req, encode);
      (req.systemPrompt != "" ==> RoleOf(ms[0]) == Some("system"))
      && RoleOf(ms[|ms| - 1]) == Some("user")
      && forall i :: 0 <= i < |ms| - 1 ==> RoleOf(ms[i]) == Some("system")
  {
  }

  /** The text of a user message's "text" part, read back from the JSON. */
  function TextOf(m: Json): Option<string> {
    match PartOf(m, "text")
    case Some(part) =>
      if part.JObj? && "text" in part.fields && part.fields["text"].JStr? then Some(part.fields["text"].s) else None
    case None => None
  }

  /** The data and format of a user message's "input_audio" part, read back from the JSON. */
  function AudioOf(m: Json): Option<(string, string)> {
    match PartOf(m, "input_audio")
    case Some(part) =>
      if part.JObj? && "input_audio" in part.fields && part.fields["input_audio"].JObj? then
        var a := part.fields["input_audio"].fields;
        if "data" in a && a["data"].JStr? && "format" in a && a["format"].JStr? then Some((a["data"].s, a["format"].s))
        else None
      else None
    case None => None
  }

  /** Reading an audio message back yields the user prompt, the encoded audio and its format. */
  lemma AudioMessageRoundTrip(req: LLMRequest, encode: Base64)
    ensures TextOf(BuildAudioMessage(req, encode)) == Some(req.userPrompt)
    ensures AudioOf(BuildAudioMessage(req, encode)) == Some((encode(req.audio), req.audioFormat))
    ensures RoleOf(BuildAudioMessage(req, encode)) == Some("user")
  {
    var m := BuildAudioMessage(req, encode);
    var parts := m.fields["content"].items;
    assert parts[0].fields["type"] == JStr("text");
    assert parts[1..][0].fields["type"] == JStr("input_audio");
    assert JStr("text") != JStr("input_audio");
    assert FindPart(parts, "text") == Some(parts[0]);
    assert FindPart(parts[1..], "input_audio") == Some(parts[1]);
    assert FindPart(parts, "input_audio") == Some(parts[1]);
  }

  // ---------------------------------------------------------------------------
  // Parameters
  // ---------------------------------------------------------------------------

  /** The sampling parameters the body can carry, named on the wire by Name. */
  datatype Param =
    | Temperature | MaxTokens | TopP | TopK | RepetitionPenalty
    | FrequencyPenalty | PresencePenalty | Stop | Seed | Stream

  function Name(q: Param): string {
    match q
    case Temperature => "temperature"
    case MaxTokens => "max_tokens"
    case TopP => "top_p"
    case TopK => "top_k"
    case RepetitionPenalty => "repetition_penalty"
    case FrequencyPenalty => "frequency_penalty"
    case PresencePenalty => "presence_penalty"
    case Stop => "stop"
    case Seed => "seed"
    case Stream => "stream"
  }

  /** The request options addRequestParameters copies, in the order it copies them. */
  const SupportedParams: seq<Param> :=
    [Temperature, MaxTokens, TopP, TopK, RepetitionPenalty, FrequencyPenalty, PresencePenalty, Stop, Seed, Stream]

  /** The whitelist names every parameter exactly once. */
  lemma SupportedParamsComplete()
    ensures forall q: Param :: q in SupportedParams
    ensures forall i, j :: 0 <= i < j < |SupportedParams| ==> SupportedParams[i] != SupportedParams[j]
  {
    forall q: Param ensures q in SupportedParams {
      assert SupportedParams[ParamIndex(q)] == q;
    }
    forall i | 0 <= i < |SupportedParams| ensures ParamIndex(SupportedParams[i]) == i {
    }
  }

  /** Where a parameter sits in the whitelist. */
  function ParamIndex(q: Param): nat {
    match q
    case Temperature => 0
    case MaxTokens => 1
    case TopP => 2
    case TopK => 3
    case RepetitionPenalty => 4
    case FrequencyPenalty => 5
    case PresencePenalty => 6
    case Stop => 7
    case Seed => 8
    case Stream => 9
  }

  /** config.LLMParameters: every field optional. */
  datatype LLMParameters = LLMParameters(
    temperature: Option<real>,
    maxTokens: Option<int>,
    topP: Option<real>,
    topK: Option<int>,
    repetitionPenalty: Option<real>,
    frequencyPenalty: Option<real>,
    presencePenalty: Option<real>,
    stop: seq<string>,
    seed: Option<int>,
    stream: Option<bool>)

  const DefaultTemperature: real := 0.7
  const DefaultMaxTokens: int := 1000

  /**
   * The value the configuration gives a parameter, if any: temperature,
   * max_tokens and stream always, falling back to 0.7, 1000 and false; stop
   * only when the list is non-empty; the rest only when configured.
   */
  function Configured(p: LLMParameters, q: Param): Option<Json> {
    match q
    case Temperature => Some(JReal(p.temperature.GetOr(DefaultTemperature)))
    case MaxTokens => Some(JInt(p.maxTokens.GetOr(DefaultMaxTokens)))
    case TopP => if p.topP.Some? then Some(JReal(p.topP.value)) else None
    case TopK => if p.topK.Some? then Some(JInt(p.topK.value)) else None
    case RepetitionPenalty => if p.repetitionPenalty.Some? then Some(JReal(p.repetitionPenalty.value)) else None
    case FrequencyPenalty => if p.frequencyPenalty.Some? then Some(JReal(p.frequencyPenalty.value)) else None
    case PresencePenalty => if p.presencePenalty.Some? then Some(JReal(p.presencePenalty.value)) else None
    case Stop => if |p.stop| > 0 then Some(JArr(StrItems(p.stop))) else None
    case Seed => if p.seed.Some? then Some(JInt(p.seed.value)) else None
    case Stream => Some(JBool(p.stream.GetOr(false)))
  }

  /** The three parameters that always appear, and their defaults. */
  lemma DefaultsAlwaysPresent(p: LLMParameters)
    ensures Configured(p, Temperature).Some? && Configured(p, MaxTokens).Some? && Configured(p, Stream).Some?
    ensures p.temperature.None? ==> Configured(p, Temperature) == Some(JReal(0.7))
    ensures p.maxTokens.None? ==> Configured(p, MaxTokens) == Some(JInt(1000))
    ensures p.stream.None? ==> Configured(p, Stream) == Some(JBool(false))
  {
  }

  /** Nothing configured. */
  const NoParams := LLMParameters(None, None, None, None, None, None, None, [], None, None)

  /** With nothing configured, exactly the three defaults are set. */
  lemma OnlyDefaultsWhenUnconfigured(q: Param)
    ensures Configured(NoParams, q).Some? <==> q == Temperature || q == MaxTokens || q == Stream
  {
  }

  /**
   * The request body. Go's map holds "model", "messages" and the
   * parameters; the two fixed fields are kept apart from the parameter map.
   */
  datatype Body = Body(model: string, messages: seq<Json>, params: map<Param, Json>)

  /** The body as the JSON object that is sent. */
  function ToJson(b: Body): map<string, Json> {
    map["model" := JStr(b.model), "messages" := JArr(b.messages)] + ParamFields(b.params, SupportedParams)
  }

  function ParamFields(params: map<Param, Json>, qs: seq<Param>): map<string, Json>
    decreases |qs|
  {
    if |qs| == 0 then map[]
    else
      var rest := ParamFields(params, qs[1..]);
      if qs[0] in params then rest[Name(qs[0]) := params[qs[0]]] else rest
  }

  /** The parameters the configuration gives a value. */
  function ConfiguredSet(p: LLMParameters): (r: set<Param>)
    ensures forall q :: q in r <==> Configured(p, q).Some?
  {
    SupportedParamsComplete();
    set q | q in SupportedParams && Configured(p, q).Some?
  }

  /**
   * addDefaultParameters: every parameter the configuration gives is written
   * into the body, replacing what it held; the others are left alone.
   */
  function AddDefaultParameters(b: Body, p: LLMParameters): (r: Body)
    ensures r.model == b.model && r.messages == b.messages
    ensures forall q :: Configured(p, q).Some? ==> q in r.params && r.params[q] == Configured(p, q).value
    ensures forall q :: Configured(p, q).None? ==> (q in r.params <==> q in b.params)
    ensures forall q :: Configured(p, q).None? && q in b.params ==> r.params[q] == b.params[q]
  {
    var configured := ConfiguredSet(p);
    b.(params := map q | q in b.params.Keys + configured ::
                   if q in configured then Configured(p, q).value else b.params[q])
  }

  /**
   * addRequestParameters: each whitelisted option present in the request
   * replaces whatever the body held; an option under any other name has no
   * parameter to land in and is ignored. A nil option map, like an empty
   * one, changes nothing.
   */
  function AddRequestParameters(b: Body, options: map<string, Value>): (r: Body)
    ensures r.model == b.model && r.messages == b.messages
    ensures forall q :: Name(q) in options ==> q in r.params && r.params[q] == ValueToJson(options[Name(q)])
    ensures forall q :: Name(q) !in options ==> (q in r.params <==> q in b.params)
    ensures forall q :: Name(q) !in options && q in b.params ==> r.params[q] == b.params[q]
  {
    SupportedParamsComplete();
    CopyOptions(b, options, SupportedParams)
  }

  /** Copies each listed parameter the options hold, in list order. */
  function CopyOptions(b: Body, options: map<string, Value>, qs: seq<Param>): (r: Body)
    ensures r.model == b.model && r.messages == b.messages
    ensures forall q :: q in qs && Name(q) in options ==> q in r.params && r.params[q] == ValueToJson(options[Name(q)])
    ensures forall q :: !(q in qs && Name(q) in options) ==> (q in r.params <==> q in b.params)
    ensures forall q :: !(q in qs && Name(q) in options) && q in b.params ==> r.params[q] == b.params[q]
    decreases |qs|
  {
    if |qs| == 0 then b
    else
      var b1 := if Name(qs[0]) in options then b.(params := b.params[qs[0] := ValueToJson(options[Name(qs[0])])]) else b;
      CopyOptions(b1, options, qs[1..])
  }

  /**
   * The request body Process sends: model and messages, then the defaults,
   * then the request's own options on top.
   */
  function RequestBody(model: string, params: LLMParameters, req: LLMRequest, encode: Base64): Body {
    AddRequestParameters(AddDefaultParameters(Body(model, BuildMessages(req, encode), map[]), params), req.options)
  }

  /**
   * In the body, a whitelisted request option always wins over the
   * configuration, which in turn fills every parameter the request leaves
   * out; nothing else appears.
   */
  lemma RequestBodyPrecedence(model: string, params: LLMParameters, req: LLMRequest, encode: Base64, q: Param)
    ensures var body := RequestBody(model, params, req, encode);
      && body.model == model && body.messages == BuildMessages(req, encode)
      && (Name(q) in req.options ==> q in body.params && body.params[q] == ValueToJson(req.options[Name(q)]))
      && (Name(q) !in req.options ==> (q in body.params <==> Configured(params, q).Some?))
      && (Name(q) !in req.options && Configured(params, q).Some? ==> body.params[q] == Configured(params, q).value)
  {
    var b0 := Body(model, BuildMessages(req, encode), map[]);
    if Name(q) in req.options {
      OptionLayerWins(b0, params, req.options, q);
    } else {
      ConfigLayerFills(b0, params, req.options, q);
    }
  }

  /** temperature, max_tokens and stream are always sent. */
  lemma CoreParamsAlwaysSent(model: string, params: LLMParameters, req: LLMRequest, encode: Base64)
    ensures var body := RequestBody(model, params, req, encode);
      Temperature in body.params && MaxTokens in body.params && Stream in body.params
  {
    var b0 := Body(model, BuildMessages(req, encode), map[]);
    DefaultsAlwaysPresent(params);
    forall q | q == Temperature || q == MaxTokens || q == Stream
      ensures q in RequestBody(model, params, req, encode).params
    {
      if Name(q) in req.options {
        OptionLayerWins(b0, params, req.options, q);
      } else {
        ConfigLayerFills(b0, params, req.options, q);
      }
    }
  }

  /** The two layers of parameters over a body that starts with none: a request option wins. */
  lemma OptionLayerWins(b: Body, p: LLMParameters, options: map<string, Value>, q: Param)
    requires Name(q) in options
    ensures var r := AddRequestParameters(AddDefaultParameters(b, p), options);
      q in r.params && r.params[q] == ValueToJson(options[Name(q)])
  {
  }

  /** The two layers of parameters over a body that starts with none: without an option, the configuration decides. */
  lemma ConfigLayerFills(b: Body, p: LLMParameters, options: map<string, Value>, q: Param)
    requires b.params == map[] && Name(q) !in options
    ensures var r := AddRequestParameters(AddDefaultParameters(b, p), options);
      && (q in r.params <==> Configured(p, q).Some?)
      && (Configured(p, q).Some? ==> r.params[q] == Configured(p, q).value)
  {
    var b1 := AddDefaultParameters(b, p);
    DefaultLayer(b, p, q);
    var r := AddRequestParameters(b1, options);
    assert q in r.params <==> q in b1.params;
  }

  /** Over a body with no parameters, the defaults layer holds exactly the configured ones. */
  lemma DefaultLayer(b: Body, p: LLMParameters, q: Param)
    requires b.params == map[]
    ensures var r := AddDefaultParameters(b, p);
      && (q in r.params <==> Configured(p, q).Some?)
      && (Configured(p, q).Some? ==> r.params[q] == Configured(p, q).value)
  {
  }

  // ---------------------------------------------------------------------------
  // Headers and the reply
  // ---------------------------------------------------------------------------

  /** setRequestHeaders: JSON content, and a bearer Authorization exactly when there is an API key. */
  function RequestHeaders(apiKey: string): (r: map<string, string>)
    ensures "Content-Type" in r && r["Content-Type"] == "application/json"
    ensures "Authorization" in r <==> apiKey != ""
    ensures "Authorization" in r ==> r["Authorization"] == "Bearer " + apiKey
    ensures r.Keys <= {"Content-Type", "Authorization"}
  {
    var h := map["Content-Type" := "application/json"];
    if apiKey != "" then h["Authorization" := "Bearer " + apiKey] else h
  }

  /** The reply holds `content` as a string at choices[0].message.content. */
  predicate HasContent(resp: map<string, Json>, content: string) {
    && "choices" in resp && resp["choices"].JArr? && |resp["choices"].items| > 0
    && var choice := resp["choices"].items[0];
    && choice.JObj? && "message" in choice.fields && choice.fields["message"].JObj?
    && var message := choice.fields["message"].fields;
    && "content" in message && message["content"] == JStr(content)
  }

  /** extractContent: choices[0].message.content when that path exists and is a string, "" otherwise. */
  function ExtractContent(resp: map<string, Json>): (r: string)
    ensures r != "" ==> HasContent(resp, r)
    ensures (exists c :: HasContent(resp, c)) ==> HasContent(resp, r)
  {
    if "choices" in resp && resp["choices"].JArr? && |resp["choices"].items| > 0 then
      var choice := resp["choices"].items[0];
      if choice.JObj? && "message" in choice.fields && choice.fields["message"].JObj? then
        var message := choice.fields["message"].fields;
        if "content" in message && message["content"].JStr? then message["content"].s else ""
      else ""
    else ""
  }

  /** A chat completion reply carrying `content`, as an OpenAI-compatible server sends it. */
  function ChatReply(content: string, extra: seq<Json>): map<string, Json> {
    var message := JObj(map["role" := JStr("assistant"), "content" := JStr(content)]);
    map["choices" := JArr([JObj(map["index" := JInt(0), "message" := message])] + extra)]
  }

  /** Whatever else the reply carries, the first choice's content is what is read back. */
  lemma ContentRoundTrip(content: string, extra: seq<Json>)
    ensures ExtractContent(ChatReply(content, extra)) == content
  {
    assert HasContent(ChatReply(content, extra), content);
  }
}

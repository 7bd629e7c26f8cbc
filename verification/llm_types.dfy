/**
 * The request and response records the LLM layer passes between the
 * processors, the manager and the backends.
 */
module LlmTypes {
  import opened Strings
  import opened PromptTypes

  datatype LLMRequest = LLMRequest(
    systemPrompt: string,
    userPrompt: string,
    audio: seq<byte>,
    audioFormat: string,
    model: string,
    options: map<string, Value>)

  /** The duration of the call is a clock reading and is not modelled. */
  datatype LLMResponse = LLMResponse(
    content: string,
    model: string,
    promptTokens: int,
    totalTokens: int,
    metadata: map<string, Value>)

  /** `resp.Metadata[key]` with Go's nil for a missing key. */
  function MetadataOr(m: map<string, Value>, key: string): Value {
    if key in m then m[key] else VNil
  }
}

# Lingualink Core in Dafny

Lingualink Core is a Go service that transcribes and translates audio and
text through an OpenAI-compatible LLM. This project models its core as pure
Dafny functions and proves properties about them:

- **Prompt package.** This covers four pieces:
  - the language registry: normalising a language name to a registered code, identifying a language in free text, and building the output schema for a set of target languages;
  - the prompt engine and the built-in templates;
  - the structured-text reply parser, with its header scoring;
  - the fenced-JSON reply extractor.
- **Audio and text processors.** These cover request validation, building the LLM request, turning the parsed reply into a response, and the fallback that recovers text from an unparsable reply.
- **Processing service.** This is the validate → build → call → parse → fallback pipeline that drives both processors.
- **Audio converter.** This covers format detection by magic bytes, the decisions about when and how to convert, the conversion statistics and the concurrency limit.
- **Authentication.** This covers:
  - the API-key store, including key masking;
  - the multi-strategy authenticator: API key, JWT, webhook and anonymous;
  - the HTTP middleware decisions: credential extraction, optional authentication, request IDs and request metrics.
- **LLM layer.** This covers:
  - the manager, with backend creation and a round-robin load balancer;
  - the OpenAI-compatible request body: messages, default and per-request sampling parameters, headers, and reading the reply content.
- **Metrics.** This is the metrics collector: wrapping 64-bit counters, last-write gauges and bounded latency windows.

Every Go map that the source iterates is modelled as a sequence. Go leaves the
iteration order unspecified, so "the first match" in the model means the first
match in that sequence. Where the source calls something this model cannot see,
that becomes a function parameter:
- the clock;
- random ticks;
- text/template rendering;
- JSON and YAML decoding;
- JWT verification;
- base64 encoding;
- ffmpeg;
- the LLM call itself.

## Model

| member | source | states |
|---|---|---|
| Languages.FindCode | internal/core/prompt/language.go:57-60 | a code lookup succeeds exactly when a registered language carries that code, and returns that language |
| Languages.Put | internal/core/prompt/language.go:40 | storing a language replaces the entry with the same code in place, or appends when the code is new; every other entry is unchanged |
| Languages.PutLookup | internal/core/prompt/language.go:40 | after storing, the stored code finds the new language and every other code finds what it found before |
| Languages.LoadLookup | internal/core/prompt/language.go:34-46 | loading a list of configured languages into a registry: a code finds the last configured language with that code, or else what the registry held before |
| Languages.NewLanguageManagerLookup | internal/core/prompt/language.go:26-49 | a code is registered exactly when some configured language has it, and it resolves to the last such entry (later entries overwrite earlier ones) |
| Languages.FirstMatch | internal/core/prompt/language.go:100-114 | the alias scan returns the first language, in iteration order, that matches; none matches before it; no result means no language matches |
| Languages.NormalizeLanguage | internal/core/prompt/language.go:86-117 | success yields a registered code that equals the trimmed, lower-cased input or whose display name or alias equals it ignoring case; failure happens exactly when the input is blank or nothing matches |
| Languages.NormalizeCanonical | internal/core/prompt/language.go:87 | normalising x and normalising trim(lower(x)) give the same result |
| Languages.NormalizeRegisteredCode | internal/core/prompt/language.go:94-97 | a registered code that is already lower-case and trimmed normalises to itself |
| Languages.IdentifyLanguageFromText | internal/core/prompt/language.go:120-167 | success yields a registered code; failure happens exactly when normalisation fails and no language loosely matches the lower-cased text (names, aliases, code, or a contained alias or name longer than two bytes) |
| Languages.IdentifyExtendsNormalize | internal/core/prompt/language.go:122-127 | whenever normalisation succeeds, identification returns the same code |
| Languages.IdentifyByContainedAlias | internal/core/prompt/language.go:152-157 | an alias longer than two bytes that occurs in the lower-cased text always identifies some language |
| Languages.ShortNamesNeedExactMatch | internal/core/prompt/language.go:152-163 | for a language whose names and aliases are at most two bytes long, containment never applies: only exact matches count |
| Languages.ConvertOne | internal/core/prompt/language.go:65-80 | one code converts exactly when it normalises; the result is the display name or the code, otherwise the wrapped "normalize language code" error |
| Languages.ConvertCodesToDisplayNames | internal/core/prompt/language.go:63-83 | on success there is one name per input |
| Languages.ConvertCodesSucceeds | internal/core/prompt/language.go:63-83 | conversion succeeds exactly when every input normalises |
| Languages.ConvertCodesValues | internal/core/prompt/language.go:71-77 | on success, entry k is the display name of input k's language, or its code when it has no display name |
| Languages.ConvertCodesFirstError | internal/core/prompt/language.go:66-69 | on failure, the error is that of the first input that does not normalise; every earlier input normalises |
| Languages.NonEmptyNames | internal/core/prompt/language.go:195-199 | the aliases taken from the names map are exactly some of its non-empty values |
| Languages.TargetSections | internal/core/prompt/language.go:189-226 | there is one section per target code the registry knows; unknown codes are skipped |
| Languages.TargetSectionsOrdered | internal/core/prompt/language.go:184-219 | section orders strictly increase and start at the start order |
| Languages.TargetSectionsFromTargets | internal/core/prompt/language.go:189-222 | every section is built from the registered target whose position its order encodes (order = position + start) |
| Languages.TargetSectionsCover | internal/core/prompt/language.go:189-222 | every registered target gets a section carrying its order |
| Languages.BuildDynamicOutputRules | internal/core/prompt/language.go:170-233 | structured format with ":" as separator; the source section with order 1 comes first when requested; then the target sections, in strictly increasing order, one for each known target, with target j numbered j + 1 or j + 2 |
| Languages.TargetSectionShape | internal/core/prompt/language.go:192-220 | a target section's aliases include the code and its upper-case form; its key is the display name or the code; it is not required and carries the given order |
| Parser.NewStructuredParser | internal/core/prompt/parser.go:25-33 | an empty separator list becomes the four defaults; a non-empty one is kept |
| Parser.RatioScore | internal/core/prompt/parser.go:158-166 | a containment score lies in [base, base + 30) |
| Parser.MatchScore | internal/core/prompt/parser.go:137-169 | a score is 0 or between 40 and 100 |
| Parser.MatchScoreLevels | internal/core/prompt/parser.go:137-169 | the score is 100 exactly for a case-insensitive match; 90 exactly for a match once spaces and punctuation are removed; positive exactly when the older boolean fuzzyMatch accepts |
| Parser.MatchScoreContainment | internal/core/prompt/parser.go:158-168 | a pattern inside the input scores 50–79, an input inside the pattern scores 40–69, and neither scores 0 |
| Parser.FuzzyMatchersAgree | internal/core/prompt/parser.go:172-174 | parser.go's fuzzyMatch and engine.go's fuzzyMatch accept the same pairs |
| Parser.BuildSectionMatchers | internal/core/prompt/parser.go:94-102 | there is one matcher per distinct section key, never more matchers than sections |
| Parser.BuildSectionMatchersLookup | internal/core/prompt/parser.go:94-102 | a key has a matcher exactly when some section carries it, and the matcher holds [key] + aliases of the last such section |
| Parser.MatchersOfDistinctKeys | internal/core/prompt/parser.go:94-102 | with distinct keys, the matchers are the sections' own key and aliases, in section order |
| Parser.ScanMatchersSpec | internal/core/prompt/parser.go:115-123 | the nested scan ends holding the first matcher that reaches the overall maximum score, provided that maximum beats the starting score |
| Parser.ResolveBestScore | internal/core/prompt/parser.go:112-130 | a key that scores 0 against every pattern is kept verbatim; otherwise the first matcher reaching the maximum names the section (unless its key is empty) |
| Parser.FirstFuzzyMatcher | internal/core/prompt/engine.go:435-441 | engine.go resolves a key to the first matcher with any fuzzy-matching pattern; none before it matches |
| Parser.StrategiesAgreeOnMatching | internal/core/prompt/parser.go:115-130 | the best-score and first-fuzzy strategies see a match for the same keys, so they agree on which keys stay literal |
| Parser.FirstSeparator | internal/core/prompt/parser.go:106-107 | the chosen separator is the first in list order whose first occurrence is past index 0; no separator is chosen exactly when none qualifies |
| Parser.MatchSection | internal/core/prompt/parser.go:105-134 | a line is a header exactly when some separator occurs in it past index 0 |
| Parser.HeaderSectionNonEmpty | internal/core/prompt/parser.go:125-130 | for a trimmed, non-blank header line, the resolved section name is never empty |
| Parser.Parse | internal/core/prompt/parser.go:36-91 | RawText is the reply itself; the metadata is parse_time (the clock) and parser_version "1.0" |
| Parser.RunStoresBlocks | internal/core/prompt/parser.go:52-84 | the line loop, from any state, stores exactly the reply's header blocks in order |
| Parser.ParseIsStoreOfBlocks | internal/core/prompt/parser.go:44-84 | Parse's sections are the blocks of the trimmed, split reply, each stored as its trimmed, newline-joined content, later blocks overwriting earlier ones |
| Parser.StoreKeys | internal/core/prompt/parser.go:61-84 | a key is stored exactly when some block has that non-empty section name |
| Parser.StoreLastWins | internal/core/prompt/parser.go:61-84 | the last block for a section supplies its stored value |
| Parser.StoreUntouched | internal/core/prompt/parser.go:61-84 | blocks for other sections never change a stored value |
| Parser.LeadingTextIgnored | internal/core/prompt/parser.go:73-76 | lines before the first header are dropped |
| Engine.NewEngine | internal/core/prompt/engine.go:96-124 | the "default" template is installed, the configured default template name is kept, and the built-in three languages are used only when the configuration lists none |
| Engine.NewEngineLanguages | internal/core/prompt/engine.go:105-111 | with configured languages, each code resolves to its last configured entry, and no other code is registered |
| Engine.NewEngineKeepsConfigured | internal/core/prompt/engine.go:113-116 | every configured code stays registered; the built-in table never replaces it |
| Engine.NormalizeLanguage | internal/core/prompt/engine.go:315-333 | success yields a registered code equal to the canonical input or one with an alias equal to it ignoring case; display names are not consulted; failure carries "unknown language: " + the canonical input |
| Engine.EngineAcceptsLess | internal/core/prompt/engine.go:315-333 | every non-empty input the engine accepts, the language manager accepts too |
| Engine.NormalizeCanonical | internal/core/prompt/engine.go:316 | the engine normalises x and trim(lower(x)) alike |
| Engine.NormalizeOne | internal/core/prompt/engine.go:294-309 | one input gives its display name (or code), or the wrapped "normalize language" error |
| Engine.NormalizeLanguages | internal/core/prompt/engine.go:292-312 | on success there is one display name per input |
| Engine.NormalizeLanguagesSucceeds | internal/core/prompt/engine.go:292-312 | the list normalises exactly when every input does |
| Engine.NormalizeLanguagesValues | internal/core/prompt/engine.go:292-312 | on success, entry k is input k's display name (or code) |
| Engine.NormalizeLanguagesFirstError | internal/core/prompt/engine.go:295-298 | on failure, the error wraps the first input that does not normalise |
| Engine.Build | internal/core/prompt/engine.go:224-289 | a missing template gives "template not found: " + name; on success every target normalised |
| Engine.BuildSucceeds | internal/core/prompt/engine.go:224-289 | Build succeeds exactly when the template exists, the targets normalise and both renderings succeed; the prompt is then the rendered system text, the rendered user text and the template's rules; a failed rendering is reported for the system prompt first, then the user prompt |
| Engine.FreshEngineHasDefault | internal/core/prompt/engine.go:163-221 | a fresh engine always has the "default" template |
| Engine.RegisterTemplate | internal/core/prompt/engine.go:474-483 | a decode error is reported as "unmarshal template: …"; otherwise the template is stored under the given name and nothing else changes |
| Engine.ParseResponse | internal/core/prompt/engine.go:343-350 | the engine parses with its own parser: RawText is the reply and the metadata is the parse time and parser_version "1.0" |
| JsonParser.SkipSpace | internal/core/prompt/json_parser.go:9 | `\s*` skips exactly the run of regex whitespace |
| JsonParser.FirstClose | internal/core/prompt/json_parser.go:9 | the lazy `{.*?}` ends at the first `}` that is followed by optional whitespace and a closing fence |
| JsonParser.MatchesAtByFirstClose | internal/core/prompt/json_parser.go:9 | the pattern matches at i exactly when a fence opens at i and some closing brace follows its `{` |
| JsonParser.ExtractJSONBlock | internal/core/prompt/json_parser.go:11-17 | a found block starts with `{` and ends with `}` |
| JsonParser.ExtractJSONBlockNone | internal/core/prompt/json_parser.go:11-17 | nothing is found exactly when the pattern matches at no position |
| JsonParser.LocatedIsLeftmostMatch | internal/core/prompt/json_parser.go:9-12 | the block comes from the leftmost position where the pattern matches |
| JsonParser.ExtractJSONBlockShape | internal/core/prompt/json_parser.go:9-17 | the block runs from the brace after the leftmost fence through the first closing brace; no shorter span qualifies |
| JsonParser.ExtractFencedObject | internal/core/prompt/json_parser.go:9-17 | a reply that is exactly a fenced object, with no `}` before its end, yields that object back |
| JsonParser.ParseJSONResponse | internal/core/prompt/json_parser.go:20-56 | a decode error is returned unchanged; otherwise RawText is the input and the metadata marks a JSON parse |
| JsonParser.ParseJSONSections | internal/core/prompt/json_parser.go:31-46 | the sections hold every non-empty translation verbatim, and under "原文" source_text, else transcription, unless a translation claims that key; nothing else |
| JsonParser.ParseJSONValuesNonEmpty | internal/core/prompt/json_parser.go:34-46 | no empty string ever becomes a section |
| Templates.NewTemplateManager | internal/core/prompt/template.go:30-140 | the manager holds exactly the three built-in templates |
| Templates.GetTemplate | internal/core/prompt/template.go:143-146 | lookup succeeds exactly when the name is stored, and returns the stored template |
| Templates.AddTemplate | internal/core/prompt/template.go:216-218 | the template is found under its own name afterwards; every other name is unaffected |
| Templates.RemoveTemplate | internal/core/prompt/template.go:221-227 | the result reports whether the name was present; afterwards it is absent and other names are unaffected |
| Templates.AddThenRemove | internal/core/prompt/template.go:216-227 | adding a new template and then removing it restores the manager and reports true |
| Templates.BuildPrompt | internal/core/prompt/template.go:149-204 | an unknown name gives "template not found: " + name; success exactly when both renderings succeed, the system and user prompts then being those renderings and the template's rules coming back beside them; a failed rendering is reported for the system prompt first, then the user prompt |
| Templates.BuiltinRulesEmpty | internal/core/prompt/template.go:45-140 | the built-in templates return empty output rules |
| Templates.ListContains | internal/core/prompt/template.go:166-173 | `contains` holds exactly when some element equals the string |
| Templates.Steps | internal/core/prompt/template.go:72-74 | the numbered steps: one per target name, numbered from the first step |
| Templates.NekoBlock | internal/core/prompt/template.go:76-82 | the neko instructions appear exactly when "neko" is a target code |
| Templates.Entries | internal/core/prompt/template.go:89-91 | the skeleton renders exactly when there are at least as many names as codes (`index` fails otherwise) |
| Templates.SkeletonCommas | internal/core/prompt/template.go:90 | for n codes, exactly n − 1 skeleton entries end with a comma |
| Templates.RenderedSteps | internal/core/prompt/template.go:72-74 | a rendered prompt contains the step for every target name |
| Templates.RenderedEntries | internal/core/prompt/template.go:89-91 | a rendered prompt contains the skeleton entry for every target code, each ending with a comma except the last |
| Templates.RenderedNeko | internal/core/prompt/template.go:76-82 | the neko block is rendered exactly when "neko" is a target: with it the prompt contains the neko instructions, without it the neko slot of the prompt is empty |
| Templates.RenderAudioTranslate | internal/core/prompt/template.go:70-95 | the audio prompt renders exactly when the names cover the codes; translation step i is numbered i + 2; the neko instructions appear when "neko" is a target and the neko slot is empty otherwise |
| Templates.RenderTextTranslate | internal/core/prompt/template.go:104-129 | the text prompt renders exactly when the names cover the codes; translation step i is numbered i + 1; the neko instructions appear when "neko" is a target and the neko slot is empty otherwise |
| Templates.RenderTextUser | internal/core/prompt/template.go:130-132 | the text user prompt ends with the source text |
| PromptTypes.NameOf | internal/core/prompt/language.go:72-77 | a names lookup succeeds exactly when some entry has that kind, and returns the value of such an entry |
| PromptTypes.DefaultValue | internal/core/prompt/template.go:160-165 | the `default` helper yields the default exactly when the value is nil or "" (or already equals the default), and otherwise the value |
| AudioConverter.FirstPrefix | internal/core/audio/converter.go:314-324 | a found index names a sync pattern that prefixes the data; nothing is found exactly when no pattern prefixes it |
| AudioConverter.FirstContained | internal/core/audio/converter.go:359-372 | a found index names a box that occurs in the data; nothing is found exactly when no box occurs in it |
| AudioConverter.ValidateWAV | internal/core/audio/converter.go:290-301 | WAV data is accepted exactly when it has 44 bytes, a RIFF prefix, and WAVE within bytes 8..15 |
| AudioConverter.ValidateMP3 | internal/core/audio/converter.go:304-327 | MP3 data is accepted exactly when it has 10 bytes and starts with an ID3 tag or one of the frame-sync prefixes |
| AudioConverter.ValidateOpus | internal/core/audio/converter.go:330-339 | Opus data is accepted exactly when it has 8 bytes and an OggS prefix |
| AudioConverter.ValidateFLAC | internal/core/audio/converter.go:342-350 | FLAC data is accepted exactly when it starts with fLaC |
| AudioConverter.ValidateM4A | internal/core/audio/converter.go:353-375 | M4A data is accepted exactly when it has 20 bytes and one of the ftyp, mdat, moov or free boxes occurs in its first 20 bytes |
| AudioConverter.FormatCheck | internal/core/audio/converter.go:270-283 | the lower-cased format selects its validator (wav, mp3, opus, flac, and the M4A validator for m4a and aac); any other format passes |
| AudioConverter.ValidateAudioData | internal/core/audio/converter.go:253-287 | empty data, data over 32 MiB and data under 100 bytes are refused in that order with their messages; accepted data lies within the bounds; data within the bounds gets exactly the verdict of its format's validator |
| AudioConverter.ValidatedHeaders | internal/core/audio/converter.go:253-283 | for each format, data passes validation exactly when it is within the size bounds and carries the header the lower-cased format demands (RIFF/WAVE; ID3 or a frame-sync prefix for mp3; OggS; fLaC; a box within 20 bytes for m4a and aac); any other format passes exactly when the size is within bounds |
| AudioConverter.FFmpegInputFormat | internal/core/audio/converter.go:206-230 | the ffmpeg input format is the table entry of the lower-cased format, or the format unchanged when it has none |
| AudioConverter.GetSupportedFormats | internal/core/audio/converter.go:233-245 | the list starts with the four base formats and grows exactly when ffmpeg is available; every listed format has an ffmpeg mapping |
| AudioConverter.RecordConversion | internal/core/audio/converter.go:378-396 | one conversion is counted as a success or a failure, and the elapsed time is added; total = successful + failed is preserved |
| AudioConverter.AverageWithinBound | internal/core/audio/converter.go:392-394 | the truncating running average stays within [0, bound] when the old average and the new size do |
| AudioConverter.ReplayInvariant | internal/core/audio/converter.go:378-396 | after any history of conversions, the total equals their number and successful + failed, and the average lies between 0 and the largest input size |
| AudioConverter.UpdateConcurrencyLimit | internal/core/audio/converter.go:449-468 | a limit in 1..20 is adopted; any other is ignored; the statistics are untouched |
| AudioConverter.ConcurrencyLimitInRange | internal/core/audio/converter.go:47-68 | from the start-up limit of 4, every sequence of updates keeps the limit within 1..20 |
| AudioConverter.ApplyLimitsKeepsRange | internal/core/audio/converter.go:449-468 | updates never take a limit within 1..20 outside that range |
| AudioConverter.ConvertToWAV | internal/core/audio/converter.go:90-132 | WAV input (any letter case) comes back unchanged; otherwise the ffmpeg outcome decides; every call records exactly one conversion, a success exactly when data comes back |
| AudioProcessor.Validate | internal/core/audio/processor.go:75-116 | a request is accepted exactly when it has audio, a format, a size within 32 MiB, a supported format and a valid task; the first failing check, in that order, gives its own message ("audio data is required", "audio format is required", the size message, "unsupported audio format: " + format, "invalid task type: " + task) |
| AudioProcessor.DefaultsOnlyWhenNoneGiven | internal/core/audio/processor.go:144-148 | the configured default targets replace the request's only for a translate request that names none |
| AudioProcessor.BuildLLMRequest | internal/core/audio/processor.go:119-171 | the prompt comes from the engine's Build, whose error is wrapped as "build prompt: …"; converted audio and the format "wav" are sent exactly when the format needed converting and the conversion succeeded, otherwise the original audio |
| AudioProcessor.RequestedSections | internal/core/audio/processor.go:204-221 | a section becomes a translation exactly when its key is one of the requested target codes, with its parsed text |
| AudioProcessor.BuildSuccessResponse | internal/core/audio/processor.go:174-225 | "partial_success" exactly when the parse result is missing or marked failed; the transcription is the "原文" section; translations are the requested sections only; the raw reply is kept |
| AudioProcessor.Keywords | internal/core/audio/processor.go:233-238 | the scaffolding keywords are exactly the schema's section keys and aliases: every key and alias is among them, and each keyword is some section's key or alias |
| AudioProcessor.KeywordsInOrder | internal/core/audio/processor.go:233-238 | the keywords follow schema order: a schema splits into the keywords of its parts, and each section gives its key followed by its aliases |
| AudioProcessor.RemoveEach | internal/core/audio/processor.go:244-251 | removing patterns only deletes characters: the result is a subsequence of the input |
| AudioProcessor.ResidueFromReply | internal/core/audio/processor.go:242-252 | the cleaned reply consists only of the reply's own characters, in order |
| AudioProcessor.SchemaCodes | internal/core/audio/processor.go:282-289 | the fallback's language codes are never empty strings; without rules there are none, otherwise they are the sections' codes |
| AudioProcessor.CodesOf | internal/core/audio/processor.go:282-289 | the codes are exactly the non-empty language codes of the sections; none are found exactly when every code is empty; the first is the code of the first section that has one |
| AudioProcessor.ApplyFallback | internal/core/audio/processor.go:228-313 | an empty residue fails a response that has nothing and leaves others alone; otherwise the residue fills an empty transcription, and the first schema language when there are no translations and the residue differs from the transcription; any change marks the response partial and keeps the existing metadata, adding fallback_mode true and fallback_reason, the "; "-join of the transcription reason and the translation reason naming the first schema language, for whichever fills happened |
| AudioProcessor.FallbackOnlyRedistributes | internal/core/audio/processor.go:242-300 | everything the fallback writes is a subsequence of the raw reply; everything else was already there |
| AudioProcessor.FallbackFillsAtMostOne | internal/core/audio/processor.go:274-300 | the fallback never fills both the transcription and a translation in one call |
| AudioProcessor.FallbackTranslationKeys | internal/core/audio/processor.go:291-299 | after the fallback every translation is for a requested code, or else it is the residue under the schema's first language |
| AudioProcessor.FallbackIdempotent | internal/core/audio/processor.go:228-313 | applying the fallback a second time changes nothing |
| TextProcessor.Validate | internal/core/text/processor.go:69-85 | text is accepted exactly when it is non-empty, at most 3000 UTF-8 bytes, and names a target; the first failing check's message is returned |
| TextProcessor.BuildLLMRequest | internal/core/text/processor.go:88-118 | the text prompt builder's error is wrapped as "build prompt: …"; on success the request carries its prompts and no audio, and the rules come back |
| TextProcessor.PromptRequestShape | internal/core/text/processor.go:90-103 | the prompt request is a translation to the requested targets with the text as the "source_text" variable |
| TextProcessor.BuildSuccessResponse | internal/core/text/processor.go:121-163 | the source text is echoed; "partial_success" exactly when the parse failed; translations are the requested sections only, with their parsed text |
| TextProcessor.ExtractFromRawResponse | internal/core/text/processor.go:174-197 | with a target and a non-blank reply, the trimmed reply becomes the first target's translation and the response is marked partial with fallback_mode; otherwise nothing changes |
| TextProcessor.ApplyFallback | internal/core/text/processor.go:166-171 | a response that already has translations is untouched; any change is the trimmed reply as the only translation, under the first target |
| TextProcessor.FallbackOutcome | internal/core/text/processor.go:166-197 | after the fallback there is a translation exactly when there was one or a target and a non-blank reply exist; new text comes from the reply |
| TextProcessor.FallbackIdempotent | internal/core/text/processor.go:166-197 | applying the fallback a second time changes nothing |
| Processing.Process | internal/core/processing/service.go:43-82 | validation, build and LLM errors each end the call with their own prefix; success happens exactly when all three succeed, and the result is the built response after one fallback over the raw reply and the rules |
| Processing.ValidationFailureStopsEarly | internal/core/processing/service.go:48-50 | once validation fails, neither the LLM nor the parser can change the outcome |
| Processing.BuildFailureStopsEarly | internal/core/processing/service.go:53-56 | once the request cannot be built, neither the LLM nor the parser can change the outcome |
| Processing.ParseErrorIgnored | internal/core/processing/service.go:64-67 | a parse error never changes the outcome: parsers that differ only in their error give the same result |
| Processing.AudioProcessOutcome | internal/core/processing/service.go:43-82 | a successful audio call passed validation and keeps the LLM's reply; every translation is for a requested code or is the fallback residue under the schema's first language |
| KeyStore.Mask | pkg/auth/keystore.go:140-143 | a key over 8 bytes shows its first 8 bytes followed by "***"; a shorter key is shown whole |
| KeyStore.MaskHidesTail | pkg/auth/keystore.go:140-143 | long keys that share their first 8 bytes mask alike |
| KeyStore.MaskShape | pkg/auth/keystore.go:140-143 | a mask is at most 11 bytes and begins with at most 8 of the key's bytes |
| KeyStore.GetKeyAsWritten | pkg/auth/keystore.go:94-110 | as written, lookup panics exactly for an enabled, expired key shorter than 8 bytes, and otherwise returns the key when it is enabled and unexpired |
| KeyStore.ShortExpiredKeyPanics | pkg/auth/keystore.go:104 | the enabled, expired three-byte key "abc" makes the lookup as written panic |
| KeyStore.GetKey | pkg/auth/keystore.go:94-110 | a key is found exactly when it is stored, enabled and not expired (an unparsable expiry never expires), and the stored config comes back |
| KeyStore.GetKeyAgreesWithWritten | pkg/auth/keystore.go:94-110 | wherever the code as written returns, the corrected lookup returns the same, and keys of 8 bytes or more never panic |
| KeyStore.UnparsableExpiryNeverExpires | pkg/auth/keystore.go:101-107 | an enabled key whose expiry is empty or unparsable is always found |
| KeyStore.AddKey | pkg/auth/keystore.go:113-121 | the key is stored enabled, stamped with the current time only if it had no creation time, with its other fields kept; other keys are unchanged |
| KeyStore.RemoveKey | pkg/auth/keystore.go:124-126 | the key is gone and every other entry is unchanged |
| KeyStore.DisableKey | pkg/auth/keystore.go:129-134 | a missing key changes nothing; a present one only loses its enabled flag |
| KeyStore.AddThenGet | pkg/auth/keystore.go:94-121 | a key just added is found, with its stamped config, exactly when its own expiry has not passed |
| KeyStore.RemovedOrDisabledNotFound | pkg/auth/keystore.go:94-134 | a removed or disabled key is never found; other keys look up as before |
| KeyStore.ListKeys | pkg/auth/keystore.go:137-147 | there is one masked entry per stored key, in iteration order |
| Auth.JwtSecret | pkg/auth/auth.go:253-262 | the secret is the configured "secret" string, or "default-secret-key" |
| Auth.Construct | pkg/auth/auth.go:92-104 | a strategy of known type builds an authenticator of that type; API-key ones hold the loaded key store; JWT ones hold the configured secret |
| Auth.NewMultiAuthenticator | pkg/auth/auth.go:79-113 | only known types are registered, each under its own type |
| Auth.RegistryDomain | pkg/auth/auth.go:86-110 | a type is registered exactly when some enabled strategy of that known type is configured |
| Auth.RegistryLastWins | pkg/auth/auth.go:106-109 | the authenticator registered for a type is built from the last strategy of that type |
| Auth.LoadedStoreOnly | pkg/auth/auth.go:93-94 | every API-key authenticator in the registry holds the loaded key store |
| Auth.DetectAuthType | pkg/auth/auth.go:131-141 | an API key means "api_key"; otherwise a token with the bearer prefix or three dot-separated parts means "jwt"; otherwise "anonymous" |
| Auth.DetectByDots | pkg/auth/auth.go:136 | without the bearer prefix, a token counts as a JWT exactly when it contains two dots |
| Auth.Authenticate | pkg/auth/auth.go:116-128 | an empty type is replaced by the detected one; an unregistered type fails with "unsupported auth type: …"; otherwise the registered authenticator decides |
| Auth.EmptyTypeIsDetected | pkg/auth/auth.go:117-121 | credentials without a type authenticate exactly as if they carried the detected type |
| Auth.BareCredentialsAreAnonymous | pkg/auth/auth.go:131-141 | with an anonymous strategy configured, credentials with neither key nor token always get the anonymous identity |
| Auth.IdentityTypeFor | pkg/auth/auth.go:205-208 | a key's identity is a service exactly when its ID mentions "enterprise" or "backend", and a user otherwise |
| Auth.RateLimitsFor | pkg/auth/auth.go:211-225 | a positive rate gets a burst of max(rate/5, 10); −1 is unlimited in both; any other rate has no limit record; the window is one minute |
| Auth.BurstWithinRate | pkg/auth/auth.go:215 | for a positive rate, the burst stays within the rate exactly when the rate is at least 10 |
| Auth.ApiKeyAuthenticate | pkg/auth/auth.go:176-239 | an API key succeeds exactly when it is non-empty and the store finds it; the identity then carries the key's ID, type, metadata, rate limit and the four permissions; any failure is "invalid credentials" (through the corrected key lookup, see Left out) |
| Auth.ApiKeyAcceptedOnlyIfStored | pkg/auth/auth.go:176-239 | an accepted API key is stored, enabled and unexpired in the loaded store, and the identity's ID is that entry's |
| Auth.ClaimString | pkg/auth/auth.go:363-370 | a claim is read as a string when it is one, and the default is used otherwise |
| Auth.ParsePermissions | pkg/auth/auth.go:372-382 | a `[]interface{}` claim gives exactly its string elements, at most one per element; any other value, a `[]string` included, gives no permissions |
| Auth.ParsePermissionsInOrder | pkg/auth/auth.go:372-382 | the permissions keep the list order: a list splits into the permissions of its parts, one element gives its string or nothing, and `["read", 5, "write"]` gives `["read", "write"]` |
| Auth.StripBearer | pkg/auth/auth.go:266-269 | one leading "Bearer " is removed; other tokens are kept |
| Auth.JwtAuthenticate | pkg/auth/auth.go:265-293 | a token fails, with "invalid token", exactly when the verifier rejects it once the bearer prefix is removed; a valid one's claims give the ID, external ID, type (default "user"), the parsed "permissions" claim (none when absent) and metadata, and no rate limit |
| Middleware.ExtractCredentials | internal/api/middleware/middleware.go:215-236 | X-API-Key gives an API key; a bearer Authorization header is kept whole as a JWT token; "ApiKey " gives the key after the prefix, replacing X-API-Key; other headers are ignored |
| Middleware.ExtractedTypeMatchesDetection | internal/api/middleware/middleware.go:215-236 | the type left empty is exactly the one detection calls anonymous; a set type agrees with detection except when a bearer header comes with X-API-Key |
| Middleware.AuthMiddleware | internal/api/middleware/middleware.go:112-157 | a request is admitted with the authenticator's identity exactly when authentication succeeds, and is otherwise refused with 401 "authentication failed" |
| Middleware.OptionalAuth | internal/api/middleware/middleware.go:160-182 | credentials with neither key nor token are typed anonymous; a failure is retried as anonymous and the retry's own failure leaves no identity |
| Middleware.OptionalAuthNeverRefuses | internal/api/middleware/middleware.go:160-182 | with the anonymous strategy registered, optional authentication always yields an identity, and the anonymous one whenever strict authentication refuses or there are no credentials |
| Middleware.RandomString | internal/api/middleware/middleware.go:244-251 | a random string has the requested length and every character comes from the 36-character alphabet |
| Middleware.RandomStringAlphabet | internal/api/middleware/middleware.go:245 | every generated character is a lower-case ASCII letter or a digit |
| Middleware.GenerateRequestID | internal/api/middleware/middleware.go:239-241 | a generated ID is "req_", the timestamp, "_" and six alphabet characters |
| Middleware.RequestIDFor | internal/api/middleware/middleware.go:32-42 | the client's X-Request-ID is kept when given; otherwise a generated one is used |
| Middleware.StatusCodeToGroup | internal/api/middleware/middleware.go:254-267 | the status groups by range: 2xx, 3xx, 4xx, 5xx for every code from 500 up, and "unknown" below 200 |
| Middleware.StatusGroupIsHundreds | internal/api/middleware/middleware.go:254-267 | for codes 200–599 the group is the hundreds digit followed by "xx", and "unknown" happens exactly below 200 |
| Middleware.RecordRequest | internal/api/middleware/middleware.go:87-109 | one request slides its duration into the request-duration window and adds one, with int64 wrap-around, to the request counter, under its method, route and status group; nothing else changes |
| Metrics.WrapInt64 | pkg/metrics/metrics.go:57 | the int64 wrap of a sum is congruent to it modulo 2^64, within range, and exact when no overflow happens |
| Metrics.WrapAbsorbs | pkg/metrics/metrics.go:57 | wrapping an intermediate sum does not change the wrapped total |
| Metrics.Slide | pkg/metrics/metrics.go:43-48 | a window gains the new duration at its end and drops its oldest entry only when it would exceed 100 |
| Metrics.RecordLatency | pkg/metrics/metrics.go:38-49 | only the key's window slides; other windows, counters and gauges are untouched; every window stays within 100 |
| Metrics.WindowKeepsNewest | pkg/metrics/metrics.go:38-49 | after any run of durations, a window holds exactly the newest 100 of everything recorded under its key |
| Metrics.WindowSlides | pkg/metrics/metrics.go:38-49 | recording a run slides the key's window once per duration, in order |
| Metrics.SlideAllKeepsNewest | pkg/metrics/metrics.go:43-48 | sliding a run into a window of at most 100 leaves the newest 100 of the window followed by the run |
| Metrics.NewestAppend | pkg/metrics/metrics.go:45-48 | dropping old entries before appending more does not change the newest 100 |
| Metrics.RecordCounter | pkg/metrics/metrics.go:52-58 | the key's counter becomes the int64 wrap of its old value plus the added value, which is the plain sum when no overflow happens; nothing else changes |
| Metrics.CounterIncrementsCommute | pkg/metrics/metrics.go:52-58 | two increments of a counter give the same result in either order |
| Metrics.WrapCommutes | pkg/metrics/metrics.go:57 | two wrapped additions give the same result in either order |
| Metrics.RecordGauge | pkg/metrics/metrics.go:61-67 | the key's gauge is overwritten; nothing else changes |
| Metrics.GaugeLastWriteWins | pkg/metrics/metrics.go:61-67 | a second gauge write hides the first |
| Metrics.SeqMin | pkg/metrics/metrics.go:134-143 | the minimum is one of the samples and none is smaller |
| Metrics.SeqMax | pkg/metrics/metrics.go:134-143 | the maximum is one of the samples and none is larger |
| Metrics.Stats | pkg/metrics/metrics.go:115-151 | the statistics count the samples, bracket every one between a sampled minimum and maximum, and total them, the total lying between count × minimum and count × maximum so the average lies between the extremes |
| Metrics.GetMetrics | pkg/metrics/metrics.go:70-103 | counters and gauges are reported as they are; latency statistics exist exactly for keys with at least one sample, counting at most 100 |
| Metrics.RecordedKeyReported | pkg/metrics/metrics.go:38-103 | a key reports statistics as soon as one duration is recorded under it, and that duration lies between its minimum and maximum |
| LlmManager.CreateBackend | internal/core/llm/manager.go:84-93 | only "openai" and "vllm" build a backend, keeping the provider's name, URL, key and model; any other type fails with "unsupported backend type: …" |
| LlmManager.NewLoadBalancer | internal/core/llm/manager.go:184-198 | every strategy name gives an empty round-robin balancer |
| LlmManager.StrategyIgnored | internal/core/llm/manager.go:184-198 | the strategy name makes no difference to the balancer |
| LlmManager.AddBackend | internal/core/llm/manager.go:215-220 | a backend is appended, keeping the order and the position |
| LlmManager.SelectBackend | internal/core/llm/manager.go:201-212 | an empty balancer fails with "no available backends"; otherwise the backend at the position is returned and the position moves on by one, wrapping around |
| LlmManager.Picks | internal/core/llm/manager.go:201-212 | n successive selections return n backends |
| LlmManager.PickAt | internal/core/llm/manager.go:201-212 | selection i of a run returns the backend i places after the starting position, wrapping around |
| LlmManager.PicksCycle | internal/core/llm/manager.go:201-212 | successive selections cycle through the backends in insertion order |
| LlmManager.FairRound | internal/core/llm/manager.go:201-212 | any run of as many selections as there are backends picks every backend |
| LlmManager.RoundIndex | internal/core/llm/manager.go:201-212 | each backend has a selection within the next round that returns it |
| LlmManager.RegisterBackend | internal/core/llm/manager.go:96-102 | a backend is recorded under its name, replacing a namesake, and appended to the balancer |
| LlmManager.Built | internal/core/llm/manager.go:69-78 | the supported providers give at most one backend each |
| LlmManager.NewManager | internal/core/llm/manager.go:59-81 | the balancer holds exactly the backends of the supported providers, in order, starting at the first; every named backend is one of them |
| LlmManager.NewManagerFacts | internal/core/llm/manager.go:59-81 | registering the providers one by one yields a valid manager whose balancer holds the built backends, starting at the first |
| LlmManager.BuiltFromSupported | internal/core/llm/manager.go:69-78 | every backend in the balancer was created from some configured provider of a supported type |
| LlmManager.Process | internal/core/llm/manager.go:105-132 | an empty balancer fails with "failed to select backend: …"; otherwise the selected backend's error becomes "backend process failed: …", and its success is returned tagged with the backend's name; the balancer moves on either way |
| LlmManager.ProcessRotates | internal/core/llm/manager.go:105-132 | the next request goes to the next backend in turn, whatever the previous call's outcome |
| BaseBackend.ValueToJson | internal/core/llm/base_backend.go:243-245 | a request option is sent as a JSON array exactly when it is a list, of the same length |
| BaseBackend.ValueJsonRoundTrip | internal/core/llm/base_backend.go:243-245 | an option value (nil, string, bool, int, float, list) read back from its JSON is the value itself, except that a `[]string` comes back as a `[]interface{}` |
| BaseBackend.StrItems | internal/core/llm/base_backend.go:213-215 | a list of strings becomes a JSON array of the same strings, in order |
| BaseBackend.BuildMessages | internal/core/llm/base_backend.go:121-151 | a system message comes first exactly when there is a system prompt; the last message is the user message, with audio parts exactly when there is audio |
| BaseBackend.MessageRoles | internal/core/llm/base_backend.go:121-151 | every message but the last is a system message, and the last is the single user message |
| BaseBackend.AudioMessageRoundTrip | internal/core/llm/base_backend.go:154-176 | the audio message reads back as role "user", the user prompt as its text part, and the base64 audio with its format as its audio part |
| BaseBackend.SupportedParamsComplete | internal/core/llm/base_backend.go:235-239 | the whitelist names every request parameter, each once |
| BaseBackend.DefaultsAlwaysPresent | internal/core/llm/base_backend.go:181-225 | temperature, max_tokens and stream are always set, defaulting to 0.7, 1000 and false |
| BaseBackend.OnlyDefaultsWhenUnconfigured | internal/core/llm/base_backend.go:181-225 | with nothing configured, exactly temperature, max_tokens and stream are set |
| BaseBackend.ConfiguredSet | internal/core/llm/base_backend.go:181-225 | a parameter is among the defaults exactly when the configuration (or a built-in default) gives it a value |
| BaseBackend.AddDefaultParameters | internal/core/llm/base_backend.go:179-226 | every configured parameter is written with its configured value; other parameters, the model and the messages are left alone |
| BaseBackend.AddRequestParameters | internal/core/llm/base_backend.go:229-247 | every whitelisted option the request carries overwrites its parameter; other parameters, the model and the messages are left alone |
| BaseBackend.CopyOptions | internal/core/llm/base_backend.go:242-246 | copying over a list of parameters writes exactly those of them the options carry |
| BaseBackend.RequestBodyPrecedence | internal/core/llm/base_backend.go:44-58 | in the sent body a request option wins over the configuration, which supplies every parameter the request leaves out; nothing else appears |
| BaseBackend.CoreParamsAlwaysSent | internal/core/llm/base_backend.go:44-58 | temperature, max_tokens and stream are always in the sent body |
| BaseBackend.OptionLayerWins | internal/core/llm/base_backend.go:241-246 | an option the request carries is what the body holds for that parameter |
| BaseBackend.ConfigLayerFills | internal/core/llm/base_backend.go:179-246 | without an option, a parameter is in the body exactly when it is configured, with the configured value |
| BaseBackend.DefaultLayer | internal/core/llm/base_backend.go:179-226 | over an empty body, the defaults layer holds exactly the configured parameters |
| BaseBackend.RequestHeaders | internal/core/llm/base_backend.go:250-255 | Content-Type is always application/json; Authorization is "Bearer " + key exactly when the key is non-empty; no other header is set |
| BaseBackend.ExtractContent | internal/core/llm/base_backend.go:258-269 | non-empty content is the first choice's message content, and when that content exists it is what is returned |
| BaseBackend.ContentRoundTrip | internal/core/llm/base_backend.go:258-269 | a chat reply built around some content yields exactly that content back |

## Behaviour worth noting

The code does the following, and the model follows it:
- **Unknown target languages.** A target language that does not normalise fails the whole prompt build, with the first offending input's error; the code does not skip it and continue (`Engine.NormalizeLanguagesFirstError`, `Languages.ConvertCodesFirstError`).
- **Engine normalisation.** The engine's own normaliser (engine.go) matches codes and aliases only, not display names; only the language manager (language.go) consults display names (`Engine.EngineAcceptsLess`).
- **Unmatched header keys.** A header key that matches no schema entry is stored verbatim under that literal key, and is not resolved to a canonical code (`Parser.ResolveBestScore`).
- **Parse metadata.** The structured parser records only `parse_time` and `parser_version`. Only the JSON parser records a method marker (`"parser": "json"`) and a success flag. Neither records the unmatched labels.
- **Free-text identification.** Language identification from free text is a separate operation of the language manager; neither parser calls it.

## Left out

- **I/O.** These are not modelled:
  - the key file (LoadFromFile, SaveToFile, createDefaultKeyFile, GetKeyFilePath);
  - the HTTP exchange of the OpenAI-compatible backend (Process's marshal/send/read/status steps, extractUsage);
  - ffmpeg execution, its timeout and the conversion semaphore;
  - the health checks.

  These are effects on the outside world. Their outcomes enter the model as parameters (`FfmpegOutcome`, `BackendCall`, the `LLM` and `ReplyParser` of the processing service).
- **Clocks and randomness.** `time.Now()` and the UnixNano-based random characters are parameters (`now`, `stamp`, `ticks`, `requestId`). Durations stored by the services (`ProcessingTime`, `Duration`) are not modelled.
- **Opaque libraries.** These are function parameters: JWT parsing and verification (`JwtVerifier`), text/template execution for user templates, YAML/JSON template decoding in RegisterTemplate, JSON decoding in ParseJSONResponse, and base64 encoding.
- **Built-in prompts.** The built-in templates' own rendering is modelled on the rendered text's structure (steps, neko block, skeleton entries), not as the full template text.
- **Floating point.** The latency averages and millisecond conversions in calculateLatencyStats, the converter's success rate and average times (GetMetrics of the converter) are not modelled, and neither are the `compression` field or the gauge arithmetic. Gauges are stored and read back only. Float64 values (option values such as temperature, gauges) are the exact `real` their decimal rendering denotes; rounding to binary is not modelled.
- Parser.RatioScore: the containment score's `int(float64(a)/float64(b)*30)` is computed exactly as the floor of 30a/b. Float64 rounding could make the two differ only where 30a/b is a whole number and the rounded quotient falls just below it; the model does not state what the source does there.
- **Case folding.** Case folding (strings.ToLower, strings.EqualFold) is ASCII-only in the model. As a consequence, the score-80 branch of getMatchScore (equal after case folding but not exactly equal in lower case) cannot occur in the model.
- **Regex classes.** `\p{P}` in fuzzy matching is a fixed finite set of punctuation characters (ASCII punctuation plus common CJK and full-width marks), not the full Unicode class.
- **Go map iteration order.** Every Go map that is iterated is modelled as a sequence, and ties are broken by that sequence's order. These operations depend only on that order and are therefore not separate members:
  - ListTemplates and GetLanguages (the template and language collections themselves);
  - ListBackends, GetBackend (a map lookup) and HealthCheck of the LLM manager;
  - buildKey of the metrics collector, which is a parameter (`KeyBuilder`).
- **Middleware wrappers.** CORS, Logging, Recovery and the RateLimit placeholder only set headers, log or pass through; they make no decision the model could state.
- **Processor helpers.** GetCapabilities and GetSupportedLanguages of the audio and text processors return constant descriptive maps.
- **Text processor in the pipeline.** The text processor's ApplyFallback takes target codes, not output rules, so it does not fit the processing service's LogicHandler; the model keeps it standalone and wires only the audio processor into `Processing.Process`. The engine's BuildTextPrompt is not part of this model: it is a parameter of `TextProcessor.BuildLLMRequest`.
- **Configuration types.** config.LLMParameters and the engine's default-template setting are not part of the configuration file in this model; the model uses its own records for them.
- **Audio fallback language.** The audio fallback may put the residue under the first schema language even when the request did not ask for it. This is modelled as written and stated in `AudioProcessor.FallbackTranslationKeys`; it is not corrected.
- **Duplicate provider names.** Two providers with the same name both stay in the load balancer while the name map keeps the later one. This is modelled as written (`LlmManager.RegisterBackend`).
- **Bearer header with X-API-Key.** A bearer Authorization header sent together with X-API-Key yields type "jwt" with the key still set. This is modelled as written (`Middleware.ExtractedTypeMatchesDetection`).
- AudioConverter.ValidateM4A: requires fewer than 8 or at least 20 bytes. The source slices `data[:20]` after checking only for 8 bytes, so 8 to 19 bytes would panic there. ValidateAudioData never passes data under 100 bytes, so the panic is unreachable through the public entry point.
- Middleware.StatusCodeToGroup: codes from 600 up are grouped as "5xx", exactly as the source does; the contract does not call this out as an error.
- Middleware.RandomString: the tick readings are assumed non-negative (nanoseconds since 1970); a negative UnixNano would index with Go's truncated remainder and panic, which is not modelled.
- Auth.ApiKeyAuthenticate: looks keys up with the corrected `KeyStore.GetKey` of the Findings row. The source calls the as-written lookup, which panics for an enabled, expired key shorter than 8 bytes (such as "abc"); the model answers "invalid credentials" there instead. The panic itself is stated by `KeyStore.GetKeyAsWritten` and `KeyStore.ShortExpiredKeyPanics`.
- KeyStore.ListKeys: requires the given order to enumerate the store's keys exactly once, standing in for Go's map iteration.

## Findings

| source | as written | input that shows it | evidently intended | confidence | as-written member | corrected member |
|---|---|---|---|---|---|---|
| pkg/auth/keystore.go:104 | an expired key is logged as `apiKey[:8]+"***"`, which slices past the end of a key shorter than 8 bytes and panics | an enabled key "abc" whose expires_at lies in the past | the expired key is reported as not found, masking it as ListKeys does (whole when 8 bytes or shorter) | high; not executed | KeyStore.GetKeyAsWritten, KeyStore.ShortExpiredKeyPanics | KeyStore.GetKey, KeyStore.GetKeyAgreesWithWritten |

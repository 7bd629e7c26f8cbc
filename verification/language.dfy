/**
 * The language registry (internal/core/prompt/language.go): normalising user
 * input to a registered code, identifying a language in free text, and
 * synthesising the output schema for a set of target languages.
 *
 * Go keeps the languages in a map keyed by code and iterates it in an
 * unspecified order; here the registry is a sequence with distinct codes, and
 * "first match in iteration order" means first in the sequence.
 */
module Languages {
  import opened Wrappers
  import opened Strings
  import opened PromptTypes

  predicate UniqueCodes(langs: seq<Language>) {
    forall i, j :: 0 <= i < j < |langs| ==> langs[i].code != langs[j].code
  }

  /** The `map[string]*Language` keyed by code. */
  type Registry = langs: seq<Language> | UniqueCodes(langs) witness []

  /** `languages[code]` with Go's comma-ok. */
  function FindCode(langs: seq<Language>, code: string): (r: Option<Language>)
    ensures r.Some? <==> exists i :: 0 <= i < |langs| && langs[i].code == code
    ensures r.Some? ==> r.value.code == code && r.value in langs
  {
    if |langs| == 0 then None
    else if langs[0].code == code then Some(langs[0])
    else FindCode(langs[1..], code)
  }

  predicate Registered(reg: Registry, code: string) {
    FindCode(reg, code).Some?
  }

  /** The position of the language with this code, if any. */
  function PositionOf(langs: seq<Language>, code: string): (r: Option<nat>)
    ensures r.Some? ==> r.value < |langs| && langs[r.value].code == code
    ensures r.None? ==> forall i :: 0 <= i < |langs| ==> langs[i].code != code
  {
    if |langs| == 0 then None
    else if langs[0].code == code then Some(0)
    else match PositionOf(langs[1..], code)
      case Some(i) => Some(i + 1)
      case None => None
  }

  /** In a registry, looking up a member's code finds that member. */
  lemma FindMember(reg: Registry, i: nat)
    requires i < |reg|
    ensures FindCode(reg, reg[i].code) == Some(reg[i])
  {
    var v := FindCode(reg, reg[i].code).value;
    var j :| 0 <= j < |reg| && reg[j] == v;
  }

  /** `languages[lang.Code] = lang`: replaces the entry in place or appends. */
  function Put(reg: Registry, lang: Language): (r: Registry)
    ensures |r| == |reg| || |r| == |reg| + 1
    ensures forall i :: 0 <= i < |reg| ==> r[i] == if reg[i].code == lang.code then lang else reg[i]
    ensures |r| == |reg| + 1 <==> !Registered(reg, lang.code)
    ensures |r| == |reg| + 1 ==> r[|reg|] == lang
  {
    match PositionOf(reg, lang.code)
    case Some(i) =>
      assert forall j :: 0 <= j < |reg| && j != i ==> reg[j].code != lang.code;
      reg[i := lang]
    case None => reg + [lang]
  }

  /** After Put the code finds the new language and every other code finds what it found before. */
  lemma PutLookup(reg: Registry, lang: Language, c: string)
    ensures FindCode(Put(reg, lang), c) == if c == lang.code then Some(lang) else FindCode(reg, c)
  {
    var r := Put(reg, lang);
    match PositionOf(r, c)
    case Some(i) =>
      FindMember(r, i);
      if i < |reg| && c != lang.code {
        FindMember(reg, i);
      }
    case None =>
  }

  /** LanguageManager: the registry and the display-name index it builds. */
  datatype LanguageManager = LanguageManager(languages: Registry, nameMap: map<string, string>)

  function AddConfigured(m: LanguageManager, lang: Language): LanguageManager {
    LanguageManager(
      Put(m.languages, lang),
      match DisplayName(lang)
      case Some(d) => m.nameMap[d := lang.code]
      case None => m.nameMap)
  }

  function Load(m: LanguageManager, cfg: seq<Language>): LanguageManager
    decreases |cfg|
  {
    if |cfg| == 0 then m else Load(AddConfigured(m, cfg[0]), cfg[1..])
  }

  /** The last configured language carrying `code`: the one a map assignment keeps. */
  function LastWithCode(cfg: seq<Language>, code: string): (r: Option<Language>)
    ensures r.Some? ==> r.value in cfg && r.value.code == code
    ensures r.None? <==> forall i :: 0 <= i < |cfg| ==> cfg[i].code != code
  {
    if |cfg| == 0 then None
    else match LastWithCode(cfg[1..], code)
      case Some(l) => Some(l)
      case None => if cfg[0].code == code then Some(cfg[0]) else None
  }

  lemma {:induction false} LoadLookup(m: LanguageManager, cfg: seq<Language>, code: string)
    ensures FindCode(Load(m, cfg).languages, code)
         == if LastWithCode(cfg, code).Some? then LastWithCode(cfg, code) else FindCode(m.languages, code)
    decreases |cfg|
  {
    if |cfg| > 0 {
      LoadLookup(AddConfigured(m, cfg[0]), cfg[1..], code);
    }
  }

  function NewLanguageManager(cfg: seq<Language>): LanguageManager {
    Load(LanguageManager([], map[]), cfg)
  }

  /** A code is registered iff some configured language has it, and then it maps to the last such one. */
  lemma NewLanguageManagerLookup(cfg: seq<Language>, code: string)
    ensures FindCode(NewLanguageManager(cfg).languages, code) == LastWithCode(cfg, code)
  {
    LoadLookup(LanguageManager([], map[]), cfg, code);
  }

  // ---------------------------------------------------------------------------
  // Matching a language against normalised input
  // ---------------------------------------------------------------------------

  /** The three ways the package compares input against a language. */
  datatype MatchMode =
    | DisplayOrAlias   // LanguageManager.NormalizeLanguage
    | AliasOnly        // Engine.normalizeLanguage
    | Loose            // LanguageManager.IdentifyLanguageFromText

  predicate AliasMatch(lang: Language, s: string) {
    exists i :: 0 <= i < |lang.aliases| && EqualFold(s, lang.aliases[i])
  }

  predicate DisplayMatch(lang: Language, s: string) {
    DisplayName(lang).Some? && EqualFold(s, DisplayName(lang).value)
  }

  predicate NameMatch(lang: Language, s: string) {
    exists i :: 0 <= i < |lang.names| && EqualFold(s, lang.names[i].value)
  }

  /** The lowered alias occurs in s and is longer than two bytes. */
  predicate AliasContained(lang: Language, s: string) {
    exists i :: 0 <= i < |lang.aliases| && Contains(s, Lower(lang.aliases[i])) && Utf8Len(lang.aliases[i]) > 2
  }

  predicate NameContained(lang: Language, s: string) {
    exists i :: 0 <= i < |lang.names| && Contains(s, Lower(lang.names[i].value)) && Utf8Len(lang.names[i].value) > 2
  }

  predicate Matches(mode: MatchMode, lang: Language, s: string) {
    match mode
    case DisplayOrAlias => DisplayMatch(lang, s) || AliasMatch(lang, s)
    case AliasOnly => AliasMatch(lang, s)
    case Loose =>
      NameMatch(lang, s) || AliasMatch(lang, s) || EqualFold(s, lang.code)
      || AliasContained(lang, s) || NameContained(lang, s)
  }

  function FirstMatchFrom(mode: MatchMode, langs: seq<Language>, s: string, k: nat): (r: Option<nat>)
    requires k <= |langs|
    ensures r.Some? ==> k <= r.value < |langs| && Matches(mode, langs[r.value], s)
    ensures r.Some? ==> forall j :: k <= j < r.value ==> !Matches(mode, langs[j], s)
    ensures r.None? ==> forall j :: k <= j < |langs| ==> !Matches(mode, langs[j], s)
    decreases |langs| - k
  {
    if k == |langs| then None
    else if Matches(mode, langs[k], s) then Some(k)
    else FirstMatchFrom(mode, langs, s, k + 1)
  }

  /** The index of the first language (in iteration order) that matches s. */
  function FirstMatch(mode: MatchMode, langs: seq<Language>, s: string): (r: Option<nat>)
    ensures r.Some? ==> r.value < |langs| && Matches(mode, langs[r.value], s)
    ensures r.Some? ==> forall j :: 0 <= j < r.value ==> !Matches(mode, langs[j], s)
    ensures r.None? <==> forall j :: 0 <= j < |langs| ==> !Matches(mode, langs[j], s)
  {
    FirstMatchFrom(mode, langs, s, 0)
  }

  /** The trimmed, lowered form every lookup starts from. */
  function Canon(input: string): string {
    Trim(Lower(input))
  }

  lemma CanonIdempotent(x: string)
    ensures Canon(Canon(x)) == Canon(x)
  {
    var y := Lower(x);
    TrimLower(Trim(y));
    TrimIdempotent(y);
    TrimLower(y);
    LowerIdempotent(x);
  }

  lemma CanonOfTrim(x: string)
    ensures Canon(Trim(x)) == Canon(x)
  {
    TrimLower(Trim(x));
    TrimIdempotent(x);
    TrimLower(x);
  }

  // ---------------------------------------------------------------------------
  // NormalizeLanguage
  // ---------------------------------------------------------------------------

  /**
   * NormalizeLanguage: the code of the language whose code equals the trimmed,
   * lowered input, else of the first language whose display name or an alias
   * equals it ignoring case.
   */
  function NormalizeLanguage(reg: Registry, input: string): (r: Result<string, string>)
    ensures r.Success? ==> Registered(reg, r.value)
    ensures r.Success? ==>
      r.value == Canon(input) || Matches(DisplayOrAlias, FindCode(reg, r.value).value, Canon(input))
    ensures r.Failure? <==>
      Canon(input) == ""
      || (!Registered(reg, Canon(input)) && forall j :: 0 <= j < |reg| ==> !Matches(DisplayOrAlias, reg[j], Canon(input)))
  {
    var s := Canon(input);
    if s == "" then Failure("unknown language: " + s)
    else match FindCode(reg, s)
      case Some(lang) => Success(lang.code)
      case None =>
        match FirstMatch(DisplayOrAlias, reg, s)
        case Some(i) => Success(reg[i].code)
        case None => Failure("unknown language: " + s)
  }

  /** Input is canonicalised first, so f(x) == f(trim(lower(x))). */
  lemma NormalizeCanonical(reg: Registry, x: string)
    ensures NormalizeLanguage(reg, x) == NormalizeLanguage(reg, Canon(x))
  {
    CanonIdempotent(x);
  }

  /** A registered code that is already lowercase and trimmed normalises to itself. */
  lemma NormalizeRegisteredCode(reg: Registry, c: string)
    requires Registered(reg, c) && c != "" && Lower(c) == c && Trim(c) == c
    ensures NormalizeLanguage(reg, c) == Success(c)
  {
  }

  // ---------------------------------------------------------------------------
  // IdentifyLanguageFromText
  // ---------------------------------------------------------------------------

  /**
   * IdentifyLanguageFromText: NormalizeLanguage on the trimmed text, else the
   * first language that loosely matches the lowered text.
   */
  function IdentifyLanguageFromText(reg: Registry, text: string): (r: Result<string, string>)
    ensures r.Success? ==> Registered(reg, r.value)
    ensures r.Failure? <==>
      NormalizeLanguage(reg, Trim(text)).Failure?
      && forall j :: 0 <= j < |reg| ==> !Matches(Loose, reg[j], Lower(Trim(text)))
  {
    var normalized := Trim(text);
    match NormalizeLanguage(reg, normalized)
    case Success(code) => Success(code)
    case Failure(_) =>
      var cleaned := Lower(Trim(normalized));
      TrimIdempotent(text);
      match FirstMatch(Loose, reg, cleaned)
      case Some(i) => Success(reg[i].code)
      case None => Failure("no language identified for text: " + text)
  }

  /** Identification agrees with normalisation whenever normalisation succeeds. */
  lemma IdentifyExtendsNormalize(reg: Registry, text: string)
    requires NormalizeLanguage(reg, text).Success?
    ensures IdentifyLanguageFromText(reg, text) == NormalizeLanguage(reg, text)
  {
    NormalizeCanonical(reg, text);
    NormalizeCanonical(reg, Trim(text));
    CanonOfTrim(text);
  }

  /** A long alias occurring in the text identifies its language (or an earlier one). */
  lemma IdentifyByContainedAlias(reg: Registry, text: string, k: nat, a: nat)
    requires k < |reg| && a < |reg[k].aliases|
    requires Utf8Len(reg[k].aliases[a]) > 2
    requires Contains(Lower(Trim(text)), Lower(reg[k].aliases[a]))
    ensures IdentifyLanguageFromText(reg, text).Success?
  {
    assert Matches(Loose, reg[k], Lower(Trim(text)));
  }

  /** Containment alone never identifies a language whose names and aliases are all at most two bytes. */
  lemma ShortNamesNeedExactMatch(lang: Language, s: string)
    requires forall i :: 0 <= i < |lang.aliases| ==> Utf8Len(lang.aliases[i]) <= 2
    requires forall i :: 0 <= i < |lang.names| ==> Utf8Len(lang.names[i].value) <= 2
    ensures Matches(Loose, lang, s) <==> NameMatch(lang, s) || AliasMatch(lang, s) || EqualFold(s, lang.code)
  {
  }

  // ---------------------------------------------------------------------------
  // ConvertCodesToDisplayNames
  // ---------------------------------------------------------------------------

  /** The display name, or the code when the language has none. */
  function DisplayOrCode(lang: Language): string {
    DisplayName(lang).GetOr(lang.code)
  }

  /** The input normalises to some registered code. */
  predicate Known(reg: Registry, input: string) {
    NormalizeLanguage(reg, input).Success?
  }

  /** The display name (or code) of the language an input normalises to. */
  function DisplayFor(reg: Registry, input: string): string
    requires Known(reg, input)
  {
    DisplayOrCode(FindCode(reg, NormalizeLanguage(reg, input).value).value)
  }

  function ConvertError(reg: Registry, input: string): string
    requires !Known(reg, input)
  {
    "normalize language code " + input + ": " + NormalizeLanguage(reg, input).error
  }

  /**
   * One input's display name. The source's "language definition not found"
   * branch is unreachable: a normalised code is always registered.
   */
  function ConvertOne(reg: Registry, input: string): (r: Result<string, string>)
    ensures r.Success? <==> Known(reg, input)
    ensures r.Success? ==> r.value == DisplayFor(reg, input)
    ensures r.Failure? ==> r.error == ConvertError(reg, input)
  {
    match NormalizeLanguage(reg, input)
    case Failure(e) => Failure("normalize language code " + input + ": " + e)
    case Success(code) => Success(DisplayOrCode(FindCode(reg, code).value))
  }

  /** The values of rs[i..], or the first failure among them. */
  function CollectFrom(rs: seq<Result<string, string>>, i: nat): (r: Result<seq<string>, string>)
    requires i <= |rs|
    ensures r.Success? ==> |r.value| == |rs| - i
    decreases |rs| - i
  {
    if i == |rs| then Success([])
    else match rs[i]
      case Failure(e) => Failure(e)
      case Success(v) =>
        match CollectFrom(rs, i + 1)
        case Failure(e) => Failure(e)
        case Success(rest) => Success([v] + rest)
  }

  /** A successful collection holds every value, in order. */
  lemma {:induction false} CollectFromSuccess(rs: seq<Result<string, string>>, i: nat)
    requires i <= |rs| && CollectFrom(rs, i).Success?
    ensures forall k :: i <= k < |rs| ==> rs[k].Success? && CollectFrom(rs, i).value[k - i] == rs[k].value
    decreases |rs| - i
  {
    if i < |rs| {
      CollectFromSuccess(rs, i + 1);
    }
  }

  /** A failed collection reports the first failure. */
  lemma {:induction false} CollectFromFailure(rs: seq<Result<string, string>>, i: nat) returns (k: nat)
    requires i <= |rs| && CollectFrom(rs, i).Failure?
    ensures i <= k < |rs| && rs[k].Failure?
    ensures forall j :: i <= j < k ==> rs[j].Success?
    ensures CollectFrom(rs, i).error == rs[k].error
    decreases |rs| - i
  {
    if rs[i].Success? {
      k := CollectFromFailure(rs, i + 1);
    } else {
      k := i;
    }
  }

  /** With no failure among rs[i..] the collection succeeds. */
  lemma {:induction false} CollectFromAllSuccess(rs: seq<Result<string, string>>, i: nat)
    requires i <= |rs|
    ensures (forall k :: i <= k < |rs| ==> rs[k].Success?) ==> CollectFrom(rs, i).Success?
    decreases |rs| - i
  {
    if i < |rs| {
      CollectFromAllSuccess(rs, i + 1);
    }
  }

  /** Each input's conversion, in order. */
  function Conversions(reg: Registry, codes: seq<string>): (rs: seq<Result<string, string>>)
    ensures |rs| == |codes|
    ensures forall k :: 0 <= k < |codes| ==> rs[k] == ConvertOne(reg, codes[k])
  {
    seq(|codes|, k requires 0 <= k < |codes| => ConvertOne(reg, codes[k]))
  }

  /** ConvertCodesToDisplayNames: each input's display name in order, or the first failure. */
  function ConvertCodesToDisplayNames(reg: Registry, codes: seq<string>): (r: Result<seq<string>, string>)
    ensures r.Success? ==> |r.value| == |codes|
  {
    CollectFrom(Conversions(reg, codes), 0)
  }

  /** The conversion succeeds exactly when every input normalises. */
  lemma ConvertCodesSucceeds(reg: Registry, codes: seq<string>)
    ensures ConvertCodesToDisplayNames(reg, codes).Success? <==> forall k :: 0 <= k < |codes| ==> Known(reg, codes[k])
  {
    var rs := Conversions(reg, codes);
    CollectFromAllSuccess(rs, 0);
    if CollectFrom(rs, 0).Success? {
      CollectFromSuccess(rs, 0);
    }
    assert forall k :: 0 <= k < |codes| ==> (rs[k].Success? <==> Known(reg, codes[k]));
  }

  /**
   * On success there is the display name (or the code when there is none) of
   * each input's language, in order.
   */
  lemma ConvertCodesValues(reg: Registry, codes: seq<string>)
    requires ConvertCodesToDisplayNames(reg, codes).Success?
    ensures forall k :: 0 <= k < |codes| ==>
      Known(reg, codes[k]) && ConvertCodesToDisplayNames(reg, codes).value[k] == DisplayFor(reg, codes[k])
  {
    var rs := Conversions(reg, codes);
    CollectFromSuccess(rs, 0);
    var vs := CollectFrom(rs, 0).value;
    forall k | 0 <= k < |codes|
      ensures Known(reg, codes[k]) && vs[k] == DisplayFor(reg, codes[k])
    {
      assert rs[k].Success? && vs[k] == rs[k].value;
    }
  }

  /** The error is the first failing input's: it names that input and its normalisation error. */
  lemma ConvertCodesFirstError(reg: Registry, codes: seq<string>) returns (k: nat)
    requires ConvertCodesToDisplayNames(reg, codes).Failure?
    ensures k < |codes| && !Known(reg, codes[k])
    ensures forall j :: 0 <= j < k ==> Known(reg, codes[j])
    ensures ConvertCodesToDisplayNames(reg, codes).error == ConvertError(reg, codes[k])
  {
    k := CollectFromFailure(Conversions(reg, codes), 0);
  }

  // ---------------------------------------------------------------------------
  // BuildDynamicOutputRules
  // ---------------------------------------------------------------------------

  /** The transcription / source-text section. */
  const SourceSection := OutputSection(SourceKey, ["Original", "原始文本", "Transcription", "转录", "原始", "源文本"], "", true, 1)

  /** Every non-empty value of a names map, in iteration order. */
  function NonEmptyNames(names: seq<NameEntry>): (r: seq<string>)
    ensures forall i :: 0 <= i < |r| ==> r[i] != "" && exists j :: 0 <= j < |names| && names[j].value == r[i]
  {
    if |names| == 0 then []
    else if names[0].value != "" then [names[0].value] + NonEmptyNames(names[1..])
    else NonEmptyNames(names[1..])
  }

  function SectionKey(lang: Language): string {
    if DisplayOrEmpty(lang) == "" then lang.code else DisplayOrEmpty(lang)
  }

  function TargetSection(lang: Language, order: int): OutputSection {
    OutputSection(SectionKey(lang), NonEmptyNames(lang.names) + lang.aliases + [lang.code, Upper(lang.code)], lang.code, false, order)
  }

  /** The number of targets from index i on that the registry knows. */
  function KnownCount(reg: Registry, targets: seq<string>, i: nat): (n: nat)
    requires i <= |targets|
    ensures n <= |targets| - i
    decreases |targets| - i
  {
    if i == |targets| then 0
    else (if Registered(reg, targets[i]) then 1 else 0) + KnownCount(reg, targets, i + 1)
  }

  predicate StrictlyIncreasingOrders(sections: seq<OutputSection>) {
    forall i, j :: 0 <= i < j < |sections| ==> sections[i].order < sections[j].order
  }

  /** Section k came from target number `order - start`, a registered code. */
  predicate FromTarget(reg: Registry, targets: seq<string>, start: int, s: OutputSection) {
    start <= s.order < start + |targets|
    && s.languageCode == targets[s.order - start]
    && Registered(reg, s.languageCode)
    && s == TargetSection(FindCode(reg, s.languageCode).value, s.order)
  }

  /** Some section carries the order of target j. */
  predicate HasOrder(sections: seq<OutputSection>, order: int) {
    exists k :: 0 <= k < |sections| && sections[k].order == order
  }

  lemma HasOrderCons(s0: OutputSection, rest: seq<OutputSection>)
    ensures forall o :: HasOrder(rest, o) ==> HasOrder([s0] + rest, o)
    ensures forall k :: 1 <= k < |rest| + 1 ==> ([s0] + rest)[k] == rest[k - 1]
  {
    forall o | HasOrder(rest, o) ensures HasOrder([s0] + rest, o) {
      var k :| 0 <= k < |rest| && rest[k].order == o;
      assert ([s0] + rest)[k + 1] == rest[k];
    }
  }

  /**
   * The sections for targets[i..], target j getting order start + j; unknown
   * codes are skipped.
   */
  function TargetSections(reg: Registry, targets: seq<string>, start: int, i: nat): (r: seq<OutputSection>)
    requires i <= |targets|
    ensures |r| == KnownCount(reg, targets, i)
    decreases |targets| - i
  {
    if i == |targets| then []
    else
      var rest := TargetSections(reg, targets, start, i + 1);
      match FindCode(reg, targets[i])
      case Some(lang) => [TargetSection(lang, start + i)] + rest
      case None => rest
  }

  /** The orders increase strictly and start at start + i. */
  lemma {:induction false} TargetSectionsOrdered(reg: Registry, targets: seq<string>, start: int, i: nat)
    requires i <= |targets|
    ensures var r := TargetSections(reg, targets, start, i);
      StrictlyIncreasingOrders(r) && forall k :: 0 <= k < |r| ==> r[k].order >= start + i
    decreases |targets| - i
  {
    if i < |targets| {
      TargetSectionsOrdered(reg, targets, start, i + 1);
    }
  }

  /** Every section is the target section of the registered code whose position its order gives. */
  lemma TargetSectionsFromTargets(reg: Registry, targets: seq<string>, start: int, i: nat)
    requires i <= |targets|
    ensures forall k :: 0 <= k < |TargetSections(reg, targets, start, i)| ==>
      FromTarget(reg, targets, start, TargetSections(reg, targets, start, i)[k])
  {
    forall k | 0 <= k < |TargetSections(reg, targets, start, i)|
      ensures FromTarget(reg, targets, start, TargetSections(reg, targets, start, i)[k])
    {
      TargetSectionFromTarget(reg, targets, start, i, k);
    }
  }

  /** Section k is the target section of the registered code its order points at. */
  lemma {:induction false} TargetSectionFromTarget(reg: Registry, targets: seq<string>, start: int, i: nat, k: nat)
    requires i <= |targets| && k < |TargetSections(reg, targets, start, i)|
    ensures FromTarget(reg, targets, start, TargetSections(reg, targets, start, i)[k])
    decreases |targets| - i
  {
    var rest := TargetSections(reg, targets, start, i + 1);
    if FindCode(reg, targets[i]).Some? {
      if k == 0 {
        HeadFromTarget(reg, targets, start, i);
      } else {
        TargetSectionFromTarget(reg, targets, start, i + 1, k - 1);
      }
    } else {
      TargetSectionFromTarget(reg, targets, start, i + 1, k);
    }
  }

  /** The section made for target i is one FromTarget accepts. */
  lemma HeadFromTarget(reg: Registry, targets: seq<string>, start: int, i: nat)
    requires i < |targets| && FindCode(reg, targets[i]).Some?
    ensures FromTarget(reg, targets, start, TargetSection(FindCode(reg, targets[i]).value, start + i))
  {
  }

  /** Every registered target gets a section. */
  lemma {:induction false} TargetSectionsCover(reg: Registry, targets: seq<string>, start: int, i: nat)
    requires i <= |targets|
    ensures forall j :: i <= j < |targets| && Registered(reg, targets[j]) ==>
      HasOrder(TargetSections(reg, targets, start, i), start + j)
    decreases |targets| - i
  {
    if i < |targets| {
      TargetSectionsCover(reg, targets, start, i + 1);
      var rest := TargetSections(reg, targets, start, i + 1);
      match FindCode(reg, targets[i])
      case Some(lang) =>
        var r := [TargetSection(lang, start + i)] + rest;
        HasOrderCons(r[0], rest);
        assert r[0].order == start + i;
      case None =>
    }
  }

  /**
   * BuildDynamicOutputRules: an optional source section with order 1, then one
   * section per known target, numbered by the target's position.
   * (The task argument is unused, as in the source.)
   */
  function BuildDynamicOutputRules(reg: Registry, task: string, targets: seq<string>, includeSource: bool): (r: OutputRules)
    ensures r.format == FormatStructured && r.separator == ":"
    ensures includeSource ==> |r.sections| == 1 + KnownCount(reg, targets, 0) && r.sections[0] == SourceSection
    ensures !includeSource ==> |r.sections| == KnownCount(reg, targets, 0)
    ensures StrictlyIncreasingOrders(r.sections)
    ensures forall k :: (if includeSource then 1 else 0) <= k < |r.sections| ==>
      FromTarget(reg, targets, if includeSource then 2 else 1, r.sections[k])
    ensures forall j :: 0 <= j < |targets| && Registered(reg, targets[j]) ==>
      HasOrder(r.sections, (if includeSource then 2 else 1) + j)
  {
    var start := if includeSource then 2 else 1;
    var targetSections := TargetSections(reg, targets, start, 0);
    TargetSectionsOrdered(reg, targets, start, 0);
    TargetSectionsFromTargets(reg, targets, start, 0);
    TargetSectionsCover(reg, targets, start, 0);
    HasOrderCons(SourceSection, targetSections);
    OutputRules(FormatStructured, ":", if includeSource then [SourceSection] + targetSections else targetSections)
  }

  /** Each target section's aliases include the code and its upper-case form, and its key is the display name or the code. */
  lemma TargetSectionShape(lang: Language, order: int)
    ensures var s := TargetSection(lang, order);
      lang.code in s.aliases && Upper(lang.code) in s.aliases
      && (s.key == lang.code || (DisplayName(lang).Some? && s.key == DisplayName(lang).value))
      && s.languageCode == lang.code && !s.required && s.order == order
  {
    var s := TargetSection(lang, order);
    assert s.aliases[|s.aliases| - 2] == lang.code;
    assert s.aliases[|s.aliases| - 1] == Upper(lang.code);
  }
}

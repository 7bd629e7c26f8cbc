/**
 * The fenced-JSON reply reader (internal/core/prompt/json_parser.go).
 *
 * extractJSONBlock runs the regular expression  ```json\s*({.*?})\s*```  with
 * `.` matching newlines. Leftmost-first matching makes that precise:
 *   - the match starts at the leftmost "```json" fence that can complete;
 *   - the greedy `\s*` must swallow every whitespace character, because `{`
 *     is not whitespace, so the block opens right after the fence's whitespace;
 *   - the lazy `.*?` stops at the first `}` followed by whitespace and "```".
 * The functions below state that shape directly instead of running a regex.
 */
module JsonParser {
  import opened Wrappers
  import opened Strings
  import opened PromptTypes

  const Fence: string := "```json"
  const CloseFence: string := "```"

  /** The first index at or after `k` that is not regex whitespace `[\t\n\f\r ]`. */
  function SkipSpace(s: string, k: nat): (r: nat)
    requires k <= |s|
    ensures k <= r <= |s|
    ensures forall i :: k <= i < r ==> IsRegexSpace(s[i])
    ensures r < |s| ==> !IsRegexSpace(s[r])
    decreases |s| - k
  {
    if k == |s| || !IsRegexSpace(s[k]) then k else SkipSpace(s, k + 1)
  }

  /** Where the `{` of a block opened by a fence at `i` must stand. */
  function BraceAfter(s: string, i: nat): nat
    requires i + |Fence| <= |s|
  {
    SkipSpace(s, i + |Fence|)
  }

  /** A "```json" fence at `i` followed by optional whitespace and `{`. */
  predicate OpensAt(s: string, i: nat) {
    && i + |Fence| <= |s|
    && s[i..i + |Fence|] == Fence
    && BraceAfter(s, i) < |s|
    && s[BraceAfter(s, i)] == '{'
  }

  /** A `}` at `j` followed by optional whitespace and "```". */
  predicate ClosesAt(s: string, j: nat) {
    && j < |s|
    && s[j] == '}'
    && HasPrefix(s[SkipSpace(s, j + 1)..], CloseFence)
  }

  /** The regex can match starting at `i`: a fence, an opening brace, and some closing brace after it. */
  predicate MatchesAt(s: string, i: nat) {
    OpensAt(s, i) && exists j :: BraceAfter(s, i) < j < |s| && ClosesAt(s, j)
  }

  /** The first closing brace at or after `from`. */
  function FirstClose(s: string, from: nat): (r: Option<nat>)
    ensures r.Some? ==> from <= r.value && ClosesAt(s, r.value)
    ensures r.Some? ==> forall j :: from <= j < r.value ==> !ClosesAt(s, j)
    ensures r.None? <==> forall j :: from <= j < |s| ==> !ClosesAt(s, j)
    decreases |s| - from
  {
    if from >= |s| then None
    else if ClosesAt(s, from) then Some(from)
    else FirstClose(s, from + 1)
  }

  /** A match at `i` is an opening fence with a closing brace somewhere after the `{`. */
  lemma MatchesAtByFirstClose(s: string, i: nat)
    ensures MatchesAt(s, i) <==> OpensAt(s, i) && FirstClose(s, BraceAfter(s, i) + 1).Some?
  {
    if OpensAt(s, i) && FirstClose(s, BraceAfter(s, i) + 1).None? {
      assert forall j :: BraceAfter(s, i) < j < |s| ==> !ClosesAt(s, j);
    }
  }

  /** A fence at `i` whose block can be closed. */
  predicate Hit(s: string, i: nat) {
    OpensAt(s, i) && FirstClose(s, BraceAfter(s, i) + 1).Some?
  }

  /** The leftmost fence at or after `i` from which the regex matches. */
  function LocateFrom(s: string, i: nat): (r: Option<nat>)
    ensures r.Some? ==> i <= r.value && Hit(s, r.value)
    ensures r.Some? ==> forall f :: i <= f < r.value ==> !Hit(s, f)
    ensures r.None? ==> forall f :: i <= f ==> !Hit(s, f)
    decreases |s| - i
  {
    if i >= |s| then None
    else if Hit(s, i) then Some(i)
    else LocateFrom(s, i + 1)
  }

  /** extractJSONBlock: the text of the capture group `({.*?})`, or None without a match. */
  function ExtractJSONBlock(raw: string): (r: Option<string>)
    ensures r.Some? ==> |r.value| >= 2 && r.value[0] == '{' && r.value[|r.value| - 1] == '}'
  {
    match LocateFrom(raw, 0)
    case None => None
    case Some(f) => Some(BlockAt(raw, f))
  }

  /** The text from the brace after the fence at `f` through the first closing brace. */
  function BlockAt(raw: string, f: nat): (b: string)
    requires Hit(raw, f)
    ensures |b| >= 2 && b[0] == '{' && b[|b| - 1] == '}'
  {
    var open := BraceAfter(raw, f);
    var close := FirstClose(raw, open + 1).value;
    raw[open..close + 1]
  }

  /** No block is found exactly when the regex matches at no position. */
  lemma ExtractJSONBlockNone(raw: string)
    ensures ExtractJSONBlock(raw).None? <==> forall f :: 0 <= f < |raw| ==> !MatchesAt(raw, f)
  {
    match LocateFrom(raw, 0)
    case None =>
      forall f | 0 <= f < |raw|
        ensures !MatchesAt(raw, f)
      {
        assert !Hit(raw, f);
        MatchesAtByFirstClose(raw, f);
      }
    case Some(f) =>
      MatchesAtByFirstClose(raw, f);
  }

  /** The located fence is the leftmost position from which the regex matches. */
  lemma LocatedIsLeftmostMatch(raw: string, f: nat)
    requires LocateFrom(raw, 0) == Some(f)
    ensures f < |raw| && MatchesAt(raw, f)
    ensures forall g :: 0 <= g < f ==> !MatchesAt(raw, g)
  {
    forall g | 0 <= g < f
      ensures !MatchesAt(raw, g)
    {
      assert !Hit(raw, g);
      MatchesAtByFirstClose(raw, g);
    }
    MatchesAtByFirstClose(raw, f);
  }

  /**
   * The block comes from the leftmost matching fence `f`, starts at the brace
   * after that fence's whitespace, and ends at the first closing brace `c`: no
   * shorter span would do.
   */
  lemma ExtractJSONBlockShape(raw: string) returns (f: nat, c: nat)
    requires ExtractJSONBlock(raw).Some?
    ensures f < |raw| && MatchesAt(raw, f)
    ensures forall g :: 0 <= g < f ==> !MatchesAt(raw, g)
    ensures BraceAfter(raw, f) < c < |raw| && ClosesAt(raw, c)
    ensures forall j :: BraceAfter(raw, f) < j < c ==> !ClosesAt(raw, j)
    ensures ExtractJSONBlock(raw) == Some(raw[BraceAfter(raw, f)..c + 1])
  {
    f := LocateFrom(raw, 0).value;
    LocatedIsLeftmostMatch(raw, f);
    c := FirstClose(raw, BraceAfter(raw, f) + 1).value;
    BlockOfLocated(raw, f, c);
  }

  lemma BlockOfLocated(raw: string, f: nat, c: nat)
    requires LocateFrom(raw, 0) == Some(f)
    requires FirstClose(raw, BraceAfter(raw, f) + 1) == Some(c)
    ensures ExtractJSONBlock(raw) == Some(raw[BraceAfter(raw, f)..c + 1])
  {
    assert ExtractJSONBlock(raw) == Some(BlockAt(raw, f));
    assert BlockAt(raw, f) == raw[BraceAfter(raw, f)..c + 1];
  }

  /** The reply made of a fence, a newline, `body`, a newline and a closing fence. */
  function Fenced(body: string): string {
    Fence + "\n" + body + "\n" + CloseFence
  }

  lemma FencedOpens(body: string)
    requires |body| >= 2 && body[0] == '{'
    ensures OpensAt(Fenced(body), 0) && BraceAfter(Fenced(body), 0) == 8
  {
    var raw := Fenced(body);
    assert raw[7] == '\n' && raw[8] == '{';
    assert SkipSpace(raw, 8) == 8;
  }

  lemma FencedCloses(body: string)
    requires |body| >= 2 && body[|body| - 1] == '}'
    requires forall j :: 0 <= j < |body| - 1 ==> body[j] != '}'
    ensures FirstClose(Fenced(body), 9) == Some(7 + |body|)
  {
    var raw := Fenced(body);
    var n := |body|;
    assert raw[7 + n] == '}';
    assert raw[8 + n] == '\n' && raw[9 + n..] == CloseFence;
    assert SkipSpace(raw, 9 + n) == 9 + n;
    assert ClosesAt(raw, 7 + n);
    forall j | 9 <= j < 7 + n
      ensures !ClosesAt(raw, j)
    {
      assert raw[j] == body[j - 8];
    }
  }

  /** A reply that is exactly a fenced object (no `}` before its last character) yields that object back. */
  lemma ExtractFencedObject(body: string)
    requires |body| >= 2 && body[0] == '{' && body[|body| - 1] == '}'
    requires forall j :: 0 <= j < |body| - 1 ==> body[j] != '}'
    ensures ExtractJSONBlock(Fenced(body)) == Some(body)
  {
    var raw := Fenced(body);
    FencedOpens(body);
    FencedCloses(body);
    assert Hit(raw, 0);
    assert LocateFrom(raw, 0) == Some(0);
    BlockOfLocated(raw, 0, 7 + |body|);
    assert raw[8..8 + |body|] == body;
  }

  // ---------------------------------------------------------------------------
  // Mapping a decoded object to sections
  // ---------------------------------------------------------------------------

  /** The fields json.Unmarshal fills in (absent fields decode as "" / an empty map). */
  datatype Decoded = Decoded(transcription: string, sourceText: string, translations: map<string, string>)

  /** The metadata every JSON parse carries. */
  const JsonMetadata: map<string, Value> := map["parser" := VStr("json"), "parse_success" := VBool(true)]

  /** The source entry: source_text wins over transcription; both empty means none. */
  function SourceEntry(d: Decoded): map<string, string> {
    if d.sourceText != "" then map[SourceKey := d.sourceText]
    else if d.transcription != "" then map[SourceKey := d.transcription]
    else map[]
  }

  /** The non-empty translations, each under its own code. */
  function NonEmptyTranslations(t: map<string, string>): map<string, string> {
    map k | k in t && t[k] != "" :: t[k]
  }

  /**
   * parseJSONResponse, with json.Unmarshal's outcome passed in as `decoded`:
   * a decode error is returned as is; otherwise the sections hold the source
   * text and every non-empty translation (translations written last).
   */
  function ParseJSONResponse(jsonData: string, decoded: Result<Decoded, string>): (r: Result<ParsedResponse, string>)
    ensures decoded.Failure? ==> r == Failure(decoded.error)
    ensures decoded.Success? ==>
      r.Success? && r.value.rawText == jsonData && r.value.metadata == JsonMetadata
  {
    match decoded
    case Failure(e) => Failure(e)
    case Success(d) =>
      Success(ParsedResponse(jsonData, SourceEntry(d) + NonEmptyTranslations(d.translations), JsonMetadata))
  }

  /**
   * What the sections hold: every non-empty translation verbatim; the source
   * key with source_text, else transcription, unless a translation claims that
   * key; and nothing else.
   */
  lemma ParseJSONSections(jsonData: string, d: Decoded)
    ensures var sections := ParseJSONResponse(jsonData, Success(d)).value.sections;
      && (forall k :: k in d.translations && d.translations[k] != "" ==> k in sections && sections[k] == d.translations[k])
      && (forall k :: k in sections ==> k == SourceKey || (k in d.translations && d.translations[k] != ""))
      && (SourceKey in sections <==>
            d.sourceText != "" || d.transcription != ""
            || (SourceKey in d.translations && d.translations[SourceKey] != ""))
      && (!(SourceKey in d.translations && d.translations[SourceKey] != "") ==>
            (d.sourceText != "" ==> sections[SourceKey] == d.sourceText)
            && (d.sourceText == "" && d.transcription != "" ==> sections[SourceKey] == d.transcription))
  {
  }

  /** Every stored value is non-empty: empty strings never become sections. */
  lemma ParseJSONValuesNonEmpty(jsonData: string, d: Decoded)
    ensures forall k :: k in ParseJSONResponse(jsonData, Success(d)).value.sections ==>
      ParseJSONResponse(jsonData, Success(d)).value.sections[k] != ""
  {
  }
}

/**
 * The line-oriented response parser (internal/core/prompt/parser.go) and the
 * older boolean matcher it replaced (internal/core/prompt/engine.go:359-471).
 *
 * A reply is split into lines; a line `key<sep>value` opens a section, the
 * following plain lines continue it. Keys are resolved against the schema's
 * section keys and aliases.
 */
module Parser {
  import opened Wrappers
  import opened Strings
  import opened PromptTypes

  const DefaultSeparators: seq<string> := [":", "：", "->", "=>"]

  /** How a header key is resolved to a schema section. */
  datatype Strategy =
    | BestScore    // parser.go: the first matcher reaching the maximum score
    | FirstFuzzy   // engine.go: the first matcher with a fuzzy-matching pattern

  datatype StructuredParser = StructuredParser(separators: seq<string>, strategy: Strategy)

  /** NewStructuredParser: an empty separator list means the four defaults. */
  function NewStructuredParser(separators: seq<string>): (p: StructuredParser)
    ensures |p.separators| > 0
    ensures |separators| > 0 ==> p.separators == separators
    ensures p.strategy == BestScore
  {
    StructuredParser(if |separators| == 0 then DefaultSeparators else separators, BestScore)
  }

  // ---------------------------------------------------------------------------
  // Scoring a key against a pattern
  // ---------------------------------------------------------------------------

  /** The key with every space and punctuation character removed, as regexp `[\s\p{P}]+` → "". */
  function Clean(s: string): string {
    StripSpacePunct(s)
  }

  /**
   * The containment score base + ⌊30·len(part)/len(whole)⌋, lengths in UTF-8
   * bytes. The source computes the ratio in float64; here it is exact.
   */
  function RatioScore(base: int, part: string, whole: string): (r: int)
    requires Utf8Len(part) < Utf8Len(whole)
    ensures base <= r < base + 30
  {
    QuotientBelow(Utf8Len(part) * 30, Utf8Len(whole), 30);
    base + Quotient(Utf8Len(part) * 30, Utf8Len(whole))
  }

  /** Integer division a / b by repeated subtraction. */
  function Quotient(a: nat, b: nat): nat
    requires b > 0
    decreases a
  {
    if a < b then 0 else 1 + Quotient(a - b, b)
  }

  /** A dividend below c·b leaves a quotient below c. */
  lemma {:induction false} QuotientBelow(a: nat, b: nat, c: nat)
    requires b > 0 && a < c * b
    ensures Quotient(a, b) < c
    decreases a
  {
    if a >= b {
      assert a - b < (c - 1) * b;
      QuotientBelow(a - b, b, c - 1);
    }
  }

  /**
   * getMatchScore: 100 for a case-insensitive match, 90 once spaces and
   * punctuation are removed, 80 for equal lower-case forms, a length-ratio
   * score for containment either way, else 0.
   */
  function MatchScore(input: string, pattern: string): (score: int)
    ensures score == 0 || 40 <= score <= 100
  {
    if EqualFold(input, pattern) then 100
    else if EqualFold(Clean(input), Clean(pattern)) then 90
    else
      var il, pl := Lower(input), Lower(pattern);
      if il == pl then 80
      else if Contains(il, pl) then
        ContainsShorter(il, pl);
        RatioScore(50, pl, il)
      else if Contains(pl, il) then
        ContainsShorter(pl, il);
        RatioScore(40, il, pl)
      else 0
  }

  /** The older fuzzyMatch (engine.go): case-insensitive, cleaned or containment equality. */
  predicate OldFuzzyMatch(input: string, pattern: string) {
    || EqualFold(input, pattern)
    || EqualFold(Clean(input), Clean(pattern))
    || Contains(Lower(input), Lower(pattern))
    || Contains(Lower(pattern), Lower(input))
  }

  /**
   * The score levels: 100 exactly for a case-insensitive match, 90 exactly for a
   * match after cleaning, and a positive score exactly when the older boolean
   * matcher accepts.
   */
  lemma MatchScoreLevels(input: string, pattern: string)
    ensures MatchScore(input, pattern) == 100 <==> EqualFold(input, pattern)
    ensures MatchScore(input, pattern) == 90 <==>
      !EqualFold(input, pattern) && EqualFold(Clean(input), Clean(pattern))
    ensures MatchScore(input, pattern) > 0 <==> OldFuzzyMatch(input, pattern)
  {
    if !EqualFold(input, pattern) && !EqualFold(Clean(input), Clean(pattern)) {
      MatchScoreContainment(input, pattern);
    }
  }

  /** The containment scores: 50..79 when the input holds the pattern, 40..69 the other way round. */
  lemma MatchScoreContainment(input: string, pattern: string)
    requires !EqualFold(input, pattern) && !EqualFold(Clean(input), Clean(pattern))
    ensures Contains(Lower(input), Lower(pattern)) ==> 50 <= MatchScore(input, pattern) < 80
    ensures !Contains(Lower(input), Lower(pattern)) && Contains(Lower(pattern), Lower(input)) ==>
      40 <= MatchScore(input, pattern) < 70
    ensures !Contains(Lower(input), Lower(pattern)) && !Contains(Lower(pattern), Lower(input)) ==>
      MatchScore(input, pattern) == 0
  {
  }

  /** fuzzyMatch (parser.go): some positive score. */
  predicate FuzzyMatch(input: string, pattern: string) {
    MatchScore(input, pattern) > 0
  }

  /** The two boolean matchers accept the same pairs. */
  lemma FuzzyMatchersAgree(input: string, pattern: string)
    ensures FuzzyMatch(input, pattern) <==> OldFuzzyMatch(input, pattern)
  {
    MatchScoreLevels(input, pattern);
  }

  // ---------------------------------------------------------------------------
  // Section matchers
  // ---------------------------------------------------------------------------

  /** One entry of the matcher map: a section key and the patterns that select it. */
  datatype Matcher = Matcher(section: string, patterns: seq<string>)

  predicate UniqueSections(ms: seq<Matcher>) {
    forall i, j :: 0 <= i < j < |ms| ==> ms[i].section != ms[j].section
  }

  function FindMatcher(ms: seq<Matcher>, section: string): (r: Option<nat>)
    ensures r.Some? ==> r.value < |ms| && ms[r.value].section == section
    ensures r.Some? ==> forall i :: 0 <= i < r.value ==> ms[i].section != section
    ensures r.None? <==> forall i :: 0 <= i < |ms| ==> ms[i].section != section
  {
    if |ms| == 0 then None
    else if ms[0].section == section then Some(0)
    else match FindMatcher(ms[1..], section)
      case Some(i) => Some(i + 1)
      case None => None
  }

  /** `matchers[m.section] = m.patterns`: replaces in place or appends. */
  function Assign(ms: seq<Matcher>, m: Matcher): (r: seq<Matcher>)
    requires UniqueSections(ms)
    ensures UniqueSections(r)
    ensures |r| == |ms| || (|r| == |ms| + 1 && r[|ms|] == m)
    ensures exists i :: 0 <= i < |r| && r[i] == m
    ensures forall i :: 0 <= i < |r| && r[i].section == m.section ==> r[i] == m
    ensures forall i :: 0 <= i < |ms| && ms[i].section != m.section ==> r[i] == ms[i]
  {
    match FindMatcher(ms, m.section)
    case Some(i) =>
      var r := ms[i := m];
      assert r[i] == m;
      r
    case None =>
      var r := ms + [m];
      assert r[|ms|] == m;
      r
  }

  /** In a sequence of distinct sections, the lookup finds the one index holding the key. */
  lemma FindUnique(ms: seq<Matcher>, key: string, i: nat)
    requires UniqueSections(ms) && i < |ms| && ms[i].section == key
    ensures FindMatcher(ms, key) == Some(i)
  {
  }

  /** Looking up after an assignment: the assigned key yields the new matcher, other keys are untouched. */
  lemma AssignLookup(ms: seq<Matcher>, m: Matcher, key: string)
    requires UniqueSections(ms)
    ensures key == m.section ==>
      FindMatcher(Assign(ms, m), key).Some? && Assign(ms, m)[FindMatcher(Assign(ms, m), key).value] == m
    ensures key != m.section ==>
      (FindMatcher(Assign(ms, m), key).Some? <==> FindMatcher(ms, key).Some?)
    ensures key != m.section && FindMatcher(ms, key).Some? ==>
      Assign(ms, m)[FindMatcher(Assign(ms, m), key).value] == ms[FindMatcher(ms, key).value]
  {
    var r := Assign(ms, m);
    if key == m.section {
      var i :| 0 <= i < |r| && r[i] == m;
      FindUnique(r, key, i);
    } else {
      match FindMatcher(ms, key)
      case Some(j) =>
        FindUnique(r, key, j);
      case None =>
    }
  }

  function MatcherFor(s: OutputSection): Matcher {
    Matcher(s.key, [s.key] + s.aliases)
  }

  /** The last section carrying `key`: the one whose patterns the map keeps. */
  function LastWithKey(sections: seq<OutputSection>, key: string): (r: Option<nat>)
    ensures r.Some? ==> r.value < |sections| && sections[r.value].key == key
    ensures r.Some? ==> forall j :: r.value < j < |sections| ==> sections[j].key != key
    ensures r.None? ==> forall j :: 0 <= j < |sections| ==> sections[j].key != key
  {
    if |sections| == 0 then None
    else if sections[|sections| - 1].key == key then Some(|sections| - 1)
    else LastWithKey(sections[..|sections| - 1], key)
  }

  /**
   * buildSectionMatchers: one matcher per distinct key, holding [key] + aliases
   * of the last section with that key.
   */
  function BuildSectionMatchers(sections: seq<OutputSection>): (ms: seq<Matcher>)
    ensures UniqueSections(ms)
    ensures |ms| <= |sections|
    decreases |sections|
  {
    if |sections| == 0 then []
    else Assign(BuildSectionMatchers(sections[..|sections| - 1]), MatcherFor(sections[|sections| - 1]))
  }

  /**
   * A key has a matcher exactly when some section carries it, and the matcher
   * holds the patterns of the last such section (later sections overwrite).
   */
  lemma {:induction false} BuildSectionMatchersLookup(sections: seq<OutputSection>, key: string)
    ensures FindMatcher(BuildSectionMatchers(sections), key).Some? <==> LastWithKey(sections, key).Some?
    ensures FindMatcher(BuildSectionMatchers(sections), key).Some? ==>
      BuildSectionMatchers(sections)[FindMatcher(BuildSectionMatchers(sections), key).value]
        == MatcherFor(sections[LastWithKey(sections, key).value])
    decreases |sections|
  {
    if |sections| > 0 {
      var prefix := sections[..|sections| - 1];
      BuildSectionMatchersLookup(prefix, key);
      AssignLookup(BuildSectionMatchers(prefix), MatcherFor(sections[|sections| - 1]), key);
    }
  }

  /** With distinct keys, the matchers are the sections' own, in the same order. */
  lemma {:induction false} MatchersOfDistinctKeys(sections: seq<OutputSection>)
    requires forall i, j :: 0 <= i < j < |sections| ==> sections[i].key != sections[j].key
    ensures |BuildSectionMatchers(sections)| == |sections|
    ensures forall i :: 0 <= i < |sections| ==> BuildSectionMatchers(sections)[i] == MatcherFor(sections[i])
    decreases |sections|
  {
    if |sections| > 0 {
      var prefix := sections[..|sections| - 1];
      var last := sections[|sections| - 1];
      MatchersOfDistinctKeys(prefix);
      BuildSectionMatchersLookup(prefix, last.key);
      assert LastWithKey(prefix, last.key).None?;
      assert BuildSectionMatchers(sections) == BuildSectionMatchers(prefix) + [MatcherFor(last)];
    }
  }

  // ---------------------------------------------------------------------------
  // Choosing the section for a key
  // ---------------------------------------------------------------------------

  function Max(a: int, b: int): int {
    if a >= b then a else b
  }

  /** The largest of the scores, or 0 when there are none: the loops start from a best score of 0. */
  function SeqMax(s: seq<int>): (m: int)
    ensures m >= 0
    ensures forall i :: 0 <= i < |s| ==> s[i] <= m
    ensures m > 0 ==> m in s
  {
    if |s| == 0 then 0 else Max(s[0], SeqMax(s[1..]))
  }

  /** The first index at which `m` occurs in `scores`. */
  function FirstAt(scores: seq<int>, m: int): (i: nat)
    requires m in scores
    ensures i < |scores| && scores[i] == m
    ensures forall j :: 0 <= j < i ==> scores[j] != m
  {
    if scores[0] == m then 0 else 1 + FirstAt(scores[1..], m)
  }

  /** The key's score against each pattern. */
  function PatternScores(key: string, patterns: seq<string>): (s: seq<int>)
    ensures |s| == |patterns|
    ensures forall i :: 0 <= i < |patterns| ==> s[i] == MatchScore(key, patterns[i])
  {
    seq(|patterns|, i requires 0 <= i < |patterns| => MatchScore(key, patterns[i]))
  }

  /** The best score of the key against any of the patterns (0 if none). */
  function PatternsMax(key: string, patterns: seq<string>): int {
    SeqMax(PatternScores(key, patterns))
  }

  /** Each matcher's best score against the key. */
  function Scores(key: string, ms: seq<Matcher>): (s: seq<int>)
    ensures |s| == |ms|
    ensures forall i :: 0 <= i < |ms| ==> s[i] == PatternsMax(key, ms[i].patterns)
  {
    seq(|ms|, i requires 0 <= i < |ms| => PatternsMax(key, ms[i].patterns))
  }

  /** The best score of the key against any matcher. */
  function MatchersMax(key: string, ms: seq<Matcher>): int {
    SeqMax(Scores(key, ms))
  }

  lemma PatternsMaxCons(key: string, patterns: seq<string>)
    requires |patterns| > 0
    ensures PatternsMax(key, patterns) == Max(MatchScore(key, patterns[0]), PatternsMax(key, patterns[1..]))
  {
    assert PatternScores(key, patterns)[1..] == PatternScores(key, patterns[1..]);
  }

  lemma MatchersMaxCons(key: string, ms: seq<Matcher>)
    requires |ms| > 0
    ensures MatchersMax(key, ms) == Max(PatternsMax(key, ms[0].patterns), MatchersMax(key, ms[1..]))
    ensures Scores(key, ms)[1..] == Scores(key, ms[1..])
  {
    assert Scores(key, ms)[1..] == Scores(key, ms[1..]);
  }

  /** The index of the first matcher reaching the maximum score. */
  function FirstBest(key: string, ms: seq<Matcher>): (i: nat)
    requires MatchersMax(key, ms) > 0
    ensures i < |ms| && PatternsMax(key, ms[i].patterns) == MatchersMax(key, ms)
    ensures forall j :: 0 <= j < i ==> PatternsMax(key, ms[j].patterns) < MatchersMax(key, ms)
  {
    FirstAt(Scores(key, ms), MatchersMax(key, ms))
  }

  /** The inner loop of matchSection: a strictly better score replaces the best. */
  function ScanPatterns(key: string, section: string, patterns: seq<string>, best: string, max: int): (string, int)
  {
    if |patterns| == 0 then (best, max)
    else
      var score := MatchScore(key, patterns[0]);
      if score > max then ScanPatterns(key, section, patterns[1..], section, score)
      else ScanPatterns(key, section, patterns[1..], best, max)
  }

  /** The outer loop of matchSection, over the matchers in iteration order. */
  function ScanMatchers(key: string, ms: seq<Matcher>, best: string, max: int): (string, int)
  {
    if |ms| == 0 then (best, max)
    else
      var (b, m) := ScanPatterns(key, ms[0].section, ms[0].patterns, best, max);
      ScanMatchers(key, ms[1..], b, m)
  }

  lemma {:induction false} ScanPatternsSpec(key: string, section: string, patterns: seq<string>, best: string, max: int)
    requires max >= 0
    ensures ScanPatterns(key, section, patterns, best, max)
         == if PatternsMax(key, patterns) > max then (section, PatternsMax(key, patterns)) else (best, max)
    decreases |patterns|
  {
    if |patterns| > 0 {
      PatternsMaxCons(key, patterns);
      var score := MatchScore(key, patterns[0]);
      if score > max {
        ScanPatternsSpec(key, section, patterns[1..], section, score);
      } else {
        ScanPatternsSpec(key, section, patterns[1..], best, max);
      }
    }
  }

  /**
   * The scan keeps the first matcher reaching the overall maximum, provided that
   * maximum beats the starting score.
   */
  lemma {:induction false} ScanMatchersSpec(key: string, ms: seq<Matcher>, best: string, max: int)
    requires max >= 0
    ensures ScanMatchers(key, ms, best, max)
         == if MatchersMax(key, ms) > max
            then (ms[FirstBest(key, ms)].section, MatchersMax(key, ms))
            else (best, max)
    decreases |ms|
  {
    if |ms| > 0 {
      MatchersMaxCons(key, ms);
      ScanPatternsSpec(key, ms[0].section, ms[0].patterns, best, max);
      var (b, m) := ScanPatterns(key, ms[0].section, ms[0].patterns, best, max);
      ScanMatchersSpec(key, ms[1..], b, m);
      if MatchersMax(key, ms[1..]) > 0 && PatternsMax(key, ms[0].patterns) < MatchersMax(key, ms[1..]) {
        assert FirstBest(key, ms) == 1 + FirstBest(key, ms[1..]);
      }
    }
  }

  /** Some pattern fuzzy-matches the key under the older matcher. */
  predicate AnyFuzzy(key: string, patterns: seq<string>) {
    exists p :: p in patterns && OldFuzzyMatch(key, p)
  }

  /** The older resolution: the first matcher with any fuzzy-matching pattern. */
  function FirstFuzzyMatcher(key: string, ms: seq<Matcher>): (r: Option<nat>)
    ensures r.Some? ==> r.value < |ms| && AnyFuzzy(key, ms[r.value].patterns)
    ensures r.Some? ==> forall j :: 0 <= j < r.value ==> !AnyFuzzy(key, ms[j].patterns)
    ensures r.None? <==> forall j :: 0 <= j < |ms| ==> !AnyFuzzy(key, ms[j].patterns)
  {
    if |ms| == 0 then None
    else if AnyFuzzy(key, ms[0].patterns) then Some(0)
    else match FirstFuzzyMatcher(key, ms[1..])
      case Some(i) => Some(i + 1)
      case None => None
  }

  // ---------------------------------------------------------------------------
  // Recognising a header line
  // ---------------------------------------------------------------------------

  /** The first separator (in list order) whose first occurrence is past index 0. */
  function FirstSeparator(line: string, seps: seq<string>): (r: Option<nat>)
    ensures r.Some? ==> r.value < |seps| && IndexOf(line, seps[r.value]) > 0
    ensures r.Some? ==> forall j :: 0 <= j < r.value ==> IndexOf(line, seps[j]) <= 0
    ensures r.None? <==> forall j :: 0 <= j < |seps| ==> IndexOf(line, seps[j]) <= 0
  {
    if |seps| == 0 then None
    else if IndexOf(line, seps[0]) > 0 then Some(0)
    else match FirstSeparator(line, seps[1..])
      case Some(i) => Some(i + 1)
      case None => None
  }

  /** The section a header key resolves to: a schema key, or the key itself. */
  function Resolve(strategy: Strategy, key: string, ms: seq<Matcher>): string {
    match strategy
    case BestScore =>
      var (best, _) := ScanMatchers(key, ms, "", 0);
      if best != "" then best else key
    case FirstFuzzy =>
      match FirstFuzzyMatcher(key, ms)
      case Some(i) => ms[i].section
      case None => key
  }

  /**
   * BestScore resolution: a key scoring 0 everywhere is kept verbatim;
   * otherwise the first matcher reaching the maximum wins (unless its key is "").
   */
  lemma ResolveBestScore(key: string, ms: seq<Matcher>)
    ensures MatchersMax(key, ms) == 0 ==> Resolve(BestScore, key, ms) == key
    ensures MatchersMax(key, ms) > 0 ==>
      var w := ms[FirstBest(key, ms)].section;
      Resolve(BestScore, key, ms) == if w != "" then w else key
  {
    ScanMatchersSpec(key, ms, "", 0);
  }

  /** A positive best score over some patterns is exactly a fuzzy match with one of them. */
  lemma {:induction false} PatternsMaxPositive(key: string, patterns: seq<string>)
    ensures PatternsMax(key, patterns) > 0 <==> AnyFuzzy(key, patterns)
    decreases |patterns|
  {
    if |patterns| > 0 {
      PatternsMaxCons(key, patterns);
      PatternsMaxPositive(key, patterns[1..]);
      FuzzyMatchersAgree(key, patterns[0]);
      assert forall p :: p in patterns <==> p == patterns[0] || p in patterns[1..];
    }
  }

  /** Both strategies see a match for the same keys, so they agree on which keys stay literal. */
  lemma {:induction false} StrategiesAgreeOnMatching(key: string, ms: seq<Matcher>)
    ensures MatchersMax(key, ms) > 0 <==> FirstFuzzyMatcher(key, ms).Some?
    decreases |ms|
  {
    if |ms| > 0 {
      MatchersMaxCons(key, ms);
      PatternsMaxPositive(key, ms[0].patterns);
      StrategiesAgreeOnMatching(key, ms[1..]);
    }
  }

  /**
   * matchSection: for the first separator found past index 0, the trimmed text
   * before it resolved to a section, and the trimmed text after it.
   */
  function MatchSection(p: StructuredParser, line: string, ms: seq<Matcher>): (r: Option<(string, string)>)
    ensures r.None? <==> forall j :: 0 <= j < |p.separators| ==> IndexOf(line, p.separators[j]) <= 0
  {
    match FirstSeparator(line, p.separators)
    case None => None
    case Some(i) =>
      var sep := p.separators[i];
      var idx := IndexOf(line, sep);
      var key := Trim(line[..idx]);
      var value := Trim(line[idx + |sep|..]);
      Some((Resolve(p.strategy, key, ms), value))
  }

  /** A header found in a trimmed, non-blank line always names a non-empty section under BestScore. */
  lemma HeaderSectionNonEmpty(line: string, ms: seq<Matcher>, seps: seq<string>)
    requires line != "" && !IsSpace(line[0])
    requires MatchSection(StructuredParser(seps, BestScore), line, ms).Some?
    ensures MatchSection(StructuredParser(seps, BestScore), line, ms).value.0 != ""
  {
    var i := FirstSeparator(line, seps).value;
    var idx := IndexOf(line, seps[i]);
    var key := Trim(line[..idx]);
    TrimEmptyIffAllSpace(line[..idx]);
    assert line[..idx][0] == line[0];
    ScanMatchersSpec(key, ms, "", 0);
  }

  // ---------------------------------------------------------------------------
  // Parse
  // ---------------------------------------------------------------------------

  /** What a reply line is once trimmed. */
  datatype LineKind = Blank | Header(section: string, value: string) | Text(text: string)

  function Classify(p: StructuredParser, ms: seq<Matcher>, line: string): LineKind {
    var t := Trim(line);
    if t == "" then Blank
    else match MatchSection(p, t, ms)
      case Some((section, value)) => Header(section, value)
      case None => Text(t)
  }

  function ClassifyAll(p: StructuredParser, ms: seq<Matcher>, lines: seq<string>): (ks: seq<LineKind>)
    ensures |ks| == |lines|
    ensures forall i :: 0 <= i < |lines| ==> ks[i] == Classify(p, ms, lines[i])
  {
    if |lines| == 0 then [] else [Classify(p, ms, lines[0])] + ClassifyAll(p, ms, lines[1..])
  }

  /** The loop state: the open section, its lines so far, and the sections already closed. */
  datatype ParseState = ParseState(current: string, content: seq<string>, sections: map<string, string>)

  const Start := ParseState("", [], map[])

  /** Closing the open section stores its trimmed, newline-joined content. */
  function Flush(st: ParseState): map<string, string> {
    if st.current != "" then st.sections[st.current := Trim(Join(st.content, "\n"))] else st.sections
  }

  function InitialContent(value: string): seq<string> {
    if value != "" then [value] else []
  }

  function Step(st: ParseState, k: LineKind): ParseState {
    match k
    case Blank => st
    case Header(section, value) => ParseState(section, InitialContent(value), Flush(st))
    case Text(t) => if st.current != "" then st.(content := st.content + [t]) else st
  }

  function Run(st: ParseState, ks: seq<LineKind>): ParseState
    decreases |ks|
  {
    if |ks| == 0 then st else Run(Step(st, ks[0]), ks[1..])
  }

  /** Parse: the sections of the reply; RawText is the reply itself. `now` stands for time.Now(). */
  function Parse(p: StructuredParser, content: string, rules: OutputRules, now: int): (r: ParsedResponse)
    ensures r.rawText == content
    ensures r.metadata == map["parse_time" := VInt(now), "parser_version" := VStr("1.0")]
  {
    var lines := SplitLines(Trim(content));
    var ms := BuildSectionMatchers(rules.sections);
    var st := Run(Start, ClassifyAll(p, ms, lines));
    ParsedResponse(content, Flush(st), map["parse_time" := VInt(now), "parser_version" := VStr("1.0")])
  }

  // ---------------------------------------------------------------------------
  // Reference definition: the reply as a list of blocks
  // ---------------------------------------------------------------------------

  /** A header with the lines that follow it up to the next header. */
  datatype Block = Block(section: string, content: seq<string>)

  /** The number of leading lines that are not headers. */
  function BodyLen(ks: seq<LineKind>): (n: nat)
    ensures n <= |ks|
    ensures forall i :: 0 <= i < n ==> !ks[i].Header?
    ensures n < |ks| ==> ks[n].Header?
  {
    if |ks| == 0 || ks[0].Header? then 0 else 1 + BodyLen(ks[1..])
  }

  /** The text of the Text lines, in order; blank lines contribute nothing. */
  function Texts(ks: seq<LineKind>): seq<string> {
    if |ks| == 0 then []
    else (if ks[0].Text? then [ks[0].text] else []) + Texts(ks[1..])
  }

  /** The blocks of a reply; text before the first header belongs to no block. */
  function Blocks(ks: seq<LineKind>): seq<Block>
    decreases |ks|
  {
    if |ks| == 0 then []
    else if ks[0].Header? then
      var body := ks[1..][..BodyLen(ks[1..])];
      [Block(ks[0].section, InitialContent(ks[0].value) + Texts(body))] + Blocks(ks[1..][BodyLen(ks[1..])..])
    else Blocks(ks[1..])
  }

  /** Store every block with a non-empty section name, later blocks overwriting earlier ones. */
  function Store(m: map<string, string>, blocks: seq<Block>): map<string, string>
    decreases |blocks|
  {
    if |blocks| == 0 then m
    else
      var b := blocks[0];
      Store(if b.section != "" then m[b.section := Trim(Join(b.content, "\n"))] else m, blocks[1..])
  }

  /** Lines that are not headers only extend the open section (if any). */
  function Extend(st: ParseState, texts: seq<string>): ParseState {
    if st.current != "" then st.(content := st.content + texts) else st
  }

  lemma {:induction false} RunBody(st: ParseState, ks: seq<LineKind>)
    requires forall i :: 0 <= i < |ks| ==> !ks[i].Header?
    ensures Run(st, ks) == Extend(st, Texts(ks))
    decreases |ks|
  {
    if |ks| > 0 {
      RunBody(Step(st, ks[0]), ks[1..]);
      if st.current != "" && ks[0].Text? {
        assert st.content + [ks[0].text] + Texts(ks[1..]) == st.content + ([ks[0].text] + Texts(ks[1..]));
      }
    }
  }

  lemma {:induction false} RunAppend(st: ParseState, a: seq<LineKind>, b: seq<LineKind>)
    ensures Run(st, a + b) == Run(Run(st, a), b)
    decreases |a|
  {
    if |a| == 0 {
      assert a + b == b;
    } else {
      assert (a + b)[1..] == a[1..] + b;
      RunAppend(Step(st, a[0]), a[1..], b);
    }
  }

  lemma {:induction false} BlocksSkipBody(ks: seq<LineKind>)
    ensures Blocks(ks) == Blocks(ks[BodyLen(ks)..])
    decreases |ks|
  {
    if |ks| > 0 && !ks[0].Header? {
      BlocksSkipBody(ks[1..]);
      assert ks[1..][BodyLen(ks[1..])..] == ks[BodyLen(ks)..];
    }
  }

  /** The parse loop, from any state, agrees with storing the reply's blocks. */
  lemma {:induction false} RunStoresBlocks(st: ParseState, ks: seq<LineKind>)
    ensures Flush(Run(st, ks)) == Store(Flush(Extend(st, Texts(ks[..BodyLen(ks)]))), Blocks(ks))
    decreases |ks|
  {
    var n := BodyLen(ks);
    var st1 := Extend(st, Texts(ks[..n]));
    assert ks == ks[..n] + ks[n..];
    RunAppend(st, ks[..n], ks[n..]);
    RunBody(st, ks[..n]);
    BlocksSkipBody(ks);
    if n < |ks| {
      var h := ks[n];
      var rest := ks[n + 1..];
      var open := ParseState(h.section, InitialContent(h.value), Flush(st1));
      assert ks[n..][1..] == rest;
      RunStoresBlocks(open, rest);
      BlocksSkipBody(rest);
    }
  }

  /** Parse's sections are exactly the blocks of the reply, stored in order. */
  lemma ParseIsStoreOfBlocks(p: StructuredParser, content: string, rules: OutputRules, now: int)
    ensures Parse(p, content, rules, now).sections
         == Store(map[], Blocks(ClassifyAll(p, BuildSectionMatchers(rules.sections), SplitLines(Trim(content)))))
  {
    var ks := ClassifyAll(p, BuildSectionMatchers(rules.sections), SplitLines(Trim(content)));
    RunStoresBlocks(Start, ks);
  }

  /** Every stored key is the section of some block; the value is that of the last such block. */
  lemma {:induction false} StoreKeys(m: map<string, string>, blocks: seq<Block>, key: string)
    ensures key in Store(m, blocks) <==> key in m || exists i :: 0 <= i < |blocks| && blocks[i].section == key && key != ""
    decreases |blocks|
  {
    if |blocks| > 0 {
      var b := blocks[0];
      StoreKeys(if b.section != "" then m[b.section := Trim(Join(b.content, "\n"))] else m, blocks[1..], key);
      if exists i :: 0 <= i < |blocks| - 1 && blocks[1..][i].section == key && key != "" {
        var i :| 0 <= i < |blocks| - 1 && blocks[1..][i].section == key && key != "";
        assert blocks[i + 1].section == key;
      }
      if exists i :: 0 <= i < |blocks| && blocks[i].section == key && key != "" {
        var i :| 0 <= i < |blocks| && blocks[i].section == key && key != "";
        if i > 0 {
          assert blocks[1..][i - 1].section == key;
        }
      }
    }
  }

  /** A later block for the same section overwrites the earlier value: the last block wins. */
  lemma {:induction false} StoreLastWins(m: map<string, string>, blocks: seq<Block>, i: nat)
    requires i < |blocks| && blocks[i].section != ""
    requires forall j :: i < j < |blocks| ==> blocks[j].section != blocks[i].section
    ensures blocks[i].section in Store(m, blocks)
    ensures Store(m, blocks)[blocks[i].section] == Trim(Join(blocks[i].content, "\n"))
    decreases |blocks|
  {
    var b := blocks[0];
    var m1 := if b.section != "" then m[b.section := Trim(Join(b.content, "\n"))] else m;
    if i == 0 {
      StoreUntouched(m1, blocks[1..], b.section);
    } else {
      StoreLastWins(m1, blocks[1..], i - 1);
    }
  }

  /** Blocks for other sections leave a stored value alone. */
  lemma {:induction false} StoreUntouched(m: map<string, string>, blocks: seq<Block>, key: string)
    requires key in m
    requires forall j :: 0 <= j < |blocks| ==> blocks[j].section != key
    ensures key in Store(m, blocks) && Store(m, blocks)[key] == m[key]
    decreases |blocks|
  {
    if |blocks| > 0 {
      var b := blocks[0];
      StoreUntouched(if b.section != "" then m[b.section := Trim(Join(b.content, "\n"))] else m, blocks[1..], key);
    }
  }

  /** Text before the first header is dropped: it changes nothing. */
  lemma {:induction false} LeadingTextIgnored(pre: seq<LineKind>, ks: seq<LineKind>)
    requires forall i :: 0 <= i < |pre| ==> !pre[i].Header?
    ensures Blocks(pre + ks) == Blocks(ks)
    decreases |pre|
  {
    if |pre| == 0 {
      assert pre + ks == ks;
    } else {
      assert (pre + ks)[1..] == pre[1..] + ks;
      LeadingTextIgnored(pre[1..], ks);
    }
  }
}

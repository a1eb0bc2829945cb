/**
 * The résumé scorer of the analysis endpoint: five per-aspect analyzers
 * (keywords, structure, experience, education, skills), the content
 * analyzer whose result is computed and then dropped, the weighted overall
 * score and the three rule tables that turn scores into feedback lines.
 *
 * Every ratio the scorer rounds is a ratio of integers, so scores are kept
 * as exact rationals (numerator over denominator) and rounded with PHP's
 * half-away-from-zero `round`.
 */
module ResumeScorer {
  import opened Outcomes
  import opened Strings
  import opened PhpRuntime

  datatype Weights = Weights(keywords: int, structure: int, experience: int, education: int, skills: int)

  datatype Criteria = Criteria(
    requiredKeywords: seq<string>,
    preferredKeywords: seq<string>,
    technicalKeywords: seq<string>,
    scoringWeights: Weights)

  datatype KeywordAnalysis = KeywordAnalysis(score: int, found: nat, missing: seq<string>)

  /** The five category scores handed to the feedback generators. */
  datatype Scores = Scores(keywords: int, structure: int, experience: int, education: int, skills: int)

  datatype Analysis = Analysis(
    overallScore: int,
    strengths: seq<string>,
    improvements: seq<string>,
    suggestions: seq<string>,
    keywords: KeywordAnalysis)

  function Min(a: int, b: int): int { if a <= b then a else b }

  predicate InRange(x: int) { 0 <= x <= 100 }

  predicate ValidWeights(w: Weights) {
    w.keywords >= 0 && w.structure >= 0 && w.experience >= 0 && w.education >= 0 && w.skills >= 0
    && w.keywords + w.structure + w.experience + w.education + w.skills == 100
  }

  // ---------------------------------------------------------------- criteria

  /** The built-in criteria used when no criteria file is available. */
  function DefaultCriteria(): (c: Criteria)
    ensures |c.requiredKeywords| == 5 && |c.preferredKeywords| == 5 && |c.technicalKeywords| == 5
    ensures ValidWeights(c.scoringWeights)
  {
    Criteria(
      ["experience", "skills", "education", "project", "responsibility"],
      ["achievement", "leadership", "team", "development", "management"],
      ["software", "technology", "programming", "system", "database"],
      Weights(30, 25, 20, 15, 10))
  }

  /**
   * `loadAnalysisCriteria`: `stored` is the decoded criteria file, `None`
   * when the file is absent or does not decode to an object.  The role's
   * entry is used when there is one, otherwise the defaults.
   */
  function LoadCriteria(stored: Option<map<string, Criteria>>, targetRole: string): (c: Criteria)
    ensures stored.Some? && targetRole in stored.value ==> c == stored.value[targetRole]
    ensures !(stored.Some? && targetRole in stored.value) ==> c == DefaultCriteria()
  {
    match stored
    case Some(m) => if targetRole in m then m[targetRole] else DefaultCriteria()
    case None => DefaultCriteria()
  }

  /** Required, then preferred, then technical keywords (`array_merge`). */
  function AllKeywords(c: Criteria): seq<string> {
    c.requiredKeywords + c.preferredKeywords + c.technicalKeywords
  }

  // ------------------------------------------------------- counting matches

  /** Number of words occurring as substrings of `text`. */
  function HitCount(text: string, words: seq<string>): (n: nat)
    ensures n <= |words|
    decreases |words|
  {
    if |words| == 0 then 0
    else HitCount(text, words[..|words| - 1]) + (if Contains(text, words[|words| - 1]) then 1 else 0)
  }

  function LowerAll(words: seq<string>): (r: seq<string>)
    ensures |r| == |words|
  {
    seq(|words|, i requires 0 <= i < |words| => StrToLower(words[i]))
  }

  /** The keywords whose lower-case form does not occur, in input order. */
  function Missing(text: string, keywords: seq<string>): (r: seq<string>)
    ensures |r| <= |keywords|
    decreases |keywords|
  {
    if |keywords| == 0 then []
    else
      var last := keywords[|keywords| - 1];
      Missing(text, keywords[..|keywords| - 1]) + (if Contains(text, StrToLower(last)) then [] else [last])
  }

  /** Every keyword is either found or missing, never both. */
  lemma {:induction false} FoundPlusMissing(text: string, keywords: seq<string>)
    ensures HitCount(text, LowerAll(keywords)) + |Missing(text, keywords)| == |keywords|
    decreases |keywords|
  {
    if |keywords| > 0 {
      var init := keywords[..|keywords| - 1];
      FoundPlusMissing(text, init);
      assert LowerAll(keywords)[..|keywords| - 1] == LowerAll(init);
    }
  }

  /** A missing keyword is one of the keywords and does not occur in the text. */
  lemma {:induction false} MissingAreUnmatched(text: string, keywords: seq<string>)
    ensures forall m :: m in Missing(text, keywords) ==> m in keywords && !Contains(text, StrToLower(m))
    decreases |keywords|
  {
    if |keywords| > 0 {
      var init := keywords[..|keywords| - 1];
      MissingAreUnmatched(text, init);
      assert forall m :: m in init ==> m in keywords;
    }
  }

  /** Appending text never loses a hit. */
  lemma {:induction false} HitCountAppend(text: string, more: string, words: seq<string>)
    ensures HitCount(text, words) <= HitCount(text + more, words)
    decreases |words|
  {
    if |words| > 0 {
      HitCountAppend(text, more, words[..|words| - 1]);
      if Contains(text, words[|words| - 1]) {
        ContainsAppend(text, more, words[|words| - 1]);
      }
    }
  }

  /** Some word of the group occurs in `text`. */
  predicate AnyContained(text: string, words: seq<string>) {
    exists j :: 0 <= j < |words| && Contains(text, words[j])
  }

  /** Number of groups with at least one occurring word; a group counts once. */
  function GroupsFound(text: string, groups: seq<seq<string>>): (n: nat)
    ensures n <= |groups|
    decreases |groups|
  {
    if |groups| == 0 then 0
    else GroupsFound(text, groups[..|groups| - 1]) + (if AnyContained(text, groups[|groups| - 1]) then 1 else 0)
  }

  // ----------------------------------------------------- regular expressions

  predicate IsRegexWordChar(c: char) { IsAsciiLetter(c) || IsDigit(c) || c == '_' }

  /** PCRE `\s` outside UTF mode. */
  predicate IsPcreSpace(c: char) {
    c == ' ' || c == '\t' || c == '\n' || c == '\U{000B}' || c == '\U{000C}' || c == '\r'
  }

  /** `\d+%` matches somewhere: a digit immediately followed by `%`. */
  predicate HasPercentFigure(s: string)
    decreases |s|
  {
    |s| >= 2 && ((IsDigit(s[0]) && s[1] == '%') || HasPercentFigure(s[1..]))
  }

  /** `\$\d+` matches somewhere: a `$` immediately followed by a digit. */
  predicate HasDollarFigure(s: string)
    decreases |s|
  {
    |s| >= 2 && ((s[0] == '$' && IsDigit(s[1])) || HasDollarFigure(s[1..]))
  }

  /** `20\d{2}` matches somewhere. */
  predicate HasYear(s: string)
    decreases |s|
  {
    |s| >= 4 && ((s[0] == '2' && s[1] == '0' && IsDigit(s[2]) && IsDigit(s[3])) || HasYear(s[1..]))
  }

  /** `\b` at position `i`. */
  predicate BoundaryAt(s: string, i: nat)
    requires i <= |s|
  {
    (i > 0 && IsRegexWordChar(s[i - 1])) != (i < |s| && IsRegexWordChar(s[i]))
  }

  function LowerRunEnd(s: string, j: nat): (e: nat)
    requires j <= |s|
    ensures j <= e <= |s|
    decreases |s| - j
  {
    if j < |s| && IsAsciiLower(s[j]) then LowerRunEnd(s, j + 1) else j
  }

  function SpaceRunEnd(s: string, j: nat): (e: nat)
    requires j <= |s|
    ensures j <= e <= |s|
    decreases |s| - j
  {
    if j < |s| && IsPcreSpace(s[j]) then SpaceRunEnd(s, j + 1) else j
  }

  /** End of `[A-Z][a-z]+` at `i` (the lower-case run is greedy). */
  function CapWordEnd(s: string, i: nat): (r: Option<nat>)
    requires i <= |s|
    ensures r.Some? ==> i + 2 <= r.value <= |s| && IsAsciiUpper(s[i])
  {
    if i + 1 < |s| && IsAsciiUpper(s[i]) && IsAsciiLower(s[i + 1]) then Some(LowerRunEnd(s, i + 2)) else None
  }

  /**
   * The end chosen for `(?:\s+[A-Z][a-z]+)*\b` after a word ending at `e`:
   * the greedy group takes as many words as it can and backtracks to the
   * last word end that sits on a word boundary.
   */
  function ChainEnd(s: string, e: nat, best: Option<nat>): (r: Option<nat>)
    requires e <= |s|
    requires best.Some? ==> best.value <= e
    ensures r.Some? ==> r.value <= |s|
    ensures r.Some? ==> r == best || e <= r.value
    decreases |s| - e
  {
    var best' := if BoundaryAt(s, e) then Some(e) else best;
    var p := SpaceRunEnd(s, e);
    if p > e then
      match CapWordEnd(s, p)
      case Some(e2) => ChainEnd(s, e2, best')
      case None => best'
    else best'
  }

  /**
   * Number of matches `preg_match_all` reports for
   * `\b[A-Z][a-z]+(?:\s+[A-Z][a-z]+)*\b`, scanning from `i`.
   */
  function CapitalisedNameCount(s: string, i: nat): nat
    requires i <= |s|
    decreases |s| - i
  {
    if i == |s| then 0
    else
      var first := if BoundaryAt(s, i) then CapWordEnd(s, i) else None;
      match first
      case Some(e0) =>
        (match ChainEnd(s, e0, None)
         case Some(m) => 1 + CapitalisedNameCount(s, m)
         case None => CapitalisedNameCount(s, i + 1))
      case None => CapitalisedNameCount(s, i + 1)
  }

  /** Text without an upper-case ASCII letter has no capitalised names. */
  lemma {:induction false} NoUpperNoNames(s: string, i: nat)
    requires i <= |s|
    requires forall k :: 0 <= k < |s| ==> !IsAsciiUpper(s[k])
    ensures CapitalisedNameCount(s, i) == 0
    decreases |s| - i
  {
    if i < |s| {
      NoUpperNoNames(s, i + 1);
    }
  }

  // ------------------------------------------------------------ score rules

  predicate InLengthBand(wordCount: int) { 200 <= wordCount <= 800 }

  /** round(min(100, found / total * 100)). */
  function KeywordScore(found: nat, total: nat): int
    requires total > 0
  {
    RoundRatio(Min(100 * found, 100 * total), total)
  }

  /** round(found / 5 * 100), plus 20 capped at 100 inside the length band. */
  function StructureScore(found: nat, wordCount: int): int {
    RoundRatio(if InLengthBand(wordCount) then Min(500, 100 * found + 100) else 100 * found, 5)
  }

  /** Length points plus capped action-word points plus the two figure bonuses, capped at 100. */
  function ContentScore(wordCount: int, actionWords: nat, percent: bool, dollar: bool): int {
    var length := if InLengthBand(wordCount) then 40 else if wordCount >= 100 then 20 else 0;
    Min(100, length + Min(30, 5 * actionWords) + (if percent then 15 else 0) + (if dollar then 15 else 0))
  }

  /** round(min(100, found / 8 * 100)), plus 5 per capitalised name, capped at 100. */
  function ExperienceScore(found: nat, names: nat): int {
    var base := Min(800, 100 * found);
    RoundRatio(if names > 0 then Min(800, base + 40 * names) else base, 8)
  }

  /** round(found / 9 * 100), plus 20 capped at 100 when a 20xx year occurs. */
  function EducationScore(found: nat, year: bool): int {
    RoundRatio(if year then Min(900, 100 * found + 180) else 100 * found, 9)
  }

  /** round(found / total * 100), plus 25 capped at 100 when a skills section occurs. */
  function SkillsScore(found: nat, total: nat, section: bool): int
    requires total > 0
  {
    RoundRatio(if section then Min(100 * total, 100 * found + 25 * total) else 100 * found, total)
  }

  /** round(sum of score * weight / 100) over the five categories. */
  function OverallScore(s: Scores, w: Weights): int {
    RoundRatio(
      s.keywords * w.keywords + s.structure * w.structure + s.experience * w.experience
      + s.education * w.education + s.skills * w.skills, 100)
  }

  /** With at most `total` hits every category score lies in [0, 100]. */
  lemma CategoryScoresInRange(found: nat, total: nat, wordCount: int, names: nat, flag: bool)
    requires found <= total
    ensures total > 0 ==> InRange(KeywordScore(found, total))
    ensures total > 0 ==> InRange(SkillsScore(found, total, flag))
    ensures found <= 5 ==> InRange(StructureScore(found, wordCount))
    ensures found <= 8 ==> InRange(ExperienceScore(found, names))
    ensures found <= 9 ==> InRange(EducationScore(found, flag))
  {
    if total > 0 {
      RoundRatioBounds(Min(100 * found, 100 * total), total, 100);
      RoundRatioBounds(if flag then Min(100 * total, 100 * found + 25 * total) else 100 * found, total, 100);
    }
    if found <= 5 {
      RoundRatioBounds(if InLengthBand(wordCount) then Min(500, 100 * found + 100) else 100 * found, 5, 100);
    }
    if found <= 8 {
      var base := Min(800, 100 * found);
      RoundRatioBounds(if names > 0 then Min(800, base + 40 * names) else base, 8, 100);
    }
    if found <= 9 {
      RoundRatioBounds(if flag then Min(900, 100 * found + 180) else 100 * found, 9, 100);
    }
  }

  /** The structure score is 20 per section found, with the length bonus, a multiple of 20 in [0, 100]. */
  lemma StructureScoreSteps(found: nat, wordCount: int)
    requires found <= 5
    ensures StructureScore(found, wordCount)
         == if InLengthBand(wordCount) then Min(100, 20 * found + 20) else 20 * found
    ensures StructureScore(found, wordCount) % 20 == 0 && InRange(StructureScore(found, wordCount))
  {
    if InLengthBand(wordCount) {
      RoundRatioExact(Min(100, 20 * found + 20), 5);
    } else {
      RoundRatioExact(20 * found, 5);
    }
  }

  /** The content score is in [0, 100]. */
  lemma ContentScoreInRange(wordCount: int, actionWords: nat, percent: bool, dollar: bool)
    ensures InRange(ContentScore(wordCount, actionWords, percent, dollar))
  {
  }

  /** Without capitalised names the experience score is round(found / 8 * 100). */
  lemma ExperienceScoreWithoutNames(found: nat)
    requires found <= 8
    ensures ExperienceScore(found, 0) == RoundRatio(100 * found, 8)
  {
  }

  /** Non-negative weights summing to 100 keep the overall score in [0, 100]. */
  lemma OverallScoreInRange(s: Scores, w: Weights)
    requires ValidWeights(w)
    requires InRange(s.keywords) && InRange(s.structure) && InRange(s.experience)
    requires InRange(s.education) && InRange(s.skills)
    ensures InRange(OverallScore(s, w))
  {
    var total := s.keywords * w.keywords + s.structure * w.structure + s.experience * w.experience
      + s.education * w.education + s.skills * w.skills;
    WeightedTermBounds(s.keywords, w.keywords);
    WeightedTermBounds(s.structure, w.structure);
    WeightedTermBounds(s.experience, w.experience);
    WeightedTermBounds(s.education, w.education);
    WeightedTermBounds(s.skills, w.skills);
    RoundRatioBounds(total, 100, 100);
  }

  lemma WeightedTermBounds(score: int, weight: int)
    requires InRange(score) && weight >= 0
    ensures 0 <= score * weight <= 100 * weight
  {
    if score < 100 {
      MulStep(score, 100, weight);
    }
  }

  /** Raising one category score never lowers the overall score. */
  lemma OverallScoreMonotonic(s: Scores, t: Scores, w: Weights)
    requires ValidWeights(w)
    requires s.keywords <= t.keywords && s.structure <= t.structure && s.experience <= t.experience
    requires s.education <= t.education && s.skills <= t.skills
    ensures OverallScore(s, w) <= OverallScore(t, w)
  {
    ScaleLe(s.keywords, t.keywords, w.keywords);
    ScaleLe(s.structure, t.structure, w.structure);
    ScaleLe(s.experience, t.experience, w.experience);
    ScaleLe(s.education, t.education, w.education);
    ScaleLe(s.skills, t.skills, w.skills);
    RoundRatioMonotonic(
      s.keywords * w.keywords + s.structure * w.structure + s.experience * w.experience
      + s.education * w.education + s.skills * w.skills,
      t.keywords * w.keywords + t.structure * w.structure + t.experience * w.experience
      + t.education * w.education + t.skills * w.skills, 100);
  }

  lemma ScaleLe(x: int, y: int, z: int)
    requires x <= y && z >= 0
    ensures x * z <= y * z
  {
    if x < y {
      MulStep(x, y, z);
    }
  }

  /** The default weights are non-negative and sum to 100. */
  lemma DefaultWeightsValid()
    ensures ValidWeights(DefaultCriteria().scoringWeights)
    ensures DefaultCriteria().scoringWeights == Weights(30, 25, 20, 15, 10)
  {
  }

  // --------------------------------------------------------------- analyzers

  function StructureSections(): seq<seq<string>> {
    [ ["experience", "work history", "employment", "career"],
      ["education", "academic", "degree", "university", "college"],
      ["skills", "competencies", "abilities", "proficiencies"],
      ["email", "phone", "address", "contact"],
      ["summary", "objective", "profile", "about"] ]
  }

  function ActionWords(): seq<string> {
    ["achieved", "developed", "managed", "led", "created", "implemented", "improved", "increased", "reduced", "designed"]
  }

  function ExperienceIndicators(): seq<string> {
    ["years", "months", "experience", "worked", "position", "role", "job", "company"]
  }

  function EducationKeywords(): seq<string> {
    ["degree", "bachelor", "master", "phd", "diploma", "certificate", "university", "college", "school"]
  }

  /** Counts, in one pass, the words of `words` that occur in `text`. */
  method CountHits(text: string, words: seq<string>) returns (n: nat)
    ensures n == HitCount(text, words)
  {
    n := 0;
    for i := 0 to |words|
      invariant n == HitCount(text, words[..i])
    {
      assert words[..i + 1][..i] == words[..i];
      if Contains(text, words[i]) {
        n := n + 1;
      }
    }
    assert words[..|words|] == words;
  }

  /** `analyzeKeywords`. */
  method AnalyzeKeywords(text: string, criteria: Criteria) returns (k: KeywordAnalysis)
    requires |AllKeywords(criteria)| > 0
    ensures k.found == HitCount(text, LowerAll(AllKeywords(criteria)))
    ensures k.missing == Take(Missing(text, AllKeywords(criteria)), 10)
    ensures k.score == KeywordScore(k.found, |AllKeywords(criteria)|)
  {
    var all := AllKeywords(criteria);
    var found, missing := CountKeywords(text, all);
    k := KeywordAnalysis(KeywordScore(found, |all|), found, Take(missing, 10));
  }

  /** The loop of `analyzeKeywords`: count the keywords that occur, collect those that do not. */
  method CountKeywords(text: string, all: seq<string>) returns (found: nat, missing: seq<string>)
    ensures found == HitCount(text, LowerAll(all))
    ensures missing == Missing(text, all)
  {
    ghost var lower := LowerAll(all);
    found := 0;
    missing := [];
    for i := 0 to |all|
      invariant found == HitCount(text, lower[..i])
      invariant missing == Missing(text, all[..i])
    {
      KeywordStep(text, all, i);
      if Contains(text, StrToLower(all[i])) {
        found := found + 1;
      } else {
        missing := missing + [all[i]];
      }
    }
    assert lower[..|all|] == lower;
    assert all[..|all|] == all;
  }

  /** One more keyword: counted when its lower-case form occurs, listed as missing otherwise. */
  lemma KeywordStep(text: string, all: seq<string>, i: nat)
    requires i < |all|
    ensures HitCount(text, LowerAll(all)[..i + 1])
      == HitCount(text, LowerAll(all)[..i]) + (if Contains(text, StrToLower(all[i])) then 1 else 0)
    ensures Missing(text, all[..i + 1])
      == Missing(text, all[..i]) + (if Contains(text, StrToLower(all[i])) then [] else [all[i]])
  {
    var lower := LowerAll(all);
    assert lower[..i + 1][..i] == lower[..i];
    assert all[..i + 1][..i] == all[..i];
  }

  /** `analyzeStructure`: one point per section with any keyword, then the length bonus. */
  method AnalyzeStructure(text: string) returns (score: int)
    ensures score == StructureScore(GroupsFound(text, StructureSections()), StrWordCount(text))
  {
    var sections := StructureSections();
    var found := 0;
    for s := 0 to |sections|
      invariant found == GroupsFound(text, sections[..s])
    {
      assert sections[..s + 1][..s] == sections[..s];
      var keywords := sections[s];
      var k := 0;
      while k < |keywords|
        invariant k <= |keywords|
        invariant forall j :: 0 <= j < k ==> !Contains(text, keywords[j])
      {
        if Contains(text, keywords[k]) {
          found := found + 1;
          break;
        }
        k := k + 1;
      }
    }
    assert sections[..|sections|] == sections;
    score := StructureScore(found, StrWordCount(text));
  }

  /** `analyzeContent`. */
  method AnalyzeContent(text: string, wordCount: int) returns (score: int)
    ensures score == ContentScore(wordCount, HitCount(text, ActionWords()), HasPercentFigure(text), HasDollarFigure(text))
    ensures InRange(score)
  {
    score := 0;
    if InLengthBand(wordCount) {
      score := score + 40;
    } else if wordCount >= 100 {
      score := score + 20;
    }
    var actions := CountHits(text, ActionWords());
    score := score + Min(30, actions * 5);
    if HasPercentFigure(text) {
      score := score + 15;
    }
    if HasDollarFigure(text) {
      score := score + 15;
    }
    score := Min(100, score);
  }

  /** `analyzeExperience`. */
  method AnalyzeExperience(text: string) returns (score: int)
    ensures score == ExperienceScore(HitCount(text, ExperienceIndicators()), CapitalisedNameCount(text, 0))
    ensures InRange(score)
  {
    var found := CountHits(text, ExperienceIndicators());
    var names := CapitalisedNameCount(text, 0);
    CategoryScoresInRange(found, 8, 0, names, false);
    score := ExperienceScore(found, names);
  }

  /** `analyzeEducation`. */
  method AnalyzeEducation(text: string) returns (score: int)
    ensures score == EducationScore(HitCount(text, EducationKeywords()), HasYear(text))
    ensures InRange(score)
  {
    var found := CountHits(text, EducationKeywords());
    CategoryScoresInRange(found, 9, 0, 0, HasYear(text));
    score := EducationScore(found, HasYear(text));
  }

  /** `analyzeSkills`. */
  method AnalyzeSkills(text: string, criteria: Criteria) returns (score: int)
    requires |criteria.technicalKeywords| > 0
    ensures score == SkillsScore(
      HitCount(text, LowerAll(criteria.technicalKeywords)), |criteria.technicalKeywords|,
      Contains(text, "skills") || Contains(text, "competencies"))
    ensures InRange(score)
  {
    var technical := criteria.technicalKeywords;
    var found := 0;
    for i := 0 to |technical|
      invariant found == HitCount(text, LowerAll(technical)[..i])
    {
      assert LowerAll(technical)[..i + 1][..i] == LowerAll(technical)[..i];
      if Contains(text, StrToLower(technical[i])) {
        found := found + 1;
      }
    }
    assert LowerAll(technical)[..|technical|] == LowerAll(technical);
    var section := Contains(text, "skills") || Contains(text, "competencies");
    CategoryScoresInRange(found, |technical|, 0, 0, section);
    score := SkillsScore(found, |technical|, section);
  }

  // ------------------------------------------------------- feedback lines

  const StrengthKeywords := "Good use of relevant keywords for your target role"
  const StrengthStructure := "Well-structured resume with clear sections"
  const StrengthExperience := "Strong work experience presentation"
  const StrengthEducation := "Educational background is well documented"
  const StrengthSkills := "Technical skills are effectively highlighted"
  const StrengthFigures := "Includes quantifiable achievements"
  const StrengthFallback := "Resume contains basic required information"
  const ImproveKeywords := "Include more industry-relevant keywords"
  const ImproveStructure := "Improve resume structure with clearer section headings"
  const ImproveExperience := "Provide more detailed work experience descriptions"
  const ImproveSkills := "Add more technical skills relevant to your field"
  const ImproveExpand := "Expand content - resume appears too brief"
  const ImproveCondense := "Consider condensing content for better readability"
  const SuggestTemplate := "Consider using a professional resume template"
  const SuggestExamples := "Add more specific examples of your achievements"
  const SuggestTailor := "Your resume is strong - consider tailoring it for specific job postings"
  const SuggestResearch := "Research job postings in your field to identify missing keywords"
  const MissingKeywordsPrefix := "Consider adding these missing keywords: "

  // ---------------------------------------------------------------- feedback

  /** The strength lines the scores earn, in rule order. */
  function Earned(text: string, s: Scores): seq<string> {
    When(s.keywords >= 70, StrengthKeywords)
    + When(s.structure >= 80, StrengthStructure)
    + When(s.experience >= 75, StrengthExperience)
    + When(s.education >= 70, StrengthEducation)
    + When(s.skills >= 75, StrengthSkills)
    + When(Contains(text, "%") || Contains(text, "$"), StrengthFigures)
  }

  /** The earned strength lines, or the fallback line when none is earned. */
  function Strengths(text: string, s: Scores): seq<string> {
    var earned := Earned(text, s);
    if |earned| == 0 then [StrengthFallback] else earned
  }

  /** The improvement lines whose rules fire, in rule order. */
  function Improvements(text: string, s: Scores, missing: seq<string>): seq<string> {
    When(s.keywords < 60, ImproveKeywords)
    + When(s.structure < 70, ImproveStructure)
    + When(s.experience < 60, ImproveExperience)
    + When(s.skills < 60, ImproveSkills)
    + When(|missing| > 0, MissingKeywordsLine(missing))
    + When(StrWordCount(text) < 200, ImproveExpand)
    + When(StrWordCount(text) > 800, ImproveCondense)
  }

  /** The line naming (at most) the first five missing keywords. */
  function MissingKeywordsLine(missing: seq<string>): string {
    MissingKeywordsPrefix + Join(Take(missing, 5), ", ")
  }

  const FullStackTips := [
    "Highlight both frontend and backend technologies",
    "Include specific programming languages and frameworks",
    "Mention full-stack project examples" ]
  const DataAnalystTips := [
    "Emphasize data visualization tools (Tableau, Power BI)",
    "Include statistical analysis experience",
    "Mention specific database technologies (SQL, NoSQL)" ]
  const MobileTips := [
    "Specify mobile platforms (iOS, Android, React Native)",
    "Include app store deployment experience",
    "Mention mobile development frameworks" ]

  function RoleTips(targetRole: string): seq<string> {
    if targetRole == "full-stack-developer" then FullStackTips
    else if targetRole == "data-analyst" then DataAnalystTips
    else if targetRole == "mobile-developer" then MobileTips
    else []
  }

  function ScoreBandTips(overallScore: int): seq<string> {
    (if overallScore < 60 then
      [SuggestTemplate, SuggestExamples]
     else [])
    + (if overallScore >= 80 then [SuggestTailor] else [])
  }

  function KeywordTip(found: nat): seq<string> {
    if found < 5 then [SuggestResearch] else []
  }

  /** Role tips, then score-band tips, then the keyword tip, deduplicated. */
  function Suggestions(targetRole: string, overallScore: int, found: nat): seq<string> {
    var c1 := RoleTips(targetRole);
    var c2 := if overallScore < 60 then c1 + [SuggestTemplate] + [SuggestExamples] else c1;
    var c3 := if overallScore >= 80 then c2 + [SuggestTailor] else c2;
    var c4 := if found < 5 then c3 + [SuggestResearch] else c3;
    Dedup(c4)
  }

  /** `generateStrengths`: appends the earned lines, then the fallback if none was earned. */
  method GenerateStrengths(text: string, s: Scores) returns (strengths: seq<string>)
    ensures strengths == Strengths(text, s)
  {
    strengths := [];
    if s.keywords >= 70 {
      strengths := strengths + [StrengthKeywords];
    }
    AppendWhen([], s.keywords >= 70, StrengthKeywords, strengths);
    EmptyPrefix(When(s.keywords >= 70, StrengthKeywords));
    ghost var e1 := strengths;
    if s.structure >= 80 {
      strengths := strengths + [StrengthStructure];
    }
    AppendWhen(e1, s.structure >= 80, StrengthStructure, strengths);
    ghost var e2 := strengths;
    if s.experience >= 75 {
      strengths := strengths + [StrengthExperience];
    }
    AppendWhen(e2, s.experience >= 75, StrengthExperience, strengths);
    ghost var e3 := strengths;
    if s.education >= 70 {
      strengths := strengths + [StrengthEducation];
    }
    AppendWhen(e3, s.education >= 70, StrengthEducation, strengths);
    ghost var e4 := strengths;
    if s.skills >= 75 {
      strengths := strengths + [StrengthSkills];
    }
    AppendWhen(e4, s.skills >= 75, StrengthSkills, strengths);
    ghost var e5 := strengths;
    if Contains(text, "%") || Contains(text, "$") {
      strengths := strengths + [StrengthFigures];
    }
    AppendWhen(e5, Contains(text, "%") || Contains(text, "$"), StrengthFigures, strengths);
    assert strengths == Earned(text, s);
    if |strengths| == 0 {
      strengths := strengths + [StrengthFallback];
    }
  }

  /** `generateImprovements`. */
  method GenerateImprovements(text: string, s: Scores, missing: seq<string>) returns (improvements: seq<string>)
    ensures improvements == Improvements(text, s, missing)
  {
    improvements := [];
    if s.keywords < 60 {
      improvements := improvements + [ImproveKeywords];
    }
    AppendWhen([], s.keywords < 60, ImproveKeywords, improvements);
    EmptyPrefix(When(s.keywords < 60, ImproveKeywords));
    ghost var i1 := improvements;
    if s.structure < 70 {
      improvements := improvements + [ImproveStructure];
    }
    AppendWhen(i1, s.structure < 70, ImproveStructure, improvements);
    ghost var i2 := improvements;
    if s.experience < 60 {
      improvements := improvements + [ImproveExperience];
    }
    AppendWhen(i2, s.experience < 60, ImproveExperience, improvements);
    ghost var i3 := improvements;
    if s.skills < 60 {
      improvements := improvements + [ImproveSkills];
    }
    AppendWhen(i3, s.skills < 60, ImproveSkills, improvements);
    ghost var i4 := improvements;
    if |missing| > 0 {
      improvements := improvements + [MissingKeywordsPrefix + Join(Take(missing, 5), ", ")];
    }
    AppendWhen(i4, |missing| > 0, MissingKeywordsLine(missing), improvements);
    ghost var i5 := improvements;
    if StrWordCount(text) < 200 {
      improvements := improvements + [ImproveExpand];
    }
    AppendWhen(i5, StrWordCount(text) < 200, ImproveExpand, improvements);
    ghost var i6 := improvements;
    if StrWordCount(text) > 800 {
      improvements := improvements + [ImproveCondense];
    }
    AppendWhen(i6, StrWordCount(text) > 800, ImproveCondense, improvements);
  }

  /** `generateSuggestions`. */
  method GenerateSuggestions(targetRole: string, overallScore: int, keywords: KeywordAnalysis) returns (suggestions: seq<string>)
    ensures suggestions == Suggestions(targetRole, overallScore, keywords.found)
  {
    var collected := RoleTips(targetRole);
    if overallScore < 60 {
      collected := collected + [SuggestTemplate];
      collected := collected + [SuggestExamples];
    }
    if overallScore >= 80 {
      collected := collected + [SuggestTailor];
    }
    if keywords.found < 5 {
      collected := collected + [SuggestResearch];
    }
    suggestions := Dedup(collected);
  }

  /** The strengths list is never empty, and the fallback line appears only alone. */
  lemma StrengthsNonEmpty(text: string, s: Scores)
    ensures |Strengths(text, s)| >= 1
    ensures StrengthFallback in Strengths(text, s) ==> |Strengths(text, s)| == 1
  {
    if |Earned(text, s)| > 0 {
      // the fallback line differs from every earned line in length or in its last letter
      assert |StrengthFallback| == 42 && StrengthFallback[41] == 'n';
      assert |StrengthStructure| == 42 && StrengthStructure[41] == 's';
      assert |StrengthKeywords| == 50 && |StrengthExperience| == 35 && |StrengthEducation| == 41;
      assert |StrengthSkills| == 44 && |StrengthFigures| == 34;
    }
  }

  /** Each earned strength appears exactly when its rule fires. */
  lemma StrengthRules(text: string, s: Scores)
    ensures StrengthKeywords in Strengths(text, s) <==> s.keywords >= 70
    ensures StrengthSkills in Strengths(text, s) <==> s.skills >= 75
    ensures StrengthFigures in Strengths(text, s)
        <==> Contains(text, "%") || Contains(text, "$")
  {
  }

  /** The missing-keyword line appears iff some keyword is missing, and names at most five. */
  lemma MissingKeywordsLineRule(text: string, s: Scores, missing: seq<string>)
    ensures |missing| > 0 <==> MissingKeywordsLine(missing) in Improvements(text, s, missing)
    ensures |Take(missing, 5)| <= 5
    ensures forall k :: 0 <= k < |Take(missing, 5)| ==> Contains(MissingKeywordsLine(missing), missing[k])
  {
    MissingKeywordsLineListed(text, s, missing);
    MissingKeywordsLineNames(missing);
  }

  /** Without keywords the line is the bare 40-character prefix, whose length no fixed improvement line has. */
  lemma MissingKeywordsLineListed(text: string, s: Scores, missing: seq<string>)
    ensures |missing| > 0 <==> MissingKeywordsLine(missing) in Improvements(text, s, missing)
  {
    if |missing| == 0 {
      var line := MissingKeywordsLine(missing);
      assert |line| == 40;
      assert |ImproveKeywords| == 39 && |ImproveStructure| == 54 && |ImproveExperience| == 50;
      assert |ImproveSkills| == 48 && |ImproveExpand| == 41 && |ImproveCondense| == 50;
    }
  }

  /** Each of the first five missing keywords occurs in the line. */
  lemma MissingKeywordsLineNames(missing: seq<string>)
    ensures |Take(missing, 5)| <= 5
    ensures forall k :: 0 <= k < |Take(missing, 5)| ==> Contains(MissingKeywordsLine(missing), missing[k])
  {
    var line := MissingKeywordsLine(missing);
    var listed := Take(missing, 5);
    forall k | 0 <= k < |listed|
      ensures Contains(line, missing[k])
    {
      JoinContainsParts(listed, ", ", k);
      var j := Join(listed, ", ");
      ContainsAt(j, listed[k]);
      var i: nat :| OccursAt(j, listed[k], i);
      var off := |MissingKeywordsPrefix|;
      assert line[off + i..off + i + |listed[k]|] == j[i..i + |listed[k]|];
      AtContains(line, listed[k], off + i);
    }
  }

  /** The suggestions that do not depend on the role. */
  const GeneralTips := [SuggestTemplate, SuggestExamples, SuggestTailor, SuggestResearch]

  lemma RoleTipsApart(targetRole: string)
    ensures NoDuplicates(RoleTips(targetRole))
    ensures forall x :: x in RoleTips(targetRole) ==> x !in GeneralTips
  {
    if targetRole == "full-stack-developer" {
      TipsApart(FullStackTips, [48, 53, 35]);
    } else if targetRole == "data-analyst" {
      TipsApart(DataAnalystTips, [54, 39, 51]);
    } else if targetRole == "mobile-developer" {
      TipsApart(MobileTips, [53, 39, 37]);
    } else {
      assert RoleTips(targetRole) == [];
    }
  }

  /** Three tips whose lengths differ from each other and from the general tips' lengths. */
  lemma TipsApart(tips: seq<string>, lengths: seq<int>)
    requires |tips| == 3 && lengths == [|tips[0]|, |tips[1]|, |tips[2]|]
    requires lengths[0] != lengths[1] && lengths[0] != lengths[2] && lengths[1] != lengths[2]
    requires forall n :: n in lengths ==> n != 45 && n != 47 && n != 71 && n != 64
    ensures NoDuplicates(tips) && forall x :: x in tips ==> x !in GeneralTips
  {
    assert |SuggestTemplate| == 45 && |SuggestExamples| == 47 && |SuggestTailor| == 71 && |SuggestResearch| == 64;
    forall x | x in tips ensures x !in GeneralTips {
      var i :| 0 <= i < 3 && tips[i] == x;
      assert lengths[i] in lengths;
    }
    forall i, j | 0 <= i < j < |tips| ensures tips[i] != tips[j] {
      assert lengths[i] != lengths[j];
    }
  }

  lemma ScoreBandTipsApart(overallScore: int)
    ensures NoDuplicates(ScoreBandTips(overallScore))
    ensures forall x :: x in ScoreBandTips(overallScore) ==> x in GeneralTips && x != SuggestResearch
  {
  }

  /** The collected suggestions never repeat, so `array_unique` keeps all of them in order. */
  lemma SuggestionsInOrder(targetRole: string, overallScore: int, found: nat)
    ensures Suggestions(targetRole, overallScore, found)
         == RoleTips(targetRole) + ScoreBandTips(overallScore) + KeywordTip(found)
  {
    var tips, band, tip := RoleTips(targetRole), ScoreBandTips(overallScore), KeywordTip(found);
    RoleTipsApart(targetRole);
    ScoreBandTipsApart(overallScore);
    assert forall x :: x in tip ==> x == SuggestResearch;
    NoDuplicatesAppend(tips, band);
    NoDuplicatesAppend(tips + band, tip);
    var c2 := if overallScore < 60 then tips + [SuggestTemplate] + [SuggestExamples] else tips;
    var c3 := if overallScore >= 80 then c2 + [SuggestTailor] else c2;
    assert c3 == tips + band;
    var c4 := if found < 5 then c3 + [SuggestResearch] else c3;
    assert c4 == tips + band + tip;
    DedupOfDistinct(tips + band + tip);
  }

  // ------------------------------------------------------------- aggregation

  /** The five category scores of already lower-cased text. */
  function CategoryScores(text: string, criteria: Criteria): Scores
    requires |AllKeywords(criteria)| > 0 && |criteria.technicalKeywords| > 0
  {
    Scores(
      KeywordScore(HitCount(text, LowerAll(AllKeywords(criteria))), |AllKeywords(criteria)|),
      StructureScore(GroupsFound(text, StructureSections()), StrWordCount(text)),
      ExperienceScore(HitCount(text, ExperienceIndicators()), CapitalisedNameCount(text, 0)),
      EducationScore(HitCount(text, EducationKeywords()), HasYear(text)),
      SkillsScore(HitCount(text, LowerAll(criteria.technicalKeywords)), |criteria.technicalKeywords|,
        Contains(text, "skills") || Contains(text, "competencies")))
  }

  /** On lower-cased text every category score lies in [0, 100]. */
  lemma CategoryScoresOfLowered(rawText: string, criteria: Criteria)
    requires |AllKeywords(criteria)| > 0 && |criteria.technicalKeywords| > 0
    ensures var s := CategoryScores(StrToLower(rawText), criteria);
      InRange(s.keywords) && InRange(s.structure) && InRange(s.experience)
      && InRange(s.education) && InRange(s.skills)
  {
    var text := StrToLower(rawText);
    var all := AllKeywords(criteria);
    CategoryScoresInRange(HitCount(text, LowerAll(all)), |all|, 0, 0, false);
    CategoryScoresInRange(GroupsFound(text, StructureSections()), 5, StrWordCount(text), 0, false);
    CategoryScoresInRange(HitCount(text, ExperienceIndicators()), 8, 0, CapitalisedNameCount(text, 0), false);
    CategoryScoresInRange(HitCount(text, EducationKeywords()), 9, 0, 0, HasYear(text));
    CategoryScoresInRange(HitCount(text, LowerAll(criteria.technicalKeywords)), |criteria.technicalKeywords|, 0, 0,
      Contains(text, "skills") || Contains(text, "competencies"));
  }

  /** On lower-cased text the capitalised-name bonus never applies. */
  lemma ExperienceOfLowered(rawText: string, criteria: Criteria)
    requires |AllKeywords(criteria)| > 0 && |criteria.technicalKeywords| > 0
    ensures CategoryScores(StrToLower(rawText), criteria).experience
         == RoundRatio(100 * HitCount(StrToLower(rawText), ExperienceIndicators()), 8)
  {
    NoUpperNoNames(StrToLower(rawText), 0);
  }

  /** `analyzeResumeContent`: lower-cases the text, scores it and derives the feedback. */
  method AnalyzeResumeContent(rawText: string, criteria: Criteria, targetRole: string) returns (a: Analysis)
    requires |AllKeywords(criteria)| > 0 && |criteria.technicalKeywords| > 0
    ensures a.overallScore == OverallScore(CategoryScores(StrToLower(rawText), criteria), criteria.scoringWeights)
    ensures a.keywords.found == HitCount(StrToLower(rawText), LowerAll(AllKeywords(criteria)))
    ensures a.keywords.missing == Take(Missing(StrToLower(rawText), AllKeywords(criteria)), 10)
    ensures a.strengths == Strengths(StrToLower(rawText), CategoryScores(StrToLower(rawText), criteria))
    ensures a.improvements == Improvements(StrToLower(rawText), CategoryScores(StrToLower(rawText), criteria), a.keywords.missing)
    ensures a.suggestions == Suggestions(targetRole, a.overallScore, a.keywords.found)
    ensures ValidWeights(criteria.scoringWeights) ==> InRange(a.overallScore)
  {
    var text := StrToLower(rawText);
    var wordCount := StrWordCount(text);
    var keywordAnalysis := AnalyzeKeywords(text, criteria);
    var structureScore := AnalyzeStructure(text);
    var contentScore := AnalyzeContent(text, wordCount);
    var experienceScore := AnalyzeExperience(text);
    var educationScore := AnalyzeEducation(text);
    var skillsScore := AnalyzeSkills(text, criteria);
    var scores := Scores(keywordAnalysis.score, structureScore, experienceScore, educationScore, skillsScore);
    assert scores == CategoryScores(text, criteria);
    var overall := OverallScore(scores, criteria.scoringWeights);
    if ValidWeights(criteria.scoringWeights) {
      CategoryScoresOfLowered(rawText, criteria);
      OverallScoreInRange(scores, criteria.scoringWeights);
    }
    var strengths := GenerateStrengths(text, scores);
    var improvements := GenerateImprovements(text, scores, keywordAnalysis.missing);
    var suggestions := GenerateSuggestions(targetRole, overall, keywordAnalysis);
    a := Analysis(overall, strengths, improvements, suggestions, keywordAnalysis);
  }

  /** Appending text never lowers the number of keywords found or the keyword score. */
  lemma KeywordScoreAppend(text: string, more: string, criteria: Criteria)
    requires |AllKeywords(criteria)| > 0
    ensures HitCount(text, LowerAll(AllKeywords(criteria))) <= HitCount(text + more, LowerAll(AllKeywords(criteria)))
    ensures KeywordScore(HitCount(text, LowerAll(AllKeywords(criteria))), |AllKeywords(criteria)|)
         <= KeywordScore(HitCount(text + more, LowerAll(AllKeywords(criteria))), |AllKeywords(criteria)|)
  {
    var words := LowerAll(AllKeywords(criteria));
    var total := |AllKeywords(criteria)|;
    HitCountAppend(text, more, words);
    var f1, f2 := HitCount(text, words), HitCount(text + more, words);
    RoundRatioMonotonic(Min(100 * f1, 100 * total), Min(100 * f2, 100 * total), total);
  }
}

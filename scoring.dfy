/**
 * The heuristic scoring engine: keyword lists compiled into word-bounded,
 * case-insensitive matchers, title / description / experience scores, the
 * embedding boost and the inclusion threshold.
 */
module Scoring {
  import opened Wrappers
  import opened Text

  type Embedding = seq<real>

  // ---------------------------------------------------------------------
  // Keyword matching: the pattern `\b<keyword>\b` compiled with IGNORECASE,
  // where a space or a hyphen of the keyword stands for `(?:\s|-)`.
  // ---------------------------------------------------------------------

  /**
   * Characters matched by `\w` (alphanumeric or the underscore): exactly
   * Python's set up to U+00FF, including the feminine and masculine
   * ordinals, the micro sign, the superscript digits and the vulgar
   * fractions; beyond it every character except white space and the
   * general punctuation block (dashes, quotation marks, bullets).
   */
  predicate IsWordChar(c: char)
  {
    if c < '\U{0080}' then ('a' <= c <= 'z') || ('A' <= c <= 'Z') || ('0' <= c <= '9') || c == '_'
    else if c < 'À' then c == 'ª' || c == 'µ' || ('¹' <= c <= 'º') || ('²' <= c <= '³') || ('¼' <= c <= '¾')
    else c != '×' && c != '÷' && c != '\U{1680}' && c != '\U{3000}' && !('\U{2000}' <= c <= '\U{206F}')
  }

  /** `\b` holds at index `i` of `t`: exactly one side is a word character. */
  predicate IsBoundary(t: string, i: int)
    requires 0 <= i <= |t|
  {
    (i > 0 && IsWordChar(t[i - 1])) != (i < |t| && IsWordChar(t[i]))
  }

  /** A space or hyphen in a keyword is rewritten to `(?:\s|-)`. */
  predicate IsSeparator(c: char)
  {
    c == ' ' || c == '-'
  }

  /**
   * The class `IGNORECASE` puts a character in: its simple lower case, with
   * the dotted and dotless i, the long s, the micro sign, the Kelvin sign and
   * the final sigma joined to the letter they are case variants of ('İ'
   * lowers to 'i' here, unlike in `str.lower`), and the capitals of Latin
   * Extended-A, Greek and Cyrillic lowered as well.
   */
  function FoldChar(c: char): char
  {
    var l := LowerChar(c);
    if l == '\U{0131}' || l == '\U{0130}' then 'i'
    else if l == '\U{017F}' then 's'
    else if l == '\U{212A}' then 'k'
    else if l == '\U{00B5}' then '\U{03BC}'
    else if l == '\U{03C2}' then '\U{03C3}'
    else if '\U{0100}' <= l <= '\U{017F}' then LatinExtendedLower(l)
    else if '\U{0391}' <= l <= '\U{03A9}' && l != '\U{03A2}' then (l as int + 32) as char
    else if '\U{0410}' <= l <= '\U{042F}' then (l as int + 32) as char
    else if '\U{0400}' <= l <= '\U{040F}' then (l as int + 80) as char
    else l
  }

  /** The simple lower case of a letter of Latin Extended-A: capitals and small letters alternate. */
  function LatinExtendedLower(c: char): char
    requires '\U{0100}' <= c <= '\U{017F}'
  {
    var n := c as int;
    if n <= 0x012F || 0x0132 <= n <= 0x0137 || 0x014A <= n <= 0x0177 then
      (if n % 2 == 0 then (n + 1) as char else c)
    else if 0x0139 <= n <= 0x0148 || 0x0179 <= n <= 0x017E then
      (if n % 2 == 1 then (n + 1) as char else c)
    else if n == 0x0178 then '\U{00FF}'
    else c
  }

  /** One keyword character against one text character. */
  predicate CharMatches(k: char, c: char)
  {
    if IsSeparator(k) then IsSpace(c) || c == '-' else FoldChar(k) == FoldChar(c)
  }

  /** The pattern for `keyword` matches `t` at index `i`. */
  predicate MatchesAt(keyword: string, t: string, i: int)
  {
    0 <= i && i + |keyword| <= |t| && IsBoundary(t, i) && IsBoundary(t, i + |keyword|)
    && forall k :: 0 <= k < |keyword| ==> CharMatches(keyword[k], t[i + k])
  }

  /** `pattern.search(t)` succeeds. */
  predicate Matches(keyword: string, t: string)
  {
    exists i | 0 <= i <= |t| - |keyword| :: MatchesAt(keyword, t, i)
  }

  lemma LowerCharFacts(c: char)
    ensures LowerChar(LowerChar(c)) == LowerChar(c)
    ensures IsWordChar(LowerChar(c)) == IsWordChar(c)
    ensures IsSpace(LowerChar(c)) == IsSpace(c)
    ensures (LowerChar(c) == '-') == (c == '-')
  {
  }

  /** Lower-casing a character keeps it in its `IGNORECASE` class. */
  lemma FoldLowerChar(c: char)
    ensures FoldChar(LowerChar(c)) == FoldChar(c)
  {
    if 'A' <= c <= 'Z' || ('\U{00C0}' <= c <= '\U{00DE}' && c != '\U{00D7}') || c == '\U{011E}' || c == '\U{015E}' {
      assert LowerChar(LowerChar(c)) == LowerChar(c);
    }
  }

  /** Matching is case-insensitive: lower-casing the text changes nothing. */
  lemma MatchesIgnoresCase(keyword: string, t: string)
    ensures Matches(keyword, t) == Matches(keyword, Lower(t))
  {
    forall i | 0 <= i <= |t| - |keyword|
      ensures MatchesAt(keyword, t, i) == MatchesAt(keyword, Lower(t), i)
    {
      MatchesAtIgnoresCase(keyword, t, i);
    }
  }

  /** The same at one position. */
  lemma MatchesAtIgnoresCase(keyword: string, t: string, i: int)
    requires 0 <= i <= |t| - |keyword|
    ensures MatchesAt(keyword, t, i) == MatchesAt(keyword, Lower(t), i)
  {
    var lt := Lower(t);
    if i > 0 { LowerCharFacts(t[i - 1]); }
    if i < |t| { LowerCharFacts(t[i]); }
    var e := i + |keyword|;
    if e > 0 { LowerCharFacts(t[e - 1]); }
    if e < |t| { LowerCharFacts(t[e]); }
    forall k | 0 <= k < |keyword|
      ensures CharMatches(keyword[k], t[i + k]) == CharMatches(keyword[k], lt[i + k])
    {
      LowerCharFacts(t[i + k]);
      FoldLowerChar(t[i + k]);
    }
  }

  /** The Turkish dotless i and the plain i match each other in either case: "yazilim" in "Yazılım", "yazılım" in "YAZILIM". */
  lemma TurkishIMatches()
    ensures Matches("yazilim", "Yaz\U{0131}l\U{0131}m")
    ensures Matches("yaz\U{0131}l\U{0131}m", "YAZILIM")
  {
    assert FoldChar('\U{0131}') == 'i' && FoldChar('I') == 'i';
    assert MatchesAt("yazilim", "Yaz\U{0131}l\U{0131}m", 0);
    assert MatchesAt("yaz\U{0131}l\U{0131}m", "YAZILIM", 0);
  }

  /** The Turkish dotted capital matches the plain i: "kıdemli" in "KIDEMLİ". */
  lemma TurkishDottedIMatches()
    ensures Matches("k\U{0131}demli", "KIDEML\U{0130}")
  {
    assert MatchesAt("k\U{0131}demli", "KIDEML\U{0130}", 0);
  }

  /** A space and a hyphen in a keyword are interchangeable. */
  lemma SeparatorsInterchangeable(k1: string, k2: string, t: string)
    requires |k1| == |k2|
    requires forall k :: 0 <= k < |k1| ==>
      k1[k] == k2[k] || (IsSeparator(k1[k]) && IsSeparator(k2[k]))
    ensures Matches(k1, t) == Matches(k2, t)
  {
    forall i | 0 <= i <= |t| - |k1|
      ensures MatchesAt(k1, t, i) == MatchesAt(k2, t, i)
    {
      if 0 <= i && i + |k1| <= |t| {
        forall k | 0 <= k < |k1|
          ensures CharMatches(k1[k], t[i + k]) == CharMatches(k2[k], t[i + k])
        {
        }
      }
    }
  }

  /** The match is word-bounded: "java" is not found inside "javascript". */
  lemma WordBoundedExample()
    ensures Matches("java", "java developer")
    ensures !Matches("java", "javascript")
  {
    assert MatchesAt("java", "java developer", 0);
    forall i | 0 <= i <= 6
      ensures !MatchesAt("java", "javascript", i)
    {
      if i == 0 {
        assert !IsBoundary("javascript", 4);
      } else {
        assert !IsBoundary("javascript", i);
      }
    }
  }

  /** Bullets, typographic apostrophes and dashes are no word characters: a keyword beside them still matches. */
  lemma PunctuationBoundsWords()
    ensures Matches("python", "\U{2022}python")
    ensures Matches("python", "python\U{2019}s")
    ensures Matches("java", "java\U{2013}kotlin")
  {
    assert MatchesAt("python", "\U{2022}python", 1);
    assert MatchesAt("python", "python\U{2019}s", 0);
    assert MatchesAt("java", "java\U{2013}kotlin", 0);
  }

  // ---------------------------------------------------------------------
  // Compiling configured keyword lists.
  // ---------------------------------------------------------------------

  /** The stripped, non-empty forms of the first `n` comma-separated parts, in order. */
  function NonEmptyStripped(parts: seq<string>, n: nat): seq<string>
    requires n <= |parts|
  {
    if n == 0 then []
    else
      var p := Strip(parts[n - 1]);
      NonEmptyStripped(parts, n - 1) + (if p != "" then [p] else [])
  }

  /** The keywords one configured entry contributes. */
  function KeywordParts(item: string): seq<string>
  {
    var parts := Split(item, ',');
    NonEmptyStripped(parts, |parts|)
  }

  /** The keywords the first `n` entries of a configured list contribute, in order. */
  function KeywordsUpTo(items: seq<string>, n: nat): seq<string>
    requires n <= |items|
  {
    if n == 0 then [] else KeywordsUpTo(items, n - 1) + KeywordParts(items[n - 1])
  }

  function Keywords(items: seq<string>): seq<string>
  {
    KeywordsUpTo(items, |items|)
  }

  /** Each keyword paired with the weight `w`. */
  function Tagged(ks: seq<string>, w: int): (r: seq<(string, int)>)
    ensures |r| == |ks|
    ensures forall j :: 0 <= j < |ks| ==> r[j] == (ks[j], w)
  {
    seq(|ks|, j requires 0 <= j < |ks| => (ks[j], w))
  }

  /** The weighted keywords the first `n` entries of a configured mapping contribute. */
  function WeightedKeywordsUpTo(items: seq<(string, int)>, n: nat): seq<(string, int)>
    requires n <= |items|
  {
    if n == 0 then [] else WeightedKeywordsUpTo(items, n - 1) + Tagged(KeywordParts(items[n - 1].0), items[n - 1].1)
  }

  function WeightedKeywords(items: seq<(string, int)>): seq<(string, int)>
  {
    WeightedKeywordsUpTo(items, |items|)
  }

  /** `p` is the stripped form of one of the first `n` parts. */
  predicate StrippedFrom(parts: seq<string>, n: nat, p: string)
    requires n <= |parts|
  {
    exists j | 0 <= j < n :: p == Strip(parts[j])
  }

  /** A keyword is kept exactly when it is the stripped, non-empty form of one of the parts. */
  lemma {:induction false} NonEmptyStrippedMembers(parts: seq<string>, n: nat, p: string)
    requires n <= |parts|
    ensures p in NonEmptyStripped(parts, n) <==> p != "" && StrippedFrom(parts, n, p)
  {
    if n > 0 {
      NonEmptyStrippedMembers(parts, n - 1, p);
      var last := Strip(parts[n - 1]);
      assert NonEmptyStripped(parts, n) == NonEmptyStripped(parts, n - 1) + (if last != "" then [last] else []);
      assert StrippedFrom(parts, n, p) <==> StrippedFrom(parts, n - 1, p) || p == last;
    }
  }

  /** Every compiled keyword is non-empty, holds no comma and has no outer white space. */
  lemma {:induction false} KeywordsWellFormed(items: seq<string>, n: nat, p: string)
    requires n <= |items| && p in KeywordsUpTo(items, n)
    ensures p != "" && ',' !in p && Strip(p) == p
  {
    if n > 0 {
      if p in KeywordsUpTo(items, n - 1) {
        KeywordsWellFormed(items, n - 1, p);
      } else {
        var parts := Split(items[n - 1], ',');
        NonEmptyStrippedMembers(parts, |parts|, p);
        var j :| 0 <= j < |parts| && p == Strip(parts[j]);
        SplitPartsHaveNoSeparator(items[n - 1], ',', j);
        StripFacts(parts[j]);
      }
    }
  }

  /** The keywords of one configured entry: its comma-separated parts, stripped, empties dropped. */
  method CompileEntry(item: string) returns (parts: seq<string>)
    ensures parts == KeywordParts(item)
  {
    var pieces := Split(item, ',');
    parts := [];
    var j := 0;
    while j < |pieces|
      invariant 0 <= j <= |pieces|
      invariant parts == NonEmptyStripped(pieces, j)
    {
      var part := Strip(pieces[j]);
      if part != "" {
        parts := parts + [part];
      }
      j := j + 1;
    }
  }

  /** `_compile_patterns_from_config`: split each entry on commas, strip, drop empties. */
  method CompileKeywords(items: seq<string>) returns (patterns: seq<string>)
    ensures patterns == Keywords(items)
  {
    patterns := [];
    var i := 0;
    while i < |items|
      invariant 0 <= i <= |items|
      invariant patterns == KeywordsUpTo(items, i)
    {
      var parts := CompileEntry(items[i]);
      patterns := patterns + parts;
      i := i + 1;
    }
  }

  /** `_compile_weighted_patterns`: every keyword of an entry carries that entry's weight. */
  method CompileWeighted(items: seq<(string, int)>) returns (patterns: seq<(string, int)>)
    ensures patterns == WeightedKeywords(items)
  {
    patterns := [];
    var i := 0;
    while i < |items|
      invariant 0 <= i <= |items|
      invariant patterns == WeightedKeywordsUpTo(items, i)
    {
      var parts := CompileEntry(items[i].0);
      assert WeightedKeywordsUpTo(items, i + 1) == patterns + Tagged(parts, items[i].1);
      patterns := AppendTagged(patterns, parts, items[i].1);
      i := i + 1;
    }
  }

  /** The inner loop of `_compile_weighted_patterns`: one entry's keywords, each with the entry's weight. */
  method AppendTagged(patterns: seq<(string, int)>, parts: seq<string>, w: int) returns (r: seq<(string, int)>)
    ensures r == patterns + Tagged(parts, w)
  {
    r := patterns;
    var j := 0;
    while j < |parts|
      invariant 0 <= j <= |parts|
      invariant r == patterns + Tagged(parts[..j], w)
    {
      assert Tagged(parts[..j + 1], w) == Tagged(parts[..j], w) + [(parts[j], w)];
      r := r + [(parts[j], w)];
      j := j + 1;
    }
    assert parts[..j] == parts;
  }

  /** The configured entry `e` yields the weighted keyword `(p, w)`. */
  predicate EntryYields(e: (string, int), p: string, w: int)
  {
    p in KeywordParts(e.0) && w == e.1
  }

  /** Weighted keywords are exactly the keywords of each entry tagged with its weight. */
  lemma {:induction false} WeightedKeywordsMembers(items: seq<(string, int)>, n: nat, p: string, w: int)
    requires n <= |items|
    ensures (p, w) in WeightedKeywordsUpTo(items, n)
      <==> exists j | 0 <= j < n :: EntryYields(items[j], p, w)
  {
    if n > 0 {
      WeightedKeywordsMembers(items, n - 1, p, w);
      var parts := KeywordParts(items[n - 1].0);
      var last := Tagged(parts, items[n - 1].1);
      assert WeightedKeywordsUpTo(items, n) == WeightedKeywordsUpTo(items, n - 1) + last;
      if (p, w) in last {
        var k :| 0 <= k < |last| && last[k] == (p, w);
        assert parts[k] == p;
        assert EntryYields(items[n - 1], p, w);
      }
      if EntryYields(items[n - 1], p, w) {
        var k :| 0 <= k < |parts| && parts[k] == p;
        assert last[k] == (p, w);
      }
    }
  }

  // ---------------------------------------------------------------------
  // Configuration and the compiled scoring system.
  // ---------------------------------------------------------------------

  /** The `scoring_system` section of the configuration; an absent key is `None` or empty. */
  datatype ScoringConfig = ScoringConfig(
    negativeWeight: Option<int>,
    positiveWeight: Option<int>,
    threshold: Option<int>,
    boostThreshold: Option<real>,
    bonusPoints: Option<int>,
    titleNegative: seq<string>,
    titlePositive: seq<string>,
    descNegative: seq<(string, int)>,
    descPositive: seq<(string, int)>,
    experiencePenalties: Option<map<int, int>>,
    cvSkillKeywords: seq<string>)

  /** An `IntelligentScoringSystem` after construction. */
  datatype ScoringSystem = ScoringSystem(
    negativeWeight: int,
    positiveWeight: int,
    threshold: int,
    boostThreshold: real,
    bonusPoints: int,
    cvEmbedding: Option<Embedding>,
    titleNegative: seq<string>,
    titlePositive: seq<string>,
    descNegative: seq<(string, int)>,
    descPositive: seq<(string, int)>,
    penalties: map<int, int>,
    cvSkillPatterns: seq<string>)

  const DefaultNegativeWeight := -30
  const DefaultPositiveWeight := 30
  const DefaultThreshold := 0
  const DefaultBoostThreshold := 0.8
  const DefaultBonusPoints := 10
  const DefaultPenalties: map<int, int> := map[5 := -40, 4 := -20]

  /** The system the constructor builds from a configuration section (a specification). */
  function SystemFor(cfg: ScoringConfig, cvEmbedding: Option<Embedding>): ScoringSystem
  {
    ScoringSystem(
      cfg.negativeWeight.GetOr(DefaultNegativeWeight),
      cfg.positiveWeight.GetOr(DefaultPositiveWeight),
      cfg.threshold.GetOr(DefaultThreshold),
      cfg.boostThreshold.GetOr(DefaultBoostThreshold),
      cfg.bonusPoints.GetOr(DefaultBonusPoints),
      cvEmbedding,
      Keywords(cfg.titleNegative), Keywords(cfg.titlePositive),
      WeightedKeywords(cfg.descNegative), WeightedKeywords(cfg.descPositive),
      cfg.experiencePenalties.GetOr(DefaultPenalties),
      Keywords(cfg.cvSkillKeywords))
  }

  /** The constructor: defaults for absent settings, every keyword list compiled. */
  method NewScoringSystem(cfg: ScoringConfig, cvEmbedding: Option<Embedding>) returns (sys: ScoringSystem)
    ensures sys == SystemFor(cfg, cvEmbedding)
    ensures sys.negativeWeight == cfg.negativeWeight.GetOr(DefaultNegativeWeight)
    ensures sys.positiveWeight == cfg.positiveWeight.GetOr(DefaultPositiveWeight)
    ensures sys.threshold == cfg.threshold.GetOr(DefaultThreshold)
    ensures sys.boostThreshold == cfg.boostThreshold.GetOr(DefaultBoostThreshold)
    ensures sys.bonusPoints == cfg.bonusPoints.GetOr(DefaultBonusPoints)
    ensures sys.cvEmbedding == cvEmbedding
    ensures sys.titleNegative == Keywords(cfg.titleNegative)
    ensures sys.titlePositive == Keywords(cfg.titlePositive)
    ensures sys.descNegative == WeightedKeywords(cfg.descNegative)
    ensures sys.descPositive == WeightedKeywords(cfg.descPositive)
    ensures sys.penalties == cfg.experiencePenalties.GetOr(DefaultPenalties)
    ensures sys.cvSkillPatterns == Keywords(cfg.cvSkillKeywords)
  {
    var titleNeg := CompileKeywords(cfg.titleNegative);
    var titlePos := CompileKeywords(cfg.titlePositive);
    var descNeg := CompileWeighted(cfg.descNegative);
    var descPos := CompileWeighted(cfg.descPositive);
    var cvSkills := CompileKeywords(cfg.cvSkillKeywords);
    sys := ScoringSystem(
      cfg.negativeWeight.GetOr(DefaultNegativeWeight),
      cfg.positiveWeight.GetOr(DefaultPositiveWeight),
      cfg.threshold.GetOr(DefaultThreshold),
      cfg.boostThreshold.GetOr(DefaultBoostThreshold),
      cfg.bonusPoints.GetOr(DefaultBonusPoints),
      cvEmbedding,
      titleNeg, titlePos, descNeg, descPos,
      cfg.experiencePenalties.GetOr(DefaultPenalties),
      cvSkills);
  }

  // ---------------------------------------------------------------------
  // Title and description scores.
  // ---------------------------------------------------------------------

  /** How many of the first `n` patterns match `text`; each pattern counts once. */
  function CountMatching(patterns: seq<string>, text: string, n: nat): (c: nat)
    requires n <= |patterns|
    ensures c <= n
  {
    if n == 0 then 0
    else CountMatching(patterns, text, n - 1) + (if Matches(patterns[n - 1], text) then 1 else 0)
  }

  /** The sum of the weights of the first `n` weighted patterns that match `text`. */
  function WeightedSum(patterns: seq<(string, int)>, text: string, n: nat): int
    requires n <= |patterns|
  {
    if n == 0 then 0
    else WeightedSum(patterns, text, n - 1) + (if Matches(patterns[n - 1].0, text) then patterns[n - 1].1 else 0)
  }

  /** Specification of `score_title`. */
  function TitleScore(sys: ScoringSystem, title: string): int
  {
    if title == "" then 0
    else
      sys.negativeWeight * CountMatching(sys.titleNegative, title, |sys.titleNegative|)
      + sys.positiveWeight * CountMatching(sys.titlePositive, title, |sys.titlePositive|)
  }

  /** Only the first 3000 characters of a description are scored. */
  const DescriptionLimit := 3000

  /** Specification of `score_description`. */
  function DescriptionScore(sys: ScoringSystem, description: string): int
  {
    if description == "" then 0
    else
      var text := Prefix(description, DescriptionLimit);
      WeightedSum(sys.descPositive, text, |sys.descPositive|)
      + WeightedSum(sys.descNegative, text, |sys.descNegative|)
  }

  /** `score_title`: the weight of each side times the number of its patterns found. */
  method ScoreTitle(sys: ScoringSystem, title: string) returns (score: int)
    ensures score == TitleScore(sys, title)
  {
    if title == "" {
      return 0;
    }
    score := 0;
    var i := 0;
    while i < |sys.titleNegative|
      invariant 0 <= i <= |sys.titleNegative|
      invariant score == sys.negativeWeight * CountMatching(sys.titleNegative, title, i)
    {
      ghost var c := CountMatching(sys.titleNegative, title, i);
      if Matches(sys.titleNegative[i], title) {
        score := score + sys.negativeWeight;
        assert sys.negativeWeight * (c + 1) == sys.negativeWeight * c + sys.negativeWeight;
      }
      i := i + 1;
    }
    ghost var negative := score;
    var j := 0;
    while j < |sys.titlePositive|
      invariant 0 <= j <= |sys.titlePositive|
      invariant score == negative + sys.positiveWeight * CountMatching(sys.titlePositive, title, j)
    {
      ghost var c := CountMatching(sys.titlePositive, title, j);
      if Matches(sys.titlePositive[j], title) {
        score := score + sys.positiveWeight;
        assert sys.positiveWeight * (c + 1) == sys.positiveWeight * c + sys.positiveWeight;
      }
      j := j + 1;
    }
  }

  /** `score_description`: the weights of all matching patterns over the first 3000 characters. */
  method ScoreDescription(sys: ScoringSystem, description: string) returns (score: int)
    ensures score == DescriptionScore(sys, description)
  {
    if description == "" {
      return 0;
    }
    var text := Prefix(description, DescriptionLimit);
    score := 0;
    var i := 0;
    while i < |sys.descPositive|
      invariant 0 <= i <= |sys.descPositive|
      invariant score == WeightedSum(sys.descPositive, text, i)
    {
      if Matches(sys.descPositive[i].0, text) {
        score := score + sys.descPositive[i].1;
      }
      i := i + 1;
    }
    ghost var positive := score;
    var j := 0;
    while j < |sys.descNegative|
      invariant 0 <= j <= |sys.descNegative|
      invariant score == positive + WeightedSum(sys.descNegative, text, j)
    {
      if Matches(sys.descNegative[j].0, text) {
        score := score + sys.descNegative[j].1;
      }
      j := j + 1;
    }
  }

  /** Some pattern among the first `n` is found exactly when the count is positive. */
  lemma {:induction false} CountMatchingPositive(patterns: seq<string>, text: string, n: nat)
    requires n <= |patterns|
    ensures CountMatching(patterns, text, n) > 0 <==> exists k | 0 <= k < n :: Matches(patterns[k], text)
  {
    if n > 0 {
      CountMatchingPositive(patterns, text, n - 1);
    }
  }

  /**
   * With the usual signs of the weights, a title that only hits positive
   * keywords scores above zero, one that only hits negative keywords scores
   * below zero, and one that hits neither scores zero.
   */
  lemma TitleScoreSign(sys: ScoringSystem, title: string)
    requires sys.negativeWeight < 0 < sys.positiveWeight
    ensures var neg := exists k | 0 <= k < |sys.titleNegative| :: Matches(sys.titleNegative[k], title);
            var pos := exists k | 0 <= k < |sys.titlePositive| :: Matches(sys.titlePositive[k], title);
            (title != "" && !neg && pos ==> TitleScore(sys, title) > 0)
            && (title != "" && neg && !pos ==> TitleScore(sys, title) < 0)
            && (!neg && !pos ==> TitleScore(sys, title) == 0)
  {
    CountMatchingPositive(sys.titleNegative, title, |sys.titleNegative|);
    CountMatchingPositive(sys.titlePositive, title, |sys.titlePositive|);
  }

  /** Descriptions that share their first 3000 characters score the same. */
  lemma DescriptionPrefixOnly(sys: ScoringSystem, d1: string, d2: string)
    requires Prefix(d1, DescriptionLimit) == Prefix(d2, DescriptionLimit)
    ensures DescriptionScore(sys, d1) == DescriptionScore(sys, d2)
  {
  }

  // ---------------------------------------------------------------------
  // Experience: the pattern `(\d+)\+?\s*(y[ıi]l|sene|yrs?|years?)` run with
  // `findall` over the lower-cased text.
  // ---------------------------------------------------------------------

  predicate IsDigit(c: char)
  {
    '0' <= c <= '9'
  }

  /** The decimal value of a run of digits, as `int(m[0])`. */
  function NumberValue(s: string): nat
    requires forall k :: 0 <= k < |s| ==> IsDigit(s[k])
  {
    if |s| == 0 then 0
    else
      assert IsDigit(s[|s| - 1]);
      NumberValue(s[..|s| - 1]) * 10 + (s[|s| - 1] as int - '0' as int)
  }

  /** The end of the maximal run of digits starting at `i`. */
  function DigitRunEnd(t: string, i: nat): (j: nat)
    requires i <= |t|
    ensures i <= j <= |t| && (j == |t| || !IsDigit(t[j]))
    ensures forall k :: i <= k < j ==> IsDigit(t[k])
    decreases |t| - i
  {
    if i < |t| && IsDigit(t[i]) then DigitRunEnd(t, i + 1) else i
  }

  /** The end of the white space starting at `i` (`\s*`). */
  function SkipSpaces(t: string, i: nat): (j: nat)
    requires i <= |t|
    ensures i <= j <= |t|
    decreases |t| - i
  {
    if i < |t| && IsSpace(t[i]) then SkipSpaces(t, i + 1) else i
  }

  /** One of the year units starts at `k`; the optional trailing `s` never matters. */
  predicate UnitAt(t: string, k: nat)
  {
    OccursAt(t, "yıl", k) || OccursAt(t, "yil", k) || OccursAt(t, "sene", k)
    || OccursAt(t, "yr", k) || OccursAt(t, "year", k)
  }

  /** `\+?\s*` followed by a unit, right after a run of digits ending at `j`. */
  predicate UnitFollows(t: string, j: nat)
    requires j <= |t|
  {
    var k := if j < |t| && t[j] == '+' then j + 1 else j;
    UnitAt(t, SkipSpaces(t, k))
  }

  /** The year numbers `findall` reports from index `i` on, in text order. */
  function YearsFrom(t: string, i: nat): seq<nat>
    requires i <= |t|
    decreases |t| - i
  {
    if i == |t| then []
    else if IsDigit(t[i]) then
      var j := DigitRunEnd(t, i);
      (if UnitFollows(t, j) then [NumberValue(t[i..j])] else []) + YearsFrom(t, j)
    else YearsFrom(t, i + 1)
  }

  /** The year numbers mentioned in a text. */
  function YearMentions(text: string): seq<nat>
  {
    YearsFrom(Lower(text), 0)
  }

  /** `max(...)` of a non-empty list of year numbers. */
  function MaxOf(s: seq<nat>): (m: nat)
    requires |s| > 0
    ensures m in s && forall x :: x in s ==> x <= m
  {
    if |s| == 1 then s[0]
    else
      var rest := MaxOf(s[1..]);
      assert forall x :: x in s ==> x == s[0] || x in s[1..];
      if s[0] >= rest then s[0] else rest
  }

  /** `m` is the largest element of `s`. */
  predicate IsMax(s: set<int>, m: int)
  {
    m in s && forall u :: u in s ==> u <= m
  }

  /** A set that is not empty has a member. */
  lemma NonEmptyHasMember(s: set<int>)
    ensures s != {} ==> exists x :: x in s
  {
    if forall x :: x !in s {
      assert s == {};
    }
  }

  /** Every finite set of integers with a member `x` has a largest element. */
  lemma {:induction false} MaxOfSetExists(s: set<int>, x: int)
    requires x in s
    ensures exists m :: IsMax(s, m)
    decreases |s|
  {
    var r := s - {x};
    if y :| y in r {
      MaxOfSetExists(r, y);
      var m :| IsMax(r, m);
      var best := if x > m then x else m;
      forall u | u in s ensures u <= best { assert u == x || u in r; }
      assert IsMax(s, best);
    } else {
      forall u | u in s ensures u <= x { assert u !in r; }
      assert IsMax(s, x);
    }
  }

  /** The configured thresholds that `years` meets. */
  ghost function Met(penalties: map<int, int>, years: int): set<int>
  {
    set u | u in penalties.Keys && u <= years
  }

  /** The penalty of the largest configured threshold met by `years`, or 0 when none is met. */
  ghost function PenaltyFor(penalties: map<int, int>, years: int): (r: int)
    ensures forall t :: IsMax(Met(penalties, years), t) ==> t in penalties && r == penalties[t]
    ensures Met(penalties, years) == {} ==> r == 0
  {
    if exists t0 :: t0 in penalties && t0 <= years then
      var t0 :| t0 in penalties && t0 <= years;
      MaxOfSetExists(Met(penalties, years), t0);
      var t :| IsMax(Met(penalties, years), t);
      assert forall t' :: IsMax(Met(penalties, years), t') ==> t' <= t && t <= t';
      penalties[t]
    else
      assert Met(penalties, years) == {};
      0
  }

  /** Specification of `score_experience`. */
  ghost function ExperienceScore(sys: ScoringSystem, text: string): int
  {
    if text == "" then 0
    else
      var years := YearMentions(text);
      if |years| == 0 then 0 else PenaltyFor(sys.penalties, MaxOf(years))
  }

  /** `sorted(penalties.items(), reverse=True)`: the thresholds, largest first. */
  method ThresholdsDescending(penalties: map<int, int>) returns (ts: seq<int>)
    ensures forall a, b :: 0 <= a < b < |ts| ==> ts[a] > ts[b]
    ensures forall u :: u in penalties <==> u in ts
  {
    ts := [];
    var remaining := penalties.Keys;
    while remaining != {}
      invariant SortedSoFar(penalties, ts, remaining)
      decreases |remaining|
    {
      NonEmptyHasMember(remaining);
      var any :| any in remaining;
      MaxOfSetExists(remaining, any);
      var m :| IsMax(remaining, m);
      TakeLargest(penalties, ts, remaining, m);
      ts := ts + [m];
      remaining := remaining - {m};
    }
  }

  /**
   * The selection loop's invariant: `ts` descends, every threshold is in
   * `ts` or still remaining, and every remaining one is below all of `ts`.
   */
  ghost predicate SortedSoFar(penalties: map<int, int>, ts: seq<int>, remaining: set<int>)
  {
    remaining <= penalties.Keys
    && (forall a, b :: 0 <= a < b < |ts| ==> ts[a] > ts[b])
    && (forall u :: u in penalties <==> u in ts || u in remaining)
    && (forall u, a :: u in remaining && 0 <= a < |ts| ==> u < ts[a])
  }

  /** Moving the largest remaining threshold to the end of `ts` keeps the invariant. */
  lemma TakeLargest(penalties: map<int, int>, ts: seq<int>, remaining: set<int>, m: int)
    requires SortedSoFar(penalties, ts, remaining) && IsMax(remaining, m)
    ensures SortedSoFar(penalties, ts + [m], remaining - {m})
  {
  }

  /** `score_experience`: the penalty for the largest year number mentioned. */
  method ScoreExperience(sys: ScoringSystem, text: string) returns (score: int)
    ensures score == ExperienceScore(sys, text)
  {
    if text == "" {
      return 0;
    }
    var matches := YearMentions(text);
    if |matches| == 0 {
      return 0;
    }
    var years := MaxOf(matches);
    var ordered := ThresholdsDescending(sys.penalties);
    var i := 0;
    while i < |ordered|
      invariant 0 <= i <= |ordered|
      invariant forall a :: 0 <= a < i ==> ordered[a] > years
    {
      if years >= ordered[i] {
        forall u | u in Met(sys.penalties, years)
          ensures u <= ordered[i]
        {
          var a :| 0 <= a < |ordered| && ordered[a] == u;
        }
        return sys.penalties[ordered[i]];
      }
      i := i + 1;
    }
    forall u | u in sys.penalties
      ensures u > years
    {
      var a :| 0 <= a < |ordered| && ordered[a] == u;
    }
    assert Met(sys.penalties, years) == {};
    return 0;
  }

  /** With the default penalties, five or more years cost 40 points and four years cost 20. */
  lemma DefaultPenaltySchedule(years: int)
    ensures PenaltyFor(DefaultPenalties, years)
      == (if years >= 5 then -40 else if years >= 4 then -20 else 0)
  {
    var met := Met(DefaultPenalties, years);
    if years >= 5 {
      assert 5 in met;
      forall u | u in met ensures u <= 5 { }
      assert IsMax(met, 5);
    } else if years >= 4 {
      assert 4 in met;
      forall u | u in met ensures u <= 4 { }
      assert IsMax(met, 4);
    } else {
      forall u | u in met ensures false { }
      assert met == {};
    }
  }

  /** "En az 5 yıl" mentions five years. */
  lemma YearMentionsExample()
    ensures YearMentions("En az 5 yıl") == [5]
  {
    var t := Lower("En az 5 yıl");
    assert t == "en az 5 yıl";
    assert DigitRunEnd(t, 6) == 7;
    assert SkipSpaces(t, 7) == 8;
    assert OccursAt(t, "yıl", 8);
    assert YearsFrom(t, 7) == [];
  }

  /** The year search is case-insensitive: "5 YEARS" reads as "5 years". */
  lemma YearMentionsIgnoresCase(text: string)
    ensures YearMentions(Lower(text)) == YearMentions(text)
  {
    forall i | 0 <= i < |text|
      ensures Lower(Lower(text))[i] == Lower(text)[i]
    {
      LowerCharFacts(text[i]);
    }
    assert Lower(Lower(text)) == Lower(text);
  }

  // ---------------------------------------------------------------------
  // The embedding boost, the whole job and the inclusion decision.
  // ---------------------------------------------------------------------

  /**
   * `calculate_total_score`: the bonus is added only when both vectors are
   * present and their similarity reaches the boost threshold.  The cosine
   * similarity is supplied by the caller.
   */
  function CalculateTotal(sys: ScoringSystem, base: int, jobEmbedding: Option<Embedding>,
                          cvEmbedding: Option<Embedding>, cosine: (Embedding, Embedding) -> real): (total: int)
    ensures total == base || total == base + sys.bonusPoints
    ensures jobEmbedding.None? ==> total == base
    ensures cvEmbedding.None? && sys.cvEmbedding.None? ==> total == base
    ensures total != base ==> cosine(jobEmbedding.value, cvEmbedding.GetOr(sys.cvEmbedding.GetOr([]))) >= sys.boostThreshold
  {
    var cv := if cvEmbedding.Some? then cvEmbedding else sys.cvEmbedding;
    if jobEmbedding.None? || cv.None? then base
    else if cosine(jobEmbedding.value, cv.value) >= sys.boostThreshold then base + sys.bonusPoints
    else base
  }

  /** The fields of a job that scoring reads; an absent text is "". */
  datatype JobText = JobText(title: string, description: string, embedding: Option<Embedding>)

  /** The `details` dictionary of `score_job`. */
  datatype ScoreDetails = ScoreDetails(title: int, description: int, experience: int, total: int)

  /** Specification of the total `score_job` returns. */
  ghost function JobTotal(sys: ScoringSystem, job: JobText, cosine: (Embedding, Embedding) -> real): int
  {
    CalculateTotal(sys, TitleScore(sys, job.title) + DescriptionScore(sys, job.description)
                        + ExperienceScore(sys, job.description), job.embedding, None, cosine)
  }

  /** Specification of the `details` `score_job` returns: the three parts and the total. */
  ghost function JobDetails(sys: ScoringSystem, job: JobText, cosine: (Embedding, Embedding) -> real): (d: ScoreDetails)
    ensures d.total == JobTotal(sys, job, cosine)
    ensures job.embedding.None? ==> d.total == d.title + d.description + d.experience
  {
    ScoreDetails(TitleScore(sys, job.title), DescriptionScore(sys, job.description),
                 ExperienceScore(sys, job.description), JobTotal(sys, job, cosine))
  }

  /** `score_job`: the three parts, experience read from the description, and their boosted sum. */
  method ScoreJob(sys: ScoringSystem, job: JobText, cosine: (Embedding, Embedding) -> real)
    returns (total: int, details: ScoreDetails)
    ensures details.title == TitleScore(sys, job.title)
    ensures details.description == DescriptionScore(sys, job.description)
    ensures details.experience == ExperienceScore(sys, job.description)
    ensures details.total == total == JobTotal(sys, job, cosine)
    ensures details == JobDetails(sys, job, cosine)
    ensures job.embedding.None? ==> total == details.title + details.description + details.experience
  {
    var t := ScoreTitle(sys, job.title);
    var d := ScoreDescription(sys, job.description);
    var e := ScoreExperience(sys, job.description);
    total := CalculateTotal(sys, t + d + e, job.embedding, None, cosine);
    details := ScoreDetails(t, d, e, total);
  }

  /** `should_include`: a score is admitted when it reaches the threshold. */
  function ShouldInclude(sys: ScoringSystem, score: int): bool
  {
    score >= sys.threshold
  }

  /** Admission is upward closed: a higher score than an admitted one is admitted too. */
  lemma ShouldIncludeMonotone(sys: ScoringSystem, s1: int, s2: int)
    requires ShouldInclude(sys, s1) && s1 <= s2
    ensures ShouldInclude(sys, s2)
  {
  }
}

/**
 * The configuration side of `src/pipeline.py`: the settings the module reads
 * once at import time, the prerequisite check, and the folding of AI-detected
 * skill weights into a copy of the configuration before the scoring system is
 * built (`_validate_skill_metadata`, `_apply_skill_weights`,
 * `_configure_scoring_system`).
 *
 * Configuration dictionaries are values here, so the deep copies the source
 * takes are implicit: no function can change its argument.
 */
module PipelineConfig {
  import opened Wrappers
  import opened Values
  import opened Dicts
  import opened Scoring
  import opened PersonaBuilder
  import opened Numbers

  /**
   * The `scoring_system` section as the pipeline reads it: the settings the
   * scoring system is built from, whether `description_weights.positive`
   * exists (the dictionary skill weights are written into; when it does not,
   * `settings.descPositive` holds the empty default), and the two keys that
   * only the pipeline reads.
   */
  datatype ScoringSection = ScoringSection(
    settings: ScoringConfig,
    positivePresent: bool,
    dynamicSkillWeight: Option<int>,
    minImportance: Option<real>)

  /** The parts of the configuration dictionary the pipeline logic reads. */
  datatype Config = Config(geminiApiKey: Option<string>, scoring: Option<ScoringSection>)

  /** `ai_reranking_settings`: `enabled` and `rerank_pool_size`. */
  datatype RerankSettings = RerankSettings(enabled: bool, poolSize: Option<int>)

  /** The module-level settings of the pipeline, passed explicitly. */
  datatype Settings = Settings(
    minSimilarityThreshold: real,
    targetSites: seq<string>,
    personaSearchConfig: seq<(string, PersonaSearch)>,
    rerank: RerankSettings,
    topK: int,
    tokenLimit: nat)

  const PlaceholderApiKey := "your_gemini_api_key_here"
  const DefaultSkillWeight := 10
  const DefaultMinImportance := 0.75

  /** The state of the CV file named in the configuration, as the file system reports it. */
  datatype CvFile = CvMissing | CvEmpty | CvUnreadable | CvPresent

  /** `validate_prerequisites`: a real API key and a non-empty, readable CV file. */
  predicate PrerequisitesMet(cfg: Config, cv: CvFile)
  {
    cfg.geminiApiKey.Some? && |cfg.geminiApiKey.value| > 0 && cfg.geminiApiKey.value != PlaceholderApiKey
    && cv == CvPresent
  }

  /** A `scoring_system` section with every key absent. */
  const EmptyScoringConfig := ScoringConfig(None, None, None, None, None, [], [], [], [], None, [])

  /** `config.get("scoring_system", {})` as the scoring system reads it. */
  function ScoringSettings(cfg: Config): ScoringConfig
  {
    if cfg.scoring.Some? then cfg.scoring.value.settings else EmptyScoringConfig
  }

  /** The positive description weights, `{}` when absent. */
  function PositiveWeights(cfg: Config): seq<(string, int)>
  {
    ScoringSettings(cfg).descPositive
  }

  /** Whether `cfg["scoring_system"]["description_weights"]["positive"]` can be written. */
  predicate Writable(cfg: Config)
  {
    cfg.scoring.Some? && cfg.scoring.value.positivePresent
  }

  /** `a` and `b` agree everywhere except, possibly, on the positive description weights. */
  predicate SameExceptPositive(a: Config, b: Config)
  {
    a.geminiApiKey == b.geminiApiKey
    && a.scoring.Some? == b.scoring.Some?
    && (a.scoring.Some? ==>
          a.scoring.value.(settings := a.scoring.value.settings.(descPositive := []))
          == b.scoring.value.(settings := b.scoring.value.settings.(descPositive := [])))
  }

  /** `_validate_skill_metadata`: two lists of equal length, of strings and of numbers. */
  predicate SkillMetadataValid(keySkills: Value, importance: Value)
  {
    keySkills.List? && importance.List?
    && |keySkills.items| == |importance.items|
    && AllStrings(keySkills.items) && AllNumbers(importance.items)
  }

  /** `int(round(base_weight * importance))`. */
  function SkillWeight(baseWeight: int, importance: real): int
  {
    Round(baseWeight as real * importance)
  }

  /**
   * `_apply_skill_weights`: a copy of the configuration in which `skill`
   * weighs `int(round(base_weight * importance))` when the importance reaches
   * the minimum; writing into a configuration without the positive weights
   * dictionary raises `KeyError`.
   */
  function ApplySkillWeights(cfg: Config, skill: string, importance: real, baseWeight: int, minImp: real)
    : (r: Result<Config, Exception>)
    ensures importance < minImp ==> r == Success(cfg)
    ensures importance >= minImp ==> (r.Failure? <==> !Writable(cfg))
    ensures r.Failure? ==> r.error == KeyError
    ensures r.Success? ==> SameExceptPositive(cfg, r.value) && (Writable(r.value) <==> Writable(cfg))
  {
    if importance < minImp then Success(cfg)
    else if !Writable(cfg) then Failure(KeyError)
    else
      var section := cfg.scoring.value;
      var weights := Put(section.settings.descPositive, skill, SkillWeight(baseWeight, importance));
      Success(cfg.(scoring := Some(section.(settings := section.settings.(descPositive := weights)))))
  }

  /** What one application does to the weight of each key. */
  lemma ApplySkillWeightsLookup(cfg: Config, skill: string, importance: real, baseWeight: int, minImp: real, k: string)
    requires ApplySkillWeights(cfg, skill, importance, baseWeight, minImp).Success?
    ensures Lookup(PositiveWeights(ApplySkillWeights(cfg, skill, importance, baseWeight, minImp).value), k)
            == if k == skill && importance >= minImp then Some(SkillWeight(baseWeight, importance))
               else Lookup(PositiveWeights(cfg), k)
  {
    if importance >= minImp {
      PutLookup(PositiveWeights(cfg), skill, SkillWeight(baseWeight, importance), k);
    }
  }

  /** The configuration after applying the first `n` skills in order, stopping at the first error. */
  function SkillWeightsFold(cfg: Config, skills: seq<string>, imps: seq<real>, baseWeight: int, minImp: real,
                            n: nat): Result<Config, Exception>
    requires n <= |skills| == |imps|
  {
    if n == 0 then Success(cfg)
    else
      match SkillWeightsFold(cfg, skills, imps, baseWeight, minImp, n - 1)
      case Failure(e) => Failure(e)
      case Success(c) => ApplySkillWeights(c, skills[n - 1], imps[n - 1], baseWeight, minImp)
  }

  /** The index of the last of the first `n` skills named `k` whose importance reaches the minimum. */
  function LastQualifying(skills: seq<string>, imps: seq<real>, minImp: real, k: string, n: nat): (j: Option<nat>)
    requires n <= |skills| == |imps|
    ensures j.Some? ==> j.value < n && skills[j.value] == k && imps[j.value] >= minImp
    ensures j.Some? ==> forall i :: j.value < i < n ==> !(skills[i] == k && imps[i] >= minImp)
    ensures j.None? ==> forall i :: 0 <= i < n ==> !(skills[i] == k && imps[i] >= minImp)
  {
    if n == 0 then None
    else if skills[n - 1] == k && imps[n - 1] >= minImp then Some(n - 1)
    else LastQualifying(skills, imps, minImp, k, n - 1)
  }

  /** The weight of `k` given the index of its last qualifying occurrence, if any. */
  function WeightAfter(cfg: Config, imps: seq<real>, baseWeight: int, last: Option<nat>,
                       k: string): Option<int>
    requires last.Some? ==> last.value < |imps|
  {
    match last
    case None => Lookup(PositiveWeights(cfg), k)
    case Some(j) => Some(SkillWeight(baseWeight, imps[j]))
  }

  /** Some skill among the first `n` reaches the minimum importance. */
  predicate AnyQualifying(imps: seq<real>, minImp: real, n: nat)
    requires n <= |imps|
  {
    exists i :: 0 <= i < n && imps[i] >= minImp
  }

  /**
   * The fold fails exactly when some skill qualifies and the configuration
   * has nowhere to write it; otherwise only the positive weights change.
   */
  lemma {:induction false} SkillWeightsFoldOutcome(cfg: Config, skills: seq<string>, imps: seq<real>, baseWeight: int,
                                                   minImp: real, n: nat)
    requires n <= |skills| == |imps|
    ensures SkillWeightsFold(cfg, skills, imps, baseWeight, minImp, n).Failure?
            <==> AnyQualifying(imps, minImp, n) && !Writable(cfg)
    ensures SkillWeightsFold(cfg, skills, imps, baseWeight, minImp, n).Success? ==>
            var c := SkillWeightsFold(cfg, skills, imps, baseWeight, minImp, n).value;
            SameExceptPositive(cfg, c) && (Writable(c) <==> Writable(cfg))
  {
    if n > 0 {
      SkillWeightsFoldOutcome(cfg, skills, imps, baseWeight, minImp, n - 1);
      var prev := SkillWeightsFold(cfg, skills, imps, baseWeight, minImp, n - 1);
      if AnyQualifying(imps, minImp, n - 1) {
        var i :| 0 <= i < n - 1 && imps[i] >= minImp;
        assert 0 <= i < n && imps[i] >= minImp;
      }
      if imps[n - 1] >= minImp {
        assert AnyQualifying(imps, minImp, n);
      }
      if AnyQualifying(imps, minImp, n) && !AnyQualifying(imps, minImp, n - 1) {
        var i :| 0 <= i < n && imps[i] >= minImp;
        assert i == n - 1;
      }
    }
  }

  /**
   * After a successful fold each key weighs what its last qualifying
   * occurrence set, and keys that never qualify keep their weight.
   */
  lemma {:induction false} SkillWeightsFoldLookup(cfg: Config, skills: seq<string>, imps: seq<real>, baseWeight: int,
                                                  minImp: real, n: nat, k: string)
    requires n <= |skills| == |imps|
    requires SkillWeightsFold(cfg, skills, imps, baseWeight, minImp, n).Success?
    ensures Lookup(PositiveWeights(SkillWeightsFold(cfg, skills, imps, baseWeight, minImp, n).value), k)
            == WeightAfter(cfg, imps, baseWeight, LastQualifying(skills, imps, minImp, k, n), k)
  {
    if n > 0 {
      var prev := SkillWeightsFold(cfg, skills, imps, baseWeight, minImp, n - 1);
      var skill, imp := skills[n - 1], imps[n - 1];
      SkillWeightsFoldLookup(cfg, skills, imps, baseWeight, minImp, n - 1, k);
      ApplySkillWeightsLookup(prev.value, skill, imp, baseWeight, minImp, k);
      assert SkillWeightsFold(cfg, skills, imps, baseWeight, minImp, n)
             == ApplySkillWeights(prev.value, skill, imp, baseWeight, minImp);
      if skill == k && imp >= minImp {
        assert LastQualifying(skills, imps, minImp, k, n) == Some(n - 1);
      } else {
        assert LastQualifying(skills, imps, minImp, k, n) == LastQualifying(skills, imps, minImp, k, n - 1);
      }
    }
  }

  /** Once the fold has failed it stays failed. */
  lemma {:induction false} SkillWeightsFoldStaysFailed(cfg: Config, skills: seq<string>, imps: seq<real>, baseWeight: int,
                                                       minImp: real, n: nat, m: nat)
    requires n <= m <= |skills| == |imps|
    requires SkillWeightsFold(cfg, skills, imps, baseWeight, minImp, n).Failure?
    ensures SkillWeightsFold(cfg, skills, imps, baseWeight, minImp, m).Failure?
    decreases m
  {
    if m > n {
      SkillWeightsFoldStaysFailed(cfg, skills, imps, baseWeight, minImp, n, m - 1);
    }
  }

  /** Whether `_configure_scoring_system` uses the static configuration unchanged. */
  predicate UsesStaticScoring(md: map<string, Value>)
  {
    var keySkills := Get(md, "key_skills", Null);
    var importance := Get(md, "skill_importance", Null);
    !(Truthy(keySkills) && Truthy(importance)) || !SkillMetadataValid(keySkills, importance)
  }

  /** The configuration with the AI-detected skill weights folded in (the dynamic path). */
  function DynamicConfig(config: Config, md: map<string, Value>): Result<Config, Exception>
    requires !UsesStaticScoring(md)
  {
    if config.scoring.None? then Failure(KeyError)
    else
      var keySkills := Get(md, "key_skills", Null).items;
      var importance := Get(md, "skill_importance", Null).items;
      SkillWeightsFold(config, Strings(keySkills), Reals(importance),
                       config.scoring.value.dynamicSkillWeight.GetOr(DefaultSkillWeight),
                       config.scoring.value.minImportance.GetOr(DefaultMinImportance), |keySkills|)
  }

  /** The scoring system `_configure_scoring_system` returns; `None` when a `KeyError` was caught. */
  function ConfiguredSystem(config: Config, md: map<string, Value>): Option<ScoringSystem>
  {
    if UsesStaticScoring(md) then Some(SystemFor(ScoringSettings(config), None))
    else
      match DynamicConfig(config, md)
      case Failure(_) => None
      case Success(c) => Some(SystemFor(ScoringSettings(c), None))
  }

  /**
   * Missing, empty or malformed skill metadata gives the system of the
   * unmodified configuration; otherwise configuration fails exactly when a
   * key the fold needs is missing, and the system is built from a
   * configuration that differs from the input only in its positive weights.
   */
  lemma ConfiguredSystemOutcome(config: Config, md: map<string, Value>)
    ensures UsesStaticScoring(md) ==> ConfiguredSystem(config, md) == Some(SystemFor(ScoringSettings(config), None))
    ensures !UsesStaticScoring(md) ==>
            (ConfiguredSystem(config, md).None?
             <==> config.scoring.None?
                  || (AnyQualifying(Reals(Get(md, "skill_importance", Null).items),
                                    config.scoring.value.minImportance.GetOr(DefaultMinImportance),
                                    |Get(md, "skill_importance", Null).items|)
                      && !config.scoring.value.positivePresent))
    ensures !UsesStaticScoring(md) && DynamicConfig(config, md).Success? ==>
            SameExceptPositive(config, DynamicConfig(config, md).value)
            && ConfiguredSystem(config, md) == Some(SystemFor(ScoringSettings(DynamicConfig(config, md).value), None))
  {
    if !UsesStaticScoring(md) && config.scoring.Some? {
      var keySkills := Get(md, "key_skills", Null).items;
      var importance := Get(md, "skill_importance", Null).items;
      SkillWeightsFoldOutcome(config, Strings(keySkills), Reals(importance),
                              config.scoring.value.dynamicSkillWeight.GetOr(DefaultSkillWeight),
                              config.scoring.value.minImportance.GetOr(DefaultMinImportance), |keySkills|);
    }
  }

  /** `_configure_scoring_system`: the loop over the skills applies `_apply_skill_weights` in order. */
  method ConfigureScoring(config: Config, md: map<string, Value>) returns (sys: Option<ScoringSystem>)
    ensures sys == ConfiguredSystem(config, md)
  {
    var keySkills := Get(md, "key_skills", Null);
    var importance := Get(md, "skill_importance", Null);
    if !(Truthy(keySkills) && Truthy(importance)) || !SkillMetadataValid(keySkills, importance) {
      var s := NewScoringSystem(ScoringSettings(config), None);
      return Some(s);
    }
    if config.scoring.None? {
      return None;
    }
    var baseWeight := config.scoring.value.dynamicSkillWeight.GetOr(DefaultSkillWeight);
    var minImp := config.scoring.value.minImportance.GetOr(DefaultMinImportance);
    var skills := Strings(keySkills.items);
    var imps := Reals(importance.items);
    var current := config;
    for n := 0 to |skills|
      invariant SkillWeightsFold(config, skills, imps, baseWeight, minImp, n) == Success(current)
    {
      var next := ApplySkillWeights(current, skills[n], imps[n], baseWeight, minImp);
      if next.Failure? {
        SkillWeightsFoldStaysFailed(config, skills, imps, baseWeight, minImp, n + 1, |skills|);
        return None;
      }
      current := next.value;
    }
    var s := NewScoringSystem(ScoringSettings(current), None);
    return Some(s);
  }
}

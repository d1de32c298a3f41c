/**
 * `JobAnalysisPipeline.run` and `_setup_ai_metadata_and_personas`: the
 * prerequisite gate, the threshold and rerank flag taken from the command
 * line, the choice between dynamic and static personas, and the scoring
 * system stored on the context.
 */
module PipelineRun {
  import opened Wrappers
  import opened Values
  import opened Scoring
  import opened PersonaBuilder
  import opened PipelineConfig
  import opened Context

  /** `target_job_titles` is a non-empty list of strings. */
  predicate HasTargetTitles(md: map<string, Value>)
  {
    var titles := Get(md, "target_job_titles", Null);
    titles.List? && |titles.items| > 0 && AllStrings(titles.items)
  }

  /** The personas a run uses: built from the AI-detected titles when there are any, else the static ones. */
  function ChosenPersonas(md: map<string, Value>, staticPersonas: seq<(string, PersonaSearch)>)
    : (r: seq<(string, PersonaSearch)>)
    ensures HasTargetTitles(md) ==>
            r == Personas(Strings(Get(md, "target_job_titles", Null).items), DefaultHoursOld, DefaultResults)
    ensures !HasTargetTitles(md) ==> r == staticPersonas
  {
    var titles := Get(md, "target_job_titles", Null);
    if |md| > 0 && Truthy(titles) && titles.List? && AllStrings(titles.items) then
      Personas(Strings(titles.items), DefaultHoursOld, DefaultResults)
    else staticPersonas
  }

  /**
   * `_setup_ai_metadata_and_personas`.  `extracted` is what the CV analyser
   * returned for the CV file; `None` stands for `CVNotFoundError`, which
   * leaves the context unchanged and is reported as `raised`.
   */
  method SetupAiMetadataAndPersonas(ctx: PipelineContext, staticPersonas: seq<(string, PersonaSearch)>,
                                    extracted: Option<map<string, Value>>)
    returns (raised: bool)
    modifies ctx`aiMetadata, ctx`personasConfig
    ensures raised <==> extracted.None?
    ensures raised ==> ctx.aiMetadata == old(ctx.aiMetadata) && ctx.personasConfig == old(ctx.personasConfig)
    ensures !raised ==> ctx.aiMetadata == extracted.value
                        && ctx.personasConfig == ChosenPersonas(extracted.value, staticPersonas)
  {
    if extracted.None? {
      return true;
    }
    var md := extracted.value;
    var personas := staticPersonas;
    var titles := Get(md, "target_job_titles", Null);
    if |md| > 0 && Truthy(titles) {
      if titles.List? && AllStrings(titles.items) {
        personas := BuildDynamicPersonas(Strings(titles.items), DefaultHoursOld, DefaultResults);
      }
    }
    ctx.aiMetadata := md;
    ctx.personasConfig := personas;
    return false;
  }

  /**
   * `JobAnalysisPipeline.run` up to the hand-over to the full pipeline: the
   * state of the CV file and the analyser's answer are inputs.
   */
  method Run(settings: Settings, config: Config, cli: CliArgs, cv: CvFile, extracted: Option<map<string, Value>>)
    returns (ctx: PipelineContext)
    ensures fresh(ctx)
    ensures ctx.config == config && ctx.cliArgs == cli
    ensures !PrerequisitesMet(config, cv) ==>
            ctx.threshold == DefaultContextThreshold && ctx.rerankFlag
            && ctx.aiMetadata == map[] && ctx.personasConfig == [] && ctx.scoringSystem.None?
    ensures PrerequisitesMet(config, cv) ==>
            ctx.threshold == cli.threshold.GetOr(settings.minSimilarityThreshold)
            && ctx.rerankFlag == !cli.noRerank
    ensures PrerequisitesMet(config, cv) && extracted.None? ==>
            ctx.aiMetadata == map[] && ctx.personasConfig == [] && ctx.scoringSystem.None?
    ensures PrerequisitesMet(config, cv) && extracted.Some? ==>
            ctx.aiMetadata == extracted.value
            && ctx.personasConfig == ChosenPersonas(extracted.value, settings.personaSearchConfig)
            && ctx.scoringSystem == ConfiguredSystem(config, extracted.value)
  {
    ctx := new PipelineContext(config, cli);
    if !PrerequisitesMet(config, cv) {
      return;
    }
    ctx.threshold := if cli.threshold.Some? then cli.threshold.value else settings.minSimilarityThreshold;
    ctx.rerankFlag := !cli.noRerank;
    var raised := SetupAiMetadataAndPersonas(ctx, settings.personaSearchConfig, extracted);
    if raised {
      return;
    }
    var sys := ConfigureScoring(config, ctx.aiMetadata);
    if sys.None? {
      return;
    }
    ctx.scoringSystem := sys;
  }
}

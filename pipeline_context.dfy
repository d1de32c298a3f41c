/**
 * The mutable record that carries one run of the job analysis pipeline
 * (`src/models/pipeline_context.py`).
 */
module Context {
  import opened Wrappers
  import opened Values
  import opened Scoring
  import opened Jobs
  import opened Frames
  import opened PersonaBuilder
  import opened PipelineConfig

  /** The command-line arguments the pipeline reads; an empty persona list stands for `None`. */
  datatype CliArgs = CliArgs(persona: seq<string>, threshold: Option<real>, noRerank: bool, results: Option<int>)

  /** The similarity threshold a fresh context starts with. */
  const DefaultContextThreshold := 60.0

  class PipelineContext {
    var config: Config
    var cliArgs: CliArgs
    var cvText: Option<string>
    var cvEmbedding: Option<Embedding>
    var aiMetadata: map<string, Value>
    var personasConfig: seq<(string, PersonaSearch)>
    var threshold: real
    var rerankFlag: bool
    var rawJobs: Option<Frame>
    var vectorStorePath: Option<string>
    var initialMatches: seq<Job>
    var scoredJobs: seq<Job>
    var finalResults: seq<Job>
    var scoringSystem: Option<ScoringSystem>
    var hoursOld: Option<int>

    /** The dataclass constructor: the two given fields, every other field at its default. */
    constructor (config: Config, cliArgs: CliArgs)
      ensures this.config == config && this.cliArgs == cliArgs
      ensures cvText.None? && cvEmbedding.None?
      ensures aiMetadata == map[] && personasConfig == []
      ensures threshold == DefaultContextThreshold && rerankFlag
      ensures rawJobs.None? && vectorStorePath.None?
      ensures initialMatches == [] && scoredJobs == [] && finalResults == []
      ensures scoringSystem.None? && hoursOld.None?
    {
      this.config := config;
      this.cliArgs := cliArgs;
      cvText := None;
      cvEmbedding := None;
      aiMetadata := map[];
      personasConfig := [];
      threshold := DefaultContextThreshold;
      rerankFlag := true;
      rawJobs := None;
      vectorStorePath := None;
      initialMatches := [];
      scoredJobs := [];
      finalResults := [];
      scoringSystem := None;
      hoursOld := None;
    }
  }
}

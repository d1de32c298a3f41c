/**
 * A job listing as the pipeline passes it around: a dictionary shared by
 * reference, whose scoring and analysis keys are written in place.  The
 * listing's own keys are set when the dictionary is built and never
 * rewritten.  Keys that are absent read as "" (texts) or `None`.
 */
module Jobs {
  import opened Wrappers
  import opened Scoring
  import opened Values

  /**
   * The keys `_analyse_single_job` writes in one `job.update(...)`, with the
   * values read from the model's decoded reply, whatever their types.
   */
  datatype Analysis = Analysis(
    fitScore: Value,
    isRecommended: Value,
    reasoning: Value,
    matchingKeywords: Value,
    missingKeywords: Value)

  class Job {
    const title: string
    const company: string
    const location: string
    const description: string
    const url: string
    const embedding: Option<Embedding>
    /** Set once, when the job is built from a search hit, and never rewritten. */
    const similarityScore: Option<real>
    var score: Option<int>
    var details: Option<ScoreDetails>
    var analysis: Option<Analysis>

    /** A listing as collected or searched: nothing scored or analysed yet. */
    constructor (title: string, company: string, location: string, description: string,
                 url: string, embedding: Option<Embedding>, similarityScore: Option<real>)
      ensures this.title == title && this.company == company && this.location == location
      ensures this.description == description && this.url == url
      ensures this.embedding == embedding && this.similarityScore == similarityScore
      ensures score.None? && details.None? && analysis.None?
    {
      this.title := title;
      this.company := company;
      this.location := location;
      this.description := description;
      this.url := url;
      this.embedding := embedding;
      this.similarityScore := similarityScore;
      score := None;
      details := None;
      analysis := None;
    }

    /** The fields the scoring engine reads. */
    ghost function Text(): JobText
    {
      JobText(title, description, embedding)
    }
  }
}

/**
 * The matching half of the pipeline: embeddings for the collected rows
 * (`_process_job_embeddings`), the similarity search and scoring
 * (`_search_and_score_jobs`), the optional Gemini rerank
 * (`_analyse_single_job`, `_rerank_with_ai_analysis`) and the gate that
 * decides whether it runs (`_score_and_rank_jobs`).  The vector store,
 * the embedding service and the generative model are inputs.
 */
module PipelineSearch {
  import opened Wrappers
  import opened Values
  import opened Text
  import opened Scoring
  import opened Jobs
  import opened Ranking
  import opened JobScoring
  import opened Frames
  import opened JsonHelpers
  import opened PipelineConfig
  import opened Context

  // ---------------------------------------------------------------------
  // _process_job_embeddings
  // ---------------------------------------------------------------------

  /** `vector_store.job_exists(job_dict)`. */
  type StoredTest = Row -> bool

  /** `EmbeddingService.create_embedding`: `None` when it gives none or raises. */
  type Embedder = string -> Option<Embedding>

  /**
   * What the loop appends for one row: nothing for a row already stored, for
   * a frame without a description column (reading it raises `KeyError`, which
   * the generic handler turns into `None`) and for a missing description;
   * otherwise the embedding of the description.
   */
  function RowEmbedding(hasDescription: bool, row: Row, stored: StoredTest, embed: Embedder): (e: Option<Embedding>)
    ensures stored(row) ==> e.None?
    ensures e.Some? <==> !stored(row) && hasDescription && row.description.Some? && embed(row.description.value).Some?
    ensures e.Some? ==> e == embed(row.description.value)
  {
    if stored(row) then None
    else if !hasDescription || row.description.None? then None
    else embed(row.description.value)
  }

  /** `_process_job_embeddings`: one entry per row, index-aligned with the frame. */
  method ProcessJobEmbeddings(frame: Frame, stored: StoredTest, embed: Embedder)
    returns (embeddings: seq<Option<Embedding>>)
    ensures |embeddings| == |frame.rows|
    ensures forall k :: 0 <= k < |frame.rows| ==>
              embeddings[k] == RowEmbedding(frame.hasDescription, frame.rows[k], stored, embed)
  {
    embeddings := [];
    for i := 0 to |frame.rows|
      invariant |embeddings| == i
      invariant forall k :: 0 <= k < i ==>
                  embeddings[k] == RowEmbedding(frame.hasDescription, frame.rows[k], stored, embed)
    {
      var row := frame.rows[i];
      if stored(row) {
        embeddings := embeddings + [None];
      } else if frame.hasDescription && row.description.Some? {
        embeddings := embeddings + [embed(row.description.value)];
      } else {
        embeddings := embeddings + [None];
      }
    }
  }

  // ---------------------------------------------------------------------
  // _search_and_score_jobs
  // ---------------------------------------------------------------------

  /** The metadata of a search hit; a key it lacks reads as "". */
  datatype Metadata = Metadata(title: string, company: string, location: string, description: string, url: string)

  /** `vector_store.search_jobs(cv_embedding, n_results=top_k)`: the hits' metadatas and distances. */
  type Search = (Embedding, int) -> (seq<Metadata>, seq<real>)

  /** A cosine distance as a percentage similarity. */
  function Similarity(distance: real): (s: real)
    ensures s == 100.0 <==> distance == 0.0
    ensures s >= 0.0 <==> distance <= 1.0
  {
    (1.0 - distance) * 100.0
  }

  /** A nearer hit is at least as similar, and the threshold test is a bound on the distance. */
  lemma SimilarityOrder(d1: real, d2: real, threshold: real)
    ensures d1 <= d2 ==> Similarity(d1) >= Similarity(d2)
    ensures Similarity(d1) >= threshold <==> d1 <= 1.0 - threshold / 100.0
  {
    assert Similarity(d1) - Similarity(d2) == (d2 - d1) * 100.0;
  }

  /** A job built from a hit: the metadata's keys plus `similarity_score`. */
  ghost predicate FromHit(job: Job, md: Metadata, distance: real)
  {
    job.title == md.title && job.company == md.company && job.location == md.location
    && job.description == md.description && job.url == md.url && job.embedding.None?
    && job.similarityScore == Some(Similarity(distance))
  }

  /** `job["similarity_score"] >= threshold`. */
  predicate Passes(job: Job, threshold: real)
  {
    job.similarityScore.Some? && job.similarityScore.value >= threshold
  }

  /** The jobs among the first `n` that pass the threshold, in order. */
  function AtLeast(jobs: seq<Job>, threshold: real, n: nat): (r: seq<Job>)
    requires n <= |jobs|
    ensures |r| <= n
  {
    if n == 0 then []
    else AtLeast(jobs, threshold, n - 1) + (if Passes(jobs[n - 1], threshold) then [jobs[n - 1]] else [])
  }

  /** The threshold filter keeps exactly the passing jobs. */
  lemma {:induction false} AtLeastMembers(jobs: seq<Job>, threshold: real, n: nat, j: Job)
    requires n <= |jobs|
    ensures j in AtLeast(jobs, threshold, n) <==> j in jobs[..n] && Passes(j, threshold)
  {
    if n > 0 {
      AtLeastMembers(jobs, threshold, n - 1, j);
      assert jobs[..n] == jobs[..n - 1] + [jobs[n - 1]];
    }
  }

  /** What `score_jobs` returned and the threshold kept are jobs of the search, each passing the threshold. */
  lemma KeptFromHits(sys: ScoringSystem, totals: seq<int>, hits: seq<Job>, order: seq<Ranked<Job>>, threshold: real)
    requires |totals| == |hits|
    requires multiset(order) == multiset(AdmittedEntries(sys, totals, hits, |hits|))
    ensures forall j :: j in AtLeast(Items(order), threshold, |order|) ==> j in hits && Passes(j, threshold)
  {
    var admitted := AdmittedEntries(sys, totals, hits, |hits|);
    AdmittedEntriesSound(sys, totals, hits, |hits|);
    var items := Items(order);
    assert items[..|order|] == items;
    forall j | j in AtLeast(items, threshold, |order|)
      ensures j in hits && Passes(j, threshold)
    {
      AtLeastMembers(items, threshold, |order|, j);
      var m :| 0 <= m < |order| && items[m] == j;
      assert order[m] in multiset(admitted);
      var q :| 0 <= q < |admitted| && admitted[q] == order[m];
    }
  }

  /** The jobs built from the search hits, one per (metadata, distance) pair up to the shorter list. */
  method BuildHits(metadatas: seq<Metadata>, distances: seq<real>) returns (hits: seq<Job>)
    ensures |hits| == (if |metadatas| < |distances| then |metadatas| else |distances|)
    ensures forall k :: 0 <= k < |hits| ==> fresh(hits[k]) && FromHit(hits[k], metadatas[k], distances[k])
                                             && hits[k].analysis.None?
  {
    var n := if |metadatas| < |distances| then |metadatas| else |distances|;
    hits := [];
    for i := 0 to n
      invariant |hits| == i
      invariant forall k :: 0 <= k < i ==> fresh(hits[k]) && FromHit(hits[k], metadatas[k], distances[k])
                                           && hits[k].analysis.None?
    {
      var md := metadatas[i];
      var job := new Job(md.title, md.company, md.location, md.description, md.url, None,
                         Some(Similarity(distances[i])));
      hits := hits + [job];
    }
  }

  /**
   * `_search_and_score_jobs`: one job per (metadata, distance) pair up to the
   * shorter list, scored by `score_jobs`, then kept when its similarity
   * reaches the threshold.  `hits` are the jobs built from the search and
   * `order` the ranked list `score_jobs` returned.
   */
  method SearchAndScoreJobs(sys: ScoringSystem, metadatas: seq<Metadata>, distances: seq<real>, threshold: real,
                            cosine: (Embedding, Embedding) -> real)
    returns (result: seq<Job>, ghost hits: seq<Job>, ghost order: seq<Ranked<Job>>)
    ensures |hits| == (if |metadatas| < |distances| then |metadatas| else |distances|)
    ensures forall k :: 0 <= k < |hits| ==> FromHit(hits[k], metadatas[k], distances[k])
    ensures forall k :: 0 <= k < |hits| ==> fresh(hits[k]) && hits[k].analysis.None?
    ensures hits == [] ==> result == [] && order == []
    ensures forall k :: 0 <= k < |hits| ==> Scored(hits[k], AllDetails(sys, Texts(hits), cosine)[k])
    ensures multiset(order) == multiset(AdmittedEntries(sys, Totals(sys, Texts(hits), cosine), hits, |hits|))
    ensures Ordered(order)
    ensures result == AtLeast(Items(order), threshold, |order|)
    ensures forall j :: j in result ==> fresh(j) && j in hits && Passes(j, threshold)
  {
    var built := BuildHits(metadatas, distances);
    hits := built;
    if built == [] {
      return [], hits, [];
    }
    var scored;
    scored, order := ScoreJobs(sys, built, cosine);
    result := AtLeast(scored, threshold, |scored|);
    KeptFromHits(sys, Totals(sys, Texts(hits), cosine), hits, order, threshold);
  }

  // ---------------------------------------------------------------------
  // _analyse_single_job
  // ---------------------------------------------------------------------

  /** The fields of `RERANK_PROMPT_TEMPLATE`. */
  datatype RerankPrompt = RerankPrompt(cvSummary: Value, title: string, description: string)

  /** `model.generate_content(prompt).text`; `None` when the call raises. */
  type Generator = RerankPrompt -> Option<string>

  /** The prompt for a job: its description is cut to the first `tokenLimit` characters. */
  function Prompt(cvSummary: Value, title: string, description: string, tokenLimit: nat): (p: RerankPrompt)
    ensures p.cvSummary == cvSummary && p.title == title
    ensures |p.description| <= tokenLimit && p.description <= description
    ensures |description| <= tokenLimit ==> p.description == description
  {
    RerankPrompt(cvSummary, title, Prefix(description, tokenLimit))
  }

  /** The five keys `job.update` writes, each with its default for a key the reply lacks. */
  function AnalysisOf(fields: map<string, Value>): (a: Analysis)
    ensures "fit_score" in fields ==> a.fitScore == fields["fit_score"]
    ensures "fit_score" !in fields ==> a.fitScore == Int(0)
    ensures "is_recommended" in fields ==> a.isRecommended == fields["is_recommended"]
    ensures "is_recommended" !in fields ==> a.isRecommended == Bool(false)
    ensures "reasoning" in fields ==> a.reasoning == fields["reasoning"]
    ensures "reasoning" !in fields ==> a.reasoning == Str("")
    ensures "matching_keywords" in fields ==> a.matchingKeywords == fields["matching_keywords"]
    ensures "matching_keywords" !in fields ==> a.matchingKeywords == List([])
    ensures "missing_keywords" in fields ==> a.missingKeywords == fields["missing_keywords"]
    ensures "missing_keywords" !in fields ==> a.missingKeywords == List([])
  {
    Analysis(Get(fields, "fit_score", Int(0)), Get(fields, "is_recommended", Bool(false)),
             Get(fields, "reasoning", Str("")), Get(fields, "matching_keywords", List([])),
             Get(fields, "missing_keywords", List([])))
  }

  /**
   * What a reply does to the job: nothing when the call raised, the reply
   * is blank, no JSON can be extracted, or the JSON is not an object (its
   * `.get` raises and the handler keeps the job); otherwise the analysis.
   */
  function ReplyAnalysis(reply: Option<string>, decode: Decoder): (r: Option<Analysis>)
    ensures reply.None? ==> r.None?
    ensures reply.Some? && Strip(reply.value) == "" ==> r.None?
    ensures reply.Some? && ExtractJson(reply.value, decode).None? ==> r.None?
    ensures reply.Some? && ExtractJson(reply.value, decode).Some? && !ExtractJson(reply.value, decode).value.Object? ==>
            r.None?
    ensures r.Some? ==> exists fields :: ExtractJson(reply.value, decode) == Some(Object(fields)) && r.value == AnalysisOf(fields)
  {
    if reply.None? || |reply.value| == 0 || Strip(reply.value) == "" then None
    else
      match ExtractJson(reply.value, decode)
      case None => None
      case Some(data) => if data.Object? then Some(AnalysisOf(data.fields)) else None
  }

  /** What analysing `job` yields, given its title and description. */
  function Outcome(job: Job, cvSummary: Value, tokenLimit: nat, generate: Generator, decode: Decoder): Option<Analysis>
  {
    ReplyAnalysis(generate(Prompt(cvSummary, job.title, job.description, tokenLimit)), decode)
  }

  /** `_analyse_single_job`: the analysis keys are written when the reply yields them, and nothing else changes. */
  method AnalyseSingleJob(job: Job, cvSummary: Value, tokenLimit: nat, generate: Generator, decode: Decoder)
    modifies job`analysis
    ensures Outcome(job, cvSummary, tokenLimit, generate, decode).Some? ==>
            job.analysis == Outcome(job, cvSummary, tokenLimit, generate, decode)
    ensures Outcome(job, cvSummary, tokenLimit, generate, decode).None? ==> job.analysis == old(job.analysis)
  {
    var prompt := Prompt(cvSummary, job.title, job.description, tokenLimit);
    var reply := generate(prompt);
    if reply.None? {
      return;
    }
    var text := reply.value;
    if |text| == 0 || Strip(text) == "" {
      return;
    }
    var data := ExtractJson(text, decode);
    if data.None? || !data.value.Object? {
      return;
    }
    job.analysis := Some(AnalysisOf(data.value.fields));
  }

  // ---------------------------------------------------------------------
  // _rerank_with_ai_analysis
  // ---------------------------------------------------------------------

  /** `j.get("is_recommended", False)` is truthy. */
  predicate Recommended(a: Option<Analysis>)
  {
    a.Some? && Truthy(a.value.isRecommended)
  }

  /** `-j.get("fit_score", 0)` does not raise `TypeError`. */
  predicate FitReadable(a: Option<Analysis>)
  {
    a.None? || IsNumber(a.value.fitScore)
  }

  /** The fit score as a number, 0 when absent. */
  function Fit(a: Option<Analysis>): real
  {
    if a.Some? && IsNumber(a.value.fitScore) then AsReal(a.value.fitScore) else 0.0
  }

  /** The sort key, larger first: recommended, then fit score, then similarity. */
  function RerankKey(a: Option<Analysis>, similarity: Option<real>): seq<real>
  {
    [if Recommended(a) then 1.0 else 0.0, Fit(a), similarity.GetOr(0.0)]
  }

  /** `x` may stand before `y` in the reranked list. */
  predicate RankedNoLower(x: Job, y: Job)
    reads x`analysis, y`analysis
  {
    (Recommended(x.analysis) && !Recommended(y.analysis))
    || (Recommended(x.analysis) == Recommended(y.analysis)
        && (Fit(x.analysis) > Fit(y.analysis)
            || (Fit(x.analysis) == Fit(y.analysis) && x.similarityScore.GetOr(0.0) >= y.similarityScore.GetOr(0.0))))
  }

  /** Every job ranks no lower than the ones after it. */
  predicate RerankOrdered(jobs: seq<Job>)
    reads jobs`analysis
  {
    forall i, j :: 0 <= i < j < |jobs| ==> RankedNoLower(jobs[i], jobs[j])
  }

  /** An entry keyed by its job's rerank key, at its position in `jobs`. */
  ghost predicate KeyedAt(e: Ranked<Job>, jobs: seq<Job>)
    reads e.item`analysis
  {
    e.pos < |jobs| && jobs[e.pos] == e.item && e.key == RerankKey(e.item.analysis, e.item.similarityScore)
  }

  /** In a list ordered by rerank keys, every job ranks no lower than the ones after it. */
  lemma {:induction false} OrderedByRerankKey(order: seq<Ranked<Job>>, jobs: seq<Job>, i: nat, j: nat)
    requires Ordered(order) && i < j < |order|
    requires KeyedAt(order[i], jobs) && KeyedAt(order[j], jobs)
    ensures RankedNoLower(order[i].item, order[j].item)
  {
    OrderedIsStableDescending(order, i, j);
    ThreeKeysNotGreater(order[j].key, order[i].key);
  }

  /** Unfolding the lexicographic comparison of two three-part keys. */
  lemma ThreeKeysNotGreater(b: seq<real>, a: seq<real>)
    requires |a| == 3 && |b| == 3 && !KeyGreater(b, a)
    ensures a[0] > b[0] || (a[0] == b[0] && (a[1] > b[1] || (a[1] == b[1] && a[2] >= b[2])))
  {
    assert KeyGreater(b, a) == (b[0] > a[0] || (b[0] == a[0] && KeyGreater(b[1..], a[1..])));
    assert KeyGreater(b[1..], a[1..]) == (b[1] > a[1] || (b[1] == a[1] && KeyGreater(b[2..], a[2..])));
    assert KeyGreater(b[2..], a[2..]) == (b[2] > a[2] || (b[2] == a[2] && KeyGreater(b[3..], a[3..])));
  }

  /** A job after its analysis: the reply's analysis when it gave one, else its old value. */
  ghost predicate Analysed(job: Job, before: Option<Analysis>, outcome: Option<Analysis>)
    reads job`analysis
  {
    job.analysis == (if outcome.Some? then outcome else before)
  }

  /** The invariant of the analysis loop: every job holds its old analysis or its new one. */
  ghost predicate OldOrAnalysed(job: Job, before: Option<Analysis>, outcome: Option<Analysis>)
    reads job`analysis
  {
    job.analysis == before || (outcome.Some? && job.analysis == outcome)
  }

  /** The analysis loop's invariant after `i` turns: the first `i` jobs analysed, each job old or analysed. */
  ghost predicate AnalysedUpTo(jobs: seq<Job>, i: nat, before: seq<Option<Analysis>>, outcomes: seq<Option<Analysis>>)
    reads jobs`analysis
  {
    i <= |jobs| == |before| == |outcomes|
    && (forall k :: 0 <= k < i ==> Analysed(jobs[k], before[k], outcomes[k]))
    && (forall k :: 0 <= k < |jobs| ==> OldOrAnalysed(jobs[k], before[k], outcomes[k]))
  }

  /** One turn of the `executor.map`: job `i` analysed, the jobs before it already done. */
  method AnalyseStep(jobs: seq<Job>, i: nat, job: Job, ghost before: seq<Option<Analysis>>, ghost outcomes: seq<Option<Analysis>>,
                     cvSummary: Value, tokenLimit: nat, generate: Generator, decode: Decoder)
    requires i < |jobs| && job == jobs[i] && AnalysedUpTo(jobs, i, before, outcomes)
    requires outcomes[i] == Outcome(job, cvSummary, tokenLimit, generate, decode)
    requires forall k :: 0 <= k < |jobs| && jobs[k] == job ==> outcomes[k] == outcomes[i]
    modifies job`analysis
    ensures AnalysedUpTo(jobs, i + 1, before, outcomes)
  {
    AnalyseSingleJob(job, cvSummary, tokenLimit, generate, decode);
    assert job.analysis == (if outcomes[i].Some? then outcomes[i] else old(job.analysis));
    forall k | 0 <= k < |jobs|
      ensures OldOrAnalysed(jobs[k], before[k], outcomes[k])
      ensures k <= i ==> Analysed(jobs[k], before[k], outcomes[k])
    {
      if jobs[k] == job {
        assert outcomes[k] == outcomes[i];
        assert old(OldOrAnalysed(jobs[k], before[k], outcomes[k]));
        assert k < i ==> old(Analysed(jobs[k], before[k], outcomes[k]));
      } else {
        assert jobs[k].analysis == old(jobs[k].analysis);
        assert old(OldOrAnalysed(jobs[k], before[k], outcomes[k]));
        assert k < i ==> old(Analysed(jobs[k], before[k], outcomes[k]));
      }
    }
  }

  /** The `executor.map` of `_rerank_with_ai_analysis`: each job analysed in list order. */
  method AnalyseAll(jobs: seq<Job>, cvSummary: Value, tokenLimit: nat, generate: Generator, decode: Decoder)
    modifies jobs`analysis
    ensures forall k :: 0 <= k < |jobs| ==>
              Analysed(jobs[k], old(jobs[k].analysis), Outcome(jobs[k], cvSummary, tokenLimit, generate, decode))
  {
    ghost var before := seq(|jobs|, k requires 0 <= k < |jobs| reads jobs => jobs[k].analysis);
    ghost var outcomes := seq(|jobs|, k requires 0 <= k < |jobs| reads jobs =>
                                Outcome(jobs[k], cvSummary, tokenLimit, generate, decode));
    for i := 0 to |jobs|
      invariant forall k :: 0 <= k < |jobs| ==> before[k] == old(jobs[k].analysis)
      invariant forall k :: 0 <= k < |jobs| ==> outcomes[k] == Outcome(jobs[k], cvSummary, tokenLimit, generate, decode)
      invariant AnalysedUpTo(jobs, i, before, outcomes)
    {
      assert forall k :: 0 <= k < |jobs| && jobs[k] == jobs[i] ==> outcomes[k] == outcomes[i];
      AnalyseStep(jobs, i, jobs[i], before, outcomes, cvSummary, tokenLimit, generate, decode);
    }
  }

  /**
   * The sort keys of the analysed jobs, each at its input position; `None`
   * when some fit score is not a number, where the key function raises.
   */
  method RerankEntries(jobs: seq<Job>) returns (r: Option<seq<Ranked<Job>>>)
    ensures r.None? <==> exists k :: 0 <= k < |jobs| && !FitReadable(jobs[k].analysis)
    ensures r.Some? ==> |r.value| == |jobs|
    ensures r.Some? ==> forall k :: 0 <= k < |jobs| ==>
              r.value[k] == Ranked(RerankKey(jobs[k].analysis, jobs[k].similarityScore), k, jobs[k])
  {
    var entries: seq<Ranked<Job>> := [];
    for i := 0 to |jobs|
      invariant |entries| == i
      invariant forall k :: 0 <= k < i ==> FitReadable(jobs[k].analysis)
      invariant forall k :: 0 <= k < i ==> entries[k] == Ranked(RerankKey(jobs[k].analysis, jobs[k].similarityScore), k, jobs[k])
    {
      var job := jobs[i];
      if !FitReadable(job.analysis) {
        return None;
      }
      entries := entries + [Ranked(RerankKey(job.analysis, job.similarityScore), i, job)];
    }
    return Some(entries);
  }

  /**
   * `_rerank_with_ai_analysis`: every job is analysed in list order, then the
   * list is sorted with recommended jobs first, then by fit score and by
   * similarity, both descending, ties in input order.  A fit score that is
   * not a number makes the key raise `TypeError`.
   */
  method RerankWithAiAnalysis(jobs: seq<Job>, cvSummary: Value, tokenLimit: nat, generate: Generator, decode: Decoder)
    returns (r: Result<seq<Job>, Exception>, ghost order: seq<Ranked<Job>>)
    modifies jobs`analysis
    ensures jobs == [] ==> r == Success([])
    ensures forall k :: 0 <= k < |jobs| ==>
              Analysed(jobs[k], old(jobs[k].analysis), Outcome(jobs[k], cvSummary, tokenLimit, generate, decode))
    ensures r.Failure? <==> exists k :: 0 <= k < |jobs| && !FitReadable(jobs[k].analysis)
    ensures r.Failure? ==> r.error == TypeError
    ensures r.Success? ==> multiset(r.value) == multiset(jobs)
    ensures r.Success? ==> r.value == Items(order) && Ordered(order)
                           && forall k :: 0 <= k < |order| ==> KeyedAt(order[k], jobs)
    ensures r.Success? ==> RerankOrdered(r.value)
  {
    if jobs == [] {
      return Success([]), [];
    }
    AnalyseAll(jobs, cvSummary, tokenLimit, generate, decode);
    var keyed := RerankEntries(jobs);
    if keyed.None? {
      return Failure(TypeError), [];
    }
    var entries := keyed.value;
    assert Items(entries) == jobs;
    var sorted := SortRanked(entries);
    order := sorted;
    ItemsPermutation(order, entries);
    r := Success(Items(sorted));
    forall k | 0 <= k < |order|
      ensures KeyedAt(order[k], jobs)
    {
      assert order[k] in multiset(entries);
    }
    forall i, j | 0 <= i < j < |r.value|
      ensures RankedNoLower(r.value[i], r.value[j])
    {
      OrderedByRerankKey(order, jobs, i, j);
    }
  }

  // ---------------------------------------------------------------------
  // _score_and_rank_jobs
  // ---------------------------------------------------------------------

  /** `rerank_pool_size`, the whole list when it is missing or not positive, as a slice length. */
  function PoolSize(poolSize: Option<int>, n: nat): (p: nat)
    ensures p <= n
    ensures poolSize.Some? && poolSize.value > 0 && poolSize.value <= n ==> p == poolSize.value
    ensures poolSize.None? || poolSize.value <= 0 || poolSize.value >= n ==> p == n
  {
    if poolSize.None? || poolSize.value <= 0 || poolSize.value >= n then n else poolSize.value
  }

  /** The four conditions under which the rerank runs. */
  predicate RerankGate(rerank: RerankSettings, aiMetadata: map<string, Value>, rerankFlag: bool, n: nat)
  {
    rerank.enabled && Truthy(Get(aiMetadata, "cv_summary", Null)) && rerankFlag && n > 0
  }

  /**
   * The second half of `_score_and_rank_jobs`: when the gate is open, the
   * first `rerank_pool_size` jobs are analysed and reranked and the rest
   * dropped; otherwise the list is returned as it is.  The jobs arrive
   * from the search without an analysis; `pool` is what went to the
   * rerank, `ranking` its sorted keys, and the others stay unanalysed.
   */
  method RerankIfEnabled(similar: seq<Job>, rerank: RerankSettings, aiMetadata: map<string, Value>, rerankFlag: bool,
                         tokenLimit: nat, generate: Generator, decode: Decoder)
    returns (r: Result<seq<Job>, Exception>, ghost pool: seq<Job>, ghost ranking: seq<Ranked<Job>>)
    requires forall j :: j in similar ==> j.analysis.None?
    modifies similar`analysis
    ensures !RerankGate(rerank, aiMetadata, rerankFlag, |similar|) ==> r == Success(similar) && pool == []
    ensures RerankGate(rerank, aiMetadata, rerankFlag, |similar|) ==>
            pool == similar[..PoolSize(rerank.poolSize, |similar|)]
            && (forall k :: 0 <= k < |pool| ==>
                  Analysed(pool[k], None, Outcome(pool[k], Get(aiMetadata, "cv_summary", Null), tokenLimit, generate, decode)))
            && (r.Failure? <==> exists k :: 0 <= k < |pool| && !FitReadable(pool[k].analysis))
            && (r.Success? ==> multiset(r.value) == multiset(pool) && RerankOrdered(r.value))
            && (r.Success? ==> r.value == Items(ranking) && Ordered(ranking)
                               && forall k :: 0 <= k < |ranking| ==> KeyedAt(ranking[k], pool))
    ensures r.Failure? ==> r.error == TypeError
    ensures forall j :: j in similar && j !in pool ==> j.analysis.None?
  {
    if !RerankGate(rerank, aiMetadata, rerankFlag, |similar|) {
      return Success(similar), [], [];
    }
    var pooled := similar[..PoolSize(rerank.poolSize, |similar|)];
    pool := pooled;
    assert forall j :: j in pooled ==> j in similar;
    r, ranking := RerankWithAiAnalysis(pooled, Get(aiMetadata, "cv_summary", Null), tokenLimit, generate, decode);
  }

  /**
   * The vector search for the CV's `topK` nearest jobs, then their scoring:
   * what `_search_and_score_jobs` makes of the search's answer.
   */
  method SearchSimilar(sys: ScoringSystem, cvEmbedding: Embedding, topK: int, search: Search, threshold: real,
                       cosine: (Embedding, Embedding) -> real)
    returns (kept: seq<Job>, ghost hits: seq<Job>, ghost order: seq<Ranked<Job>>)
    ensures var found := search(cvEmbedding, topK);
            |hits| == (if |found.0| < |found.1| then |found.0| else |found.1|)
            && forall k :: 0 <= k < |hits| ==> FromHit(hits[k], found.0[k], found.1[k])
    ensures forall k :: 0 <= k < |hits| ==> Scored(hits[k], AllDetails(sys, Texts(hits), cosine)[k])
    ensures multiset(order) == multiset(AdmittedEntries(sys, Totals(sys, Texts(hits), cosine), hits, |hits|))
    ensures Ordered(order)
    ensures kept == AtLeast(Items(order), threshold, |order|)
    ensures forall j :: j in hits ==> fresh(j) && j.analysis.None?
    ensures forall j :: j in kept ==> j in hits && Passes(j, threshold)
  {
    var found := search(cvEmbedding, topK);
    kept, hits, order := SearchAndScoreJobs(sys, found.0, found.1, threshold, cosine);
    forall j | j in hits
      ensures fresh(j) && j.analysis.None?
    {
      var k :| 0 <= k < |hits| && hits[k] == j;
    }
  }

  /**
   * `_score_and_rank_jobs`: nothing without a scoring system; otherwise the
   * searched and scored jobs above the threshold (`similar`, from the jobs
   * `hits` built from the search and their ranking `order`), reranked (the
   * first `rerank_pool_size` of them only, `pool`) when the gate is open.
   * Only the pooled jobs get an analysis.
   */
  method ScoreAndRankJobs(ctx: PipelineContext, settings: Settings, cvEmbedding: Embedding, search: Search,
                          cosine: (Embedding, Embedding) -> real, generate: Generator, decode: Decoder)
    returns (r: Result<seq<Job>, Exception>, ghost similar: seq<Job>, ghost pool: seq<Job>,
             ghost hits: seq<Job>, ghost order: seq<Ranked<Job>>, ghost ranking: seq<Ranked<Job>>)
    ensures ctx.scoringSystem.None? ==> r == Success([]) && similar == [] && pool == []
    ensures ctx.scoringSystem.Some? ==>
            var found := search(cvEmbedding, settings.topK);
            |hits| == (if |found.0| < |found.1| then |found.0| else |found.1|)
            && forall k :: 0 <= k < |hits| ==> FromHit(hits[k], found.0[k], found.1[k])
    ensures ctx.scoringSystem.Some? ==>
            forall k :: 0 <= k < |hits| ==> Scored(hits[k], AllDetails(ctx.scoringSystem.value, Texts(hits), cosine)[k])
    ensures ctx.scoringSystem.Some? ==>
            multiset(order) == multiset(AdmittedEntries(ctx.scoringSystem.value,
                                                        Totals(ctx.scoringSystem.value, Texts(hits), cosine), hits, |hits|))
    ensures ctx.scoringSystem.Some? ==> similar == AtLeast(Items(order), ctx.threshold, |order|) && Ordered(order)
    ensures forall j :: j in hits ==> fresh(j)
    ensures forall j :: j in similar ==> j in hits && Passes(j, ctx.threshold)
    ensures ctx.scoringSystem.Some? && !RerankGate(settings.rerank, ctx.aiMetadata, ctx.rerankFlag, |similar|) ==>
            r == Success(similar)
    ensures ctx.scoringSystem.Some? && RerankGate(settings.rerank, ctx.aiMetadata, ctx.rerankFlag, |similar|) ==>
            pool == similar[..PoolSize(settings.rerank.poolSize, |similar|)]
            && (forall k :: 0 <= k < |pool| ==>
                  Analysed(pool[k], None,
                           Outcome(pool[k], Get(ctx.aiMetadata, "cv_summary", Null), settings.tokenLimit, generate, decode)))
            && (r.Failure? <==> exists k :: 0 <= k < |pool| && !FitReadable(pool[k].analysis))
            && (r.Success? ==> multiset(r.value) == multiset(pool) && RerankOrdered(r.value))
            && (r.Success? ==> r.value == Items(ranking) && Ordered(ranking)
                               && forall k :: 0 <= k < |ranking| ==> KeyedAt(ranking[k], pool))
    ensures r.Failure? ==> r.error == TypeError
    ensures forall j :: j in similar && j !in pool ==> j.analysis.None?
  {
    if ctx.scoringSystem.None? {
      return Success([]), [], [], [], [], [];
    }
    var kept;
    kept, hits, order := SearchSimilar(ctx.scoringSystem.value, cvEmbedding, settings.topK, search, ctx.threshold, cosine);
    similar := kept;
    assert forall k :: 0 <= k < |kept| ==> kept[k] in kept;
    assert forall k :: 0 <= k < |kept| ==> fresh(kept[k]) && kept[k].analysis.None?;
    r, pool, ranking := RerankIfEnabled(kept, settings.rerank, ctx.aiMetadata, ctx.rerankFlag, settings.tokenLimit,
                                        generate, decode);
  }
}

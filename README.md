# Job-matching core of the AI career assistant, in Dafny

The AI career assistant collects job listings from several job sites for a
set of search personas, deduplicates them, embeds them and the candidate's
CV, finds the listings nearest to the CV in a vector store, scores them with
a keyword heuristic and, optionally, reranks them with a generative model's
analysis.  This project models the deterministic decision logic of that
pipeline and proves what it promises:

- the heuristic scoring engine (`src/intelligent_scoring.py`): keyword lists
  compiled into word-bounded, case-insensitive matchers, the title,
  description and experience scores, the total and the inclusion threshold
  (`scoring.dfy`);
- the legacy blacklist filter with its counters, the scoring pass that
  annotates every job in place and ranks the admitted ones, and the
  comparison of the two (`src/filter.py`; `filter.dfy`, `job_scoring.dfy`);
- the pipeline (`src/pipeline.py`): the run context as a class
  (`pipeline_context.dfy`), persona selection, collection and composite-key
  deduplication (`pipeline_collect.dfy`), validation and folding of
  AI-detected skill weights into the configuration (`pipeline_config.dfy`),
  the run and the dynamic-persona choice (`pipeline_run.dfy`), embeddings,
  similarity search, the rerank gate, per-job analysis and the three-key
  sort (`pipeline_search.dfy`);
- collection from several sites with tagging and deduplication
  (`src/data_collector.py`; `data_collector.dfy`, `frames.dfy`);
- the text utilities: persona slugs and search terms
  (`persona_builder.dfy`), JSON extraction from a model reply
  (`json_helpers.dfy`) and CV skill normalisation and keyword extraction
  (`cv_analyzer.dfy`);
- the embedding service's key check, retry loop with exponential back-off
  and index-aligned batches (`embedding_service.dfy`), and the vector store
  over an in-memory collection (`vector_store.dfy`);
- the results report with its persona tally (`reporting.dfy`) and the
  project-tree renderer (`tree_generator.py`; `tree.dfy`).

Shared helpers: `wrappers.dfy` (Option, Result and the exception kinds),
`text.dfy` (lower-casing, stripping, splitting, substring tests),
`values.dfy` (dynamically typed values from decoded JSON), `dicts.dfy`
(insertion-ordered dictionaries), `numbers.dfy` (Python's `round`),
`ranking.dfy` (Python's stable `sort` on key tuples) and `jobs.dfy` (a job
listing shared by reference, as a class).

Every external service is an input of the operation that calls it: the job
scraper's answer per site, `embed(text, attempt)` for the embedding API, the
generative model's reply, the vector store's query answer, JSON decoding,
cosine similarity and the clock readings.  State the source changes in
place is modelled by classes whose methods state the whole new state
(`PipelineContext`, `Job`, `Service`, `Store`); loops become methods with
invariants proved against specification functions, and the properties the
source promises are proved about those functions as lemmas.

Where the code and its own description disagree the model follows the
code: `src/pipeline.py` imports a `TOKEN_LIMIT` that `src/cv_analyzer.py`
does not define, so the limit is a parameter; and it calls vector-store
methods (`job_exists`, `search_jobs`) that `src/vector_store.py` does not
have, so those calls are parameters of the pipeline operations too.

## Model

| member | source | states |
|---|---|---|
| Scoring.MatchesIgnoresCase | src/intelligent_scoring.py:14-21 | a keyword pattern is found in a text exactly when it is found in the lower-cased text (`re.IGNORECASE`, whose letter classes also join 'ı' and 'İ' to 'i', 'ſ' to 's', the Kelvin sign to 'k' and the micro sign to 'μ') |
| Scoring.MatchesAtIgnoresCase | src/intelligent_scoring.py:14-21 | the same at every single position of the text |
| Scoring.TurkishIMatches | src/intelligent_scoring.py:14-21 | under `re.IGNORECASE` the dotless i and the plain i match in either case: "yazilim" is found in "Yazılım" and "yazılım" in "YAZILIM" |
| Scoring.TurkishDottedIMatches | src/intelligent_scoring.py:14-21 | under `re.IGNORECASE` the dotted capital İ matches the plain i: "kıdemli" is found in "KIDEMLİ" |
| Scoring.FoldLowerChar | src/intelligent_scoring.py:14-21 | lower-casing a character keeps it in the same `re.IGNORECASE` class |
| Scoring.SeparatorsInterchangeable | src/intelligent_scoring.py:19-20 | two keywords that differ only by a space against a hyphen at the same places match exactly the same texts |
| Scoring.WordBoundedExample | src/intelligent_scoring.py:21 | the `\b` boundaries: "java" is found in "java developer" but not inside "javascript" |
| Scoring.PunctuationBoundsWords | src/intelligent_scoring.py:21 | a bullet, a typographic apostrophe or an en dash is no word character: "python" is found in "•python" and "python’s", "java" in "java–kotlin" |
| Scoring.NonEmptyStrippedMembers | src/intelligent_scoring.py:28-31 | a keyword comes out of an entry exactly when it is the non-empty stripped form of one of its comma-separated parts |
| Scoring.KeywordsWellFormed | src/intelligent_scoring.py:24-32 | every compiled keyword is non-empty, holds no comma and has no surrounding white space |
| Scoring.CompileEntry | src/intelligent_scoring.py:28-31 | one configured entry yields its comma-separated parts, stripped, empty ones dropped, in order |
| Scoring.CompileKeywords | src/intelligent_scoring.py:24-32 | the compiled list is the keywords of every entry, entry after entry |
| Scoring.CompileWeighted | src/intelligent_scoring.py:35-43 | the compiled list is the keywords of every entry, each paired with that entry's weight, entry after entry |
| Scoring.AppendTagged | src/intelligent_scoring.py:39-42 | the inner loop appends every keyword of one entry, in order, each with the entry's weight |
| Scoring.WeightedKeywordsMembers | src/intelligent_scoring.py:35-43 | `(p, w)` is compiled exactly when some entry of weight `w` yields the keyword `p` |
| Scoring.NewScoringSystem | src/intelligent_scoring.py:52-85 | each setting is the configured value or its default (weights -30 and 30, threshold 0, boost threshold 0.8, bonus 10, penalties {5: -40, 4: -20}), every keyword list compiled |
| Scoring.CountMatching | src/intelligent_scoring.py:91-96 | at most one count per pattern: the number found never exceeds the number of patterns |
| Scoring.ScoreTitle | src/intelligent_scoring.py:87-98 | an empty title scores 0; otherwise each side's weight times the number of that side's patterns found in the title |
| Scoring.ScoreDescription | src/intelligent_scoring.py:100-113 | an empty description scores 0; otherwise the sum of the weights of the positive and negative patterns found in its first 3000 characters |
| Scoring.CountMatchingPositive | src/intelligent_scoring.py:91-96 | the count is positive exactly when some pattern is found |
| Scoring.TitleScoreSign | src/intelligent_scoring.py:87-98 | with a negative and a positive weight, a title hitting only positive keywords scores above 0, only negative ones below 0, neither exactly 0 |
| Scoring.DescriptionPrefixOnly | src/intelligent_scoring.py:104 | two descriptions that agree on their first 3000 characters score the same |
| Scoring.MaxOf | src/intelligent_scoring.py:123 | the largest year number found is one of them and bounds all of them |
| Scoring.PenaltyFor | src/intelligent_scoring.py:124-129 | the penalty of the largest configured threshold the years reach, and 0 when none is reached |
| Scoring.ThresholdsDescending | src/intelligent_scoring.py:124 | the thresholds, each exactly once, in strictly descending order |
| Scoring.ScoreExperience | src/intelligent_scoring.py:115-129 | an empty text or one without a year mention scores 0; otherwise the penalty for the largest year number mentioned |
| Scoring.DefaultPenaltySchedule | src/intelligent_scoring.py:67 | with the default penalties, five years or more cost 40 points, four cost 20, fewer cost nothing |
| Scoring.YearMentionsExample | src/intelligent_scoring.py:82-85 | "En az 5 yıl" is read as one mention of five years |
| Scoring.YearMentionsIgnoresCase | src/intelligent_scoring.py:82-85 | the year search reads the lower-cased text: lower-casing first changes nothing |
| Scoring.CalculateTotal | src/intelligent_scoring.py:140-157 | the total is the base or the base plus the bonus; no job vector, or no CV vector at all, leaves the base; the bonus needs the similarity to reach the boost threshold |
| Scoring.ScoreJob | src/intelligent_scoring.py:159-174 | the details hold the title, description and experience scores (experience read from the description) and the boosted total of their sum |
| Scoring.JobDetails | src/intelligent_scoring.py:159-174 | the details' total is the job's total, and without an embedding the plain sum of the three scores |
| Scoring.ShouldIncludeMonotone | src/intelligent_scoring.py:176-179 | admission is upward closed: any score above an admitted one is admitted |
| Filter.CheckJobFilters | src/filter.py:108-125 | the verdict is "title" exactly when a title word occurs in the lower-cased title; otherwise "experience" or "responsibility" when such a phrase occurs in the lower-cased description; otherwise "out_of_scope" on the title; otherwise "passed" |
| Filter.AbsentCharRulesOut | src/filter.py:116-122 | a blacklist word holding a character the text lacks is not a substring of it |
| Filter.JuniorTitleClean | src/filter.py:14-34 | no title blacklist word occurs in "junior developer" |
| Filter.JuniorInScope | src/filter.py:66-98 | no out-of-scope word occurs in "junior developer" |
| Filter.NoYearsDescriptionClean | src/filter.py:36-64 | no experience and no responsibility phrase occurs in "0 yıl" |
| Filter.SeniorDroppedJuniorKept | src/filter.py:108-125 | "Senior Developer" asking for "5+ yıl" is dropped by the title list; "Junior Developer" asking for "0 yıl" passes every list |
| Filter.Passing | src/filter.py:167-171 | the jobs that pass, among the first `n`, are at most `n` |
| Filter.CountsAddUp | src/filter.py:159-182 | the five counters add up to the number of jobs processed |
| Filter.PassingMembers | src/filter.py:167-172 | a job is kept exactly when it is in the list and passes; as many are kept as "passed" counts |
| Filter.TallyCounts | src/filter.py:159-176 | every counter counts exactly the jobs that got its verdict |
| Filter.FilterJuniorSuitable | src/filter.py:146-185 | the kept jobs are those that pass, in input order; each counter is the number of its verdict; the counters add up to the number of jobs; an empty list gives an empty result |
| JobScoring.TextsAt | src/filter.py:192 | the scoring inputs of job `k` are its own title, description and embedding |
| JobScoring.TotalsAt | src/filter.py:192 | the total of job `k` is what `score_job` gives its inputs |
| JobScoring.TotalsOfEqualTexts | src/filter.py:192 | two jobs with the same inputs get the same total |
| JobScoring.AdmittedEntriesSound | src/filter.py:195-196 | the admitted entries are in input order, each a job whose total `should_include` admits, carrying that total |
| JobScoring.AdmittedEntriesComplete | src/filter.py:195-196 | every job whose total is admitted has an entry |
| JobScoring.EntriesTitles | src/filter.py:202-212 | any reordering of the admitted entries carries exactly the titles of the admitted jobs |
| JobScoring.ScoreStep | src/filter.py:192-196 | one turn of the loop: job `i` gets its `score` and the full `score_details` (title, description, experience, total), and is appended when admitted |
| JobScoring.ScoreAll | src/filter.py:191-196 | every job gets its `score` and the full `score_details` its inputs give; the admitted jobs are collected in input order |
| JobScoring.AllDetails | src/filter.py:192 | one details record per job |
| JobScoring.AllDetailsAt | src/filter.py:192 | the details of job `k` are what `score_job` gives its inputs, with the same total |
| JobScoring.ScoreJobs | src/filter.py:188-203 | every job is scored; the result is a permutation of the admitted jobs, sorted by score descending with ties kept in input order, carrying exactly the admitted titles |
| JobScoring.CompareTitles | src/filter.py:214-218 | the three sets are pairwise disjoint; old-only plus the intersection is the legacy set, new-only plus the intersection the scored set |
| JobScoring.CompareFilters | src/filter.py:206-218 | the comparison of the titles the legacy filter keeps with the titles the scoring admits |
| DataCollector.ParamsFor | src/data_collector.py:57-69 | the common parameters are passed through; only Indeed gets `country_indeed = "Turkey"` and only LinkedIn gets `linkedin_fetch_description = True` |
| DataCollector.TagSource | src/data_collector.py:74 | every row gets its site in `source_site`; nothing else changes |
| DataCollector.ScrapeSingle | src/data_collector.py:54-79 | a site contributes a frame exactly when the scraper returned a non-empty one, and that frame is tagged with the site; `None`, an empty frame and an exception contribute nothing |
| DataCollector.ContributedFrames | src/data_collector.py:81-86 | every collected frame is the tagged, non-empty result of some site |
| DataCollector.NothingContributed | src/data_collector.py:81-90 | nothing is collected exactly when no completed site returned a non-empty frame |
| DataCollector.FailuresInterchangeable | src/data_collector.py:72-79 | a site that raised and a site that returned nothing leave the same collection |
| DataCollector.Stamp | src/data_collector.py:94 | every row gets the same `collected_at`, nothing else changes |
| DataCollector.CollectJobData | src/data_collector.py:26-118 | `ValueError` for an empty site list (a thread pool of zero workers); `None` when no site contributed; otherwise the frames in completion order, concatenated, stamped and deduplicated on title, company, location and the first 100 description characters (the first three only without a description column); `KeyError` without a location column |
| DataCollector.MergedFacts | src/data_collector.py:98-116 | after deduplication no two rows share a key, every key of the combined rows survives, and the row count never grows |
| Frames.Concat | src/data_collector.py:93 | a column exists in the concatenation exactly when some frame has it; rows lacking it hold `None` |
| Frames.ConcatRows | src/data_collector.py:93 | the concatenation holds as many rows as all frames together |
| Frames.FirstIndicesAreFirst | src/data_collector.py:101-105 | each kept index holds the first occurrence of its key |
| Frames.FirstIndicesIncrease | src/data_collector.py:101-105 | kept indices are strictly increasing |
| Frames.FirstIndicesComplete | src/data_collector.py:101-105 | every key has a kept index |
| Frames.FirstIndices | src/data_collector.py:101-105 | the kept indices are at most as many as the rows looked at, each one of them |
| Frames.Deduplicated | src/data_collector.py:98-109 | the deduplicated rows are rows of the input, never more of them |
| Frames.DeduplicatedDistinct | src/data_collector.py:98-109 | no two kept rows share a key |
| Frames.DeduplicatedComplete | src/data_collector.py:98-109 | every key of the input is still present |
| Frames.DeduplicatedInOrder | src/data_collector.py:98-109 | kept rows keep their input order |
| Frames.DropDuplicates | src/data_collector.py:98-109 | the one-pass loop keeps exactly the first row of each key, in order (`keep="first"`) |
| Context.PipelineContext.constructor | src/models/pipeline_context.py:9-27 | a fresh context holds the given configuration and arguments and every other field at its default (threshold 60.0, rerank flag on, empty metadata and personas, no scoring system) |
| PipelineRun.ChosenPersonas | src/pipeline.py:206-214 | personas are built from the AI-detected titles exactly when `target_job_titles` is a non-empty list of strings; otherwise the static personas are kept |
| PipelineRun.SetupAiMetadataAndPersonas | src/pipeline.py:187-217 | a `CVNotFoundError` leaves the context as it was and propagates; otherwise the context holds the metadata and the chosen personas |
| PipelineRun.Run | src/pipeline.py:85-106 | failed prerequisites return the fresh context untouched; otherwise the threshold is the command-line one or the configured minimum, the rerank flag is the negated `no_rerank`, and the scoring system is the configured one when the CV was read |
| PipelineConfig.ApplySkillWeights | src/pipeline.py:231-250 | below the minimum importance the configuration comes back unchanged; otherwise it fails with `KeyError` exactly when the positive weights dictionary is missing; a result differs from the input only in the positive weights |
| PipelineConfig.ApplySkillWeightsLookup | src/pipeline.py:234-236 | after one application the skill weighs `int(round(base_weight × importance))` when it qualifies and every other key keeps its weight |
| PipelineConfig.LastQualifying | src/pipeline.py:276-277 | the last of the first `n` skills with that name whose importance reaches the minimum, or none when no such skill exists |
| PipelineConfig.SkillWeightsFoldOutcome | src/pipeline.py:275-277 | the fold over the skills fails exactly when some skill qualifies and there is nowhere to write it; otherwise only the positive weights change |
| PipelineConfig.SkillWeightsFoldLookup | src/pipeline.py:275-277 | after the fold each key weighs what its last qualifying occurrence set; keys that never qualify keep their weight |
| PipelineConfig.SkillWeightsFoldStaysFailed | src/pipeline.py:275-283 | once a `KeyError` is raised no later skill undoes it |
| PipelineConfig.ConfiguredSystemOutcome | src/pipeline.py:253-283 | missing, empty or invalid skill metadata gives the system of the unchanged configuration; otherwise the result is `None` exactly when the section is missing or a qualifying skill has no positive dictionary to go into; a built system comes from a configuration that differs only in its positive weights |
| PipelineConfig.ConfigureScoring | src/pipeline.py:253-283 | the loop over the skills gives exactly the system the fold specifies |
| PipelineCollect.KnownNames | src/pipeline.py:177 | the command-line names that exist in the configuration, in command-line order |
| PipelineCollect.Selected | src/pipeline.py:177 | the selected personas are the known command-line names, in that order, each with its configured search |
| PipelineCollect.SelectPersonas | src/pipeline.py:174-177 | without command-line names the context's personas, or the static ones when it has none; with names only the known ones, in command-line order |
| PipelineCollect.TagPersona | src/pipeline.py:125-126 | every row is tagged with the persona and the search term; nothing else changes |
| PipelineCollect.CollectForPersona | src/pipeline.py:109-136 | a tagged frame exactly when the collector found rows; nothing when it found none or raised `ValueError`, `TypeError` or `KeyError`; any other exception propagates unchanged |
| PipelineCollect.CollectedBatchesStayFailed | src/pipeline.py:179-182 | the first exception that escapes ends the loop |
| PipelineCollect.CollectedBatchesNonEmpty | src/pipeline.py:124-130 | every collected frame has rows |
| PipelineCollect.CollectedBatches | src/pipeline.py:179-182 | an exception that escapes the loop is never one `_collect_jobs_for_persona` handles, and no more frames than personas are collected |
| PipelineCollect.NonEmptyFrames | src/pipeline.py:141 | the frames kept are at most as many as given |
| PipelineCollect.NonEmptyFramesMembers | src/pipeline.py:141 | exactly the frames with rows are kept |
| PipelineCollect.MergedBatchesNone | src/pipeline.py:141-144 | nothing is merged exactly when every batch is empty |
| PipelineCollect.MergedBatchesFacts | src/pipeline.py:146-158 | no two kept rows share the key (title, company, location if present, first 100 characters of the printed description if present); every key survives; the count never grows |
| PipelineCollect.DeduplicateJobs | src/pipeline.py:139-158 | the frame it would save: the non-empty batches concatenated and deduplicated keeping first occurrences, or nothing |
| PipelineCollect.PipelineKey | src/pipeline.py:150-155 | the key holds title and company, the location only when the column exists, and the description's printed form cut to its first 100 characters exactly when that column exists |
| PipelineCollect.CollectedData | src/pipeline.py:168-184 | a run's result is the merged frame, or an exception none of the per-persona handlers catch |
| PipelineCollect.CollectBatches | src/pipeline.py:179-182 | the loop over the personas yields each one's frame in order, or the first exception that escapes |
| PipelineCollect.CollectDataForAllPersonas | src/pipeline.py:168-184 | one collection per selected persona, in order, then the merge; an escaping exception is passed on |
| PipelineSearch.RowEmbedding | src/pipeline.py:353-368 | a stored row, a frame without descriptions, a missing description and a failed embedding all give `None`; otherwise the embedding of the description |
| PipelineSearch.ProcessJobEmbeddings | src/pipeline.py:342-370 | one entry per row, entry `k` being row `k`'s embedding or `None` |
| PipelineSearch.Similarity | src/pipeline.py:387 | distance 0 is similarity 100, and the similarity is non-negative exactly up to distance 1 |
| PipelineSearch.SimilarityOrder | src/pipeline.py:387-398 | a nearer hit is at least as similar, and passing the threshold is a bound on the distance |
| PipelineSearch.AtLeast | src/pipeline.py:398 | the threshold keeps at most as many jobs as it is given |
| PipelineSearch.AtLeastMembers | src/pipeline.py:398 | exactly the jobs whose similarity reaches the threshold are kept |
| PipelineSearch.KeptFromHits | src/pipeline.py:397-398 | every job returned is one built from a search hit and passes the threshold |
| PipelineSearch.BuildHits | src/pipeline.py:386-391 | one new job per (metadata, distance) pair up to the shorter list, carrying the metadata and `(1 - d) × 100`, and no analysis yet |
| PipelineSearch.SearchAndScoreJobs | src/pipeline.py:373-398 | no hits gives `[]`; every hit is scored with its full details; the result is the admitted hits, sorted by score, that reach the similarity threshold |
| PipelineSearch.Prompt | src/pipeline.py:403-408 | the prompt carries the CV summary, the title and the description cut to its first `tokenLimit` characters |
| PipelineSearch.AnalysisOf | src/pipeline.py:425-433 | exactly the five keys, each the reply's value or its default 0, False, "", [] and [] |
| PipelineSearch.ReplyAnalysis | src/pipeline.py:409-442 | no analysis when the call raised, the reply is blank, no JSON can be extracted or the JSON is not an object; otherwise the five keys read from the extracted object |
| PipelineSearch.AnalyseSingleJob | src/pipeline.py:401-442 | the job receives the analysis when the reply gives one and keeps what it had otherwise |
| PipelineSearch.OrderedByRerankKey | src/pipeline.py:458-460 | in a list ordered by the three-part key, every job ranks no lower than those after it |
| PipelineSearch.ThreeKeysNotGreater | src/pipeline.py:458-460 | the three-part key comparison spelled out: recommended first, then fit score, then similarity |
| PipelineSearch.AnalyseStep | src/pipeline.py:456 | one turn of the map: job `i` is analysed and the earlier jobs stay analysed |
| PipelineSearch.AnalyseAll | src/pipeline.py:455-456 | after the map every job holds the analysis its reply gave, or what it had |
| PipelineSearch.RerankEntries | src/pipeline.py:458-460 | one key per job at its input position; none exactly when some fit score is not a number |
| PipelineSearch.RerankWithAiAnalysis | src/pipeline.py:445-461 | `[]` for `[]`; otherwise every job is analysed and the result is a permutation of the input, recommended first, then fit score and similarity descending, ties in input order; a non-numeric fit score raises `TypeError` |
| PipelineSearch.PoolSize | src/pipeline.py:524-528 | a missing or non-positive pool size means the whole list; the pool never exceeds the list |
| PipelineSearch.RerankIfEnabled | src/pipeline.py:518-531 | for jobs that arrive from the search unanalysed: with the gate closed the list comes back as it is and nothing is analysed; with it open exactly the first pool-size jobs are analysed from what their replies give, the result is `TypeError` exactly when one of their fit scores is unreadable and otherwise the pool stably sorted by rerank key (ties keep pool order); the jobs beyond the pool stay unanalysed |
| PipelineSearch.SearchSimilar | src/pipeline.py:510-516 | the search's hits become new unanalysed jobs carrying the metadata and similarity, each scored with its full details; the result is the admitted ones in score order that reach the threshold |
| PipelineSearch.ScoreAndRankJobs | src/pipeline.py:500-531 | `[]` without a scoring system; otherwise the jobs built from the search's hits, each scored with its full details, admitted, sorted by score and cut at the threshold, returned as they are when the gate is closed, and otherwise with the first pool-size of them analysed and stably sorted by rerank key, `TypeError` when one fit score is unreadable; no other job is analysed |
| CvAnalyzer.Remove | src/cv_analyzer.py:89 | `replace(c, "")` leaves no `c`, and is the identity when `c` does not occur |
| CvAnalyzer.RemoveKeepsChars | src/cv_analyzer.py:89 | `replace(c, "")` introduces no character |
| CvAnalyzer.RemoveAppend | src/cv_analyzer.py:89 | removing a character distributes over concatenation |
| CvAnalyzer.NormalizeSkill | src/cv_analyzer.py:89 | a normalised skill holds no space and no hyphen, and only characters of the lower-cased skill |
| CvAnalyzer.LowerCharIdempotent | src/cv_analyzer.py:89 | lower-casing a character twice is lower-casing it once |
| CvAnalyzer.NormalizeSkillIdempotent | src/cv_analyzer.py:89 | normalising a normalised skill changes nothing |
| CvAnalyzer.BlacklistEntriesWithSpaceNeverMatch | src/cv_analyzer.py:16-28 | the blacklist entries "ms office" and "microsoft office" can never equal a normalised skill, since normal forms hold no space |
| CvAnalyzer.ListOfSet | src/cv_analyzer.py:93 | `list(set(...))` holds each element of the set exactly once and nothing else |
| CvAnalyzer.NonEmptyHasMember | src/cv_analyzer.py:93 | a non-empty set has a member to pick |
| CvAnalyzer.NormalizeSkills | src/cv_analyzer.py:86-93 | the result is duplicate-free and holds exactly the normal forms of the input skills that are not blacklisted and longer than two characters |
| CvAnalyzer.TitleWord | src/cv_analyzer.py:104 | `title()` of a lower-case word keeps its length and all but the first letter, and lower-cases back to the word |
| CvAnalyzer.SliceTo | src/cv_analyzer.py:102 | `cv_text[:self.token_limit]` (4000 unless configured) is a prefix of the text, of the limit's length when non-negative and counted from the end when negative |
| CvAnalyzer.StrList | src/cv_analyzer.py:105-108 | a list of strings becomes a JSON list holding the same strings in order |
| CvAnalyzer.ExtractMetadataFromCv | src/cv_analyzer.py:95-110 | an empty CV gives empty lists; an entry younger than seven days is returned from the cache (a `KeyError` without a `metadata` key); otherwise the result holds exactly the normalised common skills and the title-cased common titles mentioned, case-insensitively, in the first `TOKEN_LIMIT` characters, each once |
| JsonHelpers.ContentStart | src/utils/json_helpers.py:17 | an opening fence is three backticks, an optional `json` and a newline; the content starts after that newline |
| JsonHelpers.Closing | src/utils/json_helpers.py:17 | the lazy group ends at the first newline-and-three-backticks after the content start, and there is none when no such closing exists |
| JsonHelpers.FenceAt | src/utils/json_helpers.py:17 | a match at a position starts with three backticks, its content starts after the opening line and ends at the first newline-and-three-backticks after it |
| JsonHelpers.FirstFence | src/utils/json_helpers.py:17 | `re.search` takes the leftmost position where a complete fenced block starts |
| JsonHelpers.FencedContent | src/utils/json_helpers.py:17-19 | the fenced content is shorter than the text by at least the two fences |
| JsonHelpers.FencedContentSpec | src/utils/json_helpers.py:17-19 | a block is found exactly when some position starts a complete fenced block, and its content is the text between the first such fences |
| JsonHelpers.IndexOf | src/utils/json_helpers.py:26 | the first occurrence of a character from a position, or none |
| JsonHelpers.LastIndexOf | src/utils/json_helpers.py:26 | the last occurrence of a character before a bound, or none |
| JsonHelpers.BraceSpan | src/utils/json_helpers.py:26 | the greedy `\{.*\}` match starts at a `{` and ends at a later `}` |
| JsonHelpers.BraceSpanSpec | src/utils/json_helpers.py:26-29 | the match starts at the first `{` and ends at the last `}`, and there is none exactly when no `{` precedes a `}` |
| JsonHelpers.ExtractJson | src/utils/json_helpers.py:9-36 | a fenced block that decodes wins; otherwise the text from the first `{` to the last `}` is decoded; with no such span the result is `None` |
| JsonHelpers.ProseObjectRecovered | src/utils/json_helpers.py:25-33 | an object surrounded by prose without braces or fences is recovered exactly as the decoder reads it |
| PersonaBuilder.SkipNonWord | src/persona_builder.py:20 | skipping a run of non-word characters never lengthens the text |
| PersonaBuilder.DropLeading | src/persona_builder.py:20 | `lstrip` never lengthens the text |
| PersonaBuilder.DropTrailing | src/persona_builder.py:20 | `rstrip` never lengthens the text |
| PersonaBuilder.DropLeadingFacts | src/persona_builder.py:20 | `lstrip` leaves a suffix of the text that does not start with the character |
| PersonaBuilder.DropTrailingFacts | src/persona_builder.py:20 | `rstrip` leaves a prefix of the text that does not end with the character |
| PersonaBuilder.CollapseWordChars | src/persona_builder.py:20 | after `re.sub(r"\W+", "_", …)` only word characters remain |
| PersonaBuilder.CollapseWordPrefix | src/persona_builder.py:20 | a leading run of word characters passes through the substitution unchanged |
| PersonaBuilder.SlugShape | src/persona_builder.py:20 | a slug holds only word characters and neither starts nor ends with `_` |
| PersonaBuilder.KeptAppend | src/persona_builder.py:20 | the letters and digits of a concatenation are those of its parts |
| PersonaBuilder.KeptSkipNonWord | src/persona_builder.py:20 | skipping non-word characters loses no letter or digit |
| PersonaBuilder.KeptCollapse | src/persona_builder.py:20 | the substitution keeps the letters and digits in order |
| PersonaBuilder.KeptDropLeading | src/persona_builder.py:20 | stripping leading underscores keeps the letters and digits |
| PersonaBuilder.KeptDropTrailing | src/persona_builder.py:20 | stripping trailing underscores keeps the letters and digits |
| PersonaBuilder.SlugKeepsLettersAndDigits | src/persona_builder.py:20 | a title and its slug hold the same letters and digits in the same order |
| PersonaBuilder.CollapseSpaceWord | src/persona_builder.py:20 | a space before a word becomes one underscore |
| PersonaBuilder.CollapseTwoWords | src/persona_builder.py:20 | the space between two words becomes one underscore |
| PersonaBuilder.SlugTwoWords | src/persona_builder.py:20 | two words separated by a space are keyed by the words joined with an underscore |
| PersonaBuilder.SlugExample | tests/test_persona_builder.py:4-7 | "Python Developer" is keyed "Python_Developer" |
| PersonaBuilder.CollapseSeparatedWords | src/persona_builder.py:20 | any run of non-word characters between two words becomes a single underscore |
| PersonaBuilder.SlugDashExample | src/persona_builder.py:20 | "Analyst – Junior" is keyed "Analyst_Junior": the en dash and the spaces around it are one `\W+` run |
| PersonaBuilder.Assignments | src/persona_builder.py:19-22 | one assignment per title, in order: the title's slug to its search term with the negative filters, age and result count |
| PersonaBuilder.PersonasKeys | src/persona_builder.py:18-23 | the keys are exactly the titles' slugs, each once, so there are never more entries than titles |
| PersonaBuilder.PersonasLastWins | src/persona_builder.py:22 | among titles with the same slug, the last one's entry is kept |
| PersonaBuilder.BuildDynamicPersonas | src/persona_builder.py:14-23 | the loop builds exactly the dictionary of the assignments applied in order; no titles give an empty dictionary |
| Dicts.PutAllKeys | src/persona_builder.py:22 | after a sequence of assignments a key is present exactly when some assignment wrote it |
| Dicts.PutAllLastWins | src/persona_builder.py:22 | the value of a key is the one its last assignment wrote |
| Ranking.SortRanked | src/filter.py:202 | sorting by score descending yields a permutation ordered by score with ties in their original order |
| Ranking.OrderedIsStableDescending | src/pipeline.py:458-460 | the ordering used for re-ranking is a stable descending sort on the combined key |
| EmbeddingService.Pow2 | src/embedding_service.py:53 | `2 ** attempt` is at least 1 and doubles with each attempt |
| EmbeddingService.Backoff | src/embedding_service.py:52-53 | after failed attempt k the wait is 2^k seconds |
| EmbeddingService.FirstSuccessFrom | src/embedding_service.py:45-48 | the first successful attempt in a range: it succeeds and every earlier one in the range failed; none when all fail |
| EmbeddingService.EmbeddingOf | src/embedding_service.py:34-56 | an embedding is returned exactly when one of the `retry_count` attempts succeeds, and it is that attempt's answer; zero or fewer attempts give `None` |
| EmbeddingService.CallsMade | src/embedding_service.py:45-56 | never more calls than `retry_count`, none when it is not positive |
| EmbeddingService.Service.constructor | src/embedding_service.py:30-31 | a configured service uses the text-embedding model |
| EmbeddingService.NewService | src/embedding_service.py:24-31 | construction fails with `ValueError` exactly when the key is missing, empty or the placeholder |
| EmbeddingService.Service.CreateEmbedding | src/embedding_service.py:34-56 | the loop returns the first successful attempt's embedding, makes calls up to that attempt (all of them when none succeeds) and sleeps 1, 2, 4, … seconds between consecutive calls |
| EmbeddingService.Service.EmbedBatch | src/embedding_service.py:76-80 | one result per text of the chunk, each that text's `create_embedding` result with the default retry count |
| EmbeddingService.EmbeddedChunk | src/embedding_service.py:85 | extending the results with the next chunk's results keeps them aligned with the texts |
| EmbeddingService.BatchEndsCover | src/embedding_service.py:74-86 | the logged progress values rise by the batch size and the last one is the number of texts |
| EmbeddingService.Service.EmbedInChunks | src/embedding_service.py:74-86 | one result per text, in order, each that text's `create_embedding` result; one progress value per chunk |
| EmbeddingService.CountSome | src/embedding_service.py:88 | the success count is at most the number of results, equal to it exactly when every result is present and zero exactly when none is |
| EmbeddingService.Service.CreateEmbeddingsBatch | src/embedding_service.py:58-91 | a positive batch size gives one result per text, in order, each that text's embedding; a zero batch size raises `ValueError`; a negative one gives no results; the logged success count counts the present results |
| EmbeddingService.PercentOf | src/embedding_service.py:123-129 | a cosine in [-1, 1] maps into [0, 100], 1 to 100 and -1 to 0 |
| EmbeddingService.CalculateSimilarity | src/embedding_service.py:93-134 | 0 when either embedding cannot be made, otherwise the cosine of the two embeddings on the 0–100 scale (0 for a zero vector) |
| VectorStore.Store.constructor | src/vector_store.py:15-25 | a new store on a directory holds no collection object and sees whatever the directory already persists, under the name "job_listings" |
| VectorStore.Store.CreateCollection | src/vector_store.py:29-48 | success exactly when the create call succeeds, leaving an empty collection held; on failure the old collection is gone when the delete succeeded and kept otherwise |
| VectorStore.StoredAfterGet | src/vector_store.py:50-60 | a held or existing collection is unchanged; a missing one is created empty when creation succeeds |
| VectorStore.Store.GetCollection | src/vector_store.py:50-60 | the held object is kept; otherwise the named collection is loaded, or created when it does not exist; the answer says whether an object is now held |
| VectorStore.Field | src/vector_store.py:81-85 | a present key gives its value, an absent one "N/A" |
| VectorStore.EntryOf | src/vector_store.py:75-88 | the stored entry: the row's embedding, its description (or printed row) as the document, and title, company, location, url, date posted and time added as metadata |
| VectorStore.Chosen | src/vector_store.py:73-74 | only rows with an embedding are chosen, in increasing row order |
| VectorStore.ChosenComplete | src/vector_store.py:73-74 | every row with an embedding is chosen |
| VectorStore.ChosenEmpty | src/vector_store.py:90-92 | nothing is chosen exactly when no row has an embedding |
| VectorStore.PreparedStep | src/vector_store.py:73-88 | one more row adds its id and entry exactly when its embedding is present |
| VectorStore.PreparedIds | src/vector_store.py:77 | the ids prepared in one call are pairwise distinct, and every row with an embedding has its id and entry among them |
| VectorStore.Zip | src/vector_store.py:96-101 | the four parallel lists handed to `add` pair up position by position |
| VectorStore.ZipSnoc | src/vector_store.py:75-88 | appending one id, vector, document and metadata appends one pair |
| VectorStore.Inserted | src/vector_store.py:96-101 | after `add` the ids are the old ids plus the prepared ones, and an existing id keeps its entry |
| VectorStore.InsertedHolds | src/vector_store.py:96-101 | a prepared entry with a new id is stored as prepared |
| VectorStore.Store.AddJobs | src/vector_store.py:62-108 | success exactly when a collection is available, some embedding is present and `add` succeeds; then the collection holds the prepared entries in addition to its old ones; otherwise nothing is added |
| VectorStore.HitAt | src/vector_store.py:123-137 | a hit carries the similarity `(1 - distance) * 100` rounded to 2 places and the distance rounded to 4 places (times 100 and 10000, they are `round` of the scaled values, so within half a unit with ties to even), the metadata fields ("N/A" when absent) and the document ("N/A" without documents) |
| VectorStore.HitsOf | src/vector_store.py:121-138 | one hit per metadata in query order when the distances and documents are long enough, none when an index error stops the loop |
| VectorStore.Store.SearchSimilarJobs | src/vector_store.py:110-145 | no hits without a collection or when the query raises, otherwise the query's hits in order |
| Reporting.Conversions | src/reporting.py:29 | a template without "%" consumes no argument |
| Reporting.ConversionsAfterPlain | src/reporting.py:29 | text without "%" in front of a template does not change how many arguments it consumes |
| Reporting.ScoreLineLostAsWritten | src/reporting.py:28-29 | as written, the score line's template consumes no argument while the score is passed as one, so the line is never logged |
| Reporting.ScoreLineEmitted | src/reporting.py:28-29 | with a single "%" the score line consumes exactly the score and is logged |
| Reporting.DisplayedScore | src/reporting.py:28 | the score shown is `match_score`, else `similarity_score`, else 0 |
| Reporting.PersonaOf | src/reporting.py:40 | a job's persona is `persona_source`, else `persona`, else "Unknown" |
| Reporting.EntryAsWritten | src/reporting.py:20-33 | as written, a listed job's entry carries its rank and no score line |
| Reporting.Entry | src/reporting.py:20-33 | a listed job's entry carries its rank and the displayed score |
| Reporting.EntryFollowsTemplate | src/reporting.py:20-33 | the entry with the score is the one the single-"%" template produces, and the entry as written is the same with the score line missing |
| Reporting.Listing | src/reporting.py:20-33 | as written: the first 15 jobs, at most, each listed with its 1-based rank in list order and no score line |
| Reporting.CorrectedListing | src/reporting.py:20-33 | with the score template corrected, the same jobs in the same order, each entry with its displayed score |
| Reporting.ListingLosesOnlyScores | src/reporting.py:20-33 | the listing as written differs from the corrected one only by the missing score lines, entry for entry |
| Reporting.ListJobs | src/reporting.py:20-33 | the listing loop produces exactly the entries of the first 15 jobs in order, as written: without score lines |
| Reporting.Personas | src/reporting.py:39-40 | one persona per job, in list order |
| Reporting.FirstSeen | src/reporting.py:38-41 | the dictionary's keys are at most as many as the jobs seen |
| Reporting.FirstSeenDistinct | src/reporting.py:41 | no persona is a key twice |
| Reporting.FirstSeenCovers | src/reporting.py:41 | every persona seen is a key |
| Reporting.FirstSeenOccur | src/reporting.py:41 | every key is a persona that was seen |
| Reporting.CountOf | src/reporting.py:41 | a persona's count is positive exactly when it occurs |
| Reporting.Tally | src/reporting.py:38-41 | the counts after the loop: each persona once, in order of first appearance, every job's persona among them, each count positive and equal to the persona's number of jobs |
| Reporting.TallyStep | src/reporting.py:41 | one more job keeps the counts a tally of the jobs seen |
| Reporting.TallyStepSeen | src/reporting.py:41 | a persona already counted has its count raised by one |
| Reporting.TallyStepNew | src/reporting.py:41 | a new persona is appended with count one |
| Reporting.TallyUnique | src/reporting.py:38-41 | the tally of a list of personas is unique |
| Reporting.SumCountsStep | src/reporting.py:41 | one more job adds one to the sum of the counts of the keys it matches |
| Reporting.SumOfFirstSeen | src/reporting.py:38-41 | the counts of the distinct personas add up to the number of jobs seen |
| Reporting.SumWithSeenKey | src/reporting.py:41 | a repeated persona keeps the sum equal to the jobs seen |
| Reporting.SumWithNewKey | src/reporting.py:41 | a new persona keeps the sum equal to the jobs seen |
| Reporting.NewKeyCountsOne | src/reporting.py:41 | a persona seen for the first time has count one |
| Reporting.TallySum | src/reporting.py:38-45 | the persona counts add up to the number of jobs |
| Reporting.IndexOfKey | src/reporting.py:41 | the position of a persona among the keys, or none when absent |
| Reporting.TallyPersonas | src/reporting.py:38-41 | the counting loop produces exactly the tally |
| Reporting.RankedCounts | src/reporting.py:44 | each count becomes the sort key of its entry, with its dictionary position |
| Reporting.DistributionDescending | src/reporting.py:44 | the persona distribution comes in non-increasing count order, equal counts in first-appearance order |
| Reporting.SortDistribution | src/reporting.py:44 | the sorted distribution is a permutation of the counts in descending, stable order |
| Reporting.CountLines | src/reporting.py:44-45 | one line per persona with its count, in distribution order |
| Reporting.DisplayResults | src/reporting.py:10-48 | an empty list logs only the warning and the hint; otherwise the count, threshold and banner, the first 15 jobs without their score lines (as written), the closing count and, when the first job has a persona key, the persona counts in descending order |
| Tree.LastDot | tree_generator.py:137 | the last dot below a bound, or -1 when there is none |
| Tree.LastDotAtMost | tree_generator.py:137 | a dot with no dot after it below the bound is the last dot |
| Tree.Suffix | tree_generator.py:137 | `Path.suffix` is empty or a dot followed by at least one dot-free character, a proper tail of the name |
| Tree.LeadingDotOnly | tree_generator.py:137 | a name whose only dot is its first character has no suffix |
| Tree.FileIcon | tree_generator.py:135-137 | the icon registered for the lower-cased suffix, else the default file icon |
| Tree.NameLessIrreflexive | tree_generator.py:149 | no name sorts before itself |
| Tree.NameLessTransitive | tree_generator.py:149 | name order is transitive |
| Tree.InsertByName | tree_generator.py:149 | inserting an entry adds exactly that entry |
| Tree.InsertByNameOrdered | tree_generator.py:149 | inserting into a name-ordered list keeps it ordered |
| Tree.SortedByName | tree_generator.py:149 | `sorted` gives the same entries ordered by name |
| Tree.SortedMember | tree_generator.py:149 | every sorted entry is one of the original entries |
| Tree.Dirs | tree_generator.py:144-146 | only directories, never more than the listing |
| Tree.NonDirs | tree_generator.py:144-148 | only entries that are not directories, never more than the listing |
| Tree.DirsNonDirsSplit | tree_generator.py:144-148 | the two groups together are exactly the listing's entries |
| Tree.DirsSnoc | tree_generator.py:145-146 | one more entry joins the directories exactly when it is a directory |
| Tree.NonDirsSnoc | tree_generator.py:147-148 | one more entry joins the rest exactly when it is not a directory |
| Tree.Arranged | tree_generator.py:149 | the arranged listing holds exactly the listing's entries |
| Tree.ArrangedKind | tree_generator.py:149 | the directories are exactly the first group of the arranged listing |
| Tree.ArrangedDirsFirst | tree_generator.py:149 | every directory precedes every other entry, and within each group names never decrease |
| Tree.SortDirectoryContents | tree_generator.py:140-149 | the loop splits the listing and returns the directories sorted, then the rest sorted |
| Tree.DsStoreListedAsWritten | tree_generator.py:117-158 | as written, a ".DS_Store" file passes the filter, since its suffix is empty |
| Tree.ExcludedAsWritten | tree_generator.py:155-158 | as written, an excluded directory is one of the excluded directory names, and an entry that is neither a directory nor a file is never excluded |
| Tree.Excluded | tree_generator.py:117-158 | the corrected test excludes everything the test as written excludes, and more only files whose whole name is an excluded extension, among them ".DS_Store" |
| Tree.Kept | tree_generator.py:152-161 | only entries of the input are kept by the test as written, never more of them |
| Tree.KeptMembers | tree_generator.py:155-160 | an entry is kept exactly when it is present and not excluded by the test as written |
| Tree.KeptSnoc | tree_generator.py:155-160 | one more entry is appended exactly when the test as written does not exclude it |
| Tree.FilterItems | tree_generator.py:152-161 | the loop keeps exactly the entries the test as written does not exclude, in order |
| Tree.Shown | tree_generator.py:187-188 | every entry shown is an entry of the listing |
| Tree.ShownMembers | tree_generator.py:187-188 | an entry is shown exactly when it is listed and not excluded by the test as written |
| Tree.PrefixOfAppend | tree_generator.py:177-178 | a prefix extended by more text still starts with the prefix |
| Tree.PrefixedConcat | tree_generator.py:170-178 | an entry line, a subtree under an extended prefix and later lines under the prefix all start with the prefix |
| Tree.EntryPrefixed | tree_generator.py:164-178 | one entry's line and subtree start with the level's prefix |
| Tree.LevelLinesPrefixed | tree_generator.py:164-178 | every line of a level starts with its prefix |
| Tree.TreeLinesPrefixed | tree_generator.py:181-200 | every line printed for a directory, at any depth, starts with the prefix it was given |
| Tree.TreeLinesEdgeCases | tree_generator.py:186-200 | an empty directory prints nothing; an unreadable one prints exactly one error line |
| Tree.LevelStartsWithFirstEntry | tree_generator.py:166-170 | a level's first line is its first entry's, with the elbow pointer exactly when that entry is the only one |
| Tree.LevelStep | tree_generator.py:167-178 | a level is one entry's line, its subtree when it is a directory, then the later entries |
| Tree.LevelAppend | tree_generator.py:167-178 | output already printed, then one entry's lines, then the later entries is the output before that entry followed by the level from it |
| Tree.LevelLines | tree_generator.py:164-178 | a level prints at least one line per entry from its position on |
| Tree.TreeLines | tree_generator.py:181-200 | an unreadable directory prints one line; a readable one at least one per shown entry |
| Tree.PrintEntry | tree_generator.py:168-178 | one entry prints its line, followed by its subtree under the extended prefix when it is a directory |
| Tree.PrintTreeLevel | tree_generator.py:164-178 | the level loop prints exactly the level's lines |
| Tree.GenerateTree | tree_generator.py:181-200 | a readable directory prints its shown entries' level; a denied one prints the access-denied line; another error prints the error line |
| Numbers.Round | src/pipeline.py:235 | `round(x)` is within one half of `x`, and an exact half goes to the even neighbour |
| Numbers.RoundTo | src/vector_store.py:126 | `round(x, digits)` is within half a unit of the last kept decimal place of `x` |
| Text.Strip | src/utils/json_helpers.py:19 | `strip()` leaves no white space at either end |
| Text.StripTrims | src/utils/json_helpers.py:19 | `strip()` is the text less a run of white space at its front and one at its back, and nothing else |
| Text.TrimLeftIsSuffix | src/utils/json_helpers.py:19 | the left half of `strip()` removes only white space, and only from the front |
| Text.TrimRightIsPrefix | src/utils/json_helpers.py:19 | the right half of `strip()` removes only white space, and only from the back |
| Text.StripUnicodeSpace | src/utils/json_helpers.py:19 | `strip()` removes Unicode white space too: a no-break space in front and a line separator behind |
| Text.Split | src/intelligent_scoring.py:28 | `split(",")` always gives at least one part |
| Text.SplitPartsHaveNoSeparator | src/intelligent_scoring.py:28 | no part of a split holds the separator |
| Text.JoinSplit | src/intelligent_scoring.py:28 | joining the parts with the separator gives back the text |

## Left out

- I/O is not modelled: CSV saving (`save_dataframe_csv` called at src/pipeline.py:162-164, and `save_jobs_to_csv` at src/data_collector.py:122-139), CSV loading (`_load_and_validate_csv` at src/pipeline.py:289-307 and the `read_csv` at src/pipeline.py:549), writing the CV cache, reading prompt and CV files, logging other than the report's lines, the command line, the Streamlit UI, configuration loading and `tree_generator.py`'s `main`.
- Waiting is not modelled: `time.sleep` calls are recorded as their durations (back-off) or left out (the 0.1-second rate-limit pause).
- Thread pools are modelled sequentially: `executor.map` keeps input order, and the `as_completed` merge in `collect_job_data` is an arbitrary completion order given as an input.
- Floating point is modelled with exact reals: cosine similarity is an input, and `round` is rounded half to even on exact values.
- Regular expressions are written out as scanners: the keyword matcher, the experience-year scan, the fenced-block and brace-span searches and the slug substitution. They follow Python's `re` semantics up to the character classes named in the next lines.
- Scoring.ScoreTitle: `\w` (word characters, used by `\b`) is Python's exact set up to U+00FF; beyond it every character except Unicode white space and the general punctuation block U+2000-U+206F counts as a word character, so combining marks, currency signs, arrows, mathematical symbols and emoji are word characters in the model but not in Python.
- Scoring.ScoreDescription: the same approximation of `\w` beyond U+00FF as for Scoring.ScoreTitle.
- PersonaBuilder.Assignments: the slug substitution `\W+` uses the same approximation of `\w` beyond U+00FF as Scoring.ScoreTitle.
- Scoring.ScoreExperience: `\d` in the year pattern is the ASCII digits 0-9 in the model; Python's `\d` in a text pattern matches every Unicode decimal digit (fullwidth "５", Arabic-Indic digits and the like), which `int()` reads, so a mention such as "En az ５ yıl" is penalised by the source and not by the model.
- Lower-casing covers ASCII, Latin-1 and the Turkish letters Ğ and Ş; 'İ', which `str.lower` lowers to two characters, is left as it is. Other cased letters (the rest of Latin Extended, Greek, Cyrillic) are not lowered.
- Scoring.MatchesIgnoresCase: `re.IGNORECASE` also equates the upper and lower case of letters beyond ASCII, Latin-1, Latin Extended-A, basic Greek and Cyrillic and the special classes of the dotted and dotless i, the long s, the Kelvin sign, the micro sign and the final sigma (Armenian, Georgian or Latin Extended-B letters, for instance, and the Greek letters with tonos); the model matches those letters only in the same case.
- Numbers.RoundTo: for an arbitrary number of places the contract bounds the result to within half a unit of the last kept place; the exact value (`round` of the scaled number, ties to even) is stated where the pipeline rounds, at 2 and 4 places, by VectorStore.HitAt.
- A missing text field reads as the empty string, as `job.get(key, "")` reads it; a field present with the value `None` makes `_check_job_filters` raise `AttributeError` at `.lower()` (src/filter.py:112-113), which the model does not reproduce: its text fields are strings.
- PipelineSearch.PoolSize: `rerank_pool_size` is an optional integer; a present non-integer value such as `None` raises `TypeError` at `pool_size <= 0` in the source, which the model cannot express.
- PipelineCollect.CellText: a missing description cell (NaN after the concatenation) prints as `nan`; a cell holding `None`, which `astype(str)` prints as `None`, is not told apart from a missing one.
- `build_dynamic_personas(None)` is modelled as the empty list of titles, which it equals in effect.
- `get_collection_stats` in `src/vector_store.py` is not part of this model (outside the pipeline's path).
- VectorStore.Inserted: an id the collection already holds keeps its old entry; what ChromaDB does with a duplicate id is not modelled beyond that.
- EmbeddingService.Service.CreateEmbedding: the embedding API is keyed on (text, attempt), so two calls for the same text share their answers.
- Exceptions are modelled by kind only: `ValueError`, `TypeError`, `KeyError`, and one kind for every other exception; messages are not modelled.
- Tree.SortedByName: paths are compared by name, which is how `sorted` orders entries of one directory.
- The loop bodies of `create_embeddings_batch`, `_collect_jobs_for_persona`'s caller loop, `_print_tree_level` and the rerank map are separate methods (`EmbedBatch`, `EmbedInChunks`, `CollectBatches`, `PrintEntry`, `AnalyseStep`), and `_score_and_rank_jobs`'s search call is `SearchSimilar`.
- main.py, main_backup.py, main_broken.py, src/cv_processor.py, src/utils/file_helpers.py, src/utils/prompt_loader.py, src/cli.py, src/config.py, src/logger_config.py and app.py are not part of this model.

## Findings

| source | as written | input that shows it | evidently intended | confidence | as-written member | corrected member |
|---|---|---|---|---|---|---|
| src/reporting.py:29 | the score line's template `%%.1f` has no conversion, yet the score is passed as an argument, so formatting raises and the line is never logged | any non-empty job list | the score shown to one decimal (`%.1f`) | not executed | Reporting.ScoreLineLostAsWritten | Reporting.ScoreLineEmitted |
| tree_generator.py:117-158 | ".DS_Store" is listed among the excluded extensions, but `Path(".DS_Store").suffix` is empty, so such a file is never excluded | a directory holding a file named ".DS_Store" | ".DS_Store" files left out of the tree | not executed | Tree.DsStoreListedAsWritten | Tree.Excluded |

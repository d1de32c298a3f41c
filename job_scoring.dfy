/**
 * The scoring side of the filter module: `score_jobs`, which applies the
 * scoring engine to every job, and `compare_filters`, which sets its result
 * beside the blacklist filter's.
 */
module JobScoring {
  import opened Wrappers
  import opened Scoring
  import opened Jobs
  import opened Ranking
  import opened Filter

  /** The scoring inputs of the jobs, read from the heap in one go. */
  ghost function Texts(jobs: seq<Job>): (r: seq<JobText>)
    ensures |r| == |jobs|
  {
    if jobs == [] then [] else [jobs[0].Text()] + Texts(jobs[1..])
  }

  /** Entry `k` of `Texts` holds the fields of job `k`. */
  lemma {:induction false} TextsAt(jobs: seq<Job>, k: nat)
    requires k < |jobs|
    ensures Texts(jobs)[k] == jobs[k].Text()
  {
    if k > 0 {
      TextsAt(jobs[1..], k - 1);
    }
  }

  /** The total `score_job` gives each of these jobs. */
  ghost function Totals(sys: ScoringSystem, texts: seq<JobText>, cosine: (Embedding, Embedding) -> real): (r: seq<int>)
    ensures |r| == |texts|
  {
    if texts == [] then [] else [JobTotal(sys, texts[0], cosine)] + Totals(sys, texts[1..], cosine)
  }

  /** Entry `k` of `Totals` is the total of job `k`. */
  lemma {:induction false} TotalsAt(sys: ScoringSystem, texts: seq<JobText>, cosine: (Embedding, Embedding) -> real, k: nat)
    requires k < |texts|
    ensures Totals(sys, texts, cosine)[k] == JobTotal(sys, texts[k], cosine)
  {
    if k > 0 {
      TotalsAt(sys, texts[1..], cosine, k - 1);
    }
  }

  /** The `score_details` `score_job` gives each of these jobs. */
  ghost function AllDetails(sys: ScoringSystem, texts: seq<JobText>, cosine: (Embedding, Embedding) -> real): (r: seq<ScoreDetails>)
    ensures |r| == |texts|
  {
    if texts == [] then [] else [JobDetails(sys, texts[0], cosine)] + AllDetails(sys, texts[1..], cosine)
  }

  /** Entry `k` of `AllDetails` is the details of job `k`, and its total is the job's total. */
  lemma {:induction false} AllDetailsAt(sys: ScoringSystem, texts: seq<JobText>, cosine: (Embedding, Embedding) -> real, k: nat)
    requires k < |texts|
    ensures AllDetails(sys, texts, cosine)[k] == JobDetails(sys, texts[k], cosine)
    ensures AllDetails(sys, texts, cosine)[k].total == Totals(sys, texts, cosine)[k]
  {
    if k > 0 {
      AllDetailsAt(sys, texts[1..], cosine, k - 1);
      TotalsAt(sys, texts[1..], cosine, k - 1);
    }
  }

  /** Jobs with the same texts get the same total. */
  lemma TotalsOfEqualTexts(sys: ScoringSystem, texts: seq<JobText>, cosine: (Embedding, Embedding) -> real, k: nat, i: nat)
    requires k < |texts| && i < |texts| && texts[k] == texts[i]
    ensures Totals(sys, texts, cosine)[k] == Totals(sys, texts, cosine)[i]
  {
    TotalsAt(sys, texts, cosine, k);
    TotalsAt(sys, texts, cosine, i);
  }

  /**
   * The ranked entries of the admitted jobs among the first `n`, in input
   * order, each keyed by its total.
   */
  function AdmittedEntries(sys: ScoringSystem, totals: seq<int>, jobs: seq<Job>, n: nat): (r: seq<Ranked<Job>>)
    requires n <= |totals| == |jobs|
  {
    if n == 0 then []
    else
      AdmittedEntries(sys, totals, jobs, n - 1)
      + (if ShouldInclude(sys, totals[n - 1]) then [Ranked([totals[n - 1] as real], n - 1, jobs[n - 1])] else [])
  }

  /**
   * Every entry of `r` is an admitted job among the first `n`, keyed by its
   * total, and the entries keep input order.
   */
  ghost predicate AdmittedInOrder(sys: ScoringSystem, totals: seq<int>, jobs: seq<Job>, n: nat, r: seq<Ranked<Job>>)
    requires n <= |totals| == |jobs|
  {
    (forall k :: 0 <= k < |r| ==>
       r[k].pos < n && r[k].item == jobs[r[k].pos] && ShouldInclude(sys, totals[r[k].pos])
       && r[k].key == [totals[r[k].pos] as real])
    && (forall k, l :: 0 <= k < l < |r| ==> r[k].pos < r[l].pos)
  }

  lemma {:induction false} AdmittedEntriesSound(sys: ScoringSystem, totals: seq<int>, jobs: seq<Job>, n: nat)
    requires n <= |totals| == |jobs|
    ensures AdmittedInOrder(sys, totals, jobs, n, AdmittedEntries(sys, totals, jobs, n))
  {
    if n > 0 {
      AdmittedEntriesSound(sys, totals, jobs, n - 1);
      var prev := AdmittedEntries(sys, totals, jobs, n - 1);
      var r := AdmittedEntries(sys, totals, jobs, n);
      assert forall k :: 0 <= k < |prev| ==> r[k] == prev[k];
    }
  }

  /** No admitted job is lost: each has an entry. */
  lemma {:induction false} AdmittedEntriesComplete(sys: ScoringSystem, totals: seq<int>, jobs: seq<Job>, n: nat, p: nat)
    requires n <= |totals| == |jobs|
    requires p < n && ShouldInclude(sys, totals[p])
    ensures exists k :: 0 <= k < |AdmittedEntries(sys, totals, jobs, n)| && AdmittedEntries(sys, totals, jobs, n)[k].pos == p
  {
    var r := AdmittedEntries(sys, totals, jobs, n);
    var prev := AdmittedEntries(sys, totals, jobs, n - 1);
    if p == n - 1 {
      assert r[|r| - 1].pos == p;
    } else {
      AdmittedEntriesComplete(sys, totals, jobs, n - 1, p);
      var k :| 0 <= k < |prev| && prev[k].pos == p;
      assert r[k] == prev[k];
    }
  }

  /** The titles of the jobs whose total `should_include` admits. */
  function AdmittedTitles(sys: ScoringSystem, texts: seq<JobText>, totals: seq<int>): set<string>
    requires |totals| == |texts|
  {
    set p | 0 <= p < |texts| && ShouldInclude(sys, totals[p]) :: texts[p].title
  }

  /** The titles of a list of jobs. */
  function Titles(jobs: seq<Job>): set<string>
  {
    set j | j in jobs :: j.title
  }

  /** Any reordering of the admitted entries carries exactly the admitted titles. */
  lemma {:induction false} EntriesTitles(sys: ScoringSystem, jobs: seq<Job>, totals: seq<int>, order: seq<Ranked<Job>>)
    requires |totals| == |jobs|
    requires multiset(order) == multiset(AdmittedEntries(sys, totals, jobs, |jobs|))
    ensures Titles(Items(order)) == AdmittedTitles(sys, Texts(jobs), totals)
  {
    var texts := Texts(jobs);
    var entries := AdmittedEntries(sys, totals, jobs, |jobs|);
    forall p | 0 <= p < |jobs|
      ensures texts[p].title == jobs[p].title
    {
      TextsAt(jobs, p);
    }
    AdmittedEntriesSound(sys, totals, jobs, |jobs|);
    var items := Items(order);
    forall x | x in Titles(items)
      ensures x in AdmittedTitles(sys, texts, totals)
    {
      var j :| j in items && j.title == x;
      var k :| 0 <= k < |order| && items[k] == j;
      assert order[k] in multiset(entries);
      var e :| 0 <= e < |entries| && entries[e] == order[k];
      var p := entries[e].pos;
      assert texts[p].title == x;
    }
    forall x | x in AdmittedTitles(sys, texts, totals)
      ensures x in Titles(items)
    {
      var p :| 0 <= p < |texts| && ShouldInclude(sys, totals[p]) && texts[p].title == x;
      AdmittedEntriesComplete(sys, totals, jobs, |jobs|, p);
      var k :| 0 <= k < |entries| && entries[k].pos == p;
      assert entries[k] in multiset(order);
      var m :| 0 <= m < |order| && order[m] == entries[k];
      assert items[m] == jobs[p];
    }
  }

  /** The keys `score_jobs` writes: `score_details` as given, and `score` its total. */
  ghost predicate Scored(job: Job, details: ScoreDetails)
    reads job`score, job`details
  {
    job.score == Some(details.total) && job.details == Some(details)
  }

  /**
   * One turn of the `score_jobs` loop: `score_job` on job `i`, both keys
   * written onto it, and the job collected when `should_include` admits it.
   */
  method ScoreStep(sys: ScoringSystem, jobs: seq<Job>, cosine: (Embedding, Embedding) -> real, i: nat, job: Job,
                   entries: seq<Ranked<Job>>, ghost texts: seq<JobText>)
    returns (entries': seq<Ranked<Job>>)
    requires i < |jobs| && job == jobs[i] && texts == Texts(jobs)
    requires forall k :: 0 <= k < i ==> Scored(jobs[k], AllDetails(sys, texts, cosine)[k])
    requires entries == AdmittedEntries(sys, Totals(sys, texts, cosine), jobs, i)
    modifies job`score, job`details
    ensures forall k :: 0 <= k <= i ==> Scored(jobs[k], AllDetails(sys, texts, cosine)[k])
    ensures entries' == AdmittedEntries(sys, Totals(sys, texts, cosine), jobs, i + 1)
  {
    ghost var ds := AllDetails(sys, texts, cosine);
    TextsAt(jobs, i);
    AllDetailsAt(sys, texts, cosine, i);
    // A job listed twice has the same texts, so the same details, at each of its positions.
    forall k | 0 <= k < i && jobs[k] == job
      ensures ds[k] == ds[i]
    {
      TextsAt(jobs, k);
      AllDetailsAt(sys, texts, cosine, k);
    }
    var details;
    var total;
    total, details := ScoreJob(sys, JobText(job.title, job.description, job.embedding), cosine);
    assert details == ds[i];
    TotalsAt(sys, texts, cosine, i);
    job.score := Some(total);
    job.details := Some(details);
    forall k | 0 <= k <= i
      ensures Scored(jobs[k], ds[k])
    {
      if jobs[k] != job {
        assert old(Scored(jobs[k], ds[k]));
      }
    }
    entries' := entries;
    if ShouldInclude(sys, total) {
      entries' := entries + [Ranked([total as real], i, job)];
    }
  }

  /**
   * The loop of `score_jobs`: scores every job in place and collects the
   * admitted ones, in input order, keyed by their total.
   */
  method ScoreAll(sys: ScoringSystem, jobs: seq<Job>, cosine: (Embedding, Embedding) -> real)
    returns (entries: seq<Ranked<Job>>)
    modifies jobs`score, jobs`details
    ensures forall k :: 0 <= k < |jobs| ==> Scored(jobs[k], AllDetails(sys, Texts(jobs), cosine)[k])
    ensures entries == AdmittedEntries(sys, Totals(sys, Texts(jobs), cosine), jobs, |jobs|)
  {
    ghost var texts := Texts(jobs);
    entries := [];
    var i := 0;
    while i < |jobs|
      invariant 0 <= i <= |jobs|
      invariant Texts(jobs) == texts
      invariant forall k :: 0 <= k < i ==> Scored(jobs[k], AllDetails(sys, texts, cosine)[k])
      invariant entries == AdmittedEntries(sys, Totals(sys, texts, cosine), jobs, i)
    {
      entries := ScoreStep(sys, jobs, cosine, i, jobs[i], entries, texts);
      i := i + 1;
    }
  }

  /**
   * `score_jobs`: writes `score` and `score_details` onto every job, keeps
   * the admitted ones and sorts them by total, highest first, ties in input
   * order.  `order` pairs each result with its index in `jobs`.
   */
  method ScoreJobs(sys: ScoringSystem, jobs: seq<Job>, cosine: (Embedding, Embedding) -> real)
    returns (scored: seq<Job>, order: seq<Ranked<Job>>)
    modifies jobs`score, jobs`details
    ensures forall k :: 0 <= k < |jobs| ==> Scored(jobs[k], AllDetails(sys, Texts(jobs), cosine)[k])
    ensures multiset(order) == multiset(AdmittedEntries(sys, Totals(sys, Texts(jobs), cosine), jobs, |jobs|))
    ensures Ordered(order)
    ensures scored == Items(order)
    ensures Titles(scored) == AdmittedTitles(sys, Texts(jobs), Totals(sys, Texts(jobs), cosine))
  {
    var entries := ScoreAll(sys, jobs, cosine);
    order := SortRanked(entries);
    scored := Items(order);
    EntriesTitles(sys, jobs, Totals(sys, Texts(jobs), cosine), order);
  }

  /** The three title sets `compare_filters` returns. */
  datatype Comparison = Comparison(oldOnly: set<string>, newOnly: set<string>, intersection: set<string>)

  /** Set differences and intersection of the legacy and the scored titles. */
  function CompareTitles(oldTitles: set<string>, newTitles: set<string>): (c: Comparison)
    ensures c.oldOnly !! c.newOnly && c.oldOnly !! c.intersection && c.newOnly !! c.intersection
    ensures c.oldOnly + c.intersection == oldTitles
    ensures c.newOnly + c.intersection == newTitles
  {
    Comparison(oldTitles - newTitles, newTitles - oldTitles, oldTitles * newTitles)
  }

  /**
   * `compare_filters`: runs the blacklist filter and the scorer on the same
   * jobs and splits their titles into the three groups.
   */
  method CompareFilters(sys: ScoringSystem, jobs: seq<Job>, cosine: (Embedding, Embedding) -> real)
    returns (c: Comparison)
    modifies jobs`score, jobs`details
    ensures c == CompareTitles(Titles(Passing(jobs, |jobs|)), AdmittedTitles(sys, Texts(jobs), Totals(sys, Texts(jobs), cosine)))
  {
    var legacy, _ := FilterJuniorSuitable(jobs);
    var scored, _ := ScoreJobs(sys, jobs, cosine);
    c := CompareTitles(Titles(legacy), Titles(scored));
  }
}

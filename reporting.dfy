/**
 * `display_results` (`src/reporting.py`): the lines logged for the final
 * job list.  A job is a dictionary of values; the log is a sequence of
 * events, each standing for the logging call (or fixed group of calls) it
 * names, with the values it shows.  Number formatting and the emoji
 * decoration are not modelled, except where a format string decides
 * whether a line is logged at all.
 */
module Reporting {
  import opened Wrappers
  import opened Values
  import opened Ranking
  import Dicts

  type JobRecord = map<string, Value>

  /** How many jobs are listed at most. */
  const ListedMax: nat := 15

  datatype Line =
    /** The count of jobs found. */
    | Found(count: nat)
    /** The threshold, as "%NN ve üzeri". */
    | ThresholdShown(threshold: real)
    /** The fixed banner: a rule of 70 "=", two headings and another rule. */
    | Banner
    /**
     * The seven lines of one listed job; `score` is `None` when its line is
     * lost to a formatting error.
     */
    | JobEntry(rank: nat, title: Value, company: Value, location: Value, score: Option<Value>,
               site: Value, persona: Value, url: Value)
    /** The closing count. */
    | Completed(count: nat)
    /** "Persona Dağılımı". */
    | DistributionHeading
    | PersonaCount(persona: Value, count: nat)
    /** The warning for an empty list, with the threshold. */
    | Warning(threshold: real)
    /** The suggestion to lower the threshold. */
    | Hint

  // ---------------------------------------------------------------------
  // printf-style templates: whether a logging call formats at all.
  // ---------------------------------------------------------------------

  /**
   * The number of arguments `template % args` consumes: one per "%" that
   * is not part of the escape "%%".
   */
  function Conversions(template: string): (n: nat)
    ensures '%' !in template ==> n == 0
  {
    if template == [] then 0
    else if template[0] == '%' && |template| >= 2 && template[1] == '%' then Conversions(template[2..])
    else (if template[0] == '%' then 1 else 0) + Conversions(template[1..])
  }

  /** Text without "%" in front of a template changes nothing. */
  lemma {:induction false} ConversionsAfterPlain(plain: string, rest: string)
    requires '%' !in plain
    ensures Conversions(plain + rest) == Conversions(rest)
  {
    if plain == [] {
      assert plain + rest == rest;
    } else {
      assert plain[0] != '%' && (plain + rest)[0] == plain[0];
      assert (plain + rest)[1..] == plain[1..] + rest;
      ConversionsAfterPlain(plain[1..], rest);
    }
  }

  /**
   * A logging call's line is emitted only when its template consumes exactly
   * its arguments; otherwise formatting raises `TypeError`, which the
   * logging handler reports on standard error instead of the line.
   */
  predicate Emitted(template: string, argCount: nat)
  {
    Conversions(template) == argCount
  }

  /** The label in front of the score on a job's score line. */
  const ScoreLabel: string := "   \U{1F4CA} Uygunluk: "

  /** The score line's template as written: the doubled "%" makes ".1f" literal text. */
  const ScoreTemplateAsWritten: string := ScoreLabel + "%%.1f"

  /** The score line's template with one "%", formatting the score to one decimal. */
  const ScoreTemplate: string := ScoreLabel + "%.1f"

  /** As written, the score line, logged with the score as its one argument, is never emitted. */
  lemma ScoreLineLostAsWritten()
    ensures !Emitted(ScoreTemplateAsWritten, 1)
  {
    ConversionsAfterPlain(ScoreLabel, "%%.1f");
    assert Conversions("%%.1f") == 0 by {
      assert "%%.1f"[2..] == ".1f";
    }
  }

  /** With a single "%" the score line is emitted. */
  lemma ScoreLineEmitted()
    ensures Emitted(ScoreTemplate, 1)
  {
    ConversionsAfterPlain(ScoreLabel, "%.1f");
    assert Conversions("%.1f") == 1 by {
      assert "%.1f"[1..] == ".1f";
    }
  }

  // ---------------------------------------------------------------------
  // One listed job.
  // ---------------------------------------------------------------------

  /** The score shown: `match_score`, else `similarity_score`, else 0. */
  function DisplayedScore(job: JobRecord): (v: Value)
    ensures "match_score" in job ==> v == job["match_score"]
    ensures "match_score" !in job && "similarity_score" in job ==> v == job["similarity_score"]
    ensures "match_score" !in job && "similarity_score" !in job ==> v == Int(0)
  {
    Get(job, "match_score", Get(job, "similarity_score", Int(0)))
  }

  /** The persona a job is counted under: `persona_source`, else `persona`, else "Unknown". */
  function PersonaOf(job: JobRecord): (v: Value)
    ensures "persona_source" in job ==> v == job["persona_source"]
    ensures "persona_source" !in job && "persona" in job ==> v == job["persona"]
    ensures "persona_source" !in job && "persona" !in job ==> v == Str("Unknown")
  {
    Get(job, "persona_source", Get(job, "persona", Str("Unknown")))
  }

  /** The texts shown for a job's missing fields. */
  const NoTitle: string := "Başlık belirtilmemiş"
  const NoCompany: string := "Şirket belirtilmemiş"
  const NoLocation: string := "Lokasyon belirtilmemiş"
  const NoSite: string := "Site belirtilmemiş"
  const NoPersona: string := "Persona belirtilmemiş"
  const NoUrl: string := "URL bulunamadı"

  /** The lines for the job listed at `rank`, with the score its score line shows, if any. */
  function EntryShowing(rank: nat, job: JobRecord, score: Option<Value>): Line
  {
    JobEntry(rank,
             Get(job, "title", Str(NoTitle)),
             Get(job, "company", Str(NoCompany)),
             Get(job, "location", Str(NoLocation)),
             score,
             Get(job, "source_site", Get(job, "site", Str(NoSite))),
             Get(job, "persona_source", Get(job, "persona", Str(NoPersona))),
             Get(job, "url", Get(job, "job_url", Str(NoUrl))))
  }

  /** The lines for the job listed at `rank`, given the template its score line uses. */
  function EntryWith(scoreTemplate: string, rank: nat, job: JobRecord): Line
  {
    EntryShowing(rank, job, if Emitted(scoreTemplate, 1) then Some(DisplayedScore(job)) else None)
  }

  /** The entry as the source writes it: its score line is always lost. */
  function EntryAsWritten(rank: nat, job: JobRecord): (e: Line)
    ensures e.JobEntry? && e.rank == rank && e.score.None?
  {
    ScoreLineLostAsWritten();
    EntryWith(ScoreTemplateAsWritten, rank, job)
  }

  /** The entry with the score line emitted: it shows the displayed score. */
  function Entry(rank: nat, job: JobRecord): (e: Line)
    ensures e.JobEntry? && e.rank == rank && e.score == Some(DisplayedScore(job))
  {
    EntryShowing(rank, job, Some(DisplayedScore(job)))
  }

  /** `Entry` is what the one-"%" score template produces, and differs from the entry as written only in its score line. */
  lemma EntryFollowsTemplate(rank: nat, job: JobRecord)
    ensures Entry(rank, job) == EntryWith(ScoreTemplate, rank, job)
    ensures EntryAsWritten(rank, job) == Entry(rank, job).(score := None)
  {
    ScoreLineEmitted();
    ScoreLineLostAsWritten();
  }

  // ---------------------------------------------------------------------
  // The persona tally.
  // ---------------------------------------------------------------------

  /** The persona of every job, in list order. */
  function Personas(jobs: seq<JobRecord>): (ps: seq<Value>)
    ensures |ps| == |jobs| && forall k :: 0 <= k < |jobs| ==> ps[k] == PersonaOf(jobs[k])
  {
    seq(|jobs|, k requires 0 <= k < |jobs| => PersonaOf(jobs[k]))
  }

  /** Whether `x` is among `xs[..n]`. */
  predicate Occurs(xs: seq<Value>, x: Value, n: nat)
    requires n <= |xs|
  {
    exists j :: 0 <= j < n && xs[j] == x
  }

  /** The distinct values among `xs[..n]`, in order of first appearance (a dictionary's key order). */
  function FirstSeen(xs: seq<Value>, n: nat): (keys: seq<Value>)
    requires n <= |xs|
    ensures |keys| <= n
  {
    if n == 0 then []
    else
      var keys := FirstSeen(xs, n - 1);
      if xs[n - 1] in keys then keys else keys + [xs[n - 1]]
  }

  /** No value is a key twice. */
  lemma {:induction false} FirstSeenDistinct(xs: seq<Value>, n: nat)
    requires n <= |xs|
    ensures forall i, j :: 0 <= i < j < |FirstSeen(xs, n)| ==> FirstSeen(xs, n)[i] != FirstSeen(xs, n)[j]
  {
    if n > 0 {
      FirstSeenDistinct(xs, n - 1);
    }
  }

  /** Every value up to `n` is a key. */
  lemma {:induction false} FirstSeenCovers(xs: seq<Value>, n: nat)
    requires n <= |xs|
    ensures forall j :: 0 <= j < n ==> xs[j] in FirstSeen(xs, n)
  {
    if n > 0 {
      FirstSeenCovers(xs, n - 1);
    }
  }

  /** Every first-seen value occurs among the values. */
  lemma {:induction false} FirstSeenOccur(xs: seq<Value>, n: nat, k: nat)
    requires n <= |xs| && k < |FirstSeen(xs, n)|
    ensures Occurs(xs, FirstSeen(xs, n)[k], n)
  {
    var keys := FirstSeen(xs, n - 1);
    if k < |keys| {
      FirstSeenOccur(xs, n - 1, k);
      assert FirstSeen(xs, n)[k] == keys[k];
    } else {
      assert FirstSeen(xs, n)[k] == xs[n - 1];
    }
  }

  /** How many of `xs[..n]` equal `x`. */
  function CountOf(xs: seq<Value>, x: Value, n: nat): (c: nat)
    requires n <= |xs|
    ensures c <= n
    ensures c > 0 <==> Occurs(xs, x, n)
  {
    if n == 0 then 0
    else
      var c := CountOf(xs, x, n - 1);
      assert Occurs(xs, x, n) <==> Occurs(xs, x, n - 1) || xs[n - 1] == x;
      c + (if xs[n - 1] == x then 1 else 0)
  }

  /** `counts` is the tally of `xs[..n]`: the first-seen values, each with its count. */
  ghost predicate TallyOf(counts: seq<(Value, nat)>, xs: seq<Value>, n: nat)
    requires n <= |xs|
  {
    Dicts.Keys(counts) == FirstSeen(xs, n)
    && forall i :: 0 <= i < |counts| ==> counts[i].1 == CountOf(xs, counts[i].0, n)
  }

  /** `persona_counts` after the loop: each persona in first-appearance order with its count. */
  function Tally(jobs: seq<JobRecord>): (t: seq<(Value, nat)>)
    ensures TallyOf(t, Personas(jobs), |jobs|)
    ensures forall i, j :: 0 <= i < j < |t| ==> t[i].0 != t[j].0
    ensures forall k :: 0 <= k < |jobs| ==> PersonaOf(jobs[k]) in Dicts.Keys(t)
    ensures forall i :: 0 <= i < |t| ==> t[i].1 > 0
  {
    var ps := Personas(jobs);
    var keys := FirstSeen(ps, |jobs|);
    var t := seq(|keys|, i requires 0 <= i < |keys| => (keys[i], CountOf(ps, keys[i], |jobs|)));
    assert Dicts.Keys(t) == keys;
    FirstSeenDistinct(ps, |jobs|);
    FirstSeenCovers(ps, |jobs|);
    forall i | 0 <= i < |keys|
      ensures CountOf(ps, keys[i], |jobs|) > 0
    {
      FirstSeenOccur(ps, |jobs|, i);
    }
    t
  }

  /** One job more: its persona's count goes up by one, or it is appended with count 1. */
  function Bump(counts: seq<(Value, nat)>, key: Value): seq<(Value, nat)>
  {
    match IndexOfKey(counts, key)
    case Some(i) => counts[i := (key, counts[i].1 + 1)]
    case None => counts + [(key, 1)]
  }

  lemma TallyStep(counts: seq<(Value, nat)>, xs: seq<Value>, n: nat)
    requires n < |xs| && TallyOf(counts, xs, n)
    ensures TallyOf(Bump(counts, xs[n]), xs, n + 1)
  {
    if xs[n] in FirstSeen(xs, n) {
      TallyStepSeen(counts, xs, n);
    } else {
      TallyStepNew(counts, xs, n);
    }
  }

  /** A persona already counted: its count goes up by one, the others stay. */
  lemma TallyStepSeen(counts: seq<(Value, nat)>, xs: seq<Value>, n: nat)
    requires n < |xs| && TallyOf(counts, xs, n) && xs[n] in FirstSeen(xs, n)
    ensures TallyOf(Bump(counts, xs[n]), xs, n + 1)
  {
    var x := xs[n];
    FirstSeenDistinct(xs, n);
    assert forall y :: CountOf(xs, y, n + 1) == CountOf(xs, y, n) + (if x == y then 1 else 0);
    assert Dicts.Keys(Bump(counts, x)) == FirstSeen(xs, n);
  }

  /** A new persona: appended with count one, the others stay. */
  lemma TallyStepNew(counts: seq<(Value, nat)>, xs: seq<Value>, n: nat)
    requires n < |xs| && TallyOf(counts, xs, n) && xs[n] !in FirstSeen(xs, n)
    ensures TallyOf(Bump(counts, xs[n]), xs, n + 1)
  {
    var x := xs[n];
    FirstSeenCovers(xs, n);
    assert !Occurs(xs, x, n);
    assert forall y :: CountOf(xs, y, n + 1) == CountOf(xs, y, n) + (if x == y then 1 else 0);
    assert Dicts.Keys(Bump(counts, x)) == Dicts.Keys(counts) + [x];
  }

  /** The sum of the counts of `keys` among `xs[..n]`. */
  function SumCounts(xs: seq<Value>, keys: seq<Value>, n: nat): nat
    requires n <= |xs|
  {
    if keys == [] then 0 else SumCounts(xs, keys[..|keys| - 1], n) + CountOf(xs, keys[|keys| - 1], n)
  }

  /** One more element adds one to the sum when it is among the (distinct) keys. */
  lemma {:induction false} SumCountsStep(xs: seq<Value>, keys: seq<Value>, n: nat)
    requires n < |xs|
    requires forall i, j :: 0 <= i < j < |keys| ==> keys[i] != keys[j]
    ensures SumCounts(xs, keys, n + 1) == SumCounts(xs, keys, n) + (if xs[n] in keys then 1 else 0)
  {
    if keys != [] {
      var init := keys[..|keys| - 1];
      SumCountsStep(xs, init, n);
      assert keys == init + [keys[|keys| - 1]];
    }
  }

  /** The counts of the distinct values add up to the number of elements. */
  lemma {:induction false} SumOfFirstSeen(xs: seq<Value>, n: nat)
    requires n <= |xs|
    ensures SumCounts(xs, FirstSeen(xs, n), n) == n
  {
    if n > 0 {
      SumOfFirstSeen(xs, n - 1);
      if xs[n - 1] in FirstSeen(xs, n - 1) {
        SumWithSeenKey(xs, n);
      } else {
        SumWithNewKey(xs, n);
      }
    }
  }

  /** A value seen before adds one to its own count and leaves the keys alone. */
  lemma SumWithSeenKey(xs: seq<Value>, n: nat)
    requires 0 < n <= |xs| && xs[n - 1] in FirstSeen(xs, n - 1)
    requires SumCounts(xs, FirstSeen(xs, n - 1), n - 1) == n - 1
    ensures SumCounts(xs, FirstSeen(xs, n), n) == n
  {
    FirstSeenDistinct(xs, n - 1);
    SumCountsStep(xs, FirstSeen(xs, n - 1), n - 1);
  }

  /** A new value becomes the last key, counted once. */
  lemma SumWithNewKey(xs: seq<Value>, n: nat)
    requires 0 < n <= |xs| && xs[n - 1] !in FirstSeen(xs, n - 1)
    requires SumCounts(xs, FirstSeen(xs, n - 1), n - 1) == n - 1
    ensures SumCounts(xs, FirstSeen(xs, n), n) == n
  {
    var keys := FirstSeen(xs, n - 1);
    var x := xs[n - 1];
    FirstSeenDistinct(xs, n - 1);
    SumCountsStep(xs, keys, n - 1);
    NewKeyCountsOne(xs, n);
    var more := keys + [x];
    assert FirstSeen(xs, n) == more;
    assert more[..|more| - 1] == keys;
  }

  /** A value not seen before the last position occurs exactly once up to it. */
  lemma NewKeyCountsOne(xs: seq<Value>, n: nat)
    requires 0 < n <= |xs| && xs[n - 1] !in FirstSeen(xs, n - 1)
    ensures CountOf(xs, xs[n - 1], n) == 1
  {
    FirstSeenCovers(xs, n - 1);
    assert !Occurs(xs, xs[n - 1], n - 1);
  }

  /** The persona counts add up to the number of jobs. */
  lemma TallySum(jobs: seq<JobRecord>)
    ensures SumCounts(Personas(jobs), Dicts.Keys(Tally(jobs)), |jobs|) == |jobs|
  {
    SumOfFirstSeen(Personas(jobs), |jobs|);
  }

  /** The index of `key` in an insertion-ordered dictionary. */
  function IndexOfKey(counts: seq<(Value, nat)>, key: Value): (r: Option<nat>)
    ensures r.Some? ==> r.value < |counts| && counts[r.value].0 == key
    ensures r.None? ==> forall i :: 0 <= i < |counts| ==> counts[i].0 != key
  {
    if counts == [] then None
    else if counts[|counts| - 1].0 == key then Some(|counts| - 1)
    else IndexOfKey(counts[..|counts| - 1], key)
  }

  /** The tally loop: `persona_counts[persona] = persona_counts.get(persona, 0) + 1` for each job. */
  method TallyPersonas(jobs: seq<JobRecord>) returns (counts: seq<(Value, nat)>)
    ensures counts == Tally(jobs)
  {
    ghost var ps := Personas(jobs);
    counts := [];
    for n := 0 to |jobs|
      invariant TallyOf(counts, ps, n)
    {
      var persona := PersonaOf(jobs[n]);
      TallyStep(counts, ps, n);
      var at := IndexOfKey(counts, persona);
      if at.Some? {
        counts := counts[at.value := (persona, counts[at.value].1 + 1)];
      } else {
        counts := counts + [(persona, 1)];
      }
    }
    TallyUnique(counts, Tally(jobs), ps, |jobs|);
  }

  /** A tally is determined by the values it counts. */
  lemma TallyUnique(a: seq<(Value, nat)>, b: seq<(Value, nat)>, xs: seq<Value>, n: nat)
    requires n <= |xs| && TallyOf(a, xs, n) && TallyOf(b, xs, n)
    ensures a == b
  {
    assert |a| == |Dicts.Keys(a)| == |Dicts.Keys(b)| == |b|;
    forall i | 0 <= i < |a|
      ensures a[i] == b[i]
    {
      assert Dicts.Keys(a)[i] == Dicts.Keys(b)[i];
    }
  }

  // ---------------------------------------------------------------------
  // The distribution order.
  // ---------------------------------------------------------------------

  /** The tally entries with their count as the sort key and their dictionary position. */
  function RankedCounts(counts: seq<(Value, nat)>): (r: seq<Ranked<(Value, nat)>>)
    ensures |r| == |counts|
    ensures forall k :: 0 <= k < |r| ==> r[k] == Ranked([counts[k].1 as real], k, counts[k])
  {
    seq(|counts|, k requires 0 <= k < |counts| => Ranked([counts[k].1 as real], k, counts[k]))
  }

  /**
   * `sorted(persona_counts.items(), key=count, reverse=True)`: a stable
   * sort of the entries, so equal counts keep first-appearance order.
   */
  ghost predicate Distribution(order: seq<Ranked<(Value, nat)>>, counts: seq<(Value, nat)>)
  {
    Ordered(order) && multiset(order) == multiset(RankedCounts(counts))
  }

  /** The entries of a distribution come in non-increasing count order. */
  lemma DistributionDescending(order: seq<Ranked<(Value, nat)>>, counts: seq<(Value, nat)>, i: nat, j: nat)
    requires Distribution(order, counts) && i < j < |order|
    ensures order[i].item.1 >= order[j].item.1
    ensures order[i].item.1 == order[j].item.1 ==> order[i].pos <= order[j].pos
  {
    assert order[i] in multiset(RankedCounts(counts)) && order[j] in multiset(RankedCounts(counts));
    OrderedIsStableDescending(order, i, j);
    var a, b := order[i].item.1 as real, order[j].item.1 as real;
    assert order[i].key == [a] && order[j].key == [b];
    assert !KeyGreater([b], [a]);
  }

  method SortDistribution(counts: seq<(Value, nat)>) returns (distribution: seq<(Value, nat)>, ghost order: seq<Ranked<(Value, nat)>>)
    ensures Distribution(order, counts) && distribution == Items(order)
    ensures multiset(distribution) == multiset(counts)
  {
    var sorted := SortRanked(RankedCounts(counts));
    order := sorted;
    distribution := Items(sorted);
    ItemsPermutation(sorted, RankedCounts(counts));
    assert Items(RankedCounts(counts)) == counts;
  }

  // ---------------------------------------------------------------------
  // display_results
  // ---------------------------------------------------------------------

  /** Whether the first job carries a persona key, which decides whether the distribution is shown. */
  predicate ShowsDistribution(jobs: seq<JobRecord>)
  {
    |jobs| > 0 && ("persona_source" in jobs[0] || "persona" in jobs[0])
  }

  /** One count line per distribution entry, in order. */
  function CountLines(distribution: seq<(Value, nat)>): (lines: seq<Line>)
    ensures |lines| == |distribution|
    ensures forall k :: 0 <= k < |lines| ==> lines[k] == PersonaCount(distribution[k].0, distribution[k].1)
  {
    seq(|distribution|, k requires 0 <= k < |distribution| => PersonaCount(distribution[k].0, distribution[k].1))
  }

  /** The entries of the first 15 jobs, ranked from 1 in list order, as written: without score lines. */
  function Listing(jobs: seq<JobRecord>): (entries: seq<Line>)
    ensures |entries| == (if |jobs| < ListedMax then |jobs| else ListedMax)
    ensures forall k :: 0 <= k < |entries| ==> entries[k] == EntryAsWritten(k + 1, jobs[k])
  {
    var shown := if |jobs| < ListedMax then |jobs| else ListedMax;
    seq(shown, k requires 0 <= k < shown => EntryAsWritten(k + 1, jobs[k]))
  }

  /** The entries with the score line emitted: the same listing, each entry showing its displayed score. */
  function CorrectedListing(jobs: seq<JobRecord>): (entries: seq<Line>)
    ensures |entries| == |Listing(jobs)|
    ensures forall k :: 0 <= k < |entries| ==> entries[k] == Entry(k + 1, jobs[k])
  {
    var shown := if |jobs| < ListedMax then |jobs| else ListedMax;
    seq(shown, k requires 0 <= k < shown => Entry(k + 1, jobs[k]))
  }

  /** The listing as written is the corrected one with every score line dropped, and nothing else changed. */
  lemma ListingLosesOnlyScores(jobs: seq<JobRecord>)
    ensures |Listing(jobs)| == |CorrectedListing(jobs)|
    ensures forall k :: 0 <= k < |Listing(jobs)| ==>
              Listing(jobs)[k] == CorrectedListing(jobs)[k].(score := None) && CorrectedListing(jobs)[k].score.Some?
  {
    forall k | 0 <= k < |Listing(jobs)|
      ensures CorrectedListing(jobs)[k].JobEntry? && Listing(jobs)[k] == CorrectedListing(jobs)[k].(score := None)
    {
      assert CorrectedListing(jobs)[k] == Entry(k + 1, jobs[k]);
      EntryFollowsTemplate(k + 1, jobs[k]);
    }
  }

  /** The listing loop over `similar_jobs[:15]`. */
  method ListJobs(jobs: seq<JobRecord>) returns (entries: seq<Line>)
    ensures entries == Listing(jobs)
  {
    var shown := if |jobs| < ListedMax then |jobs| else ListedMax;
    entries := [];
    for i := 0 to shown
      invariant |entries| == i
      invariant forall k :: 0 <= k < i ==> entries[k] == EntryAsWritten(k + 1, jobs[k])
    {
      entries := entries + [EntryAsWritten(i + 1, jobs[i])];
    }
  }

  /**
   * `display_results`: for an empty list only the warning and the hint; else
   * the count, threshold and banner, the first 15 jobs in list order, the
   * closing count, and, when the first job has a persona key, the persona
   * counts by descending count.  `order` is the sorted distribution.
   */
  method DisplayResults(jobs: seq<JobRecord>, threshold: real)
    returns (log: seq<Line>, ghost order: seq<Ranked<(Value, nat)>>)
    ensures jobs == [] ==> log == [Warning(threshold), Hint]
    ensures jobs != [] && !ShowsDistribution(jobs) ==>
            log == [Found(|jobs|), ThresholdShown(threshold), Banner] + Listing(jobs) + [Completed(|jobs|)]
    ensures jobs != [] && ShowsDistribution(jobs) ==>
            Distribution(order, Tally(jobs))
            && log == [Found(|jobs|), ThresholdShown(threshold), Banner] + Listing(jobs) + [Completed(|jobs|)]
                      + [DistributionHeading] + CountLines(Items(order))
  {
    order := [];
    if jobs == [] {
      return [Warning(threshold), Hint], order;
    }
    var entries := ListJobs(jobs);
    log := [Found(|jobs|), ThresholdShown(threshold), Banner] + entries + [Completed(|jobs|)];
    if ShowsDistribution(jobs) {
      var counts := TallyPersonas(jobs);
      var distribution;
      distribution, order := SortDistribution(counts);
      log := log + [DistributionHeading] + CountLines(distribution);
    }
  }
}

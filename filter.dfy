/**
 * The legacy junior-level filter (prioritised blacklists), the scoring pass
 * that annotates every job and ranks the admitted ones, and the comparison
 * of the two approaches by title.
 */
module Filter {
  import opened Wrappers
  import opened Text
  import opened Scoring
  import opened Jobs
  import opened Ranking

  const TitleBlacklist: seq<string> := [
    "senior", "sr.", "sr ", "lead", "principal", "manager", "direktör", "müdür",
    "chief", "head", "supervisor", "team lead", "tech lead", "kıdemli", "başkan",
    "architect", "baş ", "lider", "leader"]

  const ExperienceBlacklist: seq<string> := [
    "5+ yıl", "5 yıl", "5+ years", "5 years", "6+ yıl", "7+ yıl", "8+ yıl", "10+ yıl",
    "en az 5 yıl", "minimum 5 years", "minimum 6", "en az 6", "minimum 7", "en az 7"]

  const ResponsibilityBlacklist: seq<string> := [
    "takım yönetimi", "team management", "personel yönetimi", "bütçe yönetimi",
    "budget responsibility", "işe alım", "hiring", "direct reports",
    "performans değerlendirme", "team building"]

  const OutOfScopeBlacklist: seq<string> := [
    "avukat", "hukuk", "legal", "asistan", "assistant", "e-ticaret", "e-commerce",
    "insan kaynakları", "human resources", "pazarlama", "marketing", "satış", "sales",
    "grafik", "graphic", "tasarım", "design", "muhasebe", "accounting", "finans uzmanı",
    "customer service", "müşteri hizmetleri", "çağrı merkezi", "güvenlik", "security guard",
    "temizlik", "cleaning", "çevre", "üretim operatör", "fabrika", "manufacturing operator"]

  /** The outcome of `_check_job_filters`. */
  datatype Verdict = TitleRejected | ExperienceRejected | ResponsibilityRejected | OutOfScope | Passed

  /** `any(word in text for word in words)`: plain substring containment, no word boundary. */
  predicate AnyIn(words: seq<string>, text: string)
  {
    exists k | 0 <= k < |words| :: Contains(text, words[k])
  }

  /**
   * `_check_job_filters`: the first blacklist that hits decides, in the order
   * title (on the title), experience and responsibility (on the description),
   * out of scope (on the title); both texts are lower-cased first.
   */
  function CheckJobFilters(title: string, description: string): (v: Verdict)
    ensures var t, d := Lower(title), Lower(description);
      && (v == TitleRejected <==> AnyIn(TitleBlacklist, t))
      && (v == ExperienceRejected <==> !AnyIn(TitleBlacklist, t) && AnyIn(ExperienceBlacklist, d))
      && (v == ResponsibilityRejected <==>
            !AnyIn(TitleBlacklist, t) && !AnyIn(ExperienceBlacklist, d) && AnyIn(ResponsibilityBlacklist, d))
      && (v == OutOfScope <==>
            !AnyIn(TitleBlacklist, t) && !AnyIn(ExperienceBlacklist, d)
            && !AnyIn(ResponsibilityBlacklist, d) && AnyIn(OutOfScopeBlacklist, t))
  {
    var t := Lower(title);
    var d := Lower(description);
    if AnyIn(TitleBlacklist, t) then TitleRejected
    else if AnyIn(ExperienceBlacklist, d) then ExperienceRejected
    else if AnyIn(ResponsibilityBlacklist, d) then ResponsibilityRejected
    else if AnyIn(OutOfScopeBlacklist, t) then OutOfScope
    else Passed
  }

  /** A word holding a character the text lacks does not occur in it. */
  lemma AbsentCharRulesOut(text: string, w: string, c: char)
    requires c in w && c !in text
    ensures !Contains(text, w)
  {
    var i :| 0 <= i < |w| && w[i] == c;
    forall p | 0 <= p <= |text| - |w|
      ensures !OccursAt(text, w, p)
    {
      assert text[p + i] != c;
      assert text[p..p + |w|][i] != w[i];
    }
  }

  lemma LiderAbsent()
    ensures !Contains("junior developer", "lider")
  {
    var j := "junior developer";
    forall p | 0 <= p <= |j| - 5
      ensures !OccursAt(j, "lider", p)
    {
      assert j[p..p + 5][0] == j[p];
      assert j[p..p + 5][1] == j[p + 1];
    }
  }

  lemma JuniorTitleCleanA()
    ensures forall k | 0 <= k < 9 :: !Contains("junior developer", TitleBlacklist[k])
  {
    forall k | 0 <= k < 9
      ensures !Contains("junior developer", TitleBlacklist[k])
    {
      AbsentCharRulesOut("junior developer", TitleBlacklist[k], TitleMissing[k]);
    }
  }

  lemma JuniorTitleCleanB()
    ensures forall k | 9 <= k < 19 :: !Contains("junior developer", TitleBlacklist[k])
  {
    LiderAbsent();
    forall k | 9 <= k < 19
      ensures !Contains("junior developer", TitleBlacklist[k])
    {
      if k != 17 {
        AbsentCharRulesOut("junior developer", TitleBlacklist[k], TitleMissing[k]);
      }
    }
  }

  /** For each title word, a character "junior developer" lacks ("lider" has none). */
  const TitleMissing := "sssacmkmchsttkbab-a"

  lemma JuniorTitleClean()
    ensures !AnyIn(TitleBlacklist, "junior developer")
  {
    JuniorTitleCleanA();
    JuniorTitleCleanB();
  }

  /** For each out-of-scope word, a character "junior developer" lacks. */
  const ScopeMissing := "ahgaa--shamssggtsmafcmçgstcçüfm"

  lemma JuniorInScopeA()
    ensures forall k | 0 <= k < 8 :: !Contains("junior developer", OutOfScopeBlacklist[k])
  {
    forall k | 0 <= k < 8
      ensures !Contains("junior developer", OutOfScopeBlacklist[k])
    {
      AbsentCharRulesOut("junior developer", OutOfScopeBlacklist[k], ScopeMissing[k]);
    }
  }

  lemma JuniorInScopeB()
    ensures forall k | 8 <= k < 16 :: !Contains("junior developer", OutOfScopeBlacklist[k])
  {
    forall k | 8 <= k < 16
      ensures !Contains("junior developer", OutOfScopeBlacklist[k])
    {
      AbsentCharRulesOut("junior developer", OutOfScopeBlacklist[k], ScopeMissing[k]);
    }
  }

  lemma JuniorInScopeC()
    ensures forall k | 16 <= k < 24 :: !Contains("junior developer", OutOfScopeBlacklist[k])
  {
    forall k | 16 <= k < 24
      ensures !Contains("junior developer", OutOfScopeBlacklist[k])
    {
      AbsentCharRulesOut("junior developer", OutOfScopeBlacklist[k], ScopeMissing[k]);
    }
  }

  lemma JuniorInScopeD()
    ensures forall k | 24 <= k < 31 :: !Contains("junior developer", OutOfScopeBlacklist[k])
  {
    forall k | 24 <= k < 31
      ensures !Contains("junior developer", OutOfScopeBlacklist[k])
    {
      AbsentCharRulesOut("junior developer", OutOfScopeBlacklist[k], ScopeMissing[k]);
    }
  }

  lemma JuniorInScope()
    ensures !AnyIn(OutOfScopeBlacklist, "junior developer")
  {
    JuniorInScopeA();
    JuniorInScopeB();
    JuniorInScopeC();
    JuniorInScopeD();
  }

  lemma NoYearsDescriptionClean()
    ensures !AnyIn(ExperienceBlacklist, "0 yıl")
    ensures !AnyIn(ResponsibilityBlacklist, "0 yıl")
  {
    forall k | 0 <= k < |ExperienceBlacklist|
      ensures !Contains("0 yıl", ExperienceBlacklist[k])
    {
      AbsentCharRulesOut("0 yıl", ExperienceBlacklist[k], "55556781emmeme"[k]);
    }
    forall k | 0 <= k < |ResponsibilityBlacklist|
      ensures !Contains("0 yıl", ResponsibilityBlacklist[k])
    {
      AbsentCharRulesOut("0 yıl", ResponsibilityBlacklist[k], "ttpbbihdpt"[k]);
    }
  }

  /** A senior title asking for five years is dropped; a junior one asking for none is kept. */
  lemma SeniorDroppedJuniorKept()
    ensures CheckJobFilters("Senior Developer", "5+ yıl deneyim, takım yönetimi") == TitleRejected
    ensures CheckJobFilters("Junior Developer", "0 yıl") == Passed
  {
    assert Lower("Senior Developer") == "senior developer";
    assert OccursAt("senior developer", TitleBlacklist[0], 0);
    assert Lower("Junior Developer") == "junior developer";
    assert Lower("0 yıl") == "0 yıl";
    JuniorTitleClean();
    JuniorInScope();
    NoYearsDescriptionClean();
  }

  /** The counters `filter_junior_suitable_jobs` logs. */
  datatype FilterStats = FilterStats(title: nat, experience: nat, responsibility: nat, outOfScope: nat, passed: nat)
  {
    function Total(): nat
    {
      title + experience + responsibility + outOfScope + passed
    }

    function Bump(v: Verdict): FilterStats
    {
      match v
      case TitleRejected => this.(title := title + 1)
      case ExperienceRejected => this.(experience := experience + 1)
      case ResponsibilityRejected => this.(responsibility := responsibility + 1)
      case OutOfScope => this.(outOfScope := outOfScope + 1)
      case Passed => this.(passed := passed + 1)
    }
  }

  /** The verdict for one job. */
  ghost function VerdictOf(job: Job): Verdict
  {
    CheckJobFilters(job.title, job.description)
  }

  /** The first `n` jobs that pass, in input order. */
  ghost function Passing(jobs: seq<Job>, n: nat): (r: seq<Job>)
    requires n <= |jobs|
    ensures |r| <= n
  {
    if n == 0 then []
    else Passing(jobs, n - 1) + (if VerdictOf(jobs[n - 1]) == Passed then [jobs[n - 1]] else [])
  }

  /** How many of the first `n` jobs get verdict `v`. */
  ghost function CountVerdict(jobs: seq<Job>, n: nat, v: Verdict): nat
    requires n <= |jobs|
  {
    if n == 0 then 0
    else CountVerdict(jobs, n - 1, v) + (if VerdictOf(jobs[n - 1]) == v then 1 else 0)
  }

  /** Every job counted once: the five counters add up to the number of jobs. */
  lemma {:induction false} CountsAddUp(jobs: seq<Job>, n: nat)
    requires n <= |jobs|
    ensures CountVerdict(jobs, n, TitleRejected) + CountVerdict(jobs, n, ExperienceRejected)
      + CountVerdict(jobs, n, ResponsibilityRejected) + CountVerdict(jobs, n, OutOfScope)
      + CountVerdict(jobs, n, Passed) == n
  {
    if n > 0 {
      CountsAddUp(jobs, n - 1);
    }
  }

  /** The jobs kept are exactly the jobs that pass, and there are as many as passes counted. */
  lemma {:induction false} PassingMembers(jobs: seq<Job>, n: nat, j: Job)
    requires n <= |jobs|
    ensures j in Passing(jobs, n) <==> exists k | 0 <= k < n :: jobs[k] == j && VerdictOf(j) == Passed
    ensures |Passing(jobs, n)| == CountVerdict(jobs, n, Passed)
  {
    if n > 0 {
      PassingMembers(jobs, n - 1, j);
    }
  }

  /** The counters after the first `n` jobs. */
  ghost function Tally(jobs: seq<Job>, n: nat): FilterStats
    requires n <= |jobs|
  {
    if n == 0 then FilterStats(0, 0, 0, 0, 0) else Tally(jobs, n - 1).Bump(VerdictOf(jobs[n - 1]))
  }

  /** Each counter counts its own verdict. */
  lemma {:induction false} TallyCounts(jobs: seq<Job>, n: nat)
    requires n <= |jobs|
    ensures Tally(jobs, n) == FilterStats(CountVerdict(jobs, n, TitleRejected), CountVerdict(jobs, n, ExperienceRejected),
                                          CountVerdict(jobs, n, ResponsibilityRejected), CountVerdict(jobs, n, OutOfScope),
                                          CountVerdict(jobs, n, Passed))
  {
    if n > 0 {
      TallyCounts(jobs, n - 1);
    }
  }

  /**
   * `filter_junior_suitable_jobs`: keeps the jobs that pass, in order, and
   * counts every verdict; an empty list gives an empty result.
   */
  method FilterJuniorSuitable(jobs: seq<Job>) returns (filtered: seq<Job>, stats: FilterStats)
    ensures filtered == Passing(jobs, |jobs|)
    ensures stats.title == CountVerdict(jobs, |jobs|, TitleRejected)
    ensures stats.experience == CountVerdict(jobs, |jobs|, ExperienceRejected)
    ensures stats.responsibility == CountVerdict(jobs, |jobs|, ResponsibilityRejected)
    ensures stats.outOfScope == CountVerdict(jobs, |jobs|, OutOfScope)
    ensures stats.passed == CountVerdict(jobs, |jobs|, Passed) == |filtered|
    ensures stats.Total() == |jobs|
    ensures jobs == [] ==> filtered == []
  {
    stats := FilterStats(0, 0, 0, 0, 0);
    if |jobs| == 0 {
      return [], stats;
    }
    filtered := [];
    var i := 0;
    while i < |jobs|
      invariant 0 <= i <= |jobs|
      invariant filtered == Passing(jobs, i)
      invariant stats == Tally(jobs, i)
    {
      var verdict := CheckJobFilters(jobs[i].title, jobs[i].description);
      if verdict == Passed {
        filtered := filtered + [jobs[i]];
      }
      stats := stats.Bump(verdict);
      i := i + 1;
    }
    TallyCounts(jobs, |jobs|);
    CountsAddUp(jobs, |jobs|);
    PassingMembers(jobs, |jobs|, jobs[0]);
  }
}

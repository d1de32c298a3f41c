/**
 * Collecting listings for one search term from several job sites: one
 * scrape per site, tagging, merging and a key-based deduplication.
 */
module DataCollector {
  import opened Wrappers
  import opened Text
  import opened Frames

  const DefaultLocation := "Turkey"
  const DefaultMaxResultsPerSite := 50
  const DefaultSites: seq<string> := ["indeed", "linkedin"]
  const DefaultHoursOld := 72

  /** The keyword arguments passed to the scraper for one site. */
  datatype ScrapeParams = ScrapeParams(
    siteName: string,
    searchTerm: string,
    location: string,
    resultsWanted: int,
    hoursOld: int,
    countryIndeed: Option<string>,
    linkedinFetchDescription: Option<bool>)

  /** The scrape parameters: common to every site, plus one site-specific setting for Indeed or LinkedIn. */
  function ParamsFor(site: string, searchTerm: string, location: string, resultsWanted: int, hoursOld: int): (p: ScrapeParams)
    ensures p.siteName == site && p.searchTerm == searchTerm && p.location == location
    ensures p.resultsWanted == resultsWanted && p.hoursOld == hoursOld
    ensures p.countryIndeed.Some? <==> site == "indeed"
    ensures p.countryIndeed.Some? ==> p.countryIndeed.value == "Turkey"
    ensures p.linkedinFetchDescription.Some? <==> site == "linkedin"
    ensures p.linkedinFetchDescription.Some? ==> p.linkedinFetchDescription.value
  {
    ScrapeParams(site, searchTerm, location, resultsWanted, hoursOld,
      if site == "indeed" then Some("Turkey") else None,
      if site == "linkedin" then Some(true) else None)
  }

  /** What the scraper did for one site: returned a frame, returned `None`, or raised. */
  datatype ScrapeOutcome = Scraped(frame: Frame) | NothingReturned | ScrapeRaised

  /** `frame["source_site"] = site`: every row is tagged, nothing else changes. */
  function TagSource(f: Frame, site: string): (r: Frame)
    ensures r.hasLocation == f.hasLocation && r.hasDescription == f.hasDescription
    ensures |r.rows| == |f.rows|
    ensures forall i :: 0 <= i < |f.rows| ==> r.rows[i] == f.rows[i].(sourceSite := Some(site))
  {
    Frame(f.hasLocation, f.hasDescription,
      seq(|f.rows|, i requires 0 <= i < |f.rows| => f.rows[i].(sourceSite := Some(site))))
  }

  /** The scraper returned a non-empty frame. */
  predicate SiteContributes(outcome: ScrapeOutcome)
  {
    outcome.Scraped? && |outcome.frame.rows| > 0
  }

  /** `scrape_single`: a non-empty frame, tagged with its site; otherwise nothing. */
  function ScrapeSingle(site: string, outcome: ScrapeOutcome): (r: Option<Frame>)
    ensures r.Some? <==> SiteContributes(outcome)
    ensures r.Some? ==> r.value == TagSource(outcome.frame, site)
  {
    if outcome.Scraped? && |outcome.frame.rows| > 0 then Some(TagSource(outcome.frame, site)) else None
  }

  /** The frames contributed by the first `n` sites to complete, in completion order. */
  function Contributed(sites: seq<string>, completion: seq<nat>, outcomes: seq<ScrapeOutcome>, n: nat): seq<Frame>
    requires n <= |completion| && |outcomes| == |sites|
    requires forall k :: 0 <= k < |completion| ==> completion[k] < |sites|
  {
    if n == 0 then []
    else
      var i := completion[n - 1];
      var single := ScrapeSingle(sites[i], outcomes[i]);
      Contributed(sites, completion, outcomes, n - 1) + (if single.Some? then [single.value] else [])
  }

  /** Every contributed frame is the non-empty, tagged result of some site. */
  lemma {:induction false} ContributedFrames(sites: seq<string>, completion: seq<nat>, outcomes: seq<ScrapeOutcome>, n: nat, k: int)
    requires n <= |completion| && |outcomes| == |sites|
    requires forall k :: 0 <= k < |completion| ==> completion[k] < |sites|
    requires 0 <= k < |Contributed(sites, completion, outcomes, n)|
    ensures exists i :: 0 <= i < |sites| && SiteContributes(outcomes[i]) &&
                        Contributed(sites, completion, outcomes, n)[k] == TagSource(outcomes[i].frame, sites[i])
  {
    var prev := Contributed(sites, completion, outcomes, n - 1);
    if k < |prev| {
      ContributedFrames(sites, completion, outcomes, n - 1, k);
      assert Contributed(sites, completion, outcomes, n)[k] == prev[k];
    }
  }

  /** No contribution at all exactly when every site failed, returned nothing, or returned an empty frame. */
  lemma {:induction false} NothingContributed(sites: seq<string>, completion: seq<nat>, outcomes: seq<ScrapeOutcome>, n: nat)
    requires n <= |completion| && |outcomes| == |sites|
    requires forall k :: 0 <= k < |completion| ==> completion[k] < |sites|
    ensures |Contributed(sites, completion, outcomes, n)| == 0 <==>
      forall k :: 0 <= k < n ==> !SiteContributes(outcomes[completion[k]])
  {
    if n > 0 {
      NothingContributed(sites, completion, outcomes, n - 1);
    }
  }

  /**
   * A site that raises, returns `None` or returns an empty frame contributes
   * nothing and does not affect the other sites: the three outcomes are interchangeable.
   */
  lemma {:induction false} FailuresInterchangeable(sites: seq<string>, completion: seq<nat>, outcomes: seq<ScrapeOutcome>,
                                                   n: nat, i: int, other: ScrapeOutcome)
    requires n <= |completion| && |outcomes| == |sites|
    requires forall k :: 0 <= k < |completion| ==> completion[k] < |sites|
    requires 0 <= i < |sites| && !SiteContributes(outcomes[i]) && !SiteContributes(other)
    ensures Contributed(sites, completion, outcomes, n) == Contributed(sites, completion, outcomes[i := other], n)
  {
    if n > 0 {
      FailuresInterchangeable(sites, completion, outcomes, n - 1, i, other);
    }
  }

  /** `combined_df["collected_at"] = now`. */
  function Stamp(rows: seq<Row>, now: string): (r: seq<Row>)
    ensures |r| == |rows| && forall i :: 0 <= i < |rows| ==> r[i] == rows[i].(collectedAt := Some(now))
  {
    seq(|rows|, i requires 0 <= i < |rows| => rows[i].(collectedAt := Some(now)))
  }

  /**
   * The deduplication subset: title, company, location and, when the frame
   * has descriptions, their first 100 characters (a missing description
   * stays missing).
   */
  function CollectorKey(hasDescription: bool, row: Row): RowKey
  {
    RowKey(row.title, row.company, row.location,
      if hasDescription && row.description.Some? then Some(Prefix(row.description.value, 100)) else None)
  }

  /** The merged, stamped and deduplicated frame, or a `KeyError` when no frame has a location column. */
  function Merged(frames: seq<Frame>, now: string): Result<Option<Frame>, Exception>
  {
    if |frames| == 0 then Success(None)
    else
      var combined := Concat(frames);
      if !combined.hasLocation then Failure(KeyError)
      else Success(Some(Frame(true, combined.hasDescription,
        Deduplicated(Stamp(combined.rows, now), row => CollectorKey(combined.hasDescription, row)))))
  }

  /**
   * `collect_job_data`.  The scraper's answer for each site is an input, and
   * so is the order in which the per-site futures complete.  An empty site
   * list raises `ValueError`, because the thread pool is sized by it.
   */
  method CollectJobData(searchTerm: string, location: string, maxResultsPerSite: int, sites: seq<string>,
                        hoursOld: int, scrape: ScrapeParams -> ScrapeOutcome, completion: seq<nat>, now: string)
    returns (r: Result<Option<Frame>, Exception>)
    requires |completion| == |sites|
    requires forall k :: 0 <= k < |completion| ==> completion[k] < |sites|
    requires forall a, b :: 0 <= a < b < |completion| ==> completion[a] != completion[b]
    ensures |sites| == 0 ==> r == Failure(ValueError)
    ensures |sites| > 0 ==>
      var outcomes := seq(|sites|, i requires 0 <= i < |sites| =>
        scrape(ParamsFor(sites[i], searchTerm, location, maxResultsPerSite, hoursOld)));
      r == Merged(Contributed(sites, completion, outcomes, |sites|), now)
  {
    // a pool of zero workers is refused
    if |sites| == 0 {
      return Failure(ValueError);
    }
    ghost var outcomes := seq(|sites|, i requires 0 <= i < |sites| =>
      scrape(ParamsFor(sites[i], searchTerm, location, maxResultsPerSite, hoursOld)));
    var frames: seq<Frame> := [];
    for n := 0 to |completion|
      invariant frames == Contributed(sites, completion, outcomes, n)
    {
      var site := sites[completion[n]];
      var result := ScrapeSingle(site, scrape(ParamsFor(site, searchTerm, location, maxResultsPerSite, hoursOld)));
      if result.Some? {
        frames := frames + [result.value];
      }
    }
    if |frames| == 0 {
      return Success(None);
    }
    var combined := Concat(frames);
    var stamped := Stamp(combined.rows, now);
    if !combined.hasLocation {
      return Failure(KeyError);
    }
    var kept := DropDuplicates(stamped, row => CollectorKey(combined.hasDescription, row));
    r := Success(Some(Frame(true, combined.hasDescription, kept)));
  }

  /**
   * What the merge promises: deduplicated rows have pairwise different keys,
   * every key of the combined rows survives, and the count never grows.
   */
  lemma MergedFacts(frames: seq<Frame>, now: string)
    requires Merged(frames, now).Success? && Merged(frames, now).value.Some?
    ensures var combined := Concat(frames);
      var kept := Merged(frames, now).value.value.rows;
      var key := (row: Row) => CollectorKey(combined.hasDescription, row);
      |kept| <= |combined.rows|
      && (forall a, b :: 0 <= a < b < |kept| ==> key(kept[a]) != key(kept[b]))
      && (forall i :: 0 <= i < |combined.rows| ==> exists j :: 0 <= j < |kept| && key(kept[j]) == key(Stamp(combined.rows, now)[i]))
  {
    var combined := Concat(frames);
    var stamped := Stamp(combined.rows, now);
    var key := (row: Row) => CollectorKey(combined.hasDescription, row);
    var kept := Merged(frames, now).value.value.rows;
    assert kept == Deduplicated(stamped, key);
    forall a, b | 0 <= a < b < |kept|
      ensures key(kept[a]) != key(kept[b])
    {
      DeduplicatedDistinct(stamped, key, a, b);
    }
    forall i | 0 <= i < |combined.rows|
      ensures exists j :: 0 <= j < |kept| && key(kept[j]) == key(stamped[i])
    {
      DeduplicatedComplete(stamped, key, i);
    }
  }
}

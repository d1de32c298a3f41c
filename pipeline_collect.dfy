/**
 * Collection across personas in `src/pipeline.py`: which personas a run
 * searches (`collect_data_for_all_personas`), what one persona contributes
 * (`_collect_jobs_for_persona`), and the merge that keeps the first of the
 * rows sharing a composite key (`_deduplicate_and_save_jobs`).
 *
 * `collect_job_data` is an input here: given a search term, a result count
 * and an age limit it answers with a frame, nothing, or an exception.
 */
module PipelineCollect {
  import opened Wrappers
  import opened Text
  import opened Dicts
  import opened Frames
  import opened PersonaBuilder
  import opened Context

  /** The answer of `collect_job_data(term, max_results, hours_old)` for the run's sites and location. */
  type Collector = (string, int, int) -> Result<Option<Frame>, Exception>

  // ---------------------------------------------------------------------
  // Persona selection.
  // ---------------------------------------------------------------------

  /** The names among `names` that are in `known`, in the order of `names`. */
  function KnownNames(names: seq<string>, known: seq<string>): (r: seq<string>)
    ensures |r| <= |names|
    ensures forall x :: x in r <==> x in names && x in known
  {
    if |names| == 0 then []
    else
      var last := names[|names| - 1];
      var init := names[..|names| - 1];
      assert names == init + [last];
      KnownNames(init, known) + (if last in known then [last] else [])
  }

  /** `[(p, cfg[p]) for p in names if p in cfg]`. */
  function Selected(cfg: seq<(string, PersonaSearch)>, names: seq<string>): (r: seq<(string, PersonaSearch)>)
    ensures Keys(r) == KnownNames(names, Keys(cfg))
    ensures forall k :: 0 <= k < |r| ==> Lookup(cfg, r[k].0) == Some(r[k].1)
  {
    if |names| == 0 then []
    else
      var last := names[|names| - 1];
      var init := names[..|names| - 1];
      LookupPresent(cfg, last);
      var tail := match Lookup(cfg, last)
        case None => []
        case Some(p) => [(last, p)];
      var r := Selected(cfg, init) + tail;
      assert Keys(r) == Keys(Selected(cfg, init)) + Keys(tail);
      r
  }

  /**
   * The personas a run searches: the context's personas, or the static
   * ones when it has none; restricted to the command-line names when some
   * are given.
   */
  function SelectPersonas(personasConfig: seq<(string, PersonaSearch)>, staticPersonas: seq<(string, PersonaSearch)>,
                          cliNames: seq<string>): (r: seq<(string, PersonaSearch)>)
    ensures |cliNames| == 0 ==> r == (if |personasConfig| > 0 then personasConfig else staticPersonas)
    ensures |cliNames| > 0 ==>
            var cfg := if |personasConfig| > 0 then personasConfig else staticPersonas;
            Keys(r) == KnownNames(cliNames, Keys(cfg))
            && forall k :: 0 <= k < |r| ==> Lookup(cfg, r[k].0) == Some(r[k].1)
  {
    var cfg := if |personasConfig| > 0 then personasConfig else staticPersonas;
    if |cliNames| > 0 then Selected(cfg, cliNames) else cfg
  }

  // ---------------------------------------------------------------------
  // One persona.
  // ---------------------------------------------------------------------

  /** Every row tagged with the persona it was found for and the term used. */
  function TagPersona(f: Frame, name: string, term: string): (r: Frame)
    ensures r.hasLocation == f.hasLocation && r.hasDescription == f.hasDescription && |r.rows| == |f.rows|
    ensures forall k :: 0 <= k < |r.rows| ==>
              r.rows[k].personaSource == Some(name) && r.rows[k].searchTermUsed == Some(term)
              && r.rows[k].(personaSource := f.rows[k].personaSource, searchTermUsed := f.rows[k].searchTermUsed)
                 == f.rows[k]
  {
    f.(rows := seq(|f.rows|, k requires 0 <= k < |f.rows| =>
      f.rows[k].(personaSource := Some(name), searchTermUsed := Some(term))))
  }

  /** The exceptions `_collect_jobs_for_persona` logs and turns into "nothing found". */
  predicate Handled(e: Exception)
  {
    e == ValueError || e == TypeError || e == KeyError
  }

  /**
   * `_collect_jobs_for_persona`: the tagged frame when the collector found
   * rows, nothing when it found none or raised a handled exception; any
   * other exception propagates.
   */
  function CollectForPersona(name: string, persona: PersonaSearch, cliResults: Option<int>, collect: Collector)
    : (r: Result<Option<Frame>, Exception>)
    ensures var outcome := collect(persona.term, cliResults.GetOr(persona.results), persona.hoursOld);
            (r.Failure? <==> outcome.Failure? && !Handled(outcome.error))
            && (r.Failure? ==> r == outcome)
            && (r.Success? && r.value.Some? <==> outcome.Success? && outcome.value.Some? && |outcome.value.value.rows| > 0)
            && (r.Success? && r.value.Some? ==> r.value.value == TagPersona(outcome.value.value, name, persona.term))
  {
    var maxResults := if cliResults.Some? then cliResults.value else persona.results;
    match collect(persona.term, maxResults, persona.hoursOld)
    case Failure(e) => if Handled(e) then Success(None) else Failure(e)
    case Success(found) =>
      if found.Some? && |found.value.rows| > 0 then Success(Some(TagPersona(found.value, name, persona.term)))
      else Success(None)
  }

  /** The frames the first `n` personas contribute, in persona order, or the first unhandled exception. */
  function CollectedBatches(personas: seq<(string, PersonaSearch)>, cliResults: Option<int>, collect: Collector, n: nat)
    : (r: Result<seq<Frame>, Exception>)
    requires n <= |personas|
    ensures r.Failure? ==> !Handled(r.error)
    ensures r.Success? ==> |r.value| <= n
  {
    if n == 0 then Success([])
    else
      match CollectedBatches(personas, cliResults, collect, n - 1)
      case Failure(e) => Failure(e)
      case Success(batches) =>
        match CollectForPersona(personas[n - 1].0, personas[n - 1].1, cliResults, collect)
        case Failure(e) => Failure(e)
        case Success(found) => Success(if found.Some? then batches + [found.value] else batches)
  }

  lemma {:induction false} CollectedBatchesStayFailed(personas: seq<(string, PersonaSearch)>, cliResults: Option<int>,
                                                      collect: Collector, n: nat, m: nat)
    requires n <= m <= |personas|
    requires CollectedBatches(personas, cliResults, collect, n).Failure?
    ensures CollectedBatches(personas, cliResults, collect, m) == CollectedBatches(personas, cliResults, collect, n)
    decreases m
  {
    if m > n {
      CollectedBatchesStayFailed(personas, cliResults, collect, n, m - 1);
    }
  }

  /** Every collected frame has rows: a persona that found nothing contributes nothing. */
  lemma {:induction false} CollectedBatchesNonEmpty(personas: seq<(string, PersonaSearch)>, cliResults: Option<int>,
                                                    collect: Collector, n: nat)
    requires n <= |personas|
    requires CollectedBatches(personas, cliResults, collect, n).Success?
    ensures var batches := CollectedBatches(personas, cliResults, collect, n).value;
            |batches| <= n && forall k :: 0 <= k < |batches| ==> |batches[k].rows| > 0
  {
    if n > 0 {
      CollectedBatchesNonEmpty(personas, cliResults, collect, n - 1);
    }
  }

  // ---------------------------------------------------------------------
  // Merge and deduplication.
  // ---------------------------------------------------------------------

  /** `str(value)` of a description cell; a missing value prints as `nan`. */
  function CellText(v: Option<string>): string
  {
    if v.Some? then v.value else "nan"
  }

  /**
   * The key `_deduplicate_and_save_jobs` compares: title and company, the
   * location when the column exists, and the first 100 characters of the
   * printed description when that column exists.
   */
  function PipelineKey(hasLocation: bool, hasDescription: bool, row: Row): (k: RowKey)
    ensures k.title == row.title && k.company == row.company
    ensures k.location.Some? ==> hasLocation && k.location == row.location
    ensures k.description.Some? <==> hasDescription
    ensures hasDescription ==> |k.description.value| <= 100 && k.description.value <= CellText(row.description)
    ensures hasDescription && |CellText(row.description)| >= 100 ==> |k.description.value| == 100
  {
    RowKey(row.title, row.company,
      if hasLocation then row.location else None,
      if hasDescription then Some(Prefix(CellText(row.description), 100)) else None)
  }

  /** The frames among the first `n` that have rows, in order. */
  function NonEmptyFrames(frames: seq<Frame>, n: nat): (r: seq<Frame>)
    requires n <= |frames|
    ensures |r| <= n
  {
    if n == 0 then []
    else NonEmptyFrames(frames, n - 1) + (if |frames[n - 1].rows| > 0 then [frames[n - 1]] else [])
  }

  /** Exactly the frames with rows are kept. */
  lemma {:induction false} NonEmptyFramesMembers(frames: seq<Frame>, n: nat, f: Frame)
    requires n <= |frames|
    ensures f in NonEmptyFrames(frames, n) <==> f in frames[..n] && |f.rows| > 0
  {
    if n > 0 {
      NonEmptyFramesMembers(frames, n - 1, f);
      assert frames[..n] == frames[..n - 1] + [frames[n - 1]];
    }
  }

  /** The frame that is saved: the non-empty batches concatenated and deduplicated, or nothing. */
  function MergedBatches(batches: seq<Frame>): Option<Frame>
  {
    var nonEmpty := NonEmptyFrames(batches, |batches|);
    if |nonEmpty| == 0 then None
    else
      var combined := Concat(nonEmpty);
      Some(combined.(rows := Deduplicated(combined.rows,
        row => PipelineKey(combined.hasLocation, combined.hasDescription, row))))
  }

  /** Nothing is saved exactly when every batch is empty. */
  lemma MergedBatchesNone(batches: seq<Frame>)
    ensures MergedBatches(batches).None? <==> forall k :: 0 <= k < |batches| ==> |batches[k].rows| == 0
  {
    var nonEmpty := NonEmptyFrames(batches, |batches|);
    assert batches[..|batches|] == batches;
    if |nonEmpty| == 0 {
      forall k | 0 <= k < |batches|
        ensures |batches[k].rows| == 0
      {
        NonEmptyFramesMembers(batches, |batches|, batches[k]);
      }
    } else {
      NonEmptyFramesMembers(batches, |batches|, nonEmpty[0]);
      var k :| 0 <= k < |batches| && batches[k] == nonEmpty[0];
    }
  }

  /**
   * What the merge promises: no two kept rows share a key, every key of the
   * concatenated rows survives, and the count never grows.
   */
  lemma MergedBatchesFacts(batches: seq<Frame>)
    requires MergedBatches(batches).Some?
    ensures var combined := Concat(NonEmptyFrames(batches, |batches|));
            var kept := MergedBatches(batches).value.rows;
            var key := (row: Row) => PipelineKey(combined.hasLocation, combined.hasDescription, row);
            |kept| <= |combined.rows|
            && (forall a, b :: 0 <= a < b < |kept| ==> key(kept[a]) != key(kept[b]))
            && (forall i :: 0 <= i < |combined.rows| ==> exists j :: 0 <= j < |kept| && key(kept[j]) == key(combined.rows[i]))
  {
    var combined := Concat(NonEmptyFrames(batches, |batches|));
    var key := (row: Row) => PipelineKey(combined.hasLocation, combined.hasDescription, row);
    var kept := MergedBatches(batches).value.rows;
    assert kept == Deduplicated(combined.rows, key);
    forall a, b | 0 <= a < b < |kept|
      ensures key(kept[a]) != key(kept[b])
    {
      DeduplicatedDistinct(combined.rows, key, a, b);
    }
    forall i | 0 <= i < |combined.rows|
      ensures exists j :: 0 <= j < |kept| && key(kept[j]) == key(combined.rows[i])
    {
      DeduplicatedComplete(combined.rows, key, i);
    }
  }

  /** `_deduplicate_and_save_jobs` without the CSV write: the frame it would save. */
  method DeduplicateJobs(batches: seq<Frame>) returns (r: Option<Frame>)
    ensures r == MergedBatches(batches)
  {
    var nonEmpty: seq<Frame> := [];
    for n := 0 to |batches|
      invariant nonEmpty == NonEmptyFrames(batches, n)
    {
      if |batches[n].rows| > 0 {
        nonEmpty := nonEmpty + [batches[n]];
      }
    }
    if |nonEmpty| == 0 {
      return None;
    }
    var combined := Concat(nonEmpty);
    var kept := DropDuplicates(combined.rows, row => PipelineKey(combined.hasLocation, combined.hasDescription, row));
    r := Some(combined.(rows := kept));
  }

  /** What `collect_data_for_all_personas` produces for a run: the merged frame, or the exception that escaped. */
  function CollectedData(personas: seq<(string, PersonaSearch)>, cliResults: Option<int>, collect: Collector)
    : (r: Result<Option<Frame>, Exception>)
    ensures r.Failure? ==> !Handled(r.error)
  {
    match CollectedBatches(personas, cliResults, collect, |personas|)
    case Failure(e) => Failure(e)
    case Success(batches) => Success(MergedBatches(batches))
  }

  /** `collect_data_for_all_personas`: one collection per selected persona, in order, then the merge. */
  method CollectDataForAllPersonas(ctx: PipelineContext, staticPersonas: seq<(string, PersonaSearch)>,
                                   collect: Collector)
    returns (r: Result<Option<Frame>, Exception>)
    ensures r == CollectedData(SelectPersonas(ctx.personasConfig, staticPersonas, ctx.cliArgs.persona),
                               ctx.cliArgs.results, collect)
  {
    var cfg := if |ctx.personasConfig| > 0 then ctx.personasConfig else staticPersonas;
    var personas := if |ctx.cliArgs.persona| > 0 then Selected(cfg, ctx.cliArgs.persona) else cfg;
    assert personas == SelectPersonas(ctx.personasConfig, staticPersonas, ctx.cliArgs.persona);
    var collected := CollectBatches(personas, ctx.cliArgs.results, collect);
    if collected.Failure? {
      return Failure(collected.error);
    }
    var merged := DeduplicateJobs(collected.value);
    r := Success(merged);
  }

  /** The loop over the personas: each one's frame kept when it has one; the first exception ends the run. */
  method CollectBatches(personas: seq<(string, PersonaSearch)>, cliResults: Option<int>, collect: Collector)
    returns (r: Result<seq<Frame>, Exception>)
    ensures r == CollectedBatches(personas, cliResults, collect, |personas|)
  {
    var batches: seq<Frame> := [];
    for n := 0 to |personas|
      invariant CollectedBatches(personas, cliResults, collect, n) == Success(batches)
    {
      var found := CollectForPersona(personas[n].0, personas[n].1, cliResults, collect);
      if found.Failure? {
        CollectedBatchesStayFailed(personas, cliResults, collect, n + 1, |personas|);
        return Failure(found.error);
      }
      if found.value.Some? {
        batches := batches + [found.value.value];
      }
    }
    r := Success(batches);
  }
}

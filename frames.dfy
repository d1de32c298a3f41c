/**
 * Job frames (pandas DataFrames of scraped listings) as sequences of rows,
 * and `drop_duplicates(subset=..., keep="first")` over a row key.
 */
module Frames {
  import opened Wrappers
  import opened Text

  /**
   * One listing row.  An optional column holds `None` (NaN) in a row that
   * lacks it, as after concatenating frames with different columns.
   */
  datatype Row = Row(
    title: string,
    company: string,
    location: Option<string>,
    description: Option<string>,
    jobUrl: string,
    sourceSite: Option<string>,
    collectedAt: Option<string>,
    personaSource: Option<string>,
    searchTermUsed: Option<string>)

  /** A frame: whether the optional columns exist, and the rows in index order. */
  datatype Frame = Frame(hasLocation: bool, hasDescription: bool, rows: seq<Row>)

  /** A row has no value in a column its frame lacks. */
  predicate WellFormed(f: Frame)
  {
    forall i :: 0 <= i < |f.rows| ==>
      (!f.hasLocation ==> f.rows[i].location.None?) && (!f.hasDescription ==> f.rows[i].description.None?)
  }

  /** `pd.concat(frames, ignore_index=True)`: all rows in order; a column exists if any frame has it. */
  function Concat(frames: seq<Frame>): (r: Frame)
    ensures r.hasLocation <==> exists k :: 0 <= k < |frames| && frames[k].hasLocation
    ensures r.hasDescription <==> exists k :: 0 <= k < |frames| && frames[k].hasDescription
    ensures (forall k :: 0 <= k < |frames| ==> WellFormed(frames[k])) ==> WellFormed(r)
  {
    if |frames| == 0 then Frame(false, false, [])
    else
      var rest := Concat(frames[1..]);
      assert forall k :: 1 <= k < |frames| ==> frames[k] == frames[1..][k - 1];
      Frame(frames[0].hasLocation || rest.hasLocation, frames[0].hasDescription || rest.hasDescription,
            frames[0].rows + rest.rows)
  }

  lemma {:induction false} ConcatRows(frames: seq<Frame>)
    ensures |Concat(frames).rows| == RowCount(frames)
  {
    if |frames| > 0 {
      ConcatRows(frames[1..]);
    }
  }

  function RowCount(frames: seq<Frame>): nat
  {
    if |frames| == 0 then 0 else |frames[0].rows| + RowCount(frames[1..])
  }

  // ---------------------------------------------------------------------
  // drop_duplicates(keep="first")
  // ---------------------------------------------------------------------

  /** The values of the subset columns that identify a row. */
  datatype RowKey = RowKey(title: string, company: string, location: Option<string>, description: Option<string>)

  /** The indices of the first occurrence of each key among `keys[..n]`, in order. */
  function FirstIndices(keys: seq<RowKey>, n: nat): (idx: seq<nat>)
    requires n <= |keys|
    ensures |idx| <= n && forall j :: 0 <= j < |idx| ==> idx[j] < n
  {
    if n == 0 then []
    else FirstIndices(keys, n - 1) + (if keys[n - 1] in keys[..n - 1] then [] else [n - 1])
  }

  lemma {:induction false} FirstIndicesAreFirst(keys: seq<RowKey>, n: nat)
    requires n <= |keys|
    ensures forall j :: 0 <= j < |FirstIndices(keys, n)| ==>
      keys[FirstIndices(keys, n)[j]] !in keys[..FirstIndices(keys, n)[j]]
  {
    if n > 0 {
      FirstIndicesAreFirst(keys, n - 1);
      var prev := FirstIndices(keys, n - 1);
      assert forall j :: 0 <= j < |prev| ==> FirstIndices(keys, n)[j] == prev[j];
    }
  }

  lemma {:induction false} FirstIndicesIncrease(keys: seq<RowKey>, n: nat)
    requires n <= |keys|
    ensures forall a, b :: 0 <= a < b < |FirstIndices(keys, n)| ==> FirstIndices(keys, n)[a] < FirstIndices(keys, n)[b]
  {
    if n > 0 {
      FirstIndicesIncrease(keys, n - 1);
      var prev := FirstIndices(keys, n - 1);
      assert forall j :: 0 <= j < |prev| ==> FirstIndices(keys, n)[j] == prev[j];
    }
  }

  lemma {:induction false} FirstIndicesComplete(keys: seq<RowKey>, n: nat, i: int)
    requires n <= |keys| && 0 <= i < n
    ensures exists j :: 0 <= j < |FirstIndices(keys, n)| && keys[FirstIndices(keys, n)[j]] == keys[i]
  {
    var prev := FirstIndices(keys, n - 1);
    var idx := FirstIndices(keys, n);
    assert forall j :: 0 <= j < |prev| ==> idx[j] == prev[j];
    if i < n - 1 {
      FirstIndicesComplete(keys, n - 1, i);
      var j :| 0 <= j < |prev| && keys[prev[j]] == keys[i];
      assert idx[j] == prev[j];
    } else if keys[n - 1] in keys[..n - 1] {
      var i' :| 0 <= i' < n - 1 && keys[..n - 1][i'] == keys[n - 1];
      FirstIndicesComplete(keys, n - 1, i');
      var j :| 0 <= j < |prev| && keys[prev[j]] == keys[i'];
      assert idx[j] == prev[j];
    } else {
      assert idx[|idx| - 1] == n - 1;
    }
  }

  /** The rows at the given indices, in that order. */
  function Select(rows: seq<Row>, idx: seq<nat>): (r: seq<Row>)
    requires forall j :: 0 <= j < |idx| ==> idx[j] < |rows|
    ensures |r| == |idx| && forall j :: 0 <= j < |idx| ==> r[j] == rows[idx[j]]
  {
    seq(|idx|, j requires 0 <= j < |idx| => rows[idx[j]])
  }

  /** The key of every row, in order. */
  function KeysOf(rows: seq<Row>, key: Row -> RowKey): (keys: seq<RowKey>)
    ensures |keys| == |rows| && forall i :: 0 <= i < |rows| ==> keys[i] == key(rows[i])
  {
    seq(|rows|, i requires 0 <= i < |rows| => key(rows[i]))
  }

  /** The rows that `drop_duplicates(subset, keep="first")` keeps. */
  function Deduplicated(rows: seq<Row>, key: Row -> RowKey): (r: seq<Row>)
    ensures |r| <= |rows| && forall k :: 0 <= k < |r| ==> r[k] in rows
  {
    var keys := KeysOf(rows, key);
    Select(rows, FirstIndices(keys, |rows|))
  }

  /** No two kept rows share a key. */
  lemma DeduplicatedDistinct(rows: seq<Row>, key: Row -> RowKey, a: int, b: int)
    requires 0 <= a < b < |Deduplicated(rows, key)|
    ensures key(Deduplicated(rows, key)[a]) != key(Deduplicated(rows, key)[b])
  {
    var keys := KeysOf(rows, key);
    var idx := FirstIndices(keys, |rows|);
    FirstIndicesAreFirst(keys, |rows|);
    FirstIndicesIncrease(keys, |rows|);
    assert keys[..idx[b]][idx[a]] == keys[idx[a]];
  }

  /** Every key of the input is still present after deduplication. */
  lemma DeduplicatedComplete(rows: seq<Row>, key: Row -> RowKey, i: int)
    requires 0 <= i < |rows|
    ensures exists j :: 0 <= j < |Deduplicated(rows, key)| && key(Deduplicated(rows, key)[j]) == key(rows[i])
  {
    var keys := KeysOf(rows, key);
    var idx := FirstIndices(keys, |rows|);
    FirstIndicesComplete(keys, |rows|, i);
    var j :| 0 <= j < |idx| && keys[idx[j]] == keys[i];
    assert key(Deduplicated(rows, key)[j]) == key(rows[i]);
  }

  /** Kept rows keep their input order: the kept row `a` comes from an earlier input row than `b`. */
  lemma DeduplicatedInOrder(rows: seq<Row>, key: Row -> RowKey, a: int, b: int)
    requires 0 <= a < b < |Deduplicated(rows, key)|
    ensures exists ia, ib :: 0 <= ia < ib < |rows| && Deduplicated(rows, key)[a] == rows[ia] && Deduplicated(rows, key)[b] == rows[ib]
  {
    var keys := KeysOf(rows, key);
    var idx := FirstIndices(keys, |rows|);
    FirstIndicesIncrease(keys, |rows|);
    assert Deduplicated(rows, key)[a] == rows[idx[a]] && Deduplicated(rows, key)[b] == rows[idx[b]];
  }

  /** `drop_duplicates(subset, keep="first", inplace=True)`: one pass remembering the keys seen. */
  method DropDuplicates(rows: seq<Row>, key: Row -> RowKey) returns (kept: seq<Row>)
    ensures kept == Deduplicated(rows, key)
  {
    ghost var keys := KeysOf(rows, key);
    var seen: set<RowKey> := {};
    kept := [];
    for i := 0 to |rows|
      invariant seen == set k | k in keys[..i]
      invariant kept == Select(rows, FirstIndices(keys, i))
    {
      var k := key(rows[i]);
      assert keys[..i + 1] == keys[..i] + [k];
      if k !in seen {
        seen := seen + {k};
        kept := kept + [rows[i]];
      }
    }
    assert keys[..|rows|] == keys;
  }
}

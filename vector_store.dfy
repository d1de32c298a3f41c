/**
 * `VectorStore` (`src/vector_store.py`): a store of job listings keyed by
 * id, each with its embedding, document and metadata.  The ChromaDB
 * collection named "job_listings" is modelled as an in-memory map that
 * exists or not; whether a client call succeeds, and what a nearest-
 * neighbour query answers, are inputs.
 */
module VectorStore {
  import opened Wrappers
  import opened Numbers
  import opened Scoring

  const CollectionName: string := "job_listings"
  const DefaultPersistDirectory: string := "data/chromadb"
  const DefaultTopK: int := 15

  /** The value used for a column or key that is absent. */
  const Missing: string := "N/A"

  /** The id "job_{index}_{stamp}": the row's index and the clock second when it was built. */
  datatype JobId = JobId(index: nat, stamp: int)

  /** The metadata stored with a listing; every value is a string. */
  datatype StoredMetadata = StoredMetadata(
    title: string, company: string, location: string, url: string, datePosted: string, addedAt: string)

  datatype Entry = Entry(embedding: Embedding, document: string, metadata: StoredMetadata)

  /** The collection's contents. */
  type Contents = map<JobId, Entry>

  /** One frame row as column name to the `str` of its value; a column the frame lacks is absent. */
  type JobRow = map<string, string>

  /** `str(job.get(key, 'N/A'))`. */
  function Field(row: JobRow, key: string): (v: string)
    ensures key in row ==> v == row[key]
    ensures key !in row ==> v == Missing
  {
    if key in row then row[key] else Missing
  }

  /**
   * The entry built for a row with an embedding: the description as the
   * document when the row has that column, else the row's printed form
   * `render(row)`; `url` comes from `job_url`.
   */
  function EntryOf(row: JobRow, embedding: Embedding, addedAt: string, render: JobRow -> string): (e: Entry)
    ensures e.embedding == embedding && e.metadata.addedAt == addedAt
    ensures e.document == (if "description" in row then row["description"] else render(row))
    ensures e.metadata.title == Field(row, "title") && e.metadata.company == Field(row, "company")
    ensures e.metadata.location == Field(row, "location") && e.metadata.url == Field(row, "job_url")
    ensures e.metadata.datePosted == Field(row, "date_posted")
  {
    Entry(embedding, if "description" in row then row["description"] else render(row),
          StoredMetadata(Field(row, "title"), Field(row, "company"), Field(row, "location"),
                         Field(row, "job_url"), Field(row, "date_posted"), addedAt))
  }

  /** The indices among the first `n` rows whose embedding is present, in row order. */
  function Chosen(embeddings: seq<Option<Embedding>>, n: nat): (idx: seq<nat>)
    requires n <= |embeddings|
    ensures forall k :: 0 <= k < |idx| ==> idx[k] < n && embeddings[idx[k]].Some?
    ensures forall k, l :: 0 <= k < l < |idx| ==> idx[k] < idx[l]
  {
    if n == 0 then []
    else Chosen(embeddings, n - 1) + (if embeddings[n - 1].Some? then [n - 1] else [])
  }

  /** Every row with an embedding is chosen. */
  lemma {:induction false} ChosenComplete(embeddings: seq<Option<Embedding>>, n: nat)
    requires n <= |embeddings|
    ensures forall i :: 0 <= i < n && embeddings[i].Some? ==> i in Chosen(embeddings, n)
  {
    if n > 0 {
      ChosenComplete(embeddings, n - 1);
    }
  }

  /** Nothing is chosen exactly when no row has an embedding. */
  lemma {:induction false} ChosenEmpty(embeddings: seq<Option<Embedding>>, n: nat)
    requires n <= |embeddings|
    ensures |Chosen(embeddings, n)| == 0 <==> forall i :: 0 <= i < n ==> embeddings[i].None?
  {
    if n > 0 {
      ChosenEmpty(embeddings, n - 1);
    }
  }

  /** The id and entry prepared for row i; `stamp(i)` and `isoNow(i)` are the clock readings taken for it. */
  function PreparedAt(rows: seq<JobRow>, embeddings: seq<Option<Embedding>>, stamp: nat -> int,
                      isoNow: nat -> string, render: JobRow -> string, i: nat): (JobId, Entry)
    requires i < |rows| <= |embeddings| && embeddings[i].Some?
  {
    (JobId(i, stamp(i)), EntryOf(rows[i], embeddings[i].value, isoNow(i), render))
  }

  /** What `add_jobs` prepares from the first `n` rows: one id and entry per chosen row, in row order. */
  function Prepared(rows: seq<JobRow>, embeddings: seq<Option<Embedding>>, stamp: nat -> int,
                    isoNow: nat -> string, render: JobRow -> string, n: nat): seq<(JobId, Entry)>
    requires n <= |rows| <= |embeddings|
  {
    var idx := Chosen(embeddings, n);
    seq(|idx|, k requires 0 <= k < |idx| => PreparedAt(rows, embeddings, stamp, isoNow, render, idx[k]))
  }

  /** One more row adds its entry exactly when its embedding is present. */
  lemma PreparedStep(rows: seq<JobRow>, embeddings: seq<Option<Embedding>>, stamp: nat -> int,
                     isoNow: nat -> string, render: JobRow -> string, n: nat)
    requires n < |rows| <= |embeddings|
    ensures Prepared(rows, embeddings, stamp, isoNow, render, n + 1)
            == Prepared(rows, embeddings, stamp, isoNow, render, n)
               + (if embeddings[n].Some? then [PreparedAt(rows, embeddings, stamp, isoNow, render, n)] else [])
  {
    assert Chosen(embeddings, n + 1) == Chosen(embeddings, n) + (if embeddings[n].Some? then [n] else []);
  }

  /**
   * The prepared ids are pairwise distinct, since each carries its row's
   * index, and there is one for every row with an embedding.
   */
  lemma PreparedIds(rows: seq<JobRow>, embeddings: seq<Option<Embedding>>, stamp: nat -> int,
                    isoNow: nat -> string, render: JobRow -> string)
    requires |rows| <= |embeddings|
    ensures var r := Prepared(rows, embeddings, stamp, isoNow, render, |rows|);
            (forall k, l :: 0 <= k < l < |r| ==> r[k].0 != r[l].0)
            && (forall i :: 0 <= i < |rows| && embeddings[i].Some? ==> (JobId(i, stamp(i)), EntryOf(rows[i], embeddings[i].value, isoNow(i), render)) in r)
            && (forall k :: 0 <= k < |r| ==> embeddings[r[k].0.index].Some? && r[k].0.index < |rows|)
  {
    var r := Prepared(rows, embeddings, stamp, isoNow, render, |rows|);
    var idx := Chosen(embeddings, |rows|);
    ChosenComplete(embeddings, |rows|);
    forall i | 0 <= i < |rows| && embeddings[i].Some?
      ensures (JobId(i, stamp(i)), EntryOf(rows[i], embeddings[i].value, isoNow(i), render)) in r
    {
      var k :| 0 <= k < |idx| && idx[k] == i;
      assert r[k] == PreparedAt(rows, embeddings, stamp, isoNow, render, i);
    }
  }

  /**
   * `collection.add`: the prepared entries inserted in order; an id the
   * collection already holds keeps its entry.
   */
  function Inserted(contents: Contents, added: seq<(JobId, Entry)>): (r: Contents)
    ensures r.Keys == contents.Keys + set k | 0 <= k < |added| :: added[k].0
    ensures forall id :: id in contents ==> r[id] == contents[id]
  {
    if added == [] then contents
    else
      var m := Inserted(contents, added[..|added| - 1]);
      var (id, entry) := added[|added| - 1];
      assert forall k :: 0 <= k < |added| - 1 ==> added[..|added| - 1][k] == added[k];
      if id in m then m else m[id := entry]
  }

  /** Every prepared entry whose id was new is stored as prepared. */
  lemma {:induction false} InsertedHolds(contents: Contents, added: seq<(JobId, Entry)>, k: nat)
    requires k < |added|
    requires forall i, j :: 0 <= i < j < |added| ==> added[i].0 != added[j].0
    requires added[k].0 !in contents
    ensures Inserted(contents, added)[added[k].0] == added[k].1
    decreases |added|
  {
    var init := added[..|added| - 1];
    if k < |added| - 1 {
      assert init[k] == added[k];
      InsertedHolds(contents, init, k);
      assert forall i :: 0 <= i < |init| ==> init[i] == added[i];
      assert added[|added| - 1].0 != added[k].0;
    }
  }

  /** One hit of `search_similar_jobs`. */
  datatype Hit = Hit(
    title: string, company: string, location: string, url: string, datePosted: string,
    similarityScore: real, distance: real, description: string)

  /**
   * What `collection.query` answers for a single query embedding: the first
   * (only) lists of metadatas, distances and documents.
   */
  datatype QueryResult = QueryResult(metadatas: seq<map<string, string>>, distances: seq<real>, documents: seq<string>)

  /** `collection.query` on given contents; `None` when it raises. */
  type Query = (Contents, Embedding, int) -> Option<QueryResult>

  /** The hit for the i-th metadata: the similarity rounded to 2 places, the distance to 4. */
  function HitAt(res: QueryResult, i: nat): (h: Hit)
    requires i < |res.metadatas| && i < |res.distances|
    requires res.documents != [] ==> i < |res.documents|
    ensures -0.5 <= (h.similarityScore - (1.0 - res.distances[i]) * 100.0) * 100.0 <= 0.5
    ensures -0.5 <= (h.distance - res.distances[i]) * 10000.0 <= 0.5
    ensures h.similarityScore * 100.0 == Round((1.0 - res.distances[i]) * 100.0 * 100.0) as real
    ensures h.distance * 10000.0 == Round(res.distances[i] * 10000.0) as real
    ensures h.description == (if res.documents != [] then res.documents[i] else Missing)
    ensures h.title == Field(res.metadatas[i], "title") && h.url == Field(res.metadatas[i], "url")
    ensures h.company == Field(res.metadatas[i], "company") && h.location == Field(res.metadatas[i], "location")
    ensures h.datePosted == Field(res.metadatas[i], "date_posted")
  {
    var md, d := res.metadatas[i], res.distances[i];
    assert Scale(2) == 100 && Scale(4) == 10000;
    Hit(Field(md, "title"), Field(md, "company"), Field(md, "location"), Field(md, "url"), Field(md, "date_posted"),
        RoundTo((1.0 - d) * 100.0, 2), RoundTo(d, 4), if res.documents != [] then res.documents[i] else Missing)
  }

  /**
   * The hits built from a query result, in query order; a result whose
   * distances or documents are shorter than its metadatas raises
   * `IndexError` in the loop, which the search turns into no hits.
   */
  function HitsOf(res: QueryResult): (hits: seq<Hit>)
    ensures hits == [] || |hits| == |res.metadatas|
    ensures |res.metadatas| <= |res.distances| && (res.documents != [] ==> |res.metadatas| <= |res.documents|) ==>
            |hits| == |res.metadatas| && forall i :: 0 <= i < |hits| ==> hits[i] == HitAt(res, i)
  {
    if |res.metadatas| <= |res.distances| && (res.documents != [] ==> |res.metadatas| <= |res.documents|) then
      seq(|res.metadatas|, i requires 0 <= i < |res.metadatas| => HitAt(res, i))
    else []
  }

  /** Whether the store holds a collection object after `get_collection`. */
  predicate HeldAfterGet(held: bool, stored: Option<Contents>, createOk: bool)
  {
    held || stored.Some? || createOk
  }

  /** The named collection after `get_collection`: created empty when it did not exist. */
  function StoredAfterGet(held: bool, stored: Option<Contents>, createOk: bool): (s: Option<Contents>)
    ensures held || stored.Some? ==> s == stored
    ensures !held && stored.None? ==> s == (if createOk then Some(map[]) else None)
  {
    if held || stored.Some? then stored
    else if createOk then Some(map[]) else None
  }

  class Store {
    const persistDirectory: string
    const collectionName: string
    /** Whether `self.collection` is set. */
    var held: bool
    /** The collection named `collectionName` on the client, `None` when it does not exist. */
    var stored: Option<Contents>

    /** `VectorStore(persist_directory)`: whatever the directory already holds, and no collection object yet. */
    constructor (persistDirectory: string, persisted: Option<Contents>)
      ensures this.persistDirectory == persistDirectory && collectionName == CollectionName
      ensures !held && stored == persisted
    {
      this.persistDirectory := persistDirectory;
      collectionName := CollectionName;
      held := false;
      stored := persisted;
    }

    /**
     * `create_collection`: deletes the existing collection (a failed delete
     * is ignored) and creates an empty one.  `deleteOk` and `createOk` say
     * whether the two client calls succeed.
     */
    method CreateCollection(deleteOk: bool, createOk: bool) returns (ok: bool)
      modifies this`held, this`stored
      ensures ok == createOk
      ensures ok ==> held && stored == Some(map[])
      ensures !ok ==> held == old(held) && stored == (if deleteOk then None else old(stored))
    {
      if deleteOk {
        stored := None;
      }
      if !createOk {
        return false;
      }
      stored := Some(map[]);
      held := true;
      return true;
    }

    /**
     * `get_collection`: keeps the collection object it holds; otherwise
     * loads the named collection, which succeeds when it exists, and
     * creates it when it does not.  The answer is whether an object is held.
     */
    method GetCollection(createOk: bool) returns (has: bool)
      modifies this`held, this`stored
      ensures has == held == HeldAfterGet(old(held), old(stored), createOk)
      ensures stored == StoredAfterGet(old(held), old(stored), createOk)
    {
      if !held {
        if stored.Some? {
          held := true;
        } else {
          var _ := CreateCollection(true, createOk);
        }
      }
      return held;
    }

    /**
     * `add_jobs`: the rows whose embedding is present are added with ids
     * built from their row index, in row order.  False, with nothing added,
     * when no collection object is available, when no embedding is
     * present, or when the client's `add` fails (`addOk`) or the
     * collection no longer exists.
     */
    method AddJobs(rows: seq<JobRow>, embeddings: seq<Option<Embedding>>, stamp: nat -> int, isoNow: nat -> string,
                   render: JobRow -> string, createOk: bool, addOk: bool)
      returns (ok: bool)
      requires |rows| <= |embeddings|
      modifies this`held, this`stored
      ensures held == HeldAfterGet(old(held), old(stored), createOk)
      ensures ok <==> held && (exists i :: 0 <= i < |rows| && embeddings[i].Some?)
                      && addOk && StoredAfterGet(old(held), old(stored), createOk).Some?
      ensures ok ==> stored == Some(Inserted(StoredAfterGet(old(held), old(stored), createOk).value,
                                             Prepared(rows, embeddings, stamp, isoNow, render, |rows|)))
      ensures !ok ==> stored == StoredAfterGet(old(held), old(stored), createOk)
    {
      var has := GetCollection(createOk);
      if !has {
        return false;
      }
      var documents: seq<string> := [];
      var vectors: seq<Embedding> := [];
      var ids: seq<JobId> := [];
      var metadatas: seq<StoredMetadata> := [];
      for i := 0 to |rows|
        invariant held && stored == StoredAfterGet(old(held), old(stored), createOk)
        invariant |documents| == |vectors| == |ids| == |metadatas|
        invariant Zip(ids, vectors, documents, metadatas) == Prepared(rows, embeddings, stamp, isoNow, render, i)
      {
        PreparedStep(rows, embeddings, stamp, isoNow, render, i);
        if embeddings[i].Some? {
          var row := rows[i];
          var document := if "description" in row then row["description"] else render(row);
          var metadata := StoredMetadata(Field(row, "title"), Field(row, "company"), Field(row, "location"),
                                         Field(row, "job_url"), Field(row, "date_posted"), isoNow(i));
          ZipSnoc(ids, vectors, documents, metadatas, JobId(i, stamp(i)), embeddings[i].value, document, metadata);
          documents := documents + [document];
          vectors := vectors + [embeddings[i].value];
          ids := ids + [JobId(i, stamp(i))];
          metadatas := metadatas + [metadata];
        }
      }
      ChosenEmpty(embeddings, |rows|);
      if vectors == [] {
        return false;
      }
      if !addOk || stored.None? {
        return false;
      }
      stored := Some(Inserted(stored.value, Zip(ids, vectors, documents, metadatas)));
      return true;
    }

    /**
     * `search_similar_jobs`: the hits of the query in query order, or none
     * when no collection object is available, the collection no longer
     * exists, the query raises, or it returns no metadatas.
     */
    method SearchSimilarJobs(cvEmbedding: Embedding, topK: int, query: Query, createOk: bool)
      returns (hits: seq<Hit>)
      modifies this`held, this`stored
      ensures held == HeldAfterGet(old(held), old(stored), createOk)
      ensures stored == StoredAfterGet(old(held), old(stored), createOk)
      ensures hits == (if !held || stored.None? || query(stored.value, cvEmbedding, topK).None? then []
                       else HitsOf(query(stored.value, cvEmbedding, topK).value))
    {
      var has := GetCollection(createOk);
      if !has || stored.None? {
        return [];
      }
      var results := query(stored.value, cvEmbedding, topK);
      if results.None? {
        return [];
      }
      var res := results.value;
      hits := [];
      if res.metadatas != [] {
        for i := 0 to |res.metadatas|
          invariant held && stored == StoredAfterGet(old(held), old(stored), createOk)
          invariant |hits| == i
          invariant i <= |res.distances| && (res.documents != [] ==> i <= |res.documents|)
          invariant forall k :: 0 <= k < i ==> hits[k] == HitAt(res, k)
        {
          if i >= |res.distances| || (res.documents != [] && i >= |res.documents|) {
            return [];
          }
          hits := hits + [HitAt(res, i)];
        }
      }
    }
  }

  /** The four parallel lists `add_jobs` hands to the client, as pairs of id and entry. */
  function Zip(ids: seq<JobId>, vectors: seq<Embedding>, documents: seq<string>, metadatas: seq<StoredMetadata>)
    : (r: seq<(JobId, Entry)>)
    requires |ids| == |vectors| == |documents| == |metadatas|
    ensures |r| == |ids|
    ensures forall k :: 0 <= k < |r| ==> r[k] == (ids[k], Entry(vectors[k], documents[k], metadatas[k]))
  {
    seq(|ids|, k requires 0 <= k < |ids| => (ids[k], Entry(vectors[k], documents[k], metadatas[k])))
  }

  lemma ZipSnoc(ids: seq<JobId>, vectors: seq<Embedding>, documents: seq<string>, metadatas: seq<StoredMetadata>,
                id: JobId, vector: Embedding, document: string, metadata: StoredMetadata)
    requires |ids| == |vectors| == |documents| == |metadatas|
    ensures Zip(ids + [id], vectors + [vector], documents + [document], metadatas + [metadata])
            == Zip(ids, vectors, documents, metadatas) + [(id, Entry(vector, document, metadata))]
  {
  }
}

/**
 * `EmbeddingService` (`src/embedding_service.py`): the API-key check of the
 * constructor, the retry loop with exponential back-off around one
 * embedding call, and the batch loop that keeps its output aligned with
 * its input.  The embedding API is an input: `embed(text, k)` is what the
 * k-th call (0-based) for `text` answers, `None` when it raises.
 */
module EmbeddingService {
  import opened Wrappers
  import opened Scoring

  /** The placeholder value shipped in the sample environment file. */
  const PlaceholderKey: string := "your_gemini_api_key_here"

  const ModelName: string := "models/text-embedding-004"

  /** How often `create_embedding` tries when the caller does not say. */
  const DefaultRetryCount: int := 3

  /** The answers of `genai.embed_content` to successive calls for one text. */
  type EmbedCall = (string, nat) -> Option<Embedding>

  /** A key is usable when it is set, non-empty and not the placeholder. */
  predicate UsableKey(apiKey: Option<string>)
  {
    apiKey.Some? && apiKey.value != "" && apiKey.value != PlaceholderKey
  }

  /** `2 ** k`. */
  function Pow2(k: nat): (p: nat)
    ensures p >= 1
    ensures k > 0 ==> p == 2 * Pow2(k - 1)
  {
    if k == 0 then 1 else 2 * Pow2(k - 1)
  }

  /** The back-off waits, in seconds, after the first `n` failed attempts: 1, 2, 4, … */
  function Backoff(n: nat): (w: seq<nat>)
    ensures |w| == n
    ensures forall k :: 0 <= k < n ==> w[k] == Pow2(k)
  {
    if n == 0 then [] else Backoff(n - 1) + [Pow2(n - 1)]
  }

  /** The first attempt at or after `k`, and below `n`, that succeeds. */
  function FirstSuccessFrom(embed: EmbedCall, text: string, k: nat, n: int): (s: Option<nat>)
    ensures s.Some? ==> k <= s.value < n && embed(text, s.value).Some?
    ensures s.Some? ==> forall j :: k <= j < s.value ==> embed(text, j).None?
    ensures s.None? ==> forall j :: k <= j < n ==> embed(text, j).None?
    decreases n - k
  {
    if k >= n then None
    else if embed(text, k).Some? then Some(k)
    else FirstSuccessFrom(embed, text, k + 1, n)
  }

  /** The first of `retryCount` attempts that succeeds. */
  function FirstSuccess(embed: EmbedCall, text: string, retryCount: int): Option<nat>
  {
    FirstSuccessFrom(embed, text, 0, retryCount)
  }

  /** What `create_embedding(text, retryCount)` returns. */
  function EmbeddingOf(embed: EmbedCall, text: string, retryCount: int): (r: Option<Embedding>)
    ensures r.Some? <==> exists k :: 0 <= k < retryCount && embed(text, k).Some?
    ensures r.Some? ==> exists k :: 0 <= k < retryCount && r == embed(text, k)
  {
    match FirstSuccess(embed, text, retryCount)
    case None => None
    case Some(k) => embed(text, k)
  }

  /** How many calls `create_embedding` makes: up to the first success, else all of them. */
  function CallsMade(embed: EmbedCall, text: string, retryCount: int): (n: nat)
    ensures n <= (if retryCount > 0 then retryCount else 0)
    ensures retryCount <= 0 ==> n == 0
  {
    match FirstSuccess(embed, text, retryCount)
    case None => if retryCount > 0 then retryCount else 0
    case Some(k) => k + 1
  }

  class Service {
    const model: string

    /** The part of `__init__` after the key check. */
    constructor ()
      ensures model == ModelName
    {
      model := ModelName;
    }

    /**
     * `create_embedding`: tries up to `retryCount` times and returns the
     * first embedding obtained; after a failed attempt k that is not the
     * last it waits 2^k seconds.  `calls` is how many calls were made and
     * `waits` the waits in order.
     */
    method CreateEmbedding(text: string, retryCount: int, embed: EmbedCall)
      returns (r: Option<Embedding>, calls: nat, waits: seq<nat>)
      ensures r == EmbeddingOf(embed, text, retryCount)
      ensures calls == CallsMade(embed, text, retryCount)
      ensures waits == (if calls == 0 then [] else Backoff(calls - 1))
    {
      r, calls, waits := None, 0, [];
      var attempt := 0;
      while attempt < retryCount
        invariant 0 <= attempt && (retryCount > 0 ==> attempt < retryCount) && (retryCount <= 0 ==> attempt == 0)
        invariant calls == attempt
        invariant forall j :: 0 <= j < attempt ==> embed(text, j).None?
        invariant FirstSuccess(embed, text, retryCount) == FirstSuccessFrom(embed, text, attempt, retryCount)
        invariant waits == Backoff(attempt)
        decreases retryCount - attempt
      {
        var result := embed(text, attempt);
        calls := calls + 1;
        if result.Some? {
          assert FirstSuccess(embed, text, retryCount) == Some(attempt);
          r := result;
          return;
        }
        if attempt < retryCount - 1 {
          waits := waits + [Pow2(attempt)];
        } else {
          assert FirstSuccessFrom(embed, text, attempt + 1, retryCount).None?;
          assert FirstSuccess(embed, text, retryCount).None?;
          return;
        }
        attempt := attempt + 1;
      }
    }

    /**
     * `create_embeddings_batch`: the texts are taken in consecutive chunks of
     * `batchSize`, each text embedded with the default retry count, the
     * results concatenated in order.  `calls(i)` is the embedding API as the
     * i-th text sees it.  `progress` holds the logged end of each chunk and
     * `successful` the logged number of embeddings obtained.  A zero
     * `batchSize` makes `range` raise `ValueError`; a negative one gives no
     * chunk at all.
     */
    method CreateEmbeddingsBatch(texts: seq<string>, batchSize: int, calls: nat -> EmbedCall)
      returns (r: Result<seq<Option<Embedding>>, Exception>, progress: seq<nat>, successful: nat)
      ensures batchSize == 0 ==> r == Failure(ValueError) && progress == [] && successful == 0
      ensures batchSize < 0 ==> r == Success([]) && progress == [] && successful == 0
      ensures batchSize > 0 ==> r.Success? && |r.value| == |texts|
      ensures batchSize > 0 ==> forall i :: 0 <= i < |texts| ==>
                r.value[i] == EmbeddingOf(calls(i), texts[i], DefaultRetryCount)
      ensures batchSize > 0 ==> progress == BatchEnds(|texts|, batchSize, 0)
      ensures r.Success? ==> successful == CountSome(r.value)
    {
      progress, successful := [], 0;
      if batchSize == 0 {
        return Failure(ValueError), progress, successful;
      }
      if batchSize < 0 {
        return Success([]), progress, successful;
      }
      var embeddings;
      embeddings, progress := EmbedInChunks(texts, batchSize, calls);
      successful := CountSome(embeddings);
      r := Success(embeddings);
    }

    /** The loop over the chunks: each chunk's results appended in turn, its end logged. */
    method EmbedInChunks(texts: seq<string>, batchSize: int, calls: nat -> EmbedCall)
      returns (embeddings: seq<Option<Embedding>>, progress: seq<nat>)
      requires batchSize > 0
      ensures |embeddings| == |texts| && Embedded(embeddings, texts, calls)
      ensures progress == BatchEnds(|texts|, batchSize, 0)
    {
      var total := |texts|;
      embeddings, progress := [], [];
      var i := 0;
      while i < total
        invariant 0 <= i && |embeddings| == (if i < total then i else total)
        invariant Embedded(embeddings, texts, calls)
        invariant progress + BatchEnds(total, batchSize, i) == BatchEnds(total, batchSize, 0)
        decreases total - i
      {
        var end := if i + batchSize < total then i + batchSize else total;
        var batch := texts[i..end];
        var batchEmbeddings := EmbedBatch(batch, i, calls);
        EmbeddedChunk(embeddings, batchEmbeddings, texts, calls, end);
        BatchEndsStep(total, batchSize, i);
        embeddings := embeddings + batchEmbeddings;
        progress := progress + [end];
        i := i + batchSize;
      }
    }

    /** The inner loop over one chunk whose first text has index `offset`: each text embedded in turn. */
    method EmbedBatch(batch: seq<string>, offset: nat, calls: nat -> EmbedCall) returns (batchEmbeddings: seq<Option<Embedding>>)
      ensures |batchEmbeddings| == |batch|
      ensures forall k :: 0 <= k < |batch| ==>
                batchEmbeddings[k] == EmbeddingOf(calls(offset + k), batch[k], DefaultRetryCount)
    {
      batchEmbeddings := [];
      for j := 0 to |batch|
        invariant |batchEmbeddings| == j
        invariant forall k :: 0 <= k < j ==> batchEmbeddings[k] == EmbeddingOf(calls(offset + k), batch[k], DefaultRetryCount)
      {
        var embedding, _, _ := CreateEmbedding(batch[j], DefaultRetryCount, calls(offset + j));
        batchEmbeddings := batchEmbeddings + [embedding];
      }
    }
  }

  /**
   * `EmbeddingService()`: `ValueError` when the key from the environment is
   * missing, empty or the placeholder; otherwise a service on the
   * text-embedding model.
   */
  method NewService(apiKey: Option<string>) returns (r: Result<Service, Exception>)
    ensures r.Failure? <==> !UsableKey(apiKey)
    ensures r.Failure? ==> r.error == ValueError
    ensures r.Success? ==> fresh(r.value) && r.value.model == ModelName
  {
    if !UsableKey(apiKey) {
      return Failure(ValueError);
    }
    var service := new Service();
    return Success(service);
  }

  /** `embeddings` holds the results for the first texts, each embedded with the default retry count. */
  ghost predicate Embedded(embeddings: seq<Option<Embedding>>, texts: seq<string>, calls: nat -> EmbedCall)
  {
    |embeddings| <= |texts|
    && forall k :: 0 <= k < |embeddings| ==> embeddings[k] == EmbeddingOf(calls(k), texts[k], DefaultRetryCount)
  }

  /** Appending the results of the next chunk keeps `Embedded`. */
  lemma EmbeddedChunk(embeddings: seq<Option<Embedding>>, chunk: seq<Option<Embedding>>, texts: seq<string>,
                      calls: nat -> EmbedCall, end: nat)
    requires Embedded(embeddings, texts, calls) && |embeddings| <= end <= |texts|
    requires |chunk| == end - |embeddings|
    requires forall k :: 0 <= k < |chunk| ==>
               chunk[k] == EmbeddingOf(calls(|embeddings| + k), texts[|embeddings|..end][k], DefaultRetryCount)
    ensures Embedded(embeddings + chunk, texts, calls)
  {
    var i := |embeddings|;
    forall k | i <= k < end
      ensures (embeddings + chunk)[k] == EmbeddingOf(calls(k), texts[k], DefaultRetryCount)
    {
      assert texts[i..end][k - i] == texts[k];
    }
  }

  /** One chunk's end, then the ends of the chunks after it. */
  lemma BatchEndsStep(total: nat, size: nat, from: nat)
    requires size > 0 && from < total
    ensures BatchEnds(total, size, from)
            == [if from + size < total then from + size else total] + BatchEnds(total, size, from + size)
  {
  }

  /** The end of each chunk that starts at or after `from`, stepping by `size`. */
  function BatchEnds(total: nat, size: nat, from: nat): (ends: seq<nat>)
    requires size > 0
    decreases total - from
  {
    if from >= total then []
    else [if from + size < total then from + size else total] + BatchEnds(total, size, from + size)
  }

  /**
   * The chunks cover the texts exactly: the ends rise by `size` each time
   * except the last, which is `total`.
   */
  lemma {:induction false} BatchEndsCover(total: nat, size: nat, from: nat)
    requires size > 0
    ensures from < total ==> |BatchEnds(total, size, from)| > 0
    ensures from < total ==> BatchEnds(total, size, from)[|BatchEnds(total, size, from)| - 1] == total
    ensures forall b :: 0 <= b < |BatchEnds(total, size, from)| - 1 ==>
              BatchEnds(total, size, from)[b] == from + (b + 1) * size
    ensures forall b :: 0 <= b < |BatchEnds(total, size, from)| ==> BatchEnds(total, size, from)[b] <= total
    decreases total - from
  {
    if from < total {
      var rest := BatchEnds(total, size, from + size);
      BatchEndsCover(total, size, from + size);
      assert BatchEnds(total, size, from) == [if from + size < total then from + size else total] + rest;
      forall b | 0 < b < |rest| + 1 - 1
        ensures BatchEnds(total, size, from)[b] == from + (b + 1) * size
      {
        assert rest[b - 1] == from + size + b * size;
      }
    }
  }

  /** The number of present entries: the `successful_count` sum. */
  function CountSome<T>(xs: seq<Option<T>>): (n: nat)
    ensures n <= |xs|
    ensures n == |xs| <==> forall i :: 0 <= i < |xs| ==> xs[i].Some?
    ensures n == 0 <==> forall i :: 0 <= i < |xs| ==> xs[i].None?
  {
    if xs == [] then 0
    else CountSome(xs[..|xs| - 1]) + (if xs[|xs| - 1].Some? then 1 else 0)
  }

  /**
   * `calculate_similarity`: 0 when either embedding cannot be made,
   * otherwise the cosine (an input, `None` when a norm is zero) mapped from
   * [-1, 1] onto [0, 100].
   */
  method CalculateSimilarity(service: Service, text1: string, text2: string, embed: EmbedCall,
                             cosine: (Embedding, Embedding) -> Option<real>)
    returns (similarity: real)
    ensures EmbeddingOf(embed, text1, DefaultRetryCount).None? || EmbeddingOf(embed, text2, DefaultRetryCount).None?
            ==> similarity == 0.0
    ensures EmbeddingOf(embed, text1, DefaultRetryCount).Some? && EmbeddingOf(embed, text2, DefaultRetryCount).Some?
            ==> similarity == PercentOf(cosine(EmbeddingOf(embed, text1, DefaultRetryCount).value,
                                               EmbeddingOf(embed, text2, DefaultRetryCount).value))
  {
    var e1, _, _ := service.CreateEmbedding(text1, DefaultRetryCount, embed);
    var e2, _, _ := service.CreateEmbedding(text2, DefaultRetryCount, embed);
    if e1.None? || e2.None? {
      return 0.0;
    }
    var c := cosine(e1.value, e2.value);
    if c.None? {
      return 0.0;
    }
    similarity := (c.value + 1.0) / 2.0 * 100.0;
  }

  /** A cosine on the 0–100 scale, 0 for a zero vector. */
  function PercentOf(c: Option<real>): (p: real)
    ensures c.Some? && -1.0 <= c.value <= 1.0 ==> 0.0 <= p <= 100.0
    ensures c.Some? ==> (p == 100.0 <==> c.value == 1.0) && (p == 0.0 <==> c.value == -1.0)
  {
    if c.None? then 0.0 else (c.value + 1.0) / 2.0 * 100.0
  }
}

/**
 * The embedding pipeline (data_pipeline/embedder.py): chunks not yet in the
 * checkpoint are embedded one by one with a capped exponential backoff on rate
 * limits, turned into Qdrant points, and upserted in batches of 50, the
 * checkpoint being saved after every upsert.
 */
module Embedder {
  import opened Wrappers
  import opened Text
  import opened Client

  const InitialBackoff: nat := 30
  const MaxBackoff: nat := 300
  const MaxRetries: nat := 10
  const BatchSize: nat := 50
  const MinContentLength: nat := 20
  const MaxContentLength: nat := 8000

  function Min(a: nat, b: nat): nat {
    if a <= b then a else b
  }

  function Pow2(n: nat): nat {
    if n == 0 then 1 else 2 * Pow2(n - 1)
  }

  function Sum(s: seq<nat>): nat {
    if s == [] then 0 else Sum(s[..|s| - 1]) + s[|s| - 1]
  }

  // ------------------------------------------------------------------
  // embed_with_retry
  // ------------------------------------------------------------------

  /** The value of `backoff` during attempt `attempt`: 30, doubled after every rate limit, at most 300. */
  function Backoff(attempt: nat): (b: nat)
    ensures InitialBackoff <= b <= MaxBackoff
  {
    if attempt == 0 then InitialBackoff else Min(Backoff(attempt - 1) * 2, MaxBackoff)
  }

  /** The waits of `k` consecutive rate limits. */
  function Backoffs(k: nat): (w: seq<nat>)
    ensures |w| == k && forall i :: 0 <= i < k ==> w[i] == Backoff(i)
  {
    seq(k, i requires 0 <= i < k => Backoff(i))
  }

  /** What one call of `embed_with_retry` produces: the vector or `None`, and the seconds slept. */
  datatype Retry = Retry(embedding: Option<seq<real>>, waits: seq<nat>)

  /**
   * `embed_with_retry` from attempt `attempt` on, where `getEmbedding(k)` is what
   * the client's `get_embedding` does on attempt `k`: a rate limit sleeps and
   * tries again, any other exception gives up, and a reply is kept only when it
   * has exactly 1024 components.
   */
  function RetryFrom(getEmbedding: nat -> Outcome<seq<real>>, attempt: nat): Retry
    decreases MaxRetries - attempt
  {
    if attempt >= MaxRetries then Retry(None, [])
    else
      match getEmbedding(attempt)
      case Ok(v) => Retry(if |v| == EmbeddingDim then Some(v) else None, [])
      case Failed(_) => Retry(None, [])
      case RateLimited(_) =>
        var rest := RetryFrom(getEmbedding, attempt + 1);
        Retry(rest.embedding, [Backoff(attempt)] + rest.waits)
  }

  /** The closed form of the backoff: `min(30 * 2^attempt, 300)`. */
  lemma {:induction false} BackoffClosedForm(attempt: nat)
    ensures Backoff(attempt) == Min(InitialBackoff * Pow2(attempt), MaxBackoff)
  {
    if attempt > 0 {
      BackoffClosedForm(attempt - 1);
      assert InitialBackoff * Pow2(attempt) == 2 * (InitialBackoff * Pow2(attempt - 1));
    }
  }

  /** From the fifth attempt on, every wait is the 300-second cap. */
  lemma {:induction false} BackoffCapped(attempt: nat)
    requires attempt >= 4
    ensures Backoff(attempt) == MaxBackoff
  {
    if attempt > 4 {
      BackoffCapped(attempt - 1);
    } else {
      assert Backoff(1) == 60 && Backoff(2) == 120 && Backoff(3) == 240;
    }
  }

  /**
   * A run of `embed_with_retry` stops at the first attempt that is not rate
   * limited, after sleeping once per earlier attempt: `min(30 * 2^i, 300)`
   * seconds after attempt `i`.
   */
  lemma {:induction false} RetryStopsAtFirstAnswer(getEmbedding: nat -> Outcome<seq<real>>, k: nat, from: nat)
    requires from <= k < MaxRetries
    requires forall j :: from <= j < k ==> getEmbedding(j).RateLimited?
    requires !getEmbedding(k).RateLimited?
    ensures RetryFrom(getEmbedding, from).waits == Backoffs(k)[from..]
    ensures RetryFrom(getEmbedding, from).embedding ==
      if getEmbedding(k).Ok? && |getEmbedding(k).value| == EmbeddingDim then Some(getEmbedding(k).value) else None
    decreases k - from
  {
    if from < k {
      RetryStopsAtFirstAnswer(getEmbedding, k, from + 1);
      assert Backoffs(k)[from..] == [Backoff(from)] + Backoffs(k)[from + 1..];
    }
  }

  /** Ten rate limits in a row give up with `None` after sleeping ten times, 2250 seconds in all. */
  lemma {:induction false} AlwaysRateLimited(getEmbedding: nat -> Outcome<seq<real>>, from: nat)
    requires from <= MaxRetries
    requires forall j :: from <= j < MaxRetries ==> getEmbedding(j).RateLimited?
    ensures RetryFrom(getEmbedding, from) == Retry(None, Backoffs(MaxRetries)[from..])
    decreases MaxRetries - from
  {
    if from < MaxRetries {
      AlwaysRateLimited(getEmbedding, from + 1);
      assert Backoffs(MaxRetries)[from..] == [Backoff(from)] + Backoffs(MaxRetries)[from + 1..];
    }
  }

  /** `embed_with_retry`: at most ten attempts, sleeping `backoff` seconds after each rate limit. */
  method EmbedWithRetry(getEmbedding: nat -> Outcome<seq<real>>) returns (embedding: Option<seq<real>>, waits: seq<nat>)
    ensures Retry(embedding, waits) == RetryFrom(getEmbedding, 0)
  {
    var backoff := InitialBackoff;
    waits := [];
    for attempt := 0 to MaxRetries
      invariant backoff == Backoff(attempt)
      invariant waits == Backoffs(attempt)
      invariant forall j :: 0 <= j < attempt ==> getEmbedding(j).RateLimited?
    {
      var reply := getEmbedding(attempt);
      if !reply.RateLimited? {
        RetryStopsAtFirstAnswer(getEmbedding, attempt, 0);
        if reply.Ok? && |reply.value| == EmbeddingDim {
          return Some(reply.value), waits;
        }
        return None, waits;
      }
      waits := waits + [backoff];
      backoff := Min(backoff * 2, MaxBackoff);
      assert waits == Backoffs(attempt + 1);
    }
    AlwaysRateLimited(getEmbedding, 0);
    return None, waits;
  }

  lemma TotalWaitOfTenRateLimits()
    ensures Sum(Backoffs(MaxRetries)) == 2250
  {
    var w := Backoffs(MaxRetries);
    BackoffCapped(4); BackoffCapped(5); BackoffCapped(6); BackoffCapped(7); BackoffCapped(8); BackoffCapped(9);
    assert w[0] == 30 && w[1] == 60 && w[2] == 120 && w[3] == 240;
    assert Sum(w[..1]) == 30 by { assert w[..1][..0] == []; }
    assert Sum(w[..2]) == 90 by { assert w[..2][..1] == w[..1]; }
    assert Sum(w[..3]) == 210 by { assert w[..3][..2] == w[..2]; }
    assert Sum(w[..4]) == 450 by { assert w[..4][..3] == w[..3]; }
    assert Sum(w[..5]) == 750 by { assert w[..5][..4] == w[..4]; }
    assert Sum(w[..6]) == 1050 by { assert w[..6][..5] == w[..5]; }
    assert Sum(w[..7]) == 1350 by { assert w[..7][..6] == w[..6]; }
    assert Sum(w[..8]) == 1650 by { assert w[..8][..7] == w[..7]; }
    assert Sum(w[..9]) == 1950 by { assert w[..9][..8] == w[..8]; }
    assert w[..10] == w;
  }

  /** Whatever the replies, a kept vector has 1024 components and there are at most ten waits, each the capped backoff. */
  lemma {:induction false} RetryFacts(getEmbedding: nat -> Outcome<seq<real>>, from: nat)
    requires from <= MaxRetries
    ensures var r := RetryFrom(getEmbedding, from);
      && (r.embedding.Some? ==> |r.embedding.value| == EmbeddingDim)
      && |r.waits| <= MaxRetries - from
      && forall i :: 0 <= i < |r.waits| ==> r.waits[i] == Min(InitialBackoff * Pow2(from + i), MaxBackoff)
    decreases MaxRetries - from
  {
    if from < MaxRetries && getEmbedding(from).RateLimited? {
      RetryFacts(getEmbedding, from + 1);
      var r := RetryFrom(getEmbedding, from);
      forall i | 0 <= i < |r.waits| ensures r.waits[i] == Min(InitialBackoff * Pow2(from + i), MaxBackoff) {
        if i == 0 {
          BackoffClosedForm(from);
        }
      }
    }
  }

  // ------------------------------------------------------------------
  // The checkpoint
  // ------------------------------------------------------------------

  /** The JSON object in the checkpoint file; either key may be missing from a file written elsewhere. */
  datatype SavedCheckpoint = SavedCheckpoint(embeddedIds: Option<seq<string>>, totalEmbedded: Option<nat>)

  /** The in-memory checkpoint; `totalEmbedded` is `None` when the loaded file had no such key. */
  datatype Snapshot = Snapshot(embeddedIds: set<string>, totalEmbedded: Option<nat>)

  /** `order` lists the members of `s`, each once (`list(s)` in some order). */
  predicate Lists(order: seq<string>, s: set<string>) {
    && (forall i :: 0 <= i < |order| ==> order[i] in s)
    && (forall x :: x in s ==> x in order)
    && (forall i, j :: 0 <= i < j < |order| ==> order[i] != order[j])
  }

  /** `load_checkpoint`, given the file's content (`None` when there is no file). */
  function Loaded(file: Option<SavedCheckpoint>): (s: Snapshot)
    ensures file.None? ==> s == Snapshot({}, Some(0))
    ensures file.Some? ==> s.totalEmbedded == file.value.totalEmbedded
    ensures file.Some? ==> forall x :: x in s.embeddedIds <==> file.value.embeddedIds.Some? && x in file.value.embeddedIds.value
  {
    match file
    case None => Snapshot({}, Some(0))
    case Some(saved) => Snapshot((set x | x in saved.embeddedIds.GetOr([])), saved.totalEmbedded)
  }

  /** Saving a checkpoint and loading it back gives the same id set and total. */
  lemma SaveLoadRoundTrip(order: seq<string>, ids: set<string>, total: nat)
    requires Lists(order, ids)
    ensures Loaded(Some(SavedCheckpoint(Some(order), Some(total)))) == Snapshot(ids, Some(total))
  {
    var loaded := Loaded(Some(SavedCheckpoint(Some(order), Some(total))));
    assert loaded.embeddedIds == ids by {
      forall x ensures x in loaded.embeddedIds <==> x in ids {
      }
    }
  }

  /** The checkpoint dictionary `embed_chunks` updates in place. */
  class Checkpoint {
    var embeddedIds: set<string>
    var totalEmbedded: Option<nat>

    /** `load_checkpoint`. */
    constructor Load(file: CheckpointFile)
      ensures Snapshot(embeddedIds, totalEmbedded) == Loaded(file.content)
    {
      var s := Loaded(file.content);
      embeddedIds := s.embeddedIds;
      totalEmbedded := s.totalEmbedded;
    }
  }

  /** The checkpoint file; `None` while it does not exist. */
  class CheckpointFile {
    var content: Option<SavedCheckpoint>

    constructor (content: Option<SavedCheckpoint>)
      ensures this.content == content
    {
      this.content := content;
    }
  }

  /** `list(s)`: the members of a set, in an order the model leaves open. */
  method ListOf(s: set<string>) returns (order: seq<string>)
    ensures Lists(order, s)
  {
    order := [];
    var rest := s;
    while rest != {}
      invariant rest <= s
      invariant forall i :: 0 <= i < |order| ==> order[i] in s && order[i] !in rest
      invariant forall x :: x in s ==> x in rest || x in order
      invariant forall i, j :: 0 <= i < j < |order| ==> order[i] != order[j]
      decreases |rest|
    {
      var x :| x in rest;
      order := order + [x];
      rest := rest - {x};
    }
  }

  /** `save_checkpoint`: writes both keys, the id set as a list. */
  method SaveCheckpoint(cp: Checkpoint, file: CheckpointFile)
    requires cp.totalEmbedded.Some?
    modifies file
    ensures Loaded(file.content) == Snapshot(cp.embeddedIds, cp.totalEmbedded)
  {
    var order := ListOf(cp.embeddedIds);
    file.content := Some(SavedCheckpoint(Some(order), cp.totalEmbedded));
    SaveLoadRoundTrip(order, cp.embeddedIds, cp.totalEmbedded.value);
  }

  // ------------------------------------------------------------------
  // Points
  // ------------------------------------------------------------------

  type Byte = b: int | 0 <= b < 256

  /** `int.from_bytes(bytes, byteorder='big')`. */
  function BigEndian(bytes: seq<Byte>): nat {
    if bytes == [] then 0 else BigEndian(bytes[..|bytes| - 1]) * 256 + bytes[|bytes| - 1]
  }

  const PointIdModulus: nat := 0x8000_0000_0000_0000

  /**
   * `generate_point_id`: the first eight bytes of the chunk id's MD5 digest, read
   * big-endian, modulo 2^63. The digest itself is a parameter.
   */
  function PointId(md5: string -> seq<Byte>, chunkId: string): (id: nat)
    ensures id < PointIdModulus
  {
    BigEndian(Take(md5(chunkId), 8)) % PointIdModulus
  }

  /** A record of chunks.json as `chunk.get(key, "")` reads it; a missing key reads as `""`. */
  datatype ChunkRecord = ChunkRecord(
    chunkId: string, content: string, docId: string, docTitle: string, articleNum: string, chapter: string)

  /** A Qdrant `PointStruct`. */
  datatype PointStruct = PointStruct(id: nat, vector: seq<real>, payload: map<string, string>)

  /**
   * The services `embed_chunks` talks to, and its domain tag: `api(idx, k)` is the
   * embedding API's reply to attempt `k` for the `idx`-th remaining chunk, before
   * the client masks it; `md5` is the digest `generate_point_id` uses.
   */
  datatype Env = Env(domain: string, api: (nat, nat) -> Outcome<seq<real>>, md5: string -> seq<Byte>)

  /** What `get_embedding` returns on each attempt for the `idx`-th remaining chunk. */
  function Attempts(api: (nat, nat) -> Outcome<seq<real>>, idx: nat): nat -> Outcome<seq<real>> {
    (k: nat) => EmbeddingReply(api(idx, k))
  }

  /** The text that is embedded: `None` when the chunk is skipped, else its content cut to 8000 characters. */
  function Prepared(c: ChunkRecord): (text: Option<string>)
    ensures text.None? <==> |c.content| < MinContentLength
    ensures text.Some? ==> MinContentLength <= |text.value| <= MaxContentLength && StartsWith(c.content, text.value)
    ensures text.Some? && |c.content| <= MaxContentLength ==> text.value == c.content
  {
    if |c.content| < MinContentLength then None else Some(Take(c.content, MaxContentLength))
  }

  const PayloadKeys: set<string> := {"chunk_id", "domain", "doc_id", "doc_title", "article_num", "chapter", "content"}

  function PayloadOf(c: ChunkRecord, domain: string, text: string): map<string, string> {
    map["chunk_id" := c.chunkId, "domain" := domain, "doc_id" := c.docId, "doc_title" := c.docTitle,
        "article_num" := c.articleNum, "chapter" := c.chapter, "content" := text]
  }

  /** The point built for the `idx`-th remaining chunk, or `None` when it is skipped or its embedding fails. */
  function PointFor(env: Env, c: ChunkRecord, idx: nat): (p: Option<PointStruct>)
    ensures p.Some? ==> Prepared(c).Some?
    ensures p.Some? ==> |p.value.vector| == EmbeddingDim && p.value.id < PointIdModulus
    ensures p.Some? ==> p.value.payload.Keys == PayloadKeys
    ensures p.Some? ==> p.value.payload["chunk_id"] == c.chunkId && p.value.payload["domain"] == env.domain
    ensures p.Some? ==> p.value.payload["content"] == Prepared(c).value
  {
    match Prepared(c)
    case None => None
    case Some(text) =>
      RetryFacts(Attempts(env.api, idx), 0);
      match RetryFrom(Attempts(env.api, idx), 0).embedding
      case None => None
      case Some(v) => Some(PointStruct(PointId(env.md5, c.chunkId), v, PayloadOf(c, env.domain, text)))
  }

  /** `remaining`: the chunks whose id is not in the checkpoint, in their original order. */
  function Remaining(chunks: seq<ChunkRecord>, ids: set<string>): (rem: seq<ChunkRecord>)
    ensures forall c :: c in rem <==> c in chunks && c.chunkId !in ids
    ensures |rem| <= |chunks|
    decreases |chunks|
  {
    if chunks == [] then []
    else
      var front := Remaining(chunks[..|chunks| - 1], ids);
      var c := chunks[|chunks| - 1];
      assert chunks == chunks[..|chunks| - 1] + [c];
      if c.chunkId in ids then front else front + [c]
  }

  /** The points built for the first `n` remaining chunks, in order. */
  function Built(env: Env, rem: seq<ChunkRecord>, n: nat): seq<PointStruct>
    requires n <= |rem|
  {
    if n == 0 then []
    else
      var p := PointFor(env, rem[n - 1], n - 1);
      Built(env, rem, n - 1) + (if p.Some? then [p.value] else [])
  }

  /** The ids added to `embedded_ids` while the first `n` remaining chunks are processed. */
  function EmbeddedIds(env: Env, rem: seq<ChunkRecord>, n: nat): set<string>
    requires n <= |rem|
  {
    if n == 0 then {}
    else EmbeddedIds(env, rem, n - 1) + (if PointFor(env, rem[n - 1], n - 1).Some? then {rem[n - 1].chunkId} else {})
  }

  /**
   * An id is recorded exactly when a point carrying it is built, and every built
   * point is the point of one of the chunks processed so far.
   */
  lemma {:induction false} BuiltAndRecorded(env: Env, rem: seq<ChunkRecord>, n: nat)
    requires n <= |rem|
    ensures forall x :: x in EmbeddedIds(env, rem, n) <==> exists p :: p in Built(env, rem, n) && "chunk_id" in p.payload && p.payload["chunk_id"] == x
    ensures forall p :: p in Built(env, rem, n) ==> exists i :: 0 <= i < n && PointFor(env, rem[i], i) == Some(p)
    ensures forall p :: p in Built(env, rem, n) ==>
      && p.payload.Keys == PayloadKeys
      && |p.vector| == EmbeddingDim
      && MinContentLength <= |p.payload["content"]| <= MaxContentLength
      && p.payload["domain"] == env.domain
  {
    if n > 0 {
      BuiltAndRecorded(env, rem, n - 1);
      var q := PointFor(env, rem[n - 1], n - 1);
      if q.Some? {
        assert q.value in Built(env, rem, n);
      }
    }
  }

  // ------------------------------------------------------------------
  // Batches
  // ------------------------------------------------------------------

  /** The upserts of `points` made 50 at a time, the last batch holding what is left. */
  function Batches(points: seq<PointStruct>): seq<seq<PointStruct>>
    decreases |points|
  {
    if points == [] then []
    else if |points| <= BatchSize then [points]
    else [points[..BatchSize]] + Batches(points[BatchSize..])
  }

  function Flatten(batches: seq<seq<PointStruct>>): seq<PointStruct> {
    if batches == [] then [] else batches[0] + Flatten(batches[1..])
  }

  /** Adding a batch of at most 50 after whole batches adds exactly one upsert. */
  lemma {:induction false} BatchesAppend(p: seq<PointStruct>, q: seq<PointStruct>)
    requires |p| % BatchSize == 0 && 0 < |q| <= BatchSize
    ensures Batches(p + q) == Batches(p) + [q]
    decreases |p|
  {
    if p == [] {
      assert p + q == q;
    } else {
      assert (p + q)[..BatchSize] == p[..BatchSize];
      assert (p + q)[BatchSize..] == p[BatchSize..] + q;
      BatchesAppend(p[BatchSize..], q);
      assert Batches(p + q) == [p[..BatchSize]] + Batches(p[BatchSize..] + q);
      if |p| == BatchSize {
        assert p[BatchSize..] == [] && p[..BatchSize] == p;
      }
    }
  }

  /** Every point is upserted once, in order; every batch but the last holds exactly 50 points. */
  lemma {:induction false} BatchesFacts(points: seq<PointStruct>)
    ensures Flatten(Batches(points)) == points
    ensures forall i :: 0 <= i < |Batches(points)| - 1 ==> |Batches(points)[i]| == BatchSize
    ensures forall i :: 0 <= i < |Batches(points)| ==> 0 < |Batches(points)[i]| <= BatchSize
    ensures |Batches(points)| == (|points| + BatchSize - 1) / BatchSize
    decreases |points|
  {
    if |points| > BatchSize {
      BatchesFacts(points[BatchSize..]);
      var b := Batches(points);
      assert b[1..] == Batches(points[BatchSize..]);
      assert points == points[..BatchSize] + points[BatchSize..];
    }
  }

  // ------------------------------------------------------------------
  // embed_chunks
  // ------------------------------------------------------------------

  /** The Qdrant collection, seen as the sequence of `upsert` calls it received. */
  class VectorStore {
    var upserts: seq<seq<PointStruct>>

    constructor ()
      ensures upserts == []
    {
      upserts := [];
    }

    method Upsert(points: seq<PointStruct>)
      modifies this
      ensures upserts == old(upserts) + [points]
    {
      upserts := upserts + [points];
    }
  }

  /** One flush: upsert the batch, store the running total in the checkpoint, and save it. */
  method Flush(store: VectorStore, cp: Checkpoint, file: CheckpointFile, batch: seq<PointStruct>, total: nat)
    modifies store, cp`totalEmbedded, file
    ensures store.upserts == old(store.upserts) + [batch]
    ensures cp.totalEmbedded == Some(total)
    ensures Loaded(file.content) == Snapshot(cp.embeddedIds, Some(total))
  {
    store.Upsert(batch);
    cp.totalEmbedded := Some(total);
    SaveCheckpoint(cp, file);
  }

  /** The body of the loop up to the batch: skip, truncate, embed with retries, build the point. */
  method BuildPoint(env: Env, chunk: ChunkRecord, idx: nat) returns (point: Option<PointStruct>)
    ensures point == PointFor(env, chunk, idx)
  {
    var content := chunk.content;
    if |content| < MinContentLength {
      return None;
    }
    if |content| > MaxContentLength {
      content := content[..MaxContentLength];
    }
    var embedding, _ := EmbedWithRetry(Attempts(env.api, idx));
    if embedding.None? {
      return None;
    }
    return Some(PointStruct(PointId(env.md5, chunk.chunkId), embedding.value, PayloadOf(chunk, env.domain, content)));
  }

  /** What the stores held when `embed_chunks` started. */
  datatype Start = Start(upserts: seq<seq<PointStruct>>, totalEmbedded: Option<nat>, file: Option<SavedCheckpoint>)

  /**
   * The batching state after the points `pts` were built: the first `flushed` of
   * them (a multiple of 50) are upserted batch by batch, the rest wait in `batch`;
   * the total and the file change only at a flush, and the file holds the id set
   * of the last flush, `savedIds`.
   */
  ghost predicate Progress(store: VectorStore, cp: Checkpoint, file: CheckpointFile, start: Start,
                           pts: seq<PointStruct>, batch: seq<PointStruct>, flushed: nat, savedIds: set<string>)
    reads store, cp, file
  {
    && |pts| == flushed + |batch| && flushed % BatchSize == 0 && |batch| < BatchSize
    && batch == pts[flushed..]
    && store.upserts == start.upserts + Batches(pts[..flushed])
    && (flushed == 0 ==> cp.totalEmbedded == start.totalEmbedded && file.content == start.file)
    && (flushed > 0 ==>
          && cp.totalEmbedded == Some(start.totalEmbedded.GetOr(0) + flushed)
          && Loaded(file.content) == Snapshot(savedIds, cp.totalEmbedded))
    && (flushed > 0 && batch == [] ==> savedIds == cp.embeddedIds)
  }

  /** Adding a built point: record its id, append it to the batch, and flush a full batch. */
  method Push(store: VectorStore, cp: Checkpoint, file: CheckpointFile, ghost start: Start,
              ghost pts: seq<PointStruct>, batch: seq<PointStruct>, ghost flushed: nat, ghost savedIds: set<string>,
              point: PointStruct, chunkId: string, total: nat)
    returns (batch': seq<PointStruct>, ghost flushed': nat, ghost savedIds': set<string>)
    requires Progress(store, cp, file, start, pts, batch, flushed, savedIds)
    requires total == start.totalEmbedded.GetOr(0) + |pts| + 1
    modifies store, cp, file
    ensures Progress(store, cp, file, start, pts + [point], batch', flushed', savedIds')
    ensures cp.embeddedIds == old(cp.embeddedIds) + {chunkId}
  {
    cp.embeddedIds := cp.embeddedIds + {chunkId};
    batch' := batch + [point];
    flushed', savedIds' := flushed, savedIds;
    assert (pts + [point])[..flushed] == pts[..flushed];
    if |batch'| >= BatchSize {
      assert pts[..flushed] + batch' == (pts + [point])[..flushed + BatchSize];
      BatchesAppend(pts[..flushed], batch');
      Flush(store, cp, file, batch', total);
      assert store.upserts == start.upserts + (Batches(pts[..flushed]) + [batch']);
      flushed' := flushed + BatchSize;
      savedIds' := cp.embeddedIds;
      batch' := [];
    }
  }

  /** After the loop: the partial batch, if any, is flushed. */
  method FinalFlush(store: VectorStore, cp: Checkpoint, file: CheckpointFile, ghost start: Start,
                    ghost pts: seq<PointStruct>, batch: seq<PointStruct>, ghost flushed: nat, ghost savedIds: set<string>,
                    total: nat)
    requires Progress(store, cp, file, start, pts, batch, flushed, savedIds)
    requires total == start.totalEmbedded.GetOr(0) + |pts|
    modifies store, cp`totalEmbedded, file
    ensures store.upserts == start.upserts + Batches(pts)
    ensures pts == [] ==> cp.totalEmbedded == start.totalEmbedded && file.content == start.file
    ensures pts != [] ==> cp.totalEmbedded == Some(total) && Loaded(file.content) == Snapshot(cp.embeddedIds, cp.totalEmbedded)
  {
    if batch != [] {
      assert pts[..flushed] + batch == pts;
      BatchesAppend(pts[..flushed], batch);
      Flush(store, cp, file, batch, total);
    } else {
      assert pts[..flushed] == pts;
    }
  }

  /** The loop of `embed_chunks` over a non-empty `remaining`, then the final flush. */
  method EmbedAll(remaining: seq<ChunkRecord>, store: VectorStore, cp: Checkpoint, file: CheckpointFile, env: Env)
    modifies store, cp, file
    ensures store.upserts == old(store.upserts) + Batches(Built(env, remaining, |remaining|))
    ensures cp.embeddedIds == old(cp.embeddedIds) + EmbeddedIds(env, remaining, |remaining|)
    ensures Built(env, remaining, |remaining|) == [] ==>
      cp.totalEmbedded == old(cp.totalEmbedded) && file.content == old(file.content)
    ensures Built(env, remaining, |remaining|) != [] ==>
      && cp.totalEmbedded == Some(old(cp.totalEmbedded).GetOr(0) + |Built(env, remaining, |remaining|)|)
      && Loaded(file.content) == Snapshot(cp.embeddedIds, cp.totalEmbedded)
  {
    ghost var start := Start(store.upserts, cp.totalEmbedded, file.content);
    var total := cp.totalEmbedded.GetOr(0);
    ghost var ids0 := cp.embeddedIds;
    ghost var flushed := 0;
    ghost var savedIds := cp.embeddedIds;
    var batch: seq<PointStruct> := [];
    for idx := 0 to |remaining|
      invariant Progress(store, cp, file, start, Built(env, remaining, idx), batch, flushed, savedIds)
      invariant cp.embeddedIds == ids0 + EmbeddedIds(env, remaining, idx)
      invariant total == start.totalEmbedded.GetOr(0) + |Built(env, remaining, idx)|
    {
      var chunk := remaining[idx];
      var point := BuildPoint(env, chunk, idx);
      if point.Some? {
        assert Built(env, remaining, idx + 1) == Built(env, remaining, idx) + [point.value];
        total := total + 1;
        batch, flushed, savedIds :=
          Push(store, cp, file, start, Built(env, remaining, idx), batch, flushed, savedIds, point.value, chunk.chunkId, total);
      } else {
        assert Built(env, remaining, idx + 1) == Built(env, remaining, idx);
      }
    }
    FinalFlush(store, cp, file, start, Built(env, remaining, |remaining|), batch, flushed, savedIds, total);
  }

  /**
   * `embed_chunks`: every remaining chunk with enough content is embedded; the
   * points built are upserted 50 at a time, the last batch flushed at the end;
   * each id is added to the checkpoint's set as its point is built (the set is
   * shared with the checkpoint), the total only at a flush, and the file after
   * the run holds the final set and total. Nothing changes when nothing is built.
   */
  method EmbedChunks(chunks: seq<ChunkRecord>, store: VectorStore, cp: Checkpoint, file: CheckpointFile, env: Env)
    modifies store, cp, file
    ensures var rem := Remaining(chunks, old(cp.embeddedIds));
      && store.upserts == old(store.upserts) + Batches(Built(env, rem, |rem|))
      && cp.embeddedIds == old(cp.embeddedIds) + EmbeddedIds(env, rem, |rem|)
    ensures var rem := Remaining(chunks, old(cp.embeddedIds));
      Built(env, rem, |rem|) == [] ==> cp.totalEmbedded == old(cp.totalEmbedded) && file.content == old(file.content)
    ensures var rem := Remaining(chunks, old(cp.embeddedIds)); var built := Built(env, rem, |rem|);
      built != [] ==>
        && cp.totalEmbedded == Some(old(cp.totalEmbedded).GetOr(0) + |built|)
        && Loaded(file.content) == Snapshot(cp.embeddedIds, cp.totalEmbedded)
  {
    var remaining := Remaining(chunks, cp.embeddedIds);
    if remaining == [] {
      return;
    }
    EmbedAll(remaining, store, cp, file, env);
  }

  /** Every recorded id is the id of a processed chunk with at least 20 characters of content. */
  lemma {:induction false} RecordedChunksHadContent(env: Env, rem: seq<ChunkRecord>, n: nat)
    requires n <= |rem|
    ensures forall x :: x in EmbeddedIds(env, rem, n) ==>
      exists i :: 0 <= i < n && rem[i].chunkId == x && |rem[i].content| >= MinContentLength
  {
    if n > 0 {
      RecordedChunksHadContent(env, rem, n - 1);
    }
  }

  /** A chunk already in the checkpoint, or with less than 20 characters of content, never becomes a point. */
  lemma SkippedChunksNeverEmbedded(env: Env, chunks: seq<ChunkRecord>, ids: set<string>, x: string)
    requires forall c :: c in chunks && c.chunkId == x ==> x in ids || |c.content| < MinContentLength
    ensures var rem := Remaining(chunks, ids); x !in EmbeddedIds(env, rem, |rem|)
  {
    var rem := Remaining(chunks, ids);
    RecordedChunksHadContent(env, rem, |rem|);
    assert forall i :: 0 <= i < |rem| ==> rem[i] in chunks && rem[i].chunkId !in ids;
  }

  /**
   * A failed embedding call is not a skip: the client masks it as 1024 zeros,
   * which has the expected length, so a zero vector is stored for the chunk.
   */
  lemma FailedCallStoresZeros(env: Env, c: ChunkRecord, idx: nat)
    requires |c.content| >= MinContentLength && env.api(idx, 0).Failed?
    ensures PointFor(env, c, idx).Some? && PointFor(env, c, idx).value.vector == Zeros(EmbeddingDim)
  {
    RetryStopsAtFirstAnswer(Attempts(env.api, idx), 0, 0);
  }
}

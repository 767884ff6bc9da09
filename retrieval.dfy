/**
 * Per-query vector search (`search_multi_query` in src/agent/modules/rag/solver.py):
 * each query is embedded, Qdrant is asked for up to 10 points scoring at least 0.3,
 * and every hit is tagged with the query that found it.
 */
module Retrieval {
  import opened Wrappers
  import opened Client

  const TopKPerQuery: nat := 10
  const FinalTopK: nat := 5
  const MinScoreThreshold: real := 0.3

  /** A point's payload: the chunk's text fields, keyed by name. */
  type Payload = map<string, string>

  /** A Qdrant `ScoredPoint`: id, similarity score and payload. */
  datatype Point = Point(id: nat, score: real, payload: Payload)

  /** A point together with the query that retrieved it. */
  datatype Hit = Hit(point: Point, query: string)

  /**
   * The services a search talks to: whether a Qdrant client could be created, the
   * raw embedding call, and Qdrant's `query_points` given a vector, a limit and a
   * score threshold (which Qdrant itself applies).
   */
  datatype Backend = Backend(
    connected: bool,
    embed: string -> Outcome<seq<real>>,
    search: (seq<real>, nat, real) -> Outcome<seq<Point>>)

  /**
   * Qdrant keeps its side of `query_points`: an answer to a search with limit `k`
   * and score threshold `t` holds at most `k` points, each scoring at least `t`.
   * The model does not assume this of every backend; the lemmas that need it say so.
   */
  ghost predicate Honours(b: Backend) {
    forall v, k, t :: b.search(v, k, t).Ok? ==>
      |b.search(v, k, t).value| <= k && forall p :: p in b.search(v, k, t).value ==> p.score >= t
  }

  function Tag(points: seq<Point>, query: string): (hits: seq<Hit>)
    ensures |hits| == |points| && forall i :: 0 <= i < |points| ==> hits[i] == Hit(points[i], query)
  {
    seq(|points|, i requires 0 <= i < |points| => Hit(points[i], query))
  }

  /**
   * The hits one query contributes. Every exception inside the per-query `try`,
   * the embedder's `RateLimitException` included, skips the query; so does an empty
   * vector. A failed embedding call is masked to 1024 zeros, which is not empty,
   * so it is still searched.
   */
  function QueryHits(b: Backend, query: string): seq<Hit>
  {
    var vector := EmbeddingReply(b.embed(query));
    if vector.RateLimited? || vector.value == [] then []
    else
      match b.search(vector.value, TopKPerQuery, MinScoreThreshold)
      case Ok(points) => Tag(points, query)
      case _ => []
  }

  /** The hits of `queries` in query order, each query's hits in Qdrant's order. */
  function Collected(b: Backend, queries: seq<string>): seq<Hit>
    decreases |queries|
  {
    if queries == [] then []
    else Collected(b, queries[..|queries| - 1]) + QueryHits(b, queries[|queries| - 1])
  }

  /** `search_multi_query`: nothing without a Qdrant client, else every query's hits in order. */
  method SearchMultiQuery(b: Backend, queries: seq<string>) returns (all: seq<Hit>)
    ensures !b.connected ==> all == []
    ensures b.connected ==> all == Collected(b, queries)
    ensures Honours(b) ==> |all| <= TopKPerQuery * |queries|
    ensures Honours(b) ==> forall h :: h in all ==> h.point.score >= MinScoreThreshold
  {
    if Honours(b) {
      CollectedHonours(b, queries);
    }
    if !b.connected {
      return [];
    }
    all := [];
    var i := 0;
    while i < |queries|
      invariant 0 <= i <= |queries|
      invariant all == Collected(b, queries[..i])
    {
      assert queries[..i + 1][..i] == queries[..i];
      all := all + QueryHits(b, queries[i]);
      i := i + 1;
    }
    assert queries[..|queries|] == queries;
  }

  /** Every collected hit is tagged with one of the queries, and its point came back from that query's search. */
  lemma {:induction false} HitsComeFromTheirQuery(b: Backend, queries: seq<string>, k: nat)
    requires k < |Collected(b, queries)|
    ensures var h := Collected(b, queries)[k];
      && h.query in queries
      && h in QueryHits(b, h.query)
    decreases |queries|
  {
    var n := |queries| - 1;
    var front := Collected(b, queries[..n]);
    if k < |front| {
      HitsComeFromTheirQuery(b, queries[..n], k);
      assert Collected(b, queries)[k] == front[k];
    } else {
      var h := Collected(b, queries)[k];
      assert h == QueryHits(b, queries[n])[k - |front|];
      var v := EmbeddingReply(b.embed(queries[n]));
      match b.search(v.value, TopKPerQuery, MinScoreThreshold)
      case Ok(points) => assert h.query == queries[n];
      case _ =>
    }
  }

  /**
   * Against a backend that honours the search parameters, one query contributes
   * at most 10 hits, each tagged with it and scoring at least 0.3.
   */
  lemma QueryHitsHonour(b: Backend, query: string)
    requires Honours(b)
    ensures |QueryHits(b, query)| <= TopKPerQuery
    ensures forall h :: h in QueryHits(b, query) ==> h.query == query && h.point.score >= MinScoreThreshold
  {
    var vector := EmbeddingReply(b.embed(query));
    if !(vector.RateLimited? || vector.value == []) {
      var found := b.search(vector.value, TopKPerQuery, MinScoreThreshold);
      if found.Ok? {
        var hits := Tag(found.value, query);
        forall h | h in hits ensures h.query == query && h.point.score >= MinScoreThreshold {
          var i :| 0 <= i < |hits| && hits[i] == h;
          assert found.value[i] in found.value;
        }
      }
    }
  }

  /** So the hits of `queries` number at most 10 per query, and every one scores at least 0.3. */
  lemma {:induction false} CollectedHonours(b: Backend, queries: seq<string>)
    requires Honours(b)
    ensures |Collected(b, queries)| <= TopKPerQuery * |queries|
    ensures forall h :: h in Collected(b, queries) ==> h.point.score >= MinScoreThreshold
    decreases |queries|
  {
    if queries != [] {
      var n := |queries| - 1;
      CollectedHonours(b, queries[..n]);
      QueryHitsHonour(b, queries[n]);
    }
  }

  /** A rate-limited embedding call does not escape the search: that query just contributes nothing. */
  lemma RateLimitedQueryContributesNothing(b: Backend, query: string)
    requires b.embed(query).RateLimited?
    ensures QueryHits(b, query) == []
  {
  }

  /** A failed embedding call is not skipped: Qdrant is searched with the zero vector. */
  lemma FailedEmbeddingStillSearches(b: Backend, query: string)
    requires b.embed(query).Failed?
    ensures QueryHits(b, query) ==
      match b.search(Zeros(EmbeddingDim), TopKPerQuery, MinScoreThreshold)
      case Ok(points) => Tag(points, query)
      case _ => []
  {
    assert |Zeros(EmbeddingDim)| == EmbeddingDim;
  }
}

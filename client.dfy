/**
 * The HTTP client every solver and the embedder go through (src/client.py).
 * One call to the API is an `Exchange`: either the server answered with a
 * status and (when the JSON had the expected shape) a body, or the request
 * never completed. `Call` classifies it; the chat and embedding methods then
 * mask every failure other than a rate limit.
 */
module Client {
  import opened Wrappers
  import opened Text

  /** What a call produces: a value, a `RateLimitException`, or any other exception. */
  datatype Outcome<T> = Ok(value: T) | RateLimited(msg: string) | Failed(msg: string)

  /** One round trip: `Response` when the server answered, `Unreachable` on a connection error or timeout. */
  datatype Exchange<T> = Response(status: nat, body: Option<T>) | Unreachable

  /** HTTP 429 (rate limit) and 401 (quota exceeded) are reported as rate limits. */
  predicate IsQuotaStatus(status: nat) {
    status == 429 || status == 401
  }

  /** `raise_for_status` raises for every 4xx and 5xx status. */
  predicate IsHttpError(status: nat) {
    400 <= status < 600
  }

  function RateLimitMessage(methodName: string, status: nat): string {
    "[" + methodName + "] Rate Limit/Quota exceeded: HTTP " + NatToString(status)
  }

  /**
   * `_check_rate_limit` followed by reading the body: a quota status raises
   * `RateLimitException`, any other error status, a missing body or an
   * unreachable server raises some other exception.
   */
  function Call<T>(methodName: string, ex: Exchange<T>): (r: Outcome<T>)
    ensures r.RateLimited? <==> ex.Response? && IsQuotaStatus(ex.status)
    ensures r.RateLimited? ==> r.msg == RateLimitMessage(methodName, ex.status)
    ensures r.Ok? <==> ex.Response? && !IsHttpError(ex.status) && ex.body.Some?
    ensures r.Ok? ==> r.value == ex.body.value
  {
    match ex
    case Unreachable => Failed("connection error")
    case Response(status, body) =>
      if IsQuotaStatus(status) then RateLimited(RateLimitMessage(methodName, status))
      else if IsHttpError(status) then Failed("HTTP " + NatToString(status))
      else if body.None? then Failed("unexpected response body")
      else Ok(body.value)
  }

  /**
   * The chat methods (`classify_router`, `generate_math_code`, `select_math_answer`,
   * `generate_rag_answer`, `generate_reading_answer`): a rate limit is re-raised,
   * every other failure is swallowed and the reply is `""`.
   */
  function ChatReply(o: Outcome<string>): (r: Outcome<string>)
    ensures !r.Failed?
    ensures r.RateLimited? <==> o.RateLimited?
    ensures o.RateLimited? ==> r == o
    ensures o.Ok? ==> r == o
    ensures o.Failed? ==> r == Ok("")
  {
    if o.Failed? then Ok("") else o
  }

  const EmbeddingDim: nat := 1024

  function Zeros(n: nat): (r: seq<real>)
    ensures |r| == n && forall i :: 0 <= i < n ==> r[i] == 0.0
  {
    seq(n, _ => 0.0)
  }

  /** `get_embedding`: a rate limit is re-raised, every other failure yields 1024 zeros. */
  function EmbeddingReply(o: Outcome<seq<real>>): (r: Outcome<seq<real>>)
    ensures !r.Failed?
    ensures r.RateLimited? <==> o.RateLimited?
    ensures o.RateLimited? ==> r == o
    ensures o.Ok? ==> r == o
    ensures o.Failed? ==> r == Ok(Zeros(EmbeddingDim))
  {
    if o.Failed? then Ok(Zeros(EmbeddingDim)) else o
  }

  /** Masking is idempotent, and a masked embedding failure is a full-length vector, never an empty one. */
  lemma MaskingIdempotent(o: Outcome<string>, e: Outcome<seq<real>>)
    ensures ChatReply(ChatReply(o)) == ChatReply(o)
    ensures EmbeddingReply(EmbeddingReply(e)) == EmbeddingReply(e)
    ensures e.Failed? ==> |EmbeddingReply(e).value| == EmbeddingDim
  {
  }

  /** A server error never reaches a solver as an exception: the masked reply is `""`. */
  lemma ServerErrorGivesEmptyReply(methodName: string, status: nat, body: Option<string>)
    requires IsHttpError(status) && !IsQuotaStatus(status)
    ensures ChatReply(Call(methodName, Response(status, body))) == Ok("")
  {
  }
}

/**
 * The retrieval solver (`advanced_rag_search` and `rag_solver_node` in
 * src/agent/modules/rag/solver.py): one search query made of the question and
 * its choices, Reciprocal Rank Fusion, the five best points formatted as
 * context, then one model call whose reply gives the letter.
 */
module RagSolver {
  import opened Wrappers
  import opened Text
  import opened Client
  import opened State
  import opened Answers
  import opened Retrieval
  import opened Fusion
  import opened Context

  const RagPrefix: string := "RAG: "
  const RagSuffix: string := " chars context"
  const ErrorPrefix: string := "Error: "
  const StoredContext: nat := 500

  /** The single search query: the question, a newline, and the choices one per line. */
  function RagQuery(question: string, choices: seq<string>): string {
    question + "\n" + Join("\n", choices)
  }

  /** The hits `search_multi_query([query])` collects: none without a Qdrant client. */
  function SearchHits(b: Backend, question: string, choices: seq<string>): seq<Hit> {
    if b.connected then Collected(b, [RagQuery(question, choices)]) else []
  }

  /** The five best fused points, in fused order. */
  function TopPoints(hits: seq<Hit>): seq<Point> {
    Take(Fuse(hits), FinalTopK)
  }

  /** The context `advanced_rag_search` returns: `""` without hits, else the formatted top points. */
  function SearchContext(b: Backend, question: string, choices: seq<string>): string {
    var hits := SearchHits(b, question, choices);
    if hits == [] then "" else Join(BlockSeparator, Texts(Blocks(TopPoints(hits))))
  }

  /** `advanced_rag_search`: search, fuse, keep the first five, format. */
  method AdvancedRagSearch(b: Backend, question: string, choices: seq<string>) returns (context: string)
    ensures context == SearchContext(b, question, choices)
  {
    var query := question + "\n" + Join("\n", choices);
    var all := SearchMultiQuery(b, [query]);
    if all == [] {
      return "";
    }
    var fused := ReciprocalRankFusion(all);
    var finalResults := Take(fused, FinalTopK);
    context := FormatContext(finalResults);
  }

  /** With one query, the collected hits are that query's hits. */
  lemma SingleQuery(b: Backend, q: string)
    ensures Collected(b, [q]) == QueryHits(b, q)
  {
    assert [q][..0] == [];
  }

  /**
   * The top points are at most five distinct retrieved points, in non-increasing
   * RRF score, and no retrieved point left out scores higher than any of them.
   */
  lemma {:induction false} TopPointsFacts(hits: seq<Hit>)
    ensures |TopPoints(hits)| <= FinalTopK
    ensures Distinct(PointIds(TopPoints(hits)))
    ensures forall k :: 0 <= k < |TopPoints(hits)| ==> Retrieved(hits, TopPoints(hits)[k].id)
    ensures forall i, j :: 0 <= i < j < |TopPoints(hits)| ==>
      RrfScore(hits, TopPoints(hits)[i].id) >= RrfScore(hits, TopPoints(hits)[j].id)
    ensures forall id, k :: Retrieved(hits, id) && !Lists(TopPoints(hits), id) && 0 <= k < |TopPoints(hits)| ==>
      RrfScore(hits, id) <= RrfScore(hits, TopPoints(hits)[k].id)
    ensures |Fuse(hits)| >= FinalTopK ==> |TopPoints(hits)| == FinalTopK
  {
    var f := Fuse(hits);
    var top := TopPoints(hits);
    FusionListsEachHitOnce(hits);
    FusionOrdersByRrf(hits);
    PrefixIds(f, |top|);
    forall k | 0 <= k < |top| ensures Retrieved(hits, top[k].id) {
      assert top[k] == f[k];
      assert Lists(f, f[k].id);
    }
    forall j | 0 <= j < |top| ensures Lists(top, f[j].id) {
      assert top[j] == f[j];
    }
    forall j, k | |top| <= j < |f| && 0 <= k < |top|
      ensures RrfScore(hits, f[j].id) <= RrfScore(hits, top[k].id)
    {
      assert top[k] == f[k];
    }
  }

  /** The ids of a prefix are a prefix of the ids, and stay distinct. */
  lemma PrefixIds(ps: seq<Point>, n: nat)
    requires n <= |ps| && Distinct(PointIds(ps))
    ensures Distinct(PointIds(ps[..n]))
  {
    assert forall k :: 0 <= k < n ==> PointIds(ps[..n])[k] == PointIds(ps)[k];
  }

  /**
   * What the search hands the model: `""` exactly when nothing was retrieved
   * (no Qdrant client, or the one query yielded no hits); otherwise the blocks
   * of the top points, joined by the separator.
   */
  lemma SearchContextFacts(b: Backend, question: string, choices: seq<string>)
    ensures !b.connected ==> SearchContext(b, question, choices) == ""
    ensures b.connected ==> SearchHits(b, question, choices) == QueryHits(b, RagQuery(question, choices))
    ensures SearchHits(b, question, choices) == [] ==> SearchContext(b, question, choices) == ""
    ensures SearchHits(b, question, choices) != [] ==>
      SearchContext(b, question, choices) == Join(BlockSeparator, Texts(Blocks(TopPoints(SearchHits(b, question, choices)))))
  {
    SingleQuery(b, RagQuery(question, choices));
  }

  /**
   * Against a backend that honours the search parameters, the one query yields at
   * most 10 hits, and every point that reaches the context scores at least 0.3.
   */
  lemma ContextPointsPassThreshold(b: Backend, question: string, choices: seq<string>)
    requires Honours(b)
    ensures |SearchHits(b, question, choices)| <= TopKPerQuery
    ensures forall k :: 0 <= k < |TopPoints(SearchHits(b, question, choices))| ==>
      TopPoints(SearchHits(b, question, choices))[k].score >= MinScoreThreshold
  {
    var hits := SearchHits(b, question, choices);
    if b.connected {
      CollectedHonours(b, [RagQuery(question, choices)]);
    }
    forall k | 0 <= k < |TopPoints(hits)| ensures TopPoints(hits)[k].score >= MinScoreThreshold {
      assert TopPoints(hits)[k] == Fuse(hits)[k];
      FusedPointsAreHitPoints(hits, k);
      var i :| 0 <= i < |hits| && hits[i].point == Fuse(hits)[k];
      assert hits[i] in hits;
    }
  }

  /** A rate-limited embedding of the query leaves the model with no context at all. */
  lemma RateLimitedEmbeddingGivesNoContext(b: Backend, question: string, choices: seq<string>)
    requires b.embed(RagQuery(question, choices)).RateLimited?
    ensures SearchContext(b, question, choices) == ""
  {
    SearchContextFacts(b, question, choices);
    RateLimitedQueryContributesNothing(b, RagQuery(question, choices));
  }

  /**
   * What `rag_solver_node` does given the context and its one model call. Every
   * exception is caught, the rate limit included: then the answer is `A`, the
   * reasoning quotes the first 100 characters of the message, and `context` is not
   * written. Otherwise the answer is the first standalone capital of the
   * stripped, upper-cased reply (else `A`) and at most 500 characters of the
   * context are stored.
   */
  function RagStep(context: string, call: Outcome<string>): (step: Step)
  {
    var reply := ChatReply(call);
    if reply.RateLimited? then Wrote("A", ErrorPrefix + Take(reply.msg, 100), None)
    else
      Wrote(LetterOr(StandaloneCapital(Upper(Strip(reply.value))), 'A'),
            RagPrefix + NatToString(|context|) + RagSuffix,
            Some(Take(context, StoredContext)))
  }

  /** No rate limit escapes the retrieval solver, and its answer is always one capital letter. */
  lemma RagAnswer(context: string, call: Outcome<string>)
    ensures var step := RagStep(context, call);
      && step.Wrote?
      && |step.answer| == 1 && IsCapital(step.answer[0])
      && (call.RateLimited? <==> step.context.None?)
      && (call.RateLimited? ==>
            step.answer == "A" && StartsWith(step.reasoning, ErrorPrefix)
            && |step.reasoning| == |ErrorPrefix| + (if |call.msg| <= 100 then |call.msg| else 100)
            && StartsWith(call.msg, step.reasoning[|ErrorPrefix|..]))
      && (!call.RateLimited? ==>
            var u := Upper(Strip(ChatReply(call).value));
            && (forall i :: StandaloneAt(u, i) && (forall j :: 0 <= j < i ==> !StandaloneAt(u, j)) ==> step.answer == [u[i]])
            && ((forall i :: !StandaloneAt(u, i)) ==> step.answer == "A")
            && StartsWith(context, step.context.value)
            && |step.context.value| == if |context| <= StoredContext then |context| else StoredContext)
  {
  }

  /** The reasoning of a successful answer records the context's length in decimal, and it can be read back. */
  lemma RagReasoningRecordsLength(context: string, call: Outcome<string>)
    requires !call.RateLimited?
    ensures var r := RagStep(context, call).reasoning;
      && |r| > |RagPrefix| + |RagSuffix|
      && StartsWith(r, RagPrefix)
      && r[|r| - |RagSuffix|..] == RagSuffix
      && var digits := r[|RagPrefix|..|r| - |RagSuffix|];
        && (forall i :: 0 <= i < |digits| ==> IsDigit(digits[i]))
        && DigitsValue(digits) == |context|
  {
    var digits := NatToString(|context|);
    DigitsValueOfNatToString(|context|);
    var r := RagPrefix + digits + RagSuffix;
    assert RagStep(context, call).reasoning == r;
    assert r[|RagPrefix|..|r| - |RagSuffix|] == digits;
    assert r[|r| - |RagSuffix|..] == RagSuffix;
  }

  /** A lower-case letter in the reply is read as its capital. */
  lemma LowerCaseReply()
    ensures RagStep("", Ok("c")).answer == "C"
  {
    StripUnpadded("c");
    assert Upper("c") == "C" by {
      assert UpperChar('c') == 'C';
    }
    assert StandaloneAt("C", 0);
  }

  /**
   * `rag_solver_node`: retrieval, then one model call on a prompt holding the
   * context. It always returns; `context` is written only when the call did not
   * raise.
   */
  method RagSolverNode(st: AgentState, b: Backend, answerCall: string -> Outcome<string>) returns (exit: Exit)
    modifies st`answer, st`reasoning, st`context
    ensures exit == Returned
    ensures var ctx := SearchContext(b, old(st.question), old(st.choices));
      var step := RagStep(ctx, answerCall(ctx));
      && st.answer == step.answer && st.reasoning == step.reasoning
      && st.context == step.context.GetOr(old(st.context))
  {
    var context := AdvancedRagSearch(b, st.question, st.choices);
    var reply := ChatReply(answerCall(context));
    if reply.RateLimited? {
      st.answer := "A";
      st.reasoning := ErrorPrefix + Take(reply.msg, 100);
      return Returned;
    }
    st.answer := LetterOr(StandaloneCapital(Upper(Strip(reply.value))), 'A');
    st.reasoning := RagPrefix + NatToString(|context|) + RagSuffix;
    st.context := if context != "" then Take(context, StoredContext) else "";
    return Returned;
  }
}

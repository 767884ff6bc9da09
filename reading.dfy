/** The reading-comprehension solver (src/agent/modules/reading/solver.py): one model call, no retrieval. */
module ReadingSolver {
  import opened Wrappers
  import opened Text
  import opened Client
  import opened State
  import opened Answers

  const ReadingPrefix: string := "Reading comprehension: "

  /** What `reading_solver_node` does given its one model call. */
  function ReadingStep(call: Outcome<string>): (step: Step)
  {
    var reply := ChatReply(call);
    if reply.RateLimited? then Escaped(reply.msg)
    else Wrote(LetterOr(LeadingCapital(reply.value), 'A'), ReadingPrefix + Take(reply.value, 50), None)
  }

  /**
   * The answer is the reply's first character when that is a capital, otherwise `A`;
   * the reasoning quotes exactly the first 50 characters of the reply (all of it when
   * shorter); a rate limit
   * escapes and nothing is written.
   */
  lemma ReadingAnswer(call: Outcome<string>)
    ensures ChatReply(call).RateLimited? <==> ReadingStep(call).Escaped?
    ensures var step := ReadingStep(call);
      step.Wrote? ==>
        var reply := ChatReply(call).value;
        && step.answer == (if reply != [] && IsCapital(reply[0]) then [reply[0]] else "A")
        && StartsWith(step.reasoning, ReadingPrefix)
        && |step.reasoning| == |ReadingPrefix| + (if |reply| <= 50 then |reply| else 50)
        && StartsWith(reply, step.reasoning[|ReadingPrefix|..])
        && step.context.None?
  {
  }

  /** A failed call (masked to `""`) answers `A`. */
  lemma FailedCallAnswersA(msg: string)
    ensures ReadingStep(Failed(msg)) == Wrote("A", ReadingPrefix, None)
  {
  }

  /** `reading_solver_node`: one generation call; only `answer` and `reasoning` are written. */
  method ReadingSolverNode(st: AgentState, call: Outcome<string>) returns (exit: Exit)
    modifies st`answer, st`reasoning
    ensures var step := ReadingStep(call);
      (step.Escaped? ==> exit == RateLimitRaised(step.msg) && st.answer == old(st.answer) && st.reasoning == old(st.reasoning))
      && (step.Wrote? ==> exit == Returned && st.answer == step.answer && st.reasoning == step.reasoning)
  {
    var reply := ChatReply(call);
    if reply.RateLimited? {
      return RateLimitRaised(reply.msg);
    }
    st.answer := LetterOr(LeadingCapital(reply.value), 'A');
    st.reasoning := ReadingPrefix + Take(reply.value, 50);
    return Returned;
  }
}

/** The record one question carries through the agent graph (src/agent/state.py). */
module State {
  import opened Wrappers

  /** `AgentState`: the nodes update its fields in place and hand the same object on. */
  class AgentState {
    var qid: string
    var question: string
    var choices: seq<string>
    var category: string
    var context: string
    var answer: string
    var reasoning: string

    /** The initial state the batch driver builds for one work item: every output field empty. */
    constructor (qid: string, question: string, choices: seq<string>)
      ensures this.qid == qid && this.question == question && this.choices == choices
      ensures category == "" && context == "" && answer == "" && reasoning == ""
    {
      this.qid := qid;
      this.question := question;
      this.choices := choices;
      category := "";
      context := "";
      answer := "";
      reasoning := "";
    }
  }

  /** How a node ends: it returns the state, or a `RateLimitException` escapes it. */
  datatype Exit = Returned | RateLimitRaised(msg: string)

  /**
   * What a solver writes, as a value: the new `answer` and `reasoning`, and the new
   * `context` when it writes one; or the rate limit that escaped it before it wrote anything.
   */
  datatype Step = Wrote(answer: string, reasoning: string, context: Option<string>) | Escaped(msg: string)
}

/**
 * The agent graph (src/agent/graph.py): entry at the router, a conditional
 * edge on `category` to exactly one solver, and an edge from every solver to
 * the end. `Invoke` is what one `app.invoke(state)` does with that wiring.
 */
module Graph {
  import opened Wrappers
  import opened Client
  import opened State
  import opened Router
  import opened MathSolver
  import opened ReadingSolver
  import opened ToxicChecker
  import opened RagSolver
  import opened Retrieval
  import opened Answers

  /** The graph's nodes: the router, the four solvers, and `END`. */
  datatype Node = Route | Math | Rag | Reading | Toxic | Finish

  predicate IsSolver(n: Node) {
    n == Math || n == Rag || n == Reading || n == Toxic
  }

  /** `set_entry_point("router")`. */
  const Entry: Node := Route

  /** The map of the conditional edge; a category outside it has no target. */
  function Target(category: string): (n: Option<Node>)
    ensures n.Some? <==> IsCategory(category)
    ensures n.Some? ==> IsSolver(n.value)
  {
    if category == "math" then Some(Math)
    else if category == "rag" then Some(Rag)
    else if category == "reading" then Some(Reading)
    else if category == "toxic" then Some(Toxic)
    else None
  }

  /** The edge taken out of `n` when the state's category is `category`. */
  function Next(n: Node, category: string): Option<Node> {
    match n
    case Route => Target(category)
    case Finish => None
    case _ => Some(Finish)
  }

  /** The nodes visited from `n`, following at most `fuel` edges. */
  function Walk(n: Node, category: string, fuel: nat): (path: seq<Node>)
    ensures path != [] && path[0] == n
    decreases fuel
  {
    if fuel == 0 then [n]
    else
      match Next(n, category)
      case None => [n]
      case Some(m) => [n] + Walk(m, category, fuel - 1)
  }

  /** Six nodes, so six edges are more than any path can use. */
  const NodeCount: nat := 6

  /** How many solvers a path visits. */
  function SolverCount(path: seq<Node>): nat
    decreases |path|
  {
    if path == [] then 0 else (if IsSolver(path[0]) then 1 else 0) + SolverCount(path[1..])
  }

  /**
   * For every category the router can produce, a run starts at the router,
   * visits exactly the solver that category names and then ends: one solver and
   * no other.
   */
  lemma {:induction false} ExactlyOneSolver(category: string)
    requires IsCategory(category)
    ensures var path := Walk(Entry, category, NodeCount);
      && |path| == 3
      && path[0] == Route && path[1] == Target(category).value && path[2] == Finish
      && SolverCount(path) == 1
  {
    var s := Target(category).value;
    assert Walk(Finish, category, NodeCount - 2) == [Finish];
    assert Walk(s, category, NodeCount - 1) == [s, Finish];
    var path := Walk(Entry, category, NodeCount);
    assert path == [Route, s, Finish];
    assert path[1..] == [s, Finish] && path[1..][1..] == [Finish] && path[1..][1..][1..] == [];
    assert SolverCount([Finish]) == 0;
    assert SolverCount([s, Finish]) == 1;
  }

  /** Each category goes to its own solver, so the dispatch is a bijection onto the solvers. */
  lemma DispatchIsBijective(c: string, d: string, n: Node)
    ensures IsCategory(c) && IsCategory(d) && Target(c) == Target(d) ==> c == d
    ensures IsSolver(n) ==> exists e :: IsCategory(e) && Target(e) == Some(n)
  {
    if n == Math { assert Target("math") == Some(Math); }
    if n == Rag { assert Target("rag") == Some(Rag); }
    if n == Reading { assert Target("reading") == Some(Reading); }
    if n == Toxic { assert Target("toxic") == Some(Toxic); }
  }

  /** Whatever the classifier replies, dispatch finds a solver: the routing never fails. */
  lemma RoutingNeverFails(reply: string)
    ensures Target(Classify(reply)).Some?
  {
  }

  /** The model calls and services one invocation can use. */
  datatype Services = Services(
    classify: Outcome<string>,
    mathCode: Outcome<string>,
    mathSelect: string -> Outcome<string>,
    backend: Backend,
    ragAnswer: string -> Outcome<string>,
    reading: Outcome<string>)

  /** What the solver for `category` leaves behind, given the state before it ran. */
  predicate SolverDid(category: string, sv: Services, exit: Exit,
                      question: string, choices: seq<string>, answer: string, reasoning: string, context: string,
                      answer': string, reasoning': string, context': string,
                      behaviour: (seq<string>, string) -> ReplRun, runs: seq<string>, runs': seq<string>)
  {
    if category == "math" then
      var step := MathStep(sv.mathCode, behaviour, runs, sv.mathSelect);
      && (step.Escaped? ==> exit == RateLimitRaised(step.msg) && answer' == answer && reasoning' == reasoning)
      && (step.Wrote? ==> exit == Returned && answer' == step.answer && reasoning' == step.reasoning)
      && context' == context
      && runs' == (if ChatReply(sv.mathCode).Ok? then runs + [CodeToRun(ChatReply(sv.mathCode).value)] else runs)
    else if category == "rag" then
      var ctx := SearchContext(sv.backend, question, choices);
      var step := RagStep(ctx, sv.ragAnswer(ctx));
      && exit == Returned
      && answer' == step.answer && reasoning' == step.reasoning
      && context' == step.context.GetOr(context)
      && runs' == runs
    else if category == "reading" then
      var step := ReadingStep(sv.reading);
      && (step.Escaped? ==> exit == RateLimitRaised(step.msg) && answer' == answer && reasoning' == reasoning)
      && (step.Wrote? ==> exit == Returned && answer' == step.answer && reasoning' == step.reasoning)
      && context' == context
      && runs' == runs
    else
      && exit == Returned
      && Verdict(answer', reasoning') == ToxicVerdict(choices)
      && context' == context
      && runs' == runs
  }

  /** The conditional edge: run the one solver `category` names. */
  method Dispatch(st: AgentState, sv: Services, repl: Repl) returns (exit: Exit)
    requires IsCategory(st.category)
    modifies st`answer, st`reasoning, st`context, repl
    ensures SolverDid(st.category, sv, exit, st.question, st.choices, old(st.answer), old(st.reasoning), old(st.context),
                      st.answer, st.reasoning, st.context, repl.behaviour, old(repl.runs), repl.runs)
  {
    if st.category == "math" {
      exit := MathSolverNode(st, sv.mathCode, repl, sv.mathSelect);
    } else if st.category == "rag" {
      exit := RagSolverNode(st, sv.backend, sv.ragAnswer);
    } else if st.category == "reading" {
      exit := ReadingSolverNode(st, sv.reading);
    } else {
      ToxicCheckerNode(st);
      exit := Returned;
    }
  }

  /**
   * `app.invoke(state)`: the router, then the one solver its category selects,
   * then the end. A rate limit escaping the router ends the run before any
   * solver; one escaping a solver ends it with that solver's exit. The REPL runs
   * only on the math path.
   */
  method Invoke(st: AgentState, sv: Services, repl: Repl) returns (exit: Exit)
    modifies st`category, st`answer, st`reasoning, st`context, repl
    ensures ChatReply(sv.classify).RateLimited? ==>
      exit == RateLimitRaised(sv.classify.msg)
      && st.category == old(st.category) && st.answer == old(st.answer)
      && st.reasoning == old(st.reasoning) && st.context == old(st.context) && repl.runs == old(repl.runs)
    ensures ChatReply(sv.classify).Ok? ==>
      && st.category == Classify(ChatReply(sv.classify).value)
      && SolverDid(st.category, sv, exit, st.question, st.choices, old(st.answer), old(st.reasoning), old(st.context),
                   st.answer, st.reasoning, st.context, repl.behaviour, old(repl.runs), repl.runs)
  {
    exit := RouterNode(st, sv.classify);
    if exit.RateLimitRaised? {
      return;
    }
    exit := Dispatch(st, sv, repl);
  }
}

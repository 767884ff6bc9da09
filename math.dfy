/**
 * The math solver (src/agent/modules/math/solver.py): the large model writes Python,
 * a Python REPL shared by the whole process runs it once, and the model then picks
 * a letter given the execution result.
 */
module MathSolver {
  import opened Wrappers
  import opened Text
  import opened Client
  import opened State
  import opened Answers

  const Fence: string := "```"

  /** Where the body of the fence opened at `open` starts: after the fence, an optional `python` (any case) and whitespace. */
  function BodyStart(text: string, open: nat): (e: nat)
    requires open + |Fence| <= |text|
    ensures open + |Fence| <= e <= |text|
  {
    var t := open + |Fence|;
    var afterTag := if t + 6 <= |text| && Lower(text[t..t + 6]) == "python" then t + 6 else t;
    |text| - |TrimStart(text[afterTag..])|
  }

  /**
   * `extract_code_block`: the stripped body of the first fenced block
   * (the regex ```` ```(?:python)?\s*([\s\S]*?)``` ```` under IGNORECASE), or the
   * whole text stripped when no fence is closed. Once the first fence has no
   * closing fence after it, no later fence has one either, so the leftmost match
   * is found by looking at the first fence only.
   */
  function ExtractCodeBlock(text: string): (code: string)
  {
    match IndexOf(text, Fence, 0)
    case None => Strip(text)
    case Some(open) =>
      var e := BodyStart(text, open);
      match IndexOf(text, Fence, e)
      case None => Strip(text)
      case Some(close) => Strip(text[e..close])
  }

  predicate NoBacktick(s: string) {
    forall i :: 0 <= i < |s| ==> s[i] != '`'
  }

  lemma NoFenceIn(s: string)
    requires NoBacktick(s)
    ensures IndexOf(s, Fence, 0) == None
  {
    forall j | 0 <= j < |s|
      ensures !MatchAt(s, Fence, j)
    {
      assert s[j] != Fence[0];
    }
  }

  /**
   * No fence starts inside `s` or runs over its end: in `s + "```"` the first
   * fence is the appended one. Single backticks, as in inline code, may occur.
   */
  predicate FenceFree(s: string) {
    IndexOf(s + Fence, Fence, 0) == Some(|s|)
  }

  /** `find` returns `at` when the pattern occurs there and nowhere from `from` up to `at`. */
  lemma IndexOfIs(s: string, pat: string, from: nat, at: nat)
    requires from <= at && MatchAt(s, pat, at)
    requires forall j :: from <= j < at ==> !MatchAt(s, pat, j)
    ensures IndexOf(s, pat, from) == Some(at)
  {
  }

  /** When `text` reads `body` and then a fence from `from` on, and `body` is fence-free, that fence is the first one from `from`. */
  lemma FirstFenceFrom(text: string, from: nat, body: string)
    requires from + |body| + |Fence| <= |text| && text[from..from + |body| + |Fence|] == body + Fence
    requires FenceFree(body)
    ensures IndexOf(text, Fence, from) == Some(from + |body|)
  {
    var w := body + Fence;
    var end := from + |w|;
    assert text[from + |body|..end] == w[|body|..] == Fence;
    forall j | from <= j < from + |body|
      ensures !MatchAt(text, Fence, j)
    {
      assert !MatchAt(w, Fence, j - from);
      assert text[j..j + |Fence|] == w[j - from..j - from + |Fence|];
    }
    IndexOfIs(text, Fence, from, from + |body|);
  }

  /** A suffix of a fence-free string is fence-free. */
  lemma FenceFreeSuffix(s: string, k: nat)
    requires FenceFree(s) && k <= |s|
    ensures FenceFree(s[k..])
  {
    var w := s + Fence;
    var v := s[k..] + Fence;
    assert v == w[k..];
    assert v[|s| - k..] == Fence;
    forall j | 0 <= j < |s| - k
      ensures !MatchAt(v, Fence, j)
    {
      assert !MatchAt(w, Fence, k + j);
      if j + |Fence| <= |v| {
        assert v[j..j + |Fence|] == w[k + j..k + j + |Fence|];
      }
    }
    IndexOfIs(v, Fence, 0, |s| - k);
  }

  lemma {:induction false} TrimStartIdempotent(s: string)
    ensures TrimStart(TrimStart(s)) == TrimStart(s)
  {
    TrimStartFacts(s);
  }

  /** After stripping the newline and the code's own leading blanks, the body starts with the code's first non-space. */
  lemma {:induction false} BodyAfterTag(code: string, rest: string)
    requires rest != [] && rest[0] == '`'
    ensures TrimStart("\n" + code + rest) == TrimStart(code) + rest
  {
    assert AllSpace("\n");
    assert "\n" + code + rest == "\n" + (code + rest);
    TrimStartSkipsSpaces("\n", code + rest);
    TrimStartAppend(code, rest);
    if TrimStart(code) == [] {
      assert !IsSpace(rest[0]);
    }
  }

  /** The optional tag of the regex: none, or `python` in any case. */
  predicate PythonTag(tag: string) {
    tag == "" || Lower(tag) == "python"
  }

  /** The body of a fence with an optional `python` tag and a newline starts at the code's first non-space. */
  lemma {:induction false} BodyStartAfterTag(text: string, open: nat, tag: string, code: string, rest: string)
    requires PythonTag(tag) && rest != [] && rest[0] == '`'
    requires open + 3 <= |text| && text[open + 3..] == tag + "\n" + code + rest
    ensures text[BodyStart(text, open)..] == TrimStart(code) + rest
  {
    BodyStartSkipsTag(text, open, tag, code, rest);
    SliceAfter(text, open + 3, tag, code, rest);
    TrimmedBody(text, open + 3 + |tag|, code, rest, BodyStart(text, open));
  }

  /** Past the newline, the body starts at the code's first non-space and runs on into the rest. */
  lemma TrimmedBody(text: string, a: nat, code: string, rest: string, e: nat)
    requires rest != [] && rest[0] == '`'
    requires a <= |text| && text[a..] == "\n" + code + rest
    requires e == |text| - |TrimStart(text[a..])|
    ensures e <= |text| && text[e..] == TrimStart(code) + rest
  {
    TrimmedSuffix(text, a);
    BodyAfterTag(code, rest);
  }

  /** With an empty or `python` tag after the fence, the body is sought just past the tag. */
  lemma BodyStartSkipsTag(text: string, open: nat, tag: string, code: string, rest: string)
    requires PythonTag(tag)
    requires open + 3 <= |text| && text[open + 3..] == tag + "\n" + code + rest
    ensures BodyStart(text, open) == |text| - |TrimStart(text[open + 3 + |tag|..])|
  {
    assert tag + "\n" + code + rest == tag + "\n" + (code + rest);
    TagLength(text, open + 3, tag, code + rest);
  }

  lemma SliceAfter(text: string, t: nat, tag: string, code: string, rest: string)
    requires t <= |text| && text[t..] == tag + "\n" + code + rest
    ensures text[t + |tag|..] == "\n" + code + rest
  {
    assert tag + "\n" + code + rest == tag + ("\n" + code + rest);
    assert text[t + |tag|..] == text[t..][|tag|..];
  }

  /** Cutting a suffix's leading whitespace leaves a suffix of the whole text. */
  lemma TrimmedSuffix(text: string, a: nat)
    requires a <= |text|
    ensures text[|text| - |TrimStart(text[a..])|..] == TrimStart(text[a..])
  {
    TrimStartFacts(text[a..]);
    SuffixOfSuffix(text, a, a + Indent(text[a..]));
  }

  /** The tag test of `BodyStart` skips exactly the tag, empty or `python` in any case. */
  lemma TagLength(text: string, t: nat, tag: string, more: string)
    requires PythonTag(tag)
    requires t <= |text| && text[t..] == tag + "\n" + more
    ensures (if t + 6 <= |text| && Lower(text[t..t + 6]) == "python" then t + 6 else t) == t + |tag|
  {
    if tag == "" {
      if t + 6 <= |text| {
        NewlineNotPython(text[t..t + 6]);
      }
    } else {
      assert |tag| == |Lower(tag)| == 6;
      assert text[t..t + 6] == text[t..][..6] == tag;
    }
  }

  /** Six characters starting with a newline never lower-case to `python`. */
  lemma NewlineNotPython(s: string)
    requires |s| == 6 && s[0] == '\n'
    ensures Lower(s) != "python"
  {
    assert Lower(s)[0] == LowerChar(s[0]) == LowerChar('\n') == '\n';
  }

  lemma SuffixOfSuffix(s: string, k: nat, m: nat)
    requires k <= m <= |s|
    ensures s[k..][m - k..] == s[m..]
  {
  }

  /**
   * A reply shaped ```` pre```<tag>\n<code>```post ````, with a `python` tag in any
   * case or none, yields the stripped code, when no fence starts inside the text
   * before the block or inside the code (single backticks may occur in both).
   */
  lemma {:induction false} ExtractsFencedCode(pre: string, tag: string, code: string, post: string)
    requires FenceFree(pre) && PythonTag(tag) && FenceFree(code)
    ensures ExtractCodeBlock(pre + Fence + tag + "\n" + code + Fence + post) == Strip(code)
  {
    var text := pre + Fence + tag + "\n" + code + Fence + post;
    var e, close := LocateFencedBody(pre, tag, code, post, text);
    ExtractAt(text, |pre|, e, close);
    TrimStartIdempotent(code);
  }

  lemma {:induction false} LocateFencedBody(pre: string, tag: string, code: string, post: string, text: string)
    returns (e: nat, close: nat)
    requires FenceFree(pre) && PythonTag(tag) && FenceFree(code)
    requires text == pre + Fence + tag + "\n" + code + Fence + post
    ensures |pre| + 3 <= |text| && IndexOf(text, Fence, 0) == Some(|pre|) && BodyStart(text, |pre|) == e
    ensures e <= close <= |text| && IndexOf(text, Fence, e) == Some(close) && text[e..close] == TrimStart(code)
  {
    var rest := Fence + post;
    var after := tag + "\n" + code + rest;
    assert text == pre + Fence + after;
    assert text[|pre| + 3..] == after;
    assert text[0..|pre| + 3] == pre + Fence;
    FirstFenceFrom(text, 0, pre);
    e := BodyStart(text, |pre|);
    BodyStartAfterTag(text, |pre|, tag, code, rest);
    close := ClosingFence(text, e, code, post);
  }

  lemma {:induction false} ClosingFence(text: string, e: nat, code: string, post: string) returns (close: nat)
    requires FenceFree(code) && e <= |text| && text[e..] == TrimStart(code) + Fence + post
    ensures close == e + |TrimStart(code)| && close <= |text|
    ensures IndexOf(text, Fence, e) == Some(close) && text[e..close] == TrimStart(code)
  {
    var body := TrimStart(code);
    close := e + |body|;
    TrimStartFacts(code);
    FenceFreeSuffix(code, |code| - |body|);
    assert text[e..close] == text[e..][..|body|] == body;
    assert text[e..close + 3] == text[e..][..|body| + 3] == body + Fence;
    FirstFenceFrom(text, e, body);
  }

  lemma ExtractAt(text: string, open: nat, e: nat, close: nat)
    requires open + 3 <= |text| && IndexOf(text, Fence, 0) == Some(open) && BodyStart(text, open) == e
    requires e <= close <= |text| && IndexOf(text, Fence, e) == Some(close)
    ensures ExtractCodeBlock(text) == Strip(text[e..close])
  {
  }

  /** Text with no backtick at all is only stripped. */
  lemma NoFenceMeansStrip(text: string)
    requires NoBacktick(text)
    ensures ExtractCodeBlock(text) == Strip(text)
  {
    NoFenceIn(text);
  }

  /** The code handed to the REPL: the extracted block, or the raw reply when the extraction is empty. */
  function CodeToRun(codeReply: string): (code: string)
    ensures code == codeReply || code == ExtractCodeBlock(codeReply)
    ensures code == "" ==> codeReply == ""
  {
    var extracted := ExtractCodeBlock(codeReply);
    if extracted == "" then codeReply else extracted
  }

  /** What one `python_repl.run(code)` does: it returns what the code printed, or raises. */
  datatype ReplRun = Printed(output: string) | Raised(errorType: string, message: string)

  /**
   * The process-wide Python REPL. It keeps its globals from one run to the next,
   * so what a run produces depends on every code string run before it.
   */
  class Repl {
    /** Every code string run so far, in order. */
    var runs: seq<string>
    /** What the interpreter does with `code` after the history `runs`. */
    const behaviour: (seq<string>, string) -> ReplRun

    constructor (behaviour: (seq<string>, string) -> ReplRun)
      ensures runs == [] && this.behaviour == behaviour
    {
      runs := [];
      this.behaviour := behaviour;
    }

    method Run(code: string) returns (r: ReplRun)
      modifies this
      ensures runs == old(runs) + [code]
      ensures r == behaviour(old(runs), code)
    {
      r := behaviour(runs, code);
      runs := runs + [code];
    }
  }

  /** The execution result as the solver reports it: stripped output, `No output` when nothing was printed, or the error. */
  function ExecutionResult(run: ReplRun): (result: string)
  {
    match run
    case Printed(out) => if out == "" then "No output" else Strip(out)
    case Raised(errorType, message) => "Error: " + errorType + ": " + message
  }

  /** Output made only of whitespace is reported as the empty string, not as `No output`. */
  lemma BlankOutputIsEmpty(out: string)
    requires out != [] && AllSpace(out)
    ensures ExecutionResult(Printed(out)) == ""
  {
    TrimStartFacts(out);
    assert TrimStart(out) == [];
  }

  /**
   * What `math_solver_node` does given the two model calls and the REPL: a rate
   * limit from either model call escapes before anything is written; otherwise
   * the answer is the selection reply's leading capital (else `B`) and the
   * reasoning quotes the first 100 characters of the execution result.
   */
  function MathStep(codeCall: Outcome<string>, behaviour: (seq<string>, string) -> ReplRun,
                    history: seq<string>, selectCall: string -> Outcome<string>): (step: Step)
  {
    var codeReply := ChatReply(codeCall);
    if codeReply.RateLimited? then Escaped(codeReply.msg)
    else
      var result := ExecutionResult(behaviour(history, CodeToRun(codeReply.value)));
      var selection := ChatReply(selectCall(result));
      if selection.RateLimited? then Escaped(selection.msg)
      else Wrote(LetterOr(LeadingCapital(selection.value), 'B'), "Code executed. Result: " + Take(result, 100), None)
  }

  /**
   * The node completes exactly when neither model call is rate limited. Then the
   * answer is the first character of the selection reply when that is a capital,
   * otherwise `B` (a failed selection call, masked to `""`, gives `B`), and the
   * reasoning quotes exactly the first 100 characters of the execution result
   * the selection call was given (all of it when shorter).
   */
  lemma MathAnswer(codeCall: Outcome<string>, behaviour: (seq<string>, string) -> ReplRun,
                   history: seq<string>, selectCall: string -> Outcome<string>)
    ensures var step := MathStep(codeCall, behaviour, history, selectCall);
      var codeReply := ChatReply(codeCall);
      && (codeReply.RateLimited? ==> step == Escaped(codeReply.msg))
      && (!codeReply.RateLimited? ==>
            var result := ExecutionResult(behaviour(history, CodeToRun(codeReply.value)));
            var selection := ChatReply(selectCall(result));
            && (selection.RateLimited? <==> step.Escaped?)
            && (selection.RateLimited? ==> step.msg == selection.msg)
            && (!selection.RateLimited? ==>
                  var sel := selection.value;
                  && step.answer == (if sel != [] && IsCapital(sel[0]) then [sel[0]] else "B")
                  && step.context.None?
                  && StartsWith(step.reasoning, "Code executed. Result: ")
                  && |step.reasoning| == |"Code executed. Result: "| + (if |result| <= 100 then |result| else 100)
                  && StartsWith(result, step.reasoning[|"Code executed. Result: "|..])))
  {
  }

  /** A rate limit from the code-generation call escapes, and the REPL is never reached. */
  lemma RateLimitedCodeGeneration(msg: string, behaviour: (seq<string>, string) -> ReplRun,
                                  history: seq<string>, selectCall: string -> Outcome<string>)
    ensures MathStep(RateLimited(msg), behaviour, history, selectCall) == Escaped(msg)
  {
  }

  /**
   * `math_solver_node`: one code-generation call, exactly one REPL run (no retry),
   * one selection call; only `answer` and `reasoning` are written, and only when
   * neither model call hit a rate limit.
   */
  method MathSolverNode(st: AgentState, codeCall: Outcome<string>, repl: Repl, selectCall: string -> Outcome<string>)
    returns (exit: Exit)
    modifies st`answer, st`reasoning, repl
    ensures var step := MathStep(codeCall, repl.behaviour, old(repl.runs), selectCall);
      (step.Escaped? ==> exit == RateLimitRaised(step.msg) && st.answer == old(st.answer) && st.reasoning == old(st.reasoning))
      && (step.Wrote? ==> exit == Returned && st.answer == step.answer && st.reasoning == step.reasoning)
    ensures ChatReply(codeCall).RateLimited? ==> repl.runs == old(repl.runs)
    ensures ChatReply(codeCall).Ok? ==> repl.runs == old(repl.runs) + [CodeToRun(ChatReply(codeCall).value)]
  {
    var codeReply := ChatReply(codeCall);
    ghost var history := repl.runs;
    if codeReply.RateLimited? {
      assert MathStep(codeCall, repl.behaviour, history, selectCall) == Escaped(codeReply.msg);
      return RateLimitRaised(codeReply.msg);
    }
    var code := CodeToRun(codeReply.value);
    var run := repl.Run(code);
    var result := ExecutionResult(run);
    var selection := ChatReply(selectCall(result));
    ghost var step := MathStep(codeCall, repl.behaviour, history, selectCall);
    if selection.RateLimited? {
      assert step == Escaped(selection.msg);
      return RateLimitRaised(selection.msg);
    }
    assert step.answer == LetterOr(LeadingCapital(selection.value), 'B');
    assert step.reasoning == "Code executed. Result: " + Take(result, 100);
    st.answer := LetterOr(LeadingCapital(selection.value), 'B');
    st.reasoning := "Code executed. Result: " + Take(result, 100);
    return Returned;
  }
}

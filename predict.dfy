/**
 * The resumable batch driver (predict.py). The JSONL log is the only record of
 * which questions are done: a run reads the processed qids back from it, works
 * through the questions not yet logged, appends one record per question as soon
 * as it is answered, stops the whole batch at the first rate limit, and finally
 * copies the log into a CSV table.
 */
module Predict {
  import opened Wrappers
  import opened Text
  import opened Client
  import opened Utils
  import opened LogLines
  import State

  const ReasoningLimit: nat := 200
  /** The answer and category of the record logged when the agent raised something other than a rate limit. */
  const FallbackAnswer: string := "C"
  const ErrorCategory: string := "error"
  /** The CSV answer of a log record that has no `answer` key. */
  const MissingAnswer: string := "A"

  /** What the driver reads from the state `app.invoke` returns. */
  datatype FinalState = FinalState(answer: string, category: string, reasoning: string)

  /**
   * The outcome of one `app.invoke` as the agent graph produces it: the final
   * state's fields, or the rate limit that escaped a node. The graph itself
   * raises nothing else; `Failed` stands for exceptions outside the model.
   */
  function GraphOutcome(exit: State.Exit, answer: string, category: string, reasoning: string): (o: Outcome<FinalState>)
    ensures !o.Failed?
    ensures o.RateLimited? <==> exit.RateLimitRaised?
    ensures o.Ok? ==> o.value == FinalState(answer, category, reasoning)
  {
    match exit
    case Returned => Ok(FinalState(answer, category, reasoning))
    case RateLimitRaised(msg) => RateLimited(msg)
  }

  // ---------------------------------------------------------------- resume

  /** The qids `load_processed_qids` collects: `record.get('qid')` of every line that parses. */
  function ProcessedQids(log: seq<Line>): (qids: set<Option<string>>)
    ensures forall q :: q in qids <==> exists i :: 0 <= i < |log| && log[i].Record? && log[i].qid.Get() == q
    decreases |log|
  {
    if log == [] then {}
    else
      var front := log[..|log| - 1];
      var last := log[|log| - 1];
      assert forall i :: 0 <= i < |front| ==> front[i] == log[i];
      ProcessedQids(front) + (if last.Record? then {last.qid.Get()} else {})
  }

  /** A string qid on some line of the log is among the processed qids. */
  lemma QidAtIsProcessed(log: seq<Line>, i: nat)
    requires i < |log| && QidAt(log, i).Some?
    ensures QidAt(log, i) in ProcessedQids(log)
  {
  }

  /** Parsing is line by line, so the qids of a longer log are the old ones plus the new lines' ones. */
  lemma {:induction false} ProcessedQidsAppend(a: seq<Line>, b: seq<Line>)
    ensures ProcessedQids(a + b) == ProcessedQids(a) + ProcessedQids(b)
  {
    var ab := a + b;
    forall q | q in ProcessedQids(a + b) ensures q in ProcessedQids(a) + ProcessedQids(b) {
      var i :| 0 <= i < |ab| && ab[i].Record? && ab[i].qid.Get() == q;
      if i < |a| {
        assert ab[i] == a[i];
      } else {
        assert ab[i] == b[i - |a|];
      }
    }
    forall q | q in ProcessedQids(a) ensures q in ProcessedQids(a + b) {
      var i :| 0 <= i < |a| && a[i].Record? && a[i].qid.Get() == q;
      assert ab[i] == a[i];
    }
    forall q | q in ProcessedQids(b) ensures q in ProcessedQids(a + b) {
      var i :| 0 <= i < |b| && b[i].Record? && b[i].qid.Get() == q;
      assert ab[|a| + i] == b[i];
    }
  }

  /**
   * `load_processed_qids`: line by line, a line that does not parse is skipped;
   * every other line contributes `record.get('qid')`. A missing file reads as an
   * empty log.
   */
  method LoadProcessedQids(log: seq<Line>) returns (processed: set<Option<string>>)
    ensures forall q :: q in processed <==> exists i :: 0 <= i < |log| && log[i].Record? && log[i].qid.Get() == q
  {
    processed := {};
    for n := 0 to |log|
      invariant processed == ProcessedQids(log[..n])
    {
      assert log[..n + 1][..n] == log[..n];
      var line := log[n];
      if line.Record? {
        processed := processed + {line.qid.Get()};
      }
    }
    assert log[..|log|] == log;
  }

  /** The comprehension `[item for item in data if item.get('qid') not in processed]`. */
  function Worklist(items: seq<Item>, processed: set<Option<string>>): (work: seq<Item>)
    ensures |work| <= |items|
    ensures forall x :: x in work <==> x in items && Some(x.qid) !in processed
    decreases |items|
  {
    if items == [] then []
    else
      var front := items[..|items| - 1];
      var last := items[|items| - 1];
      assert items == front + [last];
      Worklist(front, processed) + (if Some(last.qid) in processed then [] else [last])
  }

  /** The filter keeps the input order: it distributes over concatenation. */
  lemma {:induction false} WorklistAppend(a: seq<Item>, b: seq<Item>, processed: set<Option<string>>)
    ensures Worklist(a + b, processed) == Worklist(a, processed) + Worklist(b, processed)
    decreases |b|
  {
    if b == [] {
      assert a + b == a;
    } else {
      var front := b[..|b| - 1];
      assert (a + b)[..|a + b| - 1] == a + front;
      assert (a + b)[|a + b| - 1] == b[|b| - 1];
      WorklistAppend(a, front, processed);
    }
  }

  /** No two items share a qid. */
  predicate DistinctQids(items: seq<Item>) {
    forall i, j :: 0 <= i < j < |items| ==> items[i].qid != items[j].qid
  }

  /** Filtering items with distinct qids leaves items with distinct qids. */
  lemma {:induction false} WorklistKeepsDistinct(items: seq<Item>, processed: set<Option<string>>)
    requires DistinctQids(items)
    ensures DistinctQids(Worklist(items, processed))
    decreases |items|
  {
    if items != [] {
      var front := items[..|items| - 1];
      var last := items[|items| - 1];
      assert DistinctQids(front);
      WorklistKeepsDistinct(front, processed);
      var w := Worklist(front, processed);
      forall i | 0 <= i < |w| ensures w[i].qid != last.qid {
        assert w[i] in front;
        var k :| 0 <= k < |front| && front[k] == w[i];
        assert items[k] == front[k];
      }
    }
  }

  // ---------------------------------------------------------------- the run

  /** The record appended for an item whose agent run did not hit a rate limit. */
  function Logged(item: Item, o: Outcome<FinalState>): Line
    requires !o.RateLimited?
  {
    if o.Ok? then Record(Str(item.qid), Str(o.value.answer), Str(o.value.category), Str(Take(o.value.reasoning, ReasoningLimit)))
    else Record(Str(item.qid), Str(FallbackAnswer), Str(ErrorCategory), Str(Take(o.msg, ReasoningLimit)))
  }

  /**
   * A success record copies the final answer and category and the first 200
   * characters of the reasoning (all of it when shorter); any other exception
   * gives `C` / `error` and the first 200 characters of the message. Either way the record carries the item's qid.
   */
  lemma LoggedFacts(item: Item, o: Outcome<FinalState>)
    requires !o.RateLimited?
    ensures var r := Logged(item, o);
      && r.Record? && r.qid == Str(item.qid)
      && r.reasoning.Str? && |r.reasoning.s| <= ReasoningLimit
      && (o.Ok? ==> r.answer == Str(o.value.answer) && r.category == Str(o.value.category)
                    && StartsWith(o.value.reasoning, r.reasoning.s)
                    && |r.reasoning.s| == if |o.value.reasoning| <= ReasoningLimit then |o.value.reasoning| else ReasoningLimit)
      && (o.Failed? ==> r.answer == Str("C") && r.category == Str("error") && StartsWith(o.msg, r.reasoning.s)
                        && |r.reasoning.s| == if |o.msg| <= ReasoningLimit then |o.msg| else ReasoningLimit)
  {
  }

  /** How many items of the worklist are processed: all of them, or those before the first rate limit. */
  function Reached(work: seq<Item>, invoke: Item -> Outcome<FinalState>): (n: nat)
    ensures n <= |work|
    ensures forall j :: 0 <= j < n ==> !invoke(work[j]).RateLimited?
    ensures n < |work| ==> invoke(work[n]).RateLimited?
    decreases |work|
  {
    if work == [] then 0
    else if invoke(work[0]).RateLimited? then 0
    else 1 + Reached(work[1..], invoke)
  }

  /** The records of items that all ran without a rate limit, in order. */
  function Appended(done: seq<Item>, invoke: Item -> Outcome<FinalState>): seq<Line>
    requires forall j :: 0 <= j < |done| ==> !invoke(done[j]).RateLimited?
  {
    seq(|done|, j requires 0 <= j < |done| => Logged(done[j], invoke(done[j])))
  }

  /** Exactly one record per processed item, and each carries that item's qid. */
  lemma AppendedFacts(done: seq<Item>, invoke: Item -> Outcome<FinalState>)
    requires forall j :: 0 <= j < |done| ==> !invoke(done[j]).RateLimited?
    ensures |Appended(done, invoke)| == |done|
    ensures forall j :: 0 <= j < |done| ==> QidAt(Appended(done, invoke), j) == Some(done[j].qid)
    ensures forall q :: q in ProcessedQids(Appended(done, invoke)) <==> exists j :: 0 <= j < |done| && q == Some(done[j].qid)
  {
    var lines := Appended(done, invoke);
    forall q | q in ProcessedQids(lines) ensures exists j :: 0 <= j < |done| && q == Some(done[j].qid) {
      var i :| 0 <= i < |lines| && lines[i].Record? && lines[i].qid.Get() == q;
      assert q == Some(done[i].qid);
    }
    forall j | 0 <= j < |done| ensures Some(done[j].qid) in ProcessedQids(lines) {
      assert lines[j].Record? && lines[j].qid.Get() == Some(done[j].qid);
    }
  }

  // ---------------------------------------------------------------- consolidation

  /** A CSV row: `record.get('qid')` and `record.get('answer', 'A')`. */
  datatype Row = Row(qid: Option<string>, answer: Option<string>)

  function RowOf(line: Line): Row
    requires line.Record?
  {
    Row(line.qid.Get(), line.answer.GetOr(MissingAnswer))
  }

  /** The rows of the log: one per line that parses, in log order, nothing sorted or merged. */
  function Rows(log: seq<Line>): (rows: seq<Row>)
    ensures |rows| <= |log|
    decreases |log|
  {
    if log == [] then []
    else
      var last := log[|log| - 1];
      Rows(log[..|log| - 1]) + (if last.Record? then [RowOf(last)] else [])
  }

  /** The table of a longer log extends the table of the shorter one. */
  lemma {:induction false} RowsAppend(a: seq<Line>, b: seq<Line>)
    ensures Rows(a + b) == Rows(a) + Rows(b)
    decreases |b|
  {
    if b == [] {
      assert a + b == a;
    } else {
      var front := b[..|b| - 1];
      assert (a + b)[..|a + b| - 1] == a + front;
      assert (a + b)[|a + b| - 1] == b[|b| - 1];
      RowsAppend(a, front);
    }
  }

  /** A log whose every line parses has one row per line, in order; a missing answer becomes `A`. */
  lemma {:induction false} RowsOfRecords(log: seq<Line>)
    requires forall i :: 0 <= i < |log| ==> log[i].Record?
    ensures |Rows(log)| == |log|
    ensures forall i :: 0 <= i < |log| ==> Rows(log)[i] == Row(log[i].qid.Get(), log[i].answer.GetOr("A"))
    decreases |log|
  {
    if log != [] {
      RowsOfRecords(log[..|log| - 1]);
    }
  }

  /** The rows the driver's own records give: the item's qid and the logged answer. */
  lemma {:induction false} RowsOfAppended(done: seq<Item>, invoke: Item -> Outcome<FinalState>)
    requires forall j :: 0 <= j < |done| ==> !invoke(done[j]).RateLimited?
    ensures |Rows(Appended(done, invoke))| == |done|
    ensures forall j :: 0 <= j < |done| ==>
      Rows(Appended(done, invoke))[j] ==
        Row(Some(done[j].qid), Some(if invoke(done[j]).Ok? then invoke(done[j]).value.answer else FallbackAnswer))
  {
    var lines := Appended(done, invoke);
    forall i | 0 <= i < |lines| ensures lines[i].Record? {
      LoggedFacts(done[i], invoke(done[i]));
    }
    RowsOfRecords(lines);
  }

  /** The loop of `consolidate_log_to_csv` that builds `results`. */
  method ReadRows(log: seq<Line>) returns (results: seq<Row>)
    ensures |results| <= |log|
    ensures results == Rows(log)
  {
    results := [];
    for n := 0 to |log|
      invariant results == Rows(log[..n])
    {
      assert log[..n + 1][..n] == log[..n];
      var line := log[n];
      if line.Record? {
        results := results + [Row(line.qid.Get(), line.answer.GetOr(MissingAnswer))];
      }
    }
    assert log[..|log|] == log;
  }

  /** `df.to_csv(path)` runs only when there are rows: an empty table leaves the file as it was. */
  function Written(before: Option<seq<Row>>, rows: seq<Row>): (after: Option<seq<Row>>)
    ensures rows == [] ==> after == before
    ensures rows != [] ==> after == Some(rows)
  {
    if rows == [] then before else Some(rows)
  }

  /** The two CSV files `consolidate_log_to_csv` writes to. */
  datatype Target = Submission | Emergency

  /** The output directory: the JSONL log and the two CSV files (`None` until first written). */
  class Outputs {
    var log: seq<Line>
    var submission: Option<seq<Row>>
    var emergency: Option<seq<Row>>

    constructor (log: seq<Line>, submission: Option<seq<Row>>, emergency: Option<seq<Row>>)
      ensures this.log == log && this.submission == submission && this.emergency == emergency
    {
      this.log := log;
      this.submission := submission;
      this.emergency := emergency;
    }

    /** `append_to_log`: one line at the end; earlier lines are never touched. */
    method AppendToLog(record: Line)
      modifies this`log
      ensures log == old(log) + [record]
    {
      log := log + [record];
    }

    /** `consolidate_log_to_csv`: the rows of the log go to the target file, and their number is returned. */
    method ConsolidateLogToCsv(target: Target) returns (count: nat)
      modifies this`submission, this`emergency
      ensures count == |Rows(log)|
      ensures target == Submission ==> submission == Written(old(submission), Rows(log)) && emergency == old(emergency)
      ensures target == Emergency ==> emergency == Written(old(emergency), Rows(log)) && submission == old(submission)
    {
      var results := ReadRows(log);
      if results != [] {
        if target == Submission {
          submission := Some(results);
        } else {
          emergency := Some(results);
        }
      }
      count := |results|;
    }
  }

  /**
   * The `for` loop of `main`: each item is run through the agent (`invoke`). A
   * success or an ordinary exception appends exactly one record and the loop goes
   * on; a rate limit appends nothing and ends the loop.
   */
  method ProcessWorklist(out: Outputs, remaining: seq<Item>, invoke: Item -> Outcome<FinalState>) returns (rateLimitHit: bool)
    modifies out`log
    ensures var n := Reached(remaining, invoke);
      && out.log == old(out.log) + Appended(remaining[..n], invoke)
      && rateLimitHit == (n < |remaining|)
  {
    ghost var log0 := out.log;
    ghost var n := Reached(remaining, invoke);
    rateLimitHit := false;
    var idx := 0;
    while idx < |remaining|
      invariant 0 <= idx <= n
      invariant rateLimitHit ==> idx == n < |remaining|
      invariant out.log == log0 + Appended(remaining[..idx], invoke)
      decreases |remaining| - idx
    {
      var item := remaining[idx];
      var outcome := invoke(item);
      if outcome.RateLimited? {
        rateLimitHit := true;
        break;
      }
      out.AppendToLog(Logged(item, outcome));
      AppendedStep(remaining, idx, invoke);
      idx := idx + 1;
    }
  }

  lemma AppendedStep(work: seq<Item>, i: nat, invoke: Item -> Outcome<FinalState>)
    requires i < |work| && forall j :: 0 <= j <= i ==> !invoke(work[j]).RateLimited?
    ensures Appended(work[..i + 1], invoke) == Appended(work[..i], invoke) + [Logged(work[i], invoke(work[i]))]
  {
  }

  /**
   * `main` after the input file is loaded (`data` is `None` when no input file
   * exists). The choices are labelled, the worklist is every item whose qid is
   * not logged yet, and the loop runs. The log then goes to the emergency CSV
   * (exit code 1) after a rate limit, and to the submission CSV (exit code 0)
   * otherwise, an empty worklist included.
   */
  method Run(out: Outputs, data: Option<seq<RawItem>>, invoke: Item -> Outcome<FinalState>) returns (code: int)
    requires data.Some? ==> Fits(data.value)
    modifies out
    ensures data.None? ==>
      code == 1 && out.log == old(out.log) && out.submission == old(out.submission) && out.emergency == old(out.emergency)
    ensures data.Some? ==>
      var work := Worklist(Transformed(data.value), ProcessedQids(old(out.log)));
      var n := Reached(work, invoke);
      && out.log == old(out.log) + Appended(work[..n], invoke)
      && code == (if n < |work| then 1 else 0)
      && (n < |work| ==> out.emergency == Written(old(out.emergency), Rows(out.log)) && out.submission == old(out.submission))
      && (n == |work| ==> out.submission == Written(old(out.submission), Rows(out.log)) && out.emergency == old(out.emergency))
  {
    if data.None? {
      return 1;
    }
    var transformed := TransformChoices(data.value);
    var processed := LoadProcessedQids(out.log);
    assert processed == ProcessedQids(out.log);
    var remaining := Worklist(transformed, processed);
    if |remaining| == 0 {
      var _ := out.ConsolidateLogToCsv(Submission);
      assert Appended(remaining[..0], invoke) == [];
      return 0;
    }
    var rateLimitHit := ProcessWorklist(out, remaining, invoke);
    if rateLimitHit {
      var _ := out.ConsolidateLogToCsv(Emergency);
      return 1;
    }
    var _ := out.ConsolidateLogToCsv(Submission);
    return 0;
  }

  // ---------------------------------------------------------------- properties of a run

  /** No record of a run repeats a qid that the log held before the run. */
  lemma {:induction false} RunNeverRelogs(items: seq<Item>, log: seq<Line>, invoke: Item -> Outcome<FinalState>, j: nat)
    requires var work := Worklist(items, ProcessedQids(log)); j < Reached(work, invoke)
    ensures var work := Worklist(items, ProcessedQids(log));
      var added := Appended(work[..Reached(work, invoke)], invoke);
      forall i :: 0 <= i < |log| ==> QidAt(log, i) != QidAt(added, j)
  {
    var work := Worklist(items, ProcessedQids(log));
    var n := Reached(work, invoke);
    AppendedFacts(work[..n], invoke);
    assert work[j] in work;
    forall i | 0 <= i < |log| ensures QidAt(log, i) != Some(work[j].qid) {
      if QidAt(log, i).Some? {
        QidAtIsProcessed(log, i);
      }
    }
  }

  /**
   * With distinct qids in the input, a run keeps the log free of repeated qids:
   * re-running after a crash or a rate limit never duplicates an answer.
   */
  lemma {:induction false} RunKeepsQidsUnique(items: seq<Item>, log: seq<Line>, invoke: Item -> Outcome<FinalState>)
    requires DistinctQids(items) && NoRepeatedQid(log)
    ensures var work := Worklist(items, ProcessedQids(log));
      NoRepeatedQid(log + Appended(work[..Reached(work, invoke)], invoke))
  {
    var work := Worklist(items, ProcessedQids(log));
    var n := Reached(work, invoke);
    var added := Appended(work[..n], invoke);
    var all := log + added;
    AppendedFacts(work[..n], invoke);
    WorklistKeepsDistinct(items, ProcessedQids(log));
    forall i, j | 0 <= i < j < |all| && QidAt(all, i).Some? ensures QidAt(all, i) != QidAt(all, j) {
      if j < |log| {
        assert QidAt(all, i) == QidAt(log, i) && QidAt(all, j) == QidAt(log, j);
      } else if i < |log| {
        assert QidAt(all, i) == QidAt(log, i) && QidAt(all, j) == QidAt(added, j - |log|);
        RunNeverRelogs(items, log, invoke, j - |log|);
      } else {
        assert QidAt(all, i) == QidAt(added, i - |log|) && QidAt(all, j) == QidAt(added, j - |log|);
      }
    }
  }

  /**
   * Resuming is idempotent: after a run that was not stopped by a rate limit,
   * every input qid is logged, so a second run has an empty worklist, appends
   * nothing and writes the same table again.
   */
  lemma {:induction false} CompletedRunLeavesNothing(items: seq<Item>, log: seq<Line>, invoke: Item -> Outcome<FinalState>)
    requires var work := Worklist(items, ProcessedQids(log)); Reached(work, invoke) == |work|
    ensures var work := Worklist(items, ProcessedQids(log));
      Worklist(items, ProcessedQids(log + Appended(work[..|work|], invoke))) == []
  {
    var processed := ProcessedQids(log);
    var work := Worklist(items, processed);
    var added := Appended(work[..|work|], invoke);
    AppendedFacts(work[..|work|], invoke);
    ProcessedQidsAppend(log, added);
    forall x | x in items ensures Some(x.qid) in processed + ProcessedQids(added) {
      if Some(x.qid) !in processed {
        assert x in work;
        var j :| 0 <= j < |work| && work[j] == x;
        assert work[..|work|][j] == x;
      }
    }
    WorklistOfLogged(items, processed + ProcessedQids(added));
  }

  /** When every qid is processed, the worklist is empty. */
  lemma {:induction false} WorklistOfLogged(items: seq<Item>, processed: set<Option<string>>)
    requires forall x :: x in items ==> Some(x.qid) in processed
    ensures Worklist(items, processed) == []
    decreases |items|
  {
    if items != [] {
      var front := items[..|items| - 1];
      assert forall x :: x in front ==> x in items;
      assert items[|items| - 1] in items;
      WorklistOfLogged(front, processed);
    }
  }

  /** The table written after a run: the old log's rows followed by one row per processed item. */
  lemma RunTable(log: seq<Line>, done: seq<Item>, invoke: Item -> Outcome<FinalState>)
    requires forall j :: 0 <= j < |done| ==> !invoke(done[j]).RateLimited?
    ensures |Rows(log + Appended(done, invoke))| == |Rows(log)| + |done|
    ensures Rows(log + Appended(done, invoke))[..|Rows(log)|] == Rows(log)
  {
    RowsAppend(log, Appended(done, invoke));
    RowsOfAppended(done, invoke);
  }

  /** A rate limit on the first remaining item appends nothing and exits with 1. */
  lemma RateLimitFirstAppendsNothing(work: seq<Item>, invoke: Item -> Outcome<FinalState>)
    requires work != [] && invoke(work[0]).RateLimited?
    ensures Reached(work, invoke) == 0 && Appended(work[..0], invoke) == []
  {
  }

  /** An agent run that follows the graph never produces the `C` / `error` fallback record. */
  lemma GraphRunsAreNeverFallbacks(item: Item, exit: State.Exit, answer: string, category: string, reasoning: string)
    requires exit.Returned?
    ensures Logged(item, GraphOutcome(exit, answer, category, reasoning)).category == Str(category)
  {
  }
}

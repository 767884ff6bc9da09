/**
 * The offline scorer (evaluate.py): the ground-truth answers by qid, the last
 * logged prediction per qid, and the count of correct, wrong and missing answers.
 */
module Evaluate {
  import opened Wrappers
  import opened Text
  import opened LogLines

  /** A ground-truth item: its `qid` and `item.get('answer', '')`. */
  datatype Truth = Truth(qid: string, answer: string)

  /** `{item['qid']: item.get('answer', '') for item in data}`: the items applied in order. */
  function GroundTruth(data: seq<Truth>): (gt: map<string, string>)
    ensures |gt.Keys| <= |data|
    decreases |data|
  {
    if data == [] then map[]
    else
      var last := data[|data| - 1];
      var front := GroundTruth(data[..|data| - 1]);
      assert front[last.qid := last.answer].Keys <= front.Keys + {last.qid};
      front[last.qid := last.answer]
  }

  /** The ground truth has exactly the qids of the data, and a later item with the same qid wins. */
  lemma GroundTruthFacts(data: seq<Truth>)
    ensures forall q :: q in GroundTruth(data) <==> exists k :: 0 <= k < |data| && data[k].qid == q
    ensures forall k :: 0 <= k < |data| && (forall j :: k < j < |data| ==> data[j].qid != data[k].qid) ==>
      data[k].qid in GroundTruth(data) && GroundTruth(data)[data[k].qid] == data[k].answer
  {
    GroundTruthKeys(data);
    forall k | 0 <= k < |data| && (forall j :: k < j < |data| ==> data[j].qid != data[k].qid)
      ensures data[k].qid in GroundTruth(data) && GroundTruth(data)[data[k].qid] == data[k].answer
    {
      LastItemWins(data, k);
    }
  }

  lemma {:induction false} GroundTruthKeys(data: seq<Truth>)
    ensures forall q :: q in GroundTruth(data) <==> exists k :: 0 <= k < |data| && data[k].qid == q
    decreases |data|
  {
    if data != [] {
      var front, last := data[..|data| - 1], data[|data| - 1];
      GroundTruthKeys(front);
      var gt := GroundTruth(data);
      assert gt == GroundTruth(front)[last.qid := last.answer];
      forall q ensures q in gt <==> exists k :: 0 <= k < |data| && data[k].qid == q {
        if q in gt && q != last.qid {
          var k :| 0 <= k < |front| && front[k].qid == q;
          assert data[k].qid == q;
        }
        if exists k :: 0 <= k < |data| && data[k].qid == q {
          var k :| 0 <= k < |data| && data[k].qid == q;
          if k < |front| {
            assert front[k].qid == q;
          }
        }
      }
    }
  }

  lemma {:induction false} LastItemWins(data: seq<Truth>, k: nat)
    requires k < |data| && forall j :: k < j < |data| ==> data[j].qid != data[k].qid
    ensures data[k].qid in GroundTruth(data) && GroundTruth(data)[data[k].qid] == data[k].answer
    decreases |data|
  {
    var front, last := data[..|data| - 1], data[|data| - 1];
    assert GroundTruth(data) == GroundTruth(front)[last.qid := last.answer];
    if k < |front| {
      assert front[k] == data[k];
      assert forall j :: k < j < |front| ==> front[j].qid != front[k].qid by {
        forall j | k < j < |front| ensures front[j].qid != front[k].qid {
          assert front[j] == data[j];
        }
      }
      LastItemWins(front, k);
      assert last.qid != data[k].qid;
    }
  }

  /**
   * The update one log line makes to the predictions: a line without a string
   * `qid` is skipped (`record['qid']` raises for a missing key, and a `null` qid
   * is never a ground-truth qid); otherwise `record.get('answer', '')` is stored,
   * `None` for a `null` answer.
   */
  function Predict(preds: map<string, Option<string>>, line: Line): map<string, Option<string>> {
    if line.Record? && line.qid.Str? then preds[line.qid.s := line.answer.GetOr("")] else preds
  }

  /** `load_predictions` as a value: the lines applied in order. */
  function Predictions(log: seq<Line>): (preds: map<string, Option<string>>)
    ensures |preds.Keys| <= |log|
    decreases |log|
  {
    if log == [] then map[]
    else
      var front := Predictions(log[..|log| - 1]);
      var last := log[|log| - 1];
      assert Predict(front, last).Keys <= front.Keys + (if last.Record? && last.qid.Str? then {last.qid.s} else {});
      Predict(front, last)
  }

  /** The predictions hold exactly the qids named on some line. */
  lemma {:induction false} PredictionsKeys(log: seq<Line>)
    ensures forall q :: q in Predictions(log) <==> exists i :: 0 <= i < |log| && QidAt(log, i) == Some(q)
    decreases |log|
  {
    if log != [] {
      var n := |log| - 1;
      var front := log[..n];
      PredictionsKeys(front);
      var preds := Predictions(log);
      assert preds == Predict(Predictions(front), log[n]);
      forall q ensures q in preds <==> exists i :: 0 <= i < |log| && QidAt(log, i) == Some(q) {
        if q in preds && q !in Predictions(front) {
          assert QidAt(log, n) == Some(q);
        } else if q in Predictions(front) {
          var i :| 0 <= i < n && QidAt(front, i) == Some(q);
          assert QidAt(log, i) == Some(q);
        }
        if exists i :: 0 <= i < |log| && QidAt(log, i) == Some(q) {
          var i :| 0 <= i < |log| && QidAt(log, i) == Some(q);
          if i < n {
            assert QidAt(front, i) == Some(q);
          }
        }
      }
    }
  }

  /** The last line that names a qid decides its prediction: a later line overrides every earlier one. */
  lemma {:induction false} LastLineWins(log: seq<Line>, i: nat)
    requires i < |log| && QidAt(log, i).Some?
    requires forall j :: i < j < |log| ==> QidAt(log, j) != QidAt(log, i)
    ensures var q := QidAt(log, i).value; q in Predictions(log) && Predictions(log)[q] == log[i].answer.GetOr("")
    decreases |log|
  {
    var n := |log| - 1;
    var front := log[..n];
    var q := QidAt(log, i).value;
    if i < n {
      assert QidAt(front, i) == QidAt(log, i);
      assert forall j :: i < j < n ==> QidAt(front, j) == QidAt(log, j);
      LastLineWins(front, i);
      assert QidAt(log, n) != Some(q);
      assert Predictions(log) == Predict(Predictions(front), log[n]);
    } else {
      assert Predictions(log) == Predict(Predictions(front), log[n]);
    }
  }

  /** `load_predictions`: the log line by line; a line that does not parse, or has no qid, is skipped. */
  method LoadPredictions(log: seq<Line>) returns (predictions: map<string, Option<string>>)
    ensures predictions == Predictions(log)
  {
    predictions := map[];
    for n := 0 to |log|
      invariant predictions == Predictions(log[..n])
    {
      assert log[..n + 1][..n] == log[..n];
      var line := log[n];
      if line.Record? && line.qid.Str? {
        predictions := predictions[line.qid.s := line.answer.GetOr("")];
      }
    }
    assert log[..|log|] == log;
  }

  /** `predictions.get(qid, None) is None`: no line for the qid, or its answer was `null`. */
  predicate IsMissing(preds: map<string, Option<string>>, q: string) {
    q !in preds || preds[q].None?
  }

  /** `gt_answer.upper() == pred_answer.upper()`. */
  predicate SameAnswer(truth: string, prediction: string) {
    Upper(truth) == Upper(prediction)
  }

  /** The prediction matches the ground truth, ignoring case. */
  predicate IsCorrect(gt: map<string, string>, preds: map<string, Option<string>>, q: string) {
    q in gt && !IsMissing(preds, q) && SameAnswer(gt[q], preds[q].value)
  }

  predicate IsWrong(gt: map<string, string>, preds: map<string, Option<string>>, q: string) {
    q in gt && !IsMissing(preds, q) && !SameAnswer(gt[q], preds[q].value)
  }

  /** The members of `s` that are correct, wrong and missing. */
  function CorrectIn(gt: map<string, string>, preds: map<string, Option<string>>, s: set<string>): set<string> {
    set q | q in s && IsCorrect(gt, preds, q)
  }

  function WrongIn(gt: map<string, string>, preds: map<string, Option<string>>, s: set<string>): set<string> {
    set q | q in s && IsWrong(gt, preds, q)
  }

  function MissingIn(gt: map<string, string>, preds: map<string, Option<string>>, s: set<string>): set<string> {
    set q | q in s && IsMissing(preds, q)
  }

  function CorrectQids(gt: map<string, string>, preds: map<string, Option<string>>): set<string> {
    CorrectIn(gt, preds, gt.Keys)
  }

  function WrongQids(gt: map<string, string>, preds: map<string, Option<string>>): set<string> {
    WrongIn(gt, preds, gt.Keys)
  }

  function MissingQids(gt: map<string, string>, preds: map<string, Option<string>>): set<string> {
    MissingIn(gt, preds, gt.Keys)
  }

  /** Scanning one more ground-truth qid adds it to exactly one of the three classes. */
  lemma ScanMissing(gt: map<string, string>, preds: map<string, Option<string>>, s: set<string>, x: string)
    requires x in gt && x !in s && IsMissing(preds, x)
    ensures |MissingIn(gt, preds, s + {x})| == |MissingIn(gt, preds, s)| + 1
    ensures CorrectIn(gt, preds, s + {x}) == CorrectIn(gt, preds, s) && WrongIn(gt, preds, s + {x}) == WrongIn(gt, preds, s)
  {
    assert MissingIn(gt, preds, s + {x}) == MissingIn(gt, preds, s) + {x};
  }

  lemma ScanCorrect(gt: map<string, string>, preds: map<string, Option<string>>, s: set<string>, x: string)
    requires x in gt && x !in s && IsCorrect(gt, preds, x)
    ensures |CorrectIn(gt, preds, s + {x})| == |CorrectIn(gt, preds, s)| + 1
    ensures MissingIn(gt, preds, s + {x}) == MissingIn(gt, preds, s) && WrongIn(gt, preds, s + {x}) == WrongIn(gt, preds, s)
  {
    assert CorrectIn(gt, preds, s + {x}) == CorrectIn(gt, preds, s) + {x};
  }

  lemma ScanWrong(gt: map<string, string>, preds: map<string, Option<string>>, s: set<string>, x: string)
    requires x in gt && x !in s && IsWrong(gt, preds, x)
    ensures |WrongIn(gt, preds, s + {x})| == |WrongIn(gt, preds, s)| + 1
    ensures MissingIn(gt, preds, s + {x}) == MissingIn(gt, preds, s) && CorrectIn(gt, preds, s + {x}) == CorrectIn(gt, preds, s)
  {
    assert WrongIn(gt, preds, s + {x}) == WrongIn(gt, preds, s) + {x};
  }

  /** One pass of the loop body of `evaluate`: the qid goes to exactly one count. */
  method Tally(gt: map<string, string>, preds: map<string, Option<string>>, ghost done: set<string>, qid: string,
               correct: nat, wrong: nat, missing: nat)
    returns (correct': nat, wrong': nat, missing': nat)
    requires qid in gt && qid !in done
    requires correct == |CorrectIn(gt, preds, done)|
    requires wrong == |WrongIn(gt, preds, done)|
    requires missing == |MissingIn(gt, preds, done)|
    ensures correct' == |CorrectIn(gt, preds, done + {qid})|
    ensures wrong' == |WrongIn(gt, preds, done + {qid})|
    ensures missing' == |MissingIn(gt, preds, done + {qid})|
  {
    correct', wrong', missing' := correct, wrong, missing;
    var gtAnswer := gt[qid];
    var predAnswer := if qid in preds then preds[qid] else None;
    if predAnswer.None? {
      ScanMissing(gt, preds, done, qid);
      missing' := missing + 1;
    } else if SameAnswer(gtAnswer, predAnswer.value) {
      ScanCorrect(gt, preds, done, qid);
      correct' := correct + 1;
    } else {
      ScanWrong(gt, preds, done, qid);
      wrong' := wrong + 1;
    }
  }

  lemma AllScanned(gt: map<string, string>, preds: map<string, Option<string>>, todo: set<string>, done: set<string>)
    requires done == gt.Keys - todo && todo == {}
    ensures CorrectIn(gt, preds, done) == CorrectQids(gt, preds)
    ensures WrongIn(gt, preds, done) == WrongQids(gt, preds)
    ensures MissingIn(gt, preds, done) == MissingQids(gt, preds)
  {
    assert done == gt.Keys;
  }

  /** Every ground-truth qid lands in exactly one class, so the counts add up to the number of qids. */
  lemma CountsAddUp(gt: map<string, string>, preds: map<string, Option<string>>)
    ensures |CorrectQids(gt, preds)| + |WrongQids(gt, preds)| + |MissingQids(gt, preds)| == |gt.Keys|
  {
    Partition(gt, preds);
    var c, w, m := CorrectQids(gt, preds), WrongQids(gt, preds), MissingQids(gt, preds);
    assert |c + w| == |c| + |w|;
    assert |(c + w) + m| == |c + w| + |m|;
  }

  /**
   * The counting loop of `evaluate`: each ground-truth qid, in sorted order (the
   * order only affects what is printed), is exactly one of missing, correct or
   * wrong, so the three counts add up to the number of distinct ground-truth qids.
   */
  method Evaluate(gt: map<string, string>, preds: map<string, Option<string>>)
    returns (correct: nat, wrong: nat, missing: nat)
    ensures correct == |CorrectQids(gt, preds)|
    ensures wrong == |WrongQids(gt, preds)|
    ensures missing == |MissingQids(gt, preds)|
    ensures correct + wrong + missing == |gt.Keys|
  {
    correct, wrong, missing := 0, 0, 0;
    var todo := gt.Keys;
    ghost var done: set<string> := {};
    while todo != {}
      invariant todo <= gt.Keys && done == gt.Keys - todo
      invariant correct == |CorrectIn(gt, preds, done)|
      invariant wrong == |WrongIn(gt, preds, done)|
      invariant missing == |MissingIn(gt, preds, done)|
      decreases |todo|
    {
      var qid :| qid in todo;
      correct, wrong, missing := Tally(gt, preds, done, qid, correct, wrong, missing);
      todo := todo - {qid};
      done := done + {qid};
    }
    AllScanned(gt, preds, todo, done);
    CountsAddUp(gt, preds);
  }

  /** The three classes split the ground-truth qids: pairwise disjoint, and together all of them. */
  lemma Partition(gt: map<string, string>, preds: map<string, Option<string>>)
    ensures CorrectQids(gt, preds) !! WrongQids(gt, preds)
    ensures CorrectQids(gt, preds) !! MissingQids(gt, preds)
    ensures WrongQids(gt, preds) !! MissingQids(gt, preds)
    ensures CorrectQids(gt, preds) + WrongQids(gt, preds) + MissingQids(gt, preds) == gt.Keys
  {
  }

  /** A prediction for a qid outside the ground truth changes no count. */
  lemma ExtraPredictionIgnored(gt: map<string, string>, preds: map<string, Option<string>>, q: string, a: Option<string>)
    requires q !in gt
    ensures CorrectQids(gt, preds[q := a]) == CorrectQids(gt, preds)
    ensures WrongQids(gt, preds[q := a]) == WrongQids(gt, preds)
    ensures MissingQids(gt, preds[q := a]) == MissingQids(gt, preds)
  {
  }

  /** The comparison ignores case: lower-casing a prediction keeps every count. */
  lemma CaseOfPredictionIgnored(gt: map<string, string>, preds: map<string, Option<string>>, q: string, a: string)
    ensures CorrectQids(gt, preds[q := Some(Lower(a))]) == CorrectQids(gt, preds[q := Some(a)])
    ensures WrongQids(gt, preds[q := Some(Lower(a))]) == WrongQids(gt, preds[q := Some(a)])
  {
    assert Upper(Lower(a)) == Upper(a) by {
      forall i | 0 <= i < |a| ensures Upper(Lower(a))[i] == Upper(a)[i] {
        CaseMapsAgree(a[i]);
      }
    }
  }

  /** A `null` answer counts as missing even though its qid was logged. */
  lemma NullAnswerIsMissing(log: seq<Line>, q: string)
    requires log != [] && log[|log| - 1] == Record(Str(q), Null, Absent, Absent)
    ensures IsMissing(Predictions(log), q)
  {
  }
}

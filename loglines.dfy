/**
 * A line of the JSONL inference log that predict.py writes and that predict.py
 * and evaluate.py read back, as `json.loads` sees it. Only the keys the
 * pipeline reads are kept.
 */
module LogLines {
  import opened Wrappers

  /** One key of a parsed record: missing, JSON `null`, or a string. */
  datatype Field = Absent | Null | Str(s: string) {

    /** `record.get(key)`: `None` for a missing key and for `null`. */
    function Get(): (r: Option<string>)
      ensures r.Some? <==> Str?
      ensures r.Some? ==> r.value == s
    {
      if Str? then Some(s) else None
    }

    /** `record.get(key, default)`: the default replaces a missing key, but not a `null`. */
    function GetOr(default: string): (r: Option<string>)
      ensures Absent? ==> r == Some(default)
      ensures Null? ==> r == None
      ensures Str? ==> r == Some(s)
    {
      match this
      case Absent => Some(default)
      case Null => None
      case Str(v) => Some(v)
    }
  }

  /**
   * A log line: `Malformed` when `json.loads` raises or the value is not an
   * object (so `.get` raises too); otherwise the object's four keys.
   */
  datatype Line = Malformed | Record(qid: Field, answer: Field, category: Field, reasoning: Field)

  /** The qid `record.get('qid')` reads from line `i`; `None` for a malformed line too. */
  function QidAt(log: seq<Line>, i: nat): (q: Option<string>)
    requires i < |log|
    ensures q.Some? ==> log[i].Record? && log[i].qid == Str(q.value)
  {
    if log[i].Record? then log[i].qid.Get() else None
  }

  /** No string qid appears on two lines of the log. */
  predicate NoRepeatedQid(log: seq<Line>) {
    forall i, j :: 0 <= i < j < |log| && QidAt(log, i).Some? ==> QidAt(log, i) != QidAt(log, j)
  }
}

/**
 * The toxic checker (src/agent/modules/toxic/solver.py): no model call; it looks
 * for the choice that is a refusal ("I cannot answer", ...) and answers with its label.
 */
module ToxicChecker {
  import opened Wrappers
  import opened Text
  import opened State
  import opened Answers

  /** The nine refusal phrases, lower case. */
  const Keywords: seq<string> := [
    "tôi không thể trả lời",
    "tôi không biết",
    "tôi không thể cung cấp",
    "không thể chia sẻ",
    "không thể hỗ trợ",
    "không được phép",
    "từ chối trả lời",
    "không thể đưa ra",
    "không cung cấp"
  ]

  const FallbackReasoning: string := "Toxic category but no clear refusal found."

  /** Some refusal phrase occurs in the lower-cased choice. */
  predicate IsRefusal(choice: string) {
    exists k :: 0 <= k < |Keywords| && Contains(Lower(choice), Keywords[k])
  }

  /** A refusal that is also labelled `X.` with X in A-J: the only kind the checker answers with. */
  predicate IsHit(choice: string) {
    IsRefusal(choice) && ChoiceLabel(choice).Some?
  }

  /** The first hit at or after `i`. */
  function FirstHit(choices: seq<string>, i: nat): (r: Option<nat>)
    ensures r.Some? ==> i <= r.value < |choices| && IsHit(choices[r.value])
    ensures forall j :: i <= j < |choices| && (r.None? || j < r.value) ==> !IsHit(choices[j])
    decreases |choices| - i
  {
    if i >= |choices| then None
    else if IsHit(choices[i]) then Some(i)
    else FirstHit(choices, i + 1)
  }

  /** The first labelled choice at or after `i`. */
  function FirstLabelled(choices: seq<string>, i: nat): (r: Option<nat>)
    ensures r.Some? ==> i <= r.value < |choices| && ChoiceLabel(choices[r.value]).Some?
    ensures forall j :: i <= j < |choices| && (r.None? || j < r.value) ==> ChoiceLabel(choices[j]).None?
    decreases |choices| - i
  {
    if i >= |choices| then None
    else if ChoiceLabel(choices[i]).Some? then Some(i)
    else FirstLabelled(choices, i + 1)
  }

  datatype Verdict = Verdict(answer: string, reasoning: string)

  /** The checker's decision: the first hit; else the first labelled choice with the fallback reasoning; else `A`. */
  function ToxicVerdict(choices: seq<string>): Verdict
  {
    match FirstHit(choices, 0)
    case Some(i) => Verdict([choices[i][0]], "Toxic: " + Take(choices[i], 50) + "...")
    case None =>
      match FirstLabelled(choices, 0)
      case Some(j) => Verdict([choices[j][0]], FallbackReasoning)
      case None => Verdict("A", FallbackReasoning)
  }

  /** The answer is always one letter in A-J, and it is the label of a choice unless no choice is labelled. */
  lemma {:induction false} VerdictIsChoiceLetter(choices: seq<string>)
    ensures |ToxicVerdict(choices).answer| == 1 && IsChoiceLetter(ToxicVerdict(choices).answer[0])
    ensures FirstLabelled(choices, 0).Some? ==>
      exists i :: 0 <= i < |choices| && ChoiceLabel(choices[i]) == Some(ToxicVerdict(choices).answer[0])
  {
    var h := FirstHit(choices, 0);
    if h.Some? {
      assert ChoiceLabel(choices[h.value]) == Some(choices[h.value][0]);
    } else {
      var l := FirstLabelled(choices, 0);
      if l.Some? {
        assert ChoiceLabel(choices[l.value]) == Some(choices[l.value][0]);
      }
    }
  }

  /** A refusal without an `X.` label is passed over, so a labelled refusal after it still wins. */
  lemma UnlabelledRefusalSkipped(first: string, second: string)
    requires IsRefusal(first) && ChoiceLabel(first).None? && IsHit(second)
    ensures ToxicVerdict([first, second]) == Verdict([second[0]], "Toxic: " + Take(second, 50) + "...")
  {
    assert FirstHit([first, second], 0) == Some(1);
  }

  /**
   * The scan of `toxic_checker_node`: choices in order, and for each the refusal
   * phrases in order; the first phrase found in a labelled choice decides. Otherwise
   * the first labelled choice gives the letter, and `A` when there is none.
   */
  method ScanChoices(choices: seq<string>) returns (answer: string, reasoning: string)
    ensures Verdict(answer, reasoning) == ToxicVerdict(choices)
  {
    var i := 0;
    while i < |choices|
      invariant 0 <= i <= |choices|
      invariant FirstHit(choices, 0) == FirstHit(choices, i)
    {
      var choice := choices[i];
      var lowered := Lower(choice);
      var k := 0;
      while k < |Keywords|
        invariant 0 <= k <= |Keywords|
        invariant forall m :: 0 <= m < k ==> !Contains(lowered, Keywords[m]) || ChoiceLabel(choice).None?
      {
        if Contains(lowered, Keywords[k]) {
          var tag := ChoiceLabel(choice);
          if tag.Some? {
            assert IsHit(choice);
            return [tag.value], "Toxic: " + Take(choice, 50) + "...";
          }
        }
        k := k + 1;
      }
      assert !IsHit(choice);
      i := i + 1;
    }
    answer := "A";
    var j := 0;
    while j < |choices|
      invariant 0 <= j <= |choices|
      invariant FirstLabelled(choices, 0) == FirstLabelled(choices, j)
    {
      var tag := ChoiceLabel(choices[j]);
      if tag.Some? {
        answer := [tag.value];
        break;
      }
      j := j + 1;
    }
    reasoning := FallbackReasoning;
  }

  /** `toxic_checker_node`: no model call; only `answer` and `reasoning` are written. */
  method ToxicCheckerNode(st: AgentState)
    modifies st`answer, st`reasoning
    ensures Verdict(st.answer, st.reasoning) == ToxicVerdict(old(st.choices))
  {
    var answer, reasoning := ScanChoices(st.choices);
    st.answer := answer;
    st.reasoning := reasoning;
  }
}

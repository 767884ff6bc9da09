/**
 * The router node (src/agent/router.py): one call to the small classifier model,
 * then a keyword test on its reply that writes `category` and nothing else.
 */
module Router {
  import opened Text
  import opened Client
  import opened State

  /** The four categories the graph dispatches on. */
  predicate IsCategory(c: string) {
    c == "toxic" || c == "math" || c == "reading" || c == "rag"
  }

  /** The keyword tests on the normalised reply, in priority order. */
  function CategoryOf(u: string): (category: string)
    ensures IsCategory(category)
  {
    if Contains(u, "TOXIC") then "toxic"
    else if Contains(u, "MATH") then "math"
    else if Contains(u, "READING") then "reading"
    else "rag"
  }

  /** The category for a classifier reply: the keyword tests on the stripped, upper-cased reply. */
  function Classify(reply: string): (category: string)
    ensures IsCategory(category)
  {
    CategoryOf(Upper(Strip(reply)))
  }

  lemma {:induction false} UpperStripCommute(s: string)
    ensures Upper(Strip(s)) == Strip(Upper(s))
  {
    forall c ensures IsSpace(UpperChar(c)) <==> IsSpace(c) {
      CaseMapsAgree(c);
    }
    StripCommutes(UpperChar, s);
  }

  /** A keyword occurs in the stripped, upper-cased reply exactly when it occurs anywhere in the upper-cased reply. */
  lemma {:induction false} KeywordAnywhere(reply: string, word: string)
    requires word != [] && NoSpace(word)
    ensures Contains(Upper(Strip(reply)), word) <==> Contains(Upper(reply), word)
  {
    UpperStripCommute(reply);
    ContainsIgnoresPadding(Upper(reply), word);
    assert Contains(Strip(Upper(reply)), word) <==> Contains(Upper(reply), word);
  }

  /**
   * The classification stated on the raw reply: `TOXIC` anywhere (in any case) wins,
   * then `MATH`, then `READING`; a reply with none of them, including the `""` a
   * failed call is masked to, is `rag`.
   */
  lemma {:induction false} ClassifyByPriority(reply: string)
    ensures Classify(reply) == "toxic" <==> Contains(Upper(reply), "TOXIC")
    ensures Classify(reply) == "math" <==> !Contains(Upper(reply), "TOXIC") && Contains(Upper(reply), "MATH")
    ensures Classify(reply) == "reading" <==>
      !Contains(Upper(reply), "TOXIC") && !Contains(Upper(reply), "MATH") && Contains(Upper(reply), "READING")
    ensures Classify(reply) == "rag" <==>
      !Contains(Upper(reply), "TOXIC") && !Contains(Upper(reply), "MATH") && !Contains(Upper(reply), "READING")
  {
    assert NoSpace("TOXIC") && NoSpace("MATH") && NoSpace("READING");
    KeywordAnywhere(reply, "TOXIC");
    KeywordAnywhere(reply, "MATH");
    KeywordAnywhere(reply, "READING");
  }

  /** The classification ignores the letter case of the reply. */
  lemma {:induction false} ClassifyIgnoresCase(reply: string)
    ensures Classify(Lower(reply)) == Classify(reply)
  {
    UpperStripLower(reply);
  }

  lemma {:induction false} UpperStripLower(reply: string)
    ensures Upper(Strip(Lower(reply))) == Upper(Strip(reply))
  {
    forall c ensures IsSpace(LowerChar(c)) <==> IsSpace(c) {
      CaseMapsAgree(c);
    }
    StripCommutes(LowerChar, reply);
    var s := Strip(reply);
    forall i | 0 <= i < |s| ensures Upper(Lower(s))[i] == Upper(s)[i] {
      CaseMapsAgree(s[i]);
    }
    assert Upper(Lower(s)) == Upper(s);
  }

  /** The classification ignores whitespace around the reply. */
  lemma {:induction false} ClassifyIgnoresPadding(pre: string, reply: string, post: string)
    requires AllSpace(pre) && AllSpace(post)
    ensures Classify(pre + reply + post) == Classify(reply)
  {
    StripOfPadded(pre, reply, post);
    assert Strip(pre + reply + post) == Strip(reply);
  }

  /** A failed classifier call, masked to `""`, routes to retrieval. */
  lemma EmptyReplyIsRag()
    ensures Classify("") == "rag"
  {
    ClassifyByPriority("");
  }

  /** A reply naming two categories takes the one of higher priority. */
  lemma MixedReplyTakesPriority()
    ensures Classify("MATH OR TOXIC") == "toxic"
  {
    var r := "MATH OR TOXIC";
    StripUnpadded(r);
    UpperKeepsAsciiUpper(r);
    assert MatchAt(r, "TOXIC", 8);
  }

  lemma BareMathReply()
    ensures Classify("MATH") == "math"
  {
    var r := "MATH";
    StripUnpadded(r);
    UpperKeepsAsciiUpper(r);
    assert MatchAt(r, "MATH", 0);
  }

  lemma LowerMath()
    ensures Lower("MATH") == "math"
  {
    assert LowerChar('M') == 'm' && LowerChar('A') == 'a' && LowerChar('T') == 't' && LowerChar('H') == 'h';
  }

  lemma PaddingAroundMath()
    ensures Classify("  math\n") == Classify("math")
  {
    var pre, post := "  ", "\n";
    assert pre + "math" + post == "  math\n";
    assert AllSpace(pre) && AllSpace(post);
    ClassifyIgnoresPadding(pre, "math", post);
  }

  /** A lower-case, padded reply is recognised. */
  lemma PaddedLowerCaseReply()
    ensures Classify("  math\n") == "math"
  {
    PaddingAroundMath();
    LowerMath();
    ClassifyIgnoresCase("MATH");
    BareMathReply();
  }

  /**
   * `router_node`: calls the classifier once. A rate limit escapes before anything is
   * written; otherwise `category` gets the classification of the (masked) reply.
   */
  method RouterNode(st: AgentState, call: Outcome<string>) returns (exit: Exit)
    modifies st`category
    ensures ChatReply(call).RateLimited? ==> exit == RateLimitRaised(call.msg) && st.category == old(st.category)
    ensures ChatReply(call).Ok? ==> exit == Returned && st.category == Classify(ChatReply(call).value)
  {
    var reply := ChatReply(call);
    if reply.RateLimited? {
      return RateLimitRaised(reply.msg);
    }
    st.category := Classify(reply.value);
    return Returned;
  }
}

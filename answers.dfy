/**
 * The three ways the solvers read an answer letter out of text:
 * `re.match(r'([A-Z])', s)` (math and reading), `re.search(r'\b([A-Z])\b', s)` (RAG)
 * and `re.match(r'^([A-J])\.', s)` (toxic choices).
 */
module Answers {
  import opened Wrappers
  import opened Text

  predicate IsCapital(c: char) {
    'A' <= c <= 'Z'
  }

  /** A letter the toxic checker accepts as a choice label. */
  predicate IsChoiceLetter(c: char) {
    'A' <= c <= 'J'
  }

  /** `re.match(r'([A-Z])', s)`: the first character, when it is an ASCII capital. No strip is applied. */
  function LeadingCapital(s: string): (r: Option<char>)
    ensures r.Some? <==> s != [] && IsCapital(s[0])
    ensures r.Some? ==> r.value == s[0]
  {
    if s != [] && IsCapital(s[0]) then Some(s[0]) else None
  }

  /**
   * The regex class `\w` on one character: alphanumerics and `_`. Python uses the
   * whole Unicode database; this model covers ASCII, Latin-1, Latin Extended-A/B
   * and Latin Extended Additional (which holds the Vietnamese letters), plus the
   * capital Mu U+039C that `µ` upper-cases to.
   */
  predicate IsWordChar(c: char) {
    var n := c as int;
    ('a' <= c <= 'z') || ('A' <= c <= 'Z') || ('0' <= c <= '9') || c == '_'
    || n == 0xAA || n == 0xB2 || n == 0xB3 || n == 0xB5 || n == 0xB9 || n == 0xBA || 0xBC <= n <= 0xBE
    || (0xC0 <= n <= 0x24F && n != 0xD7 && n != 0xF7)
    || 0x1E00 <= n <= 0x1EFF || n == 0x39C
  }

  /** A capital at index `i` with a word boundary on both sides (`\b([A-Z])\b`). */
  predicate StandaloneAt(s: string, i: int) {
    0 <= i < |s| && IsCapital(s[i])
    && (i == 0 || !IsWordChar(s[i - 1]))
    && (i + 1 == |s| || !IsWordChar(s[i + 1]))
  }

  /** The leftmost standalone capital at or after `from`. */
  function FirstStandalone(s: string, from: nat): (r: Option<nat>)
    ensures r.Some? ==> from <= r.value && StandaloneAt(s, r.value)
    ensures forall j :: from <= j && (r.None? || j < r.value) ==> !StandaloneAt(s, j)
    decreases |s| - from
  {
    if from >= |s| then None
    else if StandaloneAt(s, from) then Some(from)
    else FirstStandalone(s, from + 1)
  }

  /** `re.search(r'\b([A-Z])\b', s)`: the first capital letter that stands alone as a word. */
  function StandaloneCapital(s: string): (r: Option<char>)
    ensures r.Some? <==> exists i :: StandaloneAt(s, i)
    ensures r.Some? ==>
      exists i :: StandaloneAt(s, i) && r.value == s[i] && (forall j :: 0 <= j < i ==> !StandaloneAt(s, j))
  {
    var k := FirstStandalone(s, 0);
    if k.Some? then Some(s[k.value]) else None
  }

  /** `re.match(r'^([A-J])\.', s)`: the label of a choice written `X.`. */
  function ChoiceLabel(s: string): (r: Option<char>)
    ensures r.Some? <==> |s| >= 2 && IsChoiceLetter(s[0]) && s[1] == '.'
    ensures r.Some? ==> r.value == s[0]
  {
    if |s| >= 2 && IsChoiceLetter(s[0]) && s[1] == '.' then Some(s[0]) else None
  }

  /** `m.group(1) if m else default`, as a one-character string. */
  function LetterOr(m: Option<char>, default: char): string {
    [m.GetOr(default)]
  }

  /** The first standalone capital wins even when a later one follows, and letters inside words never match. */
  lemma StandaloneExamples()
    ensures StandaloneCapital("B") == Some('B')
    ensures StandaloneCapital("ĐÁP ÁN: C") == Some('C')
    ensures StandaloneCapital("A HOẶC B") == Some('A')
    ensures StandaloneCapital("ĐÁP ÁN") == None
  {
    assert StandaloneAt("B", 0);
    assert StandaloneAt("ĐÁP ÁN: C", 8);
    assert StandaloneAt("A HOẶC B", 0);
  }
}

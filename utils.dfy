/**
 * `transform_choices` (src/utils.py): give every choice of every item a letter
 * label `A. `, `B. `, ... unless it already starts with its own letter.
 */
module Utils {
  import opened Wrappers
  import opened Text

  /** An input record as loaded: each key may be missing; a JSON `null` is not told apart from a missing key. */
  datatype RawItem = RawItem(qid: Option<string>, id: Option<string>, question: Option<string>, choices: Option<seq<string>>)

  /** An output record: exactly the three keys `qid`, `question` and `choices`. */
  datatype Item = Item(qid: string, question: string, choices: seq<string>)

  /** `chr(ord('A') + i)` is a Dafny character while it stays below the surrogate range. */
  const MaxChoices: nat := 0xD800 - 0x41

  function Letter(i: nat): (c: char)
    requires i < MaxChoices
    ensures c as int == 0x41 + i
  {
    (0x41 + i) as char
  }

  /** The stripped choice already starts with `letter.` or `letter `. */
  predicate Labelled(choice: string, letter: char) {
    StartsWith(Strip(choice), [letter, '.']) || StartsWith(Strip(choice), [letter, ' '])
  }

  /** The `i`-th choice after the transformation. */
  function MapChoice(choice: string, i: nat): string
    requires i < MaxChoices
  {
    if Labelled(choice, Letter(i)) then choice else [Letter(i)] + ". " + choice
  }

  function MapChoices(choices: seq<string>): (r: seq<string>)
    requires |choices| <= MaxChoices
    ensures |r| == |choices|
  {
    seq(|choices|, i requires 0 <= i < |choices| => MapChoice(choices[i], i))
  }

  /** `item.get('qid', item.get('id', ''))`. */
  function QidOf(item: RawItem): string {
    item.qid.GetOr(item.id.GetOr(""))
  }

  function ChoicesOf(item: RawItem): seq<string> {
    item.choices.GetOr([])
  }

  predicate Fits(data: seq<RawItem>) {
    forall k :: 0 <= k < |data| ==> |ChoicesOf(data[k])| <= MaxChoices
  }

  function TransformItem(item: RawItem): Item
    requires |ChoicesOf(item)| <= MaxChoices
  {
    Item(QidOf(item), item.question.GetOr(""), MapChoices(ChoicesOf(item)))
  }

  function Transformed(data: seq<RawItem>): (out: seq<Item>)
    requires Fits(data)
    ensures |out| == |data|
  {
    seq(|data|, k requires 0 <= k < |data| => TransformItem(data[k]))
  }

  /** `transform_choices`, with its two nested loops; the input is not changed. */
  method TransformChoices(data: seq<RawItem>) returns (transformed: seq<Item>)
    requires Fits(data)
    ensures transformed == Transformed(data)
  {
    transformed := [];
    for k := 0 to |data|
      invariant |transformed| == k
      invariant forall j :: 0 <= j < k ==> transformed[j] == TransformItem(data[j])
    {
      var item := data[k];
      var qid := item.qid.GetOr(item.id.GetOr(""));
      var question := item.question.GetOr("");
      var choices := item.choices.GetOr([]);
      var mapped: seq<string> := [];
      for i := 0 to |choices|
        invariant |mapped| == i
        invariant forall j :: 0 <= j < i ==> mapped[j] == MapChoice(choices[j], j)
      {
        var letter := (0x41 + i) as char;
        var stripped := Strip(choices[i]);
        if !StartsWith(stripped, [letter, '.']) && !StartsWith(stripped, [letter, ' ']) {
          mapped := mapped + [[letter] + ". " + choices[i]];
        } else {
          mapped := mapped + [choices[i]];
        }
      }
      transformed := transformed + [Item(qid, question, mapped)];
    }
  }

  /**
   * One record per input, in order: the qid from `qid`, else `id`, else `""`;
   * the question, else `""`; the choices in their order, each labelled unless
   * its stripped text already starts with its letter and `.` or a space.
   */
  lemma TransformedFacts(data: seq<RawItem>)
    requires Fits(data)
    ensures var out := Transformed(data);
      && |out| == |data|
      && forall k :: 0 <= k < |data| ==>
        && (data[k].qid.Some? ==> out[k].qid == data[k].qid.value)
        && (data[k].qid.None? && data[k].id.Some? ==> out[k].qid == data[k].id.value)
        && (data[k].qid.None? && data[k].id.None? ==> out[k].qid == "")
        && out[k].question == data[k].question.GetOr("")
        && |out[k].choices| == |ChoicesOf(data[k])|
        && forall i :: 0 <= i < |ChoicesOf(data[k])| ==>
          var c := ChoicesOf(data[k])[i];
          && (Labelled(c, Letter(i)) ==> out[k].choices[i] == c)
          && (!Labelled(c, Letter(i)) ==> out[k].choices[i] == [Letter(i)] + ". " + c)
  {
  }

  /** An output record read back as input. */
  function AsRaw(item: Item): RawItem {
    RawItem(Some(item.qid), None, Some(item.question), Some(item.choices))
  }

  /** A label `X. ` put in front of any text makes it count as labelled with `X`, unless `X` is whitespace. */
  lemma LabelSticks(choice: string, letter: char)
    requires !IsSpace(letter)
    ensures Labelled([letter] + ". " + choice, letter)
  {
    var m := [letter] + ". " + choice;
    assert m[0] == letter && m[1] == '.';
    StripKeepsPrefix(m, 2);
    assert m[..2] == [letter, '.'];
  }

  /** No label of the first `n` choices is a whitespace character (true of the first 68). */
  predicate PrintableLabels(n: nat) {
    forall i :: 0 <= i < n && i < MaxChoices ==> !IsSpace(Letter(i))
  }

  lemma {:induction false} MapChoicesIdempotent(choices: seq<string>)
    requires |choices| <= MaxChoices && PrintableLabels(|choices|)
    ensures MapChoices(MapChoices(choices)) == MapChoices(choices)
  {
    var once := MapChoices(choices);
    forall i | 0 <= i < |choices| ensures MapChoice(once[i], i) == once[i] {
      if !Labelled(choices[i], Letter(i)) {
        LabelSticks(choices[i], Letter(i));
      }
    }
  }

  /** Transforming the output again changes nothing: the labelling is idempotent. */
  lemma TransformIdempotent(data: seq<RawItem>)
    requires Fits(data)
    requires forall k :: 0 <= k < |data| ==> PrintableLabels(|ChoicesOf(data[k])|)
    ensures var out := Transformed(data);
      var again := seq(|out|, k requires 0 <= k < |out| => AsRaw(out[k]));
      Fits(again) && Transformed(again) == out
  {
    var out := Transformed(data);
    forall k | 0 <= k < |data| ensures TransformItem(AsRaw(out[k])) == out[k] {
      MapChoicesIdempotent(ChoicesOf(data[k]));
    }
  }

  /** The first 68 labels, `A` to `U+0084`, are not whitespace. */
  lemma FirstLabelsPrintable()
    ensures PrintableLabels(68)
  {
  }

  /**
   * The 69th label is U+0085, which `strip` removes: a list of 69 choices is
   * labelled a second time by a second pass.
   */
  lemma SixtyNinthLabelIsStripped()
    ensures MapChoices(MapChoices(seq(69, _ => "x"))) != MapChoices(seq(69, _ => "x"))
  {
    var cs := seq(69, _ => "x");
    var l := Letter(68);
    StripUnpadded("x");
    var once := [l] + ". " + "x";
    assert MapChoices(cs)[68] == once;
    assert TrimStart(once) == ". x" by {
      assert once[1..] == ". x";
    }
    assert TrimEnd(". x") == ". x";
    assert Strip(once) == ". x";
    assert |MapChoices(MapChoices(cs))[68]| == 7;
  }

  /** Text that starts with a character other than its letter, and is not padded, gets the label. */
  lemma LabelledAfresh(c: string, i: nat)
    requires i < MaxChoices && c != [] && !IsSpace(c[0]) && !IsSpace(c[|c| - 1]) && c[0] != Letter(i)
    ensures MapChoice(c, i) == [Letter(i)] + ". " + c
  {
    StripUnpadded(c);
  }

  /** Text that neither is padded nor starts with the letter `l`. */
  predicate Fresh(c: string, l: char) {
    c != [] && !IsSpace(c[0]) && !IsSpace(c[|c| - 1]) && c[0] != l
  }

  /** Four unlabelled choices each get their label. */
  lemma LabelsFour(a: string, b: string, c: string, d: string)
    requires Fresh(a, 'A') && Fresh(b, 'B') && Fresh(c, 'C') && Fresh(d, 'D')
    ensures MapChoices([a, b, c, d]) == ["A. " + a, "B. " + b, "C. " + c, "D. " + d]
  {
    assert Letter(0) == 'A' && Letter(1) == 'B' && Letter(2) == 'C' && Letter(3) == 'D';
    LabelledAfresh(a, 0);
    LabelledAfresh(b, 1);
    LabelledAfresh(c, 2);
    LabelledAfresh(d, 3);
    var r := MapChoices([a, b, c, d]);
    assert r[0] == "A. " + a && r[1] == "B. " + b && r[2] == "C. " + c && r[3] == "D. " + d;
  }

  /** The example in the function's documentation. */
  lemma DocExample()
    ensures MapChoices(["Môi trường", "Kinh tế", "Văn hóa", "Quốc phòng an ninh"])
         == ["A. " + "Môi trường", "B. " + "Kinh tế", "C. " + "Văn hóa", "D. " + "Quốc phòng an ninh"]
  {
    LabelsFour("Môi trường", "Kinh tế", "Văn hóa", "Quốc phòng an ninh");
  }
}

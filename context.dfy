/**
 * Context assembly (`format_context` in src/agent/modules/rag/solver.py): the
 * retrieved points become cited blocks, deduplicated on the first 200 characters
 * of their content and cut off once about 6000 characters are used.
 */
module Context {
  import opened Wrappers
  import opened Text
  import opened Retrieval

  const MaxContextLength: nat := 6000
  const DedupPrefix: nat := 200
  const MinRemaining: nat := 200
  const Ellipsis := "..."
  const BlockSeparator := "\n\n---\n\n"
  const DefaultTitle := "Tài liệu"
  const LegalMark := "\U{1F4DC}"

  /** `payload.get(key, default)`. */
  function Get(p: Payload, key: string, default: string): string {
    if key in p then p[key] else default
  }

  /** `if payload.get(key): parts.append(payload[key])`. */
  function PartIfSet(p: Payload, key: string): (r: seq<string>)
    ensures r == [] <==> key !in p || p[key] == ""
  {
    if key in p && p[key] != "" then [p[key]] else []
  }

  /** The citation header: document, chapter and article for legal text, else the title. */
  function Header(p: Payload): string {
    if "domain" in p && p["domain"] == "legal" then
      "[" + LegalMark + " " + Join(" - ", PartIfSet(p, "doc_title") + PartIfSet(p, "chapter") + PartIfSet(p, "article_num")) + "]"
    else
      "[ " + Get(p, "doc_title", DefaultTitle) + "]"
  }

  /** The stripped `content` field. */
  function ContentOf(p: Point): string {
    Strip(Get(p.payload, "content", ""))
  }

  /** What the assembly reads from one point: its stripped content, dedup key and header. */
  datatype Source = Source(content: string, key: string, header: string)

  /** The deduplication key: the first 200 characters of the content (the source hashes it). */
  function SourceOf(p: Point): (r: Source)
    ensures r.key == Take(r.content, DedupPrefix)
  {
    var content := ContentOf(p);
    Source(content, Take(content, DedupPrefix), Header(p.payload))
  }

  /** A block of the context: the point it came from, its key, header and (possibly cut) body. */
  datatype Block = Block(source: nat, key: string, header: string, body: string) {
    function Text(): string {
      header + "\n" + body
    }
  }

  /**
   * The budget rule for content met when `total` characters are written: kept
   * whole while it fits, cut to the remaining space plus `...` when at least 200
   * characters remain, otherwise the assembly stops (`None`).
   */
  function Cut(content: string, total: nat): (r: Option<string>)
    ensures total + |content| <= MaxContextLength ==> r == Some(content)
    ensures r.None? <==> total + |content| > MaxContextLength && MaxContextLength - total < MinRemaining
    ensures r.Some? && r.value != content ==>
      MinRemaining <= MaxContextLength - total < |content|
      && r.value == content[..MaxContextLength - total] + Ellipsis
  {
    if total + |content| <= MaxContextLength then Some(content)
    else if MaxContextLength - total < MinRemaining then None
    else Some(content[..MaxContextLength - total] + Ellipsis)
  }

  /**
   * The blocks produced from `points[i..]` when the keys in `seen` were already
   * used and `total` characters were already written.
   */
  function Rest(points: seq<Point>, i: nat, seen: set<string>, total: nat): seq<Block>
    decreases |points| - i, 1
  {
    if i >= |points| then []
    else
      var src := SourceOf(points[i]);
      if src.key in seen then Rest(points, i + 1, seen, total)
      else
        match Cut(src.content, total)
        case None => []
        case Some(body) =>
          var b := Block(i, src.key, src.header, body);
          [b] + After(points, i, seen + {b.key}, total + |b.Text()|)
  }

  /** What follows a block that brought the total to `total`: nothing once the budget is used up. */
  function After(points: seq<Point>, i: nat, seen: set<string>, total: nat): seq<Block>
    requires i < |points|
    decreases |points| - i, 0
  {
    if total >= MaxContextLength then [] else Rest(points, i + 1, seen, total)
  }

  function Blocks(points: seq<Point>): seq<Block> {
    Rest(points, 0, {}, 0)
  }

  function Texts(bs: seq<Block>): (ts: seq<string>)
    ensures |ts| == |bs| && forall k :: 0 <= k < |bs| ==> ts[k] == bs[k].Text()
  {
    seq(|bs|, k requires 0 <= k < |bs| => bs[k].Text())
  }

  /** `format_context`, with the loop and the two `break`s of the source. */
  method FormatContext(points: seq<Point>) returns (context: string)
    ensures context == Join(BlockSeparator, Texts(Blocks(points)))
  {
    ghost var all := Blocks(points);
    var contexts: seq<string> := [];
    ghost var blocks: seq<Block> := [];
    var seen: set<string> := {};
    var total: nat := 0;
    var i := 0;
    while i < |points|
      invariant 0 <= i <= |points|
      invariant blocks + Rest(points, i, seen, total) == all
      invariant contexts == Texts(blocks)
    {
      var payload := points[i].payload;
      var content := Strip(Get(payload, "content", ""));
      var key := Take(content, DedupPrefix);
      if key in seen {
        RestSkips(points, i, seen, total);
        assert blocks + Rest(points, i + 1, seen, total) == all;
        i := i + 1;
        continue;
      }
      ghost var seenBefore := seen;
      seen := seen + {key};
      var header := Header(payload);
      ghost var whole := content;
      if total + |content| > MaxContextLength {
        var remaining := MaxContextLength - total;
        if remaining < MinRemaining {
          RestStops(points, i, seenBefore, total);
          assert blocks == blocks + Rest(points, i, seenBefore, total);
          break;
        }
        content := content[..remaining] + Ellipsis;
        CutOver(whole, total);
      } else {
        CutFits(whole, total);
      }
      var formatted := header + "\n" + content;
      ghost var b := Block(i, key, header, content);
      ghost var blocksBefore := blocks;
      ghost var totalBefore := total;
      TextsAppend(blocks, b);
      contexts := contexts + [formatted];
      blocks := blocks + [b];
      total := total + |formatted|;
      EmitStep(points, i, seenBefore, totalBefore, b, blocksBefore, all, seen, total, blocks);
      if total >= MaxContextLength {
        break;
      }
      i := i + 1;
    }
    assert blocks == all;
    context := Join(BlockSeparator, contexts);
  }

  lemma TextsAppend(bs: seq<Block>, b: Block)
    ensures Texts(bs + [b]) == Texts(bs) + [b.Text()]
  {
  }

  lemma RestSkips(points: seq<Point>, i: nat, seen: set<string>, total: nat)
    requires i < |points| && SourceOf(points[i]).key in seen
    ensures Rest(points, i, seen, total) == Rest(points, i + 1, seen, total)
  {
  }

  lemma RestStops(points: seq<Point>, i: nat, seen: set<string>, total: nat)
    requires i < |points| && SourceOf(points[i]).key !in seen
    requires Cut(SourceOf(points[i]).content, total).None?
    ensures Rest(points, i, seen, total) == []
  {
  }

  lemma RestEmits(points: seq<Point>, i: nat, seen: set<string>, total: nat, b: Block)
    requires i < |points| && SourceOf(points[i]).key !in seen
    requires Cut(SourceOf(points[i]).content, total) == Some(b.body)
    requires b.source == i && b.key == SourceOf(points[i]).key && b.header == SourceOf(points[i]).header
    ensures Rest(points, i, seen, total) == [b] + After(points, i, seen + {b.key}, total + |b.Text()|)
  {
  }

  /** One emitted block, as the loop sees it: the blocks so far plus what remains are still the whole result. */
  lemma EmitStep(points: seq<Point>, i: nat, seen: set<string>, total: nat, b: Block, blocks: seq<Block>,
                 all: seq<Block>, seen': set<string>, total': nat, blocks': seq<Block>)
    requires i < |points| && SourceOf(points[i]).key !in seen
    requires Cut(SourceOf(points[i]).content, total) == Some(b.body)
    requires b.source == i && b.key == SourceOf(points[i]).key && b.header == SourceOf(points[i]).header
    requires blocks + Rest(points, i, seen, total) == all
    requires seen' == seen + {b.key} && total' == total + |b.Text()| && blocks' == blocks + [b]
    ensures total' >= MaxContextLength ==> blocks' == all
    ensures total' < MaxContextLength ==> blocks' + Rest(points, i + 1, seen', total') == all
  {
    RestEmits(points, i, seen, total, b);
    EmitTail(points, i, seen, total, b, blocks, all, seen', total', blocks');
  }

  lemma EmitTail(points: seq<Point>, i: nat, seen: set<string>, total: nat, b: Block, blocks: seq<Block>,
                 all: seq<Block>, seen': set<string>, total': nat, blocks': seq<Block>)
    requires i < |points|
    requires Rest(points, i, seen, total) == [b] + After(points, i, seen', total')
    requires blocks + Rest(points, i, seen, total) == all
    requires blocks' == blocks + [b]
    ensures total' >= MaxContextLength ==> blocks' == all
    ensures total' < MaxContextLength ==> blocks' + Rest(points, i + 1, seen', total') == all
  {
    var after := After(points, i, seen', total');
    BlocksAssoc(blocks, [b], after);
    if total' >= MaxContextLength {
      BlocksAssoc(blocks', [], []);
    }
  }

  /** The keys of a list of blocks. */
  function Keys(bs: seq<Block>): (ks: set<string>)
    ensures forall k :: 0 <= k < |bs| ==> bs[k].key in ks
    decreases |bs|
  {
    if bs == [] then {} else {bs[0].key} + Keys(bs[1..])
  }

  /** The characters the blocks of `bs` add to the running total. */
  function Used(bs: seq<Block>): nat
    decreases |bs|
  {
    if bs == [] then 0 else Used(bs[..|bs| - 1]) + |bs[|bs| - 1].Text()|
  }

  /**
   * Block `b` shows point `b.source`: that point's key and header, and its
   * stripped content either whole or cut to a prefix of at least 200 characters
   * followed by `...`.
   */
  predicate Cites(points: seq<Point>, b: Block) {
    b.source < |points| &&
    var src := SourceOf(points[b.source]);
    && b.key == src.key
    && b.header == src.header
    && (b.body == src.content
        || (MinRemaining <= |b.body| - |Ellipsis| < |src.content|
            && b.body == src.content[..|b.body| - |Ellipsis|] + Ellipsis))
  }

  /**
   * `bs` cites points at or after `i` in increasing order, and no two of its
   * blocks, and none of them with a key in `seen`, share a key.
   */
  predicate Deduplicated(points: seq<Point>, bs: seq<Block>, i: nat, seen: set<string>) {
    && (forall k :: 0 <= k < |bs| ==> i <= bs[k].source && Cites(points, bs[k]) && bs[k].key !in seen)
    && (forall k, l :: 0 <= k < l < |bs| ==> bs[k].source < bs[l].source && bs[k].key != bs[l].key)
  }

  /** Every point from `i` up to an emitted block was passed over only because its key was taken. */
  predicate OnlyDuplicatesDropped(points: seq<Point>, bs: seq<Block>, i: nat, seen: set<string>) {
    forall k, j :: 0 <= k < |bs| && i <= j < bs[k].source && j < |points| ==>
      SourceOf(points[j]).key in seen + Keys(bs[..k])
  }

  /** Each block of `bs` is started while the running total, from `total`, is still under 6000. */
  predicate StartsWithinBudget(bs: seq<Block>, total: nat) {
    forall k :: 0 <= k < |bs| ==> total + Used(bs[..k]) < MaxContextLength
  }

  /** Where reading goes on after the blocks `bs`: just past the last one, or at `i` when there is none. */
  function NextFrom(bs: seq<Block>, i: nat): nat {
    if bs == [] then i else bs[|bs| - 1].source + 1
  }

  /**
   * The assembly may end at point `from` with the keys `seen` used and `total`
   * characters written only when, skipping the points that repeat a used key,
   * it reaches the end of the points, or the budget is used up, or the first
   * point with a new key no longer fits (fewer than 200 characters remain for it).
   */
  predicate Stopped(points: seq<Point>, from: nat, seen: set<string>, total: nat)
    decreases |points| - from
  {
    if from >= |points| || total >= MaxContextLength then true
    else if SourceOf(points[from]).key in seen then Stopped(points, from + 1, seen, total)
    else Cut(SourceOf(points[from]).content, total).None?
  }

  /** Every point from `from` on repeats a key in `seen`. */
  predicate AllRepeat(points: seq<Point>, from: nat, seen: set<string>) {
    forall j :: from <= j < |points| ==> SourceOf(points[j]).key in seen
  }

  /** The first point from `from` on with a key not in `seen` does not fit after `total` characters. */
  predicate FirstNewDoesNotFit(points: seq<Point>, from: nat, seen: set<string>, total: nat) {
    exists j :: from <= j < |points| && SourceOf(points[j]).key !in seen
      && Cut(SourceOf(points[j]).content, total).None?
      && forall l :: from <= l < j ==> SourceOf(points[l]).key in seen
  }

  /** `Stopped`, read without recursion: one of the three reasons holds, and conversely. */
  lemma {:induction false} StoppedMeans(points: seq<Point>, from: nat, seen: set<string>, total: nat)
    ensures Stopped(points, from, seen, total) <==>
      AllRepeat(points, from, seen) || total >= MaxContextLength || FirstNewDoesNotFit(points, from, seen, total)
    decreases |points| - from
  {
    if from >= |points| || total >= MaxContextLength {
    } else if SourceOf(points[from]).key in seen {
      StoppedMeans(points, from + 1, seen, total);
      RepeatShifts(points, from, seen, total);
    } else {
      NewKeyDecides(points, from, seen, total);
    }
  }

  /** A repeated key at `from` changes neither reason that speaks of later points. */
  lemma RepeatShifts(points: seq<Point>, from: nat, seen: set<string>, total: nat)
    requires from < |points| && SourceOf(points[from]).key in seen
    ensures AllRepeat(points, from, seen) <==> AllRepeat(points, from + 1, seen)
    ensures FirstNewDoesNotFit(points, from, seen, total) <==> FirstNewDoesNotFit(points, from + 1, seen, total)
  {
    if FirstNewDoesNotFit(points, from, seen, total) {
      FirstNewLater(points, from, seen, total);
    }
    if FirstNewDoesNotFit(points, from + 1, seen, total) {
      FirstNewEarlier(points, from, seen, total);
    }
  }

  lemma FirstNewLater(points: seq<Point>, from: nat, seen: set<string>, total: nat)
    requires from < |points| && SourceOf(points[from]).key in seen
    requires FirstNewDoesNotFit(points, from, seen, total)
    ensures FirstNewDoesNotFit(points, from + 1, seen, total)
  {
    var j :| from <= j < |points| && SourceOf(points[j]).key !in seen
      && Cut(SourceOf(points[j]).content, total).None?
      && forall l :: from <= l < j ==> SourceOf(points[l]).key in seen;
    assert from + 1 <= j;
  }

  lemma FirstNewEarlier(points: seq<Point>, from: nat, seen: set<string>, total: nat)
    requires from < |points| && SourceOf(points[from]).key in seen
    requires FirstNewDoesNotFit(points, from + 1, seen, total)
    ensures FirstNewDoesNotFit(points, from, seen, total)
  {
    var j :| from + 1 <= j < |points| && SourceOf(points[j]).key !in seen
      && Cut(SourceOf(points[j]).content, total).None?
      && forall l :: from + 1 <= l < j ==> SourceOf(points[l]).key in seen;
    assert forall l :: from <= l < j ==> SourceOf(points[l]).key in seen;
  }

  /** A new key at `from` decides: the reading stopped exactly when that point does not fit. */
  lemma NewKeyDecides(points: seq<Point>, from: nat, seen: set<string>, total: nat)
    requires from < |points| && SourceOf(points[from]).key !in seen
    ensures !AllRepeat(points, from, seen)
    ensures FirstNewDoesNotFit(points, from, seen, total) <==> Cut(SourceOf(points[from]).content, total).None?
  {
    if FirstNewDoesNotFit(points, from, seen, total) {
      var j :| from <= j < |points| && SourceOf(points[j]).key !in seen
        && Cut(SourceOf(points[j]).content, total).None?
        && forall l :: from <= l < j ==> SourceOf(points[l]).key in seen;
      assert j == from;
    }
  }

  /** The blocks `bs`, read from `i` on, end only for one of the reasons of `Stopped`. */
  predicate EndsForCause(points: seq<Point>, bs: seq<Block>, i: nat, seen: set<string>, total: nat) {
    Stopped(points, NextFrom(bs, i), seen + Keys(bs), total + Used(bs))
  }

  /** The three facts together, for the blocks that follow a running total of `total`. */
  predicate Assembled(points: seq<Point>, bs: seq<Block>, i: nat, seen: set<string>, total: nat) {
    && Deduplicated(points, bs, i, seen)
    && OnlyDuplicatesDropped(points, bs, i, seen)
    && (total < MaxContextLength ==> StartsWithinBudget(bs, total))
  }

  /**
   * What `format_context` promises about its blocks: deduplicated on the
   * 200-character key, in input order, each citing its point, no point before the
   * last block dropped except as a duplicate of an earlier one, none started after
   * the budget is used up, and the list ends only when every later point is a
   * duplicate, the budget is used up, or the next point with a new key does not fit.
   */
  lemma BlocksFacts(points: seq<Point>)
    ensures Deduplicated(points, Blocks(points), 0, {})
    ensures OnlyDuplicatesDropped(points, Blocks(points), 0, {})
    ensures StartsWithinBudget(Blocks(points), 0)
    ensures EndsForCause(points, Blocks(points), 0, {}, 0)
  {
    RestFacts(points, 0, {}, 0);
  }

  /** The facts of BlocksFacts for the blocks of `points[i..]`, from any state of the scan. */
  lemma RestFacts(points: seq<Point>, i: nat, seen: set<string>, total: nat)
    ensures Assembled(points, Rest(points, i, seen, total), i, seen, total)
    ensures EndsForCause(points, Rest(points, i, seen, total), i, seen, total)
  {
    RestAssembled(points, i, seen, total);
    RestEndsForCause(points, i, seen, total);
  }

  lemma {:induction false} RestAssembled(points: seq<Point>, i: nat, seen: set<string>, total: nat)
    ensures Assembled(points, Rest(points, i, seen, total), i, seen, total)
    decreases |points| - i
  {
    if i >= |points| {
      RestEnds(points, i, seen, total);
      EmptyAssembled(points, i, seen, total);
    } else if SourceOf(points[i]).key in seen {
      RestAssembled(points, i + 1, seen, total);
      SkipCase(points, i, seen, total);
    } else if Cut(SourceOf(points[i]).content, total).None? {
      RestStops(points, i, seen, total);
      EmptyAssembled(points, i, seen, total);
    } else {
      var src := SourceOf(points[i]);
      var b := Block(i, src.key, src.header, Cut(src.content, total).value);
      var seen', total' := seen + {b.key}, total + |b.Text()|;
      var tail := After(points, i, seen', total');
      if total' < MaxContextLength {
        RestAssembled(points, i + 1, seen', total');
        AfterGoesOn(points, i, seen', total');
      } else {
        AfterStops(points, i, seen', total');
        EmptyAssembled(points, i + 1, seen', total');
      }
      EmitCase(points, i, seen, total, b, tail);
    }
  }

  /** The blocks of `points[i..]` end only for one of the reasons of `Stopped`. */
  lemma {:induction false} RestEndsForCause(points: seq<Point>, i: nat, seen: set<string>, total: nat)
    ensures EndsForCause(points, Rest(points, i, seen, total), i, seen, total)
    decreases |points| - i
  {
    if i >= |points| {
      RestEnds(points, i, seen, total);
      NothingEmitted(points, i, seen, total);
    } else if SourceOf(points[i]).key in seen {
      RestEndsForCause(points, i + 1, seen, total);
      SkipEnds(points, i, seen, total);
    } else if Cut(SourceOf(points[i]).content, total).None? {
      RestStops(points, i, seen, total);
      NothingEmitted(points, i, seen, total);
    } else {
      var src := SourceOf(points[i]);
      var b := Block(i, src.key, src.header, Cut(src.content, total).value);
      var seen', total' := seen + {b.key}, total + |b.Text()|;
      var tail := After(points, i, seen', total');
      if total' < MaxContextLength {
        RestEndsForCause(points, i + 1, seen', total');
        AfterGoesOn(points, i, seen', total');
      } else {
        AfterStops(points, i, seen', total');
        NothingEmitted(points, i + 1, seen', total');
      }
      EmitEnds(points, i, seen, total, b, tail);
    }
  }

  lemma SkipEnds(points: seq<Point>, i: nat, seen: set<string>, total: nat)
    requires i < |points| && SourceOf(points[i]).key in seen
    requires EndsForCause(points, Rest(points, i + 1, seen, total), i + 1, seen, total)
    ensures EndsForCause(points, Rest(points, i, seen, total), i, seen, total)
  {
    RestSkips(points, i, seen, total);
    if Rest(points, i + 1, seen, total) == [] {
      NothingEmitted(points, i + 1, seen, total);
      StoppedBack(points, i, seen, total);
      NothingEmitted(points, i, seen, total);
    }
  }

  lemma EmitEnds(points: seq<Point>, i: nat, seen: set<string>, total: nat, b: Block, tail: seq<Block>)
    requires i < |points| && SourceOf(points[i]).key !in seen
    requires Cut(SourceOf(points[i]).content, total) == Some(b.body)
    requires b.source == i && b.key == SourceOf(points[i]).key && b.header == SourceOf(points[i]).header
    requires tail == After(points, i, seen + {b.key}, total + |b.Text()|)
    requires EndsForCause(points, tail, i + 1, seen + {b.key}, total + |b.Text()|)
    ensures EndsForCause(points, Rest(points, i, seen, total), i, seen, total)
  {
    RestEmits(points, i, seen, total, b);
    ConsEnds(points, i, seen, total, b, tail);
  }

  /** With no blocks, the blocks end for a cause exactly when the reading stopped at `i` for one. */
  lemma NothingEmitted(points: seq<Point>, i: nat, seen: set<string>, total: nat)
    ensures EndsForCause(points, [], i, seen, total) <==> Stopped(points, i, seen, total)
    ensures i >= |points| || total >= MaxContextLength ==> Stopped(points, i, seen, total)
    ensures i < |points| && SourceOf(points[i]).key !in seen && Cut(SourceOf(points[i]).content, total).None? ==>
      Stopped(points, i, seen, total)
  {
    assert Keys([]) == {} && Used([]) == 0 && NextFrom([], i) == i;
    assert seen + Keys([]) == seen;
  }

  /** A duplicate at `i` does not change why the reading stopped. */
  lemma StoppedBack(points: seq<Point>, i: nat, seen: set<string>, total: nat)
    requires i < |points| && SourceOf(points[i]).key in seen
    requires Stopped(points, i + 1, seen, total)
    ensures Stopped(points, i, seen, total)
  {
  }

  /** A block emitted at `i` hands the reasons for stopping on to the blocks after it. */
  lemma ConsEnds(points: seq<Point>, i: nat, seen: set<string>, total: nat, b: Block, tail: seq<Block>)
    requires b.source == i
    requires EndsForCause(points, tail, i + 1, seen + {b.key}, total + |b.Text()|)
    ensures EndsForCause(points, [b] + tail, i, seen, total)
  {
    var bs := [b] + tail;
    assert bs[1..] == tail;
    assert Keys(bs) == {b.key} + Keys(tail);
    UsedCons(b, tail);
    assert NextFrom(bs, i) == NextFrom(tail, i + 1);
    assert seen + Keys(bs) == seen + {b.key} + Keys(tail);
  }

  lemma EmitCase(points: seq<Point>, i: nat, seen: set<string>, total: nat, b: Block, tail: seq<Block>)
    requires i < |points| && SourceOf(points[i]).key !in seen
    requires Cut(SourceOf(points[i]).content, total) == Some(b.body)
    requires b.source == i && b.key == SourceOf(points[i]).key && b.header == SourceOf(points[i]).header
    requires tail == After(points, i, seen + {b.key}, total + |b.Text()|)
    requires Assembled(points, tail, i + 1, seen + {b.key}, total + |b.Text()|)
    ensures Assembled(points, Rest(points, i, seen, total), i, seen, total)
  {
    RestEmits(points, i, seen, total, b);
    CutCites(points, i, total, b);
    if tail != [] {
      assert total + |b.Text()| < MaxContextLength;
    }
    EmitFacts(points, i, seen, total, b, tail);
  }

  lemma SkipCase(points: seq<Point>, i: nat, seen: set<string>, total: nat)
    requires i < |points| && SourceOf(points[i]).key in seen
    requires Assembled(points, Rest(points, i + 1, seen, total), i + 1, seen, total)
    ensures Assembled(points, Rest(points, i, seen, total), i, seen, total)
  {
    RestSkips(points, i, seen, total);
    SkipKeeps(points, Rest(points, i + 1, seen, total), i, seen, total);
  }

  lemma AfterGoesOn(points: seq<Point>, i: nat, seen: set<string>, total: nat)
    requires i < |points| && total < MaxContextLength
    ensures After(points, i, seen, total) == Rest(points, i + 1, seen, total)
  {
  }

  lemma EmptyAssembled(points: seq<Point>, i: nat, seen: set<string>, total: nat)
    ensures Assembled(points, [], i, seen, total)
  {
  }

  lemma RestEnds(points: seq<Point>, i: nat, seen: set<string>, total: nat)
    requires i >= |points|
    ensures Rest(points, i, seen, total) == []
  {
  }

  lemma AfterStops(points: seq<Point>, i: nat, seen: set<string>, total: nat)
    requires i < |points| && total >= MaxContextLength
    ensures After(points, i, seen, total) == []
  {
  }

  /** The facts for a block `b` emitted at `i` followed by `tail`. */
  lemma EmitFacts(points: seq<Point>, i: nat, seen: set<string>, total: nat, b: Block, tail: seq<Block>)
    requires b.source == i && Cites(points, b) && b.key !in seen
    requires Assembled(points, tail, i + 1, seen + {b.key}, total + |b.Text()|)
    requires tail != [] ==> total + |b.Text()| < MaxContextLength
    ensures Assembled(points, [b] + tail, i, seen, total)
  {
    ConsKeeps(points, i, seen, b, tail);
    if total < MaxContextLength {
      BudgetCons(b, tail, total);
    }
  }

  lemma CutCites(points: seq<Point>, i: nat, total: nat, b: Block)
    requires i < |points| && b.source == i
    requires b.key == SourceOf(points[i]).key && b.header == SourceOf(points[i]).header
    requires Cut(SourceOf(points[i]).content, total) == Some(b.body)
    ensures Cites(points, b)
  {
  }

  lemma SkipKeeps(points: seq<Point>, bs: seq<Block>, i: nat, seen: set<string>, total: nat)
    requires i < |points| && SourceOf(points[i]).key in seen
    requires Assembled(points, bs, i + 1, seen, total)
    ensures Assembled(points, bs, i, seen, total)
  {
  }

  lemma ConsKeeps(points: seq<Point>, i: nat, seen: set<string>, b: Block, tail: seq<Block>)
    requires b.source == i && Cites(points, b) && b.key !in seen
    requires Deduplicated(points, tail, i + 1, seen + {b.key})
    requires OnlyDuplicatesDropped(points, tail, i + 1, seen + {b.key})
    ensures Deduplicated(points, [b] + tail, i, seen)
    ensures OnlyDuplicatesDropped(points, [b] + tail, i, seen)
  {
    DedupCons(points, i, seen, b, tail);
    DroppedCons(points, i, seen, b, tail);
  }

  lemma DedupCons(points: seq<Point>, i: nat, seen: set<string>, b: Block, tail: seq<Block>)
    requires b.source == i && Cites(points, b) && b.key !in seen
    requires Deduplicated(points, tail, i + 1, seen + {b.key})
    ensures Deduplicated(points, [b] + tail, i, seen)
  {
    CitesCons(points, i, seen, b, tail);
    OrderCons(points, i, seen, b, tail);
  }

  lemma CitesCons(points: seq<Point>, i: nat, seen: set<string>, b: Block, tail: seq<Block>)
    requires b.source == i && Cites(points, b) && b.key !in seen
    requires forall k :: 0 <= k < |tail| ==> i + 1 <= tail[k].source && Cites(points, tail[k]) && tail[k].key !in seen + {b.key}
    ensures forall k :: 0 <= k < |[b] + tail| ==>
      i <= ([b] + tail)[k].source && Cites(points, ([b] + tail)[k]) && ([b] + tail)[k].key !in seen
  {
    var bs := [b] + tail;
    forall k | 0 <= k < |bs|
      ensures i <= bs[k].source && Cites(points, bs[k]) && bs[k].key !in seen
    {
      if k > 0 {
        assert bs[k] == tail[k - 1];
      }
    }
  }

  lemma OrderCons(points: seq<Point>, i: nat, seen: set<string>, b: Block, tail: seq<Block>)
    requires b.source == i
    requires forall k :: 0 <= k < |tail| ==> i + 1 <= tail[k].source && tail[k].key !in seen + {b.key}
    requires forall k, l :: 0 <= k < l < |tail| ==> tail[k].source < tail[l].source && tail[k].key != tail[l].key
    ensures forall k, l :: 0 <= k < l < |[b] + tail| ==>
      ([b] + tail)[k].source < ([b] + tail)[l].source && ([b] + tail)[k].key != ([b] + tail)[l].key
  {
    var bs := [b] + tail;
    forall k, l | 0 <= k < l < |bs|
      ensures bs[k].source < bs[l].source && bs[k].key != bs[l].key
    {
      assert bs[l] == tail[l - 1];
      if k > 0 {
        assert bs[k] == tail[k - 1];
      }
    }
  }

  lemma DroppedCons(points: seq<Point>, i: nat, seen: set<string>, b: Block, tail: seq<Block>)
    requires b.source == i && i < |points| && b.key == SourceOf(points[i]).key
    requires OnlyDuplicatesDropped(points, tail, i + 1, seen + {b.key})
    ensures OnlyDuplicatesDropped(points, [b] + tail, i, seen)
  {
    var bs := [b] + tail;
    forall k, j | 0 <= k < |bs| && i <= j < bs[k].source && j < |points|
      ensures SourceOf(points[j]).key in seen + Keys(bs[..k])
    {
      PrefixCons(b, tail, k);
      if j > i {
        assert bs[k] == tail[k - 1];
        assert SourceOf(points[j]).key in seen + {b.key} + Keys(tail[..k - 1]);
      }
    }
  }

  /** The first `k` blocks of `[b] + tail` are `b` and the first `k - 1` of `tail`. */
  lemma PrefixCons(b: Block, tail: seq<Block>, k: nat)
    requires 0 < k <= |tail| + 1
    ensures ([b] + tail)[..k] == [b] + tail[..k - 1]
    ensures Keys(([b] + tail)[..k]) == {b.key} + Keys(tail[..k - 1])
  {
    var p := ([b] + tail)[..k];
    assert p == [b] + tail[..k - 1];
    assert p[1..] == tail[..k - 1];
  }

  lemma BudgetCons(b: Block, tail: seq<Block>, total: nat)
    requires total < MaxContextLength
    requires tail != [] ==> total + |b.Text()| < MaxContextLength
    requires tail != [] ==> StartsWithinBudget(tail, total + |b.Text()|)
    ensures StartsWithinBudget([b] + tail, total)
  {
    var bs := [b] + tail;
    forall k | 0 <= k < |bs|
      ensures total + Used(bs[..k]) < MaxContextLength
    {
      if k > 0 {
        PrefixCons(b, tail, k);
        UsedCons(b, tail[..k - 1]);
      }
    }
  }

  lemma {:induction false} UsedCons(b: Block, bs: seq<Block>)
    ensures Used([b] + bs) == |b.Text()| + Used(bs)
    decreases |bs|
  {
    if bs != [] {
      var n := |bs| - 1;
      assert ([b] + bs)[..n + 1] == [b] + bs[..n];
      UsedCons(b, bs[..n]);
    } else {
      assert [b] + bs == [b];
      assert [b][..0] == [];
    }
  }

  lemma BlocksAssoc(a: seq<Block>, b: seq<Block>, c: seq<Block>)
    ensures a + (b + c) == (a + b) + c
    ensures a + [] == a
  {
  }

  lemma CutOver(content: string, total: nat)
    requires total + |content| > MaxContextLength && MaxContextLength - total >= MinRemaining
    ensures Cut(content, total) == Some(content[..MaxContextLength - total] + Ellipsis)
  {
  }

  lemma CutFits(content: string, total: nat)
    requires total + |content| <= MaxContextLength
    ensures Cut(content, total) == Some(content)
  {
  }
}

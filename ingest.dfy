/**
 * Document preparation (data_pipeline/ingest.py): a crawled legal document is
 * cleaned, cut into one chunk per article ("Điều"), or into overlapping
 * paragraph blocks when it has fewer than three articles, and every chunk is
 * tagged with the document's id, title and metadata and a chunk id
 * `"{doc_id}_{i}"`. The text cleaning and the regular expressions are
 * parameters; what the code does with their results is modelled.
 */
module Ingest {
  import opened Wrappers
  import opened Text

  const MinDocumentLength: nat := 200
  const MinArticleBody: nat := 30
  const ArticleTitleLength: nat := 100
  const MinArticleChunks: nat := 3
  const TargetSize: nat := 1500
  const MinBlockSize: nat := 500
  const OverlapSize: nat := 200

  /**
   * The text operations `ingest` takes from `re` and `clean_text`:
   * `clean` is `clean_text`; `splitArticles` is `re.split` on the article
   * pattern (text and matched headers alternate); `isArticleHeader` is the
   * `re.match(r'Điều\s+\d+', ...)` test; `chapterIn` and `sectionIn` are the
   * stripped first "Chương ..." and "Mục ..." line found by `re.search`;
   * `splitParagraphs` is `re.split(r'\n\n+', ...)`.
   */
  datatype Patterns = Patterns(
    clean: string -> string,
    splitArticles: string -> seq<string>,
    isArticleHeader: string -> bool,
    chapterIn: string -> Option<string>,
    sectionIn: string -> Option<string>,
    splitParagraphs: string -> seq<string>)

  /** A crawled document as `doc.get` reads it: a missing id or content reads as `""`, a missing `info` as `{}`. */
  datatype Document = Document(id: string, title: Option<string>, content: string, info: map<string, string>)

  datatype DocMeta = DocMeta(soHieu: string, ngayBanHanh: string, coQuan: string, hieuLuc: string)

  /** What a chunk records besides its text: the article fields, a block's index, or nothing for a whole document. */
  datatype Kind =
    | Article(articleNum: string, articleTitle: string, chapter: string, section: string, contextHeader: string)
    | Block(chunkIdx: nat)
    | FullDoc

  datatype Chunk = Chunk(kind: Kind, content: string, charCount: nat)

  /** A chunk of `process_document`'s output. */
  datatype DocChunk = DocChunk(docId: string, docTitle: string, docMeta: DocMeta, chunkId: string, chunk: Chunk)

  // ------------------------------------------------------------------
  // extract_doc_metadata
  // ------------------------------------------------------------------

  /** `info.get(primary, info.get(alternate, ""))`. */
  function Lookup(info: map<string, string>, primary: string, alternate: string): (v: string)
    ensures primary in info ==> v == info[primary]
    ensures primary !in info && alternate in info ==> v == info[alternate]
    ensures primary !in info && alternate !in info ==> v == ""
  {
    if primary in info then info[primary] else if alternate in info then info[alternate] else ""
  }

  /** `extract_doc_metadata`: each field from its primary key, else its alternate key, else `""`. */
  function ExtractDocMetadata(info: map<string, string>): (m: DocMeta)
    ensures m.soHieu == Lookup(info, "Số hiệu", "Số/Ký hiệu")
    ensures m.ngayBanHanh == Lookup(info, "Ngày ban hành", "Ngày")
    ensures m.coQuan == Lookup(info, "Cơ quan ban hành", "Nguồn")
    ensures m.hieuLuc == Lookup(info, "Tình trạng hiệu lực", "Hiệu lực")
  {
    DocMeta(
      Lookup(info, "Số hiệu", "Số/Ký hiệu"),
      Lookup(info, "Ngày ban hành", "Ngày"),
      Lookup(info, "Cơ quan ban hành", "Nguồn"),
      Lookup(info, "Tình trạng hiệu lực", "Hiệu lực"))
  }

  // ------------------------------------------------------------------
  // chunk_by_article
  // ------------------------------------------------------------------

  /** `s.split('\n')[0]`: everything before the first line break. */
  function FirstLine(s: string): (r: string)
    ensures StartsWith(s, r)
    ensures forall k :: 0 <= k < |r| ==> r[k] != '\n'
    ensures |r| < |s| ==> s[|r|] == '\n'
  {
    match IndexOf(s, "\n", 0)
    case Some(k) =>
      NoLineBreakBefore(s, k);
      assert s[k..k + 1] == "\n";
      s[..k]
    case None =>
      NoLineBreakBefore(s, |s|);
      s
  }

  lemma NoLineBreakBefore(s: string, k: nat)
    requires k <= |s| && forall j :: 0 <= j < k ==> !MatchAt(s, "\n", j)
    ensures forall j :: 0 <= j < k ==> s[j] != '\n'
  {
    forall j | 0 <= j < k ensures s[j] != '\n' {
      assert !MatchAt(s, "\n", j);
      assert s[j..j + 1] == [s[j]];
    }
  }

  /** The article title: the body's first line, stripped, cut to 100 characters. */
  function ArticleTitle(body: string): (r: string)
    ensures |r| <= ArticleTitleLength
    ensures StartsWith(Strip(FirstLine(body)), r)
  {
    Take(Strip(FirstLine(body)), ArticleTitleLength)
  }

  /** `context_header`: `[title]`, then ` - chapter` when there is one, then ` - article`, then `: title` when there is one. */
  function Header(docTitle: string, chapter: string, num: string, title: string): string {
    "[" + docTitle + "]" + (if chapter != "" then " - " + chapter else "") + " - " + num + (if title != "" then ": " + title else "")
  }

  /** The chunk for an article with header `num` and body `body` (both already stripped). */
  function ArticleChunk(rx: Patterns, docTitle: string, num: string, body: string, chapter: string, section: string): Chunk {
    var title := ArticleTitle(body);
    var header := Header(docTitle, chapter, num, title);
    var full := header + "\n\n" + body;
    Chunk(Article(num, title, chapter, section, header), rx.clean(full), |full|)
  }

  /**
   * The loop of `chunk_by_article` from part `i` on, with the chapter and
   * section seen so far: every scanned part may update them; an article header
   * with a following part takes that part as its body (emitting a chunk when the
   * body is longer than 30 characters) and the scan resumes after the body.
   */
  function ArticleScan(rx: Patterns, docTitle: string, parts: seq<string>, i: nat, chapter: string, section: string): seq<Chunk>
    decreases |parts| - i
  {
    if i >= |parts| then []
    else
      var part := Strip(parts[i]);
      var chapter' := rx.chapterIn(part).GetOr(chapter);
      var section' := rx.sectionIn(part).GetOr(section);
      if rx.isArticleHeader(part) && i + 1 < |parts| then
        var body := Strip(parts[i + 1]);
        (if |body| > MinArticleBody then [ArticleChunk(rx, docTitle, part, body, chapter', section')] else [])
          + ArticleScan(rx, docTitle, parts, i + 2, chapter', section')
      else
        ArticleScan(rx, docTitle, parts, i + 1, chapter', section')
  }

  function ArticleChunks(rx: Patterns, content: string, docTitle: string): seq<Chunk> {
    ArticleScan(rx, docTitle, rx.splitArticles(content), 0, "", "")
  }

  /**
   * One pass of the `chunk_by_article` loop at part `i`: the chunk it emits
   * (if any), where the scan resumes, and the chapter and section it carries on.
   */
  method ArticleStep(rx: Patterns, docTitle: string, parts: seq<string>, i: nat, chapter: string, section: string)
    returns (emitted: seq<Chunk>, next: nat, chapter': string, section': string)
    requires i < |parts|
    ensures i < next <= |parts| + 1 && |emitted| <= 1
    ensures ArticleScan(rx, docTitle, parts, i, chapter, section) == emitted + ArticleScan(rx, docTitle, parts, next, chapter', section')
  {
    var part := Strip(parts[i]);
    chapter', section' := chapter, section;
    var chapterMatch := rx.chapterIn(part);
    if chapterMatch.Some? {
      chapter' := chapterMatch.value;
    }
    var sectionMatch := rx.sectionIn(part);
    if sectionMatch.Some? {
      section' := sectionMatch.value;
    }
    emitted := [];
    if rx.isArticleHeader(part) && i + 1 < |parts| {
      var body := Strip(parts[i + 1]);
      if |body| > MinArticleBody {
        emitted := [ArticleChunk(rx, docTitle, part, body, chapter', section')];
      }
      next := i + 2;
    } else {
      next := i + 1;
    }
  }

  /** `chunk_by_article`. */
  method ChunkByArticle(rx: Patterns, content: string, docTitle: string) returns (chunks: seq<Chunk>)
    ensures chunks == ArticleChunks(rx, content, docTitle)
  {
    var parts := rx.splitArticles(content);
    chunks := [];
    var chapter, section := "", "";
    var i := 0;
    while i < |parts|
      invariant chunks + ArticleScan(rx, docTitle, parts, i, chapter, section) == ArticleChunks(rx, content, docTitle)
      decreases |parts| - i
    {
      var emitted, next, chapter', section' := ArticleStep(rx, docTitle, parts, i, chapter, section);
      ChunksAssoc(chunks, emitted, ArticleScan(rx, docTitle, parts, next, chapter', section'));
      chunks, i, chapter, section := chunks + emitted, next, chapter', section';
    }
  }

  /**
   * Every article chunk comes from a part that passed the header test, has a
   * body of more than 30 characters after its header, a title of at most 100
   * characters, and a header that opens with the bracketed document title and
   * names the article; each chunk uses up two parts.
   */
  lemma {:induction false} ArticleScanFacts(rx: Patterns, docTitle: string, parts: seq<string>, i: nat, chapter: string, section: string)
    requires i <= |parts|
    ensures 2 * |ArticleScan(rx, docTitle, parts, i, chapter, section)| <= |parts| - i
    ensures forall c :: c in ArticleScan(rx, docTitle, parts, i, chapter, section) ==>
      && c.kind.Article?
      && rx.isArticleHeader(c.kind.articleNum)
      && |c.kind.articleTitle| <= ArticleTitleLength
      && StartsWith(c.kind.contextHeader, "[" + docTitle + "]")
      && c.charCount > |c.kind.contextHeader| + 2 + MinArticleBody
    decreases |parts| - i
  {
    if i < |parts| {
      var part := Strip(parts[i]);
      var chapter' := rx.chapterIn(part).GetOr(chapter);
      var section' := rx.sectionIn(part).GetOr(section);
      if rx.isArticleHeader(part) && i + 1 < |parts| {
        ArticleScanFacts(rx, docTitle, parts, i + 2, chapter', section');
        var body := Strip(parts[i + 1]);
        var c := ArticleChunk(rx, docTitle, part, body, chapter', section');
        var open := "[" + docTitle + "]";
        assert c.kind.contextHeader[..|open|] == open;
      } else {
        ArticleScanFacts(rx, docTitle, parts, i + 1, chapter', section');
      }
    }
  }

  /** The header names the document, then the chapter when known, then the article, then its title when known. */
  lemma HeaderForm(docTitle: string, chapter: string, num: string, title: string)
    ensures var h := Header(docTitle, chapter, num, title);
      && StartsWith(h, "[" + docTitle + "]")
      && (chapter != "" ==> StartsWith(h, "[" + docTitle + "] - " + chapter + " - " + num))
      && (chapter == "" ==> StartsWith(h, "[" + docTitle + "] - " + num))
      && (title != "" ==> h[|h| - |title| - 2..] == ": " + title)
      && (title == "" ==> h[|h| - |num|..] == num)
  {
    var h := Header(docTitle, chapter, num, title);
    var open := "[" + docTitle + "]";
    var mid := if chapter != "" then " - " + chapter else "";
    var front := open + mid + " - " + num;
    var tail := if title != "" then ": " + title else "";
    assert h == front + tail;
    assert h[..|open|] == open;
    assert h[..|front|] == front;
    assert h[|front|..] == tail;
    if chapter != "" {
      assert front == "[" + docTitle + "] - " + chapter + " - " + num;
    } else {
      assert front == "[" + docTitle + "] - " + num;
    }
  }

  /**
   * `re.split` with a capturing group puts every matched header at an odd index
   * and the text after it at the next one, so once the scan is on a header it
   * stays on headers, and every body is consumed without being searched for a
   * chapter or section heading. When the headers themselves hold no such
   * heading, every article keeps the chapter and section it started with.
   */
  lemma {:induction false} HeadersOnlyScan(rx: Patterns, docTitle: string, parts: seq<string>, i: nat, chapter: string, section: string)
    requires i % 2 == 1
    requires forall j :: i <= j < |parts| && j % 2 == 1 ==>
      var h := Strip(parts[j]); rx.isArticleHeader(h) && rx.chapterIn(h).None? && rx.sectionIn(h).None?
    ensures forall c :: c in ArticleScan(rx, docTitle, parts, i, chapter, section) ==>
      c.kind.Article? && c.kind.chapter == chapter && c.kind.section == section
    decreases |parts| - i
  {
    if i + 1 < |parts| {
      HeadersOnlyScan(rx, docTitle, parts, i + 2, chapter, section);
    }
  }

  /**
   * Consequence of the scan order: the chapter and section of every article
   * chunk are the ones found in the text before the first article, whatever
   * chapter headings appear later in the document.
   */
  lemma ChapterComesFromPreamble(rx: Patterns, content: string, docTitle: string)
    requires var parts := rx.splitArticles(content);
      && parts != [] && !rx.isArticleHeader(Strip(parts[0]))
      && forall j :: 0 <= j < |parts| && j % 2 == 1 ==>
           var h := Strip(parts[j]); rx.isArticleHeader(h) && rx.chapterIn(h).None? && rx.sectionIn(h).None?
    ensures var preamble := Strip(rx.splitArticles(content)[0]);
      forall c :: c in ArticleChunks(rx, content, docTitle) ==>
        && c.kind.Article?
        && c.kind.chapter == rx.chapterIn(preamble).GetOr("")
        && c.kind.section == rx.sectionIn(preamble).GetOr("")
  {
    var parts := rx.splitArticles(content);
    var preamble := Strip(parts[0]);
    HeadersOnlyScan(rx, docTitle, parts, 1, rx.chapterIn(preamble).GetOr(""), rx.sectionIn(preamble).GetOr(""));
  }

  // ------------------------------------------------------------------
  // chunk_by_semantic_blocks
  // ------------------------------------------------------------------

  /** `f"[{doc_title}]\n\n"`: how every block begins. */
  function Opening(docTitle: string): string {
    "[" + docTitle + "]\n\n"
  }

  /** `current_chunk[-200:]` when the accumulator is longer than 200 characters, else `""`. */
  function Overlap(current: string): (r: string)
    ensures |current| > OverlapSize ==> |r| == OverlapSize && current == current[..|current| - OverlapSize] + r
    ensures |current| <= OverlapSize ==> r == ""
  {
    if |current| > OverlapSize then current[|current| - OverlapSize..] else ""
  }

  function BlockOf(current: string, idx: nat): Chunk {
    Chunk(Block(idx), Strip(current), |current|)
  }

  /**
   * The paragraph loop of `chunk_by_semantic_blocks` from paragraph `i` on, with
   * accumulator `current` and block counter `idx`, followed by the final block.
   * Empty paragraphs are skipped; a paragraph that would take an accumulator of
   * more than 500 characters past 1500 first flushes it, and the new accumulator
   * starts with the title and the last 200 characters of the old one.
   */
  function Accumulate(docTitle: string, paras: seq<string>, i: nat, current: string, idx: nat): seq<Chunk>
    requires i <= |paras|
    decreases |paras| - i
  {
    if i == |paras| then
      (if |Strip(current)| > MinBlockSize then [BlockOf(current, idx)] else [])
    else
      var para := Strip(paras[i]);
      if para == "" then
        Accumulate(docTitle, paras, i + 1, current, idx)
      else if |current| + |para| > TargetSize && |current| > MinBlockSize then
        [BlockOf(current, idx)]
          + Accumulate(docTitle, paras, i + 1, Opening(docTitle) + Overlap(current) + "\n\n" + para + "\n\n", idx + 1)
      else
        Accumulate(docTitle, paras, i + 1, current + para + "\n\n", idx)
  }

  /** `chunk_by_semantic_blocks` (which cleans its input once more). */
  function SemanticBlocks(rx: Patterns, content: string, docTitle: string): (chunks: seq<Chunk>)
    ensures |rx.clean(content)| <= TargetSize ==>
      chunks == [Chunk(FullDoc, Opening(docTitle) + rx.clean(content), |rx.clean(content)|)]
  {
    var cleaned := rx.clean(content);
    if |cleaned| <= TargetSize then [Chunk(FullDoc, Opening(docTitle) + cleaned, |cleaned|)]
    else Accumulate(docTitle, rx.splitParagraphs(cleaned), 0, Opening(docTitle), 0)
  }

  /**
   * One pass of the paragraph loop at paragraph `i`: the block it flushes (if
   * any), and the accumulator and block counter it carries on.
   */
  method BlockStep(docTitle: string, paras: seq<string>, i: nat, current: string, idx: nat)
    returns (emitted: seq<Chunk>, current': string, idx': nat)
    requires i < |paras|
    ensures |emitted| <= 1 && idx' == idx + |emitted|
    ensures Accumulate(docTitle, paras, i, current, idx) == emitted + Accumulate(docTitle, paras, i + 1, current', idx')
  {
    var para := Strip(paras[i]);
    if para == "" {
      return [], current, idx;
    }
    if |current| + |para| > TargetSize && |current| > MinBlockSize {
      var overlapText := if |current| > OverlapSize then current[|current| - OverlapSize..] else "";
      emitted := [Chunk(Block(idx), Strip(current), |current|)];
      current' := Opening(docTitle) + overlapText + "\n\n" + para + "\n\n";
      idx' := idx + 1;
    } else {
      emitted := [];
      current' := current + para + "\n\n";
      idx' := idx;
    }
  }

  /** The paragraph loop, from an accumulator holding only the opening. */
  method BlocksOf(docTitle: string, paragraphs: seq<string>) returns (chunks: seq<Chunk>)
    ensures chunks == Accumulate(docTitle, paragraphs, 0, Opening(docTitle), 0)
  {
    chunks := [];
    var current := Opening(docTitle);
    var idx := 0;
    for i := 0 to |paragraphs|
      invariant chunks + Accumulate(docTitle, paragraphs, i, current, idx) == Accumulate(docTitle, paragraphs, 0, Opening(docTitle), 0)
    {
      var emitted, current', idx' := BlockStep(docTitle, paragraphs, i, current, idx);
      ChunksAssoc(chunks, emitted, Accumulate(docTitle, paragraphs, i + 1, current', idx'));
      chunks, current, idx := chunks + emitted, current', idx';
    }
    if |Strip(current)| > MinBlockSize {
      chunks := chunks + [Chunk(Block(idx), Strip(current), |current|)];
    }
  }

  lemma ChunksAssoc(a: seq<Chunk>, b: seq<Chunk>, c: seq<Chunk>)
    ensures a + (b + c) == (a + b) + c
  {
  }

  method ChunkBySemanticBlocks(rx: Patterns, content: string, docTitle: string) returns (chunks: seq<Chunk>)
    ensures chunks == SemanticBlocks(rx, content, docTitle)
  {
    var cleaned := rx.clean(content);
    if |cleaned| <= TargetSize {
      return [Chunk(FullDoc, Opening(docTitle) + cleaned, |cleaned|)];
    }
    chunks := BlocksOf(docTitle, rx.splitParagraphs(cleaned));
  }

  /** Block indices run `idx, idx + 1, ...`, and every block's accumulator was longer than 500 characters. */
  predicate NumberedBlocks(r: seq<Chunk>, idx: nat) {
    forall k :: 0 <= k < |r| ==> r[k].kind == Block(idx + k) && r[k].charCount > MinBlockSize && |r[k].content| <= r[k].charCount
  }

  lemma {:induction false} AccumulateFacts(docTitle: string, paras: seq<string>, i: nat, current: string, idx: nat)
    requires i <= |paras|
    ensures NumberedBlocks(Accumulate(docTitle, paras, i, current, idx), idx)
    decreases |paras| - i
  {
    if i < |paras| {
      var para := Strip(paras[i]);
      if para == "" {
        AccumulateFacts(docTitle, paras, i + 1, current, idx);
      } else if |current| + |para| > TargetSize && |current| > MinBlockSize {
        var next := Opening(docTitle) + Overlap(current) + "\n\n" + para + "\n\n";
        var tail := Accumulate(docTitle, paras, i + 1, next, idx + 1);
        AccumulateFacts(docTitle, paras, i + 1, next, idx + 1);
        assert NumberedBlocks(tail, idx + 1);
        var r := [BlockOf(current, idx)] + tail;
        assert Accumulate(docTitle, paras, i, current, idx) == r;
        forall k | 0 <= k < |r|
          ensures r[k].kind == Block(idx + k) && r[k].charCount > MinBlockSize && |r[k].content| <= r[k].charCount
        {
          if k > 0 {
            assert r[k] == tail[k - 1];
          }
        }
      } else {
        AccumulateFacts(docTitle, paras, i + 1, current + para + "\n\n", idx);
      }
    }
  }

  /** The first block built from an accumulator keeps every prefix of it that ends in a non-space. */
  lemma {:induction false} FirstBlockKeepsPrefix(docTitle: string, paras: seq<string>, i: nat, current: string, idx: nat, p: string)
    requires i <= |paras|
    requires p != [] && StartsWith(current, p) && !IsSpace(current[0]) && !IsSpace(current[|p| - 1])
    requires Accumulate(docTitle, paras, i, current, idx) != []
    ensures StartsWith(Accumulate(docTitle, paras, i, current, idx)[0].content, p)
    decreases |paras| - i
  {
    if i == |paras| {
      StripKeepsPrefix(current, |p|);
    } else {
      var para := Strip(paras[i]);
      if para == "" {
        FirstBlockKeepsPrefix(docTitle, paras, i + 1, current, idx, p);
      } else if |current| + |para| > TargetSize && |current| > MinBlockSize {
        StripKeepsPrefix(current, |p|);
      } else {
        var next := current + para + "\n\n";
        assert next[..|p|] == current[..|p|];
        FirstBlockKeepsPrefix(docTitle, paras, i + 1, next, idx, p);
      }
    }
  }

  /**
   * A flush emits the accumulator as block `idx`, and the block after it begins
   * with the title and the flushed accumulator's last 200 characters.
   */
  lemma FlushCarriesOverlap(docTitle: string, paras: seq<string>, i: nat, current: string, idx: nat)
    requires i < |paras| && Strip(paras[i]) != ""
    requires |current| + |Strip(paras[i])| > TargetSize && |current| > MinBlockSize
    ensures var r := Accumulate(docTitle, paras, i, current, idx);
      && r != [] && r[0] == Chunk(Block(idx), Strip(current), |current|)
      && (|r| > 1 ==> StartsWith(r[1].content, Opening(docTitle) + Last(current, OverlapSize)))
  {
    var para := Strip(paras[i]);
    var carried := Opening(docTitle) + Overlap(current);
    var p := carried + "\n\n" + para;
    var next := p + "\n\n";
    StripFacts(paras[i]);
    assert next[0] == '[' && next[|p| - 1] == para[|para| - 1];
    assert StartsWith(next, p);
    var r := Accumulate(docTitle, paras, i, current, idx);
    assert r == [BlockOf(current, idx)] + Accumulate(docTitle, paras, i + 1, next, idx + 1);
    if |r| > 1 {
      FirstBlockKeepsPrefix(docTitle, paras, i + 1, next, idx + 1, p);
      assert r[1] == Accumulate(docTitle, paras, i + 1, next, idx + 1)[0];
      assert p[..|carried|] == carried;
      assert Overlap(current) == Last(current, OverlapSize);
    }
  }

  // ------------------------------------------------------------------
  // process_document
  // ------------------------------------------------------------------

  /** `title + " (" + so_hieu + ")"` when the document has a number, else the title. */
  function EnrichedTitle(title: string, soHieu: string): string {
    if soHieu != "" then title + " (" + soHieu + ")" else title
  }

  lemma EnrichedTitleFacts(title: string, soHieu: string)
    ensures StartsWith(EnrichedTitle(title, soHieu), title)
    ensures EnrichedTitle(title, soHieu) == title <==> soHieu == ""
    ensures soHieu != "" ==> EnrichedTitle(title, soHieu)[|title|..] == " (" + soHieu + ")"
  {
    var r := EnrichedTitle(title, soHieu);
    if soHieu != "" {
      assert r[..|title|] == title;
      assert |r| > |title|;
    }
  }

  /** `doc.get("title", f"Document {doc_id}")`. */
  function TitleOf(doc: Document): string {
    doc.title.GetOr("Document " + doc.id)
  }

  /** `f"{doc_id}_{i}"`. */
  function ChunkId(docId: string, i: nat): string {
    docId + "_" + NatToString(i)
  }

  /** A chunk id determines its document id and position: digits never contain `_`. */
  lemma ChunkIdInjective(d1: string, i: nat, d2: string, j: nat)
    requires ChunkId(d1, i) == ChunkId(d2, j)
    ensures d1 == d2 && i == j
  {
    var s := ChunkId(d1, i);
    var n1, n2 := NatToString(i), NatToString(j);
    assert s[|d1|] == '_' && s[|d2|] == '_';
    assert forall k :: |d1| < k < |s| ==> s[k] == n1[k - |d1| - 1];
    assert forall k :: |d2| < k < |s| ==> s[k] == n2[k - |d2| - 1];
    assert !IsDigit('_');
    assert |d1| == |d2|;
    assert d1 == s[..|d1|] && d2 == s[..|d2|];
    assert n1 == s[|d1| + 1..] && n2 == s[|d2| + 1..];
    NatToStringInjective(i, j);
  }

  /** The chunks of one document, numbered in order and tagged with the document's fields. */
  function Tagged(docId: string, title: string, meta: DocMeta, chunks: seq<Chunk>): (out: seq<DocChunk>)
    ensures |out| == |chunks|
    ensures forall i :: 0 <= i < |out| ==> out[i] == DocChunk(docId, title, meta, ChunkId(docId, i), chunks[i])
  {
    seq(|chunks|, i requires 0 <= i < |chunks| => DocChunk(docId, title, meta, ChunkId(docId, i), chunks[i]))
  }

  /** The chunks `process_document` picks before tagging: articles, or semantic blocks when there are fewer than three. */
  function Selected(rx: Patterns, content: string, enriched: string): seq<Chunk> {
    var articles := ArticleChunks(rx, content, enriched);
    if |articles| < MinArticleChunks then SemanticBlocks(rx, content, enriched) else articles
  }

  /** `process_document`, given the parsed file. */
  function Processed(rx: Patterns, doc: Document): (out: seq<DocChunk>)
    ensures |doc.content| < MinDocumentLength ==> out == []
  {
    if |doc.content| < MinDocumentLength then []
    else
      var content := rx.clean(doc.content);
      var meta := ExtractDocMetadata(doc.info);
      var title := TitleOf(doc);
      Tagged(doc.id, title, meta, Selected(rx, content, EnrichedTitle(title, meta.soHieu)))
  }

  /** The loop that numbers the chunks and adds the document's fields to each. */
  method TagChunks(docId: string, title: string, meta: DocMeta, chunks: seq<Chunk>) returns (processed: seq<DocChunk>)
    ensures processed == Tagged(docId, title, meta, chunks)
  {
    processed := [];
    for i := 0 to |chunks|
      invariant processed == Tagged(docId, title, meta, chunks[..i])
    {
      processed := processed + [DocChunk(docId, title, meta, docId + "_" + NatToString(i), chunks[i])];
    }
    assert chunks[..|chunks|] == chunks;
  }

  method ProcessDocument(rx: Patterns, doc: Document) returns (processed: seq<DocChunk>)
    ensures processed == Processed(rx, doc)
  {
    if |doc.content| < MinDocumentLength {
      return [];
    }
    var content := rx.clean(doc.content);
    var meta := ExtractDocMetadata(doc.info);
    var title := TitleOf(doc);
    var enriched := if meta.soHieu != "" then title + " (" + meta.soHieu + ")" else title;
    var chunks := ChunkByArticle(rx, content, enriched);
    if |chunks| < MinArticleChunks {
      chunks := ChunkBySemanticBlocks(rx, content, enriched);
    }
    assert chunks == Selected(rx, content, EnrichedTitle(title, meta.soHieu));
    processed := TagChunks(doc.id, title, meta, chunks);
  }

  /**
   * Every chunk of a document carries its id, its plain (not enriched) title
   * and its metadata, and its chunk id is `"{doc_id}_{i}"` for its position `i`;
   * so no two chunks of the corpus share an id unless their documents do.
   */
  lemma ProcessedFacts(rx: Patterns, doc: Document, doc': Document, a: nat, b: nat)
    requires a < |Processed(rx, doc)| && b < |Processed(rx, doc')|
    ensures var c := Processed(rx, doc)[a];
      && c.docId == doc.id && c.docTitle == TitleOf(doc) && c.docMeta == ExtractDocMetadata(doc.info)
      && c.chunkId == ChunkId(doc.id, a)
    ensures Processed(rx, doc)[a].chunkId == Processed(rx, doc')[b].chunkId ==> doc.id == doc'.id && a == b
  {
    if Processed(rx, doc)[a].chunkId == Processed(rx, doc')[b].chunkId {
      ChunkIdInjective(doc.id, a, doc'.id, b);
    }
  }

  /** Fewer than three article chunks falls back to semantic blocks; otherwise the article chunks are kept as they are. */
  lemma FallbackToBlocks(rx: Patterns, doc: Document)
    requires |doc.content| >= MinDocumentLength
    ensures var content := rx.clean(doc.content);
      var meta := ExtractDocMetadata(doc.info);
      var enriched := EnrichedTitle(TitleOf(doc), meta.soHieu);
      var articles := ArticleChunks(rx, content, enriched);
      var out := Processed(rx, doc);
      && (|articles| >= MinArticleChunks ==> |out| == |articles| && forall i :: 0 <= i < |out| ==> out[i].chunk == articles[i])
      && (|articles| < MinArticleChunks ==>
            var blocks := SemanticBlocks(rx, content, enriched);
            |out| == |blocks| && forall i :: 0 <= i < |out| ==> out[i].chunk == blocks[i])
  {
  }
}

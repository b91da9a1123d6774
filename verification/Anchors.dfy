/**
 * The claim the evaluation harness relies on, that some chunk contains a section's first
 * paragraph verbatim: where it holds, exactly which texts some chunk contains, a document on
 * which it fails, and what looking an anchor up therefore reports.
 */
module Anchors {
  import opened Options
  import opened Text
  import opened Layout
  import opened Blocks
  import opened Windows
  import opened Chunker
  import opened Sections
  import opened Pieces

  // ---- paragraphs in chunks ------------------------------------------------------------

  ghost predicate IsParallel(tr: Trace) {
    |tr.spans| == |tr.blocks| == |tr.splits| == |tr.parts|
  }

  /** Some piece of block `k` covers the paragraph's place. */
  ghost predicate BlockHolds(lines: seq<string>, count: Counter, target: int, tr: Trace, lo: nat, hi: nat, k: nat)
    requires lo < hi && IsParallel(tr)
  {
    && k < |tr.spans| && tr.spans[k].lo <= lo && hi <= tr.spans[k].hi <= |lines|
    && SomePartHolds(lines, tr.spans[k], tr.blocks[k], count, target, tr.splits[k], tr.parts[k], lo, hi)
  }

  /** The paragraph lies in one piece of one block. */
  ghost predicate InOnePiece(lines: seq<string>, count: Counter, target: int, tr: Trace, lo: nat, hi: nat)
    requires lo < hi && IsParallel(tr)
  {
    exists k: nat :: BlockHolds(lines, count, target, tr, lo, hi, k)
  }

  /** In the block that line `lo` is in, the lines from there up to `hi` are not divided. */
  ghost predicate BlockUndivided(lines: seq<string>, ls: Lines, count: Counter, target: int, lo: nat, hi: nat)
    requires lo < hi
  {
    exists s, b :: UndividedAt(lines, ls, s, b, count, target, lo, hi)
  }

  ghost predicate UndividedAt(lines: seq<string>, ls: Lines, s: Span, b: Block, count: Counter, target: int, lo: nat, hi: nat)
    requires lo < hi
  {
    IsBlockThere(lines, ls, s, b, lo) && Undivided(b, count, target, lo - s.lo, hi - s.lo)
  }

  /** The block that line `i` is in; there is one at most. */
  ghost predicate IsBlockThere(lines: seq<string>, ls: Lines, s: Span, b: Block, i: nat) {
    IsSpan(ls, s) && Within(s, i) && IsBlockOf(lines, ls, s, b)
  }

  /**
   * For every document: a paragraph lies in one piece of one block exactly when no code block
   * cuts through it and its block stays whole, or is code of which one piece has all its lines.
   */
  lemma {:induction false} InOnePieceIff(markdown: string, count: Counter, target: int, overlap: int, tr: Trace,
                                         chunks: seq<string>, lo: nat, hi: nat)
    requires Explains(markdown, count, target, overlap, tr, chunks) && IsParagraph(tr.kinds, lo, hi)
    ensures var lines := SplitLines(markdown);
            InOnePiece(lines, count, target, tr, lo, hi)
            <==> Unbroken(tr.kinds, lo, hi) && BlockUndivided(lines, tr.kinds, count, target, lo, hi)
  {
    var lines := SplitLines(markdown);
    InOneSpanIff(tr.kinds, tr.spans, lo, hi);
    if k: nat :| BlockHolds(lines, count, target, tr, lo, hi, k) {
      assert InOneSpan(tr.spans, lo, hi);
      BlockOfTrace(markdown, count, target, overlap, tr, chunks, k);
      HeldIsUndivided(lines, count, target, tr, lo, hi, k);
    }
    if Unbroken(tr.kinds, lo, hi) && BlockUndivided(lines, tr.kinds, count, target, lo, hi) {
      var k := ParagraphInSpan(tr.kinds, tr.spans, lo, hi);
      BlockOfTrace(markdown, count, target, overlap, tr, chunks, k);
      UndividedIsHeld(lines, count, target, tr, lo, hi, k);
    }
  }

  lemma {:induction false} HeldIsUndivided(lines: seq<string>, count: Counter, target: int, tr: Trace, lo: nat, hi: nat, k: nat)
    requires IsParallel(tr) && AreKinds(lines, tr.kinds) && AllBreakFree(lines) && IsParagraph(tr.kinds, lo, hi)
    requires k < |tr.spans| && BlockIs(lines, count, target, tr, k) && BlockHolds(lines, count, target, tr, lo, hi, k)
    ensures BlockUndivided(lines, tr.kinds, count, target, lo, hi)
  {
    var s, b := tr.spans[k], tr.blocks[k];
    HoldsIff(lines, tr.kinds, s, b, count, target, tr.splits[k], tr.parts[k], lo, hi);
    UndividedBlock(lines, tr.kinds, s, b, count, target, lo, hi);
  }

  lemma {:induction false} UndividedBlock(lines: seq<string>, ls: Lines, s: Span, b: Block, count: Counter, target: int,
                                          lo: nat, hi: nat)
    requires lo < hi && IsBlockThere(lines, ls, s, b, lo) && Undivided(b, count, target, lo - s.lo, hi - s.lo)
    ensures BlockUndivided(lines, ls, count, target, lo, hi)
  {
    assert UndividedAt(lines, ls, s, b, count, target, lo, hi);
  }

  lemma {:induction false} UndividedIsHeld(lines: seq<string>, count: Counter, target: int, tr: Trace, lo: nat, hi: nat, k: nat)
    requires IsParallel(tr) && AreKinds(lines, tr.kinds) && AllBreakFree(lines) && IsParagraph(tr.kinds, lo, hi)
    requires k < |tr.spans| && BlockIs(lines, count, target, tr, k) && tr.spans[k].lo <= lo && hi <= tr.spans[k].hi
    requires BlockUndivided(lines, tr.kinds, count, target, lo, hi)
    ensures BlockHolds(lines, count, target, tr, lo, hi, k)
  {
    var s, b :| UndividedAt(lines, tr.kinds, s, b, count, target, lo, hi);
    SameBlock(lines, tr.kinds, tr.spans[k], tr.blocks[k], s, b, lo);
    HoldsIff(lines, tr.kinds, s, b, count, target, tr.splits[k], tr.parts[k], lo, hi);
  }

  /** What a trace says of its block `k`. */
  ghost predicate BlockIs(lines: seq<string>, count: Counter, target: int, tr: Trace, k: nat)
    requires k < |tr.spans| && IsParallel(tr)
  {
    && IsSpan(tr.kinds, tr.spans[k]) && IsBlockOf(lines, tr.kinds, tr.spans[k], tr.blocks[k]) && tr.blocks[k].text != ""
    && IsExpansion(tr.blocks[k], count, target, tr.splits[k], tr.parts[k])
  }

  lemma {:induction false} BlockOfTrace(markdown: string, count: Counter, target: int, overlap: int, tr: Trace,
                                        chunks: seq<string>, k: nat)
    requires Explains(markdown, count, target, overlap, tr, chunks) && k < |tr.spans|
    ensures IsParallel(tr) && BlockIs(SplitLines(markdown), count, target, tr, k)
    ensures AreKinds(SplitLines(markdown), tr.kinds) && AllBreakFree(SplitLines(markdown))
  {
    var lines := SplitLines(markdown);
    SplitLinesBreakFree(markdown);
    BlockHasText(lines, tr.kinds, tr.spans, tr.blocks, k);
    assert IsBlockOf(lines, tr.kinds, tr.spans[k], tr.blocks[k]);
    assert IsExpansion(tr.blocks[k], count, target, tr.splits[k], tr.parts[k]);
  }

  lemma {:induction false} SameBlock(lines: seq<string>, ls: Lines, s: Span, b: Block, s': Span, b': Block, i: nat)
    requires IsBlockThere(lines, ls, s, b, i) && IsBlockThere(lines, ls, s', b', i)
    ensures s' == s && b' == b
  {
    SpanMeet(ls, s, s', i);
  }

  /** A paragraph that lies in one piece is verbatim in some chunk. */
  lemma {:induction false} ParagraphInSomeChunk(markdown: string, count: Counter, target: int, overlap: int, tr: Trace,
                                                chunks: seq<string>, lo: nat, hi: nat) returns (c: nat)
    requires Explains(markdown, count, target, overlap, tr, chunks) && IsParagraph(tr.kinds, lo, hi)
    requires InOnePiece(SplitLines(markdown), count, target, tr, lo, hi)
    ensures c < |chunks| && Contains(chunks[c], ParagraphText(SplitLines(markdown), lo, hi))
  {
    var lines := SplitLines(markdown);
    var k: nat :| BlockHolds(lines, count, target, tr, lo, hi, k);
    var s, b, part := tr.spans[k], tr.blocks[k], tr.parts[k];
    var i: nat :| PartHolds(lines, s, b, count, target, tr.splits[k], part, lo, hi, i);
    BlockOfTrace(markdown, count, target, overlap, tr, chunks, k);
    HeldIsContained(lines, tr.kinds, s, b, count, target, tr.splits[k], part, lo, hi, i);
    c := PartInSomeChunk(markdown, count, target, overlap, tr, chunks, k, i);
    ContainsTrans(chunks[c], part[i].text, ParagraphText(lines, lo, hi));
  }

  /** A part of a block is whole in some chunk. */
  lemma PartInSomeChunk(markdown: string, count: Counter, target: int, overlap: int, tr: Trace, chunks: seq<string>,
                        k: nat, i: nat) returns (c: nat)
    requires Explains(markdown, count, target, overlap, tr, chunks) && k < |tr.parts| && i < |tr.parts[k]|
    ensures c < |chunks| && Contains(chunks[c], tr.parts[k][i].text)
  {
    var expanded := Flatten(tr.parts);
    var at := PartInFlat(tr.parts, k, i);
    c := ExpandedInSomeChunk(expanded, Counts(expanded, count), target, overlap, tr.windows, chunks, at);
  }

  /** The paragraph is outside any fence and has no fence line. */
  ghost predicate FenceClear(ls: Lines, lo: nat, hi: nat)
    requires lo <= hi <= |ls|
  {
    !InCode(ls, lo) && forall i | lo <= i < hi :: ls[i] != FenceLine
  }

  /** Clear of fences, the two parsers see the same paragraph: it is a block of the chunker's. */
  lemma ClearParagraphIsSpan(ls: Lines, lo: nat, hi: nat)
    requires IsParagraph(ls, lo, hi) && FenceClear(ls, lo, hi)
    ensures IsSpan(ls, Span(Prose, lo, hi)) && Unbroken(ls, lo, hi)
  {
    assert forall i | lo <= i < hi :: IsWords(ls[i]) && ls[i] == PlainLine;
    PlainRunIsSpan(ls, lo, hi);
  }

  /** So a paragraph clear of fences only has to be within the target itself. */
  lemma ClearParagraphInSomeChunk(markdown: string, count: Counter, target: int, overlap: int, tr: Trace,
                                  chunks: seq<string>, lo: nat, hi: nat) returns (c: nat)
    requires Explains(markdown, count, target, overlap, tr, chunks)
    requires IsParagraph(tr.kinds, lo, hi) && FenceClear(tr.kinds, lo, hi)
    requires count(ParagraphText(SplitLines(markdown), lo, hi)) <= target
    ensures c < |chunks| && Contains(chunks[c], ParagraphText(SplitLines(markdown), lo, hi))
  {
    var lines := SplitLines(markdown);
    var s := Span(Prose, lo, hi);
    ClearParagraphIsSpan(tr.kinds, lo, hi);
    assert UndividedAt(lines, tr.kinds, s, Block(Prose, BlockText(lines, s), HeadingText(lines, tr.kinds, lo)), count, target,
                       lo, hi);
    InOnePieceIff(markdown, count, target, overlap, tr, chunks, lo, hi);
    c := ParagraphInSomeChunk(markdown, count, target, overlap, tr, chunks, lo, hi);
  }

  /**
   * In a document without fences every section's first paragraph within the target is
   * verbatim in some chunk.
   */
  lemma FenceFreeAnchors(markdown: string, count: Counter, target: int, overlap: int, tr: Trace, chunks: seq<string>,
                         sections: map<string, string>, heading: string) returns (c: nat)
    requires Explains(markdown, count, target, overlap, tr, chunks)
    requires forall j | 0 <= j < |tr.kinds| :: tr.kinds[j] != FenceLine
    requires MapsSections(SplitLines(markdown), tr.kinds, |tr.kinds|, sections)
    requires heading in sections && count(sections[heading]) <= target
    ensures c < |chunks| && Contains(chunks[c], sections[heading])
  {
    var lines := SplitLines(markdown);
    assert HasEntry(lines, tr.kinds, |tr.kinds|, heading, sections[heading]);
    var lo: nat, hi: nat :| lo < |tr.kinds| && IsEntry(lines, tr.kinds, heading, sections[heading], lo, hi);
    FenceFreeIsOutside(tr.kinds, lo);
    c := ClearParagraphInSomeChunk(markdown, count, target, overlap, tr, chunks, lo, hi);
  }

  // ---- exactly which texts are in some chunk ---------------------------------------------

  /** The chunk starts with a block under a heading that contains the text. */
  ghost predicate HeadingHas(expanded: seq<Block>, w: Window, text: string) {
    w.lo < |expanded| && expanded[w.lo].heading.Some? && Contains(expanded[w.lo].heading.value, text)
  }

  ghost predicate BlockHas(expanded: seq<Block>, w: Window, text: string) {
    exists at :: w.lo <= at < w.hi <= |expanded| && Contains(expanded[at].text, text)
  }

  lemma {:induction false} InRendered(blocks: seq<Block>, text: string)
    requires blocks != [] && OneStretch(text)
    ensures Contains(Render(blocks), text)
            <==> (blocks[0].heading.Some? && Contains(blocks[0].heading.value, text))
                 || exists k :: 0 <= k < |blocks| && Contains(blocks[k].text, text)
  {
    var ts := Texts(blocks);
    ApartInJoin(ts, text);
    match blocks[0].heading
    case None =>
    case Some(h) =>
      ApartFromGap(h, Join("\n\n", ts), text);
      if h == "" && Contains(h, text) {
        ContainsShorter(h, text);
      }
  }

  lemma InChunk(expanded: seq<Block>, w: Window, chunk: string, text: string)
    requires IsChunk(expanded, w, chunk) && OneStretch(text)
    ensures Contains(chunk, text) <==> HeadingHas(expanded, w, text) || BlockHas(expanded, w, text)
  {
    var blocks := expanded[w.lo..w.hi];
    InRendered(blocks, text);
    if k :| 0 <= k < |blocks| && Contains(blocks[k].text, text) {
      assert expanded[w.lo + k] == blocks[k];
    }
    if at :| w.lo <= at < w.hi && Contains(expanded[at].text, text) {
      assert blocks[at - w.lo] == expanded[at];
    }
  }

  ghost predicate InSomeChunk(chunks: seq<string>, text: string) {
    exists c :: 0 <= c < |chunks| && Contains(chunks[c], text)
  }

  ghost predicate InSomePart(expanded: seq<Block>, text: string) {
    exists at :: 0 <= at < |expanded| && Contains(expanded[at].text, text)
  }

  ghost predicate InSomeHeading(expanded: seq<Block>, ws: seq<Window>, text: string) {
    exists c :: 0 <= c < |ws| && HeadingHas(expanded, ws[c], text)
  }

  /**
   * For every document: text without an empty line is in some chunk exactly when it is in
   * one part of a block, or in the heading a chunk starts with.
   */
  lemma InSomeChunkIff(markdown: string, count: Counter, target: int, overlap: int, tr: Trace, chunks: seq<string>,
                       text: string)
    requires Explains(markdown, count, target, overlap, tr, chunks) && OneStretch(text)
    ensures var expanded := Flatten(tr.parts);
            InSomeChunk(chunks, text) <==> InSomePart(expanded, text) || InSomeHeading(expanded, tr.windows, text)
  {
    var expanded := Flatten(tr.parts);
    if c :| 0 <= c < |chunks| && Contains(chunks[c], text) {
      assert IsChunk(expanded, tr.windows[c], chunks[c]);
      InChunk(expanded, tr.windows[c], chunks[c], text);
    }
    if at :| 0 <= at < |expanded| && Contains(expanded[at].text, text) {
      var c := ExpandedInSomeChunk(expanded, Counts(expanded, count), target, overlap, tr.windows, chunks, at);
      ContainsTrans(chunks[c], expanded[at].text, text);
    }
    if c :| 0 <= c < |tr.windows| && HeadingHas(expanded, tr.windows[c], text) {
      assert IsChunk(expanded, tr.windows[c], chunks[c]);
      InChunk(expanded, tr.windows[c], chunks[c], text);
    }
  }

  /** Every paragraph is such a text: its lines have something in them. */
  lemma ParagraphOneStretch(lines: seq<string>, ls: Lines, lo: nat, hi: nat)
    requires AreKinds(lines, ls) && AllBreakFree(lines) && IsParagraph(ls, lo, hi)
    ensures OneStretch(ParagraphText(lines, lo, hi))
  {
    var mine := lines[lo..hi];
    forall k | 0 <= k < |mine|
      ensures mine[k] != ""
    {
      WordsNotEmpty(lines, ls, lo + k);
    }
    SliceBreakFree(lines, lo, hi);
    WordsAreSolid(lines, ls, lo);
    ProseIsSolid(mine);
    JoinNoGap(mine);
    StripOneStretch(RawText(lines, lo, hi));
  }

  // ---- documents of one paragraph ---------------------------------------------------------

  /** The parts of a prose block have the block's text in one of them exactly when it stays whole. */
  lemma WholeInPart(b: Block, count: Counter, target: int, ws: seq<Window>, part: seq<Block>)
    requires IsExpansion(b, count, target, ws, part) && b.kind == Prose && b.text != ""
    ensures InSomePart(part, b.text) <==> StaysWhole(b, count, target)
  {
    OnePartIff(b, count, target, ws, part);
    if |part| == 1 {
      OnePartText(b, count, target, ws, part);
      ContainsSelf(b.text);
      assert Contains(part[0].text, b.text);
    }
    if i :| 0 <= i < |part| && Contains(part[i].text, b.text) {
      ContainsShorter(part[i].text, b.text);
      if |part| > 1 {
        PieceShorter(b, count, target, ws, part, i);
      } else {
        assert |part| == 1;
      }
    }
  }

  lemma PartsKeepHeading(b: Block, count: Counter, target: int, ws: seq<Window>, part: seq<Block>, i: nat)
    requires IsExpansion(b, count, target, ws, part) && i < |part|
    ensures part[i].heading == b.heading
  {
    if count(b.text) > target {
      assert IsPiece(b, Glue(b), Units(b), ws[i], part[i]);
    }
  }

  /**
   * In a document whose only block is one paragraph, the claim holds exactly when the
   * paragraph stays whole, or its heading happens to contain it.
   */
  lemma OneParagraphIff(markdown: string, count: Counter, target: int, overlap: int, tr: Trace, chunks: seq<string>,
                        lo: nat, hi: nat)
    requires Explains(markdown, count, target, overlap, tr, chunks)
    requires IsParagraph(tr.kinds, lo, hi) && tr.spans == [Span(Prose, lo, hi)]
    ensures var b := tr.blocks[0];
            InSomeChunk(chunks, ParagraphText(SplitLines(markdown), lo, hi))
            <==> StaysWhole(b, count, target) || (b.heading.Some? && Contains(b.heading.value, b.text))
  {
    var lines, b, part := SplitLines(markdown), tr.blocks[0], tr.parts[0];
    SplitLinesBreakFree(markdown);
    assert IsBlockOf(lines, tr.kinds, tr.spans[0], b);
    assert b.text == ParagraphText(lines, lo, hi);
    ParagraphOneStretch(lines, tr.kinds, lo, hi);
    assert IsExpansion(b, count, target, tr.splits[0], part);
    OneParts(tr.parts);
    InSomeChunkIff(markdown, count, target, overlap, tr, chunks, b.text);
    WholeInPart(b, count, target, tr.splits[0], part);
    UnitsOfText(b);
    OneParagraphHeading(b, count, target, overlap, tr.splits[0], part, tr.windows, b.text);
  }

  lemma OneParts(parts: seq<seq<Block>>)
    requires |parts| == 1
    ensures Flatten(parts) == parts[0]
  {
    assert parts[..0] == [] && Flatten(parts[..0]) == [];
  }

  lemma OneParagraphHeading(b: Block, count: Counter, target: int, overlap: int, split: seq<Window>, part: seq<Block>,
                            ws: seq<Window>, text: string)
    requires IsExpansion(b, count, target, split, part) && Units(b) != []
    requires IsWindowing(Counts(part, count), target, overlap, ws)
    ensures InSomeHeading(part, ws, text) <==> b.heading.Some? && Contains(b.heading.value, text)
  {
    assert part != [] && ws != [];
    PartsKeepHeading(b, count, target, split, part, ws[0].lo);
    if b.heading.Some? && Contains(b.heading.value, text) {
      assert HeadingHas(part, ws[0], text);
    }
    if c :| 0 <= c < |ws| && HeadingHas(part, ws[c], text) {
      PartsKeepHeading(b, count, target, split, part, ws[c].lo);
    }
  }

  // ---- where they do not ---------------------------------------------------------------

  lemma OneUnit(b: Block, count: Counter, target: int, ws: seq<Window>, part: seq<Block>)
    requires IsExpansion(b, count, target, ws, part) && Units(b) == [b.text]
    ensures part == [b]
  {
    if count(b.text) > target {
      var cs := UnitCounts(Units(b), count);
      assert WindowAt(cs, target, 0, [Window(0, 1)], 0);
      WindowingUnique(cs, target, 0, ws, [Window(0, 1)]);
      assert IsPiece(b, Glue(b), Units(b), ws[0], part[0]);
      assert Units(b)[0..1] == [b.text];
    }
  }

  lemma ThreeLines(a: string, b: string, c: string)
    requires BreakFree(a) && BreakFree(b) && BreakFree(c) && c != ""
    ensures SplitLines(a + "\n" + (b + "\n" + c)) == [a, b, c]
  {
    SplitFirst(a, b + "\n" + c);
    SplitFirst(b, c);
    SplitOnly(c);
  }

  lemma CutLines()
    ensures SplitLines("# H\na\n```") == ["# H", "a", "```"]
  {
    var doc, a, b, c := "# H\na\n```", "# H", "a", "```";
    assert doc == a + "\n" + (b + "\n" + c);
    ThreeLines(a, b, c);
  }

  lemma MarkLine()
    ensures Classify("# H") == HeadingLine && Strip("# H") == "# H" && HeadingName("# H") == "H"
  {
    var s := "# H";
    SolidEnds(s);
    assert s[1..] == " H" && Hashes(s) == 1;
    assert SkipSpaces(" H", 0) == 1;
    assert Strip(" H") == "H";
  }

  lemma FenceMark()
    ensures Classify("```") == FenceLine && Strip("```") == "```"
  {
    SolidEnds("```");
  }

  const CUT: Lines := [HeadingLine, PlainLine, FenceLine]

  lemma CutSpans()
    ensures IsSpanning(CUT, [Span(Prose, 1, 2), Span(Code, 2, 3)])
    ensures HeadingAt(CUT, 1) == Some(0) && HeadingAt(CUT, 2) == Some(0)
    ensures IsParagraph(CUT, 1, 3) && SectionLine(CUT, 1) == Some(0)
  {
    assert !InCode(CUT, 0) && !InCode(CUT, 1) && !InCode(CUT, 2) && InCode(CUT, 3);
    var spans := [Span(Prose, 1, 2), Span(Code, 2, 3)];
    assert Within(spans[0], 1) && Within(spans[1], 2);
    assert IsSpan(CUT, spans[0]) && IsSpan(CUT, spans[1]);
    assert !Kept(CUT, 0);
  }

  const CUT_PROSE := Block(Prose, "a", Some("# H"))
  const CUT_FENCE := Block(Code, "```", Some("# H"))

  lemma CutBlock(lines: seq<string>, s: Span, b: Block, text: string)
    requires lines == ["# H", "a", "```"] && IsBlockOf(lines, CUT, s, b) && (s == Span(Prose, 1, 2) || s == Span(Code, 2, 3))
    requires text == BlockText(lines, s)
    ensures b == Block(s.kind, text, Some("# H"))
  {
    CutSpans();
    MarkLine();
  }

  lemma CutTexts(lines: seq<string>)
    requires lines == ["# H", "a", "```"]
    ensures BlockText(lines, Span(Prose, 1, 2)) == "a" && BlockText(lines, Span(Code, 2, 3)) == "```"
  {
    PlainText("a");
    assert lines[1..2] == ["a"] && lines[2..3] == ["```"];
  }

  lemma CutBlocks(lines: seq<string>, spans: seq<Span>, blocks: seq<Block>)
    requires lines == ["# H", "a", "```"] && IsSpanning(CUT, spans) && AreBlocksOf(lines, CUT, spans, blocks)
    ensures blocks == [CUT_PROSE, CUT_FENCE]
  {
    CutSpans();
    SpanningUnique(CUT, spans, [Span(Prose, 1, 2), Span(Code, 2, 3)]);
    CutTexts(lines);
    assert IsBlockOf(lines, CUT, spans[0], blocks[0]);
    assert IsBlockOf(lines, CUT, spans[1], blocks[1]);
    CutBlock(lines, spans[0], blocks[0], "a");
    CutBlock(lines, spans[1], blocks[1], "```");
  }

  lemma CutExpansion(count: Counter, target: int, splits: seq<seq<Window>>, parts: seq<seq<Block>>)
    requires AreExpansions([CUT_PROSE, CUT_FENCE], count, target, splits, parts)
    ensures Flatten(parts) == [CUT_PROSE, CUT_FENCE]
  {
    assert FirstOf("a", ' ') == 1;
    assert SplitOn("a", ' ') == ["a"];
    assert BreakFree("```");
    SplitOnly("```");
    assert IsExpansion(CUT_PROSE, count, target, splits[0], parts[0]);
    assert IsExpansion(CUT_FENCE, count, target, splits[1], parts[1]);
    OneUnit(CUT_PROSE, count, target, splits[0], parts[0]);
    OneUnit(CUT_FENCE, count, target, splits[1], parts[1]);
    assert parts[..1] == [parts[0]] && parts[..1][..0] == [];
    assert Flatten(parts[..1]) == parts[0];
  }

  lemma CutChunk(blocks: seq<Block>)
    requires blocks == [CUT_PROSE] || blocks == [CUT_FENCE] || blocks == [CUT_PROSE, CUT_FENCE]
    ensures !Contains(Render(blocks), "a\n```")
  {
    var text := Render(blocks);
    if |blocks| == 2 {
      assert Texts(blocks) == ["a", "```"] && Texts(blocks)[1..] == ["```"];
      assert Join("\n\n", ["a", "```"]) == "a" + "\n\n" + "```";
      assert text == "# H" + "\n\n" + ("a" + "\n\n" + "```");
    } else {
      assert text == "# H\n\na" || text == "# H\n\n```";
    }
    forall i | 0 <= i <= |text|
      ensures !OccursAt(text, "a\n```", i)
    {
      if i + 5 <= |text| {
        assert text[i..i + 5][0] == text[i] && text[i..i + 5][2] == text[i + 2];
        assert text[i] != 'a' || text[i + 2] != '`';
      }
    }
  }

  lemma CutChunks(windows: seq<Window>, chunks: seq<string>)
    requires AreChunksOf([CUT_PROSE, CUT_FENCE], windows, chunks)
    ensures forall c | 0 <= c < |chunks| :: !Contains(chunks[c], "a\n```")
  {
    var blocks := [CUT_PROSE, CUT_FENCE];
    forall c | 0 <= c < |chunks|
      ensures !Contains(chunks[c], "a\n```")
    {
      var w := windows[c];
      assert IsChunk(blocks, w, chunks[c]);
      assert blocks[0..1] == [CUT_PROSE] && blocks[1..2] == [CUT_FENCE] && blocks[0..2] == blocks;
      CutChunk(blocks[w.lo..w.hi]);
    }
  }

  lemma CutLineKinds(lines: seq<string>)
    requires lines == ["# H", "a", "```"]
    ensures AreKinds(lines, CUT)
  {
    forall i | 0 <= i < 3
      ensures IsKind(lines[i], CUT[i])
    {
      if i == 0 {
        MarkLine();
      } else if i == 1 {
        PlainText(lines[1]);
      } else {
        FenceMark();
      }
    }
  }

  lemma CutParagraph(lines: seq<string>)
    requires lines == ["# H", "a", "```"]
    ensures ParagraphText(lines, 1, 3) == "a\n```"
  {
    assert lines[1..3] == ["a", "```"] && ["a", "```"][1..] == ["```"];
    var text := "a\n```";
    assert Join("\n", lines[1..3]) == text;
    SolidEnds(text);
  }

  lemma CutFirst(lines: seq<string>)
    requires lines == ["# H", "a", "```"]
    ensures IsFirstOf(lines, CUT, "H", 1, 3)
  {
    CutSection(lines);
    CutStarts();
  }

  lemma CutSection(lines: seq<string>)
    requires lines == ["# H", "a", "```"]
    ensures IsParagraphOf(lines, CUT, "H", 1, 3)
  {
    MarkLine();
    CutSpans();
  }

  lemma CutStarts()
    ensures forall lo: nat, hi: nat | IsParagraph(CUT, lo, hi) :: 1 <= lo
  {
    assert !IsWords(CUT[0]);
  }

  /**
   * The claim fails when a fence follows a section's first words with no blank line: this
   * parser takes the fence into the paragraph, the chunker does not, and no chunk has it,
   * whatever the counter and the budgets.
   */
  lemma FenceCutsAnchor(count: Counter, target: int, overlap: int, tr: Trace, chunks: seq<string>)
    requires Explains("# H\na\n```", count, target, overlap, tr, chunks)
    ensures IsFirstOf(SplitLines("# H\na\n```"), tr.kinds, "H", 1, 3)
    ensures ParagraphText(SplitLines("# H\na\n```"), 1, 3) == "a\n```"
    ensures forall c | 0 <= c < |chunks| :: !Contains(chunks[c], "a\n```")
  {
    CutLines();
    var lines := ["# H", "a", "```"];
    CutLineKinds(lines);
    CutParagraph(lines);
    CutFirst(lines);
    KindsUnique(lines, tr.kinds, CUT);
    CutBlocks(lines, tr.spans, tr.blocks);
    CutExpansion(count, target, tr.splits, tr.parts);
    CutChunks(tr.windows, chunks);
  }

  // ---- resolving an anchor -----------------------------------------------------------

  datatype Resolution = NoHeading | NoChunk(firstBlock: string) | Covered(ids: seq<nat>)

  /** The chunks whose text contains `text`. */
  method ChunksContaining(chunks: seq<string>, text: string) returns (ids: seq<nat>)
    ensures AreContaining(chunks, text, ids)
  {
    ids := [];
    for c := 0 to |chunks|
      invariant forall d: nat :: d in ids <==> d < c && Contains(chunks[d], text)
    {
      if Contains(chunks[c], text) {
        ids := ids + [c];
      }
    }
  }

  /** `ids` are exactly the chunks that contain the text. */
  ghost predicate AreContaining(chunks: seq<string>, text: string, ids: seq<nat>) {
    forall c: nat :: c in ids <==> c < |chunks| && Contains(chunks[c], text)
  }

  /** What looking a heading up comes to, given its first paragraph. */
  ghost predicate IsLookedUp(lines: seq<string>, ls: Lines, heading: string, count: Counter, target: int, chunks: seq<string>,
                             r: Resolution, lo: nat, hi: nat)
  {
    && IsFirstOf(lines, ls, heading, lo, hi)
    && match r
       case NoHeading => false
       case Covered(ids) => ids != [] && AreContaining(chunks, ParagraphText(lines, lo, hi), ids)
       case NoChunk(text) =>
         && text == ParagraphText(lines, lo, hi) && AreContaining(chunks, text, [])
         && !(Unbroken(ls, lo, hi) && BlockUndivided(lines, ls, count, target, lo, hi))
  }

  /**
   * The resolution of an anchor: no paragraph under such a heading, or exactly the chunks
   * that contain the first one. "No chunk contains the section" is reported only for a
   * paragraph that a code block cuts through or that is divided with its block.
   */
  ghost predicate IsResolution(lines: seq<string>, ls: Lines, heading: string, count: Counter, target: int,
                               chunks: seq<string>, r: Resolution)
  {
    && AreKinds(lines, ls)
    && if r.NoHeading? then forall lo: nat, hi: nat :: !IsParagraphOf(lines, ls, heading, lo, hi)
       else exists lo: nat, hi: nat :: IsLookedUp(lines, ls, heading, count, target, chunks, r, lo, hi)
  }

  ghost predicate IsResolved(markdown: string, heading: string, count: Counter, target: int, chunks: seq<string>, r: Resolution) {
    exists ls :: IsResolution(SplitLines(markdown), ls, heading, count, target, chunks, r)
  }

  /** The report on a heading that is there, once the chunks with its first paragraph have been found. */
  lemma LookedUp(markdown: string, ls: Lines, heading: string, count: Counter, target: int, overlap: int, tr: Trace,
                 chunks: seq<string>, ids: seq<nat>, lo: nat, hi: nat)
    requires Explains(markdown, count, target, overlap, tr, chunks) && ls == tr.kinds
    requires IsFirstOf(SplitLines(markdown), ls, heading, lo, hi)
    requires AreContaining(chunks, ParagraphText(SplitLines(markdown), lo, hi), ids)
    ensures var text := ParagraphText(SplitLines(markdown), lo, hi);
            var r := if ids == [] then NoChunk(text) else Covered(ids);
            IsLookedUp(SplitLines(markdown), ls, heading, count, target, chunks, r, lo, hi)
  {
    var lines := SplitLines(markdown);
    InOnePieceIff(markdown, count, target, overlap, tr, chunks, lo, hi);
    if Unbroken(ls, lo, hi) && BlockUndivided(lines, ls, count, target, lo, hi) {
      var c := ParagraphInSomeChunk(markdown, count, target, overlap, tr, chunks, lo, hi);
      assert c in ids;
    }
  }

  method ResolveAnchor(markdown: string, heading: string, count: Counter, target: int, overlap: int)
    returns (r: Resolution, chunks: seq<string>)
    ensures AreChunks(markdown, count, target, overlap, chunks)
    ensures IsResolved(markdown, heading, count, target, chunks, r)
  {
    var lines := SplitLines(markdown);
    ghost var ls, tr;
    chunks, tr := ChunkMarkdown(markdown, count, target, overlap);
    var sections;
    sections, ls := SectionFirstBlocks(lines);
    KindsUnique(lines, ls, tr.kinds);
    if heading !in sections {
      r := NoHeading;
      assert IsResolution(lines, ls, heading, count, target, chunks, r);
      return;
    }
    assert HasEntry(lines, ls, |ls|, heading, sections[heading]);
    ghost var lo: nat, hi: nat :| lo < |lines| && IsEntry(lines, ls, heading, sections[heading], lo, hi);
    var ids := ChunksContaining(chunks, sections[heading]);
    LookedUp(markdown, ls, heading, count, target, overlap, tr, chunks, ids, lo, hi);
    r := if ids == [] then NoChunk(sections[heading]) else Covered(ids);
    assert IsLookedUp(lines, ls, heading, count, target, chunks, r, lo, hi);
    assert IsResolution(lines, ls, heading, count, target, chunks, r);
  }
}

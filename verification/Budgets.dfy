/**
 * The token budget, over documents: how large a chunk's summed count gets, and when the
 * target bounds it. Any positive counts are those of some document's blocks, so what holds of
 * the windows over every list of counts is reached by documents too.
 */
module Budgets {
  import opened Options
  import opened Text
  import opened Layout
  import opened Blocks
  import opened Windows
  import opened Chunker

  // ---- a document with given counts ---------------------------------------------------

  /** A counter that counts letters. */
  const LENGTH: Counter := (s: string) => |s|

  /** One word of `n` letters. */
  ghost function Word(n: nat): (s: string)
    ensures |s| == n && forall i | 0 <= i < n :: s[i] == 'a'
  {
    seq(n, _ => 'a')
  }

  /** A word for each count, with empty lines between them. */
  ghost function WordLines(cs: seq<nat>): (lines: seq<string>)
    requires cs != []
    ensures |lines| == 2 * |cs| - 1
    ensures forall i | 0 <= i < |lines| :: lines[i] == if i % 2 == 0 then Word(cs[i / 2]) else ""
  {
    seq(2 * |cs| - 1, i requires 0 <= i < 2 * |cs| - 1 => if i % 2 == 0 then Word(cs[i / 2]) else "")
  }

  ghost function WordKinds(n: nat): (ls: Lines)
    requires n > 0
    ensures |ls| == 2 * n - 1 && forall i | 0 <= i < |ls| :: ls[i] == if i % 2 == 0 then PlainLine else BlankLine
  {
    seq(2 * n - 1, i requires 0 <= i < 2 * n - 1 => if i % 2 == 0 then PlainLine else BlankLine)
  }

  ghost function WordSpans(n: nat): (spans: seq<Span>)
    ensures |spans| == n && forall k | 0 <= k < n :: spans[k] == Span(Prose, 2 * k, 2 * k + 1)
  {
    seq(n, k requires 0 <= k < n => Span(Prose, 2 * k, 2 * k + 1))
  }

  ghost function WordBlock(n: nat): Block {
    Block(Prose, Word(n), None)
  }

  ghost function WordBlocks(cs: seq<nat>): (blocks: seq<Block>)
    ensures |blocks| == |cs| && forall k | 0 <= k < |cs| :: blocks[k] == WordBlock(cs[k])
  {
    seq(|cs|, k requires 0 <= k < |cs| => WordBlock(cs[k]))
  }

  lemma {:induction false} WordLine(n: nat)
    requires n > 0
    ensures BreakFree(Word(n)) && Classify(Word(n)) == PlainLine && Strip(Word(n)) == Word(n)
  {
    PlainText(Word(n));
  }

  lemma {:induction false} EmptyLine()
    ensures BreakFree("") && Classify("") == BlankLine
  {
    EmptyIsBlank();
  }

  lemma {:induction false} WordsAreKinds(cs: seq<nat>)
    requires cs != [] && AllPositive(cs)
    ensures AreKinds(WordLines(cs), WordKinds(|cs|)) && AllBreakFree(WordLines(cs))
  {
    var lines, ls := WordLines(cs), WordKinds(|cs|);
    EmptyLine();
    forall i | 0 <= i < |lines|
      ensures BreakFree(lines[i]) && IsKind(lines[i], ls[i])
    {
      if i % 2 == 0 {
        WordLine(cs[i / 2]);
      }
    }
  }

  lemma {:induction false} WordsAreLines(cs: seq<nat>)
    requires cs != [] && AllPositive(cs)
    ensures SplitLines(Join("\n", WordLines(cs))) == WordLines(cs)
  {
    WordsAreKinds(cs);
    LastWord(cs);
    JoinedIsSplit(WordLines(cs));
  }

  lemma {:induction false} LastWord(cs: seq<nat>)
    requires cs != [] && AllPositive(cs)
    ensures WordLines(cs)[|WordLines(cs)| - 1] != ""
  {
    assert WordLines(cs)[2 * (|cs| - 1)] == Word(cs[|cs| - 1]);
  }

  lemma {:induction false} JoinedIsSplit(lines: seq<string>)
    requires lines != [] && AllBreakFree(lines) && lines[|lines| - 1] != ""
    ensures SplitLines(Join("\n", lines)) == lines
  {
    SplitJoined(lines);
  }

  lemma {:induction false} WordIsSpan(n: nat, k: nat)
    requires k < n
    ensures IsSpan(WordKinds(n), Span(Prose, 2 * k, 2 * k + 1))
  {
    var ls := WordKinds(n);
    FenceFreeIsOutside(ls, 2 * k);
    FenceFreeIsOutside(ls, 2 * k + 1);
    assert 2 * k + 1 < |ls| ==> ls[2 * k + 1] == BlankLine;
    assert 2 * k > 0 ==> ls[2 * k - 1] == BlankLine;
  }

  lemma {:induction false} WordsSpan(n: nat)
    requires n > 0
    ensures IsSpanning(WordKinds(n), WordSpans(n))
  {
    var ls, spans := WordKinds(n), WordSpans(n);
    forall k | 0 <= k < n
      ensures IsSpan(ls, spans[k])
    {
      WordIsSpan(n, k);
    }
    forall i | 0 <= i < |ls| && Kept(ls, i)
      ensures Covered(spans, i)
    {
      FenceFreeIsOutside(ls, i);
      assert Within(spans[i / 2], i);
    }
  }

  lemma {:induction false} NoHeading(ls: Lines, i: nat)
    requires i <= |ls| && forall j | 0 <= j < |ls| :: ls[j] != HeadingLine
    ensures HeadingAt(ls, i) == None
  {
    if i > 0 {
      NoHeading(ls, i - 1);
    }
  }

  lemma {:induction false} LineIsBlock(lines: seq<string>, ls: Lines, i: nat, n: nat)
    requires i < |lines| == |ls| && lines[i] == Word(n) && n > 0 && forall j | 0 <= j < |ls| :: ls[j] != HeadingLine
    ensures IsBlockOf(lines, ls, Span(Prose, i, i + 1), WordBlock(n))
  {
    NoHeading(ls, i);
    assert lines[i..i + 1] == [Word(n)];
    WordLine(n);
  }

  lemma {:induction false} WordsBlocks(cs: seq<nat>)
    requires cs != [] && AllPositive(cs)
    ensures AreBlocksOf(WordLines(cs), WordKinds(|cs|), WordSpans(|cs|), WordBlocks(cs))
  {
    var lines, ls, spans, blocks := WordLines(cs), WordKinds(|cs|), WordSpans(|cs|), WordBlocks(cs);
    forall k | 0 <= k < |spans|
      ensures IsBlockOf(lines, ls, spans[k], blocks[k])
    {
      assert lines[2 * k] == Word(cs[k]);
      LineIsBlock(lines, ls, 2 * k, cs[k]);
    }
  }

  lemma {:induction false} NoSpaceInWord(s: string)
    requires forall i | 0 <= i < |s| :: s[i] == 'a'
    ensures SplitOn(s, ' ') == [s]
  {
    assert FirstOf(s, ' ') == |s|;
  }

  /** A word is one piece, whatever the target. */
  lemma {:induction false} WordIsPiece(n: nat, target: int)
    requires n > 0
    ensures IsExpansion(WordBlock(n), LENGTH, target, [Window(0, 1)], [WordBlock(n)])
  {
    var b := WordBlock(n);
    NoSpaceInWord(b.text);
    var cs, ws := UnitCounts(Units(b), LENGTH), [Window(0, 1)];
    assert WindowAt(cs, target, 0, ws, 0);
    assert Units(b)[0..1] == [b.text];
    assert IsPiece(b, " ", Units(b), ws[0], b);
  }

  ghost function Singles<T>(xs: seq<T>): (parts: seq<seq<T>>)
    ensures |parts| == |xs| && forall k | 0 <= k < |xs| :: parts[k] == [xs[k]]
  {
    seq(|xs|, k requires 0 <= k < |xs| => [xs[k]])
  }

  lemma {:induction false} FlattenSingles(blocks: seq<Block>, n: nat)
    requires n <= |blocks|
    ensures Flatten(Singles(blocks)[..n]) == blocks[..n]
  {
    if n > 0 {
      FlattenSingles(blocks, n - 1);
      var parts := Singles(blocks)[..n];
      assert parts[..n - 1] == Singles(blocks)[..n - 1] && parts[n - 1] == [blocks[n - 1]];
    }
  }

  /** Some document has exactly these counts, and these windows over them. */
  lemma {:induction false} DocumentOf(cs: seq<nat>, target: int, overlap: int, ws: seq<Window>)
    returns (markdown: string, tr: Trace, chunks: seq<string>)
    requires cs != [] && AllPositive(cs) && IsWindowing(cs, target, overlap, ws)
    ensures Explains(markdown, LENGTH, target, overlap, tr, chunks)
    ensures Counts(Flatten(tr.parts), LENGTH) == cs && tr.windows == ws
  {
    var blocks := WordBlocks(cs);
    var splits := seq(|cs|, k requires 0 <= k < |cs| => [Window(0, 1)]);
    markdown := Join("\n", WordLines(cs));
    tr := Trace(WordKinds(|cs|), WordSpans(|cs|), blocks, Singles(blocks), splits, ws);
    WordsAreLines(cs);
    WordsAreKinds(cs);
    WordsSpan(|cs|);
    WordsBlocks(cs);
    forall k {:trigger tr.parts[k]} | 0 <= k < |blocks|
      ensures IsExpansion(blocks[k], LENGTH, target, splits[k], tr.parts[k])
    {
      WordIsPiece(cs[k], target);
    }
    FlattenSingles(blocks, |blocks|);
    assert Singles(blocks)[..|blocks|] == Singles(blocks) && blocks[..|blocks|] == blocks;
    assert Counts(blocks, LENGTH) == cs;
    chunks := Rendered(blocks, ws);
  }

  lemma {:induction false} Rendered(blocks: seq<Block>, ws: seq<Window>) returns (chunks: seq<string>)
    requires forall k | 0 <= k < |ws| :: ws[k].lo < ws[k].hi <= |blocks|
    ensures AreChunksOf(blocks, ws, chunks)
  {
    chunks := seq(|ws|, k requires 0 <= k < |ws| => Render(blocks[ws[k].lo..ws[k].hi]));
  }

  // ---- the bound on a chunk ------------------------------------------------------------

  /** The summed count of the blocks of chunk `k`, after splitting. */
  ghost function ChunkCount(tr: Trace, count: Counter, k: nat): nat
    requires k < |tr.windows| && tr.windows[k].lo <= tr.windows[k].hi <= |Flatten(tr.parts)|
  {
    Sum(Counts(Flatten(tr.parts), count), tr.windows[k].lo, tr.windows[k].hi)
  }

  /** A chunk of some document, whose blocks after splitting have at most `m` tokens. */
  ghost predicate IsChunkWithin(markdown: string, count: Counter, target: int, overlap: int, m: nat, tr: Trace,
                                chunks: seq<string>, k: nat)
  {
    && Explains(markdown, count, target, overlap, tr, chunks) && k < |chunks|
    && AtMost(Counts(Flatten(tr.parts), count), m)
  }

  lemma {:induction false} ChunkInRange(markdown: string, count: Counter, target: int, overlap: int, m: nat, tr: Trace,
                                        chunks: seq<string>, k: nat)
    requires IsChunkWithin(markdown, count, target, overlap, m, tr, chunks, k)
    ensures k < |tr.windows| && tr.windows[k].lo <= tr.windows[k].hi <= |Flatten(tr.parts)|
  {
    assert IsChunk(Flatten(tr.parts), tr.windows[k], chunks[k]);
  }

  /** A chunk's count is within the target, or within what the overlap and two blocks come to. */
  lemma {:induction false} ChunkBound(markdown: string, count: Counter, target: int, overlap: int, m: nat, tr: Trace,
                                      chunks: seq<string>, k: nat)
    requires IsChunkWithin(markdown, count, target, overlap, m, tr, chunks, k)
    ensures k < |tr.windows| && tr.windows[k].lo <= tr.windows[k].hi <= |Flatten(tr.parts)|
    ensures ChunkCount(tr, count, k) <= target || ChunkCount(tr, count, k) <= WorstCount(overlap, m)
  {
    ChunkInRange(markdown, count, target, overlap, m, tr, chunks, k);
    WindowBound(Counts(Flatten(tr.parts), count), target, overlap, tr.windows, k, m);
  }

  /** Whatever the target, the overlap and the block size, some document has a chunk of exactly that count. */
  lemma {:induction false} ChunkBoundReached(target: int, overlap: int, m: nat)
    returns (markdown: string, tr: Trace, chunks: seq<string>, k: nat)
    requires m > 0
    ensures IsChunkWithin(markdown, LENGTH, target, overlap, m, tr, chunks, k)
    ensures k < |tr.windows| && tr.windows[k].lo <= tr.windows[k].hi <= |Flatten(tr.parts)|
    ensures ChunkCount(tr, LENGTH, k) == WorstCount(overlap, m)
  {
    var cs, ws := WindowBoundReached(target, overlap, m);
    markdown, tr, chunks := DocumentOf(cs, target, overlap, ws);
    k := |ws| - 1;
    ChunkInRange(markdown, LENGTH, target, overlap, m, tr, chunks, k);
  }

  /** In every document, under every counter, every chunk of blocks up to `m` is within the target. */
  ghost predicate TargetHolds(target: int, overlap: int, m: nat) {
    forall markdown, count, tr, chunks, k: nat | IsChunkWithin(markdown, count, target, overlap, m, tr, chunks, k) ::
      k < |tr.windows| && tr.windows[k].lo <= tr.windows[k].hi <= |Flatten(tr.parts)| && ChunkCount(tr, count, k) <= target
  }

  /** The target is a bound exactly when it has room for a block, and with an overlap for that and two blocks of the largest size. */
  lemma {:induction false} TargetIsBound(target: int, overlap: int, m: nat)
    requires m > 0
    ensures TargetHolds(target, overlap, m) <==> m <= target && (overlap <= 0 || overlap - 1 + 2 * m <= target)
  {
    var markdown, tr, chunks, worst := ChunkBoundReached(target, overlap, m);
    assert TargetHolds(target, overlap, m) ==> ChunkCount(tr, LENGTH, worst) <= target;
    if WorstCount(overlap, m) <= target {
      forall markdown, count, tr, chunks, k: nat | IsChunkWithin(markdown, count, target, overlap, m, tr, chunks, k)
        ensures k < |tr.windows| && tr.windows[k].lo <= tr.windows[k].hi <= |Flatten(tr.parts)|
        ensures ChunkCount(tr, count, k) <= target
      {
        ChunkBound(markdown, count, target, overlap, m, tr, chunks, k);
      }
    }
  }
}

/** The chunker's first pass: from lines to prose and code blocks. */
module Blocks {
  import opened Options
  import opened Text
  import opened Layout

  datatype Block = Block(kind: Kind, text: string, heading: Option<string>)

  function Hashes(line: string): (k: nat)
    ensures k <= |line|
  {
    if line != "" && line[0] == '#' then 1 + Hashes(line[1..]) else 0
  }

  /** `^(#{1,6})\s+(.+)$` on a line that holds no break. */
  predicate IsHeading(line: string) {
    var k := Hashes(line);
    1 <= k <= 6 && k + 1 < |line| && IsSpace(line[k])
  }

  predicate IsFence(line: string) {
    "```" <= Strip(line)
  }

  predicate IsBlank(line: string) {
    Strip(line) == ""
  }

  /** The scanner's tests, in its order. */
  function Classify(line: string): LineKind {
    if IsFence(line) then FenceLine
    else if IsHeading(line) then HeadingLine
    else if IsBlank(line) then BlankLine
    else PlainLine
  }

  /** No line passes two of the tests, so their order does not matter. */
  lemma TestsExclusive(line: string)
    ensures IsHeading(line) ==> !IsFence(line) && !IsBlank(line)
    ensures IsFence(line) ==> !IsBlank(line)
  {
  }

  lemma PlainText(s: string)
    requires s != "" && !IsSpace(s[0]) && !IsSpace(s[|s| - 1]) && s[0] != '#' && s[0] != '`'
    ensures Strip(s) == s && Classify(s) == PlainLine
  {
    SolidEnds(s);
  }

  ghost predicate IsKind(line: string, kind: LineKind) {
    kind == Classify(line)
  }

  /** The kinds of a document's lines. */
  ghost predicate AreKinds(lines: seq<string>, ls: Lines) {
    |ls| == |lines| && forall i {:trigger IsKind(lines[i], ls[i])} | 0 <= i < |ls| :: IsKind(lines[i], ls[i])
  }

  // ---- what a stretch of lines becomes ---------------------------------------------------

  ghost function RawText(lines: seq<string>, lo: nat, hi: nat): string
    requires lo <= hi <= |lines|
  {
    Join("\n", lines[lo..hi])
  }

  ghost function BlockText(lines: seq<string>, s: Span): string
    requires s.lo <= s.hi <= |lines|
  {
    if s.kind == Code then RawText(lines, s.lo, s.hi) else Strip(RawText(lines, s.lo, s.hi))
  }

  /** The text of the heading in force before line `i`. */
  ghost function HeadingText(lines: seq<string>, ls: Lines, i: nat): Option<string>
    requires i <= |ls| == |lines|
  {
    match HeadingAt(ls, i)
    case None => None
    case Some(h) => Some(Strip(lines[h]))
  }

  ghost predicate IsBlockOf(lines: seq<string>, ls: Lines, s: Span, b: Block) {
    && s.lo <= s.hi <= |ls| == |lines|
    && b == Block(s.kind, BlockText(lines, s), HeadingText(lines, ls, s.lo))
  }

  ghost predicate AreBlocksOf(lines: seq<string>, ls: Lines, spans: seq<Span>, blocks: seq<Block>) {
    && |blocks| == |spans|
    && forall k {:trigger IsBlockOf(lines, ls, spans[k], blocks[k])} | 0 <= k < |spans| ::
        IsBlockOf(lines, ls, spans[k], blocks[k])
  }

  // ---- the scanner ------------------------------------------------------------------------

  /** The text of prose lines is never empty, so the scanner's guard never drops a paragraph. */
  lemma ProseIsSolid(buf: seq<string>)
    requires buf != [] && !IsBlank(buf[0])
    ensures Strip(Join("\n", buf)) != ""
  {
    var pre, post := JoinAround("\n", buf, 0, 1);
    assert buf[0..1] == [buf[0]];
    SolidInside(pre, buf[0], post);
  }

  lemma SolidInside(pre: string, part: string, post: string)
    requires Strip(part) != ""
    ensures Strip(pre + part + post) != ""
  {
    var a, b := StripSpan(part);
    StretchInside(pre, part, post, a, b);
    StripKeeps(pre + part + post, |pre| + a, |pre| + b);
  }

  /** Ends the paragraph being collected, if there is one. */
  method FlushText(buf: seq<string>, heading: Option<string>, blocks: seq<Block>) returns (flushed: seq<Block>)
    requires buf != [] ==> !IsBlank(buf[0])
    ensures flushed == if buf == [] then blocks else blocks + [Block(Prose, Strip(Join("\n", buf)), heading)]
  {
    flushed := blocks;
    if buf != [] {
      var text := Strip(Join("\n", buf));
      ProseIsSolid(buf);
      if text != "" {
        flushed := flushed + [Block(Prose, text, heading)];
      }
    }
  }

  /** The scanner's variables before line `i`, and what they stand for. */
  datatype Scanner = Scanner(blocks: seq<Block>, heading: Option<string>, buf: seq<string>, inCode: bool,
                             codeBuf: seq<string>)

  ghost predicate Holds(lines: seq<string>, ls: Lines, i: nat, start: nat, spans: seq<Span>, st: Scanner) {
    && AreKinds(lines, ls) && ScanInv(ls, i, start, spans)
    && AreBlocksOf(lines, ls, spans, st.blocks)
    && st.heading == HeadingText(lines, ls, i)
    && st.inCode == InCode(ls, i)
    && (if st.inCode then st.codeBuf else st.buf) == lines[start..i]
  }

  lemma AddBlock(lines: seq<string>, ls: Lines, spans: seq<Span>, blocks: seq<Block>, s: Span, b: Block)
    requires AreBlocksOf(lines, ls, spans, blocks) && IsBlockOf(lines, ls, s, b)
    ensures AreBlocksOf(lines, ls, spans + [s], blocks + [b])
  {
  }

  /** Ends a paragraph before line `i`, which is no part of one. */
  method Flush(lines: seq<string>, ghost ls: Lines, ghost i: nat, ghost start: nat, ghost spans: seq<Span>, st: Scanner)
    returns (blocks: seq<Block>, ghost spans': seq<Span>)
    requires Holds(lines, ls, i, start, spans, st) && !st.inCode && Ends(ls, i)
    ensures ScanInv(ls, i, i, spans') && AreBlocksOf(lines, ls, spans', blocks)
  {
    assert st.buf != [] ==> st.buf[0] == lines[start] && IsProse(ls, start) && IsKind(lines[start], ls[start]);
    blocks := FlushText(st.buf, st.heading, st.blocks);
    spans' := spans;
    if st.buf != [] {
      CloseProse(ls, i, start, spans);
      AddBlock(lines, ls, spans, st.blocks, Span(Prose, start, i), Block(Prose, Strip(Join("\n", st.buf)), st.heading));
      spans' := spans + [Span(Prose, start, i)];
    }
  }

  lemma InsideGrows(lines: seq<string>, ls: Lines, i: nat, start: nat, spans: seq<Span>, st: Scanner)
    requires i < |lines| && Holds(lines, ls, i, start, spans, st) && st.inCode && ls[i] != FenceLine
    ensures Holds(lines, ls, i + 1, start, spans, st.(codeBuf := st.codeBuf + [lines[i]]))
  {
  }

  lemma InsideCloses(lines: seq<string>, ls: Lines, i: nat, start: nat, spans: seq<Span>, st: Scanner, b: Block)
    requires i < |lines| && Holds(lines, ls, i, start, spans, st) && st.inCode && ls[i] == FenceLine
    requires b == Block(Code, Join("\n", st.codeBuf + [lines[i]]), st.heading)
    ensures Holds(lines, ls, i + 1, i + 1, spans + [Span(Code, start, i + 1)],
                  Scanner(st.blocks + [b], st.heading, [], false, []))
  {
    var s := Span(Code, start, i + 1);
    assert st.codeBuf + [lines[i]] == lines[start..i + 1];
    assert HeadingAt(ls, i + 1) == HeadingAt(ls, i) == HeadingAt(ls, start);
    CloseCode(ls, i + 1, start, spans);
    assert IsBlockOf(lines, ls, s, b);
    AddBlock(lines, ls, spans, st.blocks, s, b);
  }

  /** A line inside a fence joins the code block, and closes it if it is a fence line. */
  method ScanInside(lines: seq<string>, ghost ls: Lines, i: nat, ghost start: nat, ghost spans: seq<Span>, st: Scanner)
    returns (next: Scanner, ghost start': nat, ghost spans': seq<Span>)
    requires i < |lines| && Holds(lines, ls, i, start, spans, st) && st.inCode
    ensures Holds(lines, ls, i + 1, start', spans', next)
  {
    var codeBuf := st.codeBuf + [lines[i]];
    assert IsKind(lines[i], ls[i]);
    if IsFence(lines[i]) {
      var b := Block(Code, Join("\n", codeBuf), st.heading);
      InsideCloses(lines, ls, i, start, spans, st, b);
      spans', start' := spans + [Span(Code, start, i + 1)], i + 1;
      next := Scanner(st.blocks + [b], st.heading, [], false, []);
    } else {
      InsideGrows(lines, ls, i, start, spans, st);
      start', spans' := start, spans;
      next := st.(codeBuf := codeBuf);
    }
  }

  lemma OutsideOpens(lines: seq<string>, ls: Lines, i: nat, spans: seq<Span>, heading: Option<string>, blocks: seq<Block>)
    requires i < |lines| && AreKinds(lines, ls) && ScanInv(ls, i, i, spans) && AreBlocksOf(lines, ls, spans, blocks)
    requires heading == HeadingText(lines, ls, i) && !InCode(ls, i) && ls[i] == FenceLine
    ensures Holds(lines, ls, i + 1, i, spans, Scanner(blocks, heading, [], true, [lines[i]]))
  {
  }

  lemma OutsideDrops(lines: seq<string>, ls: Lines, i: nat, spans: seq<Span>, heading: Option<string>, blocks: seq<Block>)
    requires i < |lines| && AreKinds(lines, ls) && ScanInv(ls, i, i, spans) && AreBlocksOf(lines, ls, spans, blocks)
    requires !InCode(ls, i) && (ls[i] == HeadingLine || ls[i] == BlankLine)
    requires heading == if ls[i] == HeadingLine then Some(Strip(lines[i])) else HeadingText(lines, ls, i)
    ensures Holds(lines, ls, i + 1, i + 1, spans, Scanner(blocks, heading, [], false, []))
  {
  }

  lemma OutsideGrows(lines: seq<string>, ls: Lines, i: nat, start: nat, spans: seq<Span>, st: Scanner)
    requires i < |lines| && Holds(lines, ls, i, start, spans, st) && !st.inCode && ls[i] == PlainLine
    ensures Holds(lines, ls, i + 1, start, spans, st.(buf := st.buf + [lines[i]]))
  {
  }

  /** A line outside any fence opens one, sets the heading, ends the paragraph, or joins it. */
  method ScanOutside(lines: seq<string>, ghost ls: Lines, i: nat, ghost start: nat, ghost spans: seq<Span>, st: Scanner)
    returns (next: Scanner, ghost start': nat, ghost spans': seq<Span>)
    requires i < |lines| && Holds(lines, ls, i, start, spans, st) && !st.inCode
    ensures Holds(lines, ls, i + 1, start', spans', next)
  {
    var line := lines[i];
    assert IsKind(line, ls[i]);
    var blocks;
    if IsFence(line) {
      blocks, spans' := Flush(lines, ls, i, start, spans, st);
      OutsideOpens(lines, ls, i, spans', st.heading, blocks);
      start' := i;
      next := Scanner(blocks, st.heading, [], true, [line]);
    } else if IsHeading(line) || IsBlank(line) {
      blocks, spans' := Flush(lines, ls, i, start, spans, st);
      var heading := if IsHeading(line) then Some(Strip(line)) else st.heading;
      OutsideDrops(lines, ls, i, spans', heading, blocks);
      start' := i + 1;
      next := Scanner(blocks, heading, [], false, []);
    } else {
      OutsideGrows(lines, ls, i, start, spans, st);
      start', spans' := start, spans;
      next := st.(buf := st.buf + [line]);
    }
  }

  ghost predicate IsCut(lines: seq<string>, ls: Lines, spans: seq<Span>, blocks: seq<Block>) {
    AreKinds(lines, ls) && IsSpanning(ls, spans) && AreBlocksOf(lines, ls, spans, blocks)
  }

  /** The document's blocks. */
  ghost predicate AreBlocks(lines: seq<string>, blocks: seq<Block>) {
    exists ls, spans :: IsCut(lines, ls, spans, blocks)
  }

  method SplitBlocks(lines: seq<string>) returns (blocks: seq<Block>, ghost ls: Lines, ghost spans: seq<Span>)
    ensures AreBlocks(lines, blocks) && IsCut(lines, ls, spans, blocks)
  {
    ls := seq(|lines|, i requires 0 <= i < |lines| => Classify(lines[i]));
    var st := Scanner([], None, [], false, []);
    spans := [];
    ghost var start := 0;
    for i := 0 to |lines|
      invariant Holds(lines, ls, i, start, spans, st)
    {
      if st.inCode {
        st, start, spans := ScanInside(lines, ls, i, start, spans, st);
      } else {
        st, start, spans := ScanOutside(lines, ls, i, start, spans, st);
      }
    }
    if st.inCode {
      var b := Block(Code, Join("\n", st.codeBuf), st.heading);
      CloseOpenFence(ls, start, spans);
      AddBlock(lines, ls, spans, st.blocks, Span(Code, start, |lines|), b);
      blocks, spans := st.blocks + [b], spans + [Span(Code, start, |lines|)];
    } else {
      blocks, spans := Flush(lines, ls, |lines|, start, spans, st);
    }
    assert IsCut(lines, ls, spans, blocks);
  }

  // ---- what the blocks keep ---------------------------------------------------------------

  lemma KindsUnique(lines: seq<string>, ls: Lines, ls': Lines)
    requires AreKinds(lines, ls) && AreKinds(lines, ls')
    ensures ls == ls'
  {
    forall i | 0 <= i < |ls|
      ensures ls[i] == ls'[i]
    {
      assert IsKind(lines[i], ls[i]) && IsKind(lines[i], ls'[i]);
    }
  }

  /** Lines determine their kinds, the stretches, and so the blocks. */
  lemma BlocksUnique(lines: seq<string>, ls: Lines, spans: seq<Span>, blocks: seq<Block>,
                     ls': Lines, spans': seq<Span>, blocks': seq<Block>)
    requires IsCut(lines, ls, spans, blocks) && IsCut(lines, ls', spans', blocks')
    ensures ls == ls' && spans == spans' && blocks == blocks'
  {
    KindsUnique(lines, ls, ls');
    SpanningUnique(ls, spans, spans');
    forall k | 0 <= k < |spans|
      ensures blocks[k] == blocks'[k]
    {
      assert IsBlockOf(lines, ls, spans[k], blocks[k]) && IsBlockOf(lines, ls, spans[k], blocks'[k]);
    }
  }

  lemma RawAround(lines: seq<string>, from: nat, to: nat, lo: nat, hi: nat) returns (pre: string, post: string)
    requires from <= lo < hi <= to <= |lines|
    ensures RawText(lines, from, to) == pre + RawText(lines, lo, hi) + post
  {
    SliceOfSlice(lines, from, to, lo, hi);
    pre, post := JoinAround("\n", lines[from..to], lo - from, hi - from);
  }

  /** A stretch of a block's lines, joined and stripped, is in the block's text. */
  lemma PartSurvives(lines: seq<string>, s: Span, lo: nat, hi: nat)
    requires s.lo <= lo < hi <= s.hi <= |lines| && !IsBlank(lines[lo])
    ensures Contains(BlockText(lines, s), Strip(RawText(lines, lo, hi)))
  {
    var text := RawText(lines, lo, hi);
    var pre, post := RawAround(lines, s.lo, s.hi, lo, hi);
    if s.kind == Code {
      StripInside(text);
      ContainsInContext(pre, text, post, Strip(text));
    } else {
      ProseIsSolid(lines[lo..hi]);
      StripMonotone(pre, text, post);
    }
  }

  lemma CodeLineSurvives(lines: seq<string>, s: Span, i: nat)
    requires s.hi <= |lines| && Within(s, i)
    ensures Contains(RawText(lines, s.lo, s.hi), lines[i])
  {
    var pre, post := RawAround(lines, s.lo, s.hi, i, i + 1);
    assert lines[i..i + 1] == [lines[i]];
    ContainsSelf(lines[i]);
    ContainsInContext(pre, lines[i], post, lines[i]);
  }

  lemma ProseLineSurvives(lines: seq<string>, s: Span, i: nat)
    requires s.hi <= |lines| && Within(s, i) && !IsBlank(lines[i])
    ensures Contains(BlockText(lines, s), Strip(lines[i]))
  {
    PartSurvives(lines, s, i, i + 1);
    assert lines[i..i + 1] == [lines[i]];
  }

  /** A kept line's own text is in its block: whole in a code block, up to surrounding space in prose. */
  lemma LineSurvives(lines: seq<string>, ls: Lines, spans: seq<Span>, blocks: seq<Block>, k: nat, i: nat)
    requires AreKinds(lines, ls) && IsSpanning(ls, spans) && AreBlocksOf(lines, ls, spans, blocks)
    requires k < |spans| && Within(spans[k], i)
    ensures Contains(blocks[k].text, if spans[k].kind == Code then lines[i] else Strip(lines[i]))
  {
    var s := spans[k];
    assert IsSpan(ls, s);
    assert IsBlockOf(lines, ls, s, blocks[k]);
    if s.kind == Code {
      CodeLineSurvives(lines, s, i);
    } else {
      ProseSpan(ls, s, i);
      assert IsKind(lines[i], ls[i]);
      ProseLineSurvives(lines, s, i);
    }
  }

  // ---- what the line tests mean ------------------------------------------------------------

  /** `n` heading marks, at most six, with a space after them and something after that. */
  ghost predicate HasMarks(line: string, n: nat) {
    && 1 <= n <= 6 && n + 1 < |line| && IsSpace(line[n])
    && forall i | 0 <= i < n :: line[i] == '#'
  }

  /** Three backquotes, with nothing but spaces before them. */
  ghost predicate HasFence(line: string, i: nat) {
    && i + 3 <= |line| && AllSpace(line[..i])
    && line[i] == '`' && line[i + 1] == '`' && line[i + 2] == '`'
  }

  lemma {:induction false} HashesAre(line: string, n: nat)
    requires n <= |line| && (forall i | 0 <= i < n :: line[i] == '#') && (n < |line| ==> line[n] != '#')
    ensures Hashes(line) == n
  {
    if n > 0 {
      HashesAre(line[1..], n - 1);
    }
  }

  lemma {:induction false} HashesMean(line: string)
    ensures var n := Hashes(line); (forall i | 0 <= i < n :: line[i] == '#') && (n < |line| ==> line[n] != '#')
  {
    if line != "" && line[0] == '#' {
      HashesMean(line[1..]);
      var n := Hashes(line[1..]);
      assert forall i | 0 < i < n + 1 :: line[i] == line[1..][i - 1];
    }
  }

  lemma {:induction false} HeadingIff(line: string)
    ensures IsHeading(line) <==> exists n :: HasMarks(line, n)
  {
    HashesMean(line);
    if IsHeading(line) {
      assert HasMarks(line, Hashes(line));
    }
    if n :| HasMarks(line, n) {
      HashesAre(line, n);
    }
  }

  lemma {:induction false} FenceIff(line: string)
    ensures IsFence(line) <==> exists i :: HasFence(line, i)
  {
    var pre, post := StripMeans(line);
    var core := Strip(line);
    if IsFence(line) {
      assert line[..|pre|] == pre;
      assert core[0] == '`' && core[1] == '`' && core[2] == '`';
      assert HasFence(line, |pre|);
    }
    if i :| HasFence(line, i) {
      FenceIsFirst(line, i, pre, core, post);
    }
  }

  /** The spaces before a fence are those that stripping takes off, so the fence is what is left first. */
  lemma {:induction false} FenceIsFirst(line: string, i: nat, pre: string, core: string, post: string)
    requires HasFence(line, i) && line == pre + core + post && AllSpace(pre) && AllSpace(post) && IsSolid(core)
    ensures "```" <= core
  {
    assert forall j | 0 <= j < |pre| :: line[j] == pre[j];
    assert forall j | 0 <= j < i :: line[j] == line[..i][j];
    assert forall j | 0 <= j < |core| :: line[|pre| + j] == core[j];
    assert forall j | 0 <= j < |post| :: line[|pre| + |core| + j] == post[j];
    assert i == |pre|;
    assert |core| >= 3;
  }

  lemma {:induction false} BlankIff(line: string)
    ensures IsBlank(line) <==> AllSpace(line)
  {
    var pre, post := StripMeans(line);
    if IsBlank(line) {
      assert line == pre + post;
    } else {
      assert line[|pre|] == Strip(line)[0];
    }
  }

  /** The kind of a line, by its characters. */
  lemma {:induction false} KindIff(line: string)
    ensures Classify(line) == FenceLine <==> exists i :: HasFence(line, i)
    ensures Classify(line) == HeadingLine <==> exists n :: HasMarks(line, n)
    ensures Classify(line) == BlankLine <==> AllSpace(line)
  {
    FenceIff(line);
    HeadingIff(line);
    BlankIff(line);
    TestsExclusive(line);
  }

  /** A block's heading is the last heading line before it outside any fence, without the space around it; without one it has none. */
  lemma {:induction false} HeadingOfBlock(lines: seq<string>, ls: Lines, s: Span, b: Block) returns (h: nat, pre: string, post: string)
    requires IsBlockOf(lines, ls, s, b)
    ensures b.heading.None? ==> forall j | 0 <= j < s.lo :: InCode(ls, j) || ls[j] != HeadingLine
    ensures b.heading.Some? ==>
      && h < s.lo && !InCode(ls, h) && ls[h] == HeadingLine && (forall j | h < j < s.lo :: InCode(ls, j) || ls[j] != HeadingLine)
      && lines[h] == pre + b.heading.value + post && AllSpace(pre) && AllSpace(post) && IsSolid(b.heading.value)
  {
    HeadingAtIff(ls, s.lo);
    h, pre, post := 0, "", "";
    if HeadingAt(ls, s.lo).Some? {
      h := HeadingAt(ls, s.lo).value;
      pre, post := StripMeans(lines[h]);
    }
  }
}

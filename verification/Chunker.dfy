/**
 * The markdown chunker: blocks, the splitter for oversized blocks, and the sliding window
 * with overlap. `count` is the tokenizer's count of one text; nothing is assumed about it,
 * so a count that saturates (the tokenizer truncates) is covered.
 */
module Chunker {
  import opened Options
  import opened Text
  import opened Layout
  import opened Blocks
  import opened Windows

  type Counter = string -> nat

  ghost function UnitCounts(units: seq<string>, count: Counter): (cs: seq<nat>)
    ensures |cs| == |units| && forall i | 0 <= i < |cs| :: cs[i] == count(units[i])
  {
    seq(|units|, i requires 0 <= i < |units| => count(units[i]))
  }

  function Texts(blocks: seq<Block>): (ts: seq<string>)
    ensures |ts| == |blocks| && forall i | 0 <= i < |ts| :: ts[i] == blocks[i].text
  {
    seq(|blocks|, i requires 0 <= i < |blocks| => blocks[i].text)
  }

  ghost function Counts(blocks: seq<Block>, count: Counter): (cs: seq<nat>)
    ensures |cs| == |blocks| && forall i | 0 <= i < |cs| :: cs[i] == count(blocks[i].text)
  {
    UnitCounts(Texts(blocks), count)
  }

  // ---- splitting a block that is over the target on its own ---------------------

  /** Code is divided at line ends, prose at single spaces. */
  function Units(b: Block): seq<string> {
    if b.kind == Code then SplitLines(b.text) else SplitOn(b.text, ' ')
  }

  function Glue(b: Block): string {
    if b.kind == Code then "\n" else " "
  }

  /** The piece made of one window of a block's units. */
  ghost predicate IsPiece(b: Block, glue: string, units: seq<string>, w: Window, piece: Block) {
    w.lo < w.hi <= |units| && piece == Block(b.kind, Join(glue, units[w.lo..w.hi]), b.heading)
  }

  ghost predicate ArePieces(b: Block, glue: string, units: seq<string>, ws: seq<Window>, pieces: seq<Block>) {
    && |pieces| == |ws|
    && forall k {:trigger pieces[k]} | 0 <= k < |ws| :: IsPiece(b, glue, units, ws[k], pieces[k])
  }

  ghost predicate IsSplit(b: Block, count: Counter, target: int, ws: seq<Window>, pieces: seq<Block>) {
    && IsWindowing(UnitCounts(Units(b), count), target, 0, ws)
    && ArePieces(b, Glue(b), Units(b), ws, pieces)
  }

  /** All windows over the first `i` units but the last have been emitted; `current` holds the last one's units. */
  ghost predicate Open(b: Block, glue: string, units: seq<string>, cs: seq<nat>, i: nat, target: int, ws: seq<Window>,
                       pieces: seq<Block>, current: seq<string>, tokens: nat)
  {
    && |units| == |cs| && ws != [] && Windowed(cs, i, target, 0, ws)
    && ArePieces(b, glue, units, ws[..|ws| - 1], pieces)
    && var last := ws[|ws| - 1];
    current == units[last.lo..i] && tokens == Sum(cs, last.lo, i)
  }

  lemma OpenFirst(b: Block, glue: string, units: seq<string>, cs: seq<nat>, target: int)
    requires |cs| == |units| > 0
    ensures Open(b, glue, units, cs, 1, target, [Window(0, 1)], [], [units[0]], cs[0])
  {
  }

  lemma OpenGrows(b: Block, glue: string, units: seq<string>, cs: seq<nat>, i: nat, target: int, ws: seq<Window>,
                  pieces: seq<Block>, current: seq<string>, tokens: nat) returns (ws': seq<Window>)
    requires Open(b, glue, units, cs, i, target, ws, pieces, current, tokens) && i < |cs| && tokens + cs[i] <= target
    ensures Open(b, glue, units, cs, i + 1, target, ws', pieces, current + [units[i]], tokens + cs[i])
  {
    ws' := Grow(cs, i, target, 0, ws);
    assert ws'[..|ws'| - 1] == ws[..|ws| - 1];
  }

  /** Emitting the open window's piece completes the pieces. */
  lemma PieceEmitted(b: Block, glue: string, units: seq<string>, ws: seq<Window>, pieces: seq<Block>, piece: Block)
    requires ws != [] && ArePieces(b, glue, units, ws[..|ws| - 1], pieces) && IsPiece(b, glue, units, ws[|ws| - 1], piece)
    ensures ArePieces(b, glue, units, ws, pieces + [piece])
  {
  }

  lemma OpenCloses(b: Block, glue: string, units: seq<string>, cs: seq<nat>, i: nat, target: int, ws: seq<Window>,
                   pieces: seq<Block>, current: seq<string>, tokens: nat, piece: Block) returns (ws': seq<Window>)
    requires Open(b, glue, units, cs, i, target, ws, pieces, current, tokens) && i < |cs| && tokens + cs[i] > target
    requires piece == Block(b.kind, Join(glue, current), b.heading)
    ensures Open(b, glue, units, cs, i + 1, target, ws', pieces + [piece], [units[i]], cs[i])
  {
    PieceEmitted(b, glue, units, ws, pieces, piece);
    assert Sum(cs, i, i) == 0;
    ws' := Slide(cs, i, target, 0, ws, i);
    assert ws'[..|ws'| - 1] == ws;
    assert Sum(cs, i, i + 1) == cs[i];
  }

  /** One turn of the splitter's loop: emit the piece if the unit does not fit, then take the unit. */
  method TakeUnit(b: Block, glue: string, units: seq<string>, count: Counter, i: nat, target: int, ghost ws: seq<Window>,
                  pieces: seq<Block>, current: seq<string>, currentTokens: nat)
    returns (pieces': seq<Block>, current': seq<string>, currentTokens': nat, ghost ws': seq<Window>)
    requires i < |units| && Open(b, glue, units, UnitCounts(units, count), i, target, ws, pieces, current, currentTokens)
    ensures Open(b, glue, units, UnitCounts(units, count), i + 1, target, ws', pieces', current', currentTokens')
  {
    ghost var cs := UnitCounts(units, count);
    var t := count(units[i]);
    if currentTokens + t > target {
      var piece := Block(b.kind, Join(glue, current), b.heading);
      ws' := OpenCloses(b, glue, units, cs, i, target, ws, pieces, current, currentTokens, piece);
      pieces', current', currentTokens' := pieces + [piece], [units[i]], t;
    } else {
      ws' := OpenGrows(b, glue, units, cs, i, target, ws, pieces, current, currentTokens);
      pieces', current', currentTokens' := pieces, current + [units[i]], currentTokens + t;
    }
  }

  /** The pieces of an oversized block. */
  ghost predicate AreSplitPieces(b: Block, count: Counter, target: int, pieces: seq<Block>) {
    exists ws :: IsSplit(b, count, target, ws, pieces)
  }

  /** The first unit is taken without a test, because nothing is being collected yet. */
  method SplitOversized(b: Block, count: Counter, target: int) returns (pieces: seq<Block>, ghost ws: seq<Window>)
    ensures AreSplitPieces(b, count, target, pieces) && IsSplit(b, count, target, ws, pieces)
  {
    var units, glue := Units(b), Glue(b);
    ghost var cs := UnitCounts(units, count);
    pieces, ws := [], [];
    if units == [] {
      assert IsSplit(b, count, target, ws, pieces);
      return;
    }
    var current, currentTokens := [units[0]], count(units[0]);
    ws := [Window(0, 1)];
    OpenFirst(b, glue, units, cs, target);
    for i := 1 to |units|
      invariant Open(b, glue, units, cs, i, target, ws, pieces, current, currentTokens)
    {
      pieces, current, currentTokens, ws := TakeUnit(b, glue, units, count, i, target, ws, pieces, current, currentTokens);
    }
    PieceEmitted(b, glue, units, ws, pieces, Block(b.kind, Join(glue, current), b.heading));
    pieces := pieces + [Block(b.kind, Join(glue, current), b.heading)];
    assert IsSplit(b, count, target, ws, pieces);
  }

  /** Every piece is within the target, counted unit by unit, or is one unit that cannot be divided. */
  lemma PieceFits(b: Block, count: Counter, target: int, ws: seq<Window>, pieces: seq<Block>, k: nat)
    requires IsSplit(b, count, target, ws, pieces) && k < |pieces|
    ensures ws[k].lo < ws[k].hi <= |Units(b)|
    ensures Sum(UnitCounts(Units(b), count), ws[k].lo, ws[k].hi) <= target
            || pieces[k].text == Units(b)[ws[k].lo]
  {
    NoOverlap(UnitCounts(Units(b), count), target, ws, k);
    assert IsPiece(b, Glue(b), Units(b), ws[k], pieces[k]);
    if ws[k].hi == ws[k].lo + 1 {
      assert Units(b)[ws[k].lo..ws[k].hi] == [Units(b)[ws[k].lo]];
    }
  }

  /** No division of the block's units, in order, into pieces within the target has fewer pieces. */
  lemma FewestPieces(b: Block, count: Counter, target: int, ws: seq<Window>, pieces: seq<Block>, cuts: seq<nat>)
    requires IsSplit(b, count, target, ws, pieces)
    requires IsPartition(UnitCounts(Units(b), count), target, cuts)
    ensures |pieces| <= |cuts| - 1
  {
    GreedyIsSmallest(UnitCounts(Units(b), count), target, ws, cuts);
  }

  lemma CoverMore(glue: string, ts: seq<string>, k: nat, units: seq<string>, lo: nat, hi: nat)
    requires 0 < k < |ts| && 0 < lo < hi <= |units|
    requires Join(glue, ts[..k]) == Join(glue, units[..lo]) && ts[k] == Join(glue, units[lo..hi])
    ensures Join(glue, ts[..k + 1]) == Join(glue, units[..hi])
  {
    var head, run := ts[..k + 1], units[..hi];
    assert head[..k] == ts[..k] && head[k..] == [ts[k]];
    JoinSplitAt(glue, head, k);
    assert run[..lo] == units[..lo] && run[lo..] == units[lo..hi];
    JoinSplitAt(glue, run, lo);
  }

  lemma {:induction false} PiecesCover(b: Block, glue: string, units: seq<string>, ws: seq<Window>, pieces: seq<Block>, k: nat)
    requires ArePieces(b, glue, units, ws, pieces) && k < |pieces|
    requires forall j | 0 <= j < |ws| :: ws[j].lo < ws[j].hi <= |units|
    requires forall j {:trigger Fresh(ws, j)} | 0 <= j < |ws| :: ws[j].lo == Fresh(ws, j)
    ensures Join(glue, Texts(pieces)[..k + 1]) == Join(glue, units[..ws[k].hi])
  {
    var ts := Texts(pieces);
    assert IsPiece(b, glue, units, ws[k], pieces[k]);
    assert ws[k].lo == Fresh(ws, k);
    if k == 0 {
      assert ts[..1] == [ts[0]];
    } else {
      PiecesCover(b, glue, units, ws, pieces, k - 1);
      assert Fresh(ws, k) == ws[k - 1].hi && Fresh(ws, k - 1) < ws[k - 1].hi;
      CoverMore(glue, ts, k, units, ws[k].lo, ws[k].hi);
    }
  }

  lemma PiecesRejoinUnits(b: Block, count: Counter, target: int, ws: seq<Window>, pieces: seq<Block>)
    requires IsSplit(b, count, target, ws, pieces)
    ensures Join(Glue(b), Texts(pieces)) == Join(Glue(b), Units(b))
  {
    var units := Units(b);
    var cs := UnitCounts(units, count);
    if ws == [] {
      assert units == [] && Texts(pieces) == [];
    } else {
      forall j {:trigger Fresh(ws, j)} | 0 <= j < |ws|
        ensures ws[j].lo == Fresh(ws, j)
      {
        NoOverlap(cs, target, ws, j);
      }
      PiecesCover(b, Glue(b), units, ws, pieces, |ws| - 1);
      assert Texts(pieces)[..|ws|] == Texts(pieces);
      assert units[..|units|] == units;
    }
  }

  /**
   * Putting the pieces back together restores the block's text, unless the block is code
   * whose last line is empty: that line is lost. `lines` are the block's lines.
   */
  lemma PiecesRejoin(b: Block, lines: seq<string>, count: Counter, target: int, ws: seq<Window>, pieces: seq<Block>)
    requires IsSplit(b, count, target, ws, pieces)
    requires b.kind == Code ==> lines != [] && b.text == Join("\n", lines) && AllBreakFree(lines)
    ensures Join(Glue(b), Texts(pieces)) == b.text
            <==> b.kind == Prose || |lines| == 1 || lines[|lines| - 1] != ""
  {
    PiecesRejoinUnits(b, count, target, ws, pieces);
    if b.kind == Code {
      RejoinLines(lines);
    } else {
      JoinSplitOn(b.text, ' ');
    }
  }

  // ---- the window over blocks --------------------------------------------------

  function Render(blocks: seq<Block>): string
    requires blocks != []
  {
    var body := Join("\n\n", Texts(blocks));
    match blocks[0].heading
    case Some(h) => if h != "" then h + "\n\n" + body else body
    case None => body
  }

  /** The carried blocks are those from `t` on, the shortest suffix that reaches the overlap, or all of them. */
  ghost predicate IsCarried(blocks: seq<Block>, count: Counter, overlap: int, tail: seq<Block>, t: nat) {
    IsShortestTail(Counts(blocks, count), 0, |blocks|, overlap, t) && tail == blocks[t..]
  }

  ghost predicate IsOverlap(blocks: seq<Block>, count: Counter, overlap: int, tail: seq<Block>) {
    exists t :: IsCarried(blocks, count, overlap, tail, t)
  }

  /** The blocks carried over: from the end back, until the overlap is reached. */
  method OverlapTail(blocks: seq<Block>, count: Counter, overlap: int) returns (tail: seq<Block>, ghost t: nat)
    ensures IsOverlap(blocks, count, overlap, tail) && IsCarried(blocks, count, overlap, tail, t)
  {
    ghost var cs := Counts(blocks, count);
    tail := [];
    var acc := 0;
    var i := |blocks|;
    while i > 0
      invariant 0 <= i <= |blocks| && tail == blocks[i..] && acc == Sum(cs, i, |blocks|)
      invariant forall j | i < j <= |blocks| :: Sum(cs, j, |blocks|) < overlap
    {
      if acc >= overlap {
        break;
      }
      i := i - 1;
      tail := [blocks[i]] + tail;
      acc := acc + count(blocks[i].text);
      SumSplit(cs, i, i + 1, |blocks|);
    }
    t := i;
    assert IsCarried(blocks, count, overlap, tail, t);
  }

  /** The summed count of the blocks carried over. */
  method CountAll(blocks: seq<Block>, count: Counter) returns (total: nat)
    ensures total == Sum(Counts(blocks, count), 0, |blocks|)
  {
    total := 0;
    for i := 0 to |blocks|
      invariant total == Sum(Counts(blocks, count), 0, i)
    {
      total := total + count(blocks[i].text);
    }
  }

  ghost predicate IsExpansion(b: Block, count: Counter, target: int, ws: seq<Window>, part: seq<Block>) {
    if count(b.text) > target then IsSplit(b, count, target, ws, part) else part == [b]
  }

  ghost predicate AreExpansions(blocks: seq<Block>, count: Counter, target: int, splits: seq<seq<Window>>,
                                parts: seq<seq<Block>>)
  {
    && |parts| == |splits| == |blocks|
    && forall k {:trigger parts[k]} | 0 <= k < |blocks| :: IsExpansion(blocks[k], count, target, splits[k], parts[k])
  }

  ghost function Flatten(parts: seq<seq<Block>>): seq<Block> {
    if parts == [] then [] else Flatten(parts[..|parts| - 1]) + parts[|parts| - 1]
  }

  lemma ExpandMore(blocks: seq<Block>, k: nat, count: Counter, target: int, splits: seq<seq<Window>>, parts: seq<seq<Block>>,
                   split: seq<Window>, part: seq<Block>)
    requires k < |blocks| && AreExpansions(blocks[..k], count, target, splits, parts)
    requires IsExpansion(blocks[k], count, target, split, part)
    ensures AreExpansions(blocks[..k + 1], count, target, splits + [split], parts + [part])
    ensures Flatten(parts + [part]) == Flatten(parts) + part
  {
  }

  method Expand(blocks: seq<Block>, count: Counter, target: int)
    returns (expanded: seq<Block>, ghost parts: seq<seq<Block>>, ghost splits: seq<seq<Window>>)
    ensures AreExpansions(blocks, count, target, splits, parts) && expanded == Flatten(parts)
  {
    expanded, parts, splits := [], [], [];
    for k := 0 to |blocks|
      invariant AreExpansions(blocks[..k], count, target, splits, parts) && expanded == Flatten(parts)
    {
      var b := blocks[k];
      var part;
      ghost var split := [];
      if count(b.text) > target {
        part, split := SplitOversized(b, count, target);
      } else {
        part := [b];
      }
      ExpandMore(blocks, k, count, target, splits, parts, split, part);
      expanded := expanded + part;
      parts, splits := parts + [part], splits + [split];
    }
    assert blocks[..|blocks|] == blocks;
  }

  ghost predicate IsChunk(expanded: seq<Block>, w: Window, chunk: string) {
    w.lo < w.hi <= |expanded| && chunk == Render(expanded[w.lo..w.hi])
  }

  /** Chunk `k` is the rendering of window `k`. */
  ghost predicate AreChunksOf(expanded: seq<Block>, ws: seq<Window>, chunks: seq<string>) {
    && |chunks| == |ws|
    && forall k {:trigger chunks[k]} | 0 <= k < |ws| :: IsChunk(expanded, ws[k], chunks[k])
  }

  /** All windows over the first `i` blocks but the last have been rendered; `current` holds the last one's blocks. */
  ghost predicate WindowOpen(expanded: seq<Block>, cs: seq<nat>, i: nat, target: int, overlap: int, ws: seq<Window>,
                             chunks: seq<string>, current: seq<Block>, currentTokens: nat)
  {
    && |cs| == |expanded| && ws != [] && Windowed(cs, i, target, overlap, ws)
    && AreChunksOf(expanded, ws[..|ws| - 1], chunks)
    && var last := ws[|ws| - 1];
    current == expanded[last.lo..i] && currentTokens == Sum(cs, last.lo, i)
  }

  /** Rendering the open window's blocks completes the chunks. */
  lemma WindowRendered(expanded: seq<Block>, cs: seq<nat>, i: nat, target: int, overlap: int, ws: seq<Window>,
                       chunks: seq<string>, current: seq<Block>, tokens: nat)
    requires WindowOpen(expanded, cs, i, target, overlap, ws, chunks, current, tokens)
    ensures current != [] && AreChunksOf(expanded, ws, chunks + [Render(current)])
  {
  }

  lemma WindowFirst(expanded: seq<Block>, cs: seq<nat>, target: int, overlap: int)
    requires |cs| == |expanded| > 0
    ensures WindowOpen(expanded, cs, 1, target, overlap, [Window(0, 1)], [], [expanded[0]], cs[0])
  {
  }

  lemma WindowGrows(expanded: seq<Block>, cs: seq<nat>, i: nat, target: int, overlap: int, ws: seq<Window>,
                    chunks: seq<string>, current: seq<Block>, tokens: nat) returns (ws': seq<Window>)
    requires WindowOpen(expanded, cs, i, target, overlap, ws, chunks, current, tokens)
    requires i < |cs| && tokens + cs[i] <= target
    ensures WindowOpen(expanded, cs, i + 1, target, overlap, ws', chunks, current + [expanded[i]], tokens + cs[i])
  {
    ws' := Grow(cs, i, target, overlap, ws);
    assert ws'[..|ws'| - 1] == ws[..|ws| - 1];
  }

  /** `ds` are the counts of `cs` from `lo` on. */
  ghost predicate IsSliceOf(ds: seq<nat>, cs: seq<nat>, lo: nat) {
    lo + |ds| <= |cs| && forall j | 0 <= j < |ds| :: ds[j] == cs[lo + j]
  }

  lemma CountsOfSlice(expanded: seq<Block>, count: Counter, lo: nat, hi: nat)
    requires lo <= hi <= |expanded|
    ensures IsSliceOf(Counts(expanded[lo..hi], count), Counts(expanded, count), lo)
  {
  }

  /** The overlap found among a window's own counts is the window's overlap among all of them. */
  lemma TailInWhole(cs: seq<nat>, ds: seq<nat>, es: seq<nat>, lo: nat, i: nat, overlap: int, d: nat, t: nat)
    requires lo <= t <= i < |cs| && |ds| == i - lo && IsSliceOf(ds, cs, lo) && t == lo + d
    requires IsShortestTail(ds, 0, |ds|, overlap, d) && |es| == i - t && IsSliceOf(es, cs, t)
    ensures IsShortestTail(cs, lo, i, overlap, t)
    ensures Sum(es, 0, |es|) + cs[i] == Sum(cs, t, i + 1)
  {
    SumOfSlice(cs, ds, lo, d, |ds|);
    SumOfSlice(cs, es, t, 0, |es|);
    forall j | t < j <= i
      ensures Sum(cs, j, i) < overlap
    {
      SumOfSlice(cs, ds, lo, j - lo, |ds|);
      assert Sum(ds, j - lo, |ds|) < overlap;
    }
  }

  lemma WindowCloses(expanded: seq<Block>, cs: seq<nat>, i: nat, target: int, overlap: int, ws: seq<Window>,
                     chunks: seq<string>, tail: seq<Block>, t: nat, total: nat) returns (ws': seq<Window>)
    requires |cs| == |expanded| && i < |cs| && ws != [] && Windowed(cs, i, target, overlap, ws)
    requires Sum(cs, ws[|ws| - 1].lo, i) + cs[i] > target
    requires AreChunksOf(expanded, ws, chunks)
    requires IsShortestTail(cs, ws[|ws| - 1].lo, i, overlap, t) && tail == expanded[t..i]
    requires total == Sum(cs, t, i + 1)
    ensures WindowOpen(expanded, cs, i + 1, target, overlap, ws', chunks, tail + [expanded[i]], total)
  {
    ws' := Slide(cs, i, target, overlap, ws, t);
    assert ws'[..|ws'| - 1] == ws;
  }

  /** The overlap carried from the window `lo..i` starts at block `t`; with block `i` it counts `total`. */
  ghost predicate IsCarriedOver(expanded: seq<Block>, cs: seq<nat>, lo: nat, i: nat, overlap: int, tail: seq<Block>,
                                total: nat, t: nat)
  {
    && i < |expanded| == |cs| && IsShortestTail(cs, lo, i, overlap, t)
    && tail == expanded[t..i] && total == Sum(cs, t, i + 1)
  }

  /** The overlap of the window that ends before block `i`, and its count with that block's. */
  method CarryOver(expanded: seq<Block>, count: Counter, ghost lo: nat, i: nat, overlap: int, current: seq<Block>)
    returns (tail: seq<Block>, total: nat, ghost t: nat)
    requires lo <= i < |expanded| && current == expanded[lo..i]
    ensures IsCarriedOver(expanded, Counts(expanded, count), lo, i, overlap, tail, total, t)
  {
    ghost var d;
    tail, d := OverlapTail(current, count, overlap);
    var tailTokens := CountAll(tail, count);
    total := tailTokens + count(expanded[i].text);
    t := lo + d;
    TailIsCarried(expanded, count, lo, i, overlap, current, tail, d, t, total);
  }

  lemma TailIsCarried(expanded: seq<Block>, count: Counter, lo: nat, i: nat, overlap: int, current: seq<Block>,
                      tail: seq<Block>, d: nat, t: nat, total: nat)
    requires lo <= i < |expanded| && current == expanded[lo..i] && t == lo + d
    requires IsCarried(current, count, overlap, tail, d)
    requires total == Sum(Counts(tail, count), 0, |tail|) + count(expanded[i].text)
    ensures IsCarriedOver(expanded, Counts(expanded, count), lo, i, overlap, tail, total, t)
  {
    var cs, ds, es := Counts(expanded, count), Counts(current, count), Counts(tail, count);
    SliceOfSlice(expanded, lo, i, t, i);
    assert tail == expanded[t..i];
    CountsOfSlice(expanded, count, lo, i);
    CountsOfSlice(expanded, count, t, i);
    TailInWhole(cs, ds, es, lo, i, overlap, d, t);
  }

  /** One turn of the window loop: render and carry the overlap if the block does not fit, then take the block. */
  method TakeBlock(expanded: seq<Block>, count: Counter, i: nat, target: int, overlap: int, ghost ws: seq<Window>,
                   chunks: seq<string>, current: seq<Block>, currentTokens: nat)
    returns (chunks': seq<string>, current': seq<Block>, currentTokens': nat, ghost ws': seq<Window>)
    requires i < |expanded|
    requires WindowOpen(expanded, Counts(expanded, count), i, target, overlap, ws, chunks, current, currentTokens)
    ensures WindowOpen(expanded, Counts(expanded, count), i + 1, target, overlap, ws', chunks', current', currentTokens')
  {
    ghost var cs := Counts(expanded, count);
    WindowRendered(expanded, cs, i, target, overlap, ws, chunks, current, currentTokens);
    var t := count(expanded[i].text);
    if currentTokens + t > target {
      ghost var from;
      var tail, total;
      tail, total, from := CarryOver(expanded, count, ws[|ws| - 1].lo, i, overlap, current);
      chunks', current', currentTokens' := chunks + [Render(current)], tail + [expanded[i]], total;
      ws' := WindowCloses(expanded, cs, i, target, overlap, ws, chunks', tail, from, total);
    } else {
      ws' := WindowGrows(expanded, cs, i, target, overlap, ws, chunks, current, currentTokens);
      chunks', current', currentTokens' := chunks, current + [expanded[i]], currentTokens + t;
    }
  }

  ghost predicate AreWindows(expanded: seq<Block>, count: Counter, target: int, overlap: int, chunks: seq<string>,
                             ws: seq<Window>)
  {
    IsWindowing(Counts(expanded, count), target, overlap, ws) && AreChunksOf(expanded, ws, chunks)
  }

  /** The chunks are the renderings of the windows. */
  ghost predicate AreWindowed(expanded: seq<Block>, count: Counter, target: int, overlap: int, chunks: seq<string>) {
    exists ws :: AreWindows(expanded, count, target, overlap, chunks, ws)
  }

  method WindowBlocks(expanded: seq<Block>, count: Counter, target: int, overlap: int)
    returns (chunks: seq<string>, ghost ws: seq<Window>)
    ensures AreWindowed(expanded, count, target, overlap, chunks)
    ensures AreWindows(expanded, count, target, overlap, chunks, ws)
  {
    ghost var cs := Counts(expanded, count);
    if expanded == [] {
      assert AreWindows(expanded, count, target, overlap, [], []);
      return [], [];
    }
    var current, currentTokens := [expanded[0]], count(expanded[0].text);
    chunks, ws := [], [Window(0, 1)];
    WindowFirst(expanded, cs, target, overlap);
    for i := 1 to |expanded|
      invariant WindowOpen(expanded, cs, i, target, overlap, ws, chunks, current, currentTokens)
    {
      chunks, current, currentTokens, ws :=
        TakeBlock(expanded, count, i, target, overlap, ws, chunks, current, currentTokens);
    }
    WindowRendered(expanded, cs, |expanded|, target, overlap, ws, chunks, current, currentTokens);
    chunks := chunks + [Render(current)];
    assert AreWindows(expanded, count, target, overlap, chunks, ws);
  }

  // ---- the whole chunker -------------------------------------------------------

  /** How a document became its chunks. */
  datatype Trace = Trace(kinds: Lines, spans: seq<Span>, blocks: seq<Block>, parts: seq<seq<Block>>,
                         splits: seq<seq<Window>>, windows: seq<Window>)

  ghost predicate Explains(markdown: string, count: Counter, target: int, overlap: int, tr: Trace, chunks: seq<string>) {
    var lines := SplitLines(markdown);
    && AreKinds(lines, tr.kinds) && IsSpanning(tr.kinds, tr.spans) && AreBlocksOf(lines, tr.kinds, tr.spans, tr.blocks)
    && AreExpansions(tr.blocks, count, target, tr.splits, tr.parts)
    && var expanded := Flatten(tr.parts);
    && IsWindowing(Counts(expanded, count), target, overlap, tr.windows)
    && AreChunksOf(expanded, tr.windows, chunks)
  }

  /** The document's chunks. */
  ghost predicate AreChunks(markdown: string, count: Counter, target: int, overlap: int, chunks: seq<string>) {
    exists tr :: Explains(markdown, count, target, overlap, tr, chunks)
  }

  method ChunkMarkdown(markdown: string, count: Counter, target: int, overlap: int)
    returns (chunks: seq<string>, ghost tr: Trace)
    ensures AreChunks(markdown, count, target, overlap, chunks)
    ensures Explains(markdown, count, target, overlap, tr, chunks)
  {
    var blocks, expanded;
    ghost var kinds, spans, parts, splits, ws;
    blocks, kinds, spans := SplitBlocks(SplitLines(markdown));
    expanded, parts, splits := Expand(blocks, count, target);
    chunks, ws := WindowBlocks(expanded, count, target, overlap);
    tr := Trace(kinds, spans, blocks, parts, splits, ws);
    assert Explains(markdown, count, target, overlap, tr, chunks);
  }

  lemma {:induction false} PartInFlat(parts: seq<seq<Block>>, k: nat, i: nat) returns (at: nat)
    requires k < |parts| && i < |parts[k]|
    ensures at < |Flatten(parts)| && Flatten(parts)[at] == parts[k][i]
    decreases |parts|
  {
    var last := |parts| - 1;
    if k == last {
      at := |Flatten(parts[..last])| + i;
    } else {
      at := PartInFlat(parts[..last], k, i);
    }
  }

  /** A window's rendering contains the text of each block in it. */
  lemma RenderContains(blocks: seq<Block>, i: nat)
    requires i < |blocks|
    ensures Contains(Render(blocks), blocks[i].text)
  {
    var ts := Texts(blocks);
    var pre, post := JoinAround("\n\n", ts, i, i + 1);
    assert ts[i..i + 1] == [blocks[i].text];
    ContainsSelf(blocks[i].text);
    var body := Join("\n\n", ts);
    ContainsInContext(pre, blocks[i].text, post, blocks[i].text);
    match blocks[0].heading
    case Some(h) =>
      ContainsInContext(h + "\n\n", body, "", blocks[i].text);
      assert h + "\n\n" + body + "" == h + "\n\n" + body;
    case None =>
  }

  /** A block of the expanded list is in some chunk, whole. */
  lemma ExpandedInSomeChunk(expanded: seq<Block>, cs: seq<nat>, target: int, overlap: int, ws: seq<Window>,
                            chunks: seq<string>, at: nat) returns (c: nat)
    requires |cs| == |expanded| && IsWindowing(cs, target, overlap, ws) && AreChunksOf(expanded, ws, chunks)
    requires at < |expanded|
    ensures c < |chunks| && Contains(chunks[c], expanded[at].text)
  {
    c := FindWindow(cs, target, overlap, ws, at);
    var w := ws[c];
    assert IsChunk(expanded, w, chunks[c]);
    var mine := expanded[w.lo..w.hi];
    assert mine[at - w.lo] == expanded[at];
    RenderContains(mine, at - w.lo);
  }

  lemma UnitsOfText(b: Block)
    requires b.text != ""
    ensures Units(b) != []
  {
  }

  /** A kept line leaves text in its block, so every block has a part, and there is a chunk. */
  lemma KeptLineInChunks(markdown: string, count: Counter, target: int, overlap: int, tr: Trace, chunks: seq<string>, i: nat)
    requires Explains(markdown, count, target, overlap, tr, chunks) && i < |tr.kinds| && Kept(tr.kinds, i)
    ensures chunks != []
  {
    var lines := SplitLines(markdown);
    var k :| 0 <= k < |tr.spans| && Within(tr.spans[k], i);
    var s, b := tr.spans[k], tr.blocks[k];
    assert IsSpan(tr.kinds, s);
    var j := s.lo;
    LineSurvives(lines, tr.kinds, tr.spans, tr.blocks, k, j);
    assert IsKind(lines[j], tr.kinds[j]);
    if s.kind == Prose {
      ProseSpan(tr.kinds, s, j);
    }
    assert b.text != "";
    UnitsOfText(b);
    assert IsBlockOf(lines, tr.kinds, s, b);
    assert IsExpansion(b, count, target, tr.splits[k], tr.parts[k]);
    assert tr.parts[k] != [];
    var expanded := Flatten(tr.parts);
    var at := PartInFlat(tr.parts, k, 0);
    var c := ExpandedInSomeChunk(expanded, Counts(expanded, count), target, overlap, tr.windows, chunks, at);
  }

  /** A document has no chunks exactly when it has no fence and no prose: only headings and blank lines. */
  lemma NoChunksIffNothingKept(markdown: string, count: Counter, target: int, overlap: int, tr: Trace, chunks: seq<string>)
    requires Explains(markdown, count, target, overlap, tr, chunks)
    ensures chunks == [] <==> forall i | 0 <= i < |tr.kinds| :: !Kept(tr.kinds, i)
  {
    if tr.spans != [] {
      var i := tr.spans[0].lo;
      assert IsSpan(tr.kinds, tr.spans[0]) && Kept(tr.kinds, i);
      KeptLineInChunks(markdown, count, target, overlap, tr, chunks, i);
    }
  }

  lemma SplitUnique(b: Block, count: Counter, target: int, ws: seq<Window>, part: seq<Block>, ws': seq<Window>,
                    part': seq<Block>)
    requires IsExpansion(b, count, target, ws, part) && IsExpansion(b, count, target, ws', part')
    ensures part == part'
  {
    if count(b.text) > target {
      WindowingUnique(UnitCounts(Units(b), count), target, 0, ws, ws');
      forall k | 0 <= k < |part|
        ensures part[k] == part'[k]
      {
        assert IsPiece(b, Glue(b), Units(b), ws[k], part[k]) && IsPiece(b, Glue(b), Units(b), ws[k], part'[k]);
      }
    }
  }

  /** The chunks are a function of the document, the counter and the two budgets. */
  lemma ChunksUnique(markdown: string, count: Counter, target: int, overlap: int, tr: Trace, chunks: seq<string>,
                     tr': Trace, chunks': seq<string>)
    requires Explains(markdown, count, target, overlap, tr, chunks)
    requires Explains(markdown, count, target, overlap, tr', chunks')
    ensures chunks == chunks'
  {
    BlocksUnique(SplitLines(markdown), tr.kinds, tr.spans, tr.blocks, tr'.kinds, tr'.spans, tr'.blocks);
    forall k | 0 <= k < |tr.parts|
      ensures tr.parts[k] == tr'.parts[k]
    {
      assert IsExpansion(tr.blocks[k], count, target, tr.splits[k], tr.parts[k]);
      assert IsExpansion(tr.blocks[k], count, target, tr'.splits[k], tr'.parts[k]);
      SplitUnique(tr.blocks[k], count, target, tr.splits[k], tr.parts[k], tr'.splits[k], tr'.parts[k]);
    }
    assert tr.parts == tr'.parts;
    var expanded := Flatten(tr.parts);
    WindowingUnique(Counts(expanded, count), target, overlap, tr.windows, tr'.windows);
    forall k | 0 <= k < |chunks|
      ensures chunks[k] == chunks'[k]
    {
      assert IsChunk(expanded, tr.windows[k], chunks[k]) && IsChunk(expanded, tr.windows[k], chunks'[k]);
    }
  }

  // ---- what splitting a document's blocks loses ---------------------------------------------

  /** The span is code of more than one line, and its last line is empty. */
  ghost predicate LosesLine(lines: seq<string>, s: Span) {
    s.lo + 1 < s.hi <= |lines| && s.kind == Code && lines[s.hi - 1] == ""
  }

  /** The document ends inside a fence, in an empty line. */
  ghost predicate EndsInOpenFence(lines: seq<string>, ls: Lines) {
    0 < |lines| == |ls| && lines[|lines| - 1] == "" && InCode(ls, |ls|)
  }

  /** Only the last block of a document that ends in an empty line of an open fence is such a span, and it is one. */
  lemma LosesLineIff(lines: seq<string>, ls: Lines, s: Span)
    requires AreKinds(lines, ls) && IsSpan(ls, s)
    ensures LosesLine(lines, s) <==> s.hi == |ls| && EndsInOpenFence(lines, ls)
  {
    var last := s.hi - 1;
    assert IsKind(lines[last], ls[last]);
    if lines[last] == "" {
      EmptyIsBlank();
      if s.kind == Code {
        CodeSpan(ls, s, last);
        UnterminatedAtEnd(ls, s);
      } else {
        ProseSpan(ls, s, last);
      }
    }
  }

  lemma EmptyIsBlank()
    ensures Classify("") == BlankLine
  {
    assert Strip("") == "";
  }

  lemma SliceBreakFree(lines: seq<string>, lo: nat, hi: nat)
    requires AllBreakFree(lines) && lo <= hi <= |lines|
    ensures AllBreakFree(lines[lo..hi])
  {
    forall k | 0 <= k < hi - lo
      ensures BreakFree(lines[lo..hi][k])
    {
      assert BreakFree(lines[lo + k]);
    }
  }

  /**
   * In any document the parts of a block rejoin to its text, except when the block is split
   * and is an unterminated fence that ends the document in an empty line: that line is lost.
   */
  lemma PartsRejoin(markdown: string, count: Counter, target: int, overlap: int, tr: Trace, chunks: seq<string>, k: nat)
    requires Explains(markdown, count, target, overlap, tr, chunks) && k < |tr.blocks|
    ensures var b := tr.blocks[k];
            Join(if b.kind == Code then "\n" else " ", Texts(tr.parts[k])) == b.text
            <==> !(count(b.text) > target && tr.spans[k].hi == |tr.kinds| && EndsInOpenFence(SplitLines(markdown), tr.kinds))
  {
    var lines, b, s := SplitLines(markdown), tr.blocks[k], tr.spans[k];
    assert IsSpan(tr.kinds, s);
    assert IsBlockOf(lines, tr.kinds, s, b);
    assert IsExpansion(b, count, target, tr.splits[k], tr.parts[k]);
    LosesLineIff(lines, tr.kinds, s);
    SplitLinesBreakFree(markdown);
    BlockRejoins(lines, tr.kinds, s, b, count, target, tr.splits[k], tr.parts[k]);
  }

  lemma {:induction false} BlockRejoins(lines: seq<string>, ls: Lines, s: Span, b: Block, count: Counter, target: int,
                                        ws: seq<Window>, part: seq<Block>)
    requires AllBreakFree(lines) && s.lo < s.hi && IsBlockOf(lines, ls, s, b) && IsExpansion(b, count, target, ws, part)
    ensures Join(if b.kind == Code then "\n" else " ", Texts(part)) == b.text
            <==> !(count(b.text) > target && LosesLine(lines, s))
  {
    if count(b.text) > target {
      SliceBreakFree(lines, s.lo, s.hi);
      PiecesRejoin(b, lines[s.lo..s.hi], count, target, ws, part);
    } else {
      assert Texts(part) == [b.text];
    }
  }

  lemma OpenFenceLines()
    ensures SplitLines("```\n\n") == ["```", ""]
  {
    assert BreakFree("```") && BreakFree("");
    SplitFirst("```", "\n");
    SplitFirst("", "");
    assert "```" + "\n" + "\n" == "```\n\n" && "" + "\n" + "" == "\n";
    SplitOnly("");
  }

  /** The smallest such document: a fence, and an empty line that its split loses. */
  lemma LostLineExample(count: Counter, target: int, overlap: int, tr: Trace, chunks: seq<string>)
    requires Explains("```\n\n", count, target, overlap, tr, chunks) && count("```\n") > target
    ensures |tr.blocks| == 1 && tr.blocks[0] == Block(Code, "```\n", None)
    ensures Join("\n", Texts(tr.parts[0])) == "```"
  {
    OpenFenceLines();
    var lines, ls := ["```", ""], [FenceLine, BlankLine];
    OpenFenceKinds(lines);
    KindsUnique(lines, tr.kinds, ls);
    OpenFenceSpan(ls);
    SpanningUnique(ls, tr.spans, [Span(Code, 0, 2)]);
    assert IsBlockOf(lines, ls, tr.spans[0], tr.blocks[0]);
    assert lines[0..2] == lines && lines[1..] == [""];
    assert tr.blocks[0].text == "```" + "\n" + "" == "```\n";
    assert IsExpansion(tr.blocks[0], count, target, tr.splits[0], tr.parts[0]);
    PiecesRejoinUnits(tr.blocks[0], count, target, tr.splits[0], tr.parts[0]);
    SplitFirst("```", "");
    SplitOnly("");
  }

  lemma OpenFenceKinds(lines: seq<string>)
    requires lines == ["```", ""]
    ensures AreKinds(lines, [FenceLine, BlankLine])
  {
    var ls := [FenceLine, BlankLine];
    assert Strip("```") == "```";
    EmptyIsBlank();
    assert IsKind(lines[0], ls[0]) && IsKind(lines[1], ls[1]);
  }

  lemma OpenFenceSpan(ls: Lines)
    requires ls == [FenceLine, BlankLine]
    ensures IsSpanning(ls, [Span(Code, 0, 2)]) && HeadingAt(ls, 0) == None
  {
    assert !InCode(ls, 0) && InCode(ls, 1) && InCode(ls, 2);
    var spans := [Span(Code, 0, 2)];
    assert IsSpan(ls, spans[0]) && Within(spans[0], 0) && Within(spans[0], 1);
  }

  /** A piece that is not within the target, counted unit by unit, is one word or one line. */
  lemma {:induction false} PieceIsAtom(b: Block, count: Counter, target: int, ws: seq<Window>, pieces: seq<Block>, k: nat)
    requires IsSplit(b, count, target, ws, pieces) && k < |pieces|
    ensures ws[k].lo <= ws[k].hi <= |Units(b)|
    ensures || Sum(UnitCounts(Units(b), count), ws[k].lo, ws[k].hi) <= target
            || if b.kind == Prose then ' ' !in pieces[k].text else BreakFree(pieces[k].text)
  {
    PieceFits(b, count, target, ws, pieces, k);
    SplitOnMeans(b.text, ' ');
    SplitLinesBreakFree(b.text);
  }

  // ---- how a chunk reads ---------------------------------------------------------------------

  lemma {:induction false} RenderStands(blocks: seq<Block>) returns (at: seq<nat>)
    requires blocks != []
    ensures StandAt(Render(blocks), "\n\n", Texts(blocks), at)
    ensures match blocks[0].heading
            case Some(h) => if h == "" then at[0] == 0 else h + "\n\n" <= Render(blocks) && at[0] == |h| + 2
            case None => at[0] == 0
  {
    at := JoinStands("\n\n", Texts(blocks));
    match blocks[0].heading
    case Some(h) =>
      if h != "" {
        at := StandAfter(h + "\n\n", Join("\n\n", Texts(blocks)), "\n\n", Texts(blocks), at);
      }
    case None =>
  }

  /**
   * For every document and every chunk: if the chunk's first block stands under a heading the
   * chunk starts with it and an empty line; then come the texts of its blocks, one after the
   * other with an empty line between them, and the last one ends the chunk.
   */
  lemma {:induction false} ChunkStands(markdown: string, count: Counter, target: int, overlap: int, tr: Trace,
                                       chunks: seq<string>, c: nat) returns (blocks: seq<Block>, at: seq<nat>)
    requires Explains(markdown, count, target, overlap, tr, chunks) && c < |chunks|
    ensures c < |tr.windows| && tr.windows[c].lo < tr.windows[c].hi <= |Flatten(tr.parts)|
    ensures blocks == Flatten(tr.parts)[tr.windows[c].lo..tr.windows[c].hi]
    ensures StandAt(chunks[c], "\n\n", Texts(blocks), at)
    ensures match blocks[0].heading
            case Some(h) => if h == "" then at[0] == 0 else h + "\n\n" <= chunks[c] && at[0] == |h| + 2
            case None => at[0] == 0
  {
    assert IsChunk(Flatten(tr.parts), tr.windows[c], chunks[c]);
    blocks := Flatten(tr.parts)[tr.windows[c].lo..tr.windows[c].hi];
    at := RenderStands(blocks);
  }
}

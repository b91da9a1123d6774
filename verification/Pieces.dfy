/**
 * Where the second parser's paragraphs lie in the chunker's blocks and in the pieces of the
 * blocks it divides.
 */
module Pieces {
  import opened Text
  import opened Layout
  import opened Blocks
  import opened Windows
  import opened Chunker
  import opened Sections

  // ---- where the two parsers agree -----------------------------------------------

  /** No code block opens or closes between two of the paragraph's lines. */
  ghost predicate Unbroken(ls: Lines, lo: nat, hi: nat)
    requires lo < hi <= |ls|
  {
    forall i | lo <= i < hi - 1 :: Joined(ls, i)
  }

  lemma {:induction false} StaysInSpan(ls: Lines, s: Span, lo: nat, i: nat)
    requires IsSpan(ls, s) && Within(s, lo) && lo <= i < |ls|
    requires forall j | lo <= j < i :: Joined(ls, j)
    ensures Within(s, i)
  {
  }

  lemma {:induction false} ParagraphInSpan(ls: Lines, spans: seq<Span>, lo: nat, hi: nat) returns (k: nat)
    requires IsSpanning(ls, spans) && IsParagraph(ls, lo, hi) && Unbroken(ls, lo, hi)
    ensures k < |spans| && IsSpan(ls, spans[k]) && spans[k].lo <= lo && hi <= spans[k].hi
  {
    assert IsWords(ls[lo]) && Kept(ls, lo);
    k :| 0 <= k < |spans| && Within(spans[k], lo);
    StaysInSpan(ls, spans[k], lo, hi - 1);
  }

  /** Some block holds the whole paragraph. */
  ghost predicate InOneSpan(spans: seq<Span>, lo: nat, hi: nat) {
    exists k :: 0 <= k < |spans| && spans[k].lo <= lo && hi <= spans[k].hi
  }

  /** That is so exactly when no code block cuts through it. */
  lemma {:induction false} InOneSpanIff(ls: Lines, spans: seq<Span>, lo: nat, hi: nat)
    requires IsSpanning(ls, spans) && IsParagraph(ls, lo, hi)
    ensures InOneSpan(spans, lo, hi) <==> Unbroken(ls, lo, hi)
  {
    if Unbroken(ls, lo, hi) {
      var k := ParagraphInSpan(ls, spans, lo, hi);
    }
    if k :| 0 <= k < |spans| && spans[k].lo <= lo && hi <= spans[k].hi {
      assert IsSpan(ls, spans[k]);
    }
  }

  // ---- blocks that stay in one part ----------------------------------------------------

  /** Within the target as a whole, or unit by unit, or not divisible. */
  ghost predicate StaysWhole(b: Block, count: Counter, target: int) {
    || count(b.text) <= target
    || Sum(UnitCounts(Units(b), count), 0, |Units(b)|) <= target
    || |Units(b)| == 1
  }

  lemma {:induction false} OneWindow(cs: seq<nat>, target: int, ws: seq<Window>)
    requires IsWindowing(cs, target, 0, ws) && cs != []
    ensures |ws| == 1 <==> |cs| == 1 || Sum(cs, 0, |cs|) <= target
  {
    if |ws| == 1 {
      assert WindowAt(cs, target, 0, ws, 0);
    }
    if |cs| == 1 || Sum(cs, 0, |cs|) <= target {
      var one := [Window(0, |cs|)];
      assert WindowAt(cs, target, 0, one, 0);
      WindowingUnique(cs, target, 0, ws, one);
    }
  }

  /** A block becomes one part exactly when it stays whole. */
  lemma {:induction false} OnePartIff(b: Block, count: Counter, target: int, ws: seq<Window>, part: seq<Block>)
    requires IsExpansion(b, count, target, ws, part) && b.text != ""
    ensures |part| == 1 <==> StaysWhole(b, count, target)
  {
    if count(b.text) > target {
      UnitsOfText(b);
      OneWindow(UnitCounts(Units(b), count), target, ws);
    }
  }

  /** The one part of a block that stays whole holds all its units. */
  lemma {:induction false} OnePartText(b: Block, count: Counter, target: int, ws: seq<Window>, part: seq<Block>)
    requires IsExpansion(b, count, target, ws, part) && |part| == 1
    ensures part[0].text == b.text || part[0].text == Join(Glue(b), Units(b))
    ensures b.kind == Prose ==> part[0].text == b.text
  {
    if count(b.text) > target {
      PiecesRejoinUnits(b, count, target, ws, part);
      assert Texts(part) == [part[0].text];
      if b.kind == Prose {
        JoinSplitOn(b.text, ' ');
      }
    }
  }

  /** The units of a code block, joined: all its lines, or all but a last empty one. */
  lemma {:induction false} CodeUnits(lines: seq<string>, lo: nat, hi: nat) returns (to: nat)
    requires AllBreakFree(lines) && lo < hi <= |lines|
    ensures lo <= to <= hi && Join("\n", SplitLines(RawText(lines, lo, hi))) == RawText(lines, lo, to)
    ensures to < hi ==> to == hi - 1 && lines[to] == ""
  {
    var mine := lines[lo..hi];
    SliceBreakFree(lines, lo, hi);
    SplitJoined(mine);
    to := hi;
    if mine[|mine| - 1] == "" {
      to := hi - 1;
      SliceOfSlice(lines, lo, hi, lo, to);
      assert mine[..to - lo] == mine[0..to - lo];
    }
  }

  lemma {:induction false} ParagraphInLines(lines: seq<string>, from: nat, to: nat, lo: nat, hi: nat)
    requires from <= lo < hi <= to <= |lines| && !IsBlank(lines[lo])
    ensures Contains(RawText(lines, from, to), ParagraphText(lines, lo, hi))
  {
    PartSurvives(lines, Span(Code, from, to), lo, hi);
  }

  lemma {:induction false} WordsNotEmpty(lines: seq<string>, ls: Lines, i: nat)
    requires AreKinds(lines, ls) && i < |ls| && IsWords(ls[i])
    ensures lines[i] != ""
  {
    WordsAreSolid(lines, ls, i);
    EmptyIsBlank();
  }

  lemma {:induction false} BlockHasText(lines: seq<string>, ls: Lines, spans: seq<Span>, blocks: seq<Block>, k: nat)
    requires IsCut(lines, ls, spans, blocks) && k < |spans|
    ensures blocks[k].text != ""
  {
    var i := spans[k].lo;
    assert IsSpan(ls, spans[k]);
    LineSurvives(lines, ls, spans, blocks, k, i);
    assert IsKind(lines[i], ls[i]);
    EmptyIsBlank();
    if spans[k].kind == Prose {
      ProseSpan(ls, spans[k], i);
    }
  }

  lemma {:induction false} JoinLonger(glue: string, units: seq<string>, lo: nat, hi: nat)
    requires glue != "" && lo < hi <= |units| && (lo > 0 || hi < |units|)
    ensures |Join(glue, units[lo..hi])| < |Join(glue, units)|
  {
    if hi < |units| {
      JoinSplitAt(glue, units, hi);
      var pre, post := JoinAround(glue, units[..hi], lo, hi);
      assert units[..hi][lo..hi] == units[lo..hi];
    } else {
      JoinSplitAt(glue, units, lo);
      assert units[lo..hi] == units[lo..];
    }
  }

  /** A piece of a prose block that is divided is shorter than the block. */
  lemma {:induction false} PieceShorter(b: Block, count: Counter, target: int, ws: seq<Window>, part: seq<Block>, i: nat)
    requires IsExpansion(b, count, target, ws, part) && b.kind == Prose && |part| > 1 && i < |part|
    ensures |part[i].text| < |b.text|
  {
    var units := Units(b);
    assert IsPiece(b, Glue(b), units, ws[i], part[i]);
    var w := ws[i];
    if i > 0 {
      NoOverlap(UnitCounts(units, count), target, ws, i);
    } else {
      WindowsSlide(UnitCounts(units, count), target, 0, ws, 0);
    }
    JoinSplitOn(b.text, ' ');
    JoinLonger(" ", units, w.lo, w.hi);
  }

  // ---- places in a block's text ----------------------------------------------------------

  /** Where unit `i` starts in the units' joined text; every separator is one character. */
  ghost function Offset(units: seq<string>, i: nat): (at: nat)
    requires i <= |units|
    ensures i > 0 ==> at > 0
  {
    if i == 0 then 0 else Offset(units, i - 1) + |units[i - 1]| + 1
  }

  lemma {:induction false} OffsetsRise(units: seq<string>, i: nat, j: nat)
    requires i < j <= |units|
    ensures Offset(units, i) < Offset(units, j)
  {
    if i < j - 1 {
      OffsetsRise(units, i, j - 1);
    }
  }

  lemma {:induction false} OffsetOfPrefix(units: seq<string>, n: nat, i: nat)
    requires i <= n <= |units|
    ensures Offset(units[..n], i) == Offset(units, i)
  {
    if i > 0 {
      OffsetOfPrefix(units, n, i - 1);
    }
  }

  lemma {:induction false} JoinedLength(glue: string, units: seq<string>, lo: nat, hi: nat)
    requires |glue| == 1 && lo < hi <= |units|
    ensures |Join(glue, units[lo..hi])| == Offset(units, hi) - Offset(units, lo) - 1
  {
    if hi == lo + 1 {
      assert units[lo..hi] == [units[lo]];
    } else {
      var run := units[lo..hi];
      JoinedLength(glue, units, lo, hi - 1);
      JoinSplitAt(glue, run, |run| - 1);
      assert run[..|run| - 1] == units[lo..hi - 1] && run[|run| - 1..] == [units[hi - 1]];
    }
  }

  /** The units from `lo` up to `hi` stand at these places in the joined text. */
  lemma {:induction false} JoinedPlace(glue: string, units: seq<string>, lo: nat, hi: nat)
    requires |glue| == 1 && lo < hi <= |units|
    ensures Offset(units, lo) <= Offset(units, hi) - 1 <= |Join(glue, units)|
    ensures Join(glue, units)[Offset(units, lo)..Offset(units, hi) - 1] == Join(glue, units[lo..hi])
  {
    var text, run := Join(glue, units), Join(glue, units[lo..hi]);
    JoinedLength(glue, units, lo, hi);
    var head := units[..hi];
    assert head[lo..] == units[lo..hi];
    if lo > 0 {
      JoinSplitAt(glue, head, lo);
      assert head[..lo] == units[..lo];
      assert units[..lo] == units[0..lo];
      JoinedLength(glue, units, 0, lo);
      assert Join(glue, head) == Join(glue, units[..lo]) + glue + run;
    } else {
      assert head == units[lo..hi];
    }
    assert Join(glue, head)[Offset(units, lo)..] == run;
    if hi < |units| {
      JoinSplitAt(glue, units, hi);
    } else {
      assert head == units;
    }
  }

  /** Where part `i` of a block stands in the block's text. */
  ghost function PartPlace(b: Block, count: Counter, target: int, ws: seq<Window>, i: nat): Window
    requires HasWindow(b, count, target, ws, i)
  {
    if count(b.text) <= target then Window(0, |b.text|) else UnitsPlace(Units(b), ws[i])
  }

  /** Part `i` of a divided block is made of the units of window `i`. */
  ghost predicate HasWindow(b: Block, count: Counter, target: int, ws: seq<Window>, i: nat) {
    count(b.text) > target ==> i < |ws| && ws[i].lo < ws[i].hi <= |Units(b)|
  }

  /** A prose block with a whole paragraph of the other parser in it is that paragraph. */
  lemma {:induction false} ProseIsParagraph(ls: Lines, s: Span, lo: nat, hi: nat)
    requires IsSpan(ls, s) && s.kind == Prose && IsParagraph(ls, lo, hi) && s.lo <= lo && hi <= s.hi
    ensures s.lo == lo && s.hi == hi
  {
    if s.lo < lo {
      ProseSpan(ls, s, lo - 1);
    }
    if hi < s.hi {
      ProseSpan(ls, s, hi);
    }
  }

  /**
   * Where the paragraph of lines `lo` up to `hi` stands in its block's text. A prose block is
   * one paragraph; in a code block the lines stand as they are.
   */
  ghost function ParagraphPlace(lines: seq<string>, s: Span, b: Block, lo: nat, hi: nat): Window
    requires s.lo <= lo < hi <= s.hi <= |lines|
  {
    if s.kind == Prose then Window(0, |b.text|) else UnitsPlace(lines[s.lo..s.hi], Window(lo - s.lo, hi - s.lo))
  }

  /** The place of the units of a window in the units' joined text. */
  ghost function UnitsPlace(units: seq<string>, w: Window): Window
    requires w.lo < w.hi <= |units|
  {
    Window(Offset(units, w.lo), Offset(units, w.hi) - 1)
  }

  ghost predicate Covers(w: Window, v: Window) {
    w.lo <= v.lo && v.hi <= w.hi
  }

  /** One place covers another exactly when the units do. */
  lemma PlacesCover(units: seq<string>, w: Window, v: Window)
    requires w.lo < w.hi <= |units| && v.lo < v.hi <= |units|
    ensures Covers(UnitsPlace(units, w), UnitsPlace(units, v)) <==> Covers(w, v)
  {
    OffsetsOrder(units, w.lo, v.lo);
    OffsetsOrder(units, v.hi, w.hi);
  }

  /** The paragraph is the text at its place, up to surrounding space. */
  lemma {:induction false} ParagraphIsThere(lines: seq<string>, ls: Lines, s: Span, b: Block, lo: nat, hi: nat)
    requires IsSpan(ls, s) && IsBlockOf(lines, ls, s, b) && IsParagraph(ls, lo, hi) && s.lo <= lo && hi <= s.hi
    ensures var place := ParagraphPlace(lines, s, b, lo, hi);
            && place.lo <= place.hi <= |b.text|
            && ParagraphText(lines, lo, hi) == if s.kind == Prose then b.text else Strip(b.text[place.lo..place.hi])
  {
    if s.kind == Prose {
      ProseIsParagraph(ls, s, lo, hi);
    } else {
      CodeIsThere(lines, s, b, lo, hi);
    }
  }

  lemma {:induction false} CodeIsThere(lines: seq<string>, s: Span, b: Block, lo: nat, hi: nat)
    requires s.lo <= lo < hi <= s.hi <= |lines| && s.kind == Code && b.text == RawText(lines, s.lo, s.hi)
    ensures var place := ParagraphPlace(lines, s, b, lo, hi);
            && place.lo <= place.hi <= |b.text|
            && ParagraphText(lines, lo, hi) == Strip(b.text[place.lo..place.hi])
  {
    LinesAreThere(lines, s.lo, s.hi, lo, hi);
  }

  lemma {:induction false} LinesAreThere(lines: seq<string>, from: nat, to: nat, lo: nat, hi: nat)
    requires from <= lo < hi <= to <= |lines|
    ensures var place, text := UnitsPlace(lines[from..to], Window(lo - from, hi - from)), RawText(lines, from, to);
            place.lo <= place.hi <= |text| && text[place.lo..place.hi] == RawText(lines, lo, hi)
  {
    JoinedPlace("\n", lines[from..to], lo - from, hi - from);
    SliceOfSlice(lines, from, to, lo, hi);
  }

  /** Part `i` is the block's text at its place. */
  lemma {:induction false} PartIsThere(lines: seq<string>, ls: Lines, s: Span, b: Block, count: Counter, target: int, ws: seq<Window>,
                    part: seq<Block>, i: nat)
    requires AllBreakFree(lines) && s.lo < s.hi && IsBlockOf(lines, ls, s, b)
    requires IsExpansion(b, count, target, ws, part) && i < |part|
    ensures HasWindow(b, count, target, ws, i)
    ensures var place := PartPlace(b, count, target, ws, i);
            place.lo <= place.hi <= |b.text| && b.text[place.lo..place.hi] == part[i].text
  {
    if count(b.text) > target {
      var units, w := Units(b), ws[i];
      assert IsPiece(b, Glue(b), units, w, part[i]);
      JoinedPlace(Glue(b), units, w.lo, w.hi);
      JoinedLength(Glue(b), units, w.lo, w.hi);
      UnitsAreText(lines, ls, s, b);
    }
  }

  /** A block's units, joined, are where its text starts. */
  lemma {:induction false} UnitsAreText(lines: seq<string>, ls: Lines, s: Span, b: Block)
    requires AllBreakFree(lines) && s.lo < s.hi && IsBlockOf(lines, ls, s, b)
    ensures Join(Glue(b), Units(b)) <= b.text
  {
    if b.kind == Prose {
      JoinSplitOn(b.text, ' ');
    } else {
      var to := CodeUnits(lines, s.lo, s.hi);
      RawPrefix(lines, s.lo, to, s.hi);
    }
  }

  lemma {:induction false} RawPrefix(lines: seq<string>, lo: nat, mid: nat, hi: nat)
    requires lo <= mid <= hi <= |lines|
    ensures RawText(lines, lo, mid) <= RawText(lines, lo, hi)
  {
    if lo < mid < hi {
      var mine := lines[lo..hi];
      JoinSplitAt("\n", mine, mid - lo);
      assert mine[..mid - lo] == lines[lo..mid];
    }
  }

  // ---- paragraphs that lie in one piece ------------------------------------------------------

  /** Part `i` covers the paragraph's place. */
  ghost predicate PartHolds(lines: seq<string>, s: Span, b: Block, count: Counter, target: int, ws: seq<Window>,
                            part: seq<Block>, lo: nat, hi: nat, i: nat)
    requires s.lo <= lo < hi <= s.hi <= |lines|
  {
    && i < |part| && HasWindow(b, count, target, ws, i)
    && Covers(PartPlace(b, count, target, ws, i), ParagraphPlace(lines, s, b, lo, hi))
  }

  ghost predicate SomePartHolds(lines: seq<string>, s: Span, b: Block, count: Counter, target: int, ws: seq<Window>,
                                part: seq<Block>, lo: nat, hi: nat)
    requires s.lo <= lo < hi <= s.hi <= |lines|
  {
    exists i: nat :: PartHolds(lines, s, b, count, target, ws, part, lo, hi, i)
  }

  /** The units from `from` up to `to` fall into one of the greedy windows over the units' counts. */
  ghost predicate Together(b: Block, count: Counter, target: int, from: nat, to: nat) {
    exists ws, i: nat :: FallsIn(b, count, target, from, to, ws, i)
  }

  ghost predicate FallsIn(b: Block, count: Counter, target: int, from: nat, to: nat, ws: seq<Window>, i: nat) {
    && IsWindowing(UnitCounts(Units(b), count), target, 0, ws)
    && i < |ws| && Covers(ws[i], Window(from, to))
  }

  /** The block stays whole, or it is code and these lines of it stay together. */
  ghost predicate Undivided(b: Block, count: Counter, target: int, from: nat, to: nat) {
    StaysWhole(b, count, target) || (b.kind == Code && Together(b, count, target, from, to))
  }

  lemma {:induction false} UnitsAreLines(lines: seq<string>, lo: nat, hi: nat, n: nat)
    requires AllBreakFree(lines) && 0 < n <= hi - lo && hi <= |lines| && lines[lo + n - 1] != ""
    ensures var units := SplitLines(RawText(lines, lo, hi)); n <= |units| <= hi - lo && units == lines[lo..hi][..|units|]
  {
    var mine := lines[lo..hi];
    SliceBreakFree(lines, lo, hi);
    SplitJoined(mine);
    assert mine[n - 1] == lines[lo + n - 1];
    ResplitIsPrefix(mine, n);
  }

  /** The lines of a paragraph in a code block are units of the block. */
  lemma {:induction false} ParagraphUnits(lines: seq<string>, ls: Lines, s: Span, b: Block, lo: nat, hi: nat)
    requires AreKinds(lines, ls) && AllBreakFree(lines) && IsBlockOf(lines, ls, s, b) && b.kind == Code
    requires IsParagraph(ls, lo, hi) && s.lo <= lo && hi <= s.hi
    ensures hi - s.lo <= |Units(b)| <= s.hi - s.lo && Units(b) == lines[s.lo..s.hi][..|Units(b)|]
  {
    WordsNotEmpty(lines, ls, hi - 1);
    UnitsAreLines(lines, s.lo, s.hi, hi - s.lo);
  }

  lemma {:induction false} ResplitIsPrefix(mine: seq<string>, n: nat)
    requires 0 < n <= |mine| && mine[n - 1] != ""
    ensures n <= |Resplit(mine)| <= |mine| && Resplit(mine) == mine[..|Resplit(mine)|]
  {
  }

  lemma {:induction false} PieceOfWindow(b: Block, count: Counter, target: int, ws: seq<Window>, part: seq<Block>, i: nat)
    requires IsExpansion(b, count, target, ws, part) && i < |part|
    ensures HasWindow(b, count, target, ws, i)
    ensures count(b.text) > target ==>
      |ws| == |part| && part[i].text == Join(Glue(b), Units(b)[ws[i].lo..ws[i].hi])
  {
    if count(b.text) > target {
      assert IsPiece(b, Glue(b), Units(b), ws[i], part[i]);
    }
  }

  /** A run of lines of a code block, and its place in the block's text. */
  lemma {:induction false} LinesPlace(lines: seq<string>, lo: nat, hi: nat, units: seq<string>, w: Window)
    requires lo <= hi <= |lines| && |units| <= hi - lo && units == lines[lo..hi][..|units|] && w.lo < w.hi <= |units|
    ensures Join("\n", units[w.lo..w.hi]) == RawText(lines, lo + w.lo, lo + w.hi)
    ensures UnitsPlace(units, w) == UnitsPlace(lines[lo..hi], w)
  {
    var mine := lines[lo..hi];
    PrefixSlice(lines, lo, hi, |units|, w.lo, w.hi);
    OffsetOfPrefix(mine, |units|, w.lo);
    OffsetOfPrefix(mine, |units|, w.hi);
  }

  /** In a divided code block a part covers the paragraph exactly when its window has all the paragraph's lines. */
  lemma {:induction false} CodePartHolds(lines: seq<string>, s: Span, b: Block, count: Counter, target: int, ws: seq<Window>,
                                         part: seq<Block>, lo: nat, hi: nat, i: nat)
    requires s.lo <= lo < hi <= s.hi <= |lines| && s.kind == b.kind == Code && |Units(b)| <= s.hi - s.lo
    requires Units(b) == lines[s.lo..s.hi][..|Units(b)|]
    requires count(b.text) > target && i < |part| && HasWindow(b, count, target, ws, i)
    requires part[i].text == Join("\n", Units(b)[ws[i].lo..ws[i].hi])
    ensures PartHolds(lines, s, b, count, target, ws, part, lo, hi, i) <==> Covers(ws[i], Window(lo - s.lo, hi - s.lo))
    ensures part[i].text == RawText(lines, s.lo + ws[i].lo, s.lo + ws[i].hi)
  {
    LinesPlace(lines, s.lo, s.hi, Units(b), ws[i]);
    PlacesCover(lines[s.lo..s.hi], ws[i], Window(lo - s.lo, hi - s.lo));
  }

  lemma {:induction false} PrefixSlice(lines: seq<string>, from: nat, to: nat, n: nat, lo: nat, hi: nat)
    requires from <= to <= |lines| && lo <= hi <= n <= to - from
    ensures lines[from..to][..n][lo..hi] == lines[from + lo..from + hi]
  {
    var mine := lines[from..to];
    assert mine[..n] == mine[0..n];
    SliceOfSlice(mine, 0, n, lo, hi);
    SliceOfSlice(lines, from, to, from + lo, from + hi);
  }

  lemma {:induction false} OffsetsOrder(units: seq<string>, i: nat, j: nat)
    requires i <= |units| && j <= |units|
    ensures Offset(units, i) <= Offset(units, j) <==> i <= j
  {
    if i < j {
      OffsetsRise(units, i, j);
    } else if j < i {
      OffsetsRise(units, j, i);
    }
  }

  /** Lines that stay together are in one of the block's windows, which are the only ones there are. */
  lemma {:induction false} TogetherIn(b: Block, count: Counter, target: int, ws: seq<Window>, from: nat, to: nat) returns (i: nat)
    requires IsWindowing(UnitCounts(Units(b), count), target, 0, ws) && Together(b, count, target, from, to)
    ensures FallsIn(b, count, target, from, to, ws, i)
  {
    var ws', i': nat :| FallsIn(b, count, target, from, to, ws', i');
    WindowingUnique(UnitCounts(Units(b), count), target, 0, ws, ws');
    i := i';
  }

  lemma {:induction false} WholeIsTogether(b: Block, count: Counter, target: int, ws: seq<Window>, part: seq<Block>, from: nat, to: nat)
    requires IsExpansion(b, count, target, ws, part) && count(b.text) > target && b.text != "" && StaysWhole(b, count, target)
    requires from < to <= |Units(b)|
    ensures Together(b, count, target, from, to)
  {
    OnePartIff(b, count, target, ws, part);
    assert WindowAt(UnitCounts(Units(b), count), target, 0, ws, 0);
    assert FallsIn(b, count, target, from, to, ws, 0);
  }

  lemma {:induction false} HeldIsTogether(lines: seq<string>, s: Span, b: Block, count: Counter, target: int,
                                          ws: seq<Window>, part: seq<Block>, lo: nat, hi: nat, i: nat)
    requires s.lo <= lo < hi <= s.hi <= |lines| && s.kind == b.kind == Code && |Units(b)| <= s.hi - s.lo
    requires Units(b) == lines[s.lo..s.hi][..|Units(b)|]
    requires IsExpansion(b, count, target, ws, part) && count(b.text) > target
    requires PartHolds(lines, s, b, count, target, ws, part, lo, hi, i)
    ensures Together(b, count, target, lo - s.lo, hi - s.lo)
  {
    PieceOfWindow(b, count, target, ws, part, i);
    CodePartHolds(lines, s, b, count, target, ws, part, lo, hi, i);
    assert FallsIn(b, count, target, lo - s.lo, hi - s.lo, ws, i);
  }

  lemma {:induction false} TogetherIsHeld(lines: seq<string>, s: Span, b: Block, count: Counter, target: int,
                                          ws: seq<Window>, part: seq<Block>, lo: nat, hi: nat)
    requires s.lo <= lo < hi <= s.hi <= |lines| && s.kind == b.kind == Code && |Units(b)| <= s.hi - s.lo
    requires Units(b) == lines[s.lo..s.hi][..|Units(b)|]
    requires IsExpansion(b, count, target, ws, part) && count(b.text) > target
    requires Together(b, count, target, lo - s.lo, hi - s.lo)
    ensures SomePartHolds(lines, s, b, count, target, ws, part, lo, hi)
  {
    var i := TogetherIn(b, count, target, ws, lo - s.lo, hi - s.lo);
    PieceOfWindow(b, count, target, ws, part, i);
    CodePartHolds(lines, s, b, count, target, ws, part, lo, hi, i);
    assert PartHolds(lines, s, b, count, target, ws, part, lo, hi, i);
  }

  lemma {:induction false} CodeHoldsIff(lines: seq<string>, s: Span, b: Block, count: Counter, target: int,
                                        ws: seq<Window>, part: seq<Block>, lo: nat, hi: nat)
    requires s.lo <= lo < hi <= s.hi <= |lines| && s.kind == b.kind == Code && b.text != ""
    requires hi - s.lo <= |Units(b)| <= s.hi - s.lo && Units(b) == lines[s.lo..s.hi][..|Units(b)|]
    requires IsExpansion(b, count, target, ws, part) && count(b.text) > target
    ensures SomePartHolds(lines, s, b, count, target, ws, part, lo, hi) <==> Undivided(b, count, target, lo - s.lo, hi - s.lo)
  {
    if i: nat :| PartHolds(lines, s, b, count, target, ws, part, lo, hi, i) {
      HeldIsTogether(lines, s, b, count, target, ws, part, lo, hi, i);
    } else if StaysWhole(b, count, target) {
      WholeIsTogether(b, count, target, ws, part, lo - s.lo, hi - s.lo);
      TogetherIsHeld(lines, s, b, count, target, ws, part, lo, hi);
    } else if Together(b, count, target, lo - s.lo, hi - s.lo) {
      TogetherIsHeld(lines, s, b, count, target, ws, part, lo, hi);
    }
  }

  lemma {:induction false} ProsePlace(b: Block)
    requires b.kind == Prose && b.text != ""
    ensures Units(b) != [] && UnitsPlace(Units(b), Window(0, |Units(b)|)) == Window(0, |b.text|)
  {
    var units := Units(b);
    UnitsOfText(b);
    JoinSplitOn(b.text, ' ');
    assert units[0..|units|] == units;
    JoinedLength(" ", units, 0, |units|);
  }

  lemma {:induction false} OnlyWindow(cs: seq<nat>, target: int, ws: seq<Window>)
    requires IsWindowing(cs, target, 0, ws) && |ws| == 1
    ensures ws[0] == Window(0, |cs|)
  {
    assert WindowAt(cs, target, 0, ws, 0);
  }

  lemma {:induction false} ShorterIsLess(units: seq<string>, text: string, w: Window, piece: string)
    requires w.lo < w.hi <= |units| && Join(" ", units) == text
    requires piece == Join(" ", units[w.lo..w.hi]) && |piece| < |text|
    ensures !Covers(w, Window(0, |units|))
  {
    assert units[0..|units|] == units;
  }

  /** A part of a divided prose block covers the paragraph, which is the whole block, only if it is the only part. */
  lemma {:induction false} ProsePartHolds(b: Block, count: Counter, target: int, ws: seq<Window>, part: seq<Block>, i: nat)
    requires b.kind == Prose && b.text != "" && IsExpansion(b, count, target, ws, part) && i < |part|
    requires HasWindow(b, count, target, ws, i) && count(b.text) > target
    ensures Covers(PartPlace(b, count, target, ws, i), Window(0, |b.text|)) <==> |part| == 1
  {
    var units := Units(b);
    ProsePlace(b);
    PlacesCover(units, ws[i], Window(0, |units|));
    PieceOfWindow(b, count, target, ws, part, i);
    if |part| == 1 {
      OnlyWindow(UnitCounts(units, count), target, ws);
    } else {
      PieceShorter(b, count, target, ws, part, i);
      JoinSplitOn(b.text, ' ');
      ShorterIsLess(units, b.text, ws[i], part[i].text);
    }
  }

  lemma {:induction false} ProseHoldsIff(lines: seq<string>, s: Span, b: Block, count: Counter, target: int, ws: seq<Window>,
                                         part: seq<Block>, lo: nat, hi: nat)
    requires s.lo <= lo < hi <= s.hi <= |lines| && s.kind == b.kind == Prose && b.text != ""
    requires IsExpansion(b, count, target, ws, part) && count(b.text) > target
    ensures SomePartHolds(lines, s, b, count, target, ws, part, lo, hi) <==> StaysWhole(b, count, target)
  {
    OnePartIff(b, count, target, ws, part);
    if i: nat :| PartHolds(lines, s, b, count, target, ws, part, lo, hi, i) {
      ProsePartHolds(b, count, target, ws, part, i);
    }
    if |part| == 1 {
      PieceOfWindow(b, count, target, ws, part, 0);
      ProsePartHolds(b, count, target, ws, part, 0);
      assert PartHolds(lines, s, b, count, target, ws, part, lo, hi, 0);
    }
  }

  /** Some part of the block covers the paragraph exactly when the block stays whole, or the paragraph's lines stay together. */
  lemma {:induction false} HoldsIff(lines: seq<string>, ls: Lines, s: Span, b: Block, count: Counter, target: int, ws: seq<Window>,
                 part: seq<Block>, lo: nat, hi: nat)
    requires AreKinds(lines, ls) && AllBreakFree(lines) && IsSpan(ls, s) && IsBlockOf(lines, ls, s, b) && b.text != ""
    requires IsParagraph(ls, lo, hi) && s.lo <= lo && hi <= s.hi && IsExpansion(b, count, target, ws, part)
    ensures SomePartHolds(lines, s, b, count, target, ws, part, lo, hi)
            <==> Undivided(b, count, target, lo - s.lo, hi - s.lo)
  {
    if count(b.text) <= target {
      ParagraphIsThere(lines, ls, s, b, lo, hi);
      assert PartHolds(lines, s, b, count, target, ws, part, lo, hi, 0);
    } else if s.kind == Code {
      ParagraphUnits(lines, ls, s, b, lo, hi);
      CodeHoldsIff(lines, s, b, count, target, ws, part, lo, hi);
    } else {
      ProseHoldsIff(lines, s, b, count, target, ws, part, lo, hi);
    }
  }

  lemma {:induction false} CodeHeldIsContained(lines: seq<string>, s: Span, b: Block, count: Counter, target: int,
                                               ws: seq<Window>, part: seq<Block>, lo: nat, hi: nat, i: nat)
    requires s.lo <= lo < hi <= s.hi <= |lines| && s.kind == b.kind == Code && |Units(b)| <= s.hi - s.lo
    requires Units(b) == lines[s.lo..s.hi][..|Units(b)|] && !IsBlank(lines[lo])
    requires count(b.text) > target && PartHolds(lines, s, b, count, target, ws, part, lo, hi, i)
    requires part[i].text == Join("\n", Units(b)[ws[i].lo..ws[i].hi])
    ensures Contains(part[i].text, ParagraphText(lines, lo, hi))
  {
    CodePartHolds(lines, s, b, count, target, ws, part, lo, hi, i);
    ParagraphInLines(lines, s.lo + ws[i].lo, s.lo + ws[i].hi, lo, hi);
  }

  /** A part that covers the paragraph contains its text. */
  lemma {:induction false} HeldIsContained(lines: seq<string>, ls: Lines, s: Span, b: Block, count: Counter, target: int,
                                           ws: seq<Window>, part: seq<Block>, lo: nat, hi: nat, i: nat)
    requires AreKinds(lines, ls) && AllBreakFree(lines) && IsSpan(ls, s) && IsBlockOf(lines, ls, s, b) && b.text != ""
    requires IsParagraph(ls, lo, hi) && s.lo <= lo && hi <= s.hi && IsExpansion(b, count, target, ws, part)
    requires PartHolds(lines, s, b, count, target, ws, part, lo, hi, i)
    ensures Contains(part[i].text, ParagraphText(lines, lo, hi))
  {
    PieceOfWindow(b, count, target, ws, part, i);
    WordsAreSolid(lines, ls, lo);
    if s.kind == Prose {
      ProseIsParagraph(ls, s, lo, hi);
      if count(b.text) > target {
        ProsePartHolds(b, count, target, ws, part, i);
      }
      OnePartText(b, count, target, ws, part);
      ContainsSelf(b.text);
    } else if count(b.text) <= target {
      PartSurvives(lines, s, lo, hi);
    } else {
      ParagraphUnits(lines, ls, s, b, lo, hi);
      CodeHeldIsContained(lines, s, b, count, target, ws, part, lo, hi, i);
    }
  }
}

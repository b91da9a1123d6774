/**
 * Which stretches of a document's lines become blocks, told from the kinds of the lines alone.
 *
 * `IsSpanning` says it without following a scanner: the lines that are kept are covered by
 * maximal stretches, and everything else is dropped. `ScanInv` is what a scanner that reads
 * the lines in order knows on the way, and the lemmas beside it are its steps.
 */
module Layout {
  import opened Options

  datatype LineKind = FenceLine | HeadingLine | BlankLine | PlainLine

  datatype Kind = Prose | Code

  datatype Span = Span(kind: Kind, lo: nat, hi: nat)

  type Lines = seq<LineKind>

  /** Line `i` comes after an opening fence that has not been closed yet. */
  ghost predicate InCode(ls: Lines, i: nat)
    requires i <= |ls|
  {
    i > 0 && (InCode(ls, i - 1) <==> ls[i - 1] != FenceLine)
  }

  ghost predicate IsProse(ls: Lines, i: nat)
    requires i < |ls|
  {
    !InCode(ls, i) && ls[i] == PlainLine
  }

  ghost predicate Kept(ls: Lines, i: nat)
    requires i < |ls|
  {
    InCode(ls, i) || ls[i] == FenceLine || IsProse(ls, i)
  }

  /** Lines `i` and `i + 1` belong to the same block. */
  ghost predicate Joined(ls: Lines, i: nat)
    requires i + 1 < |ls|
  {
    InCode(ls, i + 1) || (IsProse(ls, i) && IsProse(ls, i + 1))
  }

  /** The last heading line outside any fence before line `i`. */
  ghost function HeadingAt(ls: Lines, i: nat): (h: Option<nat>)
    requires i <= |ls|
    ensures h.Some? ==> h.value < i
  {
    if i == 0 then None
    else if !InCode(ls, i - 1) && ls[i - 1] == HeadingLine then Some(i - 1)
    else HeadingAt(ls, i - 1)
  }

  ghost predicate IsSpan(ls: Lines, s: Span) {
    && s.lo < s.hi <= |ls|
    && (forall i | s.lo <= i < s.hi :: Kept(ls, i))
    && (forall i | s.lo <= i < s.hi - 1 :: Joined(ls, i))
    && (s.lo > 0 ==> !Joined(ls, s.lo - 1))
    && (s.hi < |ls| ==> !Joined(ls, s.hi - 1))
    && (s.kind == Code <==> ls[s.lo] == FenceLine)
  }

  ghost predicate Within(s: Span, i: nat) {
    s.lo <= i < s.hi
  }

  ghost predicate Covered(spans: seq<Span>, i: nat) {
    exists k | 0 <= k < |spans| :: Within(spans[k], i)
  }

  ghost predicate Ordered(spans: seq<Span>) {
    forall j, k | 0 <= j < k < |spans| :: spans[j].hi <= spans[k].lo
  }

  /** `spans` are exactly the stretches of lines that become blocks, in order. */
  ghost predicate IsSpanning(ls: Lines, spans: seq<Span>) {
    && Ordered(spans)
    && (forall k | 0 <= k < |spans| :: IsSpan(ls, spans[k]))
    && (forall i | 0 <= i < |ls| :: Kept(ls, i) ==> Covered(spans, i))
  }

  // ---- reading the lines in order ----------------------------------------------------

  /** `spans` are the blocks closed before line `start`, and the lines from there up to `i` are being collected. */
  ghost predicate ScanInv(ls: Lines, i: nat, start: nat, spans: seq<Span>) {
    && start <= i <= |ls|
    && Ordered(spans)
    && (forall k | 0 <= k < |spans| :: IsSpan(ls, spans[k]) && spans[k].hi <= start)
    && (forall j | 0 <= j < start :: Kept(ls, j) ==> Covered(spans, j))
    && (0 < start < |ls| ==> !Joined(ls, start - 1))
    && (forall j | start <= j < i :: Kept(ls, j))
    && (forall j | start <= j < i - 1 :: Joined(ls, j))
    && (if InCode(ls, i) then start < i && ls[start] == FenceLine else forall j | start <= j < i :: IsProse(ls, j))
    && HeadingAt(ls, i) == HeadingAt(ls, start)
  }

  ghost predicate Ends(ls: Lines, i: nat)
    requires i <= |ls|
  {
    i < |ls| ==> !InCode(ls, i) && ls[i] != PlainLine
  }

  lemma CoverMore(spans: seq<Span>, s: Span)
    ensures forall j :: Covered(spans, j) || Within(s, j) ==> Covered(spans + [s], j)
  {
    var longer := spans + [s];
    forall j: nat | Covered(spans, j) || Within(s, j)
      ensures Covered(longer, j)
    {
      if Covered(spans, j) {
        var k :| 0 <= k < |spans| && Within(spans[k], j);
        assert Within(longer[k], j);
      } else {
        assert Within(longer[|spans|], j);
      }
    }
  }

  /** A paragraph ends before line `i`. */
  lemma CloseProse(ls: Lines, i: nat, start: nat, spans: seq<Span>)
    requires ScanInv(ls, i, start, spans) && start < i && !InCode(ls, i) && Ends(ls, i)
    ensures ScanInv(ls, i, i, spans + [Span(Prose, start, i)])
    ensures IsSpan(ls, Span(Prose, start, i))
  {
    var s := Span(Prose, start, i);
    assert IsProse(ls, start);
    CoverMore(spans, s);
    assert i < |ls| ==> !Joined(ls, i - 1);
  }

  /** A fence is closed by line `i - 1`, or by the end of the document. */
  lemma CloseCode(ls: Lines, i: nat, start: nat, spans: seq<Span>)
    requires i > 0 && ScanInv(ls, i - 1, start, spans) && InCode(ls, i - 1)
    requires i <= |ls| && ls[i - 1] == FenceLine
    ensures ScanInv(ls, i, i, spans + [Span(Code, start, i)])
    ensures IsSpan(ls, Span(Code, start, i))
  {
    ClosedIsSpan(ls, i, start, spans);
    CoverMore(spans, Span(Code, start, i));
    assert HeadingAt(ls, i) == HeadingAt(ls, i - 1);
  }

  lemma ClosedIsSpan(ls: Lines, i: nat, start: nat, spans: seq<Span>)
    requires i > 0 && ScanInv(ls, i - 1, start, spans) && InCode(ls, i - 1)
    requires i <= |ls| && ls[i - 1] == FenceLine
    ensures IsSpan(ls, Span(Code, start, i)) && !InCode(ls, i) && (i < |ls| ==> !Joined(ls, i - 1))
  {
    assert Kept(ls, i - 1);
    assert i - 1 > start ==> Joined(ls, i - 2);
  }

  lemma CloseOpenFence(ls: Lines, start: nat, spans: seq<Span>)
    requires ScanInv(ls, |ls|, start, spans) && InCode(ls, |ls|)
    ensures IsSpanning(ls, spans + [Span(Code, start, |ls|)])
    ensures IsSpan(ls, Span(Code, start, |ls|))
  {
    CoverMore(spans, Span(Code, start, |ls|));
  }

  // ---- what a spanning means -----------------------------------------------------------

  /** Two blocks that share a line are the same block. */
  lemma SpanMeet(ls: Lines, s: Span, t: Span, i: nat)
    requires IsSpan(ls, s) && IsSpan(ls, t) && Within(s, i) && Within(t, i)
    ensures s == t
  {
  }

  /** Every span of one spanning is a span of the other. */
  lemma SpanShared(ls: Lines, a: seq<Span>, b: seq<Span>, k: nat) returns (m: nat)
    requires IsSpanning(ls, a) && IsSpanning(ls, b) && k < |a|
    ensures m < |b| && b[m] == a[k]
  {
    var i := a[k].lo;
    assert IsSpan(ls, a[k]) && Kept(ls, i);
    m :| 0 <= m < |b| && Within(b[m], i);
    SpanMeet(ls, a[k], b[m], i);
  }

  ghost predicate Solid(spans: seq<Span>) {
    forall k | 0 <= k < |spans| :: spans[k].lo < spans[k].hi
  }

  /** Two ordered lists with the same spans in them are the same list. */
  lemma {:induction false} SameSpansSameList(a: seq<Span>, b: seq<Span>)
    requires Ordered(a) && Ordered(b) && Solid(a) && Solid(b)
    requires (forall s | s in a :: s in b) && forall s | s in b :: s in a
    ensures a == b
  {
    assert a != [] ==> a[0] in a;
    assert b != [] ==> b[0] in b;
    if a != [] && b != [] {
      assert a[0] in b && b[0] in a;
      assert a[0] == b[0];
      var a', b' := a[1..], b[1..];
      forall s | s in a'
        ensures s in b'
      {
        assert s in a && s in b && s != a[0];
      }
      forall s | s in b'
        ensures s in a'
      {
        assert s in b && s in a && s != b[0];
      }
      SameSpansSameList(a', b');
    }
  }

  /** The stretches are determined by the lines: there is one way to cut a document into blocks. */
  lemma SpanningUnique(ls: Lines, a: seq<Span>, b: seq<Span>)
    requires IsSpanning(ls, a) && IsSpanning(ls, b)
    ensures a == b
  {
    forall s | s in a
      ensures s in b
    {
      var k :| 0 <= k < |a| && a[k] == s;
      var m := SpanShared(ls, a, b, k);
    }
    forall s | s in b
      ensures s in a
    {
      var k :| 0 <= k < |b| && b[k] == s;
      var m := SpanShared(ls, b, a, k);
    }
    assert forall k | 0 <= k < |a| :: IsSpan(ls, a[k]);
    assert forall k | 0 <= k < |b| :: IsSpan(ls, b[k]);
    SameSpansSameList(a, b);
  }

  ghost function FencesBefore(ls: Lines, i: nat): nat
    requires i <= |ls|
  {
    if i == 0 then 0 else FencesBefore(ls, i - 1) + if ls[i - 1] == FenceLine then 1 else 0
  }

  /** A line is inside a fence exactly when an odd number of fence lines come before it. */
  lemma {:induction false} InCodeIsParity(ls: Lines, i: nat)
    requires i <= |ls|
    ensures InCode(ls, i) <==> FencesBefore(ls, i) % 2 == 1
  {
    if i > 0 {
      InCodeIsParity(ls, i - 1);
    }
  }

  /** Nothing is lost and nothing is in two blocks: a line is in one block if it is kept, and in none otherwise. */
  lemma LineInOneBlock(ls: Lines, spans: seq<Span>, i: nat)
    requires IsSpanning(ls, spans) && i < |ls|
    ensures Kept(ls, i) <==> Covered(spans, i)
    ensures forall j, k | 0 <= j < |spans| && 0 <= k < |spans| && Within(spans[j], i) && Within(spans[k], i) :: j == k
  {
  }

  lemma StartOutside(ls: Lines, s: Span)
    requires IsSpan(ls, s)
    ensures !InCode(ls, s.lo)
  {
  }

  /** Inside a prose span every line is prose. */
  lemma {:induction false} ProseSpan(ls: Lines, s: Span, i: nat)
    requires IsSpan(ls, s) && s.kind == Prose && Within(s, i)
    ensures IsProse(ls, i)
  {
    assert Kept(ls, i);
    if i > s.lo {
      ProseSpan(ls, s, i - 1);
      assert Joined(ls, i - 1);
    } else {
      StartOutside(ls, s);
    }
  }

  lemma {:induction false} CodeSpanInside(ls: Lines, s: Span, i: nat)
    requires IsSpan(ls, s) && s.kind == Code && s.lo < i < s.hi
    ensures InCode(ls, i)
  {
    assert Joined(ls, i - 1);
    if i - 1 > s.lo {
      CodeSpanInside(ls, s, i - 1);
    } else {
      StartOutside(ls, s);
    }
  }

  /** A code span opens with a fence outside any fence; its other lines are inside it, and only the last can close it. */
  lemma CodeSpan(ls: Lines, s: Span, i: nat)
    requires IsSpan(ls, s) && s.kind == Code && Within(s, i)
    ensures InCode(ls, i) <==> i != s.lo
    ensures i != s.lo && ls[i] == FenceLine ==> i == s.hi - 1
  {
    if i == s.lo {
      StartOutside(ls, s);
    } else {
      CodeSpanInside(ls, s, i);
      if i < s.hi - 1 {
        CodeSpanInside(ls, s, i + 1);
      }
    }
  }

  /** A code span that its last line does not close runs to the end of the document. */
  lemma UnterminatedAtEnd(ls: Lines, s: Span)
    requires IsSpan(ls, s) && s.kind == Code && (s.hi == s.lo + 1 || ls[s.hi - 1] != FenceLine)
    ensures s.hi == |ls| && InCode(ls, |ls|)
  {
    CodeSpan(ls, s, s.hi - 1);
    assert InCode(ls, s.hi);
    assert s.hi < |ls| ==> Joined(ls, s.hi - 1);
  }

  /** The lines `lo..hi` are plain and outside any fence, between lines that are neither plain nor in a fence. */
  lemma {:induction false} PlainRunIsSpan(ls: Lines, lo: nat, hi: nat)
    requires lo < hi <= |ls| && !InCode(ls, lo)
    requires forall i | lo <= i < hi :: ls[i] == PlainLine
    requires lo > 0 ==> ls[lo - 1] != PlainLine
    requires hi < |ls| ==> ls[hi] != PlainLine
    ensures IsSpan(ls, Span(Prose, lo, hi))
  {
    forall i | lo <= i < hi
      ensures IsProse(ls, i) && Kept(ls, i) && !InCode(ls, i + 1)
    {
      PlainRunOutside(ls, lo, hi, i);
    }
    assert IsProse(ls, hi - 1) && !InCode(ls, hi - 1 + 1);
  }

  lemma {:induction false} PlainRunOutside(ls: Lines, lo: nat, hi: nat, i: nat)
    requires lo <= i < hi <= |ls| && !InCode(ls, lo) && forall j | lo <= j < hi :: ls[j] == PlainLine
    ensures !InCode(ls, i) && !InCode(ls, i + 1)
  {
    if lo < i {
      PlainRunOutside(ls, lo, hi, i - 1);
    }
  }

  /** Without fences no line is inside one. */
  lemma {:induction false} FenceFreeIsOutside(ls: Lines, i: nat)
    requires i <= |ls| && forall j | 0 <= j < |ls| :: ls[j] != FenceLine
    ensures !InCode(ls, i)
  {
    if i > 0 {
      FenceFreeIsOutside(ls, i - 1);
    }
  }

  /** The heading in force is the last heading line outside any fence. */
  lemma {:induction false} HeadingAtIff(ls: Lines, i: nat)
    requires i <= |ls|
    ensures HeadingAt(ls, i).None? <==> forall j | 0 <= j < i :: InCode(ls, j) || ls[j] != HeadingLine
    ensures HeadingAt(ls, i).Some? ==>
      var h := HeadingAt(ls, i).value;
      && !InCode(ls, h) && ls[h] == HeadingLine
      && forall j | h < j < i :: InCode(ls, j) || ls[j] != HeadingLine
  {
    if i > 0 {
      HeadingAtIff(ls, i - 1);
    }
  }
}

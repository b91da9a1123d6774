/**
 * Greedy windows over a list of token counts, the shape shared by the chunker's outer loop
 * and by the splitter for oversized blocks (which is the case of no overlap).
 */
module Windows {

  datatype Window = Window(lo: nat, hi: nat)

  /** `sum(cs[lo:hi])` */
  ghost function Sum(cs: seq<nat>, lo: nat, hi: nat): nat
    requires lo <= hi <= |cs|
  {
    if lo == hi then 0 else Sum(cs, lo, hi - 1) + cs[hi - 1]
  }

  lemma {:induction false} SumSplit(cs: seq<nat>, lo: nat, mid: nat, hi: nat)
    requires lo <= mid <= hi <= |cs|
    ensures Sum(cs, lo, hi) == Sum(cs, lo, mid) + Sum(cs, mid, hi)
  {
    if mid < hi {
      SumSplit(cs, lo, mid, hi - 1);
    }
  }

  /** A slice inside a slice sums to no more. */
  lemma SumWithin(cs: seq<nat>, lo: nat, lo': nat, hi': nat, hi: nat)
    requires lo <= lo' <= hi' <= hi <= |cs|
    ensures Sum(cs, lo', hi') <= Sum(cs, lo, hi)
  {
    SumSplit(cs, lo, lo', hi);
    SumSplit(cs, lo', hi', hi);
  }

  /** The sum over a slice depends on the slice only. */
  lemma {:induction false} SumOfSlice(cs: seq<nat>, ds: seq<nat>, off: nat, lo: nat, hi: nat)
    requires lo <= hi <= |ds| && off + |ds| <= |cs| && forall j | 0 <= j < |ds| :: ds[j] == cs[off + j]
    ensures Sum(ds, lo, hi) == Sum(cs, off + lo, off + hi)
  {
    if lo < hi {
      SumOfSlice(cs, ds, off, lo, hi - 1);
    }
  }

  // ---- the overlap ---------------------------------------------------------

  /** From `t` on is the shortest end of `cs[lo:hi]` whose counts reach `overlap`, or all of it if none does. */
  ghost predicate IsShortestTail(cs: seq<nat>, lo: nat, hi: nat, overlap: int, t: nat) {
    && lo <= t <= hi <= |cs|
    && (t == lo || Sum(cs, t, hi) >= overlap)
    && forall j | t < j <= hi :: Sum(cs, j, hi) < overlap
  }

  lemma ShortestTailUnique(cs: seq<nat>, lo: nat, hi: nat, overlap: int, t: nat, u: nat)
    requires IsShortestTail(cs, lo, hi, overlap, t) && IsShortestTail(cs, lo, hi, overlap, u)
    ensures t == u
  {
  }

  lemma TailCount(cs: seq<nat>, lo: nat, hi: nat, overlap: int, t: nat, m: nat)
    requires IsShortestTail(cs, lo, hi, overlap, t) && forall j | 0 <= j < |cs| :: cs[j] <= m
    ensures Sum(cs, t, hi) <= if overlap <= 0 then 0 else overlap - 1 + m
  {
    if t < hi {
      assert Sum(cs, t + 1, hi) < overlap;
      SumSplit(cs, t, t + 1, hi);
    }
  }

  // ---- windows -------------------------------------------------------------

  /** Where window `k` starts to take blocks no earlier window holds. */
  ghost function Fresh(ws: seq<Window>, k: nat): nat
    requires k <= |ws|
  {
    if k == 0 then 0 else ws[k - 1].hi
  }

  /**
   * Window `k` starts with the overlap of the window before it, which had no room for the
   * next block; it takes that block whatever its size, and further blocks while they fit.
   */
  ghost predicate WindowAt(cs: seq<nat>, target: int, overlap: int, ws: seq<Window>, k: nat)
    requires k < |ws|
  {
    var w := ws[k];
    && w.lo <= Fresh(ws, k) < w.hi <= |cs|
    && (w.hi > Fresh(ws, k) + 1 ==> Sum(cs, w.lo, w.hi) <= target)
    && if k == 0 then w.lo == 0 else
      var p := ws[k - 1];
      && p.lo <= p.hi < |cs|
      && Sum(cs, p.lo, p.hi + 1) > target
      && IsShortestTail(cs, p.lo, p.hi, overlap, w.lo)
  }

  /** `ws` are the windows over the first `n` counts. */
  ghost predicate Windowed(cs: seq<nat>, n: nat, target: int, overlap: int, ws: seq<Window>) {
    && n <= |cs|
    && (n == 0 <==> ws == [])
    && (ws != [] ==> ws[|ws| - 1].hi == n)
    && (forall k | 0 <= k < |ws| :: ws[k].lo < ws[k].hi <= n)
    && forall k | 0 <= k < |ws| :: WindowAt(cs, target, overlap, ws, k)
  }

  ghost predicate IsWindowing(cs: seq<nat>, target: int, overlap: int, ws: seq<Window>) {
    Windowed(cs, |cs|, target, overlap, ws)
  }

  lemma SameWindow(cs: seq<nat>, target: int, overlap: int, ws: seq<Window>, ws': seq<Window>, k: nat)
    requires k < |ws| && k < |ws'| && WindowAt(cs, target, overlap, ws, k)
    requires ws'[k] == ws[k] && (k > 0 ==> ws'[k - 1] == ws[k - 1])
    ensures WindowAt(cs, target, overlap, ws', k)
  {
  }

  lemma WindowGrown(cs: seq<nat>, target: int, overlap: int, ws: seq<Window>, ws': seq<Window>, k: nat)
    requires k < |ws| && k < |ws'| && WindowAt(cs, target, overlap, ws, k) && ws[k].hi < |cs|
    requires ws'[k] == Window(ws[k].lo, ws[k].hi + 1) && (k > 0 ==> ws'[k - 1] == ws[k - 1])
    requires Sum(cs, ws[k].lo, ws[k].hi + 1) <= target
    ensures WindowAt(cs, target, overlap, ws', k)
  {
  }

  /** The next count fits: the open window grows. */
  lemma Grow(cs: seq<nat>, n: nat, target: int, overlap: int, ws: seq<Window>) returns (ws': seq<Window>)
    requires Windowed(cs, n, target, overlap, ws) && n < |cs| && ws != []
    requires Sum(cs, ws[|ws| - 1].lo, n) + cs[n] <= target
    ensures ws' == ws[|ws| - 1 := Window(ws[|ws| - 1].lo, n + 1)]
    ensures Windowed(cs, n + 1, target, overlap, ws')
  {
    var last := |ws| - 1;
    ws' := ws[last := Window(ws[last].lo, n + 1)];
    forall k | 0 <= k < |ws'|
      ensures WindowAt(cs, target, overlap, ws', k)
    {
      assert WindowAt(cs, target, overlap, ws, k);
      if k < last {
        SameWindow(cs, target, overlap, ws, ws', k);
      } else {
        WindowGrown(cs, target, overlap, ws, ws', k);
      }
    }
  }

  /** The next count does not fit: the open window is closed and the next one starts with its overlap. */
  lemma Slide(cs: seq<nat>, n: nat, target: int, overlap: int, ws: seq<Window>, t: nat) returns (ws': seq<Window>)
    requires Windowed(cs, n, target, overlap, ws) && n < |cs| && ws != []
    requires Sum(cs, ws[|ws| - 1].lo, n) + cs[n] > target
    requires IsShortestTail(cs, ws[|ws| - 1].lo, n, overlap, t)
    ensures ws' == ws + [Window(t, n + 1)]
    ensures Windowed(cs, n + 1, target, overlap, ws')
  {
    var last := |ws| - 1;
    ws' := ws + [Window(t, n + 1)];
    assert WindowAt(cs, target, overlap, ws, last);
    forall k | 0 <= k < |ws'|
      ensures WindowAt(cs, target, overlap, ws', k)
    {
      if k <= last {
        assert WindowAt(cs, target, overlap, ws, k);
        SameWindow(cs, target, overlap, ws, ws', k);
      }
    }
  }

  // ---- properties ----------------------------------------------------------

  /** Windows are slices that move forward: neither end goes back, none skips a count, each takes a new one. */
  lemma WindowsSlide(cs: seq<nat>, target: int, overlap: int, ws: seq<Window>, k: nat)
    requires IsWindowing(cs, target, overlap, ws) && k + 1 < |ws|
    ensures ws[0].lo == 0 && ws[|ws| - 1].hi == |cs|
    ensures ws[k].lo <= ws[k + 1].lo <= ws[k].hi < ws[k + 1].hi <= |cs|
  {
    assert WindowAt(cs, target, overlap, ws, 0);
    assert WindowAt(cs, target, overlap, ws, k + 1);
  }

  lemma {:induction false} HighEndsRise(cs: seq<nat>, n: nat, target: int, overlap: int, ws: seq<Window>, j: nat, k: nat)
    requires Windowed(cs, n, target, overlap, ws) && j < k < |ws|
    ensures ws[j].hi <= Fresh(ws, k) < ws[k].hi
  {
    assert WindowAt(cs, target, overlap, ws, k);
    if j < k - 1 {
      HighEndsRise(cs, n, target, overlap, ws, j, k - 1);
    }
  }

  lemma {:induction false} SearchWindow(cs: seq<nat>, n: nat, target: int, overlap: int, ws: seq<Window>, i: nat, k: nat)
    returns (m: nat)
    requires Windowed(cs, n, target, overlap, ws) && k < |ws| && i < ws[k].hi
    ensures m < |ws| && ws[m].lo <= Fresh(ws, m) <= i < ws[m].hi
  {
    assert WindowAt(cs, target, overlap, ws, k);
    if Fresh(ws, k) <= i {
      m := k;
    } else {
      m := SearchWindow(cs, n, target, overlap, ws, i, k - 1);
    }
  }

  /** Every count is new in exactly one window. */
  lemma FindWindow(cs: seq<nat>, target: int, overlap: int, ws: seq<Window>, i: nat) returns (k: nat)
    requires IsWindowing(cs, target, overlap, ws) && i < |cs|
    ensures k < |ws| && ws[k].lo <= Fresh(ws, k) <= i < ws[k].hi
    ensures forall j | 0 <= j < |ws| && Fresh(ws, j) <= i < ws[j].hi :: j == k
  {
    k := SearchWindow(cs, |cs|, target, overlap, ws, i, |ws| - 1);
    forall j | 0 <= j < |ws| && Fresh(ws, j) <= i < ws[j].hi
      ensures j == k
    {
      if j < k {
        HighEndsRise(cs, |cs|, target, overlap, ws, j, k);
      } else if k < j {
        HighEndsRise(cs, |cs|, target, overlap, ws, k, j);
      }
    }
  }

  /** The largest summed count over the target, for blocks of at most `m`: the overlap, and the block that did not fit. */
  function WorstCount(overlap: int, m: nat): nat {
    if overlap <= 0 then m else overlap - 1 + 2 * m
  }

  ghost predicate AllPositive(cs: seq<nat>) {
    forall j | 0 <= j < |cs| :: cs[j] > 0
  }

  ghost predicate AtMost(cs: seq<nat>, m: nat) {
    forall j | 0 <= j < |cs| :: cs[j] <= m
  }

  /**
   * How large a window's summed count gets. It can exceed the target, because the overlap and
   * the block that did not fit before are taken without a check.
   */
  lemma WindowBound(cs: seq<nat>, target: int, overlap: int, ws: seq<Window>, k: nat, m: nat)
    requires IsWindowing(cs, target, overlap, ws) && k < |ws| && AtMost(cs, m)
    ensures Sum(cs, ws[k].lo, ws[k].hi) <= target || Sum(cs, ws[k].lo, ws[k].hi) <= WorstCount(overlap, m)
  {
    assert WindowAt(cs, target, overlap, ws, k);
    var w := ws[k];
    var f := Fresh(ws, k);
    if w.hi == f + 1 {
      if k > 0 {
        var p := ws[k - 1];
        TailCount(cs, p.lo, p.hi, overlap, w.lo, m);
      }
    }
  }

  /** A large block, `overlap - 1` blocks of one token, and a large block. */
  ghost function Worst(overlap: int, m: nat): (cs: seq<nat>)
    ensures overlap <= 0 ==> cs == [m]
    ensures overlap > 0 ==> |cs| == overlap + 1 && cs[0] == cs[overlap] == m && forall j | 0 < j < overlap :: cs[j] == 1
  {
    if overlap <= 0 then [m] else [m] + seq(overlap - 1, _ => 1) + [m]
  }

  lemma {:induction false} OnesSum(overlap: int, m: nat, lo: nat, hi: nat)
    requires 0 < lo <= hi <= overlap
    ensures Sum(Worst(overlap, m), lo, hi) == hi - lo
  {
    if lo < hi {
      OnesSum(overlap, m, lo, hi - 1);
    }
  }

  /** Its small blocks never fill the overlap, so every window over it reaches back to the start. */
  lemma {:induction false} WorstWindows(target: int, overlap: int, m: nat, n: nat) returns (ws: seq<Window>)
    requires 0 < n <= |Worst(overlap, m)|
    ensures ws != [] && ws[|ws| - 1].lo == 0 && Windowed(Worst(overlap, m), n, target, overlap, ws)
  {
    var cs := Worst(overlap, m);
    if n == 1 {
      ws := [Window(0, 1)];
      assert WindowAt(cs, target, overlap, ws, 0);
    } else {
      var i := n - 1;
      ws := WorstWindows(target, overlap, m, i);
      if Sum(cs, 0, i) + cs[i] <= target {
        ws := Grow(cs, i, target, overlap, ws);
      } else {
        forall j | 0 < j <= i
          ensures Sum(cs, j, i) < overlap
        {
          OnesSum(overlap, m, j, i);
        }
        ws := Slide(cs, i, target, overlap, ws, 0);
      }
    }
  }

  lemma WorstSum(overlap: int, m: nat)
    ensures Sum(Worst(overlap, m), 0, |Worst(overlap, m)|) == WorstCount(overlap, m)
  {
    var cs := Worst(overlap, m);
    if overlap > 0 {
      OnesSum(overlap, m, 1, overlap);
      SumSplit(cs, 0, 1, overlap);
      assert Sum(cs, 0, 1) == Sum(cs, 0, 0) + cs[0];
    } else {
      assert Sum(cs, 0, 1) == Sum(cs, 0, 0) + cs[0];
    }
  }

  /** Whatever the target, the overlap and the block size, over some counts the last window has exactly the worst count. */
  lemma WindowBoundReached(target: int, overlap: int, m: nat) returns (cs: seq<nat>, ws: seq<Window>)
    requires m > 0
    ensures IsWindowing(cs, target, overlap, ws) && AtMost(cs, m) && AllPositive(cs) && ws != []
    ensures Sum(cs, ws[|ws| - 1].lo, ws[|ws| - 1].hi) == WorstCount(overlap, m)
  {
    cs := Worst(overlap, m);
    ws := WorstWindows(target, overlap, m, |cs|);
    WorstSum(overlap, m);
  }

  /** The windows are determined by the counts: the greedy rule leaves no choice. */
  lemma {:induction false} WindowsAgree(cs: seq<nat>, target: int, overlap: int, a: seq<Window>, b: seq<Window>, k: nat)
    requires IsWindowing(cs, target, overlap, a) && IsWindowing(cs, target, overlap, b)
    requires k < |a|
    ensures k < |b| && a[..k + 1] == b[..k + 1]
  {
    if k > 0 {
      WindowsAgree(cs, target, overlap, a, b, k - 1);
      assert a[k - 1] == a[..k][k - 1] == b[..k][k - 1] == b[k - 1];
      assert WindowAt(cs, target, overlap, a, k);
      assert k < |b|;
      assert WindowAt(cs, target, overlap, b, k);
      ShortestTailUnique(cs, a[k - 1].lo, a[k - 1].hi, overlap, a[k].lo, b[k].lo);
    } else {
      assert WindowAt(cs, target, overlap, a, 0) && WindowAt(cs, target, overlap, b, 0);
    }
    NotShorter(cs, target, overlap, a, b, k);
    NotShorter(cs, target, overlap, b, a, k);
    assert a[..k + 1] == a[..k] + [a[k]] && b[..k + 1] == b[..k] + [b[k]];
  }

  lemma NotShorter(cs: seq<nat>, target: int, overlap: int, a: seq<Window>, b: seq<Window>, k: nat)
    requires IsWindowing(cs, target, overlap, a) && IsWindowing(cs, target, overlap, b)
    requires k < |a| && k < |b| && a[k].lo == b[k].lo && Fresh(a, k) == Fresh(b, k)
    ensures a[k].hi >= b[k].hi
  {
    assert WindowAt(cs, target, overlap, a, k) && WindowAt(cs, target, overlap, b, k);
    if k + 1 < |a| {
      assert WindowAt(cs, target, overlap, a, k + 1);
      if a[k].hi < b[k].hi {
        SumWithin(cs, a[k].lo, a[k].lo, a[k].hi + 1, b[k].hi);
      }
    }
  }

  lemma WindowingUnique(cs: seq<nat>, target: int, overlap: int, a: seq<Window>, b: seq<Window>)
    requires IsWindowing(cs, target, overlap, a) && IsWindowing(cs, target, overlap, b)
    ensures a == b
  {
    if a != [] {
      WindowsAgree(cs, target, overlap, a, b, |a| - 1);
      WindowsAgree(cs, target, overlap, b, a, |b| - 1);
      assert a[..|a|] == a && b[..|b|] == b;
    }
  }

  // ---- without overlap: a partition, and a smallest one -----------------------

  lemma NoOverlap(cs: seq<nat>, target: int, ws: seq<Window>, k: nat)
    requires IsWindowing(cs, target, 0, ws) && k < |ws|
    ensures ws[k].lo == Fresh(ws, k)
    ensures Sum(cs, ws[k].lo, ws[k].hi) <= target || ws[k].hi == ws[k].lo + 1
  {
    assert WindowAt(cs, target, 0, ws, k);
    if k > 0 {
      assert Sum(cs, ws[k - 1].hi, ws[k - 1].hi) >= 0;
    }
  }

  /** `cuts` divide the counts, in order, into pieces within the target. */
  ghost predicate IsPartition(cs: seq<nat>, target: int, cuts: seq<nat>) {
    && cuts != [] && cuts[0] == 0 && cuts[|cuts| - 1] == |cs|
    && (forall i | 0 <= i < |cuts| :: cuts[i] <= |cs|)
    && forall i | 0 < i < |cuts| :: cuts[i - 1] <= cuts[i] && Sum(cs, cuts[i - 1], cuts[i]) <= target
  }

  /** Greedy stays ahead: after as many pieces it has covered at least as much as any partition. */
  lemma {:induction false} GreedyAhead(cs: seq<nat>, target: int, ws: seq<Window>, cuts: seq<nat>, k: nat)
    requires IsWindowing(cs, target, 0, ws) && IsPartition(cs, target, cuts)
    requires k < |ws| && k + 1 < |cuts|
    ensures ws[k].hi >= cuts[k + 1]
  {
    if k > 0 {
      GreedyAhead(cs, target, ws, cuts, k - 1);
    }
    NoOverlap(cs, target, ws, k);
    assert WindowAt(cs, target, 0, ws, k);
    var lo, hi := ws[k].lo, ws[k].hi;
    if k + 1 < |ws| {
      assert WindowAt(cs, target, 0, ws, k + 1);
      assert Sum(cs, lo, hi + 1) > target;
      if hi < cuts[k + 1] {
        SumWithin(cs, cuts[k], lo, hi + 1, cuts[k + 1]);
      }
    }
  }

  /** No order-preserving division into pieces within the target has fewer pieces. */
  lemma GreedyIsSmallest(cs: seq<nat>, target: int, ws: seq<Window>, cuts: seq<nat>)
    requires IsWindowing(cs, target, 0, ws) && IsPartition(cs, target, cuts)
    ensures |ws| <= |cuts| - 1
  {
    var pieces := |cuts| - 1;
    if |ws| > pieces && pieces > 0 {
      GreedyAhead(cs, target, ws, cuts, pieces - 1);
      HighEndsRise(cs, |cs|, target, 0, ws, pieces - 1, pieces);
    }
  }

  /** When every count fits on its own, the greedy windows are such a division themselves. */
  lemma GreedyIsPartition(cs: seq<nat>, target: int, ws: seq<Window>) returns (cuts: seq<nat>)
    requires IsWindowing(cs, target, 0, ws) && forall j | 0 <= j < |cs| :: cs[j] <= target
    ensures IsPartition(cs, target, cuts) && |cuts| == |ws| + 1
  {
    cuts := seq(|ws| + 1, k requires 0 <= k <= |ws| => Fresh(ws, k));
    forall i | 0 <= i < |cuts|
      ensures cuts[i] <= |cs| && (i > 0 ==> cuts[i - 1] <= cuts[i] && Sum(cs, cuts[i - 1], cuts[i]) <= target)
    {
      if i > 0 {
        assert cuts[i] == ws[i - 1].hi && cuts[i - 1] == Fresh(ws, i - 1);
        NoOverlap(cs, target, ws, i - 1);
      }
    }
  }
}

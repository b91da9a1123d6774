/** The confidence recorded with a draft, over exact reals; the final rounding is a parameter. */
module Confidence {

  const FLOOR_WEIGHT: real := 0.6
  const COVERAGE_WEIGHT: real := 0.4
  const LEAST_HEADROOM: real := 0.000000001

  function Max(a: real, b: real): real {
    if a >= b then a else b
  }

  function Clamp(x: real): real {
    Max(0.0, if x < 1.0 then x else 1.0)
  }

  function Total(xs: seq<real>): real {
    if xs == [] then 0.0 else Total(xs[..|xs| - 1]) + xs[|xs| - 1]
  }

  function Average(xs: seq<real>): real
    requires xs != []
  {
    Total(xs) / |xs| as real
  }

  function Headroom(floor: real): real {
    Max(LEAST_HEADROOM, 1.0 - floor)
  }

  function ComputeConfidence(similarities: seq<real>, cited: nat, retrieved: nat, floor: real, round: real -> real): real {
    if similarities == [] || retrieved == 0 then 0.0
    else
      var margin := Clamp((Average(similarities) - floor) / Headroom(floor));
      var coverage := Clamp(cited as real / retrieved as real);
      round(Clamp(FLOOR_WEIGHT * margin + COVERAGE_WEIGHT * coverage))
  }

  lemma {:induction false} TotalBounds(xs: seq<real>, lo: real, hi: real)
    requires forall i | 0 <= i < |xs| :: lo <= xs[i] <= hi
    ensures |xs| as real * lo <= Total(xs) <= |xs| as real * hi
  {
    if xs != [] {
      var n := |xs| - 1;
      TotalBounds(xs[..n], lo, hi);
      assert |xs| as real == n as real + 1.0;
    }
  }

  lemma QuotientInUnit(a: real, b: real)
    requires 0.0 <= a <= b && 0.0 < b
    ensures 0.0 <= a / b <= 1.0
  {
  }

  lemma AverageBounds(xs: seq<real>, lo: real, hi: real)
    requires xs != [] && forall i | 0 <= i < |xs| :: lo <= xs[i] <= hi
    ensures lo <= Average(xs) <= hi
  {
    TotalBounds(xs, lo, hi);
    QuotientBetween(Total(xs), |xs| as real, lo, hi);
  }

  lemma QuotientBetween(t: real, n: real, lo: real, hi: real)
    requires 0.0 < n && n * lo <= t <= n * hi
    ensures lo <= t / n <= hi
  {
  }

  /** What retrieval and drafting hand over: similarities from the floor up to 1, and no more citations than chunks. */
  ghost predicate FromPipeline(similarities: seq<real>, cited: nat, retrieved: nat, floor: real) {
    && 0 < |similarities| == retrieved && cited <= retrieved
    && forall i | 0 <= i < |similarities| :: floor <= similarities[i] <= 1.0
  }

  ghost function Margin(similarities: seq<real>, floor: real): real
    requires similarities != []
  {
    (Average(similarities) - floor) / Headroom(floor)
  }

  /** The score before any clamp. */
  ghost function Score(similarities: seq<real>, cited: nat, retrieved: nat, floor: real): real
    requires similarities != [] && retrieved > 0
  {
    FLOOR_WEIGHT * Margin(similarities, floor) + COVERAGE_WEIGHT * (cited as real / retrieved as real)
  }

  /** On such values none of the clamps does anything. */
  lemma ClampsIdle(similarities: seq<real>, cited: nat, retrieved: nat, floor: real, round: real -> real)
    requires FromPipeline(similarities, cited, retrieved, floor)
    ensures 0.0 <= Margin(similarities, floor) <= 1.0 && 0.0 <= cited as real / retrieved as real <= 1.0
    ensures 0.0 <= Score(similarities, cited, retrieved, floor) <= 1.0
    ensures ComputeConfidence(similarities, cited, retrieved, floor, round) == round(Score(similarities, cited, retrieved, floor))
  {
    AverageBounds(similarities, floor, 1.0);
    QuotientInUnit(Average(similarities) - floor, Headroom(floor));
    QuotientInUnit(cited as real, retrieved as real);
  }

  lemma AverageRises(xs: seq<real>, ys: seq<real>)
    requires |xs| == |ys| > 0 && forall i | 0 <= i < |xs| :: xs[i] <= ys[i]
    ensures Average(xs) <= Average(ys)
  {
    TotalRises(xs, ys);
    QuotientRises(Total(xs), Total(ys), |xs| as real);
  }

  lemma {:induction false} TotalRises(xs: seq<real>, ys: seq<real>)
    requires |xs| == |ys| && forall i | 0 <= i < |xs| :: xs[i] <= ys[i]
    ensures Total(xs) <= Total(ys)
  {
    if xs != [] {
      TotalRises(xs[..|xs| - 1], ys[..|ys| - 1]);
    }
  }

  lemma QuotientRises(a: real, b: real, c: real)
    requires a <= b && 0.0 < c
    ensures a / c <= b / c
  {
  }

  /** Better-grounded retrieval and more citations never lower the score. */
  lemma ConfidenceRises(before: seq<real>, after: seq<real>, cited: nat, more: nat, retrieved: nat, floor: real,
                        round: real -> real)
    requires FromPipeline(before, cited, retrieved, floor) && FromPipeline(after, more, retrieved, floor)
    requires cited <= more && forall i | 0 <= i < |before| :: before[i] <= after[i]
    requires forall x, y | x <= y :: round(x) <= round(y)
    ensures ComputeConfidence(before, cited, retrieved, floor, round) <= ComputeConfidence(after, more, retrieved, floor, round)
  {
    ClampsIdle(before, cited, retrieved, floor, round);
    ClampsIdle(after, more, retrieved, floor, round);
    AverageRises(before, after);
    QuotientRises(Average(before) - floor, Average(after) - floor, Headroom(floor));
    QuotientRises(cited as real, more as real, retrieved as real);
  }

  // ---- the score as a number -----------------------------------------------------------------

  /** The total is the sum: of nothing 0, of one value that value, and additive. */
  lemma {:induction false} TotalAdds(xs: seq<real>, ys: seq<real>)
    ensures Total([]) == 0.0 && (|ys| == 1 ==> Total(ys) == ys[0])
    ensures Total(xs + ys) == Total(xs) + Total(ys)
  {
    if ys == [] {
      assert xs + ys == xs;
    } else {
      var n := |ys| - 1;
      TotalAdds(xs, ys[..n]);
      assert (xs + ys)[..|xs| + n] == xs + ys[..n] && (xs + ys)[|xs| + n] == ys[n];
    }
  }

  /** `x` is the share `part / whole`, held between 0 and 1. */
  ghost predicate IsShare(x: real, part: real, whole: real) {
    && (part <= 0.0 ==> x == 0.0) && (part >= whole ==> x == 1.0)
    && (0.0 < part < whole ==> x * whole == part)
  }

  lemma ClampIsShare(q: real, x: real, part: real, whole: real)
    requires whole > 0.0 && q * whole == part && IsShare(x, part, whole)
    ensures Clamp(q) == x && 0.0 <= x <= 1.0
  {
    if q <= 0.0 {
      assert q * whole <= 0.0;
    } else if q >= 1.0 {
      assert q * whole >= whole;
    } else {
      assert 0.0 < q * whole < whole;
      SameQuotient(x, q, whole);
    }
  }

  lemma SameQuotient(x: real, y: real, p: real)
    requires p > 0.0 && x * p == y * p
    ensures x == y
  {
  }

  lemma MarginCleared(t: real, n: real, f: real, h: real)
    requires n > 0.0 && h > 0.0
    ensures ((t / n - f) / h) * (n * h) == t - n * f
  {
    var u := (t / n - f) / h;
    assert u * h == t / n - f && u * (n * h) == (u * h) * n;
    assert (t / n) * n == t;
  }

  /**
   * For all inputs: the confidence is the rounding of six tenths of the margin and four tenths
   * of the coverage, where the margin is what the similarities sum to over the floor as a
   * share of the room above it, never less than a billionth each, and the coverage the share
   * of the retrieved chunks that are cited, each held between 0 and 1.
   */
  lemma {:induction false} ConfidenceIs(similarities: seq<real>, cited: nat, retrieved: nat, floor: real, round: real -> real,
                                        margin: real, coverage: real)
    requires similarities != [] && retrieved > 0
    requires var n, h := |similarities| as real, if floor <= 0.999999999 then 1.0 - floor else 0.000000001;
             IsShare(margin, Total(similarities) - n * floor, n * h)
    requires IsShare(coverage, cited as real, retrieved as real)
    ensures ComputeConfidence(similarities, cited, retrieved, floor, round) == round((6.0 * margin + 4.0 * coverage) / 10.0)
  {
    MarginIs(Total(similarities), |similarities| as real, floor, Headroom(floor), margin);
    ClampIsShare(cited as real / retrieved as real, coverage, cited as real, retrieved as real);
    Weighted(margin, coverage);
  }

  lemma MarginIs(t: real, n: real, f: real, h: real, margin: real)
    requires n > 0.0 && h > 0.0 && IsShare(margin, t - n * f, n * h)
    ensures Clamp((t / n - f) / h) == margin && 0.0 <= margin <= 1.0
  {
    MarginCleared(t, n, f, h);
    assert n * h > 0.0;
    ClampIsShare((t / n - f) / h, margin, t - n * f, n * h);
  }

  lemma Weighted(x: real, y: real)
    requires 0.0 <= x <= 1.0 && 0.0 <= y <= 1.0
    ensures Clamp(FLOOR_WEIGHT * x + COVERAGE_WEIGHT * y) == (6.0 * x + 4.0 * y) / 10.0
  {
  }

  /** Nothing retrieved, no confidence. */
  lemma NoConfidence(similarities: seq<real>, cited: nat, retrieved: nat, floor: real, round: real -> real)
    requires similarities == [] || retrieved == 0
    ensures ComputeConfidence(similarities, cited, retrieved, floor, round) == 0.0
  {
  }
}

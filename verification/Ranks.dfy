/**
 * Hybrid retrieval by integer ranks: what the fused order comes to, without the scores it is
 * computed from. An id's place in an arm is its rank there, from 1, or 0 if the arm lacks it.
 */
module Ranks {
  import opened Retrieval

  ghost predicate IsPlace(rows: seq<Row>, id: string, a: nat) {
    if a == 0 then !HasId(rows, id) else a <= |rows| && rows[a - 1].id == id
  }

  /** The id's places in the two arms. */
  ghost predicate ArePlaces(cosine: seq<Row>, fts: seq<Row>, id: string, a: nat, b: nat) {
    IsPlace(cosine, id, a) && IsPlace(fts, id, b) && a + b > 0
  }

  // ---- scores as fractions -----------------------------------------------------------------

  /** `1 / (k + a) + 1 / (k + b)` over one denominator, with an absent arm left out. */
  function Numerator(k: nat, a: nat, b: nat): nat {
    if a == 0 || b == 0 then 1 else 2 * k + a + b
  }

  function Denominator(k: nat, a: nat, b: nat): (d: nat)
    requires a + b > 0
    ensures d > 0
  {
    if a == 0 then k + b else if b == 0 then k + a else Product(k + a, k + b)
  }

  /** `x * y`, as a sum. */
  function Product(x: nat, y: nat): (p: nat)
    ensures x > 0 && y > 0 ==> p > 0
  {
    if y == 0 then 0 else Product(x, y - 1) + x
  }

  lemma {:induction false} ProductIs(x: nat, y: nat)
    ensures Product(x, y) == x * y
  {
    if y > 0 {
      ProductIs(x, y - 1);
    }
  }

  lemma {:induction false} ArmScoreIs(rows: seq<Row>, k: nat, id: string, a: nat)
    requires DistinctIds(rows) && IsPlace(rows, id, a)
    ensures ArmScore(rows, k, id) == if a == 0 then 0.0 else 1.0 / (k + a) as real
  {
    if a == 0 {
      ArmScoreAbsent(rows, k, id);
    } else {
      ArmScoreAt(rows, k, a - 1);
    }
  }

  ghost predicate IsFraction(s: real, n: nat, d: nat) {
    d > 0 && s * d as real == n as real
  }

  lemma OneFraction(x: nat)
    requires x > 0
    ensures IsFraction(1.0 / x as real, 1, x)
  {
  }

  lemma SumOfFractions(x: nat, y: nat)
    requires x > 0 && y > 0
    ensures IsFraction(1.0 / x as real + 1.0 / y as real, x + y, Product(x, y))
  {
    var p, q := x as real, y as real;
    ProductIs(x, y);
    assert Product(x, y) as real == p * q;
    assert (1.0 / p) * (p * q) == q && (1.0 / q) * (p * q) == p;
  }

  lemma {:induction false} FusedIs(cosine: seq<Row>, fts: seq<Row>, k: nat, id: string, a: nat, b: nat)
    requires DistinctIds(cosine) && DistinctIds(fts) && ArePlaces(cosine, fts, id, a, b)
    ensures IsFraction(Fused(cosine, fts, k, id), Numerator(k, a, b), Denominator(k, a, b))
  {
    ArmScoreIs(cosine, k, id, a);
    ArmScoreIs(fts, k, id, b);
    ValueIs(k, a, b);
  }

  lemma {:induction false} ValueIs(k: nat, a: nat, b: nat)
    requires a + b > 0
    ensures IsFraction((if a == 0 then 0.0 else 1.0 / (k + a) as real) + (if b == 0 then 0.0 else 1.0 / (k + b) as real),
                       Numerator(k, a, b), Denominator(k, a, b))
  {
    if a == 0 {
      OneFraction(k + b);
    } else if b == 0 {
      OneFraction(k + a);
    } else {
      SumOfFractions(k + a, k + b);
    }
  }

  lemma CrossMultiply(s: real, t: real, n: nat, d: nat, m: nat, e: nat)
    requires d > 0 && e > 0 && s * d as real == n as real && t * e as real == m as real
    ensures s > t <==> n * e > m * d
    ensures s == t <==> n * e == m * d
  {
    var x, y := d as real, e as real;
    assert (n * e) as real == (s * x) * y && (m * d) as real == (t * y) * x;
    assert (s * x) * y - (t * y) * x == (s - t) * (x * y);
    assert x * y > 0.0;
    Signs(s - t, x * y);
  }

  lemma CrossProducts(s: real, t: real, n: nat, d: nat, m: nat, e: nat)
    requires IsFraction(s, n, d) && IsFraction(t, m, e)
    ensures s > t <==> Product(n, e) > Product(m, d)
    ensures s == t <==> Product(n, e) == Product(m, d)
  {
    CrossMultiply(s, t, n, d, m, e);
    ProductIs(n, e);
    ProductIs(m, d);
  }

  lemma Signs(z: real, p: real)
    requires p > 0.0
    ensures z > 0.0 <==> z * p > 0.0
    ensures z == 0.0 <==> z * p == 0.0
  {
  }

  // ---- the order ---------------------------------------------------------------------------

  /** Seen before: in the vector arm's order, then the text arm's. */
  predicate SeenFirst(a: nat, b: nat, c: nat, d: nat) {
    if a > 0 && c > 0 then a < c else if a > 0 || c > 0 then a > 0 else b < d
  }

  /** The id with places `a`, `b` ranks above the one with places `c`, `d`. */
  predicate RanksAbove(k: nat, a: nat, b: nat, c: nat, d: nat)
    requires a + b > 0 && c + d > 0
  {
    var x, y := Product(Numerator(k, a, b), Denominator(k, c, d)), Product(Numerator(k, c, d), Denominator(k, a, b));
    x > y || (x == y && SeenFirst(a, b, c, d))
  }

  lemma {:induction false} StartKept(base: seq<string>, rows: seq<Row>)
    ensures base <= OrderAfter(base, rows)
  {
    if rows != [] {
      StartKept(base, rows[..|rows| - 1]);
    }
  }

  lemma {:induction false} OrderHolds(base: seq<string>, rows: seq<Row>, id: string)
    ensures id in OrderAfter(base, rows) <==> id in base || HasId(rows, id)
  {
    if rows != [] {
      var n := |rows| - 1;
      OrderHolds(base, rows[..n], id);
      HasIdMore(rows, n, id);
      assert rows[..n + 1] == rows;
    }
  }

  lemma SeenStill(order: seq<string>, longer: seq<string>, x: string, y: string)
    requires SeenBefore(order, x, y) && order <= longer
    ensures SeenBefore(longer, x, y)
  {
    var i, j :| 0 <= i < j < |order| && order[i] == x && order[j] == y;
    assert longer[i] == x && longer[j] == y;
  }

  lemma SeenLast(order: seq<string>, x: string, y: string)
    requires x in order
    ensures SeenBefore(order + [y], x, y)
  {
    var i :| 0 <= i < |order| && order[i] == x;
    assert (order + [y])[i] == x && (order + [y])[|order|] == y;
  }

  /** An arm's new ids are seen in its order, after those seen before. */
  lemma {:induction false} NewInOrder(base: seq<string>, rows: seq<Row>, x: string, j: nat)
    requires DistinctIds(rows) && j < |rows| && rows[j].id !in base
    requires x in base || exists i :: 0 <= i < j && rows[i].id == x
    ensures SeenBefore(OrderAfter(base, rows), x, rows[j].id)
  {
    var n := |rows| - 1;
    var short := rows[..n];
    var before := OrderAfter(base, short);
    if j < n {
      assert x in base || exists i :: 0 <= i < j && short[i].id == x;
      NewInOrder(base, short, x, j);
      SeenStill(before, OrderAfter(base, rows), x, rows[j].id);
    } else {
      OrderHolds(base, short, x);
      OrderHolds(base, short, rows[j].id);
      assert x !in base ==> HasId(short, x) by {
        if i :| 0 <= i < j && rows[i].id == x {
          assert short[i].id == x;
        }
      }
      assert !HasId(short, rows[j].id);
      SeenLast(before, x, rows[j].id);
    }
  }

  lemma {:induction false} SeenInOrder(cosine: seq<Row>, fts: seq<Row>, x: string, a: nat, b: nat, y: string, c: nat, d: nat)
    requires DistinctIds(cosine) && DistinctIds(fts) && x != y && SeenFirst(a, b, c, d)
    requires ArePlaces(cosine, fts, x, a, b) && ArePlaces(cosine, fts, y, c, d)
    ensures SeenBefore(OrderAfter(OrderAfter([], cosine), fts), x, y)
  {
    var first := OrderAfter([], cosine);
    OrderHolds([], cosine, x);
    OrderHolds([], cosine, y);
    StartKept(first, fts);
    if c > 0 {
      assert cosine[a - 1].id == x;
      NewInOrder([], cosine, x, c - 1);
      SeenStill(first, OrderAfter(first, fts), x, y);
    } else {
      assert a == 0 ==> fts[b - 1].id == x;
      assert a > 0 ==> HasId(cosine, x);
      NewInOrder(first, fts, x, d - 1);
    }
  }

  lemma NotBoth(order: seq<string>, x: string, y: string)
    requires Distinct(order) && SeenBefore(order, x, y)
    ensures !SeenBefore(order, y, x)
  {
  }

  lemma SeenTotal(cosine: seq<Row>, fts: seq<Row>, x: string, a: nat, b: nat, y: string, c: nat, d: nat)
    requires x != y && ArePlaces(cosine, fts, x, a, b) && ArePlaces(cosine, fts, y, c, d)
    ensures SeenFirst(a, b, c, d) || SeenFirst(c, d, a, b)
  {
  }

  lemma {:induction false} SeenIff(cosine: seq<Row>, fts: seq<Row>, order: seq<string>, x: string, a: nat, b: nat,
                                   y: string, c: nat, d: nat)
    requires DistinctIds(cosine) && DistinctIds(fts) && x != y
    requires order == OrderAfter(OrderAfter([], cosine), fts) && Distinct(order)
    requires ArePlaces(cosine, fts, x, a, b) && ArePlaces(cosine, fts, y, c, d)
    ensures SeenBefore(order, x, y) == SeenFirst(a, b, c, d)
  {
    SeenTotal(cosine, fts, x, a, b, y, c, d);
    if SeenFirst(a, b, c, d) {
      SeenInOrder(cosine, fts, x, a, b, y, c, d);
    } else {
      SeenInOrder(cosine, fts, y, c, d, x, a, b);
      NotBoth(order, y, x);
    }
  }

  /** One score is higher than another, or equal to it, exactly as the products of their fractions are. */
  lemma {:induction false} ScoresCompare(cosine: seq<Row>, fts: seq<Row>, k: nat, x: string, a: nat, b: nat, y: string,
                                         c: nat, d: nat)
    requires DistinctIds(cosine) && DistinctIds(fts)
    requires ArePlaces(cosine, fts, x, a, b) && ArePlaces(cosine, fts, y, c, d)
    ensures var s, t := Fused(cosine, fts, k, x), Fused(cosine, fts, k, y);
            var n, m := Product(Numerator(k, a, b), Denominator(k, c, d)), Product(Numerator(k, c, d), Denominator(k, a, b));
            (s > t <==> n > m) && (s == t <==> n == m)
  {
    FusedIs(cosine, fts, k, x, a, b);
    FusedIs(cosine, fts, k, y, c, d);
    CrossProducts(Fused(cosine, fts, k, x), Fused(cosine, fts, k, y), Numerator(k, a, b), Denominator(k, a, b),
                  Numerator(k, c, d), Denominator(k, c, d));
  }

  lemma {:induction false} AboveIs(order: seq<string>, scores: map<string, real>, x: string, y: string, n: nat, m: nat,
                                   first: bool)
    requires x in scores && y in scores && first == SeenBefore(order, x, y)
    requires (scores[x] > scores[y] <==> n > m) && (scores[x] == scores[y] <==> n == m)
    ensures Above(order, scores, x, y) <==> n > m || (n == m && first)
  {
  }

  /** One id ranks above another exactly as their integer ranks say. */
  lemma {:induction false} AboveIff(cosine: seq<Row>, fts: seq<Row>, k: nat, dicts: Dicts, x: string, a: nat, b: nat,
                                    y: string, c: nat, d: nat)
    requires DistinctIds(cosine) && DistinctIds(fts) && Accumulated(cosine, fts, k, dicts) && x != y
    requires ArePlaces(cosine, fts, x, a, b) && ArePlaces(cosine, fts, y, c, d)
    ensures x in dicts.scores && y in dicts.scores
    ensures Above(dicts.order, dicts.scores, x, y) <==> RanksAbove(k, a, b, c, d)
  {
    InDicts(cosine, fts, k, dicts, x, a, b);
    InDicts(cosine, fts, k, dicts, y, c, d);
    ScoresCompare(cosine, fts, k, x, a, b, y, c, d);
    SeenIff(cosine, fts, dicts.order, x, a, b, y, c, d);
    AboveIs(dicts.order, dicts.scores, x, y, Product(Numerator(k, a, b), Denominator(k, c, d)),
            Product(Numerator(k, c, d), Denominator(k, a, b)), SeenFirst(a, b, c, d));
  }

  lemma {:induction false} InDicts(cosine: seq<Row>, fts: seq<Row>, k: nat, dicts: Dicts, x: string, a: nat, b: nat)
    requires Accumulated(cosine, fts, k, dicts) && ArePlaces(cosine, fts, x, a, b)
    ensures x in dicts.order && x in dicts.scores && dicts.scores[x] == Fused(cosine, fts, k, x)
  {
    assert a > 0 ==> HasId(cosine, x);
    assert b > 0 ==> HasId(fts, x);
  }

  // ---- what is retrieved -------------------------------------------------------------------

  /**
   * The retrieved chunks are in the order their integer ranks say, and a candidate above the
   * floor that is left out ranks, by these, below every one of them, of which there are then
   * as many as the limit allows.
   */
  lemma {:induction false} RetrievedByRanks(cosine: seq<Row>, fts: seq<Row>, extra: map<string, real>, floor: real, limit: nat,
                                            k: nat, out: seq<Chunk>, dicts: Dicts, i: nat, y: string, a: nat, b: nat,
                                            c: nat, d: nat)
    requires DistinctIds(cosine) && DistinctIds(fts) && IsRetrievedBy(cosine, fts, extra, floor, limit, k, out, dicts)
    requires i < |out| && ArePlaces(cosine, fts, out[i].id, a, b) && ArePlaces(cosine, fts, y, c, d)
    requires (exists j :: i < j < |out| && out[j].id == y)
             || (y !in Ids(out) && Similarity(cosine, extra, y) >= floor)
    ensures RanksAbove(k, a, b, c, d)
    ensures y !in Ids(out) ==> |out| == limit
  {
    var ids := Ids(out);
    InDicts(cosine, fts, k, dicts, y, c, d);
    if y in ids {
      var j :| i < j < |out| && out[j].id == y;
      assert ids[i] != ids[j];
      assert Above(dicts.order, dicts.scores, ids[i], ids[j]);
    } else {
      assert ids[i] in ids;
      assert Above(dicts.order, dicts.scores, ids[i], y);
    }
    AboveIff(cosine, fts, k, dicts, out[i].id, a, b, y, c, d);
  }

  /** Of two ids that one arm found, whichever arm, the one with the smaller rank ranks above. */
  lemma OneArmEach(k: nat, a: nat, b: nat, c: nat, d: nat)
    requires (a == 0) != (b == 0) && (c == 0) != (d == 0) && a + b < c + d
    ensures RanksAbove(k, a, b, c, d) && !RanksAbove(k, c, d, a, b)
  {
    ProductIs(1, Denominator(k, c, d));
    ProductIs(1, Denominator(k, a, b));
  }

  /** Of two ids that both arms found, the first has the higher score exactly under this inequality of ranks. */
  lemma BothArmsEach(cosine: seq<Row>, fts: seq<Row>, k: nat, x: string, a: nat, b: nat, y: string, c: nat, d: nat)
    requires DistinctIds(cosine) && DistinctIds(fts) && a > 0 && b > 0 && c > 0 && d > 0
    requires ArePlaces(cosine, fts, x, a, b) && ArePlaces(cosine, fts, y, c, d)
    ensures Fused(cosine, fts, k, x) > Fused(cosine, fts, k, y)
            <==> (2 * k + a + b) * ((k + c) * (k + d)) > (2 * k + c + d) * ((k + a) * (k + b))
  {
    ScoresCompare(cosine, fts, k, x, a, b, y, c, d);
    ProductIs(k + a, k + b);
    ProductIs(k + c, k + d);
    ProductIs(2 * k + a + b, (k + c) * (k + d));
    ProductIs(2 * k + c + d, (k + a) * (k + b));
  }

  /** So of two retrieved chunks that one arm found each, the one with the smaller rank comes first. */
  lemma {:induction false} OneArmFirst(cosine: seq<Row>, fts: seq<Row>, extra: map<string, real>, floor: real, limit: nat,
                                       k: nat, out: seq<Chunk>, dicts: Dicts, i: nat, a: nat, b: nat, j: nat, c: nat, d: nat)
    requires DistinctIds(cosine) && DistinctIds(fts) && IsRetrievedBy(cosine, fts, extra, floor, limit, k, out, dicts)
    requires i < |out| && ArePlaces(cosine, fts, out[i].id, a, b) && (a == 0) != (b == 0)
    requires j < |out| && ArePlaces(cosine, fts, out[j].id, c, d) && (c == 0) != (d == 0)
    requires a + b < c + d
    ensures i < j
  {
    OneArmEach(k, a, b, c, d);
    if j < i {
      assert out[i].id == out[i].id;
      RetrievedByRanks(cosine, fts, extra, floor, limit, k, out, dicts, j, out[i].id, c, d, a, b);
    }
    assert i != j by {
      if i == j {
        SamePlaces(cosine, fts, out[i].id, a, b, c, d);
      }
    }
  }

  lemma {:induction false} SamePlaces(cosine: seq<Row>, fts: seq<Row>, x: string, a: nat, b: nat, c: nat, d: nat)
    requires DistinctIds(cosine) && DistinctIds(fts) && ArePlaces(cosine, fts, x, a, b) && ArePlaces(cosine, fts, x, c, d)
    ensures a == c && b == d
  {
    assert a > 0 ==> cosine[a - 1].id == x;
    assert c > 0 ==> cosine[c - 1].id == x;
    assert b > 0 ==> fts[b - 1].id == x;
    assert d > 0 ==> fts[d - 1].id == x;
  }
}

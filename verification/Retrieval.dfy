/**
 * Hybrid retrieval: the vector arm and the full-text arm fused by reciprocal rank, filtered
 * by the cosine floor and cut to the best few. The two queries are arbitrary ranked lists of
 * distinct rows; scores are exact reals.
 */
module Retrieval {

  datatype Row = Row(id: string, text: string, score: real)

  datatype Chunk = Chunk(id: string, text: string, similarity: real)

  ghost predicate DistinctIds(rows: seq<Row>) {
    forall i, j | 0 <= i < j < |rows| :: rows[i].id != rows[j].id
  }

  ghost predicate HasId(rows: seq<Row>, id: string) {
    exists i | 0 <= i < |rows| :: rows[i].id == id
  }

  // ---- reciprocal ranks --------------------------------------------------------------

  function Reciprocal(k: nat, rank: nat): real
    requires rank > 0
  {
    1.0 / (k + rank) as real
  }

  /** What an arm adds to an id's score: the reciprocal of its rank there, or nothing. */
  ghost function ArmScore(rows: seq<Row>, k: nat, id: string): real {
    if rows == [] then 0.0
    else ArmScore(rows[..|rows| - 1], k, id) + if rows[|rows| - 1].id == id then Reciprocal(k, |rows|) else 0.0
  }

  ghost function Fused(cosine: seq<Row>, fts: seq<Row>, k: nat, id: string): real {
    ArmScore(cosine, k, id) + ArmScore(fts, k, id)
  }

  lemma {:induction false} ArmScoreAbsent(rows: seq<Row>, k: nat, id: string)
    requires !HasId(rows, id)
    ensures ArmScore(rows, k, id) == 0.0
  {
    if rows != [] {
      var short := rows[..|rows| - 1];
      assert forall i | 0 <= i < |short| :: rows[i].id == short[i].id;
      assert rows[|rows| - 1].id != id;
      ArmScoreAbsent(short, k, id);
    }
  }

  lemma {:induction false} ArmScoreAt(rows: seq<Row>, k: nat, i: nat)
    requires i < |rows| && DistinctIds(rows)
    ensures ArmScore(rows, k, rows[i].id) == Reciprocal(k, i + 1)
  {
    var last := |rows| - 1;
    if i == last {
      ArmScoreAbsent(rows[..last], k, rows[i].id);
    } else {
      ArmScoreAt(rows[..last], k, i);
    }
  }

  lemma ReciprocalFalls(k: nat, a: nat, b: nat)
    requires 0 < a <= b
    ensures Reciprocal(k, a) >= Reciprocal(k, b) > 0.0
  {
    var x, y := (k + a) as real, (k + b) as real;
    assert 1.0 / x - 1.0 / y == (y - x) / (x * y);
  }

  lemma TwoReciprocals(k: nat, limit: nat)
    requires limit > 0
    ensures Reciprocal(k, limit) + Reciprocal(k, limit) > Reciprocal(k, 1) <==> limit <= k + 1
  {
    var x, y := (k + 1) as real, (k + limit) as real;
    assert 2.0 / y - 1.0 / x == (2.0 * x - y) / (x * y);
    assert x * y > 0.0;
    assert Reciprocal(k, limit) + Reciprocal(k, limit) == 2.0 / y;
    if 2.0 * x - y > 0.0 {
      assert (2.0 * x - y) / (x * y) > 0.0;
    } else {
      assert (2.0 * x - y) / (x * y) <= 0.0;
    }
  }

  /**
   * Being found by both arms beats being found by one, whatever the ranks, exactly when no
   * arm returns more than `k + 1` rows.
   */
  lemma BothBeatsOne(k: nat, limit: nat)
    requires limit > 0
    ensures (forall a, b, c | 0 < a <= limit && 0 < b <= limit && 0 < c <= limit ::
               Reciprocal(k, a) + Reciprocal(k, b) > Reciprocal(k, c))
            <==> limit <= k + 1
  {
    TwoReciprocals(k, limit);
    if limit <= k + 1 {
      forall a, b, c | 0 < a <= limit && 0 < b <= limit && 0 < c <= limit
        ensures Reciprocal(k, a) + Reciprocal(k, b) > Reciprocal(k, c)
      {
        ReciprocalFalls(k, a, limit);
        ReciprocalFalls(k, b, limit);
        ReciprocalFalls(k, 1, c);
      }
    } else {
      assert !(Reciprocal(k, limit) + Reciprocal(k, limit) > Reciprocal(k, 1));
    }
  }

  /** The same for the fused scores of two result lists. */
  lemma FoundByBothWins(cosine: seq<Row>, fts: seq<Row>, k: nat, limit: nat, both: string, one: string)
    requires DistinctIds(cosine) && DistinctIds(fts) && |cosine| <= limit && |fts| <= limit <= k + 1
    requires HasId(cosine, both) && HasId(fts, both)
    requires HasId(cosine, one) != HasId(fts, one)
    ensures Fused(cosine, fts, k, both) > Fused(cosine, fts, k, one)
  {
    var a :| 0 <= a < |cosine| && cosine[a].id == both;
    var b :| 0 <= b < |fts| && fts[b].id == both;
    ArmScoreAt(cosine, k, a);
    ArmScoreAt(fts, k, b);
    var found, other := if HasId(cosine, one) then cosine else fts, if HasId(cosine, one) then fts else cosine;
    var c :| 0 <= c < |found| && found[c].id == one;
    ArmScoreAt(found, k, c);
    ArmScoreAbsent(other, k, one);
    BothBeatsOne(k, limit);
    assert Reciprocal(k, a + 1) + Reciprocal(k, b + 1) > Reciprocal(k, c + 1);
  }

  // ---- the ranking -------------------------------------------------------------------

  ghost predicate Distinct(ids: seq<string>) {
    forall i, j | 0 <= i < j < |ids| :: ids[i] != ids[j]
  }

  ghost predicate SeenBefore(order: seq<string>, a: string, b: string) {
    exists i, j | 0 <= i < j < |order| :: order[i] == a && order[j] == b
  }

  /** `a` ranks above `b`: a higher score, or the same score and seen first. */
  ghost predicate Above(order: seq<string>, scores: map<string, real>, a: string, b: string)
    requires a in scores && b in scores
  {
    scores[a] > scores[b] || (scores[a] == scores[b] && SeenBefore(order, a, b))
  }

  ghost predicate Scored(ids: seq<string>, scores: map<string, real>) {
    forall i | 0 <= i < |ids| :: ids[i] in scores
  }

  ghost predicate Ranked(order: seq<string>, scores: map<string, real>, ids: seq<string>)
    requires Scored(ids, scores)
  {
    forall i, j | 0 <= i < j < |ids| :: Above(order, scores, ids[i], ids[j])
  }

  /** One id into a ranking of ids seen later: after the strictly higher ones. */
  function Insert(x: string, ids: seq<string>, scores: map<string, real>): (r: seq<string>)
    requires x in scores && Scored(ids, scores)
    ensures Scored(r, scores) && multiset(r) == multiset(ids) + multiset{x}
  {
    if ids == [] || scores[x] >= scores[ids[0]] then
      assert multiset([x] + ids) == multiset{x} + multiset(ids);
      [x] + ids
    else
      assert ids == [ids[0]] + ids[1..];
      var rest := Insert(x, ids[1..], scores);
      assert multiset([ids[0]] + rest) == multiset{ids[0]} + multiset(rest);
      [ids[0]] + rest
  }

  /** `sorted(ids, key=scores, reverse=True)`, which keeps the order of equal scores. */
  function SortByScore(ids: seq<string>, scores: map<string, real>): (r: seq<string>)
    requires Scored(ids, scores)
    ensures Scored(r, scores) && multiset(r) == multiset(ids)
  {
    if ids == [] then []
    else
      assert ids == [ids[0]] + ids[1..];
      Insert(ids[0], SortByScore(ids[1..], scores), scores)
  }

  lemma {:induction false} InsertRanks(order: seq<string>, scores: map<string, real>, x: string, ids: seq<string>)
    requires x in scores && Scored(ids, scores) && Ranked(order, scores, ids)
    requires forall y | y in ids :: SeenBefore(order, x, y)
    ensures Ranked(order, scores, Insert(x, ids, scores))
  {
    if ids == [] {
    } else if scores[x] >= scores[ids[0]] {
      forall j | 0 <= j < |ids|
        ensures Above(order, scores, x, ids[j])
      {
        assert j > 0 ==> Above(order, scores, ids[0], ids[j]);
        assert ids[j] in ids;
      }
    } else {
      InsertRanks(order, scores, x, ids[1..]);
      var rest := Insert(x, ids[1..], scores);
      forall j | 0 <= j < |rest|
        ensures Above(order, scores, ids[0], rest[j])
      {
        assert rest[j] in multiset(rest);
        if rest[j] != x {
          assert rest[j] in ids[1..];
          var m :| 0 <= m < |ids[1..]| && ids[1..][m] == rest[j];
          assert Above(order, scores, ids[0], ids[m + 1]);
        }
      }
    }
  }

  lemma {:induction false} SortRanks(order: seq<string>, scores: map<string, real>, k: nat)
    requires k <= |order| && Scored(order, scores)
    ensures Ranked(order, scores, SortByScore(order[k..], scores))
    decreases |order| - k
  {
    if k < |order| {
      SortRanks(order, scores, k + 1);
      var later := SortByScore(order[k + 1..], scores);
      assert order[k..][1..] == order[k + 1..];
      forall y | y in later
        ensures SeenBefore(order, order[k], y)
      {
        assert y in multiset(later);
        assert y in order[k + 1..];
        var m :| 0 <= m < |order[k + 1..]| && order[k + 1..][m] == y;
        assert order[k] == order[k] && order[k + 1 + m] == y;
      }
      InsertRanks(order, scores, order[k], later);
    } else {
      assert order[k..] == [];
    }
  }

  // ---- the fused retrieval -------------------------------------------------------------

  ghost predicate HasText(rows: seq<Row>, id: string, text: string) {
    exists i | 0 <= i < |rows| :: rows[i].id == id && rows[i].text == text
  }

  /** The text kept for an id: the text arm's if it found the id, else the vector arm's. */
  ghost predicate IsTextOf(cosine: seq<Row>, fts: seq<Row>, id: string, text: string) {
    HasText(if HasId(fts, id) then fts else cosine, id, text)
  }

  /** The dictionaries of scores and texts, and the order their keys were added in. */
  datatype Dicts = Dicts(order: seq<string>, scores: map<string, real>, texts: map<string, string>)

  const NO_DICTS := Dicts([], map[], map[])

  function AddRow(d: Dicts, row: Row, rank: nat, k: nat): Dicts
    requires rank > 0
  {
    Dicts(if row.id in d.scores then d.order else d.order + [row.id],
          d.scores[row.id := (if row.id in d.scores then d.scores[row.id] else 0.0) + Reciprocal(k, rank)],
          d.texts[row.id := row.text])
  }

  /** The order of keys after an arm's rows: its new ids follow, in its order. */
  ghost function OrderAfter(order: seq<string>, rows: seq<Row>): seq<string> {
    if rows == [] then order
    else
      var before := OrderAfter(order, rows[..|rows| - 1]);
      if rows[|rows| - 1].id in before then before else before + [rows[|rows| - 1].id]
  }

  /** What an arm does to one id's entries. */
  ghost predicate EntryAfter(base: Dicts, rows: seq<Row>, k: nat, d: Dicts, id: string) {
    && (id in d.order <==> id in base.order || HasId(rows, id))
    && (id in d.scores <==> id in d.order) && (id in d.texts <==> id in d.order)
    && (id in d.scores ==> d.scores[id] == (if id in base.scores then base.scores[id] else 0.0) + ArmScore(rows, k, id))
    && (id in d.texts ==> if HasId(rows, id) then HasText(rows, id, d.texts[id])
                          else id in base.texts && d.texts[id] == base.texts[id])
  }

  ghost predicate ArmAdded(base: Dicts, rows: seq<Row>, k: nat, d: Dicts) {
    && Distinct(d.order) && d.order == OrderAfter(base.order, rows)
    && forall id :: EntryAfter(base, rows, k, d, id)
  }

  lemma EntryMore(base: Dicts, rows: seq<Row>, n: nat, k: nat, d: Dicts, id: string)
    requires n < |rows| && EntryAfter(base, rows[..n], k, d, id)
    requires rows[n].id in d.scores <==> rows[n].id in d.order
    requires id in base.scores <==> id in base.order
    ensures EntryAfter(base, rows[..n + 1], k, AddRow(d, rows[n], n + 1, k), id)
  {
    var before, after := rows[..n], rows[..n + 1];
    assert after[..n] == before && after[n] == rows[n];
    HasIdMore(rows, n, id);
    if HasId(before, id) {
      var i :| 0 <= i < n && before[i].id == id && (id in d.texts && rows[n].id != id ==> before[i].text == d.texts[id]);
      assert after[i] == before[i];
    } else {
      ArmScoreAbsent(before, k, id);
    }
  }

  method AddArm(base: Dicts, rows: seq<Row>, k: nat) returns (d: Dicts)
    requires Distinct(base.order)
    requires forall id :: (id in base.scores <==> id in base.order) && (id in base.texts <==> id in base.order)
    ensures ArmAdded(base, rows, k, d)
  {
    d := base;
    for n := 0 to |rows|
      invariant ArmAdded(base, rows[..n], k, d)
    {
      ghost var was := d;
      assert EntryAfter(base, rows[..n], k, was, rows[n].id);
      ghost var before, after := rows[..n], rows[..n + 1];
      d := AddRow(d, rows[n], n + 1, k);
      forall id
        ensures EntryAfter(base, after, k, d, id)
      {
        assert EntryAfter(base, before, k, was, id);
        EntryMore(base, rows, n, k, was, id);
      }
      assert after[..n] == before;
    }
    assert rows[..|rows|] == rows;
  }

  /** The fused dictionaries: every id of either arm once, with both arms' reciprocal ranks added up. */
  ghost predicate Accumulated(cosine: seq<Row>, fts: seq<Row>, k: nat, d: Dicts) {
    && Distinct(d.order) && d.order == OrderAfter(OrderAfter([], cosine), fts)
    && (forall id :: id in d.order <==> HasId(cosine, id) || HasId(fts, id))
    && (forall id :: (id in d.scores <==> id in d.order) && (id in d.texts <==> id in d.order))
    && (forall id | id in d.scores :: d.scores[id] == Fused(cosine, fts, k, id))
    && forall id | id in d.texts :: IsTextOf(cosine, fts, id, d.texts[id])
  }

  method Fuse(cosine: seq<Row>, fts: seq<Row>, k: nat) returns (d: Dicts)
    ensures Accumulated(cosine, fts, k, d)
  {
    var first := AddArm(NO_DICTS, cosine, k);
    forall id
      ensures (id in first.scores <==> id in first.order) && (id in first.texts <==> id in first.order)
    {
      assert EntryAfter(NO_DICTS, cosine, k, first, id);
    }
    d := AddArm(first, fts, k);
    forall id
      ensures id in d.order <==> HasId(cosine, id) || HasId(fts, id)
      ensures (id in d.scores <==> id in d.order) && (id in d.texts <==> id in d.order)
      ensures id in d.scores ==> d.scores[id] == Fused(cosine, fts, k, id) && IsTextOf(cosine, fts, id, d.texts[id])
    {
      assert EntryAfter(NO_DICTS, cosine, k, first, id);
      assert EntryAfter(first, fts, k, d, id);
      if !HasId(cosine, id) {
        ArmScoreAbsent(cosine, k, id);
      }
    }
  }

  /** Ties are broken by the vector arm's ranking first: its ids come first, in its order. */
  lemma {:induction false} VectorArmFirst(cosine: seq<Row>, fts: seq<Row>)
    requires DistinctIds(cosine)
    ensures var order := OrderAfter(OrderAfter([], cosine), fts);
            |cosine| <= |order| && forall i | 0 <= i < |cosine| :: order[i] == cosine[i].id
    decreases |cosine| + |fts|
  {
    if fts != [] {
      VectorArmFirst(cosine, fts[..|fts| - 1]);
    } else if cosine != [] {
      var last := |cosine| - 1;
      VectorArmFirst(cosine[..last], []);
      VectorArmExactly(cosine);
    }
  }

  lemma {:induction false} VectorArmExactly(cosine: seq<Row>)
    requires DistinctIds(cosine)
    ensures |OrderAfter([], cosine)| == |cosine| && forall i | 0 <= i < |cosine| :: OrderAfter([], cosine)[i] == cosine[i].id
  {
    if cosine != [] {
      VectorArmExactly(cosine[..|cosine| - 1]);
    }
  }

  lemma HasIdMore(rows: seq<Row>, n: nat, id: string)
    requires n < |rows|
    ensures HasId(rows[..n + 1], id) <==> HasId(rows[..n], id) || rows[n].id == id
  {
  }

  /** A chunk's cosine similarity: from the vector arm, else looked up, else zero. */
  ghost function Similarity(cosine: seq<Row>, extra: map<string, real>, id: string): real
    decreases |cosine|
  {
    if cosine == [] then if id in extra then extra[id] else 0.0
    else if cosine[|cosine| - 1].id == id then cosine[|cosine| - 1].score
    else Similarity(cosine[..|cosine| - 1], extra, id)
  }

  /** `extra` answers for the ids the vector arm did not return. */
  method Similarities(cosine: seq<Row>, extra: map<string, real>, order: seq<string>) returns (similarity: map<string, real>)
    requires DistinctIds(cosine)
    ensures forall id | id in order :: (if id in similarity then similarity[id] else 0.0) == Similarity(cosine, extra, id)
  {
    similarity := map[];
    for n := 0 to |cosine|
      invariant forall id :: id in similarity <==> HasId(cosine[..n], id)
      invariant forall id :: (if id in similarity then similarity[id] else if id in extra then extra[id] else 0.0)
                             == Similarity(cosine[..n], extra, id)
    {
      forall id
        ensures HasId(cosine[..n + 1], id) <==> HasId(cosine[..n], id) || cosine[n].id == id
      {
        HasIdMore(cosine, n, id);
      }
      assert cosine[..n + 1][..n] == cosine[..n];
      similarity := similarity[cosine[n].id := cosine[n].score];
    }
    assert cosine[..|cosine|] == cosine;
    var missing := set id | id in order && id !in similarity;
    similarity := similarity + map id | id in missing && id in extra :: extra[id];
  }

  /** The ids whose similarity is at or above the floor, in the same order. */
  ghost function AboveFloor(ids: seq<string>, cosine: seq<Row>, extra: map<string, real>, floor: real): seq<string> {
    if ids == [] then []
    else
      var last := ids[|ids| - 1];
      AboveFloor(ids[..|ids| - 1], cosine, extra, floor)
      + if Similarity(cosine, extra, last) >= floor then [last] else []
  }

  lemma {:induction false} AboveFloorKeeps(ids: seq<string>, cosine: seq<Row>, extra: map<string, real>, floor: real,
                                           order: seq<string>, scores: map<string, real>)
    requires Scored(ids, scores) && Ranked(order, scores, ids)
    ensures var kept := AboveFloor(ids, cosine, extra, floor);
            && Scored(kept, scores) && Ranked(order, scores, kept)
            && forall id :: id in kept <==> id in ids && Similarity(cosine, extra, id) >= floor
  {
    if ids != [] {
      var short, last := ids[..|ids| - 1], ids[|ids| - 1];
      AboveFloorKeeps(short, cosine, extra, floor, order, scores);
      var kept := AboveFloor(short, cosine, extra, floor);
      assert ids == short + [last];
      assert forall i | 0 <= i < |kept| :: kept[i] in kept;
      LastIsBelow(order, scores, ids, kept);
    }
  }

  lemma LastIsBelow(order: seq<string>, scores: map<string, real>, ids: seq<string>, kept: seq<string>)
    requires Scored(ids, scores) && Ranked(order, scores, ids) && Scored(kept, scores)
    requires ids != [] && forall i | 0 <= i < |kept| :: kept[i] in ids[..|ids| - 1]
    ensures forall i | 0 <= i < |kept| :: Above(order, scores, kept[i], ids[|ids| - 1])
  {
    forall i | 0 <= i < |kept|
      ensures Above(order, scores, kept[i], ids[|ids| - 1])
    {
      var m :| 0 <= m < |ids| - 1 && ids[..|ids| - 1][m] == kept[i];
      assert Above(order, scores, ids[m], ids[|ids| - 1]);
    }
  }

  /** The ids a list of chunks names. */
  function Ids(chunks: seq<Chunk>): (ids: seq<string>)
    ensures |ids| == |chunks| && forall i | 0 <= i < |ids| :: ids[i] == chunks[i].id
  {
    seq(|chunks|, i requires 0 <= i < |chunks| => chunks[i].id)
  }

  /**
   * What retrieval promises about its result: distinct candidates above the floor, at most
   * `limit` of them, best first with ties in first-seen order; and a candidate above the
   * floor is left out only if the result is full and every member ranks above it.
   */
  ghost predicate IsBest(cosine: seq<Row>, fts: seq<Row>, extra: map<string, real>, floor: real, limit: nat,
                         order: seq<string>, scores: map<string, real>, out: seq<Chunk>)
  {
    var ids := Ids(out);
    && |out| <= limit && Distinct(ids)
    && Scored(order, scores) && Scored(ids, scores) && Ranked(order, scores, ids)
    && (forall i | 0 <= i < |out| ::
          && out[i].id in order && out[i].similarity == Similarity(cosine, extra, out[i].id) >= floor
          && IsTextOf(cosine, fts, out[i].id, out[i].text))
    && forall id | id in order && id !in ids && Similarity(cosine, extra, id) >= floor ::
        |out| == limit && forall i | 0 <= i < |ids| :: Above(order, scores, ids[i], id)
  }

  ghost predicate IsRetrievedBy(cosine: seq<Row>, fts: seq<Row>, extra: map<string, real>, floor: real, limit: nat, k: nat,
                                out: seq<Chunk>, d: Dicts)
  {
    Accumulated(cosine, fts, k, d) && IsBest(cosine, fts, extra, floor, limit, d.order, d.scores, out)
  }

  /** The chunks retrieved: the best by fused score, whichever dictionaries hold the scores. */
  ghost predicate AreRetrieved(cosine: seq<Row>, fts: seq<Row>, extra: map<string, real>, floor: real, limit: nat, k: nat,
                               out: seq<Chunk>)
  {
    exists d :: IsRetrievedBy(cosine, fts, extra, floor, limit, k, out, d)
  }

  method RetrieveChunks(cosine: seq<Row>, fts: seq<Row>, extra: map<string, real>, floor: real, limit: nat, k: nat)
    returns (out: seq<Chunk>, ghost d: Dicts)
    requires DistinctIds(cosine)
    ensures AreRetrieved(cosine, fts, extra, floor, limit, k, out)
    ensures IsRetrievedBy(cosine, fts, extra, floor, limit, k, out, d)
  {
    var dicts := Fuse(cosine, fts, k);
    d := dicts;
    var similarity := Similarities(cosine, extra, dicts.order);
    var ranked := SortByScore(dicts.order, dicts.scores);
    assert dicts.order[0..] == dicts.order;
    SortRanks(dicts.order, dicts.scores, 0);
    SameMembers(ranked, dicts.order);
    var kept := KeepAboveFloor(cosine, fts, extra, floor, ranked, similarity, dicts.texts);
    AboveFloorKeeps(ranked, cosine, extra, floor, d.order, d.scores);
    out := kept[..if |kept| < limit then |kept| else limit];
    BestOfKept(cosine, fts, extra, floor, limit, d.order, d.scores, ranked, kept, out);
    assert IsRetrievedBy(cosine, fts, extra, floor, limit, k, out, d);
  }

  lemma SameMembers(a: seq<string>, b: seq<string>)
    requires multiset(a) == multiset(b)
    ensures forall id :: id in a <==> id in b
  {
    assert forall id :: id in a <==> id in multiset(a);
    assert forall id :: id in b <==> id in multiset(b);
  }

  lemma AboveFloorMore(ids: seq<string>, n: nat, cosine: seq<Row>, extra: map<string, real>, floor: real)
    requires n < |ids|
    ensures AboveFloor(ids[..n + 1], cosine, extra, floor)
            == AboveFloor(ids[..n], cosine, extra, floor) + if Similarity(cosine, extra, ids[n]) >= floor then [ids[n]] else []
  {
    assert ids[..n + 1][..n] == ids[..n];
  }

  /** The chunk carries its id's similarity and one of its rows' texts. */
  ghost predicate IsChunkOf(cosine: seq<Row>, fts: seq<Row>, extra: map<string, real>, chunk: Chunk) {
    chunk.similarity == Similarity(cosine, extra, chunk.id) && IsTextOf(cosine, fts, chunk.id, chunk.text)
  }

  /** The chunks at or above the floor, in ranking order. */
  method KeepAboveFloor(ghost cosine: seq<Row>, ghost fts: seq<Row>, ghost extra: map<string, real>, floor: real,
                        ranked: seq<string>, similarity: map<string, real>, texts: map<string, string>)
    returns (kept: seq<Chunk>)
    requires forall id | id in ranked :: id in texts && IsTextOf(cosine, fts, id, texts[id])
    requires forall id | id in ranked :: (if id in similarity then similarity[id] else 0.0) == Similarity(cosine, extra, id)
    ensures Ids(kept) == AboveFloor(ranked, cosine, extra, floor)
    ensures forall i | 0 <= i < |kept| :: IsChunkOf(cosine, fts, extra, kept[i])
  {
    kept := [];
    for n := 0 to |ranked|
      invariant Ids(kept) == AboveFloor(ranked[..n], cosine, extra, floor)
      invariant forall i | 0 <= i < |kept| :: IsChunkOf(cosine, fts, extra, kept[i])
    {
      var id := ranked[n];
      assert id in ranked;
      AboveFloorMore(ranked, n, cosine, extra, floor);
      var s := if id in similarity then similarity[id] else 0.0;
      if s >= floor {
        kept := kept + [Chunk(id, texts[id], s)];
      }
    }
    assert ranked[..|ranked|] == ranked;
  }

  lemma BestOfKept(cosine: seq<Row>, fts: seq<Row>, extra: map<string, real>, floor: real, limit: nat, order: seq<string>,
                   scores: map<string, real>, ranked: seq<string>, kept: seq<Chunk>, out: seq<Chunk>)
    requires Distinct(order) && Scored(order, scores)
    requires forall id :: id in ranked <==> id in order
    requires forall i | 0 <= i < |kept| :: IsChunkOf(cosine, fts, extra, kept[i])
    requires Scored(Ids(kept), scores) && Ranked(order, scores, Ids(kept))
    requires forall id :: id in Ids(kept) <==> id in ranked && Similarity(cosine, extra, id) >= floor
    requires out == kept[..if |kept| < limit then |kept| else limit]
    ensures IsBest(cosine, fts, extra, floor, limit, order, scores, out)
  {
    var ids, all := Ids(out), Ids(kept);
    assert ids == all[..|ids|];
    forall i, j | 0 <= i < j < |ids|
      ensures Above(order, scores, ids[i], ids[j]) && ids[i] != ids[j]
    {
      assert Above(order, scores, all[i], all[j]);
      NotAboveSelf(order, scores, all[i]);
    }
    forall i | 0 <= i < |out|
      ensures out[i].id in order && out[i].similarity == Similarity(cosine, extra, out[i].id) >= floor
    {
      assert all[i] in all;
    }
    forall id | id in order && id !in ids && Similarity(cosine, extra, id) >= floor
      ensures |out| == limit && forall i | 0 <= i < |ids| :: Above(order, scores, ids[i], id)
    {
      assert id in all;
      var m :| 0 <= m < |all| && all[m] == id;
      assert forall i | 0 <= i < |ids| :: ids[i] == all[i];
      assert m >= |ids|;
      forall i | 0 <= i < |ids|
        ensures Above(order, scores, ids[i], id)
      {
        assert Above(order, scores, all[i], all[m]);
      }
    }
  }

  /** Down a ranking the scores never rise. */
  lemma RankedFalls(order: seq<string>, scores: map<string, real>, ids: seq<string>, i: nat, j: nat)
    requires Scored(ids, scores) && Ranked(order, scores, ids) && i <= j < |ids|
    ensures scores[ids[i]] >= scores[ids[j]]
  {
  }

  lemma NotAboveSelf(order: seq<string>, scores: map<string, real>, a: string)
    requires Distinct(order) && a in scores
    ensures !Above(order, scores, a, a)
  {
  }
}

/**
 * The nightly purge of demo orgs: batches of the oldest overdue requests, deleted with
 * their drafts and audit rows. A DELETE may remove only some of the rows it is given (a
 * policy, or another session, took the others), and the loop must end and count all the same.
 */
module Retention {
  import opened Records

  function Stale(db: Db, org: nat, cutoff: int): set<nat> {
    set id | id in db.requests && db.requests[id].org == org && db.requests[id].createdAt < cutoff
  }

  /** The ids are in order of age, oldest first. */
  ghost predicate ByAge(db: Db, ids: seq<nat>) {
    && (forall i | 0 <= i < |ids| :: ids[i] in db.requests)
    && forall i, j | 0 <= i < j < |ids| :: ids[i] != ids[j] && db.requests[ids[i]].createdAt <= db.requests[ids[j]].createdAt
  }

  ghost predicate NoneOlder(db: Db, ids: seq<nat>, others: set<nat>)
    requires (forall i | 0 <= i < |ids| :: ids[i] in db.requests) && forall id | id in others :: id in db.requests
  {
    forall i, id | 0 <= i < |ids| && id in others :: db.requests[ids[i]].createdAt <= db.requests[id].createdAt
  }

  function Members(ids: seq<nat>): set<nat> {
    set i | 0 <= i < |ids| :: ids[i]
  }

  /** `order by created_at asc limit n`: the overdue ones, or the `limit` oldest of them. */
  ghost predicate AreOldest(db: Db, org: nat, cutoff: int, limit: nat, ids: seq<nat>) {
    && ByAge(db, ids) && |ids| <= limit && Members(ids) <= Stale(db, org, cutoff)
    && NoneOlder(db, ids, Stale(db, org, cutoff) - Members(ids))
    && (|ids| < limit ==> Members(ids) == Stale(db, org, cutoff))
  }

  lemma {:induction false} OldestExists(db: Db, ids: set<nat>) returns (oldest: nat)
    requires ids != {} && forall id | id in ids :: id in db.requests
    ensures oldest in ids && forall id | id in ids :: db.requests[oldest].createdAt <= db.requests[id].createdAt
  {
    var some :| some in ids;
    var rest := ids - {some};
    if rest == {} {
      assert ids == {some};
      oldest := some;
    } else {
      var other := OldestExists(db, rest);
      oldest := if db.requests[other].createdAt < db.requests[some].createdAt then other else some;
      assert forall id | id in ids :: id == some || id in rest;
    }
  }

  lemma OldestAdded(db: Db, org: nat, cutoff: int, ids: seq<nat>, id: nat)
    requires ByAge(db, ids) && Members(ids) <= Stale(db, org, cutoff)
    requires NoneOlder(db, ids, Stale(db, org, cutoff) - Members(ids))
    requires id in Stale(db, org, cutoff) - Members(ids)
    requires forall o | o in Stale(db, org, cutoff) - Members(ids) :: db.requests[id].createdAt <= db.requests[o].createdAt
    ensures Members(ids + [id]) == Members(ids) + {id} && ByAge(db, ids + [id])
    ensures NoneOlder(db, ids + [id], Stale(db, org, cutoff) - Members(ids + [id]))
  {
    var more := ids + [id];
    assert forall i | 0 <= i < |ids| :: more[i] == ids[i] && ids[i] in Members(ids);
    assert more[|ids|] == id;
    forall m
      ensures m in Members(more) <==> m in Members(ids) + {id}
    {
      if m in Members(ids) {
        var i :| 0 <= i < |ids| && ids[i] == m;
        assert more[i] == m;
      }
    }
  }

  method SelectStale(store: Store, org: nat, cutoff: int, limit: nat) returns (ids: seq<nat>)
    ensures AreOldest(store.db, org, cutoff, limit, ids)
  {
    ids := [];
    var left := Stale(store.db, org, cutoff);
    while |ids| < limit && left != {}
      invariant ByAge(store.db, ids) && |ids| <= limit && Members(ids) <= Stale(store.db, org, cutoff)
      invariant left == Stale(store.db, org, cutoff) - Members(ids)
      invariant NoneOlder(store.db, ids, left)
    {
      ghost var some := OldestExists(store.db, left);
      var id :| id in left && forall o | o in left :: store.db.requests[id].createdAt <= store.db.requests[o].createdAt;
      OldestAdded(store.db, org, cutoff, ids, id);
      ids := ids + [id];
      left := left - {id};
    }
    assert left == {} ==> forall id | id in Stale(store.db, org, cutoff) :: id !in left;
  }

  /**
   * Deletes requests, with their drafts and audit rows, and reports how many: all of them if
   * deletes are effective, and otherwise any of them.
   */
  method DeleteRequests(store: Store, ids: seq<nat>, effective: bool) returns (rowCount: nat, ghost removed: set<nat>)
    modifies store
    ensures removed <= Members(ids) && rowCount == |removed| && store.db == PurgeRows(old(store.db), removed)
    ensures effective ==> removed == Members(ids)
  {
    var some: set<nat> :| some <= Members(ids) && (effective ==> some == Members(ids));
    store.db := PurgeRows(store.db, some);
    rowCount, removed := |some|, some;
  }

  // ---- what purging twice does --------------------------------------------------------------------

  lemma SurvivingPushed(actions: seq<Action>, last: Action, gone: set<nat>)
    ensures Surviving(actions + [last], gone) == Surviving(actions, gone) + if last.request in gone then [] else [last]
  {
    assert (actions + [last])[..|actions|] == actions;
  }

  lemma {:induction false} TwicePushed(actions: seq<Action>, short: seq<Action>, last: Action, a: set<nat>, b: set<nat>)
    requires actions == short + [last] && Surviving(Surviving(short, a), b) == Surviving(short, a + b)
    ensures Surviving(Surviving(actions, a), b) == Surviving(actions, a + b)
  {
    var kept := Surviving(short, a);
    SurvivingPushed(short, last, a);
    SurvivingPushed(short, last, a + b);
    if last.request in a {
      assert Surviving(short + [last], a) == kept;
    } else {
      assert Surviving(short + [last], a) == kept + [last];
      SurvivingPushed(kept, last, b);
    }
  }

  lemma {:induction false} SurvivingTwice(actions: seq<Action>, a: set<nat>, b: set<nat>)
    ensures Surviving(Surviving(actions, a), b) == Surviving(actions, a + b)
  {
    if actions != [] {
      var short, last := actions[..|actions| - 1], actions[|actions| - 1];
      assert actions == short + [last];
      SurvivingTwice(short, a, b);
      TwicePushed(actions, short, last, a, b);
    }
  }

  lemma PurgeTwice(db: Db, a: set<nat>, b: set<nat>)
    ensures PurgeRows(PurgeRows(db, a), b) == PurgeRows(db, a + b)
  {
    SurvivingTwice(db.actions, a, b);
    var once, twice := PurgeRows(db, a + b), PurgeRows(PurgeRows(db, a), b);
    assert once.requests == twice.requests && once.drafts == twice.drafts;
  }

  lemma {:induction false} SurvivingAll(actions: seq<Action>)
    ensures Surviving(actions, {}) == actions
  {
    if actions != [] {
      var short, last := actions[..|actions| - 1], actions[|actions| - 1];
      SurvivingAll(short);
      assert Surviving(actions, {}) == Surviving(short, {}) + [last];
      assert actions == short + [last];
    }
  }

  lemma PurgeNone(db: Db)
    ensures PurgeRows(db, {}) == db
  {
    SurvivingAll(db.actions);
    assert PurgeRows(db, {}).requests == db.requests && PurgeRows(db, {}).drafts == db.drafts;
  }

  lemma StaleAfter(db: Db, gone: set<nat>, org: nat, cutoff: int)
    ensures Stale(PurgeRows(db, gone), org, cutoff) == Stale(db, org, cutoff) - gone
  {
  }

  // ---- one org --------------------------------------------------------------------------------------

  /** One transaction of the loop: the ids it selected, and those its DELETE removed. */
  datatype Batch = Batch(ids: seq<nat>, removed: set<nat>)

  /** What the first `k` batches removed. */
  ghost function Removed(batches: seq<Batch>, k: nat): set<nat>
    requires k <= |batches|
  {
    if k == 0 then {} else Removed(batches, k - 1) + batches[k - 1].removed
  }

  /** Batch `k` selected the oldest overdue requests that the earlier batches left, and removed some of them. */
  ghost predicate IsBatch(start: Db, org: nat, cutoff: int, batchSize: nat, batches: seq<Batch>, k: nat)
    requires k < |batches|
  {
    && AreOldest(PurgeRows(start, Removed(batches, k)), org, cutoff, batchSize, batches[k].ids)
    && batches[k].removed <= Members(batches[k].ids)
  }

  ghost predicate IsEffective(batch: Batch) {
    batch.removed == Members(batch.ids)
  }

  ghost predicate AllEffective(batches: seq<Batch>, n: nat)
    requires n <= |batches|
  {
    forall k | 0 <= k < n :: IsEffective(batches[k])
  }

  ghost predicate AreBatches(start: Db, org: nat, cutoff: int, batchSize: nat, batches: seq<Batch>) {
    forall k | 0 <= k < |batches| :: IsBatch(start, org, cutoff, batchSize, batches, k)
  }

  /** Each of the first `n` transactions removed a whole batch. */
  ghost predicate WholeUpTo(batches: seq<Batch>, n: nat, batchSize: nat)
    requires n <= |batches|
  {
    forall k | 0 <= k < n :: |batches[k].removed| == batchSize
  }

  /** A whole purge of an org: it stops at the first transaction that removed less than a whole batch. */
  ghost predicate IsPurge(start: Db, org: nat, cutoff: int, batchSize: nat, batches: seq<Batch>) {
    && batches != [] && |batches[|batches| - 1].removed| < batchSize
    && WholeUpTo(batches, |batches| - 1, batchSize) && AreBatches(start, org, cutoff, batchSize, batches)
  }

  lemma {:induction false} RemovedOfLonger(batches: seq<Batch>, batch: Batch, k: nat)
    requires k <= |batches|
    ensures Removed(batches + [batch], k) == Removed(batches, k)
  {
    if k > 0 {
      RemovedOfLonger(batches, batch, k - 1);
    }
  }

  /** Everything that is removed was overdue, and nothing is removed twice. */
  lemma {:induction false} RemovedIsStale(start: Db, org: nat, cutoff: int, batchSize: nat, batches: seq<Batch>, k: nat)
    requires k <= |batches| && AreBatches(start, org, cutoff, batchSize, batches)
    ensures Removed(batches, k) <= Stale(start, org, cutoff)
    ensures k < |batches| ==> batches[k].removed !! Removed(batches, k)
  {
    if k > 0 {
      RemovedIsStale(start, org, cutoff, batchSize, batches, k - 1);
      StaleAfter(start, Removed(batches, k - 1), org, cutoff);
      assert IsBatch(start, org, cutoff, batchSize, batches, k - 1);
    }
    if k < |batches| {
      StaleAfter(start, Removed(batches, k), org, cutoff);
      assert IsBatch(start, org, cutoff, batchSize, batches, k);
    }
  }

  /** The loop goes on only after a batch whose DELETE removed all it was given. */
  lemma {:induction false} FullIsEffective(start: Db, org: nat, cutoff: int, batchSize: nat, batches: seq<Batch>, k: nat)
    requires AreBatches(start, org, cutoff, batchSize, batches) && k < |batches|
    requires |batches[k].removed| == batchSize
    ensures IsEffective(batches[k])
  {
    assert IsBatch(start, org, cutoff, batchSize, batches, k);
    OldestMembers(PurgeRows(start, Removed(batches, k)), org, cutoff, batchSize, batches[k].ids);
    SubsetOfSize(batches[k].removed, Members(batches[k].ids));
  }

  lemma SubsetOfSize(a: set<nat>, b: set<nat>)
    requires a <= b && |b| <= |a|
    ensures a == b
  {
    assert |b - a| == |b| - |a|;
  }

  lemma OldestMembers(db: Db, org: nat, cutoff: int, limit: nat, ids: seq<nat>)
    requires AreOldest(db, org, cutoff, limit, ids)
    ensures Members(ids) <= Stale(db, org, cutoff) && |Members(ids)| == |ids| <= limit
    ensures |ids| < limit ==> Members(ids) == Stale(db, org, cutoff)
  {
    MembersCount(db, ids);
  }

  lemma NothingLeft(stale: set<nat>, gone: set<nat>, members: set<nat>, removed: set<nat>)
    requires gone <= stale && members <= stale - gone && removed <= members
    requires removed == members ==> members == stale - gone
    ensures gone + removed == stale <==> removed == members
  {
    if gone + removed == stale {
      assert forall id | id in members :: id in removed;
    }
  }

  /** A last batch, which is not a whole one, completes the purge exactly if its DELETE removed all it was given. */
  lemma LastBatch(start: Db, org: nat, cutoff: int, batchSize: nat, gone: set<nat>, batch: Batch)
    requires gone <= Stale(start, org, cutoff) && |batch.removed| < batchSize && batch.removed <= Members(batch.ids)
    requires AreOldest(PurgeRows(start, gone), org, cutoff, batchSize, batch.ids)
    ensures gone + batch.removed == Stale(start, org, cutoff) <==> IsEffective(batch)
  {
    StaleAfter(start, gone, org, cutoff);
    OldestMembers(PurgeRows(start, gone), org, cutoff, batchSize, batch.ids);
    NothingLeft(Stale(start, org, cutoff), gone, Members(batch.ids), batch.removed);
  }

  /**
   * The purge is complete, with every overdue request of the org removed, if and only if its
   * last DELETE removed all it was given: the earlier ones always did.
   */
  lemma {:induction false} PurgeCompleteIff(start: Db, org: nat, cutoff: int, batchSize: nat, batches: seq<Batch>)
    requires IsPurge(start, org, cutoff, batchSize, batches)
    ensures Removed(batches, |batches|) == Stale(start, org, cutoff) <==> IsEffective(batches[|batches| - 1])
    ensures AllEffective(batches, |batches| - 1)
  {
    var last := |batches| - 1;
    assert IsBatch(start, org, cutoff, batchSize, batches, last);
    RemovedIsStale(start, org, cutoff, batchSize, batches, last);
    LastBatch(start, org, cutoff, batchSize, Removed(batches, last), batches[last]);
    forall k | 0 <= k < last
      ensures IsEffective(batches[k])
    {
      FullIsEffective(start, org, cutoff, batchSize, batches, k);
    }
  }

  /** Oldest first: what a batch removes is not younger than any overdue request it leaves, whether that goes later or not. */
  lemma {:induction false} OldestFirst(start: Db, org: nat, cutoff: int, batchSize: nat, batches: seq<Batch>, k: nat, id: nat, other: nat)
    requires IsPurge(start, org, cutoff, batchSize, batches) && k < |batches| - 1
    requires id in batches[k].removed && other in Stale(start, org, cutoff) - Removed(batches, k + 1)
    ensures id in start.requests && start.requests[id].createdAt <= start.requests[other].createdAt
  {
    var ids, gone := batches[k].ids, Removed(batches, k);
    var db := PurgeRows(start, gone);
    assert IsBatch(start, org, cutoff, batchSize, batches, k);
    StaleAfter(start, gone, org, cutoff);
    FullIsEffective(start, org, cutoff, batchSize, batches, k);
    assert id in Members(ids) && other in Stale(db, org, cutoff) - Members(ids);
    var i :| 0 <= i < |ids| && ids[i] == id;
  }

  /** What one transaction does: it removes some of the oldest requests, or all of these if deletes are effective. */
  ghost predicate IsTurn(before: Db, after: Db, org: nat, cutoff: int, batchSize: nat, batch: Batch, effective: bool) {
    && AreOldest(before, org, cutoff, batchSize, batch.ids) && batch.removed <= Members(batch.ids)
    && after == PurgeRows(before, batch.removed) && (effective ==> IsEffective(batch))
  }

  /** One transaction of the loop: select a batch, and delete it if there is any. */
  method PurgeBatch(store: Store, org: nat, cutoff: int, batchSize: nat, effective: bool)
    returns (deletedCount: nat, ghost batch: Batch)
    modifies store
    ensures IsTurn(old(store.db), store.db, org, cutoff, batchSize, batch, effective) && deletedCount == |batch.removed|
  {
    var selected := SelectStale(store, org, cutoff, batchSize);
    if selected == [] {
      PurgeNone(store.db);
      return 0, Batch([], {});
    }
    ghost var removed;
    deletedCount, removed := DeleteRequests(store, selected, effective);
    batch := Batch(selected, removed);
  }

  /** One more transaction. */
  lemma {:induction false} BatchAdded(start: Db, org: nat, cutoff: int, batchSize: nat, batches: seq<Batch>, batch: Batch)
    requires AreBatches(start, org, cutoff, batchSize, batches) && batch.removed <= Members(batch.ids)
    requires AreOldest(PurgeRows(start, Removed(batches, |batches|)), org, cutoff, batchSize, batch.ids)
    ensures AreBatches(start, org, cutoff, batchSize, batches + [batch])
    ensures Removed(batches + [batch], |batches| + 1) == Removed(batches, |batches|) + batch.removed
  {
    var more, n := batches + [batch], |batches|;
    RemovedOfLonger(batches, batch, n);
    forall k | 0 <= k < |more|
      ensures IsBatch(start, org, cutoff, batchSize, more, k)
    {
      if k < n {
        RemovedOfLonger(batches, batch, k);
        assert more[k] == batches[k] && IsBatch(start, org, cutoff, batchSize, batches, k);
      }
    }
  }

  /** The rows after a purge's transactions, and their count. */
  ghost predicate Purged(start: Db, db: Db, batches: seq<Batch>, total: nat) {
    db == PurgeRows(start, Removed(batches, |batches|)) && total == |Removed(batches, |batches|)|
  }

  lemma {:induction false} BatchPurged(start: Db, db: Db, org: nat, cutoff: int, batchSize: nat, batches: seq<Batch>, total: nat, batch: Batch)
    requires AreBatches(start, org, cutoff, batchSize, batches) && batch.removed <= Members(batch.ids)
    requires Purged(start, db, batches, total) && AreOldest(db, org, cutoff, batchSize, batch.ids)
    ensures AreBatches(start, org, cutoff, batchSize, batches + [batch])
    ensures Purged(start, PurgeRows(db, batch.removed), batches + [batch], total + |batch.removed|)
    ensures var gone := Removed(batches, |batches|);
            && Removed(batches + [batch], |batches| + 1) == gone + batch.removed <= Stale(start, org, cutoff)
            && gone !! batch.removed
  {
    var more, gone := batches + [batch], Removed(batches, |batches|);
    BatchAdded(start, org, cutoff, batchSize, batches, batch);
    PurgeTwice(start, gone, batch.removed);
    RemovedOfLonger(batches, batch, |batches|);
    RemovedIsStale(start, org, cutoff, batchSize, more, |batches|);
    RemovedIsStale(start, org, cutoff, batchSize, more, |batches| + 1);
    assert |gone + batch.removed| == |gone| + |batch.removed|;
  }

  /** The loop between two transactions: every batch was whole. */
  ghost predicate Purging(start: Db, db: Db, org: nat, cutoff: int, batchSize: nat, batches: seq<Batch>, total: nat) {
    && Purged(start, db, batches, total) && AreBatches(start, org, cutoff, batchSize, batches)
    && WholeUpTo(batches, |batches|, batchSize)
  }

  ghost function Left(start: Db, org: nat, cutoff: int, batches: seq<Batch>): nat {
    |Stale(start, org, cutoff) - Removed(batches, |batches|)|
  }

  /** A whole purge and its count; if deletes are effective it removed every overdue request. */
  ghost predicate IsPurged(start: Db, db: Db, org: nat, cutoff: int, batchSize: nat, batches: seq<Batch>, total: nat,
                           effective: bool)
  {
    && IsPurge(start, org, cutoff, batchSize, batches) && Purged(start, db, batches, total)
    && (effective ==> Removed(batches, |batches|) == Stale(start, org, cutoff))
  }

  /** A short batch ends the purge. */
  lemma {:induction false} ShortTurn(start: Db, db: Db, after: Db, org: nat, cutoff: int, batchSize: nat, batches: seq<Batch>, total: nat,
                                     batch: Batch, effective: bool)
    requires Purging(start, db, org, cutoff, batchSize, batches, total) && |batch.removed| < batchSize
    requires IsTurn(db, after, org, cutoff, batchSize, batch, effective)
    ensures IsPurged(start, after, org, cutoff, batchSize, batches + [batch], total + |batch.removed|, effective)
  {
    BatchPurged(start, db, org, cutoff, batchSize, batches, total, batch);
    WholeBefore(batches, batch, batchSize);
    PurgeCompleteIff(start, org, cutoff, batchSize, batches + [batch]);
  }

  lemma {:induction false} WholeBefore(batches: seq<Batch>, batch: Batch, batchSize: nat)
    requires WholeUpTo(batches, |batches|, batchSize)
    ensures WholeUpTo(batches + [batch], |batches|, batchSize)
    ensures |batch.removed| == batchSize ==> WholeUpTo(batches + [batch], |batches| + 1, batchSize)
  {
  }

  /** A whole batch leaves fewer requests. */
  lemma {:induction false} WholeTurn(start: Db, db: Db, after: Db, org: nat, cutoff: int, batchSize: nat, batches: seq<Batch>, total: nat,
                                     batch: Batch, effective: bool)
    requires batchSize > 0 && Purging(start, db, org, cutoff, batchSize, batches, total) && |batch.removed| >= batchSize
    requires IsTurn(db, after, org, cutoff, batchSize, batch, effective)
    ensures Purging(start, after, org, cutoff, batchSize, batches + [batch], total + |batch.removed|)
    ensures Left(start, org, cutoff, batches + [batch]) < Left(start, org, cutoff, batches)
  {
    BatchPurged(start, db, org, cutoff, batchSize, batches, total, batch);
    OldestMembers(db, org, cutoff, batchSize, batch.ids);
    SubsetSize(batch.removed, Members(batch.ids));
    WholeBefore(batches, batch, batchSize);
    FewerLeft(Stale(start, org, cutoff), Removed(batches, |batches|), batch.removed);
  }

  /**
   * Ends for every positive batch size, in a purge by batches of the oldest, and reports
   * exactly what was removed; if deletes are effective that is every overdue request.
   */
  method PurgeOrgRequests(store: Store, org: nat, cutoff: int, batchSize: nat, effective: bool)
    returns (total: nat, ghost batches: seq<Batch>)
    requires batchSize > 0
    modifies store
    ensures IsPurged(old(store.db), store.db, org, cutoff, batchSize, batches, total, effective)
  {
    ghost var start := store.db;
    total, batches := 0, [];
    PurgeNone(start);
    while true
      invariant Purging(start, store.db, org, cutoff, batchSize, batches, total)
      decreases Left(start, org, cutoff, batches)
    {
      ghost var before := store.db;
      var deletedCount;
      ghost var batch;
      deletedCount, batch := PurgeBatch(store, org, cutoff, batchSize, effective);
      ghost var was, counted := batches, total;
      total := total + deletedCount;
      batches := batches + [batch];
      if deletedCount < batchSize {
        ShortTurn(start, before, store.db, org, cutoff, batchSize, was, counted, batch, effective);
        return;
      }
      WholeTurn(start, before, store.db, org, cutoff, batchSize, was, counted, batch, effective);
    }
  }

  lemma SubsetSize(a: set<nat>, b: set<nat>)
    requires a <= b
    ensures |a| <= |b|
  {
    assert |b - a| == |b| - |a|;
  }

  lemma FewerLeft(stale: set<nat>, gone: set<nat>, removed: set<nat>)
    requires gone + removed <= stale && gone !! removed && |removed| > 0
    ensures |stale - (gone + removed)| < |stale - gone|
  {
  }

  lemma {:induction false} MembersCount(db: Db, ids: seq<nat>)
    requires ByAge(db, ids)
    ensures |Members(ids)| == |ids|
  {
    if ids != [] {
      var short, last := ids[..|ids| - 1], ids[|ids| - 1];
      MembersCount(db, short);
      assert forall i | 0 <= i < |short| :: short[i] == ids[i];
      forall m
        ensures m in Members(ids) <==> m in Members(short) + {last}
      {
        if m in Members(short) {
          var i :| 0 <= i < |short| && short[i] == m;
          assert ids[i] == m;
        }
        assert ids[|ids| - 1] == last;
        if m in Members(ids) && m != last {
          var i :| 0 <= i < |ids| && ids[i] == m;
          assert short[i] == m;
        }
      }
      assert Members(ids) == Members(short) + {last};
      assert last !in Members(short);
    }
  }

  // ---- all demo orgs ------------------------------------------------------------------------------

  datatype Org = Org(id: nat, slug: string, isDemo: bool)

  datatype PurgeOrgResult = PurgeOrgResult(orgId: nat, orgSlug: string, deletedCount: nat)

  /** The overdue requests of the demo orgs among the first `n`. */
  ghost function DemoStale(db: Db, orgs: seq<Org>, n: nat, cutoff: int): set<nat>
    requires n <= |orgs|
  {
    set id | id in db.requests && db.requests[id].createdAt < cutoff && IsDemo(orgs, n, db.requests[id].org)
  }

  ghost predicate IsDemo(orgs: seq<Org>, n: nat, org: nat)
    requires n <= |orgs|
  {
    exists k | 0 <= k < n :: orgs[k].isDemo && orgs[k].id == org
  }

  ghost predicate DistinctOrgs(orgs: seq<Org>) {
    forall i, j | 0 <= i < j < |orgs| :: orgs[i].id != orgs[j].id
  }

  ghost function Deleted(results: seq<PurgeOrgResult>): nat {
    if results == [] then 0 else Deleted(results[..|results| - 1]) + results[|results| - 1].deletedCount
  }

  /** What the purges of the first `n` orgs removed. */
  ghost function RemovedAtAll(purges: seq<seq<Batch>>, n: nat): set<nat>
    requires n <= |purges|
  {
    if n == 0 then {} else RemovedAtAll(purges, n - 1) + Removed(purges[n - 1], |purges[n - 1]|)
  }

  /** One line of the report for each demo org among the first `n`, in order, with the size of its purge. */
  ghost function Report(orgs: seq<Org>, purges: seq<seq<Batch>>, n: nat): seq<PurgeOrgResult>
    requires n <= |orgs| && n <= |purges|
  {
    if n == 0 then []
    else
      var org, gone := orgs[n - 1], Removed(purges[n - 1], |purges[n - 1]|);
      Report(orgs, purges, n - 1) + if org.isDemo then [PurgeOrgResult(org.id, org.slug, |gone|)] else []
  }

  /** A demo org's purge, as if it were the only one; no other org has any. */
  ghost predicate IsOrgPurge(start: Db, org: Org, cutoff: int, batchSize: nat, batches: seq<Batch>) {
    if org.isDemo then IsPurge(start, org.id, cutoff, batchSize, batches) else batches == []
  }

  lemma DemoMore(db: Db, orgs: seq<Org>, n: nat, cutoff: int)
    requires DistinctOrgs(orgs) && n < |orgs|
    ensures DemoStale(db, orgs, n + 1, cutoff)
            == DemoStale(db, orgs, n, cutoff) + if orgs[n].isDemo then Stale(db, orgs[n].id, cutoff) else {}
    ensures DemoStale(db, orgs, n, cutoff) !! Stale(db, orgs[n].id, cutoff)
  {
  }

  ghost predicate AreOrgPurges(start: Db, orgs: seq<Org>, n: nat, cutoff: int, batchSize: nat, purges: seq<seq<Batch>>)
    requires n <= |orgs|
  {
    |purges| == n && forall i | 0 <= i < n :: IsOrgPurge(start, orgs[i], cutoff, batchSize, purges[i])
  }

  lemma {:induction false} OrgPurgeAdded(start: Db, orgs: seq<Org>, n: nat, cutoff: int, batchSize: nat, purges: seq<seq<Batch>>,
                      batches: seq<Batch>)
    requires n < |orgs| && AreOrgPurges(start, orgs, n, cutoff, batchSize, purges)
    requires IsOrgPurge(start, orgs[n], cutoff, batchSize, batches)
    ensures AreOrgPurges(start, orgs, n + 1, cutoff, batchSize, purges + [batches])
  {
    var all := purges + [batches];
    forall i | 0 <= i < n + 1
      ensures IsOrgPurge(start, orgs[i], cutoff, batchSize, all[i])
    {
      if i < n {
        assert all[i] == purges[i];
      }
    }
  }

  /** The purges of the first `n` orgs, their report, and what they removed. */
  ghost predicate AreDemoPurges(start: Db, orgs: seq<Org>, n: nat, cutoff: int, batchSize: nat, results: seq<PurgeOrgResult>,
                                purges: seq<seq<Batch>>, effective: bool)
    requires n <= |orgs|
  {
    && AreOrgPurges(start, orgs, n, cutoff, batchSize, purges)
    && RemovedAtAll(purges, n) <= DemoStale(start, orgs, n, cutoff)
    && results == Report(orgs, purges, n) && Deleted(results) == |RemovedAtAll(purges, n)|
    && (effective ==> RemovedAtAll(purges, n) == DemoStale(start, orgs, n, cutoff))
  }

  ghost predicate DemoPurging(start: Db, db: Db, orgs: seq<Org>, n: nat, cutoff: int, batchSize: nat,
                              results: seq<PurgeOrgResult>, purges: seq<seq<Batch>>, effective: bool)
    requires n <= |orgs|
  {
    && AreDemoPurges(start, orgs, n, cutoff, batchSize, results, purges, effective)
    && db == PurgeRows(start, RemovedAtAll(purges, n))
  }

  /**
   * Every demo org is purged, and each reported with what its purge removed; only overdue
   * requests of demo orgs go, with what hangs on them; if deletes are effective all of them do.
   */
  method PurgeDemoOrgs(store: Store, orgs: seq<Org>, cutoff: int, batchSize: nat, effective: bool)
    returns (results: seq<PurgeOrgResult>, ghost purges: seq<seq<Batch>>)
    requires batchSize > 0 && DistinctOrgs(orgs)
    modifies store
    ensures DemoPurging(old(store.db), store.db, orgs, |orgs|, cutoff, batchSize, results, purges, effective)
  {
    ghost var start := store.db;
    results, purges := [], [];
    PurgeNone(start);
    for n := 0 to |orgs|
      invariant DemoPurging(start, store.db, orgs, n, cutoff, batchSize, results, purges, effective)
    {
      if orgs[n].isDemo {
        var total;
        ghost var batches;
        ghost var before := store.db;
        total, batches := PurgeOrgRequests(store, orgs[n].id, cutoff, batchSize, effective);
        DemoPurged(start, before, orgs, n, cutoff, batchSize, results, purges, effective, batches);
        results := results + [PurgeOrgResult(orgs[n].id, orgs[n].slug, total)];
        purges := purges + [batches];
      } else {
        OrgSkipped(start, store.db, orgs, n, cutoff, batchSize, results, purges, effective);
        purges := purges + [[]];
      }
    }
  }

  lemma {:induction false} PurgesMore(orgs: seq<Org>, purges: seq<seq<Batch>>, batches: seq<Batch>, n: nat)
    requires n <= |purges| && n <= |orgs|
    ensures RemovedAtAll(purges + [batches], n) == RemovedAtAll(purges, n)
    ensures Report(orgs, purges + [batches], n) == Report(orgs, purges, n)
  {
    if n > 0 {
      PurgesMore(orgs, purges, batches, n - 1);
    }
  }

  lemma {:induction false} PurgesNext(orgs: seq<Org>, purges: seq<seq<Batch>>, batches: seq<Batch>)
    requires |purges| < |orgs|
    ensures var n, more, gone := |purges|, purges + [batches], Removed(batches, |batches|);
            && RemovedAtAll(more, n + 1) == RemovedAtAll(purges, n) + gone
            && Report(orgs, more, n + 1)
               == Report(orgs, purges, n) + if orgs[n].isDemo then [PurgeOrgResult(orgs[n].id, orgs[n].slug, |gone|)] else []
  {
    PurgesMore(orgs, purges, batches, |purges|);
  }

  lemma {:induction false} OrgSkipped(start: Db, db: Db, orgs: seq<Org>, n: nat, cutoff: int, batchSize: nat,
                                      results: seq<PurgeOrgResult>, purges: seq<seq<Batch>>, effective: bool)
    requires n < |orgs| && !orgs[n].isDemo && DemoPurging(start, db, orgs, n, cutoff, batchSize, results, purges, effective)
    ensures DemoPurging(start, db, orgs, n + 1, cutoff, batchSize, results, purges + [[]], effective)
  {
    OrgPurgeAdded(start, orgs, n, cutoff, batchSize, purges, []);
    SkippedSame(start, orgs, purges, cutoff);
  }

  lemma {:induction false} SkippedSame(start: Db, orgs: seq<Org>, purges: seq<seq<Batch>>, cutoff: int)
    requires |purges| < |orgs| && !orgs[|purges|].isDemo
    ensures RemovedAtAll(purges + [[]], |purges| + 1) == RemovedAtAll(purges, |purges|)
    ensures Report(orgs, purges + [[]], |purges| + 1) == Report(orgs, purges, |purges|)
    ensures DemoStale(start, orgs, |purges| + 1, cutoff) == DemoStale(start, orgs, |purges|, cutoff)
  {
    PurgesNext(orgs, purges, []);
  }

  lemma {:induction false} DemoPurged(start: Db, before: Db, orgs: seq<Org>, n: nat, cutoff: int, batchSize: nat,
                                      results: seq<PurgeOrgResult>, purges: seq<seq<Batch>>, effective: bool, batches: seq<Batch>)
    requires n < |orgs| && DistinctOrgs(orgs) && orgs[n].isDemo
    requires DemoPurging(start, before, orgs, n, cutoff, batchSize, results, purges, effective)
    requires IsPurge(before, orgs[n].id, cutoff, batchSize, batches)
    requires effective ==> Removed(batches, |batches|) == Stale(before, orgs[n].id, cutoff)
    ensures var more := Removed(batches, |batches|);
            DemoPurging(start, PurgeRows(before, more), orgs, n + 1, cutoff, batchSize,
                        results + [PurgeOrgResult(orgs[n].id, orgs[n].slug, |more|)], purges + [batches], effective)
  {
    var gone, more, org := RemovedAtAll(purges, n), Removed(batches, |batches|), orgs[n].id;
    DemoMore(start, orgs, n, cutoff);
    RemovedIsStale(before, org, cutoff, batchSize, batches, |batches|);
    OrgPurged(start, before, gone, org, cutoff, more);
    PurgeElsewhere(start, gone, org, cutoff, batchSize, batches);
    DemoAdded(start, orgs, n, cutoff, batchSize, results, purges, effective, batches);
  }

  lemma {:induction false} DemoAdded(start: Db, orgs: seq<Org>, n: nat, cutoff: int, batchSize: nat,
                                     results: seq<PurgeOrgResult>, purges: seq<seq<Batch>>, effective: bool, batches: seq<Batch>)
    requires n < |orgs| && DistinctOrgs(orgs) && orgs[n].isDemo
    requires AreDemoPurges(start, orgs, n, cutoff, batchSize, results, purges, effective)
    requires IsPurge(start, orgs[n].id, cutoff, batchSize, batches)
    requires var more := Removed(batches, |batches|);
             && more <= Stale(start, orgs[n].id, cutoff) && (effective ==> more == Stale(start, orgs[n].id, cutoff))
    ensures var more, all := Removed(batches, |batches|), purges + [batches];
            && RemovedAtAll(all, n + 1) == RemovedAtAll(purges, n) + more
            && AreDemoPurges(start, orgs, n + 1, cutoff, batchSize,
                             results + [PurgeOrgResult(orgs[n].id, orgs[n].slug, |more|)], all, effective)
  {
    var gone, more := RemovedAtAll(purges, n), Removed(batches, |batches|);
    DemoMore(start, orgs, n, cutoff);
    PurgesNext(orgs, purges, batches);
    OrgPurgeAdded(start, orgs, n, cutoff, batchSize, purges, batches);
    DeletedMore(results, PurgeOrgResult(orgs[n].id, orgs[n].slug, |more|));
    assert gone !! more && |gone + more| == |gone| + |more|;
  }

  lemma DeletedMore(results: seq<PurgeOrgResult>, last: PurgeOrgResult)
    ensures Deleted(results + [last]) == Deleted(results) + last.deletedCount
  {
    assert (results + [last])[..|results|] == results;
  }

  lemma OrgPurged(start: Db, db: Db, gone: set<nat>, org: nat, cutoff: int, more: set<nat>)
    requires db == PurgeRows(start, gone) && more <= Stale(db, org, cutoff) && gone !! Stale(start, org, cutoff)
    ensures PurgeRows(db, more) == PurgeRows(start, gone + more)
    ensures Stale(db, org, cutoff) == Stale(start, org, cutoff)
  {
    PurgeTwice(start, gone, more);
    StaleAfter(start, gone, org, cutoff);
  }

  lemma OldestElsewhere(start: Db, gone: set<nat>, removed: set<nat>, org: nat, cutoff: int, limit: nat, ids: seq<nat>)
    requires gone !! Stale(start, org, cutoff)
    requires AreOldest(PurgeRows(PurgeRows(start, gone), removed), org, cutoff, limit, ids)
    ensures AreOldest(PurgeRows(start, removed), org, cutoff, limit, ids)
  {
    var db, there := PurgeRows(start, removed), PurgeRows(PurgeRows(start, gone), removed);
    assert Stale(db, org, cutoff) == Stale(there, org, cutoff);
    assert forall i | 0 <= i < |ids| :: ids[i] in Members(ids);
  }

  /** What other orgs' purges removed makes no difference to this one's. */
  lemma {:induction false} PurgeElsewhere(start: Db, gone: set<nat>, org: nat, cutoff: int, batchSize: nat, batches: seq<Batch>)
    requires gone !! Stale(start, org, cutoff) && IsPurge(PurgeRows(start, gone), org, cutoff, batchSize, batches)
    ensures IsPurge(start, org, cutoff, batchSize, batches)
  {
    forall k | 0 <= k < |batches|
      ensures IsBatch(start, org, cutoff, batchSize, batches, k)
    {
      assert IsBatch(PurgeRows(start, gone), org, cutoff, batchSize, batches, k);
      OldestElsewhere(start, gone, Removed(batches, k), org, cutoff, batchSize, batches[k].ids);
    }
  }

  // ---- what is left --------------------------------------------------------------------------------

  /** Rows are dropped by request: those that stay keep their values, and drafts and audit rows go exactly with their request. */
  ghost predicate IsLeft(start: Db, db: Db, gone: set<nat>) {
    && gone <= start.requests.Keys
    && (forall id :: id in db.requests <==> id in start.requests && id !in gone)
    && (forall id | id in db.requests :: db.requests[id] == start.requests[id])
    && (forall k :: k in db.drafts <==> k in start.drafts && k.request !in gone)
    && (forall k | k in db.drafts :: db.drafts[k] == start.drafts[k])
    && forall a :: a in db.actions <==> a in start.actions && a.request !in gone
  }

  /** A purge drops only requests of the org created before the cutoff, and counts them; if deletes are effective, all of these. */
  lemma {:induction false} PurgeLeaves(start: Db, db: Db, org: nat, cutoff: int, batchSize: nat, batches: seq<Batch>, total: nat,
                                       effective: bool) returns (gone: set<nat>)
    requires IsPurged(start, db, org, cutoff, batchSize, batches, total, effective)
    ensures IsLeft(start, db, gone) && total == |gone|
    ensures forall id | id in gone :: start.requests[id].org == org && start.requests[id].createdAt < cutoff
    ensures effective ==> forall id | id in db.requests && db.requests[id].org == org :: db.requests[id].createdAt >= cutoff
  {
    gone := Removed(batches, |batches|);
    RemovedIsStale(start, org, cutoff, batchSize, batches, |batches|);
    assert forall id | id in gone :: id in Stale(start, org, cutoff);
    assert effective ==> forall id | id in db.requests && id in Stale(start, org, cutoff) :: id in gone;
  }

  /** The nightly purge does so for the demo orgs, and for no other. */
  lemma {:induction false} DemoLeaves(start: Db, db: Db, orgs: seq<Org>, cutoff: int, batchSize: nat,
                                      results: seq<PurgeOrgResult>, purges: seq<seq<Batch>>, effective: bool)
    returns (gone: set<nat>)
    requires DemoPurging(start, db, orgs, |orgs|, cutoff, batchSize, results, purges, effective)
    ensures IsLeft(start, db, gone) && Deleted(results) == |gone|
    ensures forall id | id in gone ::
      start.requests[id].createdAt < cutoff && exists i :: 0 <= i < |orgs| && orgs[i].isDemo && orgs[i].id == start.requests[id].org
    ensures effective ==> forall id, i | id in db.requests && 0 <= i < |orgs| && orgs[i].isDemo && orgs[i].id == db.requests[id].org ::
      db.requests[id].createdAt >= cutoff
  {
    gone := RemovedAtAll(purges, |orgs|);
    forall id | id in gone
      ensures id in start.requests && start.requests[id].createdAt < cutoff
      ensures exists i :: 0 <= i < |orgs| && orgs[i].isDemo && orgs[i].id == start.requests[id].org
    {
      assert id in DemoStale(start, orgs, |orgs|, cutoff);
      assert IsDemo(orgs, |orgs|, start.requests[id].org);
    }
    forall id, i | effective && id in db.requests && 0 <= i < |orgs| && orgs[i].isDemo && orgs[i].id == db.requests[id].org
      ensures db.requests[id].createdAt >= cutoff
    {
      assert IsDemo(orgs, |orgs|, start.requests[id].org);
      assert id in DemoStale(start, orgs, |orgs|, cutoff) <==> start.requests[id].createdAt < cutoff;
    }
  }
}

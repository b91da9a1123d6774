/**
 * Transactions one after the other, each reading what it writes from. Here an approved reply
 * is the latest draft, and a resolution is final as long as triage does not commit after it.
 */
module SerialHistory {
  import opened Options
  import opened Records
  import opened StaffActions

  datatype Tx =
    | Insert(org: nat, id: nat, createdAt: int)
    | Triage(org: nat, id: nat, result: TriageResult)
    | ApproveBy(org: nat, actor: string, id: nat)
    | EditBy(org: nat, actor: string, id: nat, body: string)
    | RejectBy(org: nat, actor: string, id: nat, reason: string)
    | Purge(gone: set<nat>)

  predicate Possible(db: Db, tx: Tx) {
    match tx
    case Insert(_, id, _) => id !in db.requests
    case Triage(org, id, result) => IsTriaged(result.status) && result.draft.org == org
    case _ => true
  }

  function Apply(db: Db, tx: Tx): Db {
    match tx
    case Insert(org, id, at) => db.(requests := db.requests[id := Request(org, at, Received, None, None, false)])
    case Triage(org, id, result) =>
      (match TriageWrites(db, org, id, NextVersion(db, id), result) case None => db case Some(after) => after)
    case ApproveBy(org, actor, id) => ApproveTx(db, org, actor, id).db
    case EditBy(org, actor, id, body) => EditTx(db, org, actor, id, body).db
    case RejectBy(org, actor, id, reason) => RejectTx(db, org, actor, id, reason).db
    case Purge(gone) => PurgeRows(db, gone)
  }

  ghost predicate IsStep(dbs: seq<Db>, txs: seq<Tx>, k: nat)
    requires k < |txs| < |dbs|
  {
    Possible(dbs[k], txs[k]) && dbs[k + 1] == Apply(dbs[k], txs[k])
  }

  ghost predicate IsSerialRun(dbs: seq<Db>, txs: seq<Tx>) {
    && |dbs| == |txs| + 1 && dbs[0] == EMPTY_DB
    && forall k {:trigger txs[k]} | 0 <= k < |txs| :: IsStep(dbs, txs, k)
  }

  // ---- the reply is the latest draft -------------------------------------------------------------

  ghost predicate ReplyIsLatest(db: Db, id: nat)
    requires id in db.requests
  {
    db.requests[id].status == Approved ==>
      && LatestVersion(db, id).Some?
      && db.requests[id].reply == Some(db.drafts[DraftKey(id, LatestVersion(db, id).value)].body)
  }

  ghost predicate RepliesCurrent(db: Db) {
    Stacked(db) && forall id | id in db.requests :: ReplyIsLatest(db, id)
  }

  /** Two databases with the same drafts on a request have the same latest one. */
  lemma SameLatest(db: Db, after: Db, id: nat)
    requires forall v: nat :: DraftKey(id, v) in db.drafts <==> DraftKey(id, v) in after.drafts
    ensures LatestVersion(after, id) == LatestVersion(db, id)
  {
  }

  /** A request the step leaves alone keeps what it had. */
  lemma OtherStays(db: Db, after: Db, id: nat)
    requires id in db.requests && id in after.requests && after.requests[id] == db.requests[id] && ReplyIsLatest(db, id)
    requires forall v: nat :: DraftKey(id, v) in db.drafts <==> DraftKey(id, v) in after.drafts
    requires forall v: nat | DraftKey(id, v) in db.drafts :: after.drafts[DraftKey(id, v)] == db.drafts[DraftKey(id, v)]
    ensures ReplyIsLatest(after, id)
  {
  }

  lemma NextIsNew(db: Db, id: nat)
    requires Stacked(db)
    ensures var v := NextVersion(db, id);
            1 <= v && DraftKey(id, v) !in db.drafts && (v > 1 ==> DraftKey(id, v - 1) in db.drafts)
  {
  }

  lemma TriageCommits(db: Db, org: nat, id: nat, result: TriageResult)
    requires Stacked(db) && result.draft.org == org && Owned(db, org, id)
    ensures TriageWrites(db, org, id, NextVersion(db, id), result).Some?
    ensures var after := TriageWrites(db, org, id, NextVersion(db, id), result).value;
            && Stacked(after) && after.requests.Keys == db.requests.Keys && after.actions == db.actions
            && after.requests[id] == db.requests[id].(status := result.status, routing := Some(result.routing))
            && (forall other | other in db.requests && other != id :: after.requests[other] == db.requests[other])
            && after.drafts == db.drafts[DraftKey(id, NextVersion(db, id)) := result.draft]
  {
    NextIsNew(db, id);
    var after := TriageWrites(db, org, id, NextVersion(db, id), result).value;
    var mid := db.(requests := after.requests);
    AllOwned(db);
    StaysStacked(db, mid);
    PushStacked(mid, DraftKey(id, NextVersion(db, id)), result.draft);
  }

  lemma TriageCurrent(db: Db, org: nat, id: nat, result: TriageResult)
    requires RepliesCurrent(db) && IsTriaged(result.status) && result.draft.org == org
    ensures RepliesCurrent(Apply(db, Triage(org, id, result)))
  {
    var after := Apply(db, Triage(org, id, result));
    if Owned(db, org, id) {
      TriageCommits(db, org, id, result);
      forall other | other in after.requests
        ensures ReplyIsLatest(after, other)
      {
        assert ReplyIsLatest(db, other);
        if other != id {
          OtherStays(db, after, other);
        }
      }
    } else {
      assert after == db;
    }
  }

  /** A staff action that went through: one request's row changed, and perhaps its drafts. */
  lemma ActedCurrent(db: Db, after: Db, id: nat, action: Action)
    requires RepliesCurrent(db) && OnlyActs(db, after, id, action) && ReplyIsLatest(after, id)
    requires after.drafts == db.drafts
             || exists v, draft :: IsNextDraft(db, id, v, draft) && after.drafts == db.drafts[DraftKey(id, v) := draft]
    ensures RepliesCurrent(after)
  {
    AllOwned(db);
    var mid := db.(requests := after.requests);
    StaysStacked(db, mid);
    if after.drafts != db.drafts {
      var v, draft :| IsNextDraft(db, id, v, draft) && after.drafts == db.drafts[DraftKey(id, v) := draft];
      NextIsNew(db, id);
      PushStacked(mid, DraftKey(id, v), draft);
    }
    SameStack(mid.(drafts := after.drafts), after);
    forall other | other in after.requests
      ensures ReplyIsLatest(after, other)
    {
      if other != id {
        assert ReplyIsLatest(db, other);
        OtherStays(db, after, other);
      }
    }
  }

  ghost predicate IsNextDraft(db: Db, id: nat, v: nat, draft: Draft) {
    v == NextVersion(db, id) && Owned(db, draft.org, id)
  }

  lemma SameStack(db: Db, after: Db)
    requires Stacked(db) && after.drafts == db.drafts && after.requests == db.requests
    ensures Stacked(after)
  {
    AllOwned(db);
    StaysStacked(db, after);
  }

  lemma StaffCurrent(db: Db, tx: Tx)
    requires RepliesCurrent(db) && (tx.ApproveBy? || tx.EditBy? || tx.RejectBy?)
    ensures RepliesCurrent(Apply(db, tx))
  {
    var after := Apply(db, tx);
    match tx
    case ApproveBy(org, actor, id) =>
      ApproveMeans(db, org, actor, id);
      if after != db {
        var a :| OnlyActs(db, after, id, a);
        SameLatest(db, after, id);
        ActedCurrent(db, after, id, a);
      }
    case EditBy(org, actor, id, body) =>
      EditMeans(db, org, actor, id, body);
      if after != db {
        var a :| OnlyActs(db, after, id, a);
        assert IsNextDraft(db, id, NextVersion(db, id), StaffDraft(org, body));
        ActedCurrent(db, after, id, a);
      }
    case RejectBy(org, actor, id, reason) =>
      RejectMeans(db, org, actor, id, reason);
      if after != db {
        var a :| OnlyActs(db, after, id, a);
        ActedCurrent(db, after, id, a);
      }
  }

  lemma InsertCurrent(db: Db, org: nat, id: nat, at: int)
    requires RepliesCurrent(db) && id !in db.requests
    ensures RepliesCurrent(Apply(db, Insert(org, id, at)))
  {
    var after := Apply(db, Insert(org, id, at));
    AllOwned(db);
    StaysStacked(db, after);
    forall other | other in after.requests
      ensures ReplyIsLatest(after, other)
    {
      if other != id {
        assert ReplyIsLatest(db, other);
        OtherStays(db, after, other);
      }
    }
  }

  lemma PurgeCurrent(db: Db, gone: set<nat>)
    requires RepliesCurrent(db)
    ensures RepliesCurrent(PurgeRows(db, gone))
  {
    var after := PurgeRows(db, gone);
    AllOwned(db);
    StaysStacked(db, after);
    forall id | id in after.requests
      ensures ReplyIsLatest(after, id)
    {
      assert ReplyIsLatest(db, id);
      OtherStays(db, after, id);
    }
  }

  lemma {:induction false} RunCurrent(dbs: seq<Db>, txs: seq<Tx>, k: nat)
    requires IsSerialRun(dbs, txs) && k <= |txs|
    ensures RepliesCurrent(dbs[k])
  {
    if k > 0 {
      RunCurrent(dbs, txs, k - 1);
      assert IsStep(dbs, txs, k - 1);
      match txs[k - 1]
      case Insert(org, id, at) => InsertCurrent(dbs[k - 1], org, id, at);
      case Triage(org, id, result) => TriageCurrent(dbs[k - 1], org, id, result);
      case Purge(gone) => PurgeCurrent(dbs[k - 1], gone);
      case _ => StaffCurrent(dbs[k - 1], txs[k - 1]);
    }
  }

  /** In every serial run an approved request's reply is the body of its highest draft version. */
  lemma ApprovedReplyIsLatestDraft(dbs: seq<Db>, txs: seq<Tx>, k: nat, id: nat)
    requires IsSerialRun(dbs, txs) && k <= |txs| && id in dbs[k].requests && dbs[k].requests[id].status == Approved
    ensures LatestVersion(dbs[k], id).Some?
    ensures dbs[k].requests[id].reply == Some(dbs[k].drafts[DraftKey(id, LatestVersion(dbs[k], id).value)].body)
  {
    RunCurrent(dbs, txs, k);
    assert ReplyIsLatest(dbs[k], id);
  }

  // ---- a resolution is final unless triage reopens it ----------------------------------------------

  predicate Triages(db: Db, tx: Tx, id: nat) {
    tx.Triage? && tx.id == id && Owned(db, tx.org, id)
  }

  /** Exactly one kind of transaction changes a resolved request that it leaves there: a triage run on it. */
  lemma OnlyTriageReopens(db: Db, tx: Tx, id: nat)
    requires Stacked(db) && Possible(db, tx) && id in db.requests && IsResolved(db.requests[id].status)
    requires id in Apply(db, tx).requests
    ensures Apply(db, tx).requests[id] != db.requests[id] <==> Triages(db, tx, id)
  {
  }

  /** An open request has no audit row and no reply; a resolved one has one row, which says what is stored. */
  ghost predicate Audited(db: Db, id: nat)
    requires id in db.requests
  {
    var row, mine := db.requests[id], ActionsOf(db.actions, id);
    if IsResolved(row.status) then
      |mine| == 1 && mine[0].after == Snapshot(row.status, row.reply, LatestVersion(db, id))
    else mine == [] && row.reply == None
  }

  /** A staff action that went through, on this request or on another. */
  lemma ActedAudited(db: Db, after: Db, acted: nat, action: Action, id: nat)
    requires OnlyActs(db, after, acted, action) && id in db.requests && Audited(db, id)
    requires forall v: nat :: acted != id ==> (DraftKey(id, v) in db.drafts <==> DraftKey(id, v) in after.drafts)
    requires acted == id ==>
      && var row := after.requests[id];
      !IsResolved(db.requests[id].status) && IsResolved(row.status)
      && action.after == Snapshot(row.status, row.reply, LatestVersion(after, id))
    ensures Audited(after, id)
  {
  }

  lemma StaffAudited(db: Db, tx: Tx, id: nat)
    requires (tx.ApproveBy? || tx.EditBy? || tx.RejectBy?) && id in db.requests && Audited(db, id)
    ensures id in Apply(db, tx).requests && Audited(Apply(db, tx), id)
  {
    var after := Apply(db, tx);
    match tx
    case ApproveBy(org, actor, acted) =>
      ApproveMeans(db, org, actor, acted);
      if after != db {
        var a :| OnlyActs(db, after, acted, a) && a.after == Snapshot(Approved, after.requests[acted].reply, LatestVersion(db, acted));
        SameLatest(db, after, acted);
        ActedAudited(db, after, acted, a, id);
      }
    case EditBy(org, actor, acted, body) =>
      EditMeans(db, org, actor, acted, body);
      if after != db {
        var a :| OnlyActs(db, after, acted, a) && a.after == Snapshot(Approved, Some(body), Some(NextVersion(db, acted)));
        ActedAudited(db, after, acted, a, id);
      }
    case RejectBy(org, actor, acted, reason) =>
      RejectMeans(db, org, actor, acted, reason);
      if after != db {
        var a :| OnlyActs(db, after, acted, a) && a.after == Snapshot(Rejected, None, LatestVersion(db, acted));
        SameLatest(db, after, acted);
        ActedAudited(db, after, acted, a, id);
      }
  }

  lemma TriageAudited(db: Db, org: nat, triaged: nat, result: TriageResult, id: nat)
    requires Stacked(db) && IsTriaged(result.status) && result.draft.org == org && id in db.requests && Audited(db, id)
    requires Triages(db, Triage(org, triaged, result), id) ==> !IsResolved(db.requests[id].status)
    ensures id in Apply(db, Triage(org, triaged, result)).requests
    ensures Audited(Apply(db, Triage(org, triaged, result)), id)
  {
    var after := Apply(db, Triage(org, triaged, result));
    if Owned(db, org, triaged) {
      TriageCommits(db, org, triaged, result);
      if triaged != id {
        SameLatest(db, after, id);
      }
    }
  }

  lemma StepAudited(db: Db, tx: Tx, id: nat)
    requires Stacked(db) && Possible(db, tx) && id in db.requests && Audited(db, id) && id in Apply(db, tx).requests
    requires Triages(db, tx, id) ==> !IsResolved(db.requests[id].status)
    ensures Audited(Apply(db, tx), id)
  {
    match tx
    case Insert(_, _, _) => SameLatest(db, Apply(db, tx), id);
    case Triage(org, triaged, result) => TriageAudited(db, org, triaged, result, id);
    case Purge(gone) =>
      SurvivingOf(db.actions, gone, id);
      SameLatest(db, PurgeRows(db, gone), id);
    case _ => StaffAudited(db, tx, id);
  }

  /** Every transaction keeps the foreign key of the audit rows, so a request that is new has none. */
  lemma StepAuditOwned(db: Db, tx: Tx)
    requires AuditOwned(db) && Possible(db, tx)
    ensures AuditOwned(Apply(db, tx))
  {
    match tx
    case Triage(org, id, result) =>
    case ApproveBy(org, actor, id) => ApproveMeans(db, org, actor, id);
    case EditBy(org, actor, id, body) => EditMeans(db, org, actor, id, body);
    case RejectBy(org, actor, id, reason) => RejectMeans(db, org, actor, id, reason);
    case _ =>
  }

  lemma {:induction false} RunAuditOwned(dbs: seq<Db>, txs: seq<Tx>, k: nat)
    requires IsSerialRun(dbs, txs) && k <= |txs|
    ensures AuditOwned(dbs[k])
  {
    if k > 0 {
      RunAuditOwned(dbs, txs, k - 1);
      assert IsStep(dbs, txs, k - 1);
      StepAuditOwned(dbs[k - 1], txs[k - 1]);
    }
  }

  /** No triage run commits on the request while it is resolved. */
  ghost predicate NeverReopened(dbs: seq<Db>, txs: seq<Tx>, id: nat)
    requires |dbs| == |txs| + 1
  {
    forall k {:trigger txs[k]} | 0 <= k < |txs| ::
      Triages(dbs[k], txs[k], id) ==> !IsResolved(dbs[k].requests[id].status)
  }

  /** What is known of one transaction of such a run. */
  lemma StepOf(dbs: seq<Db>, txs: seq<Tx>, k: nat, id: nat)
    requires IsSerialRun(dbs, txs) && k < |txs| && NeverReopened(dbs, txs, id)
    ensures Stacked(dbs[k]) && AuditOwned(dbs[k]) && Possible(dbs[k], txs[k]) && dbs[k + 1] == Apply(dbs[k], txs[k])
    ensures Triages(dbs[k], txs[k], id) ==> !IsResolved(dbs[k].requests[id].status)
  {
    assert IsStep(dbs, txs, k);
    RunCurrent(dbs, txs, k);
    RunAuditOwned(dbs, txs, k);
  }

  /** A request that arrives has no audit row, because a row would have needed it. */
  lemma NextAudited(db: Db, tx: Tx, after: Db, id: nat)
    requires Stacked(db) && AuditOwned(db) && Possible(db, tx) && after == Apply(db, tx) && id in after.requests
    requires id in db.requests ==> Audited(db, id)
    requires Triages(db, tx, id) ==> !IsResolved(db.requests[id].status)
    ensures Audited(after, id)
  {
    if id in db.requests {
      StepAudited(db, tx, id);
    } else {
      ArrivesByInsert(db, tx, id);
      NoActions(db.actions, id);
    }
  }

  /**
   * In a serial run that never reopens a request, it has no audit row while it is open and
   * exactly one once it is resolved, whose after-snapshot is what is stored.
   */
  lemma {:induction false} OneAuditRow(dbs: seq<Db>, txs: seq<Tx>, k: nat, id: nat)
    requires IsSerialRun(dbs, txs) && k <= |txs| && NeverReopened(dbs, txs, id) && id in dbs[k].requests
    ensures Audited(dbs[k], id)
  {
    if k > 0 {
      var i := k - 1;
      StepOf(dbs, txs, i, id);
      if id in dbs[i].requests {
        OneAuditRow(dbs, txs, i, id);
      }
      NextAudited(dbs[i], txs[i], dbs[k], id);
    }
  }

  lemma ArrivesByInsert(db: Db, tx: Tx, id: nat)
    requires Stacked(db) && Possible(db, tx) && id !in db.requests && id in Apply(db, tx).requests
    ensures tx.Insert? && tx.id == id
  {
  }

  /** And its resolved row stays exactly as it is for as long as it is there. */
  lemma {:induction false} ResolvedIsFinal(dbs: seq<Db>, txs: seq<Tx>, j: nat, k: nat, id: nat)
    requires IsSerialRun(dbs, txs) && j <= k <= |txs| && NeverReopened(dbs, txs, id)
    requires forall i | j <= i <= k :: id in dbs[i].requests
    requires IsResolved(dbs[j].requests[id].status)
    ensures dbs[k].requests[id] == dbs[j].requests[id]
    decreases k - j
  {
    if j < k {
      StepOf(dbs, txs, j, id);
      OnlyTriageReopens(dbs[j], txs[j], id);
      ResolvedIsFinal(dbs, txs, j + 1, k, id);
    }
  }
}

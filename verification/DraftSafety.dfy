/**
 * What the drafts, the audit log and the tracking page keep over every run of the
 * lifecycle, although the writers read a version first and insert it later.
 */
module DraftSafety {
  import opened Options
  import opened Records
  import opened StaffActions
  import opened Tracking
  import opened Lifecycle

  // ---- the invariant ---------------------------------------------------------------------------

  /** Audit row `a` and draft `v` both say that `text` was published on the request. */
  ghost predicate IsRecord(db: Db, id: nat, text: string, a: Action, v: nat) {
    && a in db.actions && a.request == id && (a.kind == Approve || a.kind == Edit)
    && a.after == Snapshot(Approved, Some(text), Some(v))
    && DraftKey(id, v) in db.drafts && db.drafts[DraftKey(id, v)].body == text
  }

  ghost predicate Recorded(db: Db, id: nat, text: string) {
    exists a, v :: IsRecord(db, id, text, a, v)
  }

  ghost predicate RowFits(db: Db, id: nat)
    requires id in db.requests
  {
    var row := db.requests[id];
    row.status != Triaging && (row.status == Approved ==> row.reply.Some? && Recorded(db, id, row.reply.value))
  }

  ghost predicate DbFits(db: Db) {
    && Stacked(db) && AuditOwned(db)
    && forall id | id in db.requests :: RowFits(db, id)
  }

  /** The version a run has read still fits on the drafts, or below them, or the request is gone. */
  ghost predicate RunFits(db: Db, d: Delivery) {
    d.phase.Counted? && d.body.TriageMessage? && d.body.requestId in db.requests ==>
      1 <= d.phase.version && (d.phase.version > 1 ==> DraftKey(d.body.requestId, d.phase.version - 1) in db.drafts)
  }

  /** The draft a staff session has read is still there, as read, or the request is gone. */
  ghost predicate SessionFits(db: Db, tx: StaffTx) {
    tx.id in db.requests && !tx.reading.RowRead? ==>
      && (tx.reading.view.version.Some? ==>
            1 <= tx.reading.view.version.value && DraftKey(tx.id, tx.reading.view.version.value) in db.drafts)
      && (tx.reading.Picked? ==>
            var key := DraftKey(tx.id, tx.reading.version);
            key in db.drafts && db.drafts[key].body == tx.reading.body)
  }

  ghost predicate DraftsKept(w: World) {
    && DbFits(w.db)
    && (forall id | id in w.db.requests :: id in w.log.born)
    && (forall p | p in w.workers ::
          RunFits(w.db, w.workers[p])
          && (w.workers[p].phase.Counted? && w.workers[p].body.TriageMessage? ==> w.workers[p].body.requestId in w.log.born))
    && forall s | s in w.staff :: SessionFits(w.db, w.staff[s]) && w.staff[s].id in w.log.born
  }

  /** Nothing recorded of a request that is still there changes. */
  ghost predicate Keeps(db: Db, after: Db) {
    && (forall k | k in db.drafts && k.request in after.requests :: k in after.drafts && after.drafts[k] == db.drafts[k])
    && forall a | a in db.actions && a.request in after.requests :: a in after.actions
  }

  lemma RecordedStays(db: Db, after: Db, id: nat, text: string)
    requires Recorded(db, id, text) && Keeps(db, after) && id in after.requests
    ensures Recorded(after, id, text)
  {
    var a, v :| IsRecord(db, id, text, a, v);
    assert IsRecord(after, id, text, a, v);
  }

  // ---- the transactions keep it ------------------------------------------------------------------

  /** A write that puts one request's row and one new audit row, over drafts that fit. */
  lemma ResolvedFits(db: Db, after: Db, id: nat, row: Request, action: Action)
    requires DbFits(db) && Owned(db, row.org, id) && action.request == id && action.org == row.org
    requires after == Db(db.requests[id := row], db.drafts, db.actions + [action])
    requires row.status == Approved ==> row.reply.Some? && exists v :: IsRecord(after, id, row.reply.value, action, v)
    requires row.status != Triaging
    ensures DbFits(after) && Keeps(db, after)
  {
    assert forall a | a in db.actions :: a in after.actions;
    AllOwned(db);
    StaysStacked(db, after);
    forall other | other in after.requests
      ensures RowFits(after, other)
    {
      if other == id {
        assert row.status == Approved ==> Recorded(after, id, row.reply.value);
      } else if db.requests[other].status == Approved {
        assert RowFits(db, other);
        RecordedStays(db, after, other, db.requests[other].reply.value);
      } else {
        assert RowFits(db, other);
      }
    }
  }

  lemma DraftedFits(db: Db, key: DraftKey, draft: Draft)
    requires DbFits(db) && Owned(db, draft.org, key.request) && key !in db.drafts
    requires 1 <= key.version && (key.version > 1 ==> DraftKey(key.request, key.version - 1) in db.drafts)
    ensures var after := db.(drafts := db.drafts[key := draft]); DbFits(after) && Keeps(db, after)
  {
    var after := db.(drafts := db.drafts[key := draft]);
    PushStacked(db, key, draft);
    forall id | id in after.requests
      ensures RowFits(after, id)
    {
      assert RowFits(db, id);
      if db.requests[id].status == Approved {
        RecordedStays(db, after, id, db.requests[id].reply.value);
      }
    }
  }

  lemma TriageFits(db: Db, d: Delivery, result: TriageResult)
    requires DbFits(db) && d.body.TriageMessage? && d.phase.Counted? && RunFits(db, d)
    requires IsTriaged(result.status) && result.draft.org == d.body.orgId && Triaged(db, d, result).Some?
    ensures var after := Triaged(db, d, result).value;
            DbFits(after) && Keeps(db, after) && after.requests.Keys == db.requests.Keys
  {
    var id, after := d.body.requestId, Triaged(db, d, result).value;
    var mid := db.(requests := after.requests);
    assert mid.requests.Keys == db.requests.Keys;
    AllOwned(db);
    StaysStacked(db, mid);
    forall other | other in mid.requests
      ensures RowFits(mid, other)
    {
      assert RowFits(db, other);
      if other != id && db.requests[other].status == Approved {
        RecordedStays(db, mid, other, db.requests[other].reply.value);
      }
    }
    DraftedFits(mid, DraftKey(id, d.phase.version), result.draft);
  }

  lemma ApproveFits(db: Db, tx: StaffTx)
    requires DbFits(db) && tx.form == ApproveForm && CanFinish(tx) && SessionFits(db, tx) && Written(db, tx).Some?
    ensures var after := Written(db, tx).value;
            DbFits(after) && Keeps(db, after) && after.requests.Keys == db.requests.Keys
  {
    var after := Written(db, tx).value;
    var action := after.actions[|db.actions|];
    assert IsRecord(after, tx.id, tx.reading.body, action, tx.reading.version);
    ResolvedFits(db, after, tx.id, after.requests[tx.id], action);
  }

  lemma EditFits(db: Db, tx: StaffTx)
    requires DbFits(db) && tx.form.EditForm? && CanFinish(tx) && SessionFits(db, tx) && Written(db, tx).Some?
    ensures var after := Written(db, tx).value;
            DbFits(after) && Keeps(db, after) && after.requests.Keys == db.requests.Keys
  {
    var after := Written(db, tx).value;
    var key, draft := DraftKey(tx.id, EditedVersion(tx.reading.view)), StaffDraft(tx.org, tx.form.body);
    var mid := db.(drafts := db.drafts[key := draft]);
    DraftedFits(db, key, draft);
    var action := after.actions[|db.actions|];
    assert IsRecord(after, tx.id, tx.form.body, action, key.version);
    ResolvedFits(mid, after, tx.id, after.requests[tx.id], action);
  }

  lemma RejectFits(db: Db, tx: StaffTx)
    requires DbFits(db) && tx.form.RejectForm? && CanFinish(tx) && Written(db, tx).Some?
    ensures var after := Written(db, tx).value;
            DbFits(after) && Keeps(db, after) && after.requests.Keys == db.requests.Keys
  {
    var after := Written(db, tx).value;
    ResolvedFits(db, after, tx.id, after.requests[tx.id], after.actions[|db.actions|]);
  }

  lemma FinishFits(db: Db, tx: StaffTx)
    requires DbFits(db) && CanFinish(tx) && SessionFits(db, tx) && Written(db, tx).Some?
    ensures var after := Written(db, tx).value;
            DbFits(after) && Keeps(db, after) && after.requests.Keys == db.requests.Keys
  {
    match tx.form
    case ApproveForm => ApproveFits(db, tx);
    case EditForm(_) => EditFits(db, tx);
    case RejectForm(_) => RejectFits(db, tx);
  }

  lemma SubmitFits(db: Db, id: nat, row: Request)
    requires DbFits(db) && id !in db.requests && row.status == Received
    ensures var after := db.(requests := db.requests[id := row]); DbFits(after) && Keeps(db, after)
  {
    var after := db.(requests := db.requests[id := row]);
    AllOwned(db);
    StaysStacked(db, after);
    forall other | other in after.requests
      ensures RowFits(after, other)
    {
      if other != id {
        assert RowFits(db, other);
        if db.requests[other].status == Approved {
          RecordedStays(db, after, other, db.requests[other].reply.value);
        }
      }
    }
  }

  lemma PurgeFits(db: Db, gone: set<nat>)
    requires DbFits(db)
    ensures DbFits(PurgeRows(db, gone)) && Keeps(db, PurgeRows(db, gone))
  {
    var after := PurgeRows(db, gone);
    AllOwned(db);
    StaysStacked(db, after);
    forall id | id in after.requests
      ensures RowFits(after, id)
    {
      assert RowFits(db, id);
      if db.requests[id].status == Approved {
        RecordedStays(db, after, id, db.requests[id].reply.value);
      }
    }
  }

  // ---- every step keeps it -------------------------------------------------------------------------

  /** The step changes the database in a way that fits, and no request comes back from the dead. */
  ghost predicate DbMoves(w: World, next: World) {
    && DbFits(next.db) && Keeps(w.db, next.db)
    && (forall id | id in next.db.requests :: id in next.log.born)
    && (forall id | id in w.log.born :: id in next.log.born && (id in next.db.requests ==> id in w.db.requests))
  }

  lemma OthersFit(w: World, next: World)
    requires DraftsKept(w) && DbMoves(w, next)
    ensures forall p | p in w.workers :: RunFits(next.db, w.workers[p])
    ensures forall s | s in w.staff :: SessionFits(next.db, w.staff[s]) && w.staff[s].id in next.log.born
  {
  }

  lemma IntakeKeepsDrafts(w: World, step: IntakeStep)
    requires DraftsKept(w) && IntakeEnabled(w, step)
    ensures DraftsKept(IntakeNext(w, step)) && DbMoves(w, IntakeNext(w, step))
  {
    var next := IntakeNext(w, step);
    if step.Submit? {
      SubmitFits(w.db, step.id, next.db.requests[step.id]);
    }
    OthersFit(w, next);
  }

  lemma WorkKeepsDrafts(w: World, p: nat, step: WorkStep, ceiling: int)
    requires DraftsKept(w) && WorkEnabled(w, p, step)
    ensures DraftsKept(WorkNext(w, p, step, ceiling)) && DbMoves(w, WorkNext(w, p, step, ceiling))
  {
    var next := WorkNext(w, p, step, ceiling);
    if step.Commit? {
      assert RunFits(w.db, w.workers[p]);
      TriageFits(w.db, w.workers[p], step.result);
    }
    if step.Count? {
      CountFits(w.db, w.workers[p]);
    }
    assert DbMoves(w, next);
    OthersFit(w, next);
  }

  lemma CountFits(db: Db, d: Delivery)
    requires Stacked(db) && d.body.TriageMessage?
    ensures RunFits(db, d.(phase := Counted(NextVersion(db, d.body.requestId))))
  {
  }

  lemma DeskKeepsDrafts(w: World, s: nat, step: DeskStep)
    requires DraftsKept(w) && DeskEnabled(w, s, step)
    ensures DraftsKept(DeskNext(w, s, step)) && DbMoves(w, DeskNext(w, s, step))
  {
    var next := DeskNext(w, s, step);
    if step.Finish? {
      assert SessionFits(w.db, w.staff[s]);
      if Written(w.db, w.staff[s]).Some? {
        FinishFits(w.db, w.staff[s]);
      }
    } else if s in w.staff {
      assert SessionFits(w.db, w.staff[s]);
      AllOwned(w.db);
    }
    assert DbMoves(w, next);
    OthersFit(w, next);
  }

  lemma StepKeepsDrafts(w: World, e: Event, ceiling: int)
    requires DraftsKept(w) && Enabled(w, e)
    ensures DraftsKept(Next(w, e, ceiling)) && DbMoves(w, Next(w, e, ceiling))
  {
    match e
    case Intake(step) => IntakeKeepsDrafts(w, step);
    case Work(p, step) => WorkKeepsDrafts(w, p, step, ceiling);
    case Desk(s, step) => DeskKeepsDrafts(w, s, step);
    case Tick(_) => OthersFit(w, Next(w, e, ceiling));
    case Purge(gone) =>
      PurgeFits(w.db, gone);
      OthersFit(w, Next(w, e, ceiling));
  }

  lemma {:induction false} RunKeepsDrafts(ws: seq<World>, es: seq<Event>, ceiling: int, k: nat)
    requires IsRun(ws, es, ceiling) && k <= |es|
    ensures DraftsKept(ws[k])
  {
    if k > 0 {
      RunKeepsDrafts(ws, es, ceiling, k - 1);
      assert IsStep(ws, es, ceiling, k - 1);
      StepKeepsDrafts(ws[k - 1], es[k - 1], ceiling);
    }
  }

  // ---- what follows ----------------------------------------------------------------------------------

  /** However triage runs and staff edits interleave, a request's draft versions are exactly 1 up to the latest. */
  lemma VersionsAlwaysExact(ws: seq<World>, es: seq<Event>, ceiling: int, k: nat, id: nat)
    requires IsRun(ws, es, ceiling) && k <= |es|
    ensures forall v: nat :: DraftKey(id, v) in ws[k].db.drafts <==> 1 <= v < NextVersion(ws[k].db, id)
  {
    RunKeepsDrafts(ws, es, ceiling, k);
    VersionsExact(ws[k].db, id);
  }

  lemma {:induction false} StillLive(ws: seq<World>, es: seq<Event>, ceiling: int, j: nat, k: nat, id: nat)
    requires IsRun(ws, es, ceiling) && j <= k <= |es| && id in ws[j].log.born && id in ws[k].db.requests
    ensures id in ws[j].db.requests
    decreases k - j
  {
    if j < k {
      RunKeepsDrafts(ws, es, ceiling, j);
      assert IsStep(ws, es, ceiling, j);
      StepKeepsDrafts(ws[j], es[j], ceiling);
      StillLive(ws, es, ceiling, j + 1, k, id);
    }
  }

  /** A committed draft never changes, and an audit row never goes, while their request is there. */
  lemma {:induction false} RecordsNeverChange(ws: seq<World>, es: seq<Event>, ceiling: int, j: nat, k: nat, id: nat)
    requires IsRun(ws, es, ceiling) && j <= k <= |es| && id in ws[k].db.requests
    ensures forall key | key in ws[j].db.drafts && key.request == id ::
      key in ws[k].db.drafts && ws[k].db.drafts[key] == ws[j].db.drafts[key]
    ensures forall a | a in ws[j].db.actions && a.request == id :: a in ws[k].db.actions
    decreases k - j
  {
    if j < k {
      RunKeepsDrafts(ws, es, ceiling, j);
      assert IsStep(ws, es, ceiling, j);
      StepKeepsDrafts(ws[j], es[j], ceiling);
      RecordsNeverChange(ws, es, ceiling, j + 1, k, id);
      AllOwned(ws[j].db);
      if id in ws[j].log.born {
        StillLive(ws, es, ceiling, j + 1, k, id);
      }
    }
  }

  /**
   * Whatever interleaves, a tracking page that shows a reply shows one an approve or edit
   * audit row records together with the draft that has that body; the fallback to an empty
   * reply is never taken, because the row has one.
   */
  lemma TrackingIsRecorded(ws: seq<World>, es: seq<Event>, ceiling: int, k: nat, org: nat, id: nat)
    requires IsRun(ws, es, ceiling) && k <= |es|
    requires GetTrackingView(ws[k].db, Some((org, id))).ApprovedView?
    ensures var text := GetTrackingView(ws[k].db, Some((org, id))).replyText;
            ws[k].db.requests[id].reply == Some(text) && Recorded(ws[k].db, id, text)
  {
    RunKeepsDrafts(ws, es, ceiling, k);
    assert RowFits(ws[k].db, id);
  }

  /** The mark a triage run starts with is never seen in a committed state. */
  lemma NeverTriaging(ws: seq<World>, es: seq<Event>, ceiling: int, k: nat, id: nat)
    requires IsRun(ws, es, ceiling) && k <= |es| && id in ws[k].db.requests
    ensures ws[k].db.requests[id].status != Triaging
  {
    RunKeepsDrafts(ws, es, ceiling, k);
    assert RowFits(ws[k].db, id);
  }
}

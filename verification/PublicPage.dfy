/**
 * The public page over whole runs: what a requester sees follows the last thing that was
 * done to the request, and nothing else changes it.
 */
module PublicPage {
  import opened Options
  import opened Records
  import opened Tracking
  import opened Lifecycle
  import opened Resolutions

  /** What the page shows for a token that maps to this org and request. */
  ghost function Page(db: Db, org: nat, id: nat): TrackingView {
    GetTrackingView(db, Some((org, id)))
  }

  /** The page by cases: only an approved request shows a reply, and every other one its status. */
  lemma PageShows(db: Db, org: nat, id: nat)
    ensures GetTrackingView(db, None) == NotFound
    ensures Page(db, org, id) == NotFound <==> !(id in db.requests && db.requests[id].org == org)
    ensures id in db.requests && db.requests[id].org == org ==>
      var row := db.requests[id];
      && (Page(db, org, id).ApprovedView? <==> row.status == Approved)
      && (Page(db, org, id).ApprovedView? && row.reply.Some? ==> Page(db, org, id).replyText == row.reply.value)
      && (Page(db, org, id).StatusView? ==> Page(db, org, id).status == row.status)
  {
  }

  ghost predicate Submits(e: Event, id: nat) {
    e.Intake? && e.step.Submit? && e.step.id == id
  }

  /** What a staff session that finishes leaves on the page. */
  ghost function FinishedPage(tx: StaffTx): TrackingView
    requires CanFinish(tx)
  {
    match tx.form
    case ApproveForm => ApprovedView(tx.reading.body)
    case EditForm(body) => ApprovedView(body)
    case RejectForm(_) => StatusView(Rejected)
  }

  lemma CommitShows(w: World, p: nat, result: TriageResult, ceiling: int, org: nat, id: nat)
    requires WorkEnabled(w, p, Commit(result)) && CommitsOn(w, Work(p, Commit(result)), id)
    requires Owned(WorkNext(w, p, Commit(result), ceiling).db, org, id)
    ensures Page(WorkNext(w, p, Commit(result), ceiling).db, org, id) == StatusView(result.status)
  {
  }

  lemma FinishShows(w: World, s: nat, org: nat, id: nat)
    requires DeskEnabled(w, s, Finish) && FinishesOn(w, Desk(s, Finish), id) && Owned(DeskNext(w, s, Finish).db, org, id)
    ensures Page(DeskNext(w, s, Finish).db, org, id) == FinishedPage(w.staff[s])
  {
  }

  lemma SubmitShows(w: World, org: nat, id: nat, at: int, viewer: nat)
    requires IntakeEnabled(w, Submit(org, id, at))
    requires Owned(IntakeNext(w, Submit(org, id, at)).db, viewer, id)
    ensures Page(IntakeNext(w, Submit(org, id, at)).db, viewer, id) == StatusView(Received)
  {
  }

  lemma OnlySubmitAdds(w: World, e: Event, ceiling: int, id: nat)
    requires Enabled(w, e) && id in Next(w, e, ceiling).db.requests && !Submits(e, id)
    ensures id in w.db.requests
  {
    match e
    case Intake(step) =>
    case Work(p, step) => WorkAddsNone(w, p, step, ceiling);
    case Desk(s, step) => DeskAddsNone(w, s, step);
    case Tick(_) =>
    case Purge(_) =>
  }

  lemma WorkAddsNone(w: World, p: nat, step: WorkStep, ceiling: int)
    requires WorkEnabled(w, p, step)
    ensures WorkNext(w, p, step, ceiling).db.requests.Keys == w.db.requests.Keys
  {
  }

  lemma DeskAddsNone(w: World, s: nat, step: DeskStep)
    requires DeskEnabled(w, s, step)
    ensures DeskNext(w, s, step).db.requests.Keys == w.db.requests.Keys
  {
    if step.Finish? && Written(w.db, w.staff[s]).Some? {
      WrittenMeans(w.db, w.staff[s]);
    }
  }

  /**
   * In every run the page of a request that is there follows the step: a triage commit on the
   * request shows that run's status, a staff session that finishes on it the reply it
   * publishes or the rejection, its submission that it was received, and any other step
   * leaves the page as it was.
   */
  lemma {:induction false} PageFollows(ws: seq<World>, es: seq<Event>, ceiling: int, k: nat, org: nat, id: nat)
    requires IsRun(ws, es, ceiling) && k < |es| && Owned(ws[k + 1].db, org, id)
    ensures Page(ws[k + 1].db, org, id)
            == if CommitsOn(ws[k], es[k], id) then StatusView(es[k].work.result.status)
               else if FinishesOn(ws[k], es[k], id) then FinishedPage(ws[k].staff[es[k].s])
               else if Submits(es[k], id) then StatusView(Received)
               else Page(ws[k].db, org, id)
  {
    assert IsStep(ws, es, ceiling, k);
    if CommitsOn(ws[k], es[k], id) {
      CommitShows(ws[k], es[k].p, es[k].work.result, ceiling, org, id);
    } else if FinishesOn(ws[k], es[k], id) {
      FinishShows(ws[k], es[k].s, org, id);
    } else if Submits(es[k], id) {
      SubmitShows(ws[k], es[k].step.org, id, es[k].step.createdAt, org);
    } else {
      OnlySubmitAdds(ws[k], es[k], ceiling, id);
      StatusAfter(ws, es, ceiling, k, id);
    }
  }
}

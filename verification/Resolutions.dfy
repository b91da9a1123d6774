/**
 * When a resolution is overridden, over every run of the lifecycle: what can touch a
 * resolved request, and exactly when a staff session that read it open commits on it after
 * all.
 */
module Resolutions {
  import opened Records
  import opened Lifecycle
  import opened DraftSafety

  /** A triage run commits on the request. */
  ghost predicate CommitsOn(w: World, e: Event, id: nat) {
    && e.Work? && e.work.Commit? && e.p in w.workers
    && w.workers[e.p].body.TriageMessage? && w.workers[e.p].body.requestId == id
  }

  /** A staff session on the request finishes, and its writes go through. */
  ghost predicate FinishesOn(w: World, e: Event, id: nat) {
    && e.Desk? && e.desk.Finish? && e.s in w.staff && CanFinish(w.staff[e.s])
    && w.staff[e.s].id == id && Written(w.db, w.staff[e.s]).Some?
  }

  // ---- one step ----------------------------------------------------------------------------------

  lemma CommitReopens(w: World, p: nat, result: TriageResult, ceiling: int, id: nat)
    requires WorkEnabled(w, p, Commit(result)) && CommitsOn(w, Work(p, Commit(result)), id)
    ensures var next := WorkNext(w, p, Commit(result), ceiling);
            id in w.db.requests && id in next.db.requests && !IsResolved(next.db.requests[id].status)
  {
  }

  /** What the writes of a staff session come to: its request is resolved, with one more audit row. */
  lemma WrittenMeans(db: Db, tx: StaffTx)
    requires CanFinish(tx) && Written(db, tx).Some?
    ensures var after := Written(db, tx).value;
            && tx.id in db.requests && after.requests.Keys == db.requests.Keys
            && IsResolved(after.requests[tx.id].status)
            && (forall id | id in db.requests && id != tx.id :: after.requests[id] == db.requests[id])
            && |after.actions| == |db.actions| + 1 && after.actions[..|db.actions|] == db.actions
            && after.actions[|db.actions|].request == tx.id
  {
    match tx.form
    case ApproveForm =>
    case EditForm(_) =>
    case RejectForm(_) =>
  }

  lemma FinishResolves(w: World, s: nat, id: nat)
    requires DeskEnabled(w, s, Finish) && FinishesOn(w, Desk(s, Finish), id)
    ensures var next := DeskNext(w, s, Finish);
            && id in w.db.requests && id in next.db.requests && IsResolved(next.db.requests[id].status)
            && |ActionsOf(next.db.actions, id)| == |ActionsOf(w.db.actions, id)| + 1
  {
    var next := DeskNext(w, s, Finish);
    WrittenMeans(w.db, w.staff[s]);
    ActionPushed(w.db.actions, next.db.actions, id);
  }

  lemma ActionPushed(before: seq<Action>, after: seq<Action>, id: nat)
    requires |after| == |before| + 1 && after[..|before|] == before
    ensures ActionsOf(after, id) == ActionsOf(before, id) + if after[|before|].request == id then [after[|before|]] else []
  {
  }

  lemma FinishElsewhere(w: World, s: nat, id: nat)
    requires DeskEnabled(w, s, Finish) && !FinishesOn(w, Desk(s, Finish), id) && id in w.db.requests
    ensures Kept(w, DeskNext(w, s, Finish), id)
  {
    var next := DeskNext(w, s, Finish);
    if Written(w.db, w.staff[s]).Some? {
      WrittenMeans(w.db, w.staff[s]);
      ActionPushed(w.db.actions, next.db.actions, id);
    }
  }

  /** The request's row and its audit rows are as they were. */
  ghost predicate Kept(w: World, next: World, id: nat) {
    && id in w.db.requests && id in next.db.requests && next.db.requests[id] == w.db.requests[id]
    && ActionsOf(next.db.actions, id) == ActionsOf(w.db.actions, id)
  }

  lemma CommitElsewhere(w: World, p: nat, result: TriageResult, ceiling: int, id: nat)
    requires WorkEnabled(w, p, Commit(result)) && !CommitsOn(w, Work(p, Commit(result)), id) && id in w.db.requests
    ensures Kept(w, WorkNext(w, p, Commit(result), ceiling), id)
  {
  }

  lemma WorkLeaves(w: World, p: nat, step: WorkStep, ceiling: int, id: nat)
    requires WorkEnabled(w, p, step) && !CommitsOn(w, Work(p, step), id) && id in w.db.requests
    ensures Kept(w, WorkNext(w, p, step, ceiling), id)
  {
    if step.Commit? {
      CommitElsewhere(w, p, step.result, ceiling, id);
    }
  }

  lemma DeskLeaves(w: World, s: nat, step: DeskStep, id: nat)
    requires DeskEnabled(w, s, step) && !FinishesOn(w, Desk(s, step), id) && id in w.db.requests
    ensures Kept(w, DeskNext(w, s, step), id)
  {
    if step.Finish? {
      FinishElsewhere(w, s, id);
    }
  }

  lemma IntakeLeaves(w: World, step: IntakeStep, id: nat)
    requires IntakeEnabled(w, step) && id in w.db.requests && id in w.log.born
    ensures Kept(w, IntakeNext(w, step), id)
  {
  }

  lemma PurgeLeaves(w: World, gone: set<nat>, ceiling: int, id: nat)
    requires id in w.db.requests && id in PurgeRows(w.db, gone).requests
    ensures Kept(w, Next(w, Purge(gone), ceiling), id)
  {
    SurvivingOf(w.db.actions, gone, id);
  }

  /** Every other step leaves the request's row and its audit rows alone, or purges it. */
  lemma OthersLeave(w: World, e: Event, ceiling: int, id: nat)
    requires DraftsKept(w) && Enabled(w, e) && !CommitsOn(w, e, id) && !FinishesOn(w, e, id)
    requires id in w.db.requests && id in Next(w, e, ceiling).db.requests
    ensures Kept(w, Next(w, e, ceiling), id)
  {
    match e
    case Desk(s, step) => DeskLeaves(w, s, step, id);
    case Work(p, step) => WorkLeaves(w, p, step, ceiling, id);
    case Purge(gone) => PurgeLeaves(w, gone, ceiling, id);
    case Intake(step) => IntakeLeaves(w, step, id);
    case Tick(_) =>
  }

  /** What an event does to the request's status, while the request is there. */
  lemma StatusAfter(ws: seq<World>, es: seq<Event>, ceiling: int, k: nat, id: nat)
    requires IsRun(ws, es, ceiling) && k < |es| && id in ws[k].db.requests && id in ws[k + 1].db.requests
    ensures CommitsOn(ws[k], es[k], id) ==> !IsResolved(ws[k + 1].db.requests[id].status)
    ensures FinishesOn(ws[k], es[k], id) ==>
      && IsResolved(ws[k + 1].db.requests[id].status)
      && |ActionsOf(ws[k + 1].db.actions, id)| == |ActionsOf(ws[k].db.actions, id)| + 1
    ensures !CommitsOn(ws[k], es[k], id) && !FinishesOn(ws[k], es[k], id) ==> Kept(ws[k], ws[k + 1], id)
  {
    assert IsStep(ws, es, ceiling, k);
    if CommitsOn(ws[k], es[k], id) {
      CommitReopens(ws[k], es[k].p, es[k].work.result, ceiling, id);
    } else if FinishesOn(ws[k], es[k], id) {
      FinishResolves(ws[k], es[k].s, id);
    } else {
      RunKeepsDrafts(ws, es, ceiling, k);
      OthersLeave(ws[k], es[k], ceiling, id);
    }
  }

  /**
   * In every reachable state, a step that leaves a resolved request there touches it exactly
   * if it is a triage run that commits on it, which reopens it, or a staff session that
   * finishes on it, which resolves it once more.
   */
  lemma ResolvedTouchedIff(ws: seq<World>, es: seq<Event>, ceiling: int, k: nat, id: nat)
    requires IsRun(ws, es, ceiling) && k < |es|
    requires id in ws[k].db.requests && id in ws[k + 1].db.requests && IsResolved(ws[k].db.requests[id].status)
    ensures !Kept(ws[k], ws[k + 1], id) <==> CommitsOn(ws[k], es[k], id) || FinishesOn(ws[k], es[k], id)
    ensures !IsResolved(ws[k + 1].db.requests[id].status) <==> CommitsOn(ws[k], es[k], id)
  {
    StatusAfter(ws, es, ceiling, k, id);
  }

  // ---- a session, from its opening -------------------------------------------------------------------

  ghost predicate IsLive(ws: seq<World>, i: nat, id: nat)
    requires i < |ws|
  {
    id in ws[i].db.requests
  }

  ghost predicate LiveThrough(ws: seq<World>, j: nat, k: nat, id: nat)
    requires j <= k < |ws|
  {
    forall i {:trigger IsLive(ws, i, id)} | j <= i <= k :: IsLive(ws, i, id)
  }

  /** A request that is there at both ends was there all the time. */
  lemma {:induction false} LiveBetween(ws: seq<World>, es: seq<Event>, ceiling: int, j: nat, k: nat, id: nat)
    requires IsRun(ws, es, ceiling) && j <= k <= |es| && IsLive(ws, j, id) && IsLive(ws, k, id)
    ensures LiveThrough(ws, j, k, id)
    decreases k - j
  {
    if j < k {
      RunKeepsDrafts(ws, es, ceiling, j);
      assert IsStep(ws, es, ceiling, j);
      StepKeepsDrafts(ws[j], es[j], ceiling);
      StillLive(ws, es, ceiling, j + 1, k, id);
      assert IsLive(ws, j + 1, id);
      LiveBetween(ws, es, ceiling, j + 1, k, id);
    }
  }

  lemma {:induction false} StaysResolved(ws: seq<World>, es: seq<Event>, ceiling: int, j: nat, k: nat, id: nat)
    requires IsRun(ws, es, ceiling) && j <= k <= |es| && LiveThrough(ws, j, k, id)
    requires IsLive(ws, j, id) && IsLive(ws, k, id) && IsResolved(ws[j].db.requests[id].status)
    requires forall i {:trigger es[i]} | j <= i < k :: !CommitsOn(ws[i], es[i], id) && !FinishesOn(ws[i], es[i], id)
    ensures ws[k].db.requests[id] == ws[j].db.requests[id]
    decreases k - j
  {
    if j < k {
      assert !CommitsOn(ws[j], es[j], id) && IsLive(ws, j, id) && IsLive(ws, j + 1, id);
      ResolvedTouchedIff(ws, es, ceiling, j, id);
      StaysResolved(ws, es, ceiling, j + 1, k, id);
    }
  }

  /** While neither a triage run commits on it nor a session finishes on it, a resolved row stays exactly as it is. */
  lemma ResolvedStays(ws: seq<World>, es: seq<Event>, ceiling: int, j: nat, k: nat, id: nat)
    requires IsRun(ws, es, ceiling) && j <= k <= |es| && IsLive(ws, j, id) && IsLive(ws, k, id)
    requires IsResolved(ws[j].db.requests[id].status)
    requires forall i {:trigger es[i]} | j <= i < k :: !CommitsOn(ws[i], es[i], id) && !FinishesOn(ws[i], es[i], id)
    ensures ws[k].db.requests[id] == ws[j].db.requests[id]
  {
    LiveBetween(ws, es, ceiling, j, k, id);
    StaysResolved(ws, es, ceiling, j, k, id);
  }

  /** Event `e` is session `s` doing something that starts or ends it. */
  ghost predicate Bounds(e: Event, s: nat) {
    e.Desk? && e.s == s && (e.desk.Open? || e.desk.Finish? || e.desk.Abort?)
  }

  /** The session that is there before event `k` was opened on the request by event `o`, and has not ended since. */
  ghost predicate OpenedAt(ws: seq<World>, es: seq<Event>, o: nat, k: nat, s: nat, id: nat)
    requires k <= |es| < |ws|
  {
    && o < k && es[o].Desk? && es[o].s == s && es[o].desk.Open? && es[o].desk.id == id
    && forall i {:trigger Bounds(es[i], s)} | o < i < k :: !Bounds(es[i], s)
  }

  lemma {:induction false} FindOpening(ws: seq<World>, es: seq<Event>, ceiling: int, k: nat, s: nat) returns (o: nat)
    requires IsRun(ws, es, ceiling) && k <= |es| && s in ws[k].staff
    ensures OpenedAt(ws, es, o, k, s, ws[k].staff[s].id)
  {
    assert k > 0;
    assert IsStep(ws, es, ceiling, k - 1);
    if Bounds(es[k - 1], s) {
      o := k - 1;
    } else {
      SessionStays(ws[k - 1], es[k - 1], ceiling, s);
      o := FindOpening(ws, es, ceiling, k - 1, s);
    }
  }

  lemma SessionStays(w: World, e: Event, ceiling: int, s: nat)
    requires Enabled(w, e) && !Bounds(e, s) && s in Next(w, e, ceiling).staff
    ensures s in w.staff && w.staff[s].id == Next(w, e, ceiling).staff[s].id
  {
  }

  // ---- resolved in the meantime ------------------------------------------------------------------------

  /** Event `i` resolved the request, and no triage run has reopened it before event `k`. */
  ghost predicate Resolves(ws: seq<World>, es: seq<Event>, i: nat, k: nat, id: nat)
    requires k <= |es| < |ws|
  {
    && i < k && FinishesOn(ws[i], es[i], id)
    && forall j {:trigger es[j]} | i < j < k :: !CommitsOn(ws[j], es[j], id)
  }

  ghost predicate ResolvedSince(ws: seq<World>, es: seq<Event>, o: nat, k: nat, id: nat)
    requires k <= |es| < |ws|
  {
    exists i: nat :: o < i && Resolves(ws, es, i, k, id)
  }

  lemma ResolvedLater(ws: seq<World>, es: seq<Event>, o: nat, k: nat, id: nat)
    requires o < k < |es| < |ws|
    ensures ResolvedSince(ws, es, o, k + 1, id)
            <==> FinishesOn(ws[k], es[k], id) || (!CommitsOn(ws[k], es[k], id) && ResolvedSince(ws, es, o, k, id))
  {
    if FinishesOn(ws[k], es[k], id) {
      assert Resolves(ws, es, k, k + 1, id);
    } else if !CommitsOn(ws[k], es[k], id) && ResolvedSince(ws, es, o, k, id) {
      var i: nat :| o < i && Resolves(ws, es, i, k, id);
      assert Resolves(ws, es, i, k + 1, id);
    }
    if ResolvedSince(ws, es, o, k + 1, id) {
      var i: nat :| o < i && Resolves(ws, es, i, k + 1, id);
      if i < k {
        assert Resolves(ws, es, i, k, id);
        assert es[k] == es[k];
      }
    }
  }

  lemma NothingSince(ws: seq<World>, es: seq<Event>, o: nat, id: nat)
    requires o < |es| < |ws|
    ensures !ResolvedSince(ws, es, o, o + 1, id)
  {
  }

  /** What is resolved, and what the events since the opening say, agree before event `k`. */
  ghost predicate Agrees(ws: seq<World>, es: seq<Event>, o: nat, k: nat, id: nat)
    requires k <= |es| < |ws|
  {
    id in ws[k].db.requests && (IsResolved(ws[k].db.requests[id].status) <==> ResolvedSince(ws, es, o, k, id))
  }

  lemma AgreesNext(ws: seq<World>, es: seq<Event>, ceiling: int, o: nat, k: nat, id: nat)
    requires IsRun(ws, es, ceiling) && o < k < |es| && Agrees(ws, es, o, k, id) && id in ws[k + 1].db.requests
    ensures Agrees(ws, es, o, k + 1, id)
  {
    StatusAfter(ws, es, ceiling, k, id);
    ResolvedLater(ws, es, o, k, id);
  }

  lemma AgreesFirst(ws: seq<World>, es: seq<Event>, ceiling: int, o: nat, id: nat)
    requires IsRun(ws, es, ceiling) && o < |es| && IsLive(ws, o, id) && IsLive(ws, o + 1, id)
    requires !IsResolved(ws[o].db.requests[id].status) && !FinishesOn(ws[o], es[o], id)
    ensures Agrees(ws, es, o, o + 1, id)
  {
    StatusAfter(ws, es, ceiling, o, id);
    NothingSince(ws, es, o, id);
  }

  /** An open request is resolved later exactly if a session has resolved it since and no triage run has reopened it. */
  lemma {:induction false} ResolvedIff(ws: seq<World>, es: seq<Event>, ceiling: int, o: nat, k: nat, id: nat)
    requires IsRun(ws, es, ceiling) && o < k <= |es| && LiveThrough(ws, o, k, id)
    requires IsLive(ws, o, id) && !IsResolved(ws[o].db.requests[id].status) && !FinishesOn(ws[o], es[o], id)
    ensures Agrees(ws, es, o, k, id)
  {
    assert IsLive(ws, k, id);
    if o + 1 == k {
      AgreesFirst(ws, es, ceiling, o, id);
    } else {
      ResolvedIff(ws, es, ceiling, o, k - 1, id);
      AgreesNext(ws, es, ceiling, o, k - 1, id);
    }
  }

  /**
   * A session that read an open request and whose writes go through overrides a resolution
   * exactly if, after it was opened, another session resolved the request and no triage run
   * has reopened it since.
   */
  lemma OverriddenIff(ws: seq<World>, es: seq<Event>, ceiling: int, k: nat, id: nat) returns (o: nat)
    requires IsRun(ws, es, ceiling) && k < |es| && FinishesOn(ws[k], es[k], id)
    ensures OpenedAt(ws, es, o, k, es[k].s, id)
    ensures id in ws[k].db.requests
    ensures IsResolved(ws[k].db.requests[id].status) <==> ResolvedSince(ws, es, o, k, id)
    ensures forall i: nat | o < i < k && FinishesOn(ws[i], es[i], id) :: es[i].s != es[k].s
  {
    assert IsStep(ws, es, ceiling, k);
    FinishResolves(ws[k], es[k].s, id);
    o := FindOpening(ws, es, ceiling, k, es[k].s);
    assert IsStep(ws, es, ceiling, o);
    assert IsLive(ws, o, id) && IsLive(ws, k, id);
    LiveBetween(ws, es, ceiling, o, k, id);
    ResolvedIff(ws, es, ceiling, o, k, id);
    forall i: nat | o < i < k && FinishesOn(ws[i], es[i], id)
      ensures es[i].s != es[k].s
    {
      assert !Bounds(es[i], es[k].s);
    }
  }
}

/**
 * What interleaving can break: two runs of the lifecycle, each step enabled when it happens,
 * after which a resolution has been overridden.
 */
module Interleavings {
  import opened Options
  import opened Messages
  import opened Records
  import opened StaffActions
  import opened Tracking
  import opened Lifecycle
  import Pgmq

  // ---- when a staff transaction commits as if it had run alone -----------------------------------

  /** What the action would do if it ran alone. */
  function ActionAlone(db: Db, org: nat, id: nat, actor: string, form: Form): Outcome {
    match form
    case ApproveForm => ApproveTx(db, org, actor, id)
    case EditForm(body) => EditTx(db, org, actor, id, body)
    case RejectForm(reason) => RejectTx(db, org, actor, id, reason)
  }

  /** What the session's transaction would do if it started and ended now. */
  function Alone(db: Db, tx: StaffTx): Outcome {
    ActionAlone(db, tx.org, tx.id, tx.actor, tx.form)
  }

  predicate IsFilledIn(form: Form) {
    match form
    case ApproveForm => true
    case EditForm(body) => body != ""
    case RejectForm(reason) => reason != ""
  }

  /** What the session read is what it would read now. */
  predicate IsFresh(db: Db, tx: StaffTx)
    requires CanFinish(tx)
  {
    && Load(db, tx.org, tx.id) == Some(tx.reading.view)
    && (tx.form == ApproveForm ==>
          && LatestVersion(db, tx.id) == Some(tx.reading.version)
          && db.drafts[DraftKey(tx.id, tx.reading.version)].body == tx.reading.body)
  }

  /**
   * A session that read an open request and whose writes go through has the effect of a
   * transaction that ran alone exactly when nothing it read has changed since.
   */
  lemma AloneIffFresh(db: Db, tx: StaffTx)
    requires CanFinish(tx) && IsFilledIn(tx.form) && !IsResolved(tx.reading.view.status) && Written(db, tx).Some?
    ensures Alone(db, tx) == Outcome(Done, Written(db, tx).value) <==> IsFresh(db, tx)
  {
    var after := Written(db, tx).value;
    var mine := after.actions[|db.actions|];
    if Alone(db, tx) == Outcome(Done, after) {
      var view := Load(db, tx.org, tx.id).value;
      assert mine.before == Before(view) == Before(tx.reading.view);
    }
  }

  // ---- a session whose steps follow each other ------------------------------------------------------

  /** Opening a session and reading the version give it what `loadCurrentState` returns. */
  lemma LoadSteps(w: World, s: nat, org: nat, id: nat, actor: string, form: Form, ceiling: int) returns (begun: World, loaded: World)
    requires s !in w.staff && Owned(w.db, org, id) && !IsResolved(w.db.requests[id].status)
    ensures Enabled(w, Desk(s, Open(org, id, actor, form))) && begun == Next(w, Desk(s, Open(org, id, actor, form)), ceiling)
    ensures Enabled(begun, Desk(s, ReadVersion)) && loaded == Next(begun, Desk(s, ReadVersion), ceiling)
    ensures loaded == w.(staff := w.staff[s := StaffTx(org, id, actor, form, Loaded(Load(w.db, org, id).value))])
  {
    begun := Next(w, Desk(s, Open(org, id, actor, form)), ceiling);
    loaded := Next(begun, Desk(s, ReadVersion), ceiling);
  }

  /** Picking the draft gives an approval the latest one. */
  lemma PickStep(w: World, s: nat, tx: StaffTx, ceiling: int) returns (picked: World)
    requires s in w.staff && w.staff[s] == tx && tx.form == ApproveForm && tx.reading.Loaded? && LatestVersion(w.db, tx.id).Some?
    ensures Enabled(w, Desk(s, PickDraft)) && picked == Next(w, Desk(s, PickDraft), ceiling)
    ensures var v := LatestVersion(w.db, tx.id).value;
            picked == w.(staff := w.staff[s := tx.(reading := Picked(tx.reading.view, v, w.db.drafts[DraftKey(tx.id, v)].body))])
  {
    picked := Next(w, Desk(s, PickDraft), ceiling);
  }

  /** A session that finishes with what it would read now has the effect of its transaction alone. */
  lemma FinishStep(w: World, s: nat, tx: StaffTx, ceiling: int) returns (done: World)
    requires s in w.staff && w.staff[s] == tx && CanFinish(tx) && IsFresh(w.db, tx) && Alone(w.db, tx).result == Done
    ensures Enabled(w, Desk(s, Finish)) && done == Next(w, Desk(s, Finish), ceiling)
    ensures done == w.(db := Alone(w.db, tx).db, staff := w.staff - {s})
  {
    done := Next(w, Desk(s, Finish), ceiling);
  }

  /** A session that opens and reads with nothing in between has read what is there. */
  lemma ReadSteps(w: World, s: nat, org: nat, id: nat, actor: string, form: Form, ceiling: int)
    returns (ws: seq<World>, es: seq<Event>, tx: StaffTx)
    requires s !in w.staff && ActionAlone(w.db, org, id, actor, form).result == Done
    ensures IsPath(ws, es, ceiling) && ws[0] == w
    ensures es == [Desk(s, Open(org, id, actor, form)), Desk(s, ReadVersion)]
                  + if form == ApproveForm then [Desk(s, PickDraft)] else []
    ensures tx == StaffTx(org, id, actor, form, tx.reading) && CanFinish(tx) && IsFresh(w.db, tx)
    ensures ws[|es|] == w.(staff := w.staff[s := tx])
  {
    var begun, loaded := LoadSteps(w, s, org, id, actor, form, ceiling);
    tx := loaded.staff[s];
    ws, es := PathThen([w], [], ceiling, Desk(s, Open(org, id, actor, form)));
    ws, es := PathThen(ws, es, ceiling, Desk(s, ReadVersion));
    if form == ApproveForm {
      var picked := PickStep(loaded, s, tx, ceiling);
      tx := picked.staff[s];
      ws, es := PathThen(ws, es, ceiling, Desk(s, PickDraft));
    }
  }

  /**
   * A staff action that would succeed alone is a run of the transition system: its session
   * opens, reads and finishes with nothing in between, and leaves exactly the transaction's
   * database.
   */
  lemma SessionIsSteps(w: World, s: nat, org: nat, id: nat, actor: string, form: Form, ceiling: int)
    returns (ws: seq<World>, es: seq<Event>)
    requires s !in w.staff && ActionAlone(w.db, org, id, actor, form).result == Done
    ensures IsPath(ws, es, ceiling) && ws[0] == w
    ensures es == [Desk(s, Open(org, id, actor, form)), Desk(s, ReadVersion)]
                  + (if form == ApproveForm then [Desk(s, PickDraft)] else []) + [Desk(s, Finish)]
    ensures ws[|es|].db == ActionAlone(w.db, org, id, actor, form).db
    ensures ws[|es|].staff == w.staff && ws[|es|].table == w.table && ws[|es|].workers == w.workers
  {
    var tx;
    ws, es, tx := ReadSteps(w, s, org, id, actor, form, ceiling);
    var done := FinishStep(ws[|es|], s, tx, ceiling);
    ws, es := PathThen(ws, es, ceiling, Desk(s, Finish));
    assert done.staff == w.staff;
  }

  // ---- what can go wrong ---------------------------------------------------------------------------

  /** One more step of a run, with the state it leads to. */
  lemma Then(ws: seq<World>, es: seq<Event>, ceiling: int, w: World, e: Event) returns (ws': seq<World>, es': seq<Event>)
    requires IsRun(ws, es, ceiling) && ws[|es|] == w && Enabled(w, e)
    ensures IsRun(ws', es', ceiling) && ws'[|es'|] == Next(w, e, ceiling)
  {
    ws', es' := PathThen(ws, es, ceiling, e);
  }

  /** Request 7 of org 1 has just arrived. */
  ghost function Arrived(): World {
    Next(START, Intake(Submit(1, 7, 0)), 5)
  }

  const NEW_ROW := Request(1, 0, Received, None, None, false)

  lemma Arrival() returns (ws: seq<World>, es: seq<Event>)
    ensures IsRun(ws, es, 5) && ws[|es|] == Arrived()
    ensures Arrived() == START.(db := Db(map[7 := NEW_ROW], map[], []), pending := map[7 := 1],
                                log := START.log.(born := map[7 := 1]))
  {
    ws, es := Then([START], [], 5, START, Intake(Submit(1, 7, 0)));
  }

  const REJECTED := Action(1, 7, "ann", Reject, Snapshot(Received, None, None), Snapshot(Rejected, None, None), Some("spam"))
  const EDITED := Action(1, 7, "bob", Edit, Snapshot(Received, None, None), Snapshot(Approved, Some("hi"), Some(1)), None)

  /** Two staff sessions that have both read the open request, one to reject it and one to answer it. */
  lemma BothOpen() returns (ws: seq<World>, es: seq<Event>)
    ensures IsRun(ws, es, 5)
    ensures ws[|es|] == Arrived().(staff := map[1 := StaffTx(1, 7, "ann", RejectForm("spam"), Loaded(View(Received, None, None))),
                                                2 := StaffTx(1, 7, "bob", EditForm("hi"), Loaded(View(Received, None, None)))])
  {
    ws, es := Arrival();
    var w := Arrived();
    var none: Option<nat> := None;
    assert LatestVersion(w.db, 7) == none;
    ws, es := Then(ws, es, 5, w, Desk(1, Open(1, 7, "ann", RejectForm("spam"))));
    w := ws[|es|];
    ws, es := Then(ws, es, 5, w, Desk(2, Open(1, 7, "bob", EditForm("hi"))));
    w := ws[|es|];
    ws, es := Then(ws, es, 5, w, Desk(1, ReadVersion));
    w := ws[|es|];
    ws, es := Then(ws, es, 5, w, Desk(2, ReadVersion));
  }

  /**
   * The check that a request is not resolved reads the row without locking it. If another
   * session resolves it in between, the second commit overrides the first: here a rejected
   * request is approved, its reply is public, and it has two audit rows, both saying it was open.
   */
  lemma RejectionOverridden() returns (ws: seq<World>, es: seq<Event>)
    ensures IsRun(ws, es, 5) && |es| > 0
    ensures 7 in ws[|es| - 1].db.requests && ws[|es| - 1].db.requests[7].status == Rejected
    ensures ws[|es|].db.actions == [REJECTED, EDITED]
    ensures GetTrackingView(ws[|es|].db, Some((1, 7))) == ApprovedView("hi")
  {
    ws, es := BothOpen();
    var w := ws[|es|];
    var before := ws;
    ws, es := Then(ws, es, 5, w, Desk(1, Finish));
    w := ws[|es|];
    assert w.db == Db(map[7 := NEW_ROW.(status := Rejected, resolved := true)], map[], [REJECTED]);
    var rejected := ws;
    ws, es := PathThen(ws, es, 5, Desk(2, Finish));
    assert ws[|es| - 1] == rejected[|es| - 1] == w;
  }

  const ROUTING := Routing("other", "normal", "a question", "front desk")
  const FIRST := TriageResult(Drafted, ROUTING, Draft(1, "hello", [], 0.5, "model", 10, 5))
  const SECOND := TriageResult(Drafted, ROUTING, Draft(1, "hello again", [], 0.5, "model", 10, 5))
  const DRAFTED_ROW := Request(1, 0, Drafted, Some(ROUTING), None, false)

  /** The first draft is there, and the message has been delivered again because its first lease ran out. */
  ghost function Redelivered(): World {
    var body := TriageMessage(1, 7);
    World(Db(map[7 := DRAFTED_ROW], map[DraftKey(7, 1) := FIRST.draft], []),
          Pgmq.Table(map[0 := Pgmq.Row(body, 2, 30)], [], 1, 15), map[],
          map[1 := Delivery(0, 1, body, Committed), 2 := Delivery(0, 2, body, Got)], map[],
          History(map[0 := body], {}, {0}, map[7 := 1], map[0 := 2]))
  }

  lemma DeliveredOnce() returns (ws: seq<World>, es: seq<Event>)
    ensures IsRun(ws, es, 5)
    ensures ws[|es|] ==
      World(Db(map[7 := NEW_ROW], map[], []), Pgmq.Table(map[0 := Pgmq.Row(TriageMessage(1, 7), 1, 15)], [], 1, 0), map[],
            map[1 := Delivery(0, 1, TriageMessage(1, 7), Counted(1))], map[],
            History(map[0 := TriageMessage(1, 7)], {}, {}, map[7 := 1], map[0 := 1]))
  {
    ws, es := Arrival();
    ws, es := Then(ws, es, 5, Arrived(), Intake(Enqueue(7)));
    var w := ws[|es|];
    assert w.pending == map[];
    ws, es := Then(ws, es, 5, w, Work(1, Receive(0, 15)));
    w := ws[|es|];
    assert LatestVersion(w.db, 7) == None;
    ws, es := Then(ws, es, 5, w, Work(1, Count));
  }

  lemma CommittedOnce() returns (ws: seq<World>, es: seq<Event>)
    ensures IsRun(ws, es, 5)
    ensures var w := ws[|es|];
            && w.db == Redelivered().db && w.pending == map[] && w.staff == map[]
            && w.table == Pgmq.Table(map[0 := Pgmq.Row(TriageMessage(1, 7), 1, 15)], [], 1, 0)
            && w.workers == map[1 := Delivery(0, 1, TriageMessage(1, 7), Committed)]
            && w.log == History(map[0 := TriageMessage(1, 7)], {}, {0}, map[7 := 1], map[0 := 1])
  {
    ws, es := DeliveredOnce();
    ws, es := Then(ws, es, 5, ws[|es|], Work(1, Commit(FIRST)));
  }

  lemma DeliveredTwice() returns (ws: seq<World>, es: seq<Event>)
    ensures IsRun(ws, es, 5) && ws[|es|] == Redelivered()
  {
    ws, es := CommittedOnce();
    ws, es := Then(ws, es, 5, ws[|es|], Tick(15));
    ws, es := Then(ws, es, 5, ws[|es|], Work(2, Receive(0, 15)));
  }

  const APPROVED_ROW := DRAFTED_ROW.(status := Approved, reply := Some("hello"), resolved := true)
  const APPROVED_BY := Action(1, 7, "ann", Approve, Snapshot(Drafted, None, Some(1)),
                              Snapshot(Approved, Some("hello"), Some(1)), None)

  lemma ApprovedMeanwhile() returns (ws: seq<World>, es: seq<Event>)
    ensures IsRun(ws, es, 5)
    ensures ws[|es|] == Redelivered().(db := Db(map[7 := APPROVED_ROW], map[DraftKey(7, 1) := FIRST.draft], [APPROVED_BY]))
  {
    ws, es := DeliveredTwice();
    var w := Redelivered();
    LatestIs(w.db, 7, 1);
    ws, es := Then(ws, es, 5, w, Desk(1, Open(1, 7, "ann", ApproveForm)));
    w := ws[|es|];
    ws, es := Then(ws, es, 5, w, Desk(1, ReadVersion));
    w := ws[|es|];
    ws, es := Then(ws, es, 5, w, Desk(1, PickDraft));
    w := ws[|es|];
    ws, es := Then(ws, es, 5, w, Desk(1, Finish));
  }

  /**
   * The triage update has no guard on the status. A message delivered again after staff
   * approved the request reopens it: the tracking page takes the published reply back.
   */
  lemma ApprovalReopened() returns (ws: seq<World>, es: seq<Event>)
    ensures IsRun(ws, es, 5) && |es| > 1
    ensures GetTrackingView(ws[|es| - 2].db, Some((1, 7))) == ApprovedView("hello")
    ensures GetTrackingView(ws[|es|].db, Some((1, 7))) == StatusView(Drafted)
    ensures ws[|es|].db.requests[7].reply == Some("hello") && ws[|es|].db.actions == [APPROVED_BY]
  {
    ws, es := ApprovedMeanwhile();
    var w, approved := ws[|es|], ws;
    LatestIs(w.db, 7, 1);
    ws, es := PathThen(ws, es, 5, Work(2, Count));
    assert ws[|es| - 1] == approved[|es| - 1] == w;
    var counted, next := ws, ws[|es|];
    ws, es := PathThen(ws, es, 5, Work(2, Commit(SECOND)));
    assert ws[|es| - 2] == counted[|es| - 2] == w;
  }
}

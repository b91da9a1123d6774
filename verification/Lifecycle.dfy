/**
 * The whole request lifecycle as one transition system: intake, the queue, any number of
 * workers and staff sessions, crashes, lease expiry and the purge, interleaved at will. A
 * committed transaction is one step; what a transaction read before its writes is an
 * earlier step of its own, so the writes may be based on a stale read.
 */
module Lifecycle {
  import opened Options
  import opened Messages
  import opened Records
  import opened StaffActions
  import Pgmq

  // ---- the state -----------------------------------------------------------------------------

  datatype Phase = Got | Counted(version: nat) | Committed | Failed

  /** A delivery a worker has not settled yet. */
  datatype Delivery = Delivery(id: nat, attempt: nat, body: Json, phase: Phase)

  datatype Form = ApproveForm | EditForm(body: string) | RejectForm(reason: string)

  /** What an open staff transaction has read so far: the row, then the version, then the draft to approve. */
  datatype Reading =
    | RowRead(status: Status, reply: Option<string>)
    | Loaded(view: View)
    | Picked(view: View, version: nat, body: string)

  datatype StaffTx = StaffTx(org: nat, id: nat, actor: string, form: Form, reading: Reading)

  /**
   * What happened, for stating properties: the bodies sent, the messages deleted by an ack,
   * those with a committed triage run, the requests ever inserted with their orgs, and how
   * often each message was received.
   */
  datatype History = History(sent: map<nat, Json>, acked: set<nat>, triaged: set<nat>, born: map<nat, nat>,
                             received: map<nat, nat>)

  /** `pending` are the requests an intake handler has inserted and not enqueued yet, with their orgs. */
  datatype World = World(db: Db, table: Pgmq.Table, pending: map<nat, nat>, workers: map<nat, Delivery>,
                         staff: map<nat, StaffTx>, log: History)

  const START := World(EMPTY_DB, Pgmq.EMPTY_TABLE, map[], map[], map[], History(map[], {}, {}, map[], map[]))

  // ---- the steps -------------------------------------------------------------------------------

  datatype IntakeStep =
    | Submit(org: nat, id: nat, createdAt: int)
    | Enqueue(id: nat)
    | IntakeCrash(id: nat)
    | SendOther(text: string)

  datatype WorkStep = Receive(m: nat, timeout: nat) | Count | Commit(result: TriageResult) | Fail | Settle | Crash

  datatype DeskStep = Open(org: nat, id: nat, actor: string, form: Form) | ReadVersion | PickDraft | Finish | Abort

  datatype Event =
    | Intake(step: IntakeStep)
    | Work(p: nat, work: WorkStep)
    | Desk(s: nat, desk: DeskStep)
    | Tick(dt: nat)
    | Purge(gone: set<nat>)

  function Queued(w: World, body: Json): World {
    w.(table := Pgmq.Sent(w.table, body), log := w.log.(sent := w.log.sent[w.table.nextId := body]))
  }

  predicate IntakeEnabled(w: World, step: IntakeStep) {
    match step
    case Submit(_, id, _) => id !in w.log.born
    case Enqueue(id) => id in w.pending
    case IntakeCrash(id) => id in w.pending
    case SendOther(_) => true
  }

  function IntakeNext(w: World, step: IntakeStep): World
    requires IntakeEnabled(w, step)
  {
    match step
    case Submit(org, id, at) =>
      w.(db := w.db.(requests := w.db.requests[id := Request(org, at, Received, None, None, false)]),
         pending := w.pending[id := org], log := w.log.(born := w.log.born[id := org]))
    case Enqueue(id) => Queued(w, TriageMessage(w.pending[id], id)).(pending := w.pending - {id})
    case IntakeCrash(id) => w.(pending := w.pending - {id})
    case SendOther(text) => Queued(w, Value(text))
  }

  /** The triage transaction's writes for a delivery that has read its version. */
  function Triaged(db: Db, d: Delivery, result: TriageResult): Option<Db>
    requires d.body.TriageMessage? && d.phase.Counted?
  {
    TriageWrites(db, d.body.orgId, d.body.requestId, d.phase.version, result)
  }

  /** What settling a delivery does to the queue: ack, nack or dead-letter, as its run ended. */
  function Settled(table: Pgmq.Table, d: Delivery, ceiling: int): Pgmq.Table {
    if d.phase == Committed then Pgmq.Deleted(table, d.id)
    else if d.phase == Failed && d.attempt < ceiling then Pgmq.MadeVisible(table, d.id)
    else Pgmq.ArchivedRow(table, d.id)
  }

  function ReadCount(received: map<nat, nat>, m: nat): nat {
    if m in received then received[m] else 0
  }

  function Moved(w: World, p: nat, phase: Phase): World
    requires p in w.workers
  {
    w.(workers := w.workers[p := w.workers[p].(phase := phase)])
  }

  predicate WorkEnabled(w: World, p: nat, step: WorkStep) {
    if step.Receive? then p !in w.workers && Pgmq.Readable(w.table, step.m)
    else
      && p in w.workers
      && var d := w.workers[p];
      match step
      case Receive(_, _) => false
      case Count => d.phase == Got && d.body.TriageMessage? && Owned(w.db, d.body.orgId, d.body.requestId)
      case Commit(result) =>
        && d.phase.Counted? && d.body.TriageMessage? && IsTriaged(result.status) && result.draft.org == d.body.orgId
        && Triaged(w.db, d, result).Some?
      case Fail => d.body.TriageMessage? && (d.phase == Got || d.phase.Counted?)
      case Settle => d.phase == Committed || d.phase == Failed || (d.phase == Got && !d.body.TriageMessage?)
      case Crash => true
  }

  function WorkNext(w: World, p: nat, step: WorkStep, ceiling: int): World
    requires WorkEnabled(w, p, step)
  {
    match step
    case Receive(m, timeout) =>
      var row := w.table.rows[m];
      w.(table := Pgmq.ReadOne(w.table, m, timeout),
         workers := w.workers[p := Delivery(m, row.readCt + 1, row.message, Got)],
         log := w.log.(received := w.log.received[m := ReadCount(w.log.received, m) + 1]))
    case Count => Moved(w, p, Counted(NextVersion(w.db, w.workers[p].body.requestId)))
    case Commit(result) =>
      Moved(w, p, Committed).(db := Triaged(w.db, w.workers[p], result).value,
                              log := w.log.(triaged := w.log.triaged + {w.workers[p].id}))
    case Fail => Moved(w, p, Failed)
    case Settle =>
      var d := w.workers[p];
      w.(table := Settled(w.table, d, ceiling), workers := w.workers - {p},
         log := if d.phase == Committed && d.id in w.table.rows then w.log.(acked := w.log.acked + {d.id}) else w.log)
    case Crash => w.(workers := w.workers - {p})
  }

  predicate CanFinish(tx: StaffTx) {
    if tx.form == ApproveForm then tx.reading.Picked? else tx.reading.Loaded?
  }

  /** The staff transaction's writes, from what it has read. */
  function Written(db: Db, tx: StaffTx): Option<Db>
    requires CanFinish(tx)
  {
    match tx.form
    case ApproveForm => ApproveWrites(db, tx.org, tx.id, tx.actor, tx.reading.view, tx.reading.version, tx.reading.body)
    case EditForm(body) => EditWrites(db, tx.org, tx.id, tx.actor, tx.reading.view, body)
    case RejectForm(reason) => RejectWrites(db, tx.org, tx.id, tx.actor, tx.reading.view, reason)
  }

  function WithReading(w: World, s: nat, reading: Reading): World
    requires s in w.staff
  {
    w.(staff := w.staff[s := w.staff[s].(reading := reading)])
  }

  predicate DeskEnabled(w: World, s: nat, step: DeskStep) {
    if step.Open? then s !in w.staff && Owned(w.db, step.org, step.id) && !IsResolved(w.db.requests[step.id].status)
    else
      && s in w.staff
      && var tx := w.staff[s];
      match step
      case Open(_, _, _, _) => false
      case ReadVersion => tx.reading.RowRead?
      case PickDraft => tx.form == ApproveForm && tx.reading.Loaded? && LatestVersion(w.db, tx.id).Some?
      case Finish => CanFinish(tx)
      case Abort => true
  }

  function DeskNext(w: World, s: nat, step: DeskStep): World
    requires DeskEnabled(w, s, step)
  {
    match step
    case Open(org, id, actor, form) =>
      w.(staff := w.staff[s := StaffTx(org, id, actor, form, RowRead(w.db.requests[id].status, w.db.requests[id].reply))])
    case ReadVersion =>
      var tx := w.staff[s];
      WithReading(w, s, Loaded(View(tx.reading.status, tx.reading.reply, LatestVersion(w.db, tx.id))))
    case PickDraft =>
      var tx := w.staff[s];
      var v := LatestVersion(w.db, tx.id).value;
      WithReading(w, s, Picked(tx.reading.view, v, w.db.drafts[DraftKey(tx.id, v)].body))
    case Finish =>
      w.(db := (match Written(w.db, w.staff[s]) case None => w.db case Some(db) => db), staff := w.staff - {s})
    case Abort => w.(staff := w.staff - {s})
  }

  predicate Enabled(w: World, e: Event) {
    match e
    case Intake(step) => IntakeEnabled(w, step)
    case Work(p, step) => WorkEnabled(w, p, step)
    case Desk(s, step) => DeskEnabled(w, s, step)
    case Tick(_) => true
    case Purge(_) => true
  }

  function Next(w: World, e: Event, ceiling: int): World
    requires Enabled(w, e)
  {
    match e
    case Intake(step) => IntakeNext(w, step)
    case Work(p, step) => WorkNext(w, p, step, ceiling)
    case Desk(s, step) => DeskNext(w, s, step)
    case Tick(dt) => w.(table := w.table.(now := w.table.now + dt))
    case Purge(gone) => w.(db := PurgeRows(w.db, gone))
  }

  ghost predicate IsStep(ws: seq<World>, es: seq<Event>, ceiling: int, k: nat)
    requires k < |es| < |ws|
  {
    Enabled(ws[k], es[k]) && ws[k + 1] == Next(ws[k], es[k], ceiling)
  }

  /** The events lead through these states. */
  ghost predicate IsPath(ws: seq<World>, es: seq<Event>, ceiling: int) {
    |ws| == |es| + 1 && forall k {:trigger es[k]} | 0 <= k < |es| :: IsStep(ws, es, ceiling, k)
  }

  /** A run of the system: the states it passes through. */
  ghost predicate IsRun(ws: seq<World>, es: seq<Event>, ceiling: int) {
    IsPath(ws, es, ceiling) && ws[0] == START
  }

  lemma PathThen(ws: seq<World>, es: seq<Event>, ceiling: int, e: Event) returns (ws': seq<World>, es': seq<Event>)
    requires IsPath(ws, es, ceiling) && Enabled(ws[|es|], e)
    ensures IsPath(ws', es', ceiling) && es' == es + [e] && ws'[..|ws|] == ws && ws'[0] == ws[0]
    ensures ws'[|es'|] == Next(ws[|es|], e, ceiling)
  {
    ws', es' := ws + [Next(ws[|es|], e, ceiling)], es + [e];
    forall k | 0 <= k < |es'|
      ensures IsStep(ws', es', ceiling, k)
    {
      assert k < |es| ==> IsStep(ws, es, ceiling, k);
    }
  }
}

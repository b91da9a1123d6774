/** What the queue keeps over every run of the lifecycle. */
module QueueSafety {
  import opened Messages
  import opened Records
  import opened Lifecycle
  import Pgmq

  // ---- the queue keeps every message -------------------------------------------------------------

  ghost predicate InArchive(table: Pgmq.Table, m: nat) {
    exists i | 0 <= i < |table.archive| :: table.archive[i].id == m
  }

  /** The message is in exactly one of the main queue, the archive, and the deleted ones. */
  ghost predicate InOnePlace(w: World, m: nat) {
    if m in w.table.rows then !InArchive(w.table, m) && m !in w.log.acked
    else InArchive(w.table, m) != (m in w.log.acked)
  }

  ghost predicate RowTrue(w: World, m: nat) {
    m in w.log.sent && (m in w.table.rows ==> w.table.rows[m].message == w.log.sent[m])
  }

  ghost predicate DeliveryTrue(w: World, d: Delivery) {
    && d.id in w.log.sent && d.body == w.log.sent[d.id]
    && (d.phase == Committed ==> d.id in w.log.triaged)
    && (d.phase != Got ==> d.body.TriageMessage?)
  }

  ghost predicate Names(w: World, body: Json) {
    body.TriageMessage? ==> body.requestId in w.log.born && w.log.born[body.requestId] == body.orgId
  }

  ghost predicate ArchiveTrue(w: World) {
    && (forall i, j | 0 <= i < j < |w.table.archive| :: w.table.archive[i].id != w.table.archive[j].id)
    && forall i | 0 <= i < |w.table.archive| ::
        w.table.archive[i].id in w.log.sent && w.table.archive[i].message == w.log.sent[w.table.archive[i].id]
  }

  ghost predicate QueueKept(w: World) {
    && (forall m | m in w.table.rows :: RowTrue(w, m))
    && (forall m | m in w.log.sent :: m < w.table.nextId && InOnePlace(w, m) && Names(w, w.log.sent[m]))
    && ArchiveTrue(w)
    && (forall m | m in w.log.acked :: m in w.log.triaged && m in w.log.sent)
    && (forall p | p in w.workers :: DeliveryTrue(w, w.workers[p]))
    && forall id | id in w.pending :: id in w.log.born && w.log.born[id] == w.pending[id]
  }

  lemma ArchivedNew(table: Pgmq.Table, m: nat, k: nat)
    requires m in table.rows
    ensures InArchive(Pgmq.ArchivedRow(table, m), k) <==> InArchive(table, k) || k == m
  {
    var after := Pgmq.ArchivedRow(table, m).archive;
    assert after[|table.archive|].id == m;
    if InArchive(table, k) {
      var i :| 0 <= i < |table.archive| && table.archive[i].id == k;
      assert after[i].id == k;
    }
  }

  /** The queue's rows, archive and acks are as they were, and no record is lost. */
  ghost predicate Quiet(w: World, next: World) {
    && next.table.rows.Keys == w.table.rows.Keys && next.table.archive == w.table.archive
    && next.table.nextId == w.table.nextId && next.log.sent == w.log.sent && next.log.acked == w.log.acked
    && (forall m | m in w.table.rows :: next.table.rows[m].message == w.table.rows[m].message)
    && w.log.triaged <= next.log.triaged
    && (forall id | id in w.log.born :: id in next.log.born && next.log.born[id] == w.log.born[id])
    && forall id | id in next.pending :: id in next.log.born && next.log.born[id] == next.pending[id]
  }

  lemma QuietKeepsQueue(w: World, next: World)
    requires QueueKept(w) && Quiet(w, next)
    requires forall p | p in next.workers :: DeliveryTrue(next, next.workers[p])
    ensures QueueKept(next)
  {
  }

  lemma SameDeliveries(w: World, next: World)
    requires QueueKept(w) && Quiet(w, next) && forall p | p in next.workers :: p in w.workers && next.workers[p] == w.workers[p]
    ensures QueueKept(next)
  {
    forall p | p in next.workers
      ensures DeliveryTrue(next, next.workers[p])
    {
      assert DeliveryTrue(w, w.workers[p]);
    }
    QuietKeepsQueue(w, next);
  }

  lemma SendKeepsQueue(w: World, body: Json)
    requires QueueKept(w) && Names(w, body)
    ensures QueueKept(Queued(w, body))
  {
    var next, m := Queued(w, body), w.table.nextId;
    assert m !in w.log.sent && m !in w.table.rows by {
      assert m in w.table.rows ==> RowTrue(w, m);
    }
    assert !InArchive(w.table, m);
    assert m !in w.log.acked;
    forall k | k in next.log.sent
      ensures k < next.table.nextId && InOnePlace(next, k) && Names(next, next.log.sent[k])
    {
      assert InArchive(next.table, k) <==> InArchive(w.table, k);
      if k != m {
        assert InOnePlace(w, k) && Names(w, w.log.sent[k]);
      }
    }
    assert forall k | k in w.table.rows :: RowTrue(w, k) && RowTrue(next, k);
    assert forall p | p in w.workers :: DeliveryTrue(w, w.workers[p]) ==> DeliveryTrue(next, w.workers[p]);
  }

  lemma AckKeepsQueue(w: World, m: nat)
    requires QueueKept(w) && m in w.table.rows && m in w.log.triaged
    ensures QueueKept(w.(table := Pgmq.Deleted(w.table, m), log := w.log.(acked := w.log.acked + {m})))
  {
    var next := w.(table := Pgmq.Deleted(w.table, m), log := w.log.(acked := w.log.acked + {m}));
    assert RowTrue(w, m);
    forall k | k in w.log.sent
      ensures InOnePlace(next, k) && Names(next, w.log.sent[k])
    {
      assert InOnePlace(w, k) && Names(w, w.log.sent[k]);
      assert InArchive(next.table, k) <==> InArchive(w.table, k);
    }
    assert forall k | k in next.table.rows :: RowTrue(w, k) && RowTrue(next, k);
    assert forall p | p in w.workers :: DeliveryTrue(w, w.workers[p]) ==> DeliveryTrue(next, w.workers[p]);
  }

  lemma ArchiveKeepsQueue(w: World, m: nat)
    requires QueueKept(w) && m in w.table.rows
    ensures QueueKept(w.(table := Pgmq.ArchivedRow(w.table, m)))
  {
    var next := w.(table := Pgmq.ArchivedRow(w.table, m));
    assert RowTrue(w, m) && InOnePlace(w, m);
    forall k | k in w.log.sent
      ensures InOnePlace(next, k) && Names(next, w.log.sent[k])
    {
      assert InOnePlace(w, k) && Names(w, w.log.sent[k]);
      ArchivedNew(w.table, m, k);
    }
    ArchiveGrows(w, m);
    assert forall k | k in next.table.rows :: RowTrue(w, k) && RowTrue(next, k);
    assert forall p | p in w.workers :: DeliveryTrue(w, w.workers[p]) ==> DeliveryTrue(next, w.workers[p]);
  }

  lemma ArchiveGrows(w: World, m: nat)
    requires ArchiveTrue(w) && m in w.table.rows && RowTrue(w, m) && !InArchive(w.table, m)
    ensures ArchiveTrue(w.(table := Pgmq.ArchivedRow(w.table, m)))
  {
  }

  lemma TableSettledKept(w: World, d: Delivery, ceiling: int)
    requires QueueKept(w) && (d.phase == Committed ==> d.id in w.log.triaged)
    ensures QueueKept(TableSettled(w, d, ceiling))
  {
    if d.id !in w.table.rows || (d.phase == Failed && d.attempt < ceiling) {
      SameDeliveries(w, TableSettled(w, d, ceiling));
    } else if d.phase == Committed {
      AckKeepsQueue(w, d.id);
    } else {
      ArchiveKeepsQueue(w, d.id);
    }
  }

  /** The queue and the record of acks after a settlement. */
  ghost function TableSettled(w: World, d: Delivery, ceiling: int): World {
    w.(table := Settled(w.table, d, ceiling),
       log := if d.phase == Committed && d.id in w.table.rows then w.log.(acked := w.log.acked + {d.id}) else w.log)
  }

  lemma SettleKeepsQueue(w: World, p: nat, ceiling: int)
    requires QueueKept(w) && WorkEnabled(w, p, Settle)
    ensures QueueKept(WorkNext(w, p, Settle, ceiling))
  {
    var d := w.workers[p];
    assert DeliveryTrue(w, d);
    TableSettledKept(w, d, ceiling);
    FewerDeliveries(TableSettled(w, d, ceiling), w.workers - {p});
  }

  lemma FewerDeliveries(w: World, workers: map<nat, Delivery>)
    requires QueueKept(w) && forall p | p in workers :: p in w.workers && workers[p] == w.workers[p]
    ensures QueueKept(w.(workers := workers))
  {
    SameDeliveries(w, w.(workers := workers));
  }

  lemma ReceiveKeepsQueue(w: World, p: nat, m: nat, timeout: nat, ceiling: int)
    requires QueueKept(w) && WorkEnabled(w, p, Receive(m, timeout))
    ensures QueueKept(WorkNext(w, p, Receive(m, timeout), ceiling))
  {
    var next := WorkNext(w, p, Receive(m, timeout), ceiling);
    assert RowTrue(w, m);
    forall q | q in next.workers
      ensures DeliveryTrue(next, next.workers[q])
    {
      assert q != p ==> DeliveryTrue(w, w.workers[q]);
    }
    QuietKeepsQueue(w, next);
  }

  lemma MoveKeepsQueue(w: World, p: nat, phase: Phase, db: Db, triaged: set<nat>)
    requires QueueKept(w) && p in w.workers && w.workers[p].body.TriageMessage? && w.log.triaged <= triaged
    requires phase == Committed ==> w.workers[p].id in triaged
    ensures QueueKept(Moved(w, p, phase).(db := db, log := w.log.(triaged := triaged)))
  {
    var next := Moved(w, p, phase).(db := db, log := w.log.(triaged := triaged));
    forall q | q in next.workers
      ensures DeliveryTrue(next, next.workers[q])
    {
      assert DeliveryTrue(w, w.workers[q]);
    }
    QuietKeepsQueue(w, next);
  }

  lemma IntakeKeepsQueue(w: World, step: IntakeStep)
    requires QueueKept(w) && IntakeEnabled(w, step)
    ensures QueueKept(IntakeNext(w, step))
  {
    var next := IntakeNext(w, step);
    match step
    case Enqueue(id) =>
      var body := TriageMessage(w.pending[id], id);
      SendKeepsQueue(w, body);
      SameDeliveries(Queued(w, body), next);
    case SendOther(text) => SendKeepsQueue(w, Value(text));
    case _ => SameDeliveries(w, next);
  }

  lemma WorkKeepsQueue(w: World, p: nat, step: WorkStep, ceiling: int)
    requires QueueKept(w) && WorkEnabled(w, p, step)
    ensures QueueKept(WorkNext(w, p, step, ceiling))
  {
    var next := WorkNext(w, p, step, ceiling);
    match step
    case Settle => SettleKeepsQueue(w, p, ceiling);
    case Receive(m, timeout) => ReceiveKeepsQueue(w, p, m, timeout, ceiling);
    case Count => MoveKeepsQueue(w, p, next.workers[p].phase, w.db, w.log.triaged);
    case Commit(_) => MoveKeepsQueue(w, p, Committed, next.db, next.log.triaged);
    case Fail => MoveKeepsQueue(w, p, Failed, w.db, w.log.triaged);
    case Crash => SameDeliveries(w, next);
  }

  lemma DeskKeepsQueue(w: World, s: nat, step: DeskStep)
    requires QueueKept(w) && DeskEnabled(w, s, step)
    ensures QueueKept(DeskNext(w, s, step))
  {
    SameDeliveries(w, DeskNext(w, s, step));
  }

  lemma TickKeepsQueue(w: World, dt: nat)
    requires QueueKept(w)
    ensures QueueKept(w.(table := w.table.(now := w.table.now + dt)))
  {
    SameDeliveries(w, w.(table := w.table.(now := w.table.now + dt)));
  }

  lemma PurgeKeepsQueue(w: World, gone: set<nat>)
    requires QueueKept(w)
    ensures QueueKept(w.(db := PurgeRows(w.db, gone)))
  {
    SameDeliveries(w, w.(db := PurgeRows(w.db, gone)));
  }

  lemma StepKeepsQueue(w: World, e: Event, ceiling: int)
    requires QueueKept(w) && Enabled(w, e)
    ensures QueueKept(Next(w, e, ceiling))
  {
    match e
    case Intake(step) => IntakeKeepsQueue(w, step);
    case Work(p, step) => WorkKeepsQueue(w, p, step, ceiling);
    case Desk(s, step) => DeskKeepsQueue(w, s, step);
    case Tick(dt) => TickKeepsQueue(w, dt);
    case Purge(gone) => PurgeKeepsQueue(w, gone);
  }

  lemma {:induction false} RunKeepsQueue(ws: seq<World>, es: seq<Event>, ceiling: int, k: nat)
    requires IsRun(ws, es, ceiling) && k <= |es|
    ensures QueueKept(ws[k])
  {
    if k > 0 {
      RunKeepsQueue(ws, es, ceiling, k - 1);
      assert IsStep(ws, es, ceiling, k - 1);
      StepKeepsQueue(ws[k - 1], es[k - 1], ceiling);
    }
  }

  /**
   * At every point of every run, whatever crashes and expires: each message sent is in
   * exactly one of the main queue, the archive and the acked ones; an acked one had a triage
   * run committed; and a triage message names a request that had been inserted, under its org.
   */
  lemma NoMessageLost(ws: seq<World>, es: seq<Event>, ceiling: int, k: nat, m: nat)
    requires IsRun(ws, es, ceiling) && k <= |es| && m in ws[k].log.sent
    ensures InOnePlace(ws[k], m)
    ensures m in ws[k].log.acked ==> m in ws[k].log.triaged
    ensures ws[k].log.sent[m].TriageMessage? ==>
      var body := ws[k].log.sent[m];
      body.requestId in ws[k].log.born && ws[k].log.born[body.requestId] == body.orgId
  {
    RunKeepsQueue(ws, es, ceiling, k);
    assert Names(ws[k], ws[k].log.sent[m]);
  }
}

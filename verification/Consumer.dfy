/**
 * One turn of each worker loop. A turn is the steps of the lifecycle's transition system
 * taken one after the other: receive, run, and one settlement.
 */
module Consumer {
  import opened Options
  import opened Messages
  import opened Records
  import opened Lifecycle
  import Pgmq
  import TriagePipeline
  import Ingestion
  import Chunker

  /** The smallest message id that can be read now. */
  ghost predicate IsFirstReadable(table: Pgmq.Table, m: nat) {
    Pgmq.Readable(table, m) && forall other | Pgmq.Readable(table, other) :: m <= other
  }

  /** The delivery the table makes of message `m`. */
  ghost predicate IsDeliveryOf(table: Pgmq.Table, m: nat, d: Delivery) {
    m in table.rows && d.id == m && d.body == table.rows[m].message && d.attempt == table.rows[m].readCt + 1
  }

  /** What one receive and one settlement do to the queue: nothing if there was nothing to read. */
  ghost predicate IsTurn(before: Pgmq.Table, after: Pgmq.Table, timeout: nat, ceiling: int, got: bool, d: Delivery) {
    if got then
      && IsFirstReadable(before, d.id) && IsDeliveryOf(before, d.id, d)
      && after == Settled(Pgmq.ReadOne(before, d.id, timeout), d, ceiling)
    else after == before && forall m :: !Pgmq.Readable(before, m)
  }

  method ReceiveOne(queue: Pgmq.PgmqQueue, timeout: nat) returns (message: Option<Pgmq.QueueMessage>)
    modifies queue
    ensures message.None? ==> queue.table == old(queue.table) && forall m :: !Pgmq.Readable(old(queue.table), m)
    ensures message.Some? ==>
      && IsFirstReadable(old(queue.table), message.value.id)
      && queue.table == Pgmq.ReadOne(old(queue.table), message.value.id, timeout)
      && IsDeliveryOf(old(queue.table), message.value.id,
                      Delivery(message.value.id, message.value.deliveryAttempt, message.value.body, Got))
  {
    ghost var before := queue.table;
    ghost var ids;
    var messages;
    messages, ids := queue.Receive(timeout, 1);
    if messages == [] {
      assert ids == [];
      return None;
    }
    assert ids == [ids[0]] && ids[..0] == [];
    assert queue.table == Pgmq.ReadOne(before, ids[0], timeout);
    forall other | Pgmq.Readable(before, other)
      ensures ids[0] <= other
    {
      assert other in ids ==> other == ids[0];
    }
    message := Some(messages[0]);
  }

  /** A run failed: dead-letter at the ceiling, nack below it. */
  method SettleFailed(queue: Pgmq.PgmqQueue, message: Pgmq.QueueMessage, ceiling: int, ghost d: Delivery)
    requires d == Delivery(message.id, message.deliveryAttempt, message.body, Failed)
    modifies queue
    ensures queue.table == Settled(old(queue.table), d, ceiling)
  {
    if message.deliveryAttempt >= ceiling {
      queue.DeadLetter(message.id);
    } else {
      queue.Nack(message.id);
    }
  }

  const NO_DELIVERY := Delivery(0, 0, Null, Got)
  const NO_RESULT := TriageResult(NeedsHuman, Routing("", "", "", ""), Draft(0, "", [], 0.0, "", 0, 0))

  /** The run committed: its result is what the pipeline promises, and exactly its writes are in the database. */
  ghost predicate TriageCommitted(calls: TriagePipeline.Calls, org: nat, id: nat, before: Db, after: Db,
                                  result: TriageResult, run: TriagePipeline.Run)
  {
    && TriagePipeline.IsResult(calls, org, run, result) && IsTriaged(result.status) && Owned(before, org, id)
    && TriageWrites(before, org, id, NextVersion(before, id), result) == Some(after)
  }

  /** The transaction of one triage run: the mark, then the pipeline; an exception rolls both back. */
  method TriageTransaction(store: Store, org: nat, id: nat, calls: TriagePipeline.Calls)
    returns (ok: bool, ghost result: TriageResult, ghost run: TriagePipeline.Run)
    requires TriagePipeline.CallsFit(calls)
    modifies store
    ensures ok <==> !TriagePipeline.RunRaises(calls, old(store.db), org, id)
    ensures if ok then TriageCommitted(calls, org, id, old(store.db), store.db, result, run) else store.db == old(store.db)
  {
    var saved := store.db;
    var found := store.SelectRequest(org, id);
    if found.Some? {
      store.UpdateRequest(org, id, found.value.(status := Triaging));
    }
    assert store.db == SetStatus(saved, org, id, Triaging);
    assert Versions(store.db, id) == Versions(saved, id);
    ok, result, run := TriagePipeline.RunTriagePipeline(store, org, id, calls);
    if !ok {
      store.db := saved;
    }
  }

  /** How the run of a message ends. */
  ghost function TriagePhase(calls: TriagePipeline.Calls, db: Db, org: nat, id: nat): Phase {
    if TriagePipeline.RunRaises(calls, db, org, id) then Failed else Committed
  }

  /** A valid message: run it, and settle it as the run ended. */
  method HandleTriage(queue: Pgmq.PgmqQueue, store: Store, message: Pgmq.QueueMessage, calls: TriagePipeline.Calls, ceiling: int)
    returns (ghost d: Delivery, ghost result: TriageResult, ghost run: TriagePipeline.Run)
    requires TriagePipeline.CallsFit(calls) && message.body.TriageMessage?
    modifies queue, store
    ensures d == Delivery(message.id, message.deliveryAttempt, message.body, d.phase)
    ensures d.phase == TriagePhase(calls, old(store.db), d.body.orgId, d.body.requestId)
    ensures queue.table == Settled(old(queue.table), d, ceiling)
    ensures if d.phase == Committed then
              TriageCommitted(calls, d.body.orgId, d.body.requestId, old(store.db), store.db, result, run)
            else store.db == old(store.db)
  {
    var ok;
    ok, result, run := TriageTransaction(store, message.body.orgId, message.body.requestId, calls);
    if ok {
      d := Delivery(message.id, message.deliveryAttempt, message.body, Committed);
      queue.Ack(message.id);
    } else {
      d := Delivery(message.id, message.deliveryAttempt, message.body, Failed);
      SettleFailed(queue, message, ceiling, d);
    }
  }

  /**
   * The triage turn. A body that breaks the contract is dead-lettered; a run that commits is
   * acked, and has written exactly one result; a run that raises has written nothing, and is
   * nacked, or dead-lettered at the ceiling. When a run raises is in `RunRaises`.
   */
  method ProcessOne(queue: Pgmq.PgmqQueue, store: Store, calls: TriagePipeline.Calls, timeout: nat, ceiling: int)
    returns (got: bool, ghost d: Delivery, ghost result: TriageResult, ghost run: TriagePipeline.Run)
    requires TriagePipeline.CallsFit(calls)
    modifies queue, store
    ensures IsTurn(old(queue.table), queue.table, timeout, ceiling, got, d)
    ensures got ==>
      d.phase == if d.body.TriageMessage? then TriagePhase(calls, old(store.db), d.body.orgId, d.body.requestId) else Got
    ensures got && d.phase == Committed ==>
      TriageCommitted(calls, d.body.orgId, d.body.requestId, old(store.db), store.db, result, run)
    ensures !(got && d.phase == Committed) ==> store.db == old(store.db)
  {
    d, result, run := NO_DELIVERY, NO_RESULT, TriagePipeline.NO_RUN;
    var received := ReceiveOne(queue, timeout);
    if received.None? {
      return false, d, result, run;
    }
    got := true;
    var message := received.value;
    if message.body.TriageMessage? {
      d, result, run := HandleTriage(queue, store, message, calls, ceiling);
    } else {
      d := Delivery(message.id, message.deliveryAttempt, message.body, Got);
      queue.DeadLetter(message.id);
    }
  }

  /** How the ingestion of a document ends. */
  ghost function IngestPhase(index: Ingestion.Index, org: nat, id: nat, readers: Ingestion.Readers, model: Ingestion.Model,
                             count: Chunker.Counter): Phase
  {
    if Ingestion.Raises(index, org, id, readers, model, count) then Failed else Committed
  }

  /** The ingestion committed: the document is indexed or marked, and an indexed one's rows hold the model's vectors. */
  ghost predicate IngestCommitted(before: Ingestion.Index, after: Ingestion.Index, org: nat, id: nat,
                                  readers: Ingestion.Readers, model: Ingestion.Model, count: Chunker.Counter)
  {
    && Ingestion.IsIngested(before, after, org, id, readers, count)
    && Ingestion.IsEmbedded(before.documents[id], after, id, readers, model, count)
  }

  /** A valid message: ingest its document, and settle it as that ended. */
  method HandleIngest(queue: Pgmq.PgmqQueue, store: Ingestion.IndexStore, message: Pgmq.QueueMessage,
                      readers: Ingestion.Readers, model: Ingestion.Model, count: Chunker.Counter, ceiling: int)
    returns (ghost d: Delivery)
    requires message.body.IngestMessage?
    modifies queue, store
    ensures d == Delivery(message.id, message.deliveryAttempt, message.body, d.phase)
    ensures d.phase == IngestPhase(old(store.index), d.body.orgId, d.body.documentId, readers, model, count)
    ensures queue.table == Settled(old(queue.table), d, ceiling)
    ensures if d.phase == Committed then
              IngestCommitted(old(store.index), store.index, d.body.orgId, d.body.documentId, readers, model, count)
            else store.index == old(store.index)
  {
    var ok := Ingestion.Ingest(store, message.body.orgId, message.body.documentId, readers, model, count);
    if ok {
      d := Delivery(message.id, message.deliveryAttempt, message.body, Committed);
      queue.Ack(message.id);
    } else {
      d := Delivery(message.id, message.deliveryAttempt, message.body, Failed);
      SettleFailed(queue, message, ceiling, d);
    }
  }

  /** The ingest turn: the same ladder, but a document that cannot be indexed is marked and acked. */
  method ProcessOneIngest(queue: Pgmq.PgmqQueue, store: Ingestion.IndexStore, readers: Ingestion.Readers,
                          model: Ingestion.Model, count: Chunker.Counter, timeout: nat, ceiling: int)
    returns (got: bool, ghost d: Delivery)
    modifies queue, store
    ensures IsTurn(old(queue.table), queue.table, timeout, ceiling, got, d)
    ensures got ==>
      d.phase == if d.body.IngestMessage? then
                   IngestPhase(old(store.index), d.body.orgId, d.body.documentId, readers, model, count)
                 else Got
    ensures got && d.phase == Committed ==>
      IngestCommitted(old(store.index), store.index, d.body.orgId, d.body.documentId, readers, model, count)
    ensures !(got && d.phase == Committed) ==> store.index == old(store.index)
  {
    var received := ReceiveOne(queue, timeout);
    d := NO_DELIVERY;
    if received.None? {
      return false, d;
    }
    got := true;
    var message := received.value;
    if message.body.IngestMessage? {
      d := HandleIngest(queue, store, message, readers, model, count, ceiling);
    } else {
      d := Delivery(message.id, message.deliveryAttempt, message.body, Got);
      queue.DeadLetter(message.id);
    }
  }

  /** A turn's receive, as a step. */
  lemma ReceiveStep(w: World, p: nat, timeout: nat, ceiling: int, d: Delivery) returns (next: World)
    requires p !in w.workers && IsFirstReadable(w.table, d.id) && IsDeliveryOf(w.table, d.id, d)
    ensures Leads(w, Work(p, Receive(d.id, timeout)), ceiling, next)
    ensures next.table == Pgmq.ReadOne(w.table, d.id, timeout) && next.workers == w.workers[p := d.(phase := Got)]
    ensures next.db == w.db && next.log.acked == w.log.acked
  {
    next := Next(w, Work(p, Receive(d.id, timeout)), ceiling);
  }

  /** A turn's settlement, as a step. */
  lemma SettleStep(w: World, mid: World, p: nat, timeout: nat, ceiling: int, d: Delivery) returns (next: World)
    requires p !in w.workers && mid.workers == w.workers[p := d] && d.id in w.table.rows
    requires mid.table == Pgmq.ReadOne(w.table, d.id, timeout)
    requires d.phase == Committed || d.phase == Failed || (d.phase == Got && !d.body.TriageMessage?)
    ensures Leads(mid, Work(p, Settle), ceiling, next)
    ensures next.table == Settled(mid.table, d, ceiling) && next.workers == w.workers && next.db == mid.db
    ensures next.log.acked == mid.log.acked + if d.phase == Committed then {d.id} else {}
  {
    next := Next(mid, Work(p, Settle), ceiling);
    assert next.workers == w.workers;
  }

  /** A run that commits, as two steps: it reads the version, and writes. */
  lemma RunSteps(w: World, p: nat, ceiling: int, d: Delivery, result: TriageResult, db: Db) returns (counted: World, next: World)
    requires p in w.workers && w.workers[p] == d.(phase := Got) && d.phase == Committed
    requires d.body.TriageMessage? && Owned(w.db, d.body.orgId, d.body.requestId)
    requires IsTriaged(result.status) && result.draft.org == d.body.orgId
    requires TriageWrites(w.db, d.body.orgId, d.body.requestId, NextVersion(w.db, d.body.requestId), result) == Some(db)
    ensures Leads(w, Work(p, Count), ceiling, counted)
    ensures Leads(counted, Work(p, Commit(result)), ceiling, next)
    ensures next.db == db && next.table == w.table && next.workers == w.workers[p := d]
  {
    counted := Next(w, Work(p, Count), ceiling);
    next := Next(counted, Work(p, Commit(result)), ceiling);
  }

  lemma PathOfFour(ws: seq<World>, es: seq<Event>, ceiling: int)
    requires |ws| == 5 && |es| == 4
    requires Leads(ws[0], es[0], ceiling, ws[1]) && Leads(ws[1], es[1], ceiling, ws[2])
    requires Leads(ws[2], es[2], ceiling, ws[3]) && Leads(ws[3], es[3], ceiling, ws[4])
    ensures IsPath(ws, es, ceiling)
  {
    forall k {:trigger es[k]} | 0 <= k < |es|
      ensures IsStep(ws, es, ceiling, k)
    {
      assert k == 0 || k == 1 || k == 2 || k == 3;
    }
  }

  /** The event is enabled and leads from one state to the other. */
  ghost predicate Leads(w: World, e: Event, ceiling: int, next: World) {
    Enabled(w, e) && next == Next(w, e, ceiling)
  }

  /** A turn that commits is a run of the transition system: receive, count, commit, settle. */
  lemma TurnIsSteps(w: World, p: nat, after: Pgmq.Table, db: Db, timeout: nat, ceiling: int, d: Delivery, result: TriageResult)
    returns (ws: seq<World>, es: seq<Event>)
    requires p !in w.workers && IsTurn(w.table, after, timeout, ceiling, true, d) && d.phase == Committed
    requires d.body.TriageMessage? && Owned(w.db, d.body.orgId, d.body.requestId)
    requires IsTriaged(result.status) && result.draft.org == d.body.orgId
    requires TriageWrites(w.db, d.body.orgId, d.body.requestId, NextVersion(w.db, d.body.requestId), result) == Some(db)
    ensures IsPath(ws, es, ceiling) && ws[0] == w
    ensures es == [Work(p, Receive(d.id, timeout)), Work(p, Count), Work(p, Commit(result)), Work(p, Settle)]
    ensures ws[4].table == after && ws[4].db == db && ws[4].workers == w.workers && d.id in ws[4].log.acked
  {
    var w1 := ReceiveStep(w, p, timeout, ceiling, d);
    var w2, w3 := RunSteps(w1, p, ceiling, d, result, db);
    assert w3.workers == w.workers[p := d];
    var w4 := SettleStep(w, w3, p, timeout, ceiling, d);
    ws := [w, w1, w2, w3, w4];
    es := [Work(p, Receive(d.id, timeout)), Work(p, Count), Work(p, Commit(result)), Work(p, Settle)];
    PathOfFour(ws, es, ceiling);
  }

  /** So is a turn that does not: receive, the failure if there was a run, settle; the database stays. */
  lemma FailedTurnIsSteps(w: World, p: nat, after: Pgmq.Table, timeout: nat, ceiling: int, d: Delivery)
    returns (ws: seq<World>, es: seq<Event>)
    requires p !in w.workers && IsTurn(w.table, after, timeout, ceiling, true, d)
    requires if d.body.TriageMessage? then d.phase == Failed else d.phase == Got
    ensures es == [Work(p, Receive(d.id, timeout))] + (if d.body.TriageMessage? then [Work(p, Fail)] else []) + [Work(p, Settle)]
    ensures IsPath(ws, es, ceiling) && ws[0] == w
    ensures ws[|es|].table == after && ws[|es|].db == w.db && ws[|es|].workers == w.workers
    ensures ws[|es|].log.acked == w.log.acked
  {
    var w1 := ReceiveStep(w, p, timeout, ceiling, d);
    ws, es := PathThen([w], [], ceiling, Work(p, Receive(d.id, timeout)));
    if d.body.TriageMessage? {
      var w2 := Next(w1, Work(p, Fail), ceiling);
      assert w2.workers == w.workers[p := d];
      var w3 := SettleStep(w, w2, p, timeout, ceiling, d);
      ws, es := PathThen(ws, es, ceiling, Work(p, Fail));
      ws, es := PathThen(ws, es, ceiling, Work(p, Settle));
    } else {
      var w2 := SettleStep(w, w1, p, timeout, ceiling, d);
      ws, es := PathThen(ws, es, ceiling, Work(p, Settle));
    }
  }

  /**
   * What a turn leaves of the message it received, and that it leaves every other row alone: a
   * message that was handled is gone, one that failed below the ceiling can be received at
   * once and has one more read, and any other is in the archive with its body.
   */
  lemma TurnMeans(before: Pgmq.Table, after: Pgmq.Table, timeout: nat, ceiling: int, d: Delivery)
    requires IsTurn(before, after, timeout, ceiling, true, d)
    ensures d.id in before.rows && d.body == before.rows[d.id].message && d.attempt == before.rows[d.id].readCt + 1
    ensures d.phase == Committed ==> d.id !in after.rows && after.archive == before.archive
    ensures d.phase == Failed && d.attempt < ceiling ==>
      && d.id in after.rows && after.rows[d.id] == Pgmq.Row(d.body, d.attempt, before.now) && after.archive == before.archive
    ensures d.phase != Committed && !(d.phase == Failed && d.attempt < ceiling) ==>
      d.id !in after.rows && after.archive == before.archive + [Pgmq.Archived(d.id, d.body)]
    ensures forall m | m != d.id :: m in after.rows <==> m in before.rows
    ensures forall m | m != d.id && m in after.rows :: after.rows[m] == before.rows[m]
    ensures after.now == before.now && after.nextId == before.nextId
  {
  }
}

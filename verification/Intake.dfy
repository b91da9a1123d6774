/** Taking a request in: the row is inserted and committed first, and only then is its message sent. */
module Intake {
  import opened Options
  import opened Messages
  import opened Records
  import opened Lifecycle
  import Pgmq

  /**
   * `crash` stops the handler between its two effects, which leaves a request without a
   * message, and never a message without a request. The row's id and token are new.
   */
  method SubmitRequest(store: Store, queue: Pgmq.PgmqQueue, org: nat, id: nat, createdAt: int, crash: bool) returns (sent: bool)
    requires id !in store.db.requests
    modifies store, queue
    ensures store.db == old(store.db).(requests := old(store.db).requests[id := Request(org, createdAt, Received, None, None, false)])
    ensures sent <==> !crash
    ensures queue.table == if sent then Pgmq.Sent(old(queue.table), TriageMessage(org, id)) else old(queue.table)
  {
    store.InsertRequest(id, Request(org, createdAt, Received, None, None, false));
    if crash {
      return false;
    }
    var message := queue.Send(TriageMessage(org, id));
    sent := true;
  }

  /** A submission is two steps of the transition system, the second of which is a crash if the handler stops in between. */
  lemma SubmissionIsSteps(w: World, org: nat, id: nat, createdAt: int, crash: bool, ceiling: int)
    returns (ws: seq<World>, es: seq<Event>)
    requires id !in w.log.born && id !in w.db.requests && id !in w.pending
    ensures es == [Intake(Submit(org, id, createdAt)), Intake(if crash then IntakeCrash(id) else Enqueue(id))]
    ensures IsPath(ws, es, ceiling) && ws[0] == w
    ensures ws[2].db == w.db.(requests := w.db.requests[id := Request(org, createdAt, Received, None, None, false)])
    ensures ws[2].table == if crash then w.table else Pgmq.Sent(w.table, TriageMessage(org, id))
    ensures ws[2].pending == w.pending
  {
    var submit, finish := Intake(Submit(org, id, createdAt)), Intake(if crash then IntakeCrash(id) else Enqueue(id));
    ws, es := PathThen([w], [], ceiling, submit);
    ws, es := PathThen(ws, es, ceiling, finish);
    assert ws[2].pending == w.pending;
  }
}

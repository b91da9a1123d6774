/**
 * The Postgres queue: rows with a read count and a visibility time, addressed by a stable
 * message id, and an archive table that serves as the dead-letter queue.
 */
module Pgmq {
  import opened Messages
  import opened LeaseQueue

  datatype Row = Row(message: Json, readCt: nat, vt: int)

  datatype Archived = Archived(id: nat, message: Json)

  datatype Table = Table(rows: map<nat, Row>, archive: seq<Archived>, nextId: nat, now: int)

  const EMPTY_TABLE := Table(map[], [], 0, 0)

  // ---- the extension's functions -----------------------------------------------------

  function Sent(t: Table, message: Json): Table {
    t.(rows := t.rows[t.nextId := Row(message, 0, t.now)], nextId := t.nextId + 1)
  }

  predicate Readable(t: Table, id: nat) {
    id in t.rows && t.rows[id].vt <= t.now
  }

  function ReadOne(t: Table, id: nat, timeout: nat): Table
    requires id in t.rows
  {
    t.(rows := t.rows[id := Row(t.rows[id].message, t.rows[id].readCt + 1, t.now + timeout)])
  }

  /** `pgmq.delete`: false, and no change, when the id is gone. */
  function Deleted(t: Table, id: nat): Table {
    t.(rows := t.rows - {id})
  }

  /** `pgmq.set_vt(.., 0)`: no row, and no change, when the id is gone. */
  function MadeVisible(t: Table, id: nat): Table {
    if id in t.rows then t.(rows := t.rows[id := t.rows[id].(vt := t.now)]) else t
  }

  /** `pgmq.archive`: the row moves to the archive, if it is still there. */
  function ArchivedRow(t: Table, id: nat): Table {
    if id in t.rows then t.(rows := t.rows - {id}, archive := t.archive + [Archived(id, t.rows[id].message)]) else t
  }

  function ReadMany(t: Table, ids: seq<nat>, timeout: nat): Table
    decreases |ids|
  {
    if ids == [] then t
    else
      var before := ReadMany(t, ids[..|ids| - 1], timeout);
      var id := ids[|ids| - 1];
      if id in before.rows then ReadOne(before, id, timeout) else before
  }

  // ---- the adapter ---------------------------------------------------------------------

  datatype QueueMessage = QueueMessage(id: nat, body: Json, deliveryAttempt: nat)

  /** The readable ids, smallest first. */
  ghost predicate IsReadOrder(t: Table, ids: seq<nat>) {
    && (forall i | 0 <= i < |ids| :: Readable(t, ids[i]))
    && (forall i, j | 0 <= i < j < |ids| :: ids[i] < ids[j])
    && forall id | Readable(t, id) && id !in ids :: forall i | 0 <= i < |ids| :: ids[i] < id
  }

  lemma {:induction false} ReadManyFrame(t: Table, ids: seq<nat>, timeout: nat, id: nat)
    requires (forall i | 0 <= i < |ids| :: ids[i] in t.rows) && id !in ids
    ensures ReadMany(t, ids, timeout).rows.Keys == t.rows.Keys
    ensures ReadMany(t, ids, timeout).now == t.now
    ensures id in t.rows ==> ReadMany(t, ids, timeout).rows[id] == t.rows[id]
  {
    if ids != [] {
      var short := ids[..|ids| - 1];
      assert forall i | 0 <= i < |short| :: short[i] in t.rows;
      assert id !in short;
      ReadManyFrame(t, short, timeout, id);
    }
  }

  /** `messages` are the deliveries of `ids`, in order, each with its new read count. */
  ghost predicate AreReads(t: Table, ids: seq<nat>, messages: seq<QueueMessage>) {
    && |messages| == |ids|
    && forall i | 0 <= i < |ids| ::
      && ids[i] in t.rows
      && messages[i] == QueueMessage(ids[i], t.rows[ids[i]].message, t.rows[ids[i]].readCt + 1)
  }

  /** `id` is the smallest readable id not taken yet, if there is one. */
  ghost predicate IsNext(t: Table, ids: seq<nat>, found: bool, id: nat) {
    if found then Readable(t, id) && id !in ids && forall other | Readable(t, other) && other !in ids :: id <= other
    else forall other | Readable(t, other) :: other in ids
  }

  lemma {:induction false} SmallestUpTo(s: set<nat>, x: nat)
    requires x in s
    ensures exists least :: least in s && forall y | y in s :: least <= y
    decreases x
  {
    if y :| y in s && y < x {
      SmallestUpTo(s, y);
    }
  }

  lemma ReadManyAgain(t: Table, ids: seq<nat>, timeout: nat, id: nat)
    requires id in ReadMany(t, ids, timeout).rows
    ensures ReadMany(t, ids + [id], timeout) == ReadOne(ReadMany(t, ids, timeout), id, timeout)
  {
  }

  lemma InReadOrder(t: Table, ids: seq<nat>, id: nat)
    requires IsReadOrder(t, ids) && IsNext(t, ids, true, id)
    ensures IsReadOrder(t, ids + [id])
  {
  }

  lemma AreReadsMore(t: Table, ids: seq<nat>, messages: seq<QueueMessage>, id: nat)
    requires AreReads(t, ids, messages) && id in t.rows
    ensures AreReads(t, ids + [id], messages + [QueueMessage(id, t.rows[id].message, t.rows[id].readCt + 1)])
  {
  }

  lemma TakeNext(t: Table, ids: seq<nat>, messages: seq<QueueMessage>, timeout: nat, id: nat)
    requires IsReadOrder(t, ids) && AreReads(t, ids, messages) && IsNext(t, ids, true, id)
    ensures var before := ReadMany(t, ids, timeout);
            && id in before.rows && before.rows[id] == t.rows[id]
            && ReadMany(t, ids + [id], timeout) == ReadOne(before, id, timeout)
    ensures IsReadOrder(t, ids + [id])
    ensures AreReads(t, ids + [id], messages + [QueueMessage(id, t.rows[id].message, t.rows[id].readCt + 1)])
  {
    ReadManyFrame(t, ids, timeout, id);
    ReadManyAgain(t, ids, timeout, id);
    InReadOrder(t, ids, id);
    AreReadsMore(t, ids, messages, id);
  }

  method NextReadable(t: Table, taken: set<nat>) returns (found: bool, id: nat)
    ensures found ==> Readable(t, id) && id !in taken && forall other | Readable(t, other) && other !in taken :: id <= other
    ensures !found ==> forall other | Readable(t, other) :: other in taken
  {
    var candidates := set other | other in t.rows && Readable(t, other) && other !in taken;
    found, id := candidates != {}, 0;
    if found {
      ghost var some :| some in candidates;
      SmallestUpTo(candidates, some);
      id :| id in candidates && forall other | other in candidates :: id <= other;
    }
    assert forall other | Readable(t, other) && other !in taken :: other in candidates;
  }

  class PgmqQueue {
    var table: Table

    constructor ()
      ensures table == EMPTY_TABLE
    {
      table := EMPTY_TABLE;
    }

    method Send(payload: Json) returns (id: nat)
      modifies this
      ensures id == old(table.nextId) && table == Sent(old(table), payload)
    {
      id := table.nextId;
      table := table.(rows := table.rows[id := Row(payload, 0, table.now)], nextId := id + 1);
    }

    /** Takes up to `qty` readable messages, smallest id first, and leases them. */
    method Receive(timeout: nat, qty: nat) returns (messages: seq<QueueMessage>, ghost ids: seq<nat>)
      modifies this
      ensures IsReadOrder(old(table), ids) && |ids| <= qty
      ensures |ids| < qty ==> forall id | Readable(old(table), id) :: id in ids
      ensures table == ReadMany(old(table), ids, timeout)
      ensures AreReads(old(table), ids, messages)
    {
      messages, ids := [], [];
      var before := table;
      var taken: set<nat> := {};
      var found, id := NextReadable(before, taken);
      while |messages| < qty && found
        invariant IsReadOrder(before, ids) && AreReads(before, ids, messages) && |ids| <= qty
        invariant table == ReadMany(before, ids, timeout)
        invariant forall x :: x in taken <==> x in ids
        invariant IsNext(before, ids, found, id)
        decreases qty - |messages|
      {
        TakeNext(before, ids, messages, timeout, id);
        var row := table.rows[id];
        table := ReadOne(table, id, timeout);
        messages := messages + [QueueMessage(id, row.message, row.readCt + 1)];
        ids := ids + [id];
        taken := taken + {id};
        found, id := NextReadable(before, taken);
      }
    }

    method Ack(id: nat)
      modifies this
      ensures table == Deleted(old(table), id)
    {
      table := table.(rows := table.rows - {id});
    }

    method Nack(id: nat)
      modifies this
      ensures table == MadeVisible(old(table), id)
    {
      if id in table.rows {
        table := table.(rows := table.rows[id := table.rows[id].(vt := table.now)]);
      }
    }

    method DeadLetter(id: nat)
      modifies this
      ensures table == ArchivedRow(old(table), id)
    {
      if id in table.rows {
        var message := table.rows[id].message;
        table := table.(rows := table.rows - {id}, archive := table.archive + [Archived(id, message)]);
      }
    }
  }

  // ---- refinement ------------------------------------------------------------------------

  function DeadBodies(archive: seq<Archived>): (dead: seq<Json>)
    ensures |dead| == |archive| && forall i | 0 <= i < |dead| :: dead[i] == archive[i].message
  {
    seq(|archive|, i requires 0 <= i < |archive| => archive[i].message)
  }

  function Abstract(t: Table): Queue {
    Queue(map id | id in t.rows :: Entry(t.rows[id].message, t.rows[id].readCt, t.rows[id].vt),
          DeadBodies(t.archive), t.nextId, t.now)
  }

  /** The table and the id each delivery was handed. */
  datatype Client = Client(table: Table, ids: seq<nat>)

  /**
   * One event as this adapter performs it. A receive gets a readable row: the smallest, or
   * another one when concurrent reads have locked and skipped that.
   */
  ghost predicate Performs(c: Client, e: Event, c': Client) {
    match e
    case Send(body) => c' == c.(table := Sent(c.table, body))
    case Tick(dt) => c' == c.(table := c.table.(now := c.table.now + dt))
    case Receive(id, timeout) =>
      Readable(c.table, id) && c' == Client(ReadOne(c.table, id, timeout), c.ids + [id])
    case Ack(i) => i < |c.ids| && c' == c.(table := Deleted(c.table, c.ids[i]))
    case Nack(i) => i < |c.ids| && c' == c.(table := MadeVisible(c.table, c.ids[i]))
    case DeadLetter(i) => i < |c.ids| && c' == c.(table := ArchivedRow(c.table, c.ids[i]))
  }

  ghost predicate Refines(c: Client, s: Session) {
    && Abstract(c.table) == s.queue
    && |c.ids| == |s.receipts| && forall i | 0 <= i < |c.ids| :: c.ids[i] == s.receipts[i].key
  }

  /** Every step of the adapter whose settlement holds its lease is the same step of the lease queue. */
  lemma PgmqRefines(c: Client, s: Session, e: Event, c': Client)
    requires Refines(c, s) && Performs(c, e, c')
    requires Disciplined(s, e)
    ensures Legal(s, e) && Refines(c', Step(s, e))
  {
    assert forall id :: id in c.table.rows <==> id in s.queue.live;
  }

  /** A whole run of the adapter under disciplined clients is a run of the lease queue, with the same deliveries. */
  lemma {:induction false} PgmqRunRefines(clients: seq<Client>, events: seq<Event>, s: Session) returns (end: Session)
    requires |clients| == |events| + 1 && Refines(clients[0], s) && DisciplinedRun(s, events)
    requires forall k | 0 <= k < |events| :: Performs(clients[k], events[k], clients[k + 1])
    ensures Runs(s, events, end) && Refines(clients[|events|], end)
    decreases |events|
  {
    if events == [] {
      end := s;
    } else {
      assert Performs(clients[0], events[0], clients[0 + 1]);
      PgmqRefines(clients[0], s, events[0], clients[1]);
      forall k | 0 <= k < |events[1..]|
        ensures Performs(clients[1..][k], events[1..][k], clients[1..][k + 1])
      {
        assert Performs(clients[k + 1], events[k + 1], clients[k + 1 + 1]);
      }
      end := PgmqRunRefines(clients[1..], events[1..], Step(s, events[0]));
    }
  }
}

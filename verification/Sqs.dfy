/**
 * The SQS adapter. The server gives each receive a new handle and settles a message only
 * through its latest one; the adapter remembers each handle's body, because dead-lettering
 * is a send to the other queue followed by a delete.
 */
module Sqs {
  import opened Messages
  import opened LeaseQueue

  /** `handle` is the latest receive's, or 0 before the first; handles start at 1. */
  datatype Message = Message(body: Json, receiveCount: nat, visibleAt: int, handle: nat)

  datatype Server = Server(messages: map<nat, Message>, dlq: seq<Json>, nextId: nat, nextHandle: nat, now: int)

  const EMPTY_SERVER := Server(map[], [], 0, 1, 0)

  // ---- the service's calls ---------------------------------------------------------------

  function Sent(s: Server, body: Json): Server {
    s.(messages := s.messages[s.nextId := Message(body, 0, s.now, 0)], nextId := s.nextId + 1)
  }

  predicate Receivable(s: Server, id: nat) {
    id in s.messages && s.messages[id].visibleAt <= s.now
  }

  function Received(s: Server, id: nat, timeout: nat): Server
    requires id in s.messages
  {
    var m := s.messages[id];
    s.(messages := s.messages[id := Message(m.body, m.receiveCount + 1, s.now + timeout, s.nextHandle)],
       nextHandle := s.nextHandle + 1)
  }

  /** `DeleteMessage`: succeeds for any handle, and deletes only through a message's latest one. */
  function Deleted(s: Server, handle: nat): Server {
    s.(messages := map id | id in s.messages && s.messages[id].handle != handle :: s.messages[id])
  }

  /** `ChangeMessageVisibility` to 0, through a message's latest handle. */
  function MadeVisible(s: Server, handle: nat): Server {
    s.(messages := map id | id in s.messages ::
         if s.messages[id].handle == handle then s.messages[id].(visibleAt := s.now) else s.messages[id])
  }

  function SentToDlq(s: Server, body: Json): Server {
    s.(dlq := s.dlq + [body])
  }

  /** The remote queue, shared by every adapter instance. */
  class Remote {
    var server: Server

    constructor ()
      ensures server == EMPTY_SERVER
    {
      server := EMPTY_SERVER;
    }
  }

  // ---- the adapter -------------------------------------------------------------------------

  datatype QueueMessage = QueueMessage(id: nat, body: Json, deliveryAttempt: nat)

  /** What happened to a dead-letter call; `Interrupted` is a crash between its two requests. */
  datatype DeadLetterResult = Done | NoCachedBody | Interrupted

  /** The delivery of `id` under handle `h`: a count one higher, a new visibility time, its body cached. */
  ghost predicate IsRead(before: Server, id: nat, h: nat, timeout: nat, out: QueueMessage, after: Server,
                         cache: map<nat, Json>)
  {
    && id in before.messages && id in after.messages
    && var m := before.messages[id];
    && after.messages[id] == Message(m.body, m.receiveCount + 1, before.now + timeout, h)
    && out == QueueMessage(h, m.body, m.receiveCount + 1)
    && h in cache && cache[h] == m.body
  }

  /** What receiving `ids` does: each is delivered under the next handle, and nothing else changes. */
  ghost predicate AreReads(before: Server, ids: seq<nat>, timeout: nat, out: seq<QueueMessage>, after: Server,
                           cache: map<nat, Json>)
  {
    && |out| == |ids|
    && after == before.(messages := after.messages, nextHandle := before.nextHandle + |ids|)
    && after.messages.Keys == before.messages.Keys
    && (forall id | id in before.messages && id !in ids :: after.messages[id] == before.messages[id])
    && forall i {:trigger out[i]} | 0 <= i < |ids| ::
      IsRead(before, ids[i], before.nextHandle + i, timeout, out[i], after, cache)
  }

  lemma ReadMore(before: Server, ids: seq<nat>, timeout: nat, out: seq<QueueMessage>, server: Server, cache: map<nat, Json>,
                 id: nat)
    requires AreReads(before, ids, timeout, out, server, cache) && id in before.messages && id !in ids
    ensures id in server.messages && server.messages[id] == before.messages[id]
    ensures var m, h := server.messages[id], server.nextHandle;
            AreReads(before, ids + [id], timeout, out + [QueueMessage(h, m.body, m.receiveCount + 1)],
                     Received(server, id, timeout), cache[h := m.body])
  {
  }

  lemma PickedMore(picked: seq<nat>, n: nat)
    requires n < |picked|
    requires forall i, j | 0 <= i < j < |picked| :: picked[i] != picked[j]
    ensures picked[n] !in picked[..n] && picked[..n + 1] == picked[..n] + [picked[n]]
  {
  }

  /** Where a receive call has come to: the server, the cache, and the messages it hands out. */
  datatype Reading = Reading(server: Server, cache: map<nat, Json>, out: seq<QueueMessage>)

  function ReadNext(r: Reading, id: nat, timeout: nat): Reading
    requires id in r.server.messages
  {
    var m, h := r.server.messages[id], r.server.nextHandle;
    Reading(Received(r.server, id, timeout), r.cache[h := m.body], r.out + [QueueMessage(h, m.body, m.receiveCount + 1)])
  }

  /** Receiving several messages in one call is receiving them one after the other. */
  function ReadAll(s: Server, cache: map<nat, Json>, ids: seq<nat>, timeout: nat): (r: Reading)
    requires AllReceivable(s, ids)
    ensures r.server.messages.Keys == s.messages.Keys
  {
    if ids == [] then Reading(s, cache, [])
    else
      assert Receivable(s, ids[|ids| - 1]);
      ReadNext(ReadAll(s, cache, ids[..|ids| - 1], timeout), ids[|ids| - 1], timeout)
  }

  ghost predicate AllReceivable(s: Server, ids: seq<nat>) {
    && (forall i | 0 <= i < |ids| :: Receivable(s, ids[i]))
    && forall i, j | 0 <= i < j < |ids| :: ids[i] != ids[j]
  }

  lemma ReadAllMore(s: Server, cache: map<nat, Json>, ids: seq<nat>, timeout: nat, n: nat)
    requires n < |ids| && AllReceivable(s, ids)
    ensures AllReceivable(s, ids[..n]) && AllReceivable(s, ids[..n + 1])
    ensures var before := ReadAll(s, cache, ids[..n], timeout);
            ids[n] in before.server.messages && ReadAll(s, cache, ids[..n + 1], timeout) == ReadNext(before, ids[n], timeout)
  {
    assert Receivable(s, ids[n]);
    assert ids[..n + 1][..n] == ids[..n];
  }

  ghost predicate HasReads(s: Server, ids: seq<nat>, timeout: nat, r: Reading) {
    AreReads(s, ids, timeout, r.out, r.server, r.cache)
  }

  lemma {:induction false} ReadNextMeans(s: Server, ids: seq<nat>, timeout: nat, n: nat, r: Reading)
    requires n < |ids| && AllReceivable(s, ids) && HasReads(s, ids[..n], timeout, r)
    ensures ids[n] in r.server.messages && HasReads(s, ids[..n + 1], timeout, ReadNext(r, ids[n], timeout))
  {
    PickedMore(ids, n);
    assert Receivable(s, ids[n]);
    ReadMore(s, ids[..n], timeout, r.out, r.server, r.cache, ids[n]);
  }

  lemma {:induction false} ReadNone(s: Server, cache: map<nat, Json>, timeout: nat)
    ensures AllReceivable(s, []) && HasReads(s, [], timeout, Reading(s, cache, []))
  {
  }

  /** What a receive call hands out and leaves behind. */
  lemma {:induction false} ReadAllMeans(s: Server, cache: map<nat, Json>, ids: seq<nat>, timeout: nat, n: nat)
    requires n <= |ids| && AllReceivable(s, ids)
    ensures AllReceivable(s, ids[..n]) && HasReads(s, ids[..n], timeout, ReadAll(s, cache, ids[..n], timeout))
  {
    if n == 0 {
      assert ids[..0] == [];
      ReadNone(s, cache, timeout);
    } else {
      ReadAllMeans(s, cache, ids, timeout, n - 1);
      ReadAllMore(s, cache, ids, timeout, n - 1);
      ReadNextMeans(s, ids, timeout, n - 1, ReadAll(s, cache, ids[..n - 1], timeout));
    }
  }

  class SqsQueue {
    const remote: Remote
    var received: map<nat, Json>

    constructor (remote: Remote)
      ensures this.remote == remote && received == map[]
    {
      this.remote := remote;
      received := map[];
    }

    method Send(payload: Json) returns (id: nat)
      modifies remote
      ensures id == old(remote.server.nextId) && remote.server == Sent(old(remote.server), payload)
    {
      id := remote.server.nextId;
      remote.server := Sent(remote.server, payload);
    }

    /** Receives up to `qty` of the messages the service picks (never more than ten), caching each body by handle. */
    method Receive(timeout: nat, qty: nat, picked: seq<nat>) returns (out: seq<QueueMessage>)
      requires |picked| <= if qty < 10 then qty else 10
      requires AllReceivable(remote.server, picked)
      modifies this, remote
      ensures Reading(remote.server, received, out) == ReadAll(old(remote.server), old(received), picked, timeout)
      ensures AreReads(old(remote.server), picked, timeout, out, remote.server, received)
    {
      out := [];
      ghost var before, cached := remote.server, received;
      for n := 0 to |picked|
        invariant AllReceivable(before, picked[..n])
        invariant Reading(remote.server, received, out) == ReadAll(before, cached, picked[..n], timeout)
      {
        ReadAllMore(before, cached, picked, timeout, n);
        var handle, id := remote.server.nextHandle, picked[n];
        remote.server := Received(remote.server, id, timeout);
        var m := remote.server.messages[id];
        received := received[handle := m.body];
        out := out + [QueueMessage(handle, m.body, m.receiveCount)];
      }
      assert picked[..|picked|] == picked;
      ReadAllMeans(before, cached, picked, timeout, |picked|);
    }

    method Ack(handle: nat)
      modifies this, remote
      ensures remote.server == Deleted(old(remote.server), handle)
      ensures received == old(received) - {handle}
    {
      remote.server := Deleted(remote.server, handle);
      received := received - {handle};
    }

    method Nack(handle: nat)
      modifies remote
      ensures remote.server == MadeVisible(old(remote.server), handle)
    {
      remote.server := MadeVisible(remote.server, handle);
    }

    /** Copies the cached body to the dead-letter queue, then deletes the message; `crash` stops it in between. */
    method DeadLetter(handle: nat, crash: bool) returns (r: DeadLetterResult)
      modifies this, remote
      ensures r == NoCachedBody <==> handle !in old(received) || old(received)[handle] == Null
      ensures r == NoCachedBody ==> remote.server == old(remote.server) && received == old(received)
      ensures r == Interrupted ==>
        remote.server == SentToDlq(old(remote.server), old(received)[handle]) && received == old(received)
      ensures r == Done ==>
        && remote.server == Deleted(SentToDlq(old(remote.server), old(received)[handle]), handle)
        && received == old(received) - {handle}
      ensures crash && r != NoCachedBody <==> r == Interrupted
    {
      var body := if handle in received then received[handle] else Null;
      if body == Null {
        return NoCachedBody;
      }
      remote.server := SentToDlq(remote.server, body);
      if crash {
        return Interrupted;
      }
      remote.server := Deleted(remote.server, handle);
      received := received - {handle};
      r := Done;
    }
  }

  // ---- refinement --------------------------------------------------------------------------

  function Abstract(s: Server): Queue {
    Queue(map id | id in s.messages :: Entry(s.messages[id].body, s.messages[id].receiveCount, s.messages[id].visibleAt),
          s.dlq, s.nextId, s.now)
  }

  /** The server, the adapter's cache, and the handle each delivery was given. */
  datatype Client = Client(server: Server, cache: map<nat, Json>, handles: seq<nat>)

  ghost predicate Performs(c: Client, e: Event, c': Client) {
    match e
    case Send(body) => c' == c.(server := Sent(c.server, body))
    case Tick(dt) => c' == c.(server := c.server.(now := c.server.now + dt))
    case Receive(id, timeout) =>
      && Receivable(c.server, id)
      && var h := c.server.nextHandle;
      c' == Client(Received(c.server, id, timeout), c.cache[h := c.server.messages[id].body], c.handles + [h])
    case Ack(i) => i < |c.handles| && c' == c.(server := Deleted(c.server, c.handles[i]), cache := c.cache - {c.handles[i]})
    case Nack(i) => i < |c.handles| && c' == c.(server := MadeVisible(c.server, c.handles[i]))
    case DeadLetter(i) =>
      && i < |c.handles|
      && var h := c.handles[i];
      && h in c.cache && c.cache[h] != Null
      && c' == c.(server := Deleted(SentToDlq(c.server, c.cache[h]), h), cache := c.cache - {h})
  }

  /** The handles of `n` receives. */
  function NextHandles(from: nat, n: nat): (handles: seq<nat>)
    ensures |handles| == n && forall i | 0 <= i < n :: handles[i] == from + i
  {
    seq(n, i requires 0 <= i < n => from + i)
  }

  /** The client goes from the first state to the last by receiving the ids, one step each. */
  ghost predicate AreReceives(clients: seq<Client>, ids: seq<nat>, timeout: nat) {
    |clients| == |ids| + 1
    && forall k {:trigger ids[k]} | 0 <= k < |ids| :: Performs(clients[k], Receive(ids[k], timeout), clients[k + 1])
  }

  lemma {:induction false} ReceivesMore(clients: seq<Client>, ids: seq<nat>, id: nat, timeout: nat, next: Client)
    requires AreReceives(clients, ids, timeout) && Performs(clients[|ids|], Receive(id, timeout), next)
    ensures AreReceives(clients + [next], ids + [id], timeout)
  {
    var all, more := clients + [next], ids + [id];
    forall k {:trigger more[k]} | 0 <= k < |more|
      ensures Performs(all[k], Receive(more[k], timeout), all[k + 1])
    {
      if k < |ids| {
        assert more[k] == ids[k];
      }
    }
  }

  /** The client's state after `n` of the receives. */
  ghost predicate HasRead(c: Client, after: Client, ids: seq<nat>, timeout: nat, n: nat)
    requires n <= |ids| && AllReceivable(c.server, ids[..n])
  {
    var r := ReadAll(c.server, c.cache, ids[..n], timeout);
    after == Client(r.server, r.cache, c.handles + NextHandles(c.server.nextHandle, n))
  }

  /** One receive more is one step. */
  lemma {:induction false} ReceiveStep(c: Client, last: Client, ids: seq<nat>, timeout: nat, n: nat) returns (next: Client)
    requires n < |ids| && AllReceivable(c.server, ids) && AllReceivable(c.server, ids[..n]) && HasRead(c, last, ids, timeout, n)
    ensures Performs(last, Receive(ids[n], timeout), next)
    ensures AllReceivable(c.server, ids[..n + 1]) && HasRead(c, next, ids, timeout, n + 1)
  {
    var r := ReadAll(c.server, c.cache, ids[..n], timeout);
    ReadAllMore(c.server, c.cache, ids, timeout, n);
    ReadAllMeans(c.server, c.cache, ids, timeout, n);
    StillReceivable(c.server, ids, timeout, n, r);
    HandlesMore(c.handles, c.server.nextHandle, n);
    next := Client(Received(last.server, ids[n], timeout), last.cache[last.server.nextHandle := last.server.messages[ids[n]].body],
                   last.handles + [last.server.nextHandle]);
  }

  lemma {:induction false} StillReceivable(s: Server, ids: seq<nat>, timeout: nat, n: nat, r: Reading)
    requires n < |ids| && AllReceivable(s, ids) && HasReads(s, ids[..n], timeout, r)
    ensures Receivable(r.server, ids[n]) && r.server.nextHandle == s.nextHandle + n
  {
    PickedMore(ids, n);
    assert Receivable(s, ids[n]);
  }

  /** A call that receives several messages is that many receives of the client, one step each. */
  lemma {:induction false} ReceiveIsSteps(c: Client, ids: seq<nat>, timeout: nat, n: nat) returns (clients: seq<Client>)
    requires n <= |ids| && AllReceivable(c.server, ids)
    ensures AreReceives(clients, ids[..n], timeout) && clients[0] == c
    ensures AllReceivable(c.server, ids[..n]) && HasRead(c, clients[n], ids, timeout, n)
  {
    if n == 0 {
      clients := [c];
      assert c.handles + NextHandles(c.server.nextHandle, 0) == c.handles;
    } else {
      clients := ReceiveIsSteps(c, ids, timeout, n - 1);
      var next := ReceiveStep(c, clients[n - 1], ids, timeout, n - 1);
      PickedMore(ids, n - 1);
      ReceivesMore(clients, ids[..n - 1], ids[n - 1], timeout, next);
      clients := clients + [next];
    }
  }

  lemma HandlesMore(handles: seq<nat>, from: nat, n: nat)
    ensures handles + NextHandles(from, n) + [from + n] == handles + NextHandles(from, n + 1)
  {
  }

  /** Delivery `i` is the latest of its message. */
  ghost predicate IsLatest(c: Client, s: Session, i: nat, id: nat) {
    && i < |c.handles| == |s.receipts| && id in c.server.messages
    && s.receipts[i].key == id && s.receipts[i].attempt == c.server.messages[id].receiveCount
  }

  /** Delivery `i` has its message's handle, and while unsettled its cached body. */
  ghost predicate IsHeld(c: Client, s: Session, i: nat, id: nat)
    requires IsLatest(c, s, i, id)
  {
    && c.server.messages[id].handle == c.handles[i]
    && (!s.receipts[i].settled ==> c.handles[i] in c.cache && c.cache[c.handles[i]] == c.server.messages[id].body)
  }

  /** A message that has been delivered carries the handle of its latest delivery. */
  ghost predicate HasHolder(c: Client, s: Session, id: nat) {
    exists i | 0 <= i < |c.handles| :: IsLatest(c, s, i, id)
  }

  ghost predicate Refines(c: Client, s: Session) {
    && Abstract(c.server) == s.queue && Sound(s)
    && |c.handles| == |s.receipts| && 0 < c.server.nextHandle
    && (forall i | 0 <= i < |c.handles| :: 0 < c.handles[i] < c.server.nextHandle)
    && (forall i, j | 0 <= i < j < |c.handles| :: c.handles[i] < c.handles[j])
    && (forall i: nat, id: nat | IsLatest(c, s, i, id) :: IsHeld(c, s, i, id))
    && forall id | id in c.server.messages && c.server.messages[id].handle != 0 :: HasHolder(c, s, id)
  }

  /** A handle that is some message's latest belongs to that message alone. */
  lemma HandleOwner(c: Client, s: Session, i: nat, id: nat)
    requires Refines(c, s) && i < |c.handles| && id in c.server.messages && c.server.messages[id].handle == c.handles[i]
    ensures s.receipts[i].key == id
  {
  }

  /** A new delivery is the latest of its message and holds it; every other message keeps its holder. */
  lemma ReceivedHeld(c: Client, s: Session, id: nat, timeout: nat, c': Client, i: nat, k: nat)
    requires Refines(c, s) && Performs(c, Receive(id, timeout), c')
    requires IsLatest(c', Step(s, Receive(id, timeout)), i, k)
    ensures IsHeld(c', Step(s, Receive(id, timeout)), i, k)
  {
    if i < |c.handles| {
      assert Step(s, Receive(id, timeout)).receipts[i] == s.receipts[i];
      assert k != id;
      assert IsLatest(c, s, i, k) && IsHeld(c, s, i, k);
    }
  }

  lemma ReceivedHasHolder(c: Client, s: Session, id: nat, timeout: nat, c': Client, k: nat)
    requires Refines(c, s) && Performs(c, Receive(id, timeout), c')
    requires k in c'.server.messages && c'.server.messages[k].handle != 0
    ensures HasHolder(c', Step(s, Receive(id, timeout)), k)
  {
    var s' := Step(s, Receive(id, timeout));
    if k == id {
      assert IsLatest(c', s', |c.handles|, k);
    } else {
      assert HasHolder(c, s, k);
      var i :| 0 <= i < |c.handles| && IsLatest(c, s, i, k);
      assert IsLatest(c', s', i, k);
    }
  }

  lemma SqsRefinesReceive(c: Client, s: Session, id: nat, timeout: nat, c': Client)
    requires Refines(c, s) && Performs(c, Receive(id, timeout), c')
    ensures Legal(s, Receive(id, timeout)) && Refines(c', Step(s, Receive(id, timeout)))
  {
    assert id in s.queue.live;
    var s' := Step(s, Receive(id, timeout));
    StepSound(s, Receive(id, timeout));
    forall i: nat, k: nat | IsLatest(c', s', i, k)
      ensures IsHeld(c', s', i, k)
    {
      ReceivedHeld(c, s, id, timeout, c', i, k);
    }
    forall k | k in c'.server.messages && c'.server.messages[k].handle != 0
      ensures HasHolder(c', s', k)
    {
      ReceivedHasHolder(c, s, id, timeout, c', k);
    }
    assert Abstract(c'.server) == s'.queue;
  }

  /** What settling a held delivery leaves: every other message as it was, and this one gone or visible. */
  lemma SqsSettled(c: Client, s: Session, c': Client, s': Session, i: nat)
    requires Refines(c, s) && i < |c.handles|
    requires s'.receipts == s.receipts[i := s.receipts[i].(settled := true)] && Sound(s')
    requires c'.handles == c.handles && c'.server.nextHandle == c.server.nextHandle
    requires Abstract(c'.server) == s'.queue
    requires forall id | id in c'.server.messages ::
      && id in c.server.messages
      && c'.server.messages[id] == c.server.messages[id].(visibleAt := c'.server.messages[id].visibleAt)
    requires c'.cache == c.cache || c'.cache == c.cache - {c.handles[i]}
    ensures Refines(c', s')
  {
    forall j: nat, id: nat | IsLatest(c', s', j, id)
      ensures IsHeld(c', s', j, id)
    {
      assert IsLatest(c, s, j, id) && IsHeld(c, s, j, id);
      assert j != i ==> c.handles[j] != c.handles[i];
    }
    forall id | id in c'.server.messages && c'.server.messages[id].handle != 0
      ensures HasHolder(c', s', id)
    {
      assert HasHolder(c, s, id);
      var j :| 0 <= j < |c.handles| && IsLatest(c, s, j, id);
      assert IsLatest(c', s', j, id);
    }
  }

  /** A held delivery's handle belongs to its own message and to no other. */
  lemma HandleIsOwn(c: Client, s: Session, i: nat)
    requires Refines(c, s) && Current(s, i)
    ensures var k, h := s.receipts[i].key, c.handles[i];
            && k in c.server.messages && c.server.messages[k].handle == h
            && h in c.cache && c.cache[h] == c.server.messages[k].body
            && forall id | id in c.server.messages && c.server.messages[id].handle == h :: id == k
  {
    var k, h := s.receipts[i].key, c.handles[i];
    assert k in Abstract(c.server).live;
    assert IsLatest(c, s, i, k) && IsHeld(c, s, i, k);
    forall id | id in c.server.messages && c.server.messages[id].handle == h
      ensures id == k
    {
      HandleOwner(c, s, i, id);
    }
  }

  /** Deleting through a held delivery's handle removes its message alone. */
  lemma DeletedAlone(c: Client, s: Session, i: nat)
    requires Refines(c, s) && Current(s, i)
    ensures Deleted(c.server, c.handles[i]).messages == c.server.messages - {s.receipts[i].key}
    ensures Abstract(Deleted(c.server, c.handles[i])).live == s.queue.live - {s.receipts[i].key}
    ensures c.handles[i] in c.cache && c.cache[c.handles[i]] == s.queue.live[s.receipts[i].key].body
  {
    HandleIsOwn(c, s, i);
  }

  lemma SqsRefinesAck(c: Client, s: Session, c': Client, i: nat)
    requires Refines(c, s) && Performs(c, Ack(i), c') && Current(s, i)
    ensures Refines(c', Step(s, Ack(i)))
  {
    DeletedAlone(c, s, i);
    StepSound(s, Ack(i));
    assert Abstract(c'.server) == Step(s, Ack(i)).queue;
    SqsSettled(c, s, c', Step(s, Ack(i)), i);
  }

  lemma SqsRefinesNack(c: Client, s: Session, c': Client, i: nat)
    requires Refines(c, s) && Performs(c, Nack(i), c') && Current(s, i)
    ensures Refines(c', Step(s, Nack(i)))
  {
    HandleIsOwn(c, s, i);
    StepSound(s, Nack(i));
    assert Abstract(c'.server).live == Step(s, Nack(i)).queue.live;
    SqsSettled(c, s, c', Step(s, Nack(i)), i);
  }

  lemma SqsRefinesDeadLetter(c: Client, s: Session, c': Client, i: nat)
    requires Refines(c, s) && Performs(c, DeadLetter(i), c') && Legal(s, DeadLetter(i))
    ensures Refines(c', Step(s, DeadLetter(i)))
  {
    DeletedAlone(c, s, i);
    StepSound(s, DeadLetter(i));
    assert Abstract(c'.server) == Step(s, DeadLetter(i)).queue;
    SqsSettled(c, s, c', Step(s, DeadLetter(i)), i);
  }

  /** Every step of the adapter whose settlement holds its lease is the same step of the lease queue. */
  lemma SqsRefines(c: Client, s: Session, e: Event, c': Client)
    requires Refines(c, s) && Performs(c, e, c')
    requires Disciplined(s, e)
    ensures Legal(s, e) && Refines(c', Step(s, e))
  {
    match e
    case Receive(id, timeout) => SqsRefinesReceive(c, s, id, timeout, c');
    case Ack(i) => SqsRefinesAck(c, s, c', i);
    case Nack(i) => SqsRefinesNack(c, s, c', i);
    case DeadLetter(i) => SqsRefinesDeadLetter(c, s, c', i);
    case Send(_) => SqsRefinesQuiet(c, s, e, c');
    case Tick(_) => SqsRefinesQuiet(c, s, e, c');
  }

  lemma SqsRefinesQuiet(c: Client, s: Session, e: Event, c': Client)
    requires Refines(c, s) && Performs(c, e, c') && (e.Send? || e.Tick?)
    ensures Refines(c', Step(s, e))
  {
    var s' := Step(s, e);
    StepSound(s, e);
    assert Abstract(c'.server).live == s'.queue.live;
    assert c.server.nextId !in c.server.messages by {
      assert forall id | id in c.server.messages :: id in Abstract(c.server).live;
    }
    forall j: nat, id: nat | IsLatest(c', s', j, id)
      ensures IsHeld(c', s', j, id)
    {
      assert IsLatest(c, s, j, id) && IsHeld(c, s, j, id);
    }
    forall id | id in c'.server.messages && c'.server.messages[id].handle != 0
      ensures HasHolder(c', s', id)
    {
      assert HasHolder(c, s, id);
      var j :| 0 <= j < |c.handles| && IsLatest(c, s, j, id);
      assert IsLatest(c', s', j, id);
    }
  }

  /** A whole run of the adapter under disciplined clients is a run of the lease queue, with the same deliveries. */
  lemma {:induction false} SqsRunRefines(clients: seq<Client>, events: seq<Event>, s: Session) returns (end: Session)
    requires |clients| == |events| + 1 && Refines(clients[0], s) && DisciplinedRun(s, events)
    requires forall k | 0 <= k < |events| :: Performs(clients[k], events[k], clients[k + 1])
    ensures Runs(s, events, end) && Refines(clients[|events|], end)
    decreases |events|
  {
    if events == [] {
      end := s;
    } else {
      assert Performs(clients[0], events[0], clients[0 + 1]);
      SqsRefines(clients[0], s, events[0], clients[1]);
      forall k | 0 <= k < |events[1..]|
        ensures Performs(clients[1..][k], events[1..][k], clients[1..][k + 1])
      {
        assert Performs(clients[k + 1], events[k + 1], clients[k + 1 + 1]);
      }
      end := SqsRunRefines(clients[1..], events[1..], Step(s, events[0]));
    }
  }

  // ---- nothing is lost, whatever the clients do ---------------------------------------------

  /**
   * Any number of processes against one server: settlements with stale handles, and
   * dead-letter calls that stop between their two requests. History: the bodies `sent`, the
   * message each handle was `given` for, the handle each dead-letter copy was made from, and
   * the messages `acked`.
   */
  datatype World = World(server: Server, cache: map<nat, Json>, sent: map<nat, Json>, given: map<nat, nat>, copies: seq<nat>,
                         acked: set<nat>)

  const EMPTY_WORLD := World(EMPTY_SERVER, map[], map[], map[], [], {})

  datatype Call =
    | SendCall(body: Json)
    | TickCall(dt: nat)
    | ReceiveCall(id: nat, timeout: nat)
    | AckCall(handle: nat)
    | NackCall(handle: nat)
    | CopyCall(handle: nat)
    | DeleteCopiedCall(handle: nat)

  predicate Enabled(w: World, c: Call) {
    match c
    case ReceiveCall(id, _) => Receivable(w.server, id)
    case CopyCall(h) => h in w.cache && w.cache[h] != Null
    case DeleteCopiedCall(h) => h in w.copies
    case AckCall(h) => 0 < h
    case _ => true
  }

  function Owners(s: Server, handle: nat): set<nat> {
    set id | id in s.messages && s.messages[id].handle == handle
  }

  function Called(w: World, c: Call): World
    requires Enabled(w, c)
  {
    match c
    case SendCall(body) => w.(server := Sent(w.server, body), sent := w.sent[w.server.nextId := body])
    case TickCall(dt) => w.(server := w.server.(now := w.server.now + dt))
    case ReceiveCall(id, timeout) =>
      var h := w.server.nextHandle;
      w.(server := Received(w.server, id, timeout), cache := w.cache[h := w.server.messages[id].body], given := w.given[h := id])
    case AckCall(h) => w.(server := Deleted(w.server, h), acked := w.acked + Owners(w.server, h))
    case NackCall(h) => w.(server := MadeVisible(w.server, h))
    case CopyCall(h) => w.(server := SentToDlq(w.server, w.cache[h]), copies := w.copies + [h])
    case DeleteCopiedCall(h) => w.(server := Deleted(w.server, h))
  }

  /** Dead-letter entry `i` is a copy of message `id`: it was made through one of the message's own handles. */
  ghost predicate IsCopyOf(w: World, i: nat, id: nat) {
    && i < |w.copies| == |w.server.dlq| && w.copies[i] in w.given && w.given[w.copies[i]] == id
    && id in w.sent && w.server.dlq[i] == w.sent[id]
  }

  ghost predicate HasCopy(w: World, id: nat) {
    exists i :: IsCopyOf(w, i, id)
  }

  /** Each message sent is still in the queue, was acked, or has a copy of its own in the dead-letter queue. */
  ghost predicate NothingLost(w: World) {
    forall id | id in w.sent :: id in w.server.messages || id in w.acked || HasCopy(w, id)
  }

  ghost predicate MessageTrue(w: World, id: nat)
    requires id in w.server.messages
  {
    var m := w.server.messages[id];
    id in w.sent && m.body == w.sent[id] && (m.handle != 0 ==> m.handle in w.given && w.given[m.handle] == id)
  }

  /** A handle's message was sent, and its body is cached. */
  ghost predicate HandleTrue(w: World, h: nat)
    requires h in w.given
  {
    && 0 < h < w.server.nextHandle && w.given[h] in w.sent
    && h in w.cache && w.cache[h] == w.sent[w.given[h]]
  }

  /** What the server, the cache and the copies say of each message is true. */
  ghost predicate RecordsTrue(w: World) {
    && 0 < w.server.nextHandle && |w.copies| == |w.server.dlq|
    && (forall id | id in w.sent :: id < w.server.nextId)
    && (forall id | id in w.server.messages :: MessageTrue(w, id))
    && (forall h | h in w.cache :: h in w.given) && (forall h | h in w.given :: HandleTrue(w, h))
    && forall i | 0 <= i < |w.copies| :: IsCopy(w, i)
  }

  ghost predicate IsCopy(w: World, i: nat)
    requires i < |w.copies| == |w.server.dlq|
  {
    w.copies[i] in w.given && IsCopyOf(w, i, w.given[w.copies[i]])
  }

  /** A copy stays a copy of its message. */
  ghost predicate Remembers(w: World, after: World) {
    && (forall id | id in w.sent :: id in after.sent && after.sent[id] == w.sent[id])
    && (forall h | h in w.given :: h in after.given && after.given[h] == w.given[h])
    && w.copies <= after.copies && w.server.dlq <= after.server.dlq && |after.copies| == |after.server.dlq|
  }

  lemma CopyStays(w: World, after: World, id: nat)
    requires HasCopy(w, id) && Remembers(w, after)
    ensures HasCopy(after, id)
  {
    var i :| IsCopyOf(w, i, id);
    assert IsCopyOf(after, i, id);
  }

  lemma CallMessage(w: World, c: Call, id: nat)
    requires RecordsTrue(w) && Enabled(w, c) && id in Called(w, c).server.messages
    ensures MessageTrue(Called(w, c), id)
  {
    assert id in w.server.messages ==> MessageTrue(w, id);
    if c.SendCall? {
      assert w.server.nextId !in w.sent;
    } else if c.ReceiveCall? {
      assert w.server.nextHandle in w.given ==> HandleTrue(w, w.server.nextHandle);
    }
  }

  lemma CallHandle(w: World, c: Call, h: nat)
    requires RecordsTrue(w) && Enabled(w, c) && h in Called(w, c).given
    ensures HandleTrue(Called(w, c), h)
  {
    assert h in w.given ==> HandleTrue(w, h);
    assert c.ReceiveCall? ==> MessageTrue(w, c.id);
  }

  lemma CallCopy(w: World, c: Call, i: nat)
    requires RecordsTrue(w) && Enabled(w, c)
    requires i < |Called(w, c).copies| == |Called(w, c).server.dlq|
    ensures IsCopy(Called(w, c), i)
  {
    if i < |w.copies| {
      assert IsCopy(w, i) && HandleTrue(w, w.copies[i]);
    } else {
      assert HandleTrue(w, c.handle);
    }
  }

  lemma CallRecords(w: World, c: Call)
    requires RecordsTrue(w) && Enabled(w, c)
    ensures Remembers(w, Called(w, c)) && RecordsTrue(Called(w, c))
  {
    var after := Called(w, c);
    assert c.ReceiveCall? && w.server.nextHandle in w.given ==> HandleTrue(w, w.server.nextHandle);
    forall id | id in after.server.messages
      ensures MessageTrue(after, id)
    {
      CallMessage(w, c, id);
    }
    forall h | h in after.given
      ensures HandleTrue(after, h)
    {
      CallHandle(w, c, h);
    }
    forall i | 0 <= i < |after.copies|
      ensures IsCopy(after, i)
    {
      CallCopy(w, c, i);
    }
  }

  /** A message whose latest handle has been copied has a copy. */
  lemma CopyMade(w: World, id: nat)
    requires RecordsTrue(w) && id in w.server.messages && w.server.messages[id].handle in w.copies
    ensures HasCopy(w, id)
  {
    var i :| 0 <= i < |w.copies| && w.copies[i] == w.server.messages[id].handle;
    assert IsCopy(w, i) && MessageTrue(w, id);
    assert HandleTrue(w, w.copies[i]);
    assert IsCopyOf(w, i, id);
  }

  /** A message leaves the queue only through its latest handle: acked, or with a copy made through that handle. */
  lemma CallLosesNothing(w: World, c: Call)
    requires NothingLost(w) && RecordsTrue(w) && Enabled(w, c)
    ensures NothingLost(Called(w, c))
  {
    var after := Called(w, c);
    CallRecords(w, c);
    forall id | id in after.sent
      ensures id in after.server.messages || id in after.acked || HasCopy(after, id)
    {
      if id in w.server.messages && c.DeleteCopiedCall? && w.server.messages[id].handle == c.handle {
        CopyMade(w, id);
      }
      if HasCopy(w, id) {
        CopyStays(w, after, id);
      } else if id in w.server.messages && c.AckCall? && w.server.messages[id].handle == c.handle {
        assert id in Owners(w.server, c.handle);
      }
    }
  }

  /**
   * Over every run of calls, stale or interrupted, no message is lost: each one sent is in
   * the queue, was acked, or has a dead-letter copy made through one of its own handles.
   */
  lemma {:induction false} NeverLost(worlds: seq<World>, calls: seq<Call>, k: nat)
    requires |worlds| == |calls| + 1 && worlds[0] == EMPTY_WORLD
    requires forall j | 0 <= j < |calls| :: Enabled(worlds[j], calls[j]) && worlds[j + 1] == Called(worlds[j], calls[j])
    requires k <= |calls|
    ensures NothingLost(worlds[k]) && RecordsTrue(worlds[k])
  {
    if k > 0 {
      NeverLost(worlds, calls, k - 1);
      CallRecords(worlds[k - 1], calls[k - 1]);
      CallLosesNothing(worlds[k - 1], calls[k - 1]);
    }
  }

  /** An interrupted dead-letter leaves a second copy: the message is in both queues and can be delivered again. */
  lemma InterruptedCopyExample(body: Json)
    requires body != Null
    ensures var w1 := Called(EMPTY_WORLD, SendCall(body));
            Enabled(w1, ReceiveCall(0, 15))
            && var w2 := Called(w1, ReceiveCall(0, 15));
            Enabled(w2, CopyCall(1))
            && var w3 := Called(w2, CopyCall(1));
            0 in w3.server.messages && w3.server.messages[0].body == body && w3.server.dlq == [body]
  {
  }
}

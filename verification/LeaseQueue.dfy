/**
 * The queue the consumer is written against: a message is leased to one receiver at a time,
 * and a receiver settles what it received by ack, nack or dead-letter. Both adapters are
 * proved to behave like this one for clients that settle each receive once, while its lease
 * is current.
 */
module LeaseQueue {
  import opened Messages

  /** `deliveries` counts receives; the message is leased until the clock reaches `until`. */
  datatype Entry = Entry(body: Json, deliveries: nat, until: int)

  datatype Queue = Queue(live: map<nat, Entry>, dead: seq<Json>, next: nat, now: int)

  const EMPTY := Queue(map[], [], 0, 0)

  /** One delivery: which message, and the count it was delivered with. */
  datatype Receipt = Receipt(key: nat, attempt: nat, settled: bool)

  /** The queue together with every delivery made so far. */
  datatype Session = Session(queue: Queue, receipts: seq<Receipt>)

  datatype Event =
    | Send(body: Json)
    | Tick(dt: nat)
    | Receive(key: nat, timeout: nat)
    | Ack(i: nat)
    | Nack(i: nat)
    | DeadLetter(i: nat)

  predicate Visible(q: Queue, k: nat) {
    k in q.live && q.live[k].until <= q.now
  }

  /** Delivery `i` is unsettled and still holds the lease on its message. */
  predicate Current(s: Session, i: nat) {
    && i < |s.receipts| && !s.receipts[i].settled
    && var r := s.receipts[i];
    && r.key in s.queue.live
    && s.queue.live[r.key].deliveries == r.attempt && s.queue.live[r.key].until > s.queue.now
  }

  predicate Legal(s: Session, e: Event) {
    match e
    case Send(_) | Tick(_) => true
    case Receive(k, _) => Visible(s.queue, k)
    case Ack(i) => Current(s, i)
    case Nack(i) => Current(s, i)
    case DeadLetter(i) => Current(s, i)
  }

  function Settle(s: Session, i: nat, q: Queue): Session
    requires i < |s.receipts|
  {
    Session(q, s.receipts[i := s.receipts[i].(settled := true)])
  }

  function Step(s: Session, e: Event): Session
    requires Legal(s, e)
  {
    var q := s.queue;
    match e
    case Send(body) => s.(queue := q.(live := q.live[q.next := Entry(body, 0, q.now)], next := q.next + 1))
    case Tick(dt) => s.(queue := q.(now := q.now + dt))
    case Receive(k, timeout) =>
      var n := q.live[k].deliveries + 1;
      Session(q.(live := q.live[k := Entry(q.live[k].body, n, q.now + timeout)]), s.receipts + [Receipt(k, n, false)])
    case Ack(i) => Settle(s, i, q.(live := q.live - {s.receipts[i].key}))
    case Nack(i) =>
      var k := s.receipts[i].key;
      Settle(s, i, q.(live := q.live[k := q.live[k].(until := q.now)]))
    case DeadLetter(i) =>
      var k := s.receipts[i].key;
      Settle(s, i, q.(live := q.live - {k}, dead := q.dead + [q.live[k].body]))
  }

  /** `end` is reached from `start` by the events, each legal when it happens. */
  ghost predicate Runs(start: Session, events: seq<Event>, end: Session)
    decreases |events|
  {
    if events == [] then start == end
    else Legal(start, events[0]) && Runs(Step(start, events[0]), events[1..], end)
  }

  // ---- what the lease gives --------------------------------------------------------

  ghost predicate Sound(s: Session) {
    && (forall k | k in s.queue.live :: k < s.queue.next)
    && (forall i | 0 <= i < |s.receipts| :: s.receipts[i].key < s.queue.next)
    && (forall i | 0 <= i < |s.receipts| && s.receipts[i].key in s.queue.live ::
          s.receipts[i].attempt <= s.queue.live[s.receipts[i].key].deliveries)
    && forall i, j | 0 <= i < j < |s.receipts| ::
        s.receipts[i].key == s.receipts[j].key ==> s.receipts[i].attempt < s.receipts[j].attempt
  }

  lemma StepSound(s: Session, e: Event)
    requires Sound(s) && Legal(s, e)
    ensures Sound(Step(s, e))
  {
  }

  lemma {:induction false} RunSound(s: Session, events: seq<Event>, end: Session)
    requires Sound(s) && Runs(s, events, end)
    ensures Sound(end)
    decreases |events|
  {
    if events != [] {
      StepSound(s, events[0]);
      RunSound(Step(s, events[0]), events[1..], end);
    }
  }

  /** So at every point of every run a message is held by at most one of its deliveries, the latest. */
  lemma OneHolderInRun(events: seq<Event>, end: Session, i: nat, j: nat)
    requires Runs(Session(EMPTY, []), events, end) && Current(end, i)
    requires j < |end.receipts| && end.receipts[j].key == end.receipts[i].key
    ensures j <= i && (Current(end, j) ==> j == i)
  {
    RunSound(Session(EMPTY, []), events, end);
  }

  // ---- disciplined clients -----------------------------------------------------------

  /** A settlement is made by a delivery that holds its lease. */
  predicate Disciplined(s: Session, e: Event) {
    match e
    case Ack(i) => Current(s, i)
    case Nack(i) => Current(s, i)
    case DeadLetter(i) => Current(s, i)
    case _ => true
  }

  /** The discipline, along a whole run. */
  ghost predicate DisciplinedRun(s: Session, events: seq<Event>)
    decreases |events|
  {
    events != [] ==> Disciplined(s, events[0]) && (Legal(s, events[0]) ==> DisciplinedRun(Step(s, events[0]), events[1..]))
  }

  // ---- what the operations mean for who can receive what ----------------------------------------

  /** A received message can be received again exactly when its timeout has passed. */
  lemma LeaseLasts(s: Session, k: nat, timeout: nat, dt: nat)
    requires Legal(s, Receive(k, timeout))
    ensures Visible(Step(Step(s, Receive(k, timeout)), Tick(dt)).queue, k) <==> timeout <= dt
    ensures var e := Step(s, Receive(k, timeout)).queue.live[k];
            e.body == s.queue.live[k].body && e.deliveries == s.queue.live[k].deliveries + 1
  {
  }

  /** A sent message can be received at once, under a key that no message had. */
  lemma SentIsVisible(s: Session, body: Json)
    ensures var next := Step(s, Send(body));
            && Visible(next.queue, s.queue.next) && next.queue.live[s.queue.next] == Entry(body, 0, s.queue.now)
            && next.queue.next == s.queue.next + 1
            && forall k | k in s.queue.live && k != s.queue.next :: k in next.queue.live && next.queue.live[k] == s.queue.live[k]
  {
  }

  /**
   * A settled delivery's message can be received again at once after a nack, never again after
   * an ack, and is at the end of the dead letters after a dead-letter call; no other message
   * is touched, and the delivery holds nothing any more.
   */
  lemma SettleMeans(s: Session, i: nat)
    requires Current(s, i)
    ensures var k, q := s.receipts[i].key, s.queue;
            && var acked, nacked, dead := Step(s, Ack(i)), Step(s, Nack(i)), Step(s, DeadLetter(i));
            && Visible(nacked.queue, k) && nacked.queue.live[k] == q.live[k].(until := q.now) && nacked.queue.dead == q.dead
            && k !in acked.queue.live && acked.queue.dead == q.dead
            && k !in dead.queue.live && dead.queue.dead == q.dead + [q.live[k].body]
            && (forall m | m != k :: (m in acked.queue.live <==> m in q.live) && (m in nacked.queue.live <==> m in q.live)
                                     && (m in dead.queue.live <==> m in q.live))
            && (forall m | m != k && m in q.live :: acked.queue.live[m] == nacked.queue.live[m] == dead.queue.live[m] == q.live[m])
            && !Current(acked, i) && !Current(nacked, i) && !Current(dead, i)
  {
  }
}

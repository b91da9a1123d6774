/**
 * How often a message is delivered. The retry ceiling is consulted only when a run fails, so
 * it bounds deliveries up to those that never came to that: each crash, and each lease lost
 * to a later delivery, can add one.
 */
module DeliveryBound {
  import opened Messages
  import opened Lifecycle
  import Pgmq

  function MostDeliveries(ceiling: int): nat {
    if ceiling < 1 then 1 else ceiling
  }

  ghost predicate Receives(e: Event, m: nat) {
    e.Work? && e.work.Receive? && e.work.m == m
  }

  /** The latest delivery of message `m` is with a worker. */
  ghost predicate InHand(w: World, m: nat) {
    exists p :: p in w.workers && IsLatest(w, w.workers[p], m)
  }

  ghost predicate IsLatest(w: World, d: Delivery, m: nat) {
    d.id == m && m in w.table.rows && d.attempt == w.table.rows[m].readCt
  }

  /** A worker crashes with a delivery of the message. */
  ghost predicate Crashes(w: World, e: Event, m: nat) {
    e.Work? && e.work.Crash? && e.p in w.workers && w.workers[e.p].id == m
  }

  /** The message is delivered again while its latest delivery is with a worker, which has lost its lease. */
  ghost predicate LosesLease(w: World, e: Event, m: nat) {
    Receives(e, m) && InHand(w, m)
  }

  ghost function Count(es: seq<Event>, m: nat): nat {
    if es == [] then 0 else Count(es[..|es| - 1], m) + if Receives(es[|es| - 1], m) then 1 else 0
  }

  /** The crashes and lost leases of the message's deliveries, up to event `k`. */
  ghost function Losses(ws: seq<World>, es: seq<Event>, m: nat, k: nat): nat
    requires k <= |es| < |ws|
  {
    if k == 0 then 0
    else Losses(ws, es, m, k - 1) + if Crashes(ws[k - 1], es[k - 1], m) || LosesLease(ws[k - 1], es[k - 1], m) then 1 else 0
  }

  // ---- the bound ---------------------------------------------------------------------------------

  /**
   * The row's read count is what was received. With `losses` so far that is within the limit,
   * and one below it when the message is waiting to be delivered again.
   */
  ghost predicate Bounded(w: World, m: nat, limit: nat) {
    && ReadCount(w.log.received, m) <= limit
    && (m in w.log.received ==> m < w.table.nextId)
    && (m in w.table.rows ==>
          && m < w.table.nextId && w.table.rows[m].readCt == ReadCount(w.log.received, m)
          && (InHand(w, m) || ReadCount(w.log.received, m) < limit))
  }

  /** Nothing that concerns the message changes. */
  ghost predicate Untouched(w: World, next: World, m: nat) {
    && (m in next.table.rows <==> m in w.table.rows)
    && (m in w.table.rows ==> next.table.rows[m].readCt == w.table.rows[m].readCt)
    && w.table.nextId <= next.table.nextId
    && ReadCount(next.log.received, m) == ReadCount(w.log.received, m)
    && (m in next.log.received ==> m in w.log.received)
    && forall p | p in w.workers && w.workers[p].id == m ::
        p in next.workers && next.workers[p].id == m && next.workers[p].attempt == w.workers[p].attempt
  }

  lemma UntouchedBounded(w: World, next: World, m: nat, limit: nat)
    requires Bounded(w, m, limit) && Untouched(w, next, m)
    ensures Bounded(next, m, limit)
  {
    if p :| p in w.workers && IsLatest(w, w.workers[p], m) {
      assert m in next.table.rows ==> IsLatest(next, next.workers[p], m);
    }
  }

  lemma ReceiveBounded(w: World, p: nat, m: nat, timeout: nat, ceiling: int, limit: nat)
    requires Bounded(w, m, limit) && WorkEnabled(w, p, Receive(m, timeout))
    ensures Bounded(WorkNext(w, p, Receive(m, timeout), ceiling), m, if InHand(w, m) then limit + 1 else limit)
  {
    var next := WorkNext(w, p, Receive(m, timeout), ceiling);
    assert IsLatest(next, next.workers[p], m);
  }

  /** Settling the latest delivery takes the row away, or leaves it below the ceiling. */
  lemma SettleBounded(w: World, p: nat, ceiling: int, m: nat, limit: nat)
    requires Bounded(w, m, limit) && WorkEnabled(w, p, Settle) && MostDeliveries(ceiling) <= limit
    ensures Bounded(WorkNext(w, p, Settle, ceiling), m, limit)
  {
    var d, next := w.workers[p], WorkNext(w, p, Settle, ceiling);
    if m in next.table.rows {
      if q :| q in w.workers && q != p && IsLatest(w, w.workers[q], m) {
        assert IsLatest(next, next.workers[q], m);
      } else if IsLatest(w, d, m) {
        assert d.phase == Failed && d.attempt < ceiling;
      }
    }
  }

  lemma CrashBounded(w: World, p: nat, ceiling: int, m: nat, limit: nat)
    requires Bounded(w, m, limit) && WorkEnabled(w, p, Crash)
    ensures Bounded(WorkNext(w, p, Crash, ceiling), m, if w.workers[p].id == m then limit + 1 else limit)
  {
    if w.workers[p].id != m {
      UntouchedBounded(w, WorkNext(w, p, Crash, ceiling), m, limit);
    }
  }

  lemma SendBounded(w: World, body: Json, m: nat, limit: nat)
    requires Bounded(w, m, limit) && 0 < limit
    ensures Bounded(Queued(w, body), m, limit)
  {
    if m != w.table.nextId {
      UntouchedBounded(w, Queued(w, body), m, limit);
    }
  }

  lemma IntakeBounded(w: World, step: IntakeStep, m: nat, limit: nat)
    requires Bounded(w, m, limit) && IntakeEnabled(w, step) && 0 < limit
    ensures Bounded(IntakeNext(w, step), m, limit)
  {
    match step
    case Enqueue(id) =>
      var body := TriageMessage(w.pending[id], id);
      SendBounded(w, body, m, limit);
      UntouchedBounded(Queued(w, body), IntakeNext(w, step), m, limit);
    case SendOther(text) => SendBounded(w, Value(text), m, limit);
    case _ => UntouchedBounded(w, IntakeNext(w, step), m, limit);
  }

  lemma WorkBounded(w: World, p: nat, step: WorkStep, ceiling: int, m: nat, limit: nat)
    requires Bounded(w, m, limit) && WorkEnabled(w, p, step) && MostDeliveries(ceiling) <= limit
    ensures var lost := Crashes(w, Work(p, step), m) || LosesLease(w, Work(p, step), m);
            Bounded(WorkNext(w, p, step, ceiling), m, if lost then limit + 1 else limit)
  {
    match step
    case Receive(k, timeout) =>
      if k == m {
        ReceiveBounded(w, p, m, timeout, ceiling, limit);
      } else {
        UntouchedBounded(w, WorkNext(w, p, step, ceiling), m, limit);
      }
    case Settle => SettleBounded(w, p, ceiling, m, limit);
    case Crash => CrashBounded(w, p, ceiling, m, limit);
    case _ => UntouchedBounded(w, WorkNext(w, p, step, ceiling), m, limit);
  }

  lemma StepBounded(w: World, e: Event, ceiling: int, m: nat, limit: nat)
    requires Bounded(w, m, limit) && Enabled(w, e) && MostDeliveries(ceiling) <= limit
    ensures Bounded(Next(w, e, ceiling), m, if Crashes(w, e, m) || LosesLease(w, e, m) then limit + 1 else limit)
  {
    match e
    case Intake(step) => IntakeBounded(w, step, m, limit);
    case Work(p, step) => WorkBounded(w, p, step, ceiling, m, limit);
    case _ => UntouchedBounded(w, Next(w, e, ceiling), m, limit);
  }

  lemma {:induction false} RunBounded(ws: seq<World>, es: seq<Event>, ceiling: int, m: nat, k: nat)
    requires IsRun(ws, es, ceiling) && k <= |es|
    ensures Bounded(ws[k], m, MostDeliveries(ceiling) + Losses(ws, es, m, k))
  {
    if k > 0 {
      RunBounded(ws, es, ceiling, m, k - 1);
      assert IsStep(ws, es, ceiling, k - 1);
      StepBounded(ws[k - 1], es[k - 1], ceiling, m, MostDeliveries(ceiling) + Losses(ws, es, m, k - 1));
    }
  }

  lemma {:induction false} DeliveriesCounted(ws: seq<World>, es: seq<Event>, ceiling: int, k: nat, m: nat)
    requires IsRun(ws, es, ceiling) && k <= |es|
    ensures Count(es[..k], m) == ReadCount(ws[k].log.received, m)
  {
    if k > 0 {
      DeliveriesCounted(ws, es, ceiling, k - 1, m);
      assert IsStep(ws, es, ceiling, k - 1);
      assert es[..k][..k - 1] == es[..k - 1];
    }
  }

  /**
   * In every run a message is delivered at most as often as the ceiling says (once if it says
   * less), plus once for each crash and each lost lease of its deliveries.
   */
  lemma DeliveryLimit(ws: seq<World>, es: seq<Event>, ceiling: int, m: nat)
    requires IsRun(ws, es, ceiling)
    ensures Count(es, m) <= MostDeliveries(ceiling) + Losses(ws, es, m, |es|)
  {
    RunBounded(ws, es, ceiling, m, |es|);
    DeliveriesCounted(ws, es, ceiling, |es|, m);
    assert es[..|es|] == es;
  }

  // ---- without crashes and lost leases -------------------------------------------------------------

  /** Every unsettled delivery still holds its lease. */
  ghost predicate Timely(w: World) {
    forall p | p in w.workers && w.workers[p].id in w.table.rows :: w.table.rows[w.workers[p].id].vt > w.table.now
  }

  ghost predicate IsTimelyRun(ws: seq<World>, es: seq<Event>, ceiling: int) {
    && IsRun(ws, es, ceiling) && (forall k {:trigger Timely(ws[k])} | 0 <= k < |ws| :: Timely(ws[k]))
    && forall k {:trigger es[k]} | 0 <= k < |es| :: !(es[k].Work? && es[k].work.Crash?)
  }

  lemma {:induction false} NoLosses(ws: seq<World>, es: seq<Event>, ceiling: int, m: nat, k: nat)
    requires IsTimelyRun(ws, es, ceiling) && k <= |es|
    ensures Losses(ws, es, m, k) == 0
  {
    if k > 0 {
      NoLosses(ws, es, ceiling, m, k - 1);
      assert IsStep(ws, es, ceiling, k - 1) && Timely(ws[k - 1]);
    }
  }

  /** So if no worker crashes and each delivery is settled in time, the ceiling is the limit. */
  lemma TimelyLimit(ws: seq<World>, es: seq<Event>, ceiling: int, m: nat)
    requires IsTimelyRun(ws, es, ceiling)
    ensures Count(es, m) <= MostDeliveries(ceiling)
  {
    DeliveryLimit(ws, es, ceiling, m);
    NoLosses(ws, es, ceiling, m, |es|);
  }

  // ---- the bound is reached ------------------------------------------------------------------------

  /** One more step of a run, and what it adds for message 0. */
  lemma Then(ws: seq<World>, es: seq<Event>, ceiling: int, e: Event) returns (ws': seq<World>, es': seq<Event>)
    requires IsRun(ws, es, ceiling) && Enabled(ws[|es|], e)
    ensures IsRun(ws', es', ceiling) && |es'| == |es| + 1 && ws'[|es'|] == Next(ws[|es|], e, ceiling)
    ensures Count(es', 0) == Count(es, 0) + if Receives(e, 0) then 1 else 0
    ensures Losses(ws', es', 0, |es'|) == Losses(ws, es, 0, |es|)
                                          + if Crashes(ws[|es|], e, 0) || LosesLease(ws[|es|], e, 0) then 1 else 0
  {
    ws', es' := PathThen(ws, es, ceiling, e);
    assert es'[..|es|] == es;
    assert ws'[|es|] == ws'[..|ws|][|es|] == ws[|es|];
    SameLosses(ws, es, ws', es', 0, |es|);
  }

  lemma {:induction false} SameLosses(ws: seq<World>, es: seq<Event>, ws': seq<World>, es': seq<Event>, m: nat, k: nat)
    requires k <= |es| < |ws| <= |ws'| && |es| <= |es'| < |ws'|
    requires ws'[..|ws|] == ws && es'[..|es|] == es
    ensures Losses(ws', es', m, k) == Losses(ws, es, m, k)
  {
    if k > 0 {
      SameLosses(ws, es, ws', es', m, k - 1);
      assert ws'[..|ws|][k - 1] == ws[k - 1] && es'[..|es|][k - 1] == es[k - 1];
    }
  }

  /** Message 0 waits to be read, and has been received `n` times. */
  ghost predicate Waits(w: World, n: nat) {
    && w.workers == map[] && Pgmq.Readable(w.table, 0)
    && w.table.rows[0].readCt == n && w.table.rows[0].message.TriageMessage?
  }

  /** Worker 1 has it, for the `n`-th time, under a lease of 15 seconds. */
  ghost predicate Taken(w: World, n: nat, phase: Phase) {
    && 0 in w.table.rows && w.table.rows[0].readCt == n && w.table.rows[0].vt == w.table.now + 15
    && w.table.rows[0].message.TriageMessage?
    && w.workers == map[1 := Delivery(0, n, w.table.rows[0].message, phase)]
  }

  const TAKE := Work(1, Receive(0, 15))

  lemma Take(w: World, ceiling: int, n: nat)
    requires 0 < n && Waits(w, n - 1)
    ensures Enabled(w, TAKE) && Taken(Next(w, TAKE, ceiling), n, Got)
    ensures Receives(TAKE, 0) && !LosesLease(w, TAKE, 0)
  {
  }

  lemma FailTaken(w: World, ceiling: int, n: nat)
    requires Taken(w, n, Got)
    ensures Enabled(w, Work(1, Fail)) && Taken(Next(w, Work(1, Fail), ceiling), n, Failed)
  {
  }

  lemma SettleTaken(w: World, ceiling: int, n: nat)
    requires Taken(w, n, Failed)
    ensures Enabled(w, Work(1, Settle))
    ensures n < ceiling ==> Waits(Next(w, Work(1, Settle), ceiling), n)
  {
  }

  lemma CrashTaken(w: World, ceiling: int, n: nat)
    requires Taken(w, n, Got)
    ensures Enabled(w, Work(1, Crash)) && Crashes(w, Work(1, Crash), 0)
    ensures Waits(Next(Next(w, Work(1, Crash), ceiling), Tick(15), ceiling), n)
  {
  }

  /** A turn that fails. */
  lemma FailingTurn(ws: seq<World>, es: seq<Event>, ceiling: int, n: nat) returns (ws': seq<World>, es': seq<Event>)
    requires 0 < n && IsRun(ws, es, ceiling) && Waits(ws[|es|], n - 1)
    ensures IsRun(ws', es', ceiling) && Count(es', 0) == Count(es, 0) + 1
    ensures Losses(ws', es', 0, |es'|) == Losses(ws, es, 0, |es|)
    ensures n < ceiling ==> Waits(ws'[|es'|], n)
  {
    Take(ws[|es|], ceiling, n);
    ws', es' := Then(ws, es, ceiling, TAKE);
    FailTaken(ws'[|es'|], ceiling, n);
    ws', es' := Then(ws', es', ceiling, Work(1, Fail));
    SettleTaken(ws'[|es'|], ceiling, n);
    ws', es' := Then(ws', es', ceiling, Work(1, Settle));
  }

  /** A turn that crashes, and its lease running out. */
  lemma CrashingTurn(ws: seq<World>, es: seq<Event>, ceiling: int, n: nat) returns (ws': seq<World>, es': seq<Event>)
    requires 0 < n && IsRun(ws, es, ceiling) && Waits(ws[|es|], n - 1)
    ensures IsRun(ws', es', ceiling) && Count(es', 0) == Count(es, 0) + 1
    ensures Losses(ws', es', 0, |es'|) == Losses(ws, es, 0, |es|) + 1
    ensures Waits(ws'[|es'|], n)
  {
    Take(ws[|es|], ceiling, n);
    ws', es' := Then(ws, es, ceiling, TAKE);
    CrashTaken(ws'[|es'|], ceiling, n);
    ws', es' := Then(ws', es', ceiling, Work(1, Crash));
    ws', es' := Then(ws', es', ceiling, Tick(15));
  }

  /** A message that has failed until one attempt is left. */
  lemma {:induction false} FailUpTo(n: nat, ceiling: int) returns (ws: seq<World>, es: seq<Event>)
    requires n < MostDeliveries(ceiling)
    ensures IsRun(ws, es, ceiling) && Count(es, 0) == n && Losses(ws, es, 0, |es|) == 0 && Waits(ws[|es|], n)
  {
    if n == 0 {
      ws, es := Then([START], [], ceiling, Intake(Submit(1, 7, 0)));
      ws, es := Then(ws, es, ceiling, Intake(Enqueue(7)));
    } else {
      ws, es := FailUpTo(n - 1, ceiling);
      ws, es := FailingTurn(ws, es, ceiling, n);
    }
  }

  /** And has then been lost to `losses` crashes. */
  lemma {:induction false} CrashUpTo(losses: nat, ceiling: int) returns (ws: seq<World>, es: seq<Event>)
    ensures var n := MostDeliveries(ceiling) - 1 + losses;
            IsRun(ws, es, ceiling) && Count(es, 0) == n && Losses(ws, es, 0, |es|) == losses && Waits(ws[|es|], n)
  {
    if losses == 0 {
      ws, es := FailUpTo(MostDeliveries(ceiling) - 1, ceiling);
    } else {
      ws, es := CrashUpTo(losses - 1, ceiling);
      ws, es := CrashingTurn(ws, es, ceiling, MostDeliveries(ceiling) - 1 + losses);
    }
  }

  /** The bound is exact: for every ceiling and every number of losses some run delivers a message exactly that often. */
  lemma LimitReached(losses: nat, ceiling: int) returns (ws: seq<World>, es: seq<Event>)
    ensures IsRun(ws, es, ceiling) && Losses(ws, es, 0, |es|) == losses
    ensures Count(es, 0) == MostDeliveries(ceiling) + losses
  {
    ws, es := CrashUpTo(losses, ceiling);
    ws, es := FailingTurn(ws, es, ceiling, MostDeliveries(ceiling) + losses);
  }
}

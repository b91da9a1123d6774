/**
 * The per-org daily token budget. A run reads the day's recorded tokens once, before its
 * first model call, and records its own when it commits, so runs in flight overshoot the
 * budget; this module bounds by how much. It covers one org within one day, without purges.
 */
module Spend {

  /** A draft row's tokens, and whether a live provider produced them. */
  datatype Spent = Spent(live: bool, tokens: nat)

  datatype ProviderKind = Fake | Live

  /** `sum(tokens_in + tokens_out)` over the day's rows. */
  function TokensToday(rows: seq<Spent>): nat {
    if rows == [] then 0 else TokensToday(rows[..|rows| - 1]) + rows[|rows| - 1].tokens
  }

  ghost function LiveTokens(rows: seq<Spent>): nat {
    if rows == [] then 0
    else LiveTokens(rows[..|rows| - 1]) + if rows[|rows| - 1].live then rows[|rows| - 1].tokens else 0
  }

  function OrgBudgetExceeded(rows: seq<Spent>, budget: nat): bool {
    TokensToday(rows) >= budget
  }

  /** The configured provider, or the fake one when a budget is used up. */
  function ResolveProvider(configured: ProviderKind, rows: seq<Spent>, budget: nat, ceilingExceeded: bool): ProviderKind {
    if configured != Fake && (OrgBudgetExceeded(rows, budget) || ceilingExceeded) then Fake else configured
  }

  /** The day's rows, and the providers of the runs in flight. */
  datatype Day = Day(rows: seq<Spent>, live: nat, fake: nat)

  datatype Event =
    | Start(configured: ProviderKind, ceilingExceeded: bool)
    | Commit(provider: ProviderKind, tokens: nat)
    | Fail(provider: ProviderKind)
    | StaffDraft

  predicate StartsLive(d: Day, e: Event, budget: nat) {
    e.Start? && ResolveProvider(e.configured, d.rows, budget, e.ceilingExceeded) == Live
  }

  /** At most `n` runs are in flight, and each records at most `most` tokens. */
  predicate Can(d: Day, e: Event, n: nat, most: nat) {
    match e
    case Start(_, _) => d.live + d.fake < n
    case Commit(p, tokens) => tokens <= most && if p == Live then d.live > 0 else d.fake > 0
    case Fail(p) => if p == Live then d.live > 0 else d.fake > 0
    case StaffDraft => true
  }

  function Next(d: Day, e: Event, budget: nat, n: nat, most: nat): Day
    requires Can(d, e, n, most)
  {
    match e
    case Start(_, _) => if StartsLive(d, e, budget) then d.(live := d.live + 1) else d.(fake := d.fake + 1)
    case Commit(p, tokens) =>
      var rows := d.rows + [Spent(p == Live, tokens)];
      if p == Live then Day(rows, d.live - 1, d.fake) else Day(rows, d.live, d.fake - 1)
    case Fail(p) => if p == Live then d.(live := d.live - 1) else d.(fake := d.fake - 1)
    case StaffDraft => d.(rows := d.rows + [Spent(false, 0)])
  }

  ghost predicate Runs(d: Day, events: seq<Event>, end: Day, budget: nat, n: nat, most: nat)
    decreases |events|
  {
    if events == [] then d == end
    else Can(d, events[0], n, most) && Runs(Next(d, events[0], budget, n, most), events[1..], end, budget, n, most)
  }

  const EMPTY_DAY := Day([], 0, 0)

  // ---- the bound ---------------------------------------------------------------------------

  /** What is recorded, with every live run in flight charged its most. */
  ghost function Charged(d: Day, most: nat): nat {
    LiveTokens(d.rows) + d.live * most
  }

  ghost predicate Bounded(d: Day, budget: nat, n: nat, most: nat) {
    d.live + d.fake <= n && (Charged(d, most) == 0 || Charged(d, most) < budget + n * most)
  }

  lemma {:induction false} LiveWithinAll(rows: seq<Spent>)
    ensures LiveTokens(rows) <= TokensToday(rows)
  {
    if rows != [] {
      LiveWithinAll(rows[..|rows| - 1]);
    }
  }

  lemma RowAdded(rows: seq<Spent>, row: Spent)
    ensures TokensToday(rows + [row]) == TokensToday(rows) + row.tokens
    ensures LiveTokens(rows + [row]) == LiveTokens(rows) + if row.live then row.tokens else 0
  {
  }

  lemma Fewer(a: nat, b: nat, most: nat)
    requires a <= b
    ensures a * most <= b * most
  {
  }

  lemma NextBounded(d: Day, e: Event, budget: nat, n: nat, most: nat)
    requires Bounded(d, budget, n, most) && Can(d, e, n, most)
    ensures Bounded(Next(d, e, budget, n, most), budget, n, most)
  {
    match e
    case Start(_, _) =>
      LiveWithinAll(d.rows);
      Fewer(d.live + 1, n, most);
    case Commit(p, tokens) =>
      RowAdded(d.rows, Spent(p == Live, tokens));
      assert p == Live ==> (d.live - 1) * most == d.live * most - most;
    case Fail(p) => Fewer(d.live - if p == Live then 1 else 0, d.live, most);
    case StaffDraft => RowAdded(d.rows, Spent(false, 0));
  }

  /** Over every run the recorded live tokens stay below the budget plus one most-expensive run per worker. */
  lemma {:induction false} SpendBound(d: Day, events: seq<Event>, end: Day, budget: nat, n: nat, most: nat)
    requires Bounded(d, budget, n, most) && Runs(d, events, end, budget, n, most)
    ensures Bounded(end, budget, n, most)
    ensures LiveTokens(end.rows) == 0 || LiveTokens(end.rows) < budget + n * most
    decreases |events|
  {
    if events != [] {
      NextBounded(d, events[0], budget, n, most);
      SpendBound(Next(d, events[0], budget, n, most), events[1..], end, budget, n, most);
    }
  }

  /** No event of the run starts a run with a live provider. */
  ghost predicate StartsNoneLive(d: Day, events: seq<Event>, budget: nat, n: nat, most: nat)
    decreases |events|
  {
    events == [] || (!StartsLive(d, events[0], budget)
                     && (Can(d, events[0], n, most) ==>
                           StartsNoneLive(Next(d, events[0], budget, n, most), events[1..], budget, n, most)))
  }

  lemma ExceededStays(d: Day, e: Event, budget: nat, n: nat, most: nat)
    requires OrgBudgetExceeded(d.rows, budget) && Can(d, e, n, most)
    ensures var next := Next(d, e, budget, n, most);
            && !StartsLive(d, e, budget) && OrgBudgetExceeded(next.rows, budget) && next.live <= d.live
            && Charged(next, most) <= Charged(d, most)
  {
    match e
    case Commit(p, tokens) =>
      RowAdded(d.rows, Spent(p == Live, tokens));
      assert p == Live ==> (d.live - 1) * most == d.live * most - most;
    case Fail(p) => Fewer(d.live - if p == Live then 1 else 0, d.live, most);
    case StaffDraft => RowAdded(d.rows, Spent(false, 0));
    case Start(_, _) =>
  }

  /** Once the recorded tokens reach the budget no live run starts, and only runs in flight can add live tokens. */
  lemma {:induction false} NoLiveStart(d: Day, events: seq<Event>, end: Day, budget: nat, n: nat, most: nat)
    requires OrgBudgetExceeded(d.rows, budget) && Runs(d, events, end, budget, n, most)
    ensures StartsNoneLive(d, events, budget, n, most) && OrgBudgetExceeded(end.rows, budget)
    ensures LiveTokens(end.rows) <= LiveTokens(d.rows) + d.live * most
    decreases |events|
  {
    if events != [] {
      ExceededStays(d, events[0], budget, n, most);
      NoLiveStart(Next(d, events[0], budget, n, most), events[1..], end, budget, n, most);
    }
  }

  lemma SplitProduct(a: nat, b: nat, c: nat, most: nat)
    requires c <= b <= a
    ensures (a - c) * most == (a - b) * most + (b - c) * most
  {
  }

  // ---- the bound is reached ------------------------------------------------------------------

  lemma {:induction false} RunsThen(d: Day, events: seq<Event>, mid: Day, e: Event, budget: nat, n: nat, most: nat)
    requires Runs(d, events, mid, budget, n, most) && Can(mid, e, n, most)
    ensures Runs(d, events + [e], Next(mid, e, budget, n, most), budget, n, most)
    decreases |events|
  {
    if events == [] {
      assert [] + [e] == [e] && [e][1..] == [];
    } else {
      assert (events + [e])[1..] == events[1..] + [e];
      RunsThen(Next(d, events[0], budget, n, most), events[1..], mid, e, budget, n, most);
    }
  }

  const START_LIVE := Start(Live, false)

  /** `k` one-token runs, one after the other. */
  lemma {:induction false} Fill(k: nat, budget: nat, n: nat, most: nat) returns (events: seq<Event>, end: Day)
    requires k < budget && 0 < n && 0 < most
    ensures Runs(EMPTY_DAY, events, end, budget, n, most) && end.live == end.fake == 0
    ensures LiveTokens(end.rows) == TokensToday(end.rows) == k
  {
    if k == 0 {
      return [], EMPTY_DAY;
    }
    var first, before := Fill(k - 1, budget, n, most);
    RunsThen(EMPTY_DAY, first, before, START_LIVE, budget, n, most);
    var started := Next(before, START_LIVE, budget, n, most);
    RunsThen(EMPTY_DAY, first + [START_LIVE], started, Commit(Live, 1), budget, n, most);
    RowAdded(started.rows, Spent(true, 1));
    events, end := first + [START_LIVE] + [Commit(Live, 1)], Next(started, Commit(Live, 1), budget, n, most);
  }

  /** Then `k` runs that all start while one token is left. */
  lemma {:induction false} StartAll(k: nat, budget: nat, n: nat, most: nat) returns (events: seq<Event>, end: Day)
    requires 0 < budget && k <= n && 0 < n && 0 < most
    ensures Runs(EMPTY_DAY, events, end, budget, n, most) && end.live == k && end.fake == 0
    ensures LiveTokens(end.rows) == TokensToday(end.rows) == budget - 1
  {
    if k == 0 {
      events, end := Fill(budget - 1, budget, n, most);
      return;
    }
    var first, before := StartAll(k - 1, budget, n, most);
    RunsThen(EMPTY_DAY, first, before, START_LIVE, budget, n, most);
    events, end := first + [START_LIVE], Next(before, START_LIVE, budget, n, most);
  }

  /** And `k` of them commit their most. */
  lemma {:induction false} CommitAll(k: nat, budget: nat, n: nat, most: nat) returns (events: seq<Event>, end: Day)
    requires 0 < budget && k <= n && 0 < n && 0 < most
    ensures Runs(EMPTY_DAY, events, end, budget, n, most) && end.live == n - k && end.fake == 0
    ensures LiveTokens(end.rows) == budget - 1 + k * most
  {
    if k == 0 {
      events, end := StartAll(n, budget, n, most);
      return;
    }
    var first, before := CommitAll(k - 1, budget, n, most);
    var e := Commit(Live, most);
    RunsThen(EMPTY_DAY, first, before, e, budget, n, most);
    RowAdded(before.rows, Spent(true, most));
    events, end := first + [e], Next(before, e, budget, n, most);
    SplitProduct(k, 1, 0, most);
  }

  /** The bound is exact: for every budget, number of workers and cost per run, some run records one token less. */
  lemma BoundReached(budget: nat, n: nat, most: nat) returns (events: seq<Event>, end: Day)
    requires 0 < budget && 0 < n && 0 < most
    ensures Runs(EMPTY_DAY, events, end, budget, n, most)
    ensures LiveTokens(end.rows) == budget + n * most - 1
  {
    events, end := CommitAll(n, budget, n, most);
  }

  // ---- when a run is live ------------------------------------------------------------------

  /** The day's tokens are the sum over its rows, in whatever order they came. */
  lemma {:induction false} TokensAdd(a: seq<Spent>, b: seq<Spent>)
    ensures TokensToday(a + b) == TokensToday(a) + TokensToday(b)
    ensures b == [] ==> TokensToday(b) == 0
    ensures |b| == 1 ==> TokensToday(b) == b[0].tokens
  {
    if b == [] {
      assert a + b == a;
    } else {
      var short, last := b[..|b| - 1], b[|b| - 1];
      TokensAdd(a, short);
      assert a + b == (a + short) + [last] && b == short + [last];
      RowAdded(a + short, last);
      RowAdded(short, last);
    }
  }

  /** A start adds a live run exactly if a live provider is configured, the budget has room and the ceiling is not exceeded. */
  lemma StartIsLive(d: Day, configured: ProviderKind, ceilingExceeded: bool, budget: nat, n: nat, most: nat)
    requires d.live + d.fake < n
    ensures var next := Next(d, Start(configured, ceilingExceeded), budget, n, most);
            && (next.live == d.live + 1 <==> configured == Live && TokensToday(d.rows) < budget && !ceilingExceeded)
            && (next.live != d.live + 1 ==> next.live == d.live && next.fake == d.fake + 1) && next.rows == d.rows
  {
  }

  lemma CeilingStep(d: Day, e: Event, budget: nat, n: nat, most: nat)
    requires Can(d, e, n, most) && (e.Start? ==> e.ceilingExceeded)
    ensures var next := Next(d, e, budget, n, most);
            !StartsLive(d, e, budget) && next.live <= d.live && Charged(next, most) <= Charged(d, most)
  {
    match e
    case Commit(p, tokens) =>
      RowAdded(d.rows, Spent(p == Live, tokens));
      assert p == Live ==> (d.live - 1) * most == d.live * most - most;
    case Fail(p) => Fewer(d.live - if p == Live then 1 else 0, d.live, most);
    case StaffDraft => RowAdded(d.rows, Spent(false, 0));
    case Start(_, _) =>
  }

  /** While the global ceiling is exceeded no run starts live, whatever the org has left, and only runs in flight add live tokens. */
  lemma {:induction false} CeilingStops(d: Day, events: seq<Event>, end: Day, budget: nat, n: nat, most: nat)
    requires Runs(d, events, end, budget, n, most)
    requires forall i | 0 <= i < |events| && events[i].Start? :: events[i].ceilingExceeded
    ensures StartsNoneLive(d, events, budget, n, most) && end.live <= d.live && Charged(end, most) <= Charged(d, most)
    decreases |events|
  {
    if events != [] {
      CeilingStep(d, events[0], budget, n, most);
      assert forall i | 0 <= i < |events[1..]| :: events[1..][i] == events[i + 1];
      CeilingStops(Next(d, events[0], budget, n, most), events[1..], end, budget, n, most);
    }
  }

  /** Only a commit adds tokens to the day, what the run spent, and those count as live only from a live run. */
  lemma EventAdds(d: Day, e: Event, budget: nat, n: nat, most: nat)
    requires Can(d, e, n, most)
    ensures var next := Next(d, e, budget, n, most);
            && TokensToday(next.rows) == TokensToday(d.rows) + (if e.Commit? then e.tokens else 0)
            && LiveTokens(next.rows) == LiveTokens(d.rows) + (if e.Commit? && e.provider == Live then e.tokens else 0)
            && next.live + next.fake == d.live + d.fake + (if e.Start? then 1 else if e.StaffDraft? then 0 else -1)
  {
    if e.Commit? {
      RowAdded(d.rows, Spent(e.provider == Live, e.tokens));
    } else if e.StaffDraft? {
      RowAdded(d.rows, Spent(false, 0));
    }
  }
}

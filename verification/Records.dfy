/**
 * The tables the lifecycle lives in (requests, drafts and the audit log) with the
 * constraints on them, and the statements the worker and the staff actions run.
 */
module Records {
  import opened Options

  datatype Status = Received | Triaging | Drafted | NeedsHuman | Approved | Rejected

  datatype Routing = Routing(category: string, urgency: string, summary: string, lane: string)

  datatype Request = Request(org: nat, createdAt: int, status: Status, routing: Option<Routing>, reply: Option<string>,
                             resolved: bool)

  /** A draft's request and version; the table's unique constraint makes this a key. */
  datatype DraftKey = DraftKey(request: nat, version: nat)

  datatype Draft = Draft(org: nat, body: string, citations: seq<string>, confidence: real, model: string,
                         tokensIn: nat, tokensOut: nat)

  datatype ActionKind = Approve | Edit | Reject

  datatype Snapshot = Snapshot(status: Status, reply: Option<string>, version: Option<nat>)

  datatype Action = Action(org: nat, request: nat, actor: string, kind: ActionKind, before: Snapshot, after: Snapshot,
                           reason: Option<string>)

  datatype Db = Db(requests: map<nat, Request>, drafts: map<DraftKey, Draft>, actions: seq<Action>)

  const EMPTY_DB := Db(map[], map[], [])

  predicate IsResolved(status: Status) {
    status == Approved || status == Rejected
  }

  // ---- reads -------------------------------------------------------------------------------

  /** The row that `where org_id = .. and id = ..` finds. */
  predicate Owned(db: Db, org: nat, id: nat) {
    id in db.requests && db.requests[id].org == org
  }

  /** A request's draft versions; the foreign key makes its drafts those of its org. */
  function Versions(db: Db, id: nat): (vs: set<nat>)
    ensures forall v :: v in vs <==> DraftKey(id, v) in db.drafts
  {
    set k | k in db.drafts && k.request == id :: k.version
  }

  lemma {:induction false} TopExists(vs: set<nat>) returns (top: nat)
    requires vs != {}
    ensures top in vs && forall v | v in vs :: v <= top
  {
    var some :| some in vs;
    var rest := vs - {some};
    if rest == {} {
      assert vs == {some};
      top := some;
    } else {
      var t := TopExists(rest);
      top := if some > t then some else t;
      assert forall v | v in vs :: v == some || v in rest;
    }
  }

  function Top(vs: set<nat>): (top: nat)
    requires vs != {}
    ensures top in vs && forall v | v in vs :: v <= top
  {
    assert exists t :: t in vs && forall v | v in vs :: v <= t by {
      var t := TopExists(vs);
    }
    var t :| t in vs && forall v | v in vs :: v <= t;
    t
  }

  /** `order by version desc limit 1` */
  function LatestVersion(db: Db, id: nat): (latest: Option<nat>)
    ensures latest.None? <==> Versions(db, id) == {}
    ensures latest.Some? ==> DraftKey(id, latest.value) in db.drafts && forall v | v in Versions(db, id) :: v <= latest.value
  {
    if Versions(db, id) == {} then None else Some(Top(Versions(db, id)))
  }

  /** `coalesce(max(version), 0) + 1` */
  function NextVersion(db: Db, id: nat): nat {
    match LatestVersion(db, id)
    case None => 1
    case Some(v) => v + 1
  }

  // ---- writes ------------------------------------------------------------------------------

  function SetStatus(db: Db, org: nat, id: nat, status: Status): Db {
    if Owned(db, org, id) then db.(requests := db.requests[id := db.requests[id].(status := status)]) else db
  }

  function SetTriaged(db: Db, org: nat, id: nat, status: Status, routing: Routing): Db {
    if Owned(db, org, id) then
      db.(requests := db.requests[id := db.requests[id].(status := status, routing := Some(routing))])
    else db
  }

  function SetApproved(db: Db, org: nat, id: nat, reply: string): Db {
    if Owned(db, org, id) then
      db.(requests := db.requests[id := db.requests[id].(status := Approved, reply := Some(reply), resolved := true)])
    else db
  }

  function SetRejected(db: Db, org: nat, id: nat): Db {
    if Owned(db, org, id) then
      db.(requests := db.requests[id := db.requests[id].(status := Rejected, resolved := true)])
    else db
  }

  /** Fails on the foreign key or on the unique constraint. */
  function InsertDraft(db: Db, key: DraftKey, draft: Draft): Option<Db> {
    if Owned(db, draft.org, key.request) && key !in db.drafts then Some(db.(drafts := db.drafts[key := draft])) else None
  }

  /** Fails on the foreign key. */
  function InsertAction(db: Db, action: Action): Option<Db> {
    if Owned(db, action.org, action.request) then Some(db.(actions := db.actions + [action])) else None
  }

  /** The audit rows whose request is still there; the foreign key's cascade drops the others. */
  function Surviving(actions: seq<Action>, gone: set<nat>): (kept: seq<Action>)
    ensures forall a :: a in kept <==> a in actions && a.request !in gone
  {
    if actions == [] then []
    else
      var last := actions[|actions| - 1];
      Surviving(actions[..|actions| - 1], gone) + if last.request in gone then [] else [last]
  }

  /** `delete from requests where id = any(..)`: drafts and actions go with their request. */
  function PurgeRows(db: Db, gone: set<nat>): Db {
    Db(map id | id in db.requests && id !in gone :: db.requests[id],
       map k | k in db.drafts && k.request !in gone :: db.drafts[k],
       Surviving(db.actions, gone))
  }

  /** What a triage run decided, and what its model calls cost. */
  datatype TriageResult = TriageResult(status: Status, routing: Routing, draft: Draft)

  /** A triage run ends in one of two states. */
  predicate IsTriaged(status: Status) {
    status == Drafted || status == NeedsHuman
  }

  /**
   * Everything a triage transaction writes: the mark it starts with, then the result, and a
   * draft at the version it computed. Nothing is written if an insert fails.
   */
  function TriageWrites(db: Db, org: nat, id: nat, version: nat, result: TriageResult): Option<Db> {
    InsertDraft(SetTriaged(SetStatus(db, org, id, Triaging), org, id, result.status, result.routing),
                DraftKey(id, version), result.draft)
  }

  // ---- statement by statement ----------------------------------------------------------------

  /** The database, for one connection: each method is one statement. */
  class Store {
    var db: Db

    constructor ()
      ensures db == EMPTY_DB
    {
      db := EMPTY_DB;
    }

    method InsertRequest(id: nat, row: Request)
      requires id !in db.requests
      modifies this
      ensures db == old(db).(requests := old(db).requests[id := row])
    {
      db := db.(requests := db.requests[id := row]);
    }

    method SelectRequest(org: nat, id: nat) returns (row: Option<Request>)
      ensures row == if Owned(db, org, id) then Some(db.requests[id]) else None
    {
      row := if id in db.requests && db.requests[id].org == org then Some(db.requests[id]) else None;
    }

    method SelectLatestDraft(id: nat) returns (row: Option<(nat, Draft)>)
      ensures row.None? <==> LatestVersion(db, id).None?
      ensures row.Some? ==>
        && LatestVersion(db, id) == Some(row.value.0)
        && DraftKey(id, row.value.0) in db.drafts && row.value.1 == db.drafts[DraftKey(id, row.value.0)]
    {
      row := None;
      if Versions(db, id) != {} {
        var v := Top(Versions(db, id));
        row := Some((v, db.drafts[DraftKey(id, v)]));
      }
    }

    method UpdateRequest(org: nat, id: nat, row: Request)
      requires Owned(db, org, id) ==> row.org == org
      modifies this
      ensures db == if Owned(old(db), org, id) then old(db).(requests := old(db).requests[id := row]) else old(db)
    {
      if id in db.requests && db.requests[id].org == org {
        db := db.(requests := db.requests[id := row]);
      }
    }

    /** False, and no change, when the foreign key or the unique constraint refuses the row. */
    method AddDraft(key: DraftKey, draft: Draft) returns (ok: bool)
      modifies this
      ensures ok <==> InsertDraft(old(db), key, draft).Some?
      ensures db == if ok then InsertDraft(old(db), key, draft).value else old(db)
    {
      ok := key.request in db.requests && db.requests[key.request].org == draft.org && key !in db.drafts;
      if ok {
        db := db.(drafts := db.drafts[key := draft]);
      }
    }

    /** False, and no change, when the foreign key refuses the row. */
    method AddAction(action: Action) returns (ok: bool)
      modifies this
      ensures ok <==> InsertAction(old(db), action).Some?
      ensures db == if ok then InsertAction(old(db), action).value else old(db)
    {
      ok := action.request in db.requests && db.requests[action.request].org == action.org;
      if ok {
        db := db.(actions := db.actions + [action]);
      }
    }
  }

  // ---- the audit rows of one request ----------------------------------------------------------

  /** The audit rows of one request, oldest first. */
  ghost function ActionsOf(actions: seq<Action>, id: nat): (mine: seq<Action>)
    ensures forall a | a in mine :: a in actions && a.request == id
  {
    if actions == [] then []
    else
      var last := actions[|actions| - 1];
      ActionsOf(actions[..|actions| - 1], id) + if last.request == id then [last] else []
  }

  lemma ActionAdded(actions: seq<Action>, a: Action, id: nat)
    ensures ActionsOf(actions + [a], id) == ActionsOf(actions, id) + if a.request == id then [a] else []
  {
  }

  lemma {:induction false} NoActions(actions: seq<Action>, id: nat)
    requires forall a | a in actions :: a.request != id
    ensures ActionsOf(actions, id) == []
  {
    if actions != [] {
      var short := actions[..|actions| - 1];
      assert actions[|actions| - 1] in actions;
      assert forall a | a in short :: a in actions;
      NoActions(short, id);
    }
  }

  lemma {:induction false} SurvivingOf(actions: seq<Action>, gone: set<nat>, id: nat)
    requires id !in gone
    ensures ActionsOf(Surviving(actions, gone), id) == ActionsOf(actions, id)
  {
    if actions != [] {
      var short, last := actions[..|actions| - 1], actions[|actions| - 1];
      SurvivingOf(short, gone, id);
      if last.request !in gone {
        ActionAdded(Surviving(short, gone), last, id);
      } else {
        assert Surviving(actions, gone) == Surviving(short, gone);
      }
    }
  }

  /** The audit rows' foreign key. */
  ghost predicate AuditOwned(db: Db) {
    forall a | a in db.actions :: Owned(db, a.org, a.request)
  }

  // ---- what the drafts keep ------------------------------------------------------------------

  /** The draft is on a request of its org, and its version follows one that is there. */
  ghost predicate OnStack(db: Db, k: DraftKey)
    requires k in db.drafts
  {
    && Owned(db, db.drafts[k].org, k.request)
    && 1 <= k.version && (k.version > 1 ==> DraftKey(k.request, k.version - 1) in db.drafts)
  }

  ghost predicate Stacked(db: Db) {
    forall k {:trigger OnStack(db, k)} | k in db.drafts :: OnStack(db, k)
  }

  /** Drafts on requests that are still there, all kept, are still stacked. */
  lemma StaysStacked(db: Db, after: Db)
    requires Stacked(db)
    requires forall k | k in after.drafts :: k in db.drafts && after.drafts[k] == db.drafts[k] && k.request in after.requests
    requires forall k | k in db.drafts && k.request in after.requests :: k in after.drafts
    requires forall id | id in db.requests && id in after.requests :: after.requests[id].org == db.requests[id].org
    ensures Stacked(after)
  {
    forall k | k in after.drafts
      ensures OnStack(after, k)
    {
      assert OnStack(db, k);
    }
  }

  lemma PushStacked(db: Db, key: DraftKey, draft: Draft)
    requires Stacked(db) && Owned(db, draft.org, key.request) && key !in db.drafts
    requires 1 <= key.version && (key.version > 1 ==> DraftKey(key.request, key.version - 1) in db.drafts)
    ensures Stacked(db.(drafts := db.drafts[key := draft]))
  {
    var after := db.(drafts := db.drafts[key := draft]);
    forall k | k in after.drafts
      ensures OnStack(after, k)
    {
      assert k != key ==> OnStack(db, k);
    }
  }

  lemma AllOwned(db: Db)
    requires Stacked(db)
    ensures forall k | k in db.drafts :: k.request in db.requests && 1 <= k.version
  {
    forall k | k in db.drafts
      ensures k.request in db.requests && 1 <= k.version
    {
      assert OnStack(db, k);
    }
  }

  lemma {:induction false} DownToOne(db: Db, id: nat, top: nat, v: nat)
    requires Stacked(db) && DraftKey(id, top) in db.drafts && 1 <= v <= top
    ensures DraftKey(id, v) in db.drafts
    decreases top - v
  {
    if v < top {
      DownToOne(db, id, top, v + 1);
      assert OnStack(db, DraftKey(id, v + 1));
    }
  }

  /** A request's draft versions are exactly 1 up to its latest. */
  lemma VersionsExact(db: Db, id: nat)
    requires Stacked(db)
    ensures forall v: nat :: DraftKey(id, v) in db.drafts <==> 1 <= v < NextVersion(db, id)
  {
    forall v: nat | DraftKey(id, v) in db.drafts
      ensures 1 <= v < NextVersion(db, id)
    {
      assert OnStack(db, DraftKey(id, v)) && v in Versions(db, id);
    }
    forall v: nat | 1 <= v < NextVersion(db, id)
      ensures DraftKey(id, v) in db.drafts
    {
      DownToOne(db, id, LatestVersion(db, id).value, v);
    }
  }
}

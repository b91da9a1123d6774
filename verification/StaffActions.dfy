/**
 * The three staff actions. Each reads the request's state, refuses a resolved one, and
 * writes the outcome and an audit row in one transaction. `..Writes` are the writes from
 * what was read, which may be stale by then; `..Tx` is a transaction that runs alone.
 */
module StaffActions {
  import opened Options
  import opened Records

  datatype Result = Done | Missing | Resolved | NoDraft | EmptyField | Refused

  /** What `loadCurrentState` returns. */
  datatype View = View(status: Status, reply: Option<string>, version: Option<nat>)

  function Load(db: Db, org: nat, id: nat): Option<View> {
    if Owned(db, org, id) then Some(View(db.requests[id].status, db.requests[id].reply, LatestVersion(db, id))) else None
  }

  function Before(view: View): Snapshot {
    Snapshot(view.status, view.reply, view.version)
  }

  function EditedVersion(view: View): nat {
    match view.version
    case None => 1
    case Some(v) => v + 1
  }

  function StaffDraft(org: nat, body: string): Draft {
    Draft(org, body, [], 0.0, "staff", 0, 0)
  }

  // ---- the writes ----------------------------------------------------------------------------

  function ApproveWrites(db: Db, org: nat, id: nat, actor: string, view: View, version: nat, body: string): Option<Db> {
    InsertAction(SetApproved(db, org, id, body),
                 Action(org, id, actor, Approve, Before(view), Snapshot(Approved, Some(body), Some(version)), None))
  }

  function EditWrites(db: Db, org: nat, id: nat, actor: string, view: View, body: string): Option<Db> {
    var version := EditedVersion(view);
    match InsertDraft(db, DraftKey(id, version), StaffDraft(org, body))
    case None => None
    case Some(drafted) =>
      InsertAction(SetApproved(drafted, org, id, body),
                   Action(org, id, actor, Edit, Before(view), Snapshot(Approved, Some(body), Some(version)), None))
  }

  function RejectWrites(db: Db, org: nat, id: nat, actor: string, view: View, reason: string): Option<Db> {
    InsertAction(SetRejected(db, org, id),
                 Action(org, id, actor, Reject, Before(view), Snapshot(Rejected, None, view.version), Some(reason)))
  }

  // ---- the transactions, alone -----------------------------------------------------------------

  datatype Outcome = Outcome(result: Result, db: Db)

  function Ended(db: Db, written: Option<Db>): Outcome {
    match written
    case None => Outcome(Refused, db)
    case Some(after) => Outcome(Done, after)
  }

  function ApproveTx(db: Db, org: nat, actor: string, id: nat): Outcome {
    match Load(db, org, id)
    case None => Outcome(Missing, db)
    case Some(view) =>
      if IsResolved(view.status) then Outcome(Resolved, db)
      else match LatestVersion(db, id)
        case None => Outcome(NoDraft, db)
        case Some(v) => Ended(db, ApproveWrites(db, org, id, actor, view, v, db.drafts[DraftKey(id, v)].body))
  }

  function EditTx(db: Db, org: nat, actor: string, id: nat, body: string): Outcome {
    if body == "" then Outcome(EmptyField, db)
    else match Load(db, org, id)
      case None => Outcome(Missing, db)
      case Some(view) =>
        if IsResolved(view.status) then Outcome(Resolved, db) else Ended(db, EditWrites(db, org, id, actor, view, body))
  }

  function RejectTx(db: Db, org: nat, actor: string, id: nat, reason: string): Outcome {
    if reason == "" then Outcome(EmptyField, db)
    else match Load(db, org, id)
      case None => Outcome(Missing, db)
      case Some(view) =>
        if IsResolved(view.status) then Outcome(Resolved, db) else Ended(db, RejectWrites(db, org, id, actor, view, reason))
  }

  /** What a staff action may change: one request's row, at most one new draft, and one new audit row. */
  ghost predicate OnlyActs(db: Db, after: Db, id: nat, action: Action) {
    && id in db.requests && after.requests.Keys == db.requests.Keys
    && (forall other | other in db.requests && other != id :: after.requests[other] == db.requests[other])
    && after.requests[id].org == db.requests[id].org && after.requests[id].createdAt == db.requests[id].createdAt
    && after.requests[id].routing == db.requests[id].routing && after.requests[id].resolved
    && after.actions == db.actions + [action]
    && action.request == id && action.org == db.requests[id].org
    && action.before == Snapshot(db.requests[id].status, db.requests[id].reply, LatestVersion(db, id))
  }

  lemma LatestIs(db: Db, id: nat, v: nat)
    requires DraftKey(id, v) in db.drafts && forall k | k in db.drafts && k.request == id :: k.version <= v
    ensures LatestVersion(db, id) == Some(v)
  {
  }

  /** Approving succeeds on an open request with a draft, and publishes the latest draft's body verbatim. */
  lemma ApproveMeans(db: Db, org: nat, actor: string, id: nat)
    ensures var o := ApproveTx(db, org, actor, id);
            && (o.result == Done <==>
                  Owned(db, org, id) && !IsResolved(db.requests[id].status) && exists v :: DraftKey(id, v) in db.drafts)
            && (o.result != Done ==> o.db == db)
            && (o.result == Done ==>
                  && o.db.drafts == db.drafts && LatestVersion(db, id).Some?
                  && var v := LatestVersion(db, id).value;
                  var body := Some(db.drafts[DraftKey(id, v)].body);
                  && o.db.requests[id].status == Approved && o.db.requests[id].reply == body
                  && exists a :: OnlyActs(db, o.db, id, a) && a.kind == Approve && a.actor == actor
                                 && a.after == Snapshot(Approved, body, Some(v)) && a.reason == None)
  {
  }

  /** Editing succeeds on an open request, and the edited text becomes both the next draft and the reply. */
  lemma EditMeans(db: Db, org: nat, actor: string, id: nat, body: string)
    ensures var o := EditTx(db, org, actor, id, body);
            && (o.result == Done <==> body != "" && Owned(db, org, id) && !IsResolved(db.requests[id].status))
            && (o.result != Done ==> o.db == db)
            && (o.result == Done ==>
                  && var v := NextVersion(db, id);
                  && DraftKey(id, v) !in db.drafts && o.db.drafts == db.drafts[DraftKey(id, v) := StaffDraft(org, body)]
                  && LatestVersion(o.db, id) == Some(v)
                  && o.db.requests[id].status == Approved && o.db.requests[id].reply == Some(body)
                  && exists a :: OnlyActs(db, o.db, id, a) && a.kind == Edit && a.actor == actor
                                 && a.after == Snapshot(Approved, Some(body), Some(v)) && a.reason == None)
  {
    var o := EditTx(db, org, actor, id, body);
    var v := NextVersion(db, id);
    assert DraftKey(id, v) in db.drafts ==> v in Versions(db, id);
    if o.result == Done {
      var a := o.db.actions[|db.actions|];
      assert OnlyActs(db, o.db, id, a);
      forall k | k in o.db.drafts && k.request == id
        ensures k.version <= v
      {
        assert k in db.drafts ==> k == DraftKey(id, k.version) && k.version in Versions(db, id);
      }
      LatestIs(o.db, id, v);
    }
  }

  /** Rejecting succeeds on an open request, drafted or not, and writes no reply. */
  lemma RejectMeans(db: Db, org: nat, actor: string, id: nat, reason: string)
    ensures var o := RejectTx(db, org, actor, id, reason);
            && (o.result == Done <==> reason != "" && Owned(db, org, id) && !IsResolved(db.requests[id].status))
            && (o.result != Done ==> o.db == db)
            && (o.result == Done ==>
                  && o.db.drafts == db.drafts
                  && o.db.requests[id].status == Rejected && o.db.requests[id].reply == db.requests[id].reply
                  && exists a :: OnlyActs(db, o.db, id, a) && a.kind == Reject && a.actor == actor
                                 && a.after == Snapshot(Rejected, None, LatestVersion(db, id)) && a.reason == Some(reason))
  {
  }

  /** How an action ends on a request in this state: the refusals, in the order they are tested, and no insert is ever refused. */
  lemma ApproveEnds(db: Db, org: nat, actor: string, id: nat)
    ensures ApproveTx(db, org, actor, id).result
            == if !(id in db.requests && db.requests[id].org == org) then Missing
               else if db.requests[id].status == Approved || db.requests[id].status == Rejected then Resolved
               else if forall v :: DraftKey(id, v) !in db.drafts then NoDraft
               else Done
  {
    assert (exists v :: DraftKey(id, v) in db.drafts) <==> LatestVersion(db, id).Some? by {
      if v :| DraftKey(id, v) in db.drafts {
        assert v in Versions(db, id);
      }
    }
  }

  lemma EditEnds(db: Db, org: nat, actor: string, id: nat, body: string)
    ensures EditTx(db, org, actor, id, body).result
            == if body == "" then EmptyField
               else if !(id in db.requests && db.requests[id].org == org) then Missing
               else if db.requests[id].status == Approved || db.requests[id].status == Rejected then Resolved
               else Done
  {
    EditMeans(db, org, actor, id, body);
  }

  lemma RejectEnds(db: Db, org: nat, actor: string, id: nat, reason: string)
    ensures RejectTx(db, org, actor, id, reason).result
            == if reason == "" then EmptyField
               else if !(id in db.requests && db.requests[id].org == org) then Missing
               else if db.requests[id].status == Approved || db.requests[id].status == Rejected then Resolved
               else Done
  {
  }

  // ---- the actions themselves --------------------------------------------------------------------

  method LoadCurrentState(store: Store, org: nat, id: nat) returns (view: Option<View>)
    ensures view == Load(store.db, org, id)
  {
    var current := store.SelectRequest(org, id);
    if current.None? {
      return None;
    }
    var latest := store.SelectLatestDraft(id);
    view := Some(View(current.value.status, current.value.reply, if latest.None? then None else Some(latest.value.0)));
  }

  method ApproveRequest(store: Store, org: nat, actor: string, id: nat) returns (r: Result)
    modifies store
    ensures Outcome(r, store.db) == ApproveTx(old(store.db), org, actor, id)
  {
    var state := LoadCurrentState(store, org, id);
    if state.None? {
      return Missing;
    }
    if IsResolved(state.value.status) {
      return Resolved;
    }
    var latest := store.SelectLatestDraft(id);
    if latest.None? {
      return NoDraft;
    }
    var (version, draft) := latest.value;
    var after := Snapshot(Approved, Some(draft.body), Some(version));
    var row := store.db.requests[id].(status := Approved, reply := Some(draft.body), resolved := true);
    store.UpdateRequest(org, id, row);
    var recorded := store.AddAction(Action(org, id, actor, Approve, Before(state.value), after, None));
    r := Done;
  }

  method EditApproveRequest(store: Store, org: nat, actor: string, id: nat, body: string) returns (r: Result)
    modifies store
    ensures Outcome(r, store.db) == EditTx(old(store.db), org, actor, id, body)
  {
    if body == "" {
      return EmptyField;
    }
    var state := LoadCurrentState(store, org, id);
    if state.None? {
      return Missing;
    }
    if IsResolved(state.value.status) {
      return Resolved;
    }
    var version := (match state.value.version case None => 0 case Some(v) => v) + 1;
    var inserted := store.AddDraft(DraftKey(id, version), Draft(org, body, [], 0.0, "staff", 0, 0));
    if !inserted {
      return Refused;
    }
    var after := Snapshot(Approved, Some(body), Some(version));
    store.UpdateRequest(org, id, store.db.requests[id].(status := Approved, reply := Some(body), resolved := true));
    var recorded := store.AddAction(Action(org, id, actor, Edit, Before(state.value), after, None));
    r := Done;
  }

  method RejectRequest(store: Store, org: nat, actor: string, id: nat, reason: string) returns (r: Result)
    modifies store
    ensures Outcome(r, store.db) == RejectTx(old(store.db), org, actor, id, reason)
  {
    if reason == "" {
      return EmptyField;
    }
    var state := LoadCurrentState(store, org, id);
    if state.None? {
      return Missing;
    }
    if IsResolved(state.value.status) {
      return Resolved;
    }
    var after := Snapshot(Rejected, None, state.value.version);
    store.UpdateRequest(org, id, store.db.requests[id].(status := Rejected, resolved := true));
    var recorded := store.AddAction(Action(org, id, actor, Reject, Before(state.value), after, Some(reason)));
    r := Done;
  }
}

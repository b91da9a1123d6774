/**
 * One triage run: resolve the provider, classify, retrieve, draft, score, and write the
 * result with one draft row. It runs inside the consumer's transaction, so an exception
 * anywhere leaves nothing behind.
 */
module TriagePipeline {
  import opened Options
  import opened Records
  import Retrieval
  import Citations
  import Confidence
  import Spend
  import Ranks

  datatype Classification = Classification(routing: Routing, model: string, inputTokens: nat, outputTokens: nat)

  /** What the two retrieval queries and the look-up of missing similarities return. */
  datatype Arms = Arms(cosine: seq<Retrieval.Row>, fts: seq<Retrieval.Row>, extra: map<string, real>)

  const CANDIDATE_LIMIT: nat := 20
  const RESULT_LIMIT: nat := 5
  const RRF_K: nat := 60

  /** The world a run calls into; `None` stands for an exception. */
  datatype Calls = Calls(
    day: seq<Spend.Spent>, budget: nat, configured: Spend.ProviderKind, ceilingExceeded: bool,
    classify: Spend.ProviderKind -> Option<Classification>,
    arms: Option<Arms>, floor: real,
    template: string -> string, reminder: set<string> -> string,
    provider: Spend.ProviderKind -> Citations.Provider, draftFails: bool,
    round: real -> real)

  /** Each query returns a row once. */
  ghost predicate CallsFit(c: Calls) {
    c.arms.Some? ==> Retrieval.DistinctIds(c.arms.value.cosine) && Retrieval.DistinctIds(c.arms.value.fts)
                     && |c.arms.value.cosine| <= CANDIDATE_LIMIT && |c.arms.value.fts| <= CANDIDATE_LIMIT
  }

  const NOTHING_FOUND :=
    "No relevant information was found in this business's documents for this "
    + "request. A staff member needs to reply directly."
  const NOT_VERIFIED :=
    "A draft reply could not be verified against this business's documents "
    + "(it cited a source that was not retrieved). A staff member needs to "
    + "review this request directly."

  function Sources(chunks: seq<Retrieval.Chunk>): (sources: seq<Citations.Source>)
    ensures |sources| == |chunks|
    ensures forall i | 0 <= i < |chunks| :: sources[i] == Citations.Source(chunks[i].id, chunks[i].text)
  {
    seq(|chunks|, i requires 0 <= i < |chunks| => Citations.Source(chunks[i].id, chunks[i].text))
  }

  function ValidIds(chunks: seq<Retrieval.Chunk>): set<string> {
    set i | 0 <= i < |chunks| :: chunks[i].id
  }

  function Similarities(chunks: seq<Retrieval.Chunk>): (sims: seq<real>)
    ensures |sims| == |chunks| && forall i | 0 <= i < |chunks| :: sims[i] == chunks[i].similarity
  {
    seq(|chunks|, i requires 0 <= i < |chunks| => chunks[i].similarity)
  }

  /** How a run came to its result: the provider it got, what it retrieved, and its draft attempts. */
  datatype Run = Run(kind: Spend.ProviderKind, classification: Classification, dicts: Retrieval.Dicts,
                     chunks: seq<Retrieval.Chunk>, attempts: nat, outcome: Citations.DraftOutcome)

  ghost predicate IsRetrieved(c: Calls, run: Run) {
    && c.arms.Some?
    && Retrieval.Accumulated(c.arms.value.cosine, c.arms.value.fts, RRF_K, run.dicts)
    && Retrieval.IsBest(c.arms.value.cosine, c.arms.value.fts, c.arms.value.extra, c.floor, RESULT_LIMIT, run.dicts.order,
                        run.dicts.scores, run.chunks)
  }

  /** The draft attempts: none if nothing was retrieved. */
  ghost predicate IsDrafted(c: Calls, run: Run) {
    if run.chunks == [] then run.attempts == 0 && run.outcome == Citations.DraftOutcome(None, 0, 0)
    else
      var prompt := c.template(Citations.RenderChunks(Sources(run.chunks)));
      var ids := ValidIds(run.chunks);
      Citations.IsOutcome(c.provider(run.kind), prompt, c.reminder(ids), ids, run.attempts, run.outcome)
  }

  /**
   * A run's result. It is drafted exactly if something was retrieved and an attempt was
   * grounded; otherwise the draft says why a person is needed. The tokens are those of
   * every model call the run made.
   */
  ghost predicate IsResult(c: Calls, org: nat, run: Run, result: TriageResult) {
    && run.kind == Spend.ResolveProvider(c.configured, c.day, c.budget, c.ceilingExceeded)
    && c.classify(run.kind) == Some(run.classification)
    && IsRetrieved(c, run) && IsDrafted(c, run)
    && var draft := result.draft;
    && result.routing == run.classification.routing && draft.org == org
    && draft.tokensIn == run.classification.inputTokens + run.outcome.inputTokens
    && draft.tokensOut == run.classification.outputTokens + run.outcome.outputTokens
    && match run.outcome.result
       case Some(d) =>
         && result.status == Drafted && draft.body == d.text && draft.citations == d.citedIds && draft.model == d.model
         && draft.confidence
            == Confidence.ComputeConfidence(Similarities(run.chunks), |d.citedIds|, |run.chunks|, c.floor, c.round)
       case None =>
         && result.status == NeedsHuman && draft.citations == [] && draft.confidence == 0.0
         && draft.model == run.classification.model
         && draft.body == if run.chunks == [] then NOTHING_FOUND else NOT_VERIFIED
  }

  /** No candidate is at or above the floor. */
  ghost predicate FindsNothing(arms: Arms, floor: real) {
    forall id | Retrieval.HasId(arms.cosine, id) || Retrieval.HasId(arms.fts, id) ::
      Retrieval.Similarity(arms.cosine, arms.extra, id) < floor
  }

  lemma NothingRetrieved(c: Calls, run: Run)
    requires IsRetrieved(c, run)
    ensures run.chunks == [] <==> FindsNothing(c.arms.value, c.floor)
  {
    var arms, ids := c.arms.value, Retrieval.Ids(run.chunks);
    if run.chunks == [] {
      forall id | Retrieval.HasId(arms.cosine, id) || Retrieval.HasId(arms.fts, id)
        ensures Retrieval.Similarity(arms.cosine, arms.extra, id) < c.floor
      {
        assert id in run.dicts.order && id !in ids;
      }
    } else {
      var id := run.chunks[0].id;
      assert id in run.dicts.order;
    }
  }

  /** The retrieval and the draft raise: a query fails, or an attempt does, which is only made if something is found. */
  ghost predicate AttemptsRaise(c: Calls) {
    c.arms.None? || (c.draftFails && !FindsNothing(c.arms.value, c.floor))
  }

  /** When a run raises: there is no such request, the classifier fails, or the retrieval or the draft does. */
  ghost predicate RunRaises(c: Calls, db: Db, org: nat, id: nat) {
    || !Owned(db, org, id)
    || c.classify(Spend.ResolveProvider(c.configured, c.day, c.budget, c.ceilingExceeded)).None?
    || AttemptsRaise(c)
  }

  const NO_RUN := Run(Spend.Fake, Classification(Routing("", "", "", ""), "", 0, 0), Retrieval.NO_DICTS, [], 0,
                      Citations.DraftOutcome(None, 0, 0))

  // ---- the run -------------------------------------------------------------------------------------

  /** The update and the draft at the next version, which is never refused: it is above every version there. */
  method WriteResult(store: Store, org: nat, id: nat, result: TriageResult) returns (ok: bool)
    requires Owned(store.db, org, id) && result.draft.org == org
    modifies store
    ensures ok && InsertDraft(SetTriaged(old(store.db), org, id, result.status, result.routing),
                              DraftKey(id, NextVersion(old(store.db), id)), result.draft) == Some(store.db)
  {
    var row := store.db.requests[id].(status := result.status, routing := Some(result.routing));
    store.UpdateRequest(org, id, row);
    assert Versions(store.db, id) == Versions(old(store.db), id);
    var latest := store.SelectLatestDraft(id);
    var version := (match latest case None => 0 case Some(found) => found.0) + 1;
    ok := store.AddDraft(DraftKey(id, version), result.draft);
  }

  /** Retrieval and the attempts at a draft. */
  method RetrieveAndDraft(c: Calls, kind: Spend.ProviderKind, classification: Classification)
    returns (ok: bool, chunks: seq<Retrieval.Chunk>, outcome: Citations.DraftOutcome, ghost run: Run)
    requires CallsFit(c)
    ensures ok <==> !AttemptsRaise(c)
    ensures ok ==> run == Run(kind, classification, run.dicts, chunks, run.attempts, outcome)
    ensures ok ==> IsRetrieved(c, run) && IsDrafted(c, run)
  {
    chunks, outcome := [], Citations.DraftOutcome(None, 0, 0);
    run := NO_RUN;
    if c.arms.None? {
      return false, chunks, outcome, run;
    }
    var arms := c.arms.value;
    ghost var dicts;
    chunks, dicts := Retrieval.RetrieveChunks(arms.cosine, arms.fts, arms.extra, c.floor, RESULT_LIMIT, RRF_K);
    ghost var attempts := 0;
    NothingRetrieved(c, Run(kind, classification, dicts, chunks, 0, outcome));
    if chunks != [] {
      if c.draftFails {
        return false, chunks, outcome, run;
      }
      var ids := ValidIds(chunks);
      var prompt := c.template(Citations.RenderChunks(Sources(chunks)));
      outcome, attempts := Citations.GenerateDraft(c.provider(kind), prompt, c.reminder(ids), ids);
    }
    run := Run(kind, classification, dicts, chunks, attempts, outcome);
    ok := true;
  }

  /** The row a run writes, from what it found. */
  method Conclude(c: Calls, org: nat, classification: Classification, chunks: seq<Retrieval.Chunk>,
                  outcome: Citations.DraftOutcome, ghost run: Run) returns (result: TriageResult)
    requires run == Run(Spend.ResolveProvider(c.configured, c.day, c.budget, c.ceilingExceeded), classification, run.dicts,
                        chunks, run.attempts, outcome)
    requires c.classify(run.kind) == Some(classification) && IsRetrieved(c, run) && IsDrafted(c, run)
    ensures IsResult(c, org, run, result) && IsTriaged(result.status)
  {
    var tokensIn, tokensOut := classification.inputTokens, classification.outputTokens;
    if chunks == [] {
      var draft := Draft(org, NOTHING_FOUND, [], 0.0, classification.model, tokensIn, tokensOut);
      return TriageResult(NeedsHuman, classification.routing, draft);
    }
    tokensIn := tokensIn + outcome.inputTokens;
    tokensOut := tokensOut + outcome.outputTokens;
    match outcome.result {
      case None =>
        var draft := Draft(org, NOT_VERIFIED, [], 0.0, classification.model, tokensIn, tokensOut);
        result := TriageResult(NeedsHuman, classification.routing, draft);
      case Some(d) =>
        var confidence :=
          Confidence.ComputeConfidence(Similarities(chunks), |d.citedIds|, |chunks|, c.floor, c.round);
        result := TriageResult(Drafted, classification.routing,
                               Draft(org, d.text, d.citedIds, confidence, d.model, tokensIn, tokensOut));
    }
  }

  /** False stands for an exception, which is raised exactly in the cases of `RunRaises`, and after which the consumer rolls back. */
  method RunTriagePipeline(store: Store, org: nat, id: nat, c: Calls)
    returns (ok: bool, ghost result: TriageResult, ghost run: Run)
    requires CallsFit(c)
    modifies store
    ensures ok <==> !RunRaises(c, old(store.db), org, id)
    ensures ok ==> Owned(old(store.db), org, id) && IsResult(c, org, run, result) && IsTriaged(result.status)
    ensures ok ==> InsertDraft(SetTriaged(old(store.db), org, id, result.status, result.routing),
                               DraftKey(id, NextVersion(old(store.db), id)), result.draft) == Some(store.db)
  {
    run := NO_RUN;
    result := TriageResult(NeedsHuman, run.classification.routing, Draft(org, "", [], 0.0, "", 0, 0));
    var found := store.SelectRequest(org, id);
    if found.None? {
      return false, result, run;
    }
    var kind := Spend.ResolveProvider(c.configured, c.day, c.budget, c.ceilingExceeded);
    var classified := c.classify(kind);
    if classified.None? {
      return false, result, run;
    }
    var chunks, outcome;
    ok, chunks, outcome, run := RetrieveAndDraft(c, kind, classified.value);
    if ok {
      var concluded := Conclude(c, org, classified.value, chunks, outcome, run);
      result := concluded;
      ok := WriteResult(store, org, id, concluded);
    }
  }

  // ---- what a result means -------------------------------------------------------------------------

  lemma Retrieved(c: Calls, run: Run)
    requires IsRetrieved(c, run)
    ensures |run.chunks| <= RESULT_LIMIT && |ValidIds(run.chunks)| <= |run.chunks|
    ensures forall i | 0 <= i < |run.chunks| :: c.floor <= run.chunks[i].similarity
  {
    IdsAtMost(run.chunks);
  }

  /** Among the retrieved chunks those that both searches found come before those that one found. */
  lemma FoundByBothFirst(c: Calls, run: Run, i: nat, j: nat)
    requires CallsFit(c) && IsRetrieved(c, run) && i < |run.chunks| && j < |run.chunks|
    requires var arms, id := c.arms.value, run.chunks[i].id; Retrieval.HasId(arms.cosine, id) && Retrieval.HasId(arms.fts, id)
    requires var arms, id := c.arms.value, run.chunks[j].id; Retrieval.HasId(arms.cosine, id) != Retrieval.HasId(arms.fts, id)
    ensures i < j
  {
    var arms, ids := c.arms.value, Retrieval.Ids(run.chunks);
    if j <= i {
      Retrieval.RankedFalls(run.dicts.order, run.dicts.scores, ids, j, i);
    }
    Retrieval.FoundByBothWins(arms.cosine, arms.fts, RRF_K, CANDIDATE_LIMIT, ids[i], ids[j]);
  }

  lemma {:induction false} IdsAtMost(chunks: seq<Retrieval.Chunk>)
    ensures |ValidIds(chunks)| <= |chunks|
  {
    if chunks != [] {
      var short, last := chunks[..|chunks| - 1], chunks[|chunks| - 1];
      IdsAtMost(short);
      assert ValidIds(chunks) == ValidIds(short) + {last.id} by {
        assert forall i | 0 <= i < |short| :: short[i] == chunks[i];
        forall id | id in ValidIds(short)
          ensures id in ValidIds(chunks)
        {
          var i :| 0 <= i < |short| && short[i].id == id;
          assert chunks[i].id == id;
        }
        forall id | id in ValidIds(chunks) && id != last.id
          ensures id in ValidIds(short)
        {
          var i :| 0 <= i < |chunks| && chunks[i].id == id;
          assert short[i].id == id;
        }
      }
    }
  }

  /** A drafted row's citations are distinct retrieved ids. */
  lemma DraftedIsGrounded(c: Calls, org: nat, run: Run, result: TriageResult)
    requires IsResult(c, org, run, result) && result.status == Drafted
    ensures var cited := result.draft.citations;
            && Citations.Distinct(cited) && (forall id | id in cited :: id in ValidIds(run.chunks))
            && run.chunks != [] && |cited| <= |run.chunks|
  {
    var ids := ValidIds(run.chunks);
    var prompt := c.template(Citations.RenderChunks(Sources(run.chunks)));
    Retrieved(c, run);
    Citations.DraftCitesRetrieved(c.provider(run.kind), prompt, c.reminder(ids), ids, run.attempts, run.outcome);
  }

  lemma DraftedConfidence(c: Calls, org: nat, run: Run, result: TriageResult)
    requires IsResult(c, org, run, result) && result.status == Drafted
    ensures result.draft.confidence == Confidence.ComputeConfidence(
      Similarities(run.chunks), |result.draft.citations|, |run.chunks|, c.floor, c.round)
  {
  }

  lemma IsFromPipeline(chunks: seq<Retrieval.Chunk>, cited: nat, floor: real)
    requires chunks != [] && cited <= |chunks|
    requires forall i | 0 <= i < |chunks| :: floor <= chunks[i].similarity <= 1.0
    ensures Confidence.FromPipeline(Similarities(chunks), cited, |chunks|, floor)
  {
  }

  /**
   * If no similarity is over 1, the confidence is the rounding of a score in the unit
   * interval that no clamp has touched.
   */
  lemma ConfidenceUnclamped(c: Calls, org: nat, run: Run, result: TriageResult)
    requires IsResult(c, org, run, result) && result.status == Drafted
    requires forall i | 0 <= i < |run.chunks| :: run.chunks[i].similarity <= 1.0
    ensures run.chunks != []
    ensures var score := Confidence.Score(Similarities(run.chunks), |result.draft.citations|, |run.chunks|, c.floor);
            0.0 <= score <= 1.0 && result.draft.confidence == c.round(score)
  {
    var chunks, cited := run.chunks, |result.draft.citations|;
    DraftedIsGrounded(c, org, run, result);
    Retrieved(c, run);
    DraftedConfidence(c, org, run, result);
    IsFromPipeline(chunks, cited, c.floor);
    Confidence.ClampsIdle(Similarities(chunks), cited, |chunks|, c.floor, c.round);
  }

  // ---- what a result rests on, by the inputs alone --------------------------------------------------

  /** A run is live exactly if a live provider is configured, the org's tokens are below its budget and the ceiling is not exceeded. */
  lemma RunIsLive(c: Calls, org: nat, run: Run, result: TriageResult)
    requires IsResult(c, org, run, result)
    ensures run.kind == Spend.Live
            <==> c.configured == Spend.Live && Spend.TokensToday(c.day) < c.budget && !c.ceilingExceeded
  {
  }

  /** At most five chunks are retrieved, in the order their integer ranks say with 60 added to each. */
  lemma {:induction false} ChunksByRanks(c: Calls, run: Run, i: nat, j: nat, a: nat, b: nat, e: nat, f: nat)
    requires CallsFit(c) && IsRetrieved(c, run) && i < j < |run.chunks|
    requires Ranks.ArePlaces(c.arms.value.cosine, c.arms.value.fts, run.chunks[i].id, a, b)
    requires Ranks.ArePlaces(c.arms.value.cosine, c.arms.value.fts, run.chunks[j].id, e, f)
    ensures |run.chunks| <= 5 && Ranks.RanksAbove(60, a, b, e, f)
  {
    var arms := c.arms.value;
    Ranks.RetrievedByRanks(arms.cosine, arms.fts, arms.extra, c.floor, RESULT_LIMIT, RRF_K, run.chunks, run.dicts, i,
                           run.chunks[j].id, a, b, e, f);
  }

  /** A run without a draft says which of the two reasons there was. */
  lemma UndraftedSays(c: Calls, org: nat, run: Run, result: TriageResult)
    requires IsResult(c, org, run, result) && result.status != Drafted
    ensures result.status == NeedsHuman && result.draft.citations == [] && result.draft.confidence == 0.0
    ensures result.draft.body == if FindsNothing(c.arms.value, c.floor) then NOTHING_FOUND else NOT_VERIFIED
  {
    NothingRetrieved(c, run);
  }

  /** The text cites retrieved chunks only. */
  ghost predicate CitesRetrieved(run: Run, text: string) {
    forall id | id in Citations.FindAll(text) :: exists i :: 0 <= i < |run.chunks| && run.chunks[i].id == id
  }

  /**
   * A run drafts exactly if something was retrieved and the model's first answer cites
   * retrieved chunks only, or else its second, to the prompt with the reminder.
   */
  lemma {:induction false} DraftedWhen(c: Calls, org: nat, run: Run, result: TriageResult)
    requires IsResult(c, org, run, result)
    ensures var prompt := c.template(Citations.RenderChunks(Sources(run.chunks)));
            var provider := c.provider(run.kind);
            result.status == Drafted
            <==> run.chunks != []
                 && (CitesRetrieved(run, provider(1, prompt).text)
                     || CitesRetrieved(run, provider(2, prompt + c.reminder(ValidIds(run.chunks))).text))
  {
    var prompt := c.template(Citations.RenderChunks(Sources(run.chunks)));
    var ids := ValidIds(run.chunks);
    if run.chunks != [] {
      Citations.CallsMade(c.provider(run.kind), prompt, c.reminder(ids), ids, run.attempts, run.outcome);
      GroundedIff(run, c.provider(run.kind)(1, prompt).text);
      GroundedIff(run, c.provider(run.kind)(2, prompt + c.reminder(ids)).text);
    }
  }

  lemma {:induction false} GroundedIff(run: Run, text: string)
    ensures Citations.Grounded(text, ValidIds(run.chunks)) <==> CitesRetrieved(run, text)
  {
    forall id
      ensures id in ValidIds(run.chunks) <==> exists i :: 0 <= i < |run.chunks| && run.chunks[i].id == id
    {
    }
  }
}

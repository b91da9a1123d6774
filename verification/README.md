# Frontdesk: a verified model

Frontdesk takes requests in over an API, triages them with a language model grounded in an
organisation's documents, and lets staff approve, edit or reject the draft reply. This
project models the logic that has to stay right when things interleave, crash or come in odd
shapes, and proves what it keeps.

The modules follow the system:

- **Ingestion.** `Text` has the Python string operations. `Layout` says, from the kinds of a
  document's lines alone, which stretches become blocks; `Blocks` is the line scanner proved
  against it. `Windows` describes the sliding window with overlap over token counts;
  `Chunker` is the splitter, the overlap and the window loop, proved against it; `Budgets`
  says over documents when the token target bounds a chunk. `Sections` is the evaluation
  harness's second parser; `Pieces` and `Anchors` are the theorems between the two: where the
  text one parser finds lies in the pieces and chunks the other made. `Ingestion` is the
  batched re-index transaction, and what any number of deliveries leave.
- **Triage.** `Retrieval` (reciprocal rank fusion, floor, top five), `Ranks` (the same order by
  integer ranks alone), `Citations` (reading and printing citations, the two draft attempts), `Confidence`, `Spend` (the budget under
  concurrent runs) and `TriagePipeline`, which composes them into the one row a run writes.
- **The queue.** `LeaseQueue` is the abstract queue; `Pgmq` and `Sqs` are the two adapters,
  each proved to refine it for clients that settle a delivery once, while its lease is current.
- **The lifecycle.** `Records` has the tables and their constraints, `StaffActions` the three
  staff transactions, `Tracking` the public page. `Lifecycle` is one transition system of
  intake, queue, workers, staff sessions, crashes, lease expiry and purge. `QueueSafety`,
  `DraftSafety`, `DeliveryBound`, `Resolutions` and `PublicPage` are theorems over all its runs;
  `Interleavings` has runs that show what interleaving breaks; `SerialHistory` is what holds when
  transactions run one after the other. `Intake` and `Consumer` are the imperative handlers,
  proved to be steps of the transition system. `Retention` is the nightly purge.

Conventions: a method that loops or updates state is proved against a predicate that says
what the result is without following the loop (`IsSpanning`, `IsWindowing`, `MapsSections`,
`IsBest`, ...), a uniqueness lemma shows the predicate leaves no freedom, and the theorems
are about the predicate. What is computed by a function that code and predicate share is fixed
by a lemma that does not name it (`KindIff`, `ChunkStands`, `NameOfHeading`, `RetrievedByRanks`,
`IngestedReading`, ...). `None` stands for Python's `None`, SQL's `null`, or an exception,
as each comment says. A database transaction that commits is one step; what it read earlier
is an earlier step. Scores and confidence are exact reals.

Where the code and its own comments disagree the model follows the code:

- `worker/frontdesk_worker/pipeline.py:4-8` says a crash leaves the request at `triaging`. The
  mark and the result are in one transaction, so `triaging` is never committed
  (`DraftSafety.NeverTriaging`).
- `evals/run.py:196-200` says a chunk that covers a section contains its first paragraph
  verbatim. A chunk contains it if the paragraph lies, at its own place, in one piece of one of
  the chunker's blocks (`Anchors.ParagraphInSomeChunk`). That is so exactly when no code block
  cuts through the paragraph, and its block is within the target, by its count or its units'
  summed counts, or has one unit, or is code of which one greedy window over the line counts
  has all the paragraph's lines (`Anchors.InOnePieceIff`). Otherwise the text can be missing
  (`Anchors.FenceCutsAnchor`, `Anchors.OneParagraphIff`), unless the same text stands somewhere
  else: it is in a chunk exactly when it is in one piece of some block or in the heading a
  chunk starts with (`Anchors.InSomeChunkIff`).
- `worker/frontdesk_worker/ingestion/chunker.py:100` splits a code block by its lines to put it
  together again, and loses an empty last line. That happens exactly to an oversized
  unterminated fence at the end of a document that ends in an empty line (`Chunker.PartsRejoin`).
- `web/src/lib/staffActions.ts:110-117` says the check for a resolved request prevents a
  rejected one from being approved. The check reads the row without a lock, so two sessions
  that both read it open both commit (`Interleavings.RejectionOverridden`). A commit overrides
  a resolution exactly when another session resolved the request after this one read it, and
  no triage run reopened it since (`Resolutions.OverriddenIff`). The only other step that
  touches a resolved row is a triage run that commits on it (`Resolutions.ResolvedTouchedIff`).
- The 400-token target is not a bound on a chunk: the overlap and the next block can exceed it.
  For documents whose blocks after splitting have at most `m` tokens it is one exactly when `m`
  is within it and, if there is an overlap, so is `overlap - 1 + 2 * m` (`Budgets.TargetIsBound`).
  The bound that always holds is in `Budgets.ChunkBound`, and for every target, overlap and `m`
  some document reaches it (`Budgets.ChunkBoundReached`).

## Model

| member | source | states |
|---|---|---|
| Blocks.SplitBlocks | worker/frontdesk_worker/ingestion/chunker.py:45-93 | the scanner returns exactly the blocks of the maximal stretches of kept lines, each with its text and its heading |
| Blocks.FlushText | worker/frontdesk_worker/ingestion/chunker.py:53-59 | a collected paragraph is never dropped: its stripped text is not empty |
| Text.LinesMean | worker/frontdesk_worker/ingestion/chunker.py:46 | the lines of a text are its break-free stretches, each with its end, where a carriage return is never parted from its line feed and only a last line may lack an end |
| Text.LinesAre | worker/frontdesk_worker/ingestion/chunker.py:46 | a text has no other lines |
| Text.CharacterTables | worker/frontdesk_worker/ingestion/chunker.py:46-86 | the code points that count as space, and those that end a line |
| Blocks.KindIff | worker/frontdesk_worker/ingestion/chunker.py:34-86 | a line is a fence if and only if three backquotes come first after spaces, a heading if and only if one to six marks are followed by a space and something more, blank if and only if it is all space |
| Blocks.HeadingOfBlock | worker/frontdesk_worker/ingestion/chunker.py:76-80 | a block's heading is the last heading line before it outside any fence, without the space around it |
| Blocks.BlocksUnique | worker/frontdesk_worker/ingestion/chunker.py:45-93 | the lines determine the blocks |
| Blocks.LineSurvives | worker/frontdesk_worker/ingestion/chunker.py:53-91 | every kept line's text is in its block, whole in code and up to surrounding space in prose |
| Layout.LineInOneBlock | worker/frontdesk_worker/ingestion/chunker.py:61-91 | every line that is kept is in exactly one block, every other line in none |
| Layout.SpanningUnique | worker/frontdesk_worker/ingestion/chunker.py:61-91 | there is one way to cut a document's lines into blocks |
| Layout.CodeSpan | worker/frontdesk_worker/ingestion/chunker.py:62-74 | fence lines stay in one code block: the first opens it and only the last can close it |
| Layout.InCodeIsParity | worker/frontdesk_worker/ingestion/chunker.py:62-74 | a line is inside a fence exactly if an odd number of fence lines precede it |
| Layout.UnterminatedAtEnd | worker/frontdesk_worker/ingestion/chunker.py:89-91 | only the document's end leaves a code block unclosed |
| Windows.WindowingUnique | worker/frontdesk_worker/ingestion/chunker.py:158-174 | counts, target and overlap determine the windows |
| Windows.WindowsSlide | worker/frontdesk_worker/ingestion/chunker.py:162-172 | window starts never fall back, ends strictly rise, and consecutive windows leave no gap |
| Budgets.ChunkBound | worker/frontdesk_worker/ingestion/chunker.py:126-174 | a chunk's summed count is within the target, or within overlap - 1 + 2M for the largest block M after splitting |
| Budgets.DocumentOf | worker/frontdesk_worker/ingestion/chunker.py:137-174 | any positive counts, with their windows, are those of some document's blocks |
| Budgets.ChunkBoundReached | worker/frontdesk_worker/ingestion/chunker.py:31-32 | for every target, overlap and M > 0 some document has a chunk whose summed count is exactly that bound |
| Budgets.TargetIsBound | worker/frontdesk_worker/ingestion/chunker.py:31-32 | in all documents, under all counters, all chunks of blocks up to M are within the target if and only if M is, and without overlap or with overlap - 1 + 2M within it too |
| Windows.ShortestTailUnique | worker/frontdesk_worker/ingestion/chunker.py:126-134 | the carried overlap is determined: the shortest suffix that reaches the budget, or the whole chunk |
| Windows.GreedyIsSmallest | worker/frontdesk_worker/ingestion/chunker.py:96-117 | no order-preserving partition into within-target pieces has fewer pieces |
| Windows.GreedyIsPartition | worker/frontdesk_worker/ingestion/chunker.py:96-117 | when every unit fits, the greedy pieces are such a partition |
| Chunker.SplitOversized | worker/frontdesk_worker/ingestion/chunker.py:96-117 | the loop's pieces are the windows without overlap over the block's units |
| Chunker.PieceFits | worker/frontdesk_worker/ingestion/chunker.py:106-115 | every piece is within the target or a single unit |
| Chunker.PieceIsAtom | worker/frontdesk_worker/ingestion/chunker.py:96-117 | a piece over the target, counted by units, is one word of prose or one line of code |
| Chunker.FewestPieces | worker/frontdesk_worker/ingestion/chunker.py:96-117 | the splitter uses the fewest pieces possible |
| Chunker.PartsRejoin | worker/frontdesk_worker/ingestion/chunker.py:96-117 | for each block of any document the parts rejoin to its text, if and only if it is not the oversized last block of a document that ends in an empty line of an open fence |
| Chunker.LosesLineIff | worker/frontdesk_worker/ingestion/chunker.py:89-91 | a code block of several lines ends in an empty line if and only if it is an unterminated fence at the end of a document whose last line is empty |
| Chunker.LostLineExample | worker/frontdesk_worker/ingestion/chunker.py:100-101 | a document of a fence line and an empty line does lose it when split |
| Chunker.OverlapTail | worker/frontdesk_worker/ingestion/chunker.py:126-134 | the overlap is the shortest suffix that reaches the budget, or the whole chunk |
| Chunker.WindowBlocks | worker/frontdesk_worker/ingestion/chunker.py:158-174 | the chunks are the renderings of the windows over the expanded blocks |
| Chunker.ChunkMarkdown | worker/frontdesk_worker/ingestion/chunker.py:137-174 | the chunks are explained step by step: lines, blocks, pieces, windows, renderings |
| Chunker.ChunksUnique | worker/frontdesk_worker/ingestion/chunker.py:137-174 | that explanation leaves one possible result |
| Chunker.ChunkStands | worker/frontdesk_worker/ingestion/chunker.py:120-123 | every chunk of every document starts with its first block's heading and an empty line, if there is a heading; its block texts follow one after the other with an empty line between them, and the last ends it |
| Chunker.ExpandedInSomeChunk | worker/frontdesk_worker/ingestion/chunker.py:120-174 | every expanded block is whole in some chunk |
| Chunker.NoChunksIffNothingKept | worker/frontdesk_worker/ingestion/chunker.py:144-148 | a document has no chunks exactly if it has no fence and no prose line |
| Sections.SectionFirstBlocks | evals/run.py:195-224 | the loop maps each heading to the first paragraph under any heading of that name |
| Sections.NameOfHeading | evals/run.py:217 | a heading line's name is what stands between its marks with a gap of space and the space at its end, and nothing else is |
| Sections.KeysAreNames | evals/run.py:195-224 | the map's keys are exactly the names of headings with a paragraph under them |
| Sections.EntryIsNamed | evals/run.py:195-224 | the entry of a name is the text of the first paragraph under a heading of that name |
| Sections.OneSection | evals/run.py:212-224 | a heading of any marks, gap and name with one line under it gives exactly the entry from that name to that line |
| Sections.SectionsUnique | evals/run.py:195-224 | the lines determine that map |
| Pieces.InOneSpanIff | evals/run.py:196-200 | a paragraph of the second parser lies in one block of the chunker if and only if no fence boundary cuts through it |
| Pieces.OnePartIff | worker/frontdesk_worker/ingestion/chunker.py:96-117 | a block stays one piece if and only if its count or its units' summed counts are within the target, or it has one unit |
| Pieces.PartIsThere | worker/frontdesk_worker/ingestion/chunker.py:96-117 | every piece is its block's text at its place, the place of its units |
| Pieces.ParagraphIsThere | evals/run.py:196-200 | a paragraph in a block is the block's text at its own place, up to surrounding space |
| Anchors.InOnePieceIff | evals/run.py:196-200 | in any document a paragraph lies at its place in one piece if and only if no fence boundary cuts through it and its block is not divided, or is code with one window over its line counts that has all the paragraph's lines |
| Anchors.ParagraphInSomeChunk | evals/run.py:196-200 | a paragraph that lies in one piece is verbatim in some chunk |
| Anchors.InSomeChunkIff | worker/frontdesk_worker/ingestion/chunker.py:120-174 | in any document, text without an empty line is in some chunk if and only if it is in one piece of a block or in the heading a chunk starts with |
| Anchors.OneParagraphIff | evals/run.py:196-200 | in a document whose only block is a paragraph, a chunk has its text if and only if the block stays one piece or its heading contains the text |
| Anchors.ClearParagraphInSomeChunk | evals/run.py:196-200 | so is a paragraph clear of fences that is within the target itself |
| Anchors.FenceFreeAnchors | evals/run.py:195-224 | in a document without fences every section's first paragraph within the target is verbatim in some chunk |
| Anchors.FenceCutsAnchor | evals/run.py:196-200 | with a fence right after a section's first words the claim fails, for every counter and budget |
| Anchors.ResolveAnchor | evals/run.py:291-303 | exactly the chunks that contain the paragraph; the "no chunk contains" error only for a paragraph that does not lie in one piece |
| Ingestion.RunIngestionPipeline | worker/frontdesk_worker/ingestion/pipeline.py:71-127 | marks an unreadable or empty document failed, otherwise indexes exactly the chunker's chunks with the model's vectors; raises exactly for a missing document, a decoding error, or a batch of its chunks the model rejects |
| Ingestion.RaisesWhen | worker/frontdesk_worker/ingestion/pipeline.py:43-48 | a PDF raises exactly if its extraction does, a markdown or plain text exactly if its decoding does, or if the model rejects a batch of the text's chunks at 400 and 60 tokens |
| Ingestion.IngestedReading | worker/frontdesk_worker/ingestion/pipeline.py:84-127 | a PDF is indexed under its extracted text, markdown and plain text under the decoded one, with that text's chunks; or it is marked failed if there are none |
| Ingestion.OtherType | worker/frontdesk_worker/ingestion/pipeline.py:43-48 | any other type never raises and ends failed with an error that ends in the quoted type |
| Ingestion.IndexedReading | worker/frontdesk_worker/ingestion/pipeline.py:71-127 | after any deliveries an indexed document's text and rows are those of its reader's text |
| Ingestion.IndexChunks | worker/frontdesk_worker/ingestion/pipeline.py:106-118 | batches of at most 32 that are together the chunks, and each row holds its own text's vector; fails exactly if the model rejects one of these batches, on which it stops |
| Ingestion.EmbeddingIs | worker/frontdesk_worker/ingestion/pipeline.py:106-118 | a row's vector is the one at its chunk's place in the model's answer for its 32 chunks |
| Ingestion.RejectsIff | worker/frontdesk_worker/ingestion/pipeline.py:106-118 | the model rejects chunks if and only if it fails on, or gives the wrong number of vectors for, one of these batches |
| Ingestion.Ingest | worker/frontdesk_worker/consumer.py:224-227 | a delivery that raises, in exactly those cases, changes nothing |
| Ingestion.IngestedFits | worker/frontdesk_worker/ingestion/pipeline.py:59-68 | marking failed deletes no rows, and there are none to delete |
| Ingestion.RunFits | worker/frontdesk_worker/ingestion/pipeline.py:71-127 | after any deliveries in any order an indexed document's rows are 0 up to its count with the chunker's texts, any other has none |
| Retrieval.BothBeatsOne | worker/frontdesk_worker/triage/retrieve.py:91-100 | being found by both arms beats one arm, at whatever ranks, if and only if the candidate limit is at most k + 1 |
| Retrieval.FoundByBothWins | worker/frontdesk_worker/triage/retrieve.py:91-100 | the same for the fused scores of two result lists |
| Ranks.OneArmEach | worker/frontdesk_worker/triage/retrieve.py:91-121 | of two ids that one arm each found, in the same arm or not, the smaller rank ranks above |
| Ranks.BothArmsEach | worker/frontdesk_worker/triage/retrieve.py:91-121 | of two ids that both arms found at ranks (a, b) and (c, d) the first has the higher score if and only if (2k+a+b)(k+c)(k+d) > (2k+c+d)(k+a)(k+b) |
| Retrieval.Fuse | worker/frontdesk_worker/triage/retrieve.py:91-100 | the dictionaries hold every id once, with both arms' reciprocal ranks added up |
| Retrieval.VectorArmFirst | worker/frontdesk_worker/triage/retrieve.py:91-100 | first-seen order starts with the vector arm's ranking |
| Retrieval.SortRanks | worker/frontdesk_worker/triage/retrieve.py:121 | the ranking is by non-increasing score with ties in first-seen order |
| Retrieval.RetrieveChunks | worker/frontdesk_worker/triage/retrieve.py:91-127 | distinct ids above the floor, at most the limit, best first; an omitted candidate above the floor ranks below every returned one |
| Ranks.RetrievedByRanks | worker/frontdesk_worker/triage/retrieve.py:91-127 | the returned chunks are in the order their integer ranks in the two arms say, with ties to the vector arm, and an omitted one above the floor ranks below every one of them |
| Ranks.OneArmFirst | worker/frontdesk_worker/triage/retrieve.py:91-127 | of two returned chunks that one arm each found, the one with the smaller rank is returned first |
| Citations.ReadPrinted | worker/frontdesk_worker/triage/draft.py:29-60 | reading the citations of a printed text gives back the ids, in order |
| Citations.ReadIsPrinted | worker/frontdesk_worker/triage/draft.py:29-60 | every text is a printing of what is read from it, so no id is invented |
| Citations.ReadIsLeftmost | worker/frontdesk_worker/triage/draft.py:55-60 | what is read are the text's citations from the left: none starts before the first, nor between one and the next |
| Citations.LeftmostIsRead | worker/frontdesk_worker/triage/draft.py:55-60 | no other ids are read |
| Citations.ExtractCitations | worker/frontdesk_worker/triage/draft.py:55-60 | the ids without repeats in the order of their first occurrences |
| Citations.DedupedUnique | worker/frontdesk_worker/triage/draft.py:55-60 | that description leaves one possible list |
| Citations.ExtractPrinted | worker/frontdesk_worker/triage/draft.py:55-60 | extracting undoes printing, up to repeats |
| Citations.ReadRendered | worker/frontdesk_worker/triage/draft.py:51-52 | the prompt's context block cites exactly the retrieved ids, in order, if and only if no citation starts inside a chunk's text |
| Citations.ContextStands | worker/frontdesk_worker/triage/draft.py:51-52 | the block has each chunk's citation and whole text, in order, with an empty line between them |
| Citations.UnmarkedOpensNone | worker/frontdesk_worker/triage/draft.py:20-52 | texts without the mark `[c:` start none |
| Citations.GenerateDraft | worker/frontdesk_worker/triage/draft.py:63-105 | one or two attempts, a second only after an ungrounded first, a result only from a grounded one, and every attempt's tokens counted |
| Citations.CallsMade | worker/frontdesk_worker/triage/draft.py:71-105 | the first call has the prompt, the second, made exactly if the first answer cites something else, the prompt and the reminder; tokens are theirs |
| Citations.DraftCitesRetrieved | worker/frontdesk_worker/triage/draft.py:80-90 | a draft's citations are a duplicate-free part of the retrieved ids |
| Confidence.ClampsIdle | worker/frontdesk_worker/triage/confidence.py:47-58 | on pipeline values no clamp on the margin, the coverage or the score changes anything |
| Confidence.ConfidenceIs | worker/frontdesk_worker/triage/confidence.py:41-58 | for all inputs the confidence rounds six tenths of the margin, the similarities' sum over the floor as a share of the room above it, and four tenths of the cited share |
| Confidence.TotalAdds | worker/frontdesk_worker/triage/confidence.py:50 | that sum is additive and starts from the single values |
| Confidence.NoConfidence | worker/frontdesk_worker/triage/confidence.py:47-48 | with nothing retrieved the confidence is 0 |
| Confidence.ConfidenceRises | worker/frontdesk_worker/triage/confidence.py:41-58 | better similarities and more citations never lower the score |
| Spend.SpendBound | worker/frontdesk_worker/spend.py:55-65 | with n runs in flight, each recording at most R, the recorded live tokens stay below budget + nR |
| Spend.BoundReached | worker/frontdesk_worker/spend.py:107-122 | for every budget, n and R some run records one token less than that |
| Spend.NoLiveStart | worker/frontdesk_worker/spend.py:117-122 | once the recorded tokens reach the budget no live run starts, and only runs in flight add live tokens |
| Spend.StartIsLive | worker/frontdesk_worker/spend.py:107-122 | a start is live if and only if a live provider is configured, the day's tokens are below the budget and the ceiling is not exceeded |
| Spend.CeilingStops | worker/frontdesk_worker/spend.py:117-122 | while the global ceiling is exceeded no run starts live, and only runs in flight add live tokens |
| Spend.EventAdds | worker/frontdesk_worker/spend.py:42-52 | only a run's commit adds tokens to the day, exactly those it spent |
| Spend.TokensAdd | worker/frontdesk_worker/spend.py:42-52 | the day's tokens are the sum over its rows |
| TriagePipeline.RunTriagePipeline | worker/frontdesk_worker/pipeline.py:132-261 | raises exactly if the request is missing, the classifier or a query fails, or an attempt fails after something was retrieved; otherwise it has written exactly its result at the next version |
| TriagePipeline.NothingRetrieved | worker/frontdesk_worker/pipeline.py:190-213 | nothing is retrieved if and only if no candidate is at or above the floor |
| TriagePipeline.RunIsLive | worker/frontdesk_worker/spend.py:117-122 | a run is live if and only if a live provider is configured, the org's tokens are below its budget and the ceiling is not exceeded |
| TriagePipeline.ChunksByRanks | worker/frontdesk_worker/triage/retrieve.py:20-22 | at most five chunks, in the order of their integer ranks with 60 added to each |
| TriagePipeline.DraftedWhen | worker/frontdesk_worker/pipeline.py:214-261 | a run drafts if and only if something was retrieved and the first answer, or else the second, cites retrieved chunks only |
| TriagePipeline.UndraftedSays | worker/frontdesk_worker/pipeline.py:190-237 | otherwise the row needs a person, with no citation and confidence 0, and says which reason there was |
| TriagePipeline.Conclude | worker/frontdesk_worker/pipeline.py:190-261 | drafted exactly if something was retrieved and an attempt was grounded; tokens are the sum over all model calls |
| TriagePipeline.WriteResult | worker/frontdesk_worker/pipeline.py:86-129 | for a request of that org, the row is updated and one draft is added at the next version; alone on the database that insert is never refused |
| TriagePipeline.DraftedIsGrounded | worker/frontdesk_worker/pipeline.py:239-261 | a drafted row's citations are distinct retrieved ids |
| TriagePipeline.ConfidenceUnclamped | worker/frontdesk_worker/pipeline.py:239-244 | with similarities up to 1 the recorded confidence is the rounding of an unclamped score between 0 and 1 |
| TriagePipeline.FoundByBothFirst | worker/frontdesk_worker/triage/retrieve.py:20-22 | with the configured limits, chunks both searches found come before those one found |
| LeaseQueue.OneHolderInRun | worker/frontdesk_worker/queue/__init__.py:43-48 | in every run a message is held by at most one of its deliveries, the latest |
| LeaseQueue.SentIsVisible | worker/frontdesk_worker/queue/pgmq.py:27-33 | a sent message can be received at once, under a key no message had |
| LeaseQueue.LeaseLasts | worker/frontdesk_worker/queue/pgmq.py:35-49 | a received message can be received again if and only if its timeout has passed |
| LeaseQueue.SettleMeans | worker/frontdesk_worker/queue/pgmq.py:51-67 | a nack makes the message receivable at once, an ack removes it, a dead-letter call moves it; no other message is touched |
| Pgmq.PgmqQueue.Receive | worker/frontdesk_worker/queue/pgmq.py:35-49 | up to qty of the smallest readable ids, each leased and counted once more |
| Pgmq.PgmqRunRefines | worker/frontdesk_worker/queue/pgmq.py:27-67 | a whole run under disciplined clients is a run of the lease queue with the same deliveries, whichever readable message each read takes |
| Sqs.SqsQueue.Receive | worker/frontdesk_worker/queue/sqs.py:49-68 | each message gets a new handle and its body is cached under it, as by one receive after the other |
| Sqs.ReceiveIsSteps | worker/frontdesk_worker/queue/sqs.py:49-68 | such a call is that many receive steps of the client |
| Sqs.SqsQueue.DeadLetter | worker/frontdesk_worker/queue/sqs.py:86-98 | refused exactly without a cached body or for JSON null; a stop between the two requests leaves the copy and the message |
| Sqs.SqsRunRefines | worker/frontdesk_worker/queue/sqs.py:40-98 | a whole run under disciplined clients is a run of the lease queue, with the same deliveries |
| Sqs.NeverLost | worker/frontdesk_worker/queue/sqs.py:86-98 | with stale handles and interrupted dead-letters at will, every message sent is in the queue, acked, or has a dead-letter copy made through one of its own handles |
| Sqs.InterruptedCopyExample | worker/frontdesk_worker/queue/sqs.py:92-97 | an interrupted dead-letter does leave a second copy |
| Records.VersionsExact | db/src/schema/drafts.ts:40-62 | stacked drafts have exactly the versions 1 up to the latest |
| StaffActions.ApproveRequest | web/src/lib/staffActions.ts:133-172 | statement by statement the transaction `ApproveTx` |
| StaffActions.EditApproveRequest | web/src/lib/staffActions.ts:186-242 | statement by statement the transaction `EditTx` |
| StaffActions.RejectRequest | web/src/lib/staffActions.ts:245-277 | statement by statement the transaction `RejectTx` |
| StaffActions.ApproveMeans | web/src/lib/staffActions.ts:137-168 | approving succeeds exactly on an open request with a draft, and publishes the latest draft's body with a truthful audit row |
| StaffActions.EditMeans | web/src/lib/staffActions.ts:195-238 | editing succeeds exactly on an open request with text, and the text becomes the next draft and the reply |
| StaffActions.RejectMeans | web/src/lib/staffActions.ts:251-273 | rejecting succeeds exactly on an open request with a reason, and writes no reply |
| StaffActions.ApproveEnds | web/src/lib/staffActions.ts:137-147 | approving ends in exactly these cases, in this order: missing, resolved, no draft, done |
| StaffActions.EditEnds | web/src/lib/staffActions.ts:190-199 | editing: empty text, missing, resolved, done |
| StaffActions.RejectEnds | web/src/lib/staffActions.ts:245-256 | rejecting: no reason, missing, resolved, done |
| Intake.SubmitRequest | api/src/routes/requests.ts:95-122 | the row is committed before the message is sent; a crash in between sends none |
| Intake.SubmissionIsSteps | api/src/routes/requests.ts:95-122 | a submission is two steps of the transition system |
| Consumer.ProcessOne | worker/frontdesk_worker/consumer.py:76-156 | one receive and exactly one settlement, chosen by the body, the ceiling and whether the run raises, which is said in advance; the database changes only by a committed run's writes |
| Consumer.TriageTransaction | worker/frontdesk_worker/consumer.py:122-129 | the mark and the pipeline commit together, or not at all exactly if the run raises |
| Consumer.ProcessOneIngest | worker/frontdesk_worker/consumer.py:190-253 | the same ladder over the ingestion transaction, which fails exactly if it raises |
| Consumer.TurnMeans | worker/frontdesk_worker/consumer.py:102-156 | a turn removes a handled message, makes a failed one below the ceiling receivable at once with one more read, archives any other with its body, and leaves every other row alone |
| Consumer.TurnIsSteps | worker/frontdesk_worker/consumer.py:102-156 | a turn that commits is receive, count, commit, settle of the transition system |
| Consumer.FailedTurnIsSteps | worker/frontdesk_worker/consumer.py:106-153 | a turn that does not is receive, perhaps fail, settle, and leaves the database alone |
| QueueSafety.NoMessageLost | worker/frontdesk_worker/consumer.py:102-156 | in every run each message is in exactly one of queue, archive and acked; acked ones had a committed run; triage messages name a request inserted earlier under their org |
| QueueSafety.StepKeepsQueue | worker/frontdesk_worker/queue/pgmq.py:35-67 | every step of intake, workers, staff, clock and purge keeps that |
| DraftSafety.VersionsAlwaysExact | worker/frontdesk_worker/pipeline.py:75-129 | however triage runs and edits interleave, a request's versions are exactly 1 up to the latest |
| DraftSafety.RecordsNeverChange | db/src/schema/drafts.ts:16-62 | a committed draft never changes and an audit row never goes while the request is there |
| DraftSafety.TrackingIsRecorded | web/src/lib/tracking.ts:28-49 | a reply on the tracking page is recorded by an approve or edit audit row and the draft with that body; the empty fallback is never used |
| PublicPage.PageShows | web/src/lib/tracking.ts:28-49 | only an approved request of that org shows a reply, its own; any other shows its status |
| PublicPage.PageFollows | web/src/lib/tracking.ts:28-49 | in every run the page follows the last submission, triage commit or staff commit on the request, and no other step changes it |
| DraftSafety.NeverTriaging | worker/frontdesk_worker/consumer.py:123-129 | no committed state has a request at triaging |
| DraftSafety.StepKeepsDrafts | web/src/lib/staffActions.ts:200-219 | every step keeps the drafts stacked, the rows fitting and the reads usable |
| DeliveryBound.DeliveryLimit | worker/frontdesk_worker/consumer.py:130-152 | in every run a message is received at most max(1, ceiling) times, plus once for each crash and each lost lease of its deliveries |
| DeliveryBound.TimelyLimit | worker/frontdesk_worker/consumer.py:130-152 | without crashes and lost leases it is received at most max(1, ceiling) times |
| DeliveryBound.LimitReached | worker/frontdesk_worker/consumer.py:130-152 | for every ceiling and number of losses some run delivers a message exactly that often |
| Resolutions.ResolvedTouchedIff | web/src/lib/staffActions.ts:118-124 | in every reachable state a step changes a resolved row it leaves there, or its audit rows, if and only if it is a triage commit on it or a staff session's finish on it; the commit alone reopens it |
| Resolutions.ResolvedStays | web/src/lib/staffActions.ts:118-124 | while neither happens a resolved row stays as it is, over any stretch of any run |
| Resolutions.OverriddenIff | web/src/lib/staffActions.ts:116-124 | a session whose writes go through overrides a resolution if and only if another session resolved the request after this one was opened, with no triage commit on it since |
| Interleavings.AloneIffFresh | web/src/lib/staffActions.ts:116-124 | a staff commit is as if it ran alone if and only if nothing it read has changed |
| Interleavings.SessionIsSteps | web/src/lib/staffActions.ts:133-277 | a staff action that succeeds alone is open, read, perhaps pick, finish of the transition system, with exactly its effect |
| Interleavings.RejectionOverridden | web/src/lib/staffActions.ts:110-124 | a run in which a rejected request is approved and its reply published |
| Interleavings.ApprovalReopened | worker/frontdesk_worker/consumer.py:124-128 | a run in which a redelivery reopens an approved request |
| SerialHistory.ApprovedReplyIsLatestDraft | web/src/lib/staffActions.ts:142-165 | in every serial run an approved reply is the body of the highest draft version |
| SerialHistory.OneAuditRow | web/src/lib/staffActions.ts:77-96 | if triage never commits on the resolved request, it has no audit row while open and exactly one once resolved, which says what is stored |
| SerialHistory.ResolvedIsFinal | web/src/lib/staffActions.ts:118-124 | then its resolved row never changes again |
| SerialHistory.OnlyTriageReopens | worker/frontdesk_worker/pipeline.py:103-105 | a transaction changes a resolved row it leaves there if and only if it is a triage run on it |
| SerialHistory.TriageCommits | worker/frontdesk_worker/pipeline.py:103-129 | triage on an existing request always commits alone: one draft at the next version, the status and routing of the result, nothing else |
| Retention.PurgeOrgRequests | db/src/purge.ts:77-136 | ends for every positive batch size, in transactions that each select the oldest overdue requests left, and reports exactly what was removed; if deletes remove all they are given, every overdue request |
| Retention.PurgeCompleteIff | db/src/purge.ts:127-133 | every overdue request of the org is gone if and only if the last DELETE removed all it was given; the earlier ones always did |
| Retention.PurgeLeaves | db/src/purge.ts:77-136 | only the org's requests created before the cutoff go, with exactly their drafts and audit rows, and are counted; if deletes remove all they are given, none of these is left |
| Retention.OldestFirst | db/src/purge.ts:90-95 | what a transaction before the last removes is not younger than any overdue request it leaves |
| Retention.PurgeDemoOrgs | db/src/purge.ts:62-75 | every demo org is purged like this and reported in order with its own count; only their overdue requests go, with drafts and audit rows; if deletes remove all they are given, all of these |
| Retention.DemoLeaves | db/src/purge.ts:62-75 | the same for the demo orgs, and nothing of any other org goes |
| Retention.SelectStale | db/src/purge.ts:90-95 | the oldest overdue requests, up to the limit |

## Left out

- Anchors.FenceFreeAnchors: one direction only; a paragraph that does not lie in one piece can still be found by accident, because the same text stands elsewhere. `Anchors.InSomeChunkIff` is the equivalence with those cases.
- Budgets.ChunkBound: is about summed block counts, which is what the code keeps; nothing is claimed about the token count of a rendered chunk, because the tokenizer truncates and is not additive.
- Sqs.SqsQueue.Receive: takes the messages the service picks as a parameter, because the order is the service's.
- Sqs.SqsRunRefines: a dead-letter call on JSON null is not a step of such a run, because the adapter refuses it; `Sqs.SqsQueue.DeadLetter` states the refusal.
- Pgmq.PgmqRunRefines: clients settle each receive once, while its lease is current; what stale settlements do to this queue is covered by `QueueSafety` and `DeliveryBound`.
- Spend.SpendBound: one org within one day and no purge of its rows; the global dollar ceiling is only a second condition.
- Retention.PurgeOrgRequests: needs a positive batch size, as the loop does; whether deletes remove all they are given is a parameter, and no other session changes the table otherwise during the purge.
- Confidence.ClampsIdle: the rounding to three decimals is a parameter, and reals are exact.
- TriagePipeline.RunTriagePipeline: the model, the retrieval queries, the prompt template and the reminder are parameters; an exception in a draft attempt is one flag.
- Ingestion.RunFits: a document's type and bytes do not change after upload, and decoding, PDF extraction, Python's quoting of a string and the tokenizer are functions of their input.
- Records.Store: one statement at a time on one connection; row locks, isolation levels and row-level security policies are left out (a step of `Lifecycle` is a committed transaction).
- Lifecycle: the wall clock is a counter, request ids are fresh, and the tracking token is the pair of org and request.
- Form fields reach the staff actions trimmed, and the member is already authenticated.
- JSON encoding and the contract validator: a message body is a value that either meets a contract or does not.
- The TypeScript queue adapters, which mirror the Python ones.
- `run_forever` and its ingest twin: repeated turns with a pause and a shutdown flag.
- Classification's parsing and fallbacks, the prompts, the staff queue's sort, the seed script, the evaluation metrics: single-branch or computed by the database.
- HTTP routing, Turnstile, OAuth and sessions, React pages, Helm, Terraform and shell scripts.

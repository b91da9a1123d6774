/**
 * Indexing a document: read it, cut it into chunks, embed them in bounded batches, and
 * replace the rows, inside one transaction. PDF and text decoding and the embedding model
 * are functions that may fail.
 */
module Ingestion {
  import opened Options
  import opened Chunker

  type Bytes = seq<bv8>
  type Vector = seq<real>

  datatype DocStatus = Pending | Indexed | Failed

  datatype Document = Document(org: nat, mime: string, raw: Bytes, status: DocStatus, chunkCount: nat, error: Option<string>,
                               textContent: Option<string>)

  /** The rows' unique key. */
  datatype ChunkKey = ChunkKey(document: nat, ord: nat)

  datatype ChunkRow = ChunkRow(org: nat, text: string, embedding: Vector)

  datatype Index = Index(documents: map<nat, Document>, chunks: map<ChunkKey, ChunkRow>)

  const TARGET: int := 400
  const OVERLAP: int := 60
  const MAX_BATCH_SIZE: nat := 32
  const NO_TEXT := "no extractable text"

  /** Text decoding and PDF extraction, where `None` is an exception, and Python's quoted form of a string. */
  datatype Readers = Readers(decode: Bytes -> Option<string>, pdf: Bytes -> Option<string>, repr: string -> string)

  datatype Extraction = Extracted(text: string) | Unsupported(error: string) | Raised

  function ExtractText(mime: string, raw: Bytes, readers: Readers): Extraction {
    if mime == "text/markdown" || mime == "text/plain" then
      match readers.decode(raw) { case None => Raised case Some(text) => Extracted(text) }
    else if mime == "application/pdf" then
      match readers.pdf(raw) { case None => Raised case Some(text) => Extracted(text) }
    else Unsupported("unsupported mime type: " + readers.repr(mime))
  }

  /** The model: one vector a text, or `None` for an exception. */
  type Model = seq<string> -> Option<seq<Vector>>

  /** `embed_batch` refuses a batch that is too long. */
  function EmbedBatch(model: Model, texts: seq<string>): Option<seq<Vector>> {
    if |texts| > MAX_BATCH_SIZE then None else if texts == [] then Some([]) else model(texts)
  }

  predicate Owned(index: Index, org: nat, id: nat) {
    id in index.documents && index.documents[id].org == org
  }

  function MarkFailed(index: Index, org: nat, id: nat, error: string): Index {
    if Owned(index, org, id) then
      index.(documents := index.documents[id := index.documents[id].(status := Failed, error := Some(error), chunkCount := 0)])
    else index
  }

  function Cleared(index: Index, id: nat): Index {
    index.(chunks := map key | key in index.chunks && key.document != id :: index.chunks[key])
  }

  ghost predicate IsChunking(text: string, count: Counter, chunks: seq<string>) {
    AreChunks(text, count, TARGET, OVERLAP, chunks)
  }

  /** A document has one chunking. */
  lemma ChunkingUnique(text: string, count: Counter, a: seq<string>, b: seq<string>)
    requires IsChunking(text, count, a) && IsChunking(text, count, b)
    ensures a == b
  {
    var tr :| Explains(text, count, TARGET, OVERLAP, tr, a);
    var tr' :| Explains(text, count, TARGET, OVERLAP, tr', b);
    ChunksUnique(text, count, TARGET, OVERLAP, tr, a, tr', b);
  }

  ghost predicate IsRow(index: Index, org: nat, id: nat, ord: nat, text: string) {
    && ChunkKey(id, ord) in index.chunks
    && index.chunks[ChunkKey(id, ord)].text == text && index.chunks[ChunkKey(id, ord)].org == org
  }

  /** The document's rows are the chunks from 0 up to `n`, and no others. */
  ghost predicate RowsUpTo(index: Index, org: nat, id: nat, chunks: seq<string>, n: nat) {
    && n <= |chunks|
    && (forall ord: nat :: ChunkKey(id, ord) in index.chunks <==> ord < n)
    && forall ord: nat | ord < n :: IsRow(index, org, id, ord, chunks[ord])
  }

  ghost predicate OthersKept(before: Index, after: Index, id: nat) {
    && (forall key: ChunkKey | key.document != id :: key in after.chunks <==> key in before.chunks)
    && (forall key: ChunkKey | key.document != id && key in before.chunks :: after.chunks[key] == before.chunks[key])
  }

  /** The batches the model was asked for: each within the limit, and together the chunks. */
  ghost function Joined(calls: seq<seq<string>>): seq<string> {
    if calls == [] then [] else Joined(calls[..|calls| - 1]) + calls[|calls| - 1]
  }

  ghost predicate WithinLimit(calls: seq<seq<string>>) {
    forall k | 0 <= k < |calls| :: 0 < |calls[k]| <= MAX_BATCH_SIZE
  }

  ghost predicate HasVector(index: Index, key: ChunkKey, vector: Vector) {
    key in index.chunks && index.chunks[key].embedding == vector
  }

  // ---- the store -----------------------------------------------------------------------------------

  class IndexStore {
    var index: Index

    constructor ()
      ensures index == Index(map[], map[])
    {
      index := Index(map[], map[]);
    }

    method SelectDocument(org: nat, id: nat) returns (doc: Option<Document>)
      ensures doc == if Owned(index, org, id) then Some(index.documents[id]) else None
    {
      doc := if id in index.documents && index.documents[id].org == org then Some(index.documents[id]) else None;
    }

    method UpdateFailed(org: nat, id: nat, error: string)
      modifies this
      ensures index == MarkFailed(old(index), org, id, error)
    {
      if id in index.documents && index.documents[id].org == org {
        var doc := index.documents[id];
        index := index.(documents := index.documents[id := doc.(status := Failed, error := Some(error), chunkCount := 0)]);
      }
    }

    method DeleteChunks(id: nat)
      modifies this
      ensures index == Cleared(old(index), id)
    {
      index := index.(chunks := map key | key in index.chunks && key.document != id :: index.chunks[key]);
    }

    /** False, and no change, if the unique constraint refuses the row. */
    method AddChunk(org: nat, key: ChunkKey, text: string, embedding: Vector) returns (ok: bool)
      modifies this
      ensures ok <==> key !in old(index).chunks
      ensures index == if ok then old(index).(chunks := old(index).chunks[key := ChunkRow(org, text, embedding)]) else old(index)
    {
      ok := key !in index.chunks;
      if ok {
        index := index.(chunks := index.chunks[key := ChunkRow(org, text, embedding)]);
      }
    }

    method UpdateIndexed(org: nat, id: nat, chunkCount: nat, text: string)
      modifies this
      ensures index == if Owned(old(index), org, id) then old(index).(documents := old(index).documents[id :=
          old(index).documents[id].(status := Indexed, chunkCount := chunkCount, error := None, textContent := Some(text))])
        else old(index)
    {
      if id in index.documents && index.documents[id].org == org {
        var doc := index.documents[id];
        doc := doc.(status := Indexed, chunkCount := chunkCount, error := None, textContent := Some(text));
        index := index.(documents := index.documents[id := doc]);
      }
    }
  }

  // ---- the batches ---------------------------------------------------------------------------------

  /** Rows for one batch's texts are added at their positions; false if an insert is refused. */
  method InsertBatch(store: IndexStore, org: nat, id: nat, chunks: seq<string>, start: nat, batch: seq<string>,
                     vectors: seq<Vector>) returns (ok: bool)
    requires start + |batch| <= |chunks| && batch == chunks[start..start + |batch|] && |vectors| == |batch|
    requires RowsUpTo(store.index, org, id, chunks, start)
    modifies store
    ensures ok && RowsUpTo(store.index, org, id, chunks, start + |batch|)
    ensures store.index.documents == old(store.index).documents && OthersKept(old(store.index), store.index, id)
    ensures forall ord: nat | ord < start :: store.index.chunks[ChunkKey(id, ord)] == old(store.index).chunks[ChunkKey(id, ord)]
    ensures forall k: nat | k < |batch| :: HasVector(store.index, ChunkKey(id, start + k), vectors[k])
  {
    for offset := 0 to |batch|
      invariant RowsUpTo(store.index, org, id, chunks, start + offset)
      invariant store.index.documents == old(store.index).documents && OthersKept(old(store.index), store.index, id)
      invariant forall ord: nat | ord < start :: store.index.chunks[ChunkKey(id, ord)] == old(store.index).chunks[ChunkKey(id, ord)]
      invariant forall k: nat | k < offset :: HasVector(store.index, ChunkKey(id, start + k), vectors[k])
    {
      assert batch[offset] == chunks[start + offset];
      ghost var before := store.index;
      var added := store.AddChunk(org, ChunkKey(id, start + offset), batch[offset], vectors[offset]);
      assert forall k: nat | k < offset :: HasVector(before, ChunkKey(id, start + k), vectors[k]);
      assert forall ord: nat | ord < start + offset :: IsRow(before, org, id, ord, chunks[ord]);
    }
    ok := true;
  }

  function BatchEnd(chunks: seq<string>, start: nat): (end: nat)
    requires start < |chunks|
    ensures start < end <= |chunks| && end <= start + MAX_BATCH_SIZE
  {
    if start + MAX_BATCH_SIZE <= |chunks| then start + MAX_BATCH_SIZE else |chunks|
  }

  /** The batch a chunk is embedded in: 32 to a batch, the last one shorter. */
  ghost function BatchOf(chunks: seq<string>, ord: nat): seq<string>
    requires ord < |chunks|
  {
    var start := ord / MAX_BATCH_SIZE * MAX_BATCH_SIZE;
    chunks[start..BatchEnd(chunks, start)]
  }

  /** A chunk's row holds the vector the model gave for it, at its place in its batch. */
  ghost predicate RowEmbedded(index: Index, id: nat, model: Model, chunks: seq<string>, ord: nat)
    requires ord < |chunks|
  {
    var vectors := EmbedBatch(model, BatchOf(chunks, ord));
    && vectors.Some? && |vectors.value| == |BatchOf(chunks, ord)|
    && HasVector(index, ChunkKey(id, ord), vectors.value[ord % MAX_BATCH_SIZE])
  }

  /** A batch the model failed on, or answered with the wrong number of vectors. */
  ghost predicate Rejected(model: Model, batch: seq<string>) {
    EmbedBatch(model, batch).None? || |EmbedBatch(model, batch).value| != |batch|
  }

  /** The model rejects one of the batches the chunks are embedded in. */
  ghost predicate RejectsOne(model: Model, chunks: seq<string>) {
    exists ord: nat :: ord < |chunks| && Rejected(model, BatchOf(chunks, ord))
  }

  /** The last call was for one of the chunks' batches, and was rejected. */
  ghost predicate EndsRejected(model: Model, chunks: seq<string>, calls: seq<seq<string>>) {
    calls != [] && exists ord: nat ::
      ord < |chunks| && calls[|calls| - 1] == BatchOf(chunks, ord) && Rejected(model, BatchOf(chunks, ord))
  }

  lemma NoneRejected(index: Index, id: nat, model: Model, chunks: seq<string>)
    requires EmbeddedUpTo(index, id, model, chunks, |chunks|)
    ensures !RejectsOne(model, chunks)
  {
    forall ord: nat | ord < |chunks|
      ensures !Rejected(model, BatchOf(chunks, ord))
    {
      assert RowEmbedded(index, id, model, chunks, ord);
    }
  }

  lemma InBatch(chunks: seq<string>, start: nat, ord: nat)
    requires start % MAX_BATCH_SIZE == 0 && start < |chunks| && start <= ord < BatchEnd(chunks, start)
    ensures BatchOf(chunks, ord) == chunks[start..BatchEnd(chunks, start)] && ord % MAX_BATCH_SIZE == ord - start
  {
  }

  /** The rows of the chunks before `n` hold their vectors. */
  ghost predicate EmbeddedUpTo(index: Index, id: nat, model: Model, chunks: seq<string>, n: nat) {
    && n <= |chunks|
    && forall ord: nat {:trigger RowEmbedded(index, id, model, chunks, ord)} | ord < n ::
        RowEmbedded(index, id, model, chunks, ord)
  }

  lemma EmbeddedMore(before: Index, after: Index, id: nat, model: Model, chunks: seq<string>, start: nat, vectors: seq<Vector>)
    requires start % MAX_BATCH_SIZE == 0 && start < |chunks| && EmbeddedUpTo(before, id, model, chunks, start)
    requires forall ord: nat | ord < start && ChunkKey(id, ord) in before.chunks ::
      ChunkKey(id, ord) in after.chunks && after.chunks[ChunkKey(id, ord)] == before.chunks[ChunkKey(id, ord)]
    requires EmbedBatch(model, chunks[start..BatchEnd(chunks, start)]) == Some(vectors)
    requires |vectors| == BatchEnd(chunks, start) - start
    requires forall k: nat | k < |vectors| :: HasVector(after, ChunkKey(id, start + k), vectors[k])
    ensures EmbeddedUpTo(after, id, model, chunks, BatchEnd(chunks, start))
  {
    forall ord: nat | ord < BatchEnd(chunks, start)
      ensures RowEmbedded(after, id, model, chunks, ord)
    {
      if ord < start {
        assert RowEmbedded(before, id, model, chunks, ord);
      } else {
        InBatch(chunks, start, ord);
        var k := ord - start;
        assert HasVector(after, ChunkKey(id, start + k), vectors[k]);
      }
    }
  }

  /** One batch: embed it, and insert its rows. */
  method IndexBatch(store: IndexStore, org: nat, id: nat, chunks: seq<string>, model: Model, start: nat)
    returns (ok: bool, ghost batch: seq<string>)
    requires start % MAX_BATCH_SIZE == 0 && start < |chunks|
    requires RowsUpTo(store.index, org, id, chunks, start) && EmbeddedUpTo(store.index, id, model, chunks, start)
    modifies store
    ensures batch == chunks[start..BatchEnd(chunks, start)]
    ensures store.index.documents == old(store.index).documents && OthersKept(old(store.index), store.index, id)
    ensures !ok ==> Rejected(model, batch)
    ensures ok ==> RowsUpTo(store.index, org, id, chunks, BatchEnd(chunks, start))
    ensures ok ==> EmbeddedUpTo(store.index, id, model, chunks, BatchEnd(chunks, start))
  {
    var texts := chunks[start..BatchEnd(chunks, start)];
    batch := texts;
    var vectors := EmbedBatch(model, texts);
    if vectors.None? || |vectors.value| != |texts| {
      return false, batch;
    }
    ghost var before := store.index;
    assert forall ord: nat | ord < start :: IsRow(before, org, id, ord, chunks[ord]);
    ok := InsertBatch(store, org, id, chunks, start, texts, vectors.value);
    assert forall ord: nat | ord < start :: IsRow(store.index, org, id, ord, chunks[ord]);
    EmbeddedMore(before, store.index, id, model, chunks, start, vectors.value);
  }

  method IndexChunks(store: IndexStore, org: nat, id: nat, chunks: seq<string>, model: Model)
    returns (ok: bool, ghost calls: seq<seq<string>>)
    requires RowsUpTo(store.index, org, id, chunks, 0)
    modifies store
    ensures WithinLimit(calls)
    ensures store.index.documents == old(store.index).documents && OthersKept(old(store.index), store.index, id)
    ensures ok ==> Joined(calls) == chunks && RowsUpTo(store.index, org, id, chunks, |chunks|)
    ensures ok ==> EmbeddedUpTo(store.index, id, model, chunks, |chunks|)
    ensures ok <==> !RejectsOne(model, chunks)
    ensures !ok ==> EndsRejected(model, chunks, calls)
  {
    calls := [];
    var batchStart := 0;
    ghost var done := 0;
    while batchStart < |chunks|
      invariant batchStart % MAX_BATCH_SIZE == 0 && done == if batchStart < |chunks| then batchStart else |chunks|
      invariant RowsUpTo(store.index, org, id, chunks, done) && EmbeddedUpTo(store.index, id, model, chunks, done)
      invariant WithinLimit(calls) && Joined(calls) == chunks[..done]
      invariant store.index.documents == old(store.index).documents && OthersKept(old(store.index), store.index, id)
      decreases |chunks| - batchStart
    {
      ghost var batch, before := [], store.index;
      ok, batch := IndexBatch(store, org, id, chunks, model, batchStart);
      calls := CallAdded(calls, batch);
      if !ok {
        InBatch(chunks, batchStart, batchStart);
        assert Rejected(model, BatchOf(chunks, batchStart));
        return;
      }
      done := BatchEnd(chunks, batchStart);
      assert chunks[..batchStart] + batch == chunks[..done];
      batchStart := batchStart + MAX_BATCH_SIZE;
    }
    assert chunks[..|chunks|] == chunks;
    NoneRejected(store.index, id, model, chunks);
    ok := true;
  }

  lemma CallAdded(calls: seq<seq<string>>, batch: seq<string>) returns (more: seq<seq<string>>)
    requires WithinLimit(calls) && 0 < |batch| <= MAX_BATCH_SIZE
    ensures more == calls + [batch] && WithinLimit(more) && Joined(more) == Joined(calls) + batch
  {
    more := calls + [batch];
    assert more[..|calls|] == calls;
  }

  // ---- one delivery --------------------------------------------------------------------------------

  /** The document is indexed with exactly these chunks, and nothing else changes. */
  ghost predicate IsIndexed(before: Index, after: Index, org: nat, id: nat, text: string, chunks: seq<string>)
    requires Owned(before, org, id)
  {
    && after.documents == before.documents[id := before.documents[id].(status := Indexed, chunkCount := |chunks|, error := None,
                                                                         textContent := Some(text))]
    && RowsUpTo(after, org, id, chunks, |chunks|) && OthersKept(before, after, id)
  }

  /** What a delivery does to a document with this text, which comes to these chunks. */
  ghost predicate TextIngested(before: Index, after: Index, org: nat, id: nat, text: string, count: Counter, chunks: seq<string>)
    requires Owned(before, org, id)
  {
    && IsChunking(text, count, chunks)
    && if chunks == [] then after == MarkFailed(before, org, id, NO_TEXT) else IsIndexed(before, after, org, id, text, chunks)
  }

  /** What a delivery that commits does, which only the document's type and bytes decide. */
  ghost predicate IsIngested(before: Index, after: Index, org: nat, id: nat, readers: Readers, count: Counter) {
    && Owned(before, org, id)
    && match ExtractText(before.documents[id].mime, before.documents[id].raw, readers)
       case Raised => false
       case Unsupported(error) => after == MarkFailed(before, org, id, error)
       case Extracted(text) => exists chunks :: TextIngested(before, after, org, id, text, count, chunks)
  }

  lemma IngestedText(before: Index, after: Index, org: nat, id: nat, text: string, chunks: seq<string>, readers: Readers,
                     count: Counter)
    requires Owned(before, org, id) && TextIngested(before, after, org, id, text, count, chunks)
    requires ExtractText(before.documents[id].mime, before.documents[id].raw, readers) == Extracted(text)
    ensures IsIngested(before, after, org, id, readers, count)
  {
  }

  /** The chunks a document comes to, if it can be read and has any. */
  ghost predicate HasChunks(doc: Document, readers: Readers, count: Counter, chunks: seq<string>) {
    var e := ExtractText(doc.mime, doc.raw, readers);
    e.Extracted? && chunks != [] && IsChunking(e.text, count, chunks)
  }

  /** When a delivery raises: there is no such document, reading it fails, or the model rejects a batch of its chunks. */
  ghost predicate Raises(index: Index, org: nat, id: nat, readers: Readers, model: Model, count: Counter) {
    || !Owned(index, org, id)
    || ExtractText(index.documents[id].mime, index.documents[id].raw, readers) == Raised
    || exists chunks :: HasChunks(index.documents[id], readers, count, chunks) && RejectsOne(model, chunks)
  }

  lemma ChunksOf(doc: Document, readers: Readers, count: Counter, text: string, chunks: seq<string>)
    requires ExtractText(doc.mime, doc.raw, readers) == Extracted(text) && IsChunking(text, count, chunks)
    ensures forall other :: HasChunks(doc, readers, count, other) <==> other == chunks != []
  {
    forall other | HasChunks(doc, readers, count, other)
      ensures other == chunks
    {
      ChunkingUnique(text, count, other, chunks);
    }
  }

  /** Whatever chunks the document has, their rows hold the model's vectors. */
  ghost predicate IsEmbedded(doc: Document, index: Index, id: nat, readers: Readers, model: Model, count: Counter) {
    forall chunks | HasChunks(doc, readers, count, chunks) :: EmbeddedUpTo(index, id, model, chunks, |chunks|)
  }

  lemma TextRaises(index: Index, org: nat, id: nat, readers: Readers, model: Model, count: Counter, text: string,
                   chunks: seq<string>)
    requires Owned(index, org, id) && IsChunking(text, count, chunks)
    requires ExtractText(index.documents[id].mime, index.documents[id].raw, readers) == Extracted(text)
    ensures Raises(index, org, id, readers, model, count) <==> chunks != [] && RejectsOne(model, chunks)
  {
    ChunksOf(index.documents[id], readers, count, text, chunks);
    assert chunks != [] ==> HasChunks(index.documents[id], readers, count, chunks);
  }

  lemma TextEmbedded(doc: Document, index: Index, id: nat, readers: Readers, model: Model, count: Counter, text: string,
                     chunks: seq<string>)
    requires ExtractText(doc.mime, doc.raw, readers) == Extracted(text) && IsChunking(text, count, chunks)
    requires chunks != [] ==> EmbeddedUpTo(index, id, model, chunks, |chunks|)
    ensures IsEmbedded(doc, index, id, readers, model, count)
  {
    ChunksOf(doc, readers, count, text, chunks);
  }

  method ChunkText(text: string, count: Counter) returns (chunks: seq<string>)
    ensures IsChunking(text, count, chunks)
  {
    ghost var tr;
    chunks, tr := ChunkMarkdown(text, count, TARGET, OVERLAP);
  }

  /** The document's rows are replaced by those of its chunks. */
  method ReplaceRows(store: IndexStore, org: nat, id: nat, text: string, chunks: seq<string>, model: Model)
    returns (ok: bool, ghost calls: seq<seq<string>>)
    requires Owned(store.index, org, id)
    modifies store
    ensures WithinLimit(calls) && (ok <==> !RejectsOne(model, chunks))
    ensures ok ==> IsIndexed(old(store.index), store.index, org, id, text, chunks)
    ensures ok ==> EmbeddedUpTo(store.index, id, model, chunks, |chunks|)
  {
    store.DeleteChunks(id);
    ok, calls := IndexChunks(store, org, id, chunks, model);
    if ok {
      ghost var indexed := store.index;
      store.UpdateIndexed(org, id, |chunks|, text);
      SameRows(indexed, store.index, id, model, chunks);
    }
  }

  /** The document's text is cut, embedded and indexed; one without any is marked failed. */
  method IndexText(store: IndexStore, org: nat, id: nat, text: string, ghost readers: Readers, model: Model, count: Counter)
    returns (ok: bool, ghost calls: seq<seq<string>>)
    requires Owned(store.index, org, id)
    requires ExtractText(store.index.documents[id].mime, store.index.documents[id].raw, readers) == Extracted(text)
    modifies store
    ensures WithinLimit(calls) && (ok <==> !Raises(old(store.index), org, id, readers, model, count))
    ensures ok ==> IsIngested(old(store.index), store.index, org, id, readers, count)
    ensures ok ==> IsEmbedded(old(store.index).documents[id], store.index, id, readers, model, count)
  {
    ghost var before := store.index;
    var chunks := ChunkText(text, count);
    TextRaises(before, org, id, readers, model, count, text, chunks);
    if chunks == [] {
      store.UpdateFailed(org, id, NO_TEXT);
      ok, calls := true, [];
    } else {
      ok, calls := ReplaceRows(store, org, id, text, chunks, model);
    }
    if ok {
      TextEmbedded(before.documents[id], store.index, id, readers, model, count, text, chunks);
      IngestedText(before, store.index, org, id, text, chunks, readers, count);
    }
  }

  lemma SameRows(before: Index, after: Index, id: nat, model: Model, chunks: seq<string>)
    requires EmbeddedUpTo(before, id, model, chunks, |chunks|) && after.chunks == before.chunks
    ensures EmbeddedUpTo(after, id, model, chunks, |chunks|)
  {
    forall ord: nat | ord < |chunks|
      ensures RowEmbedded(after, id, model, chunks, ord)
    {
      assert RowEmbedded(before, id, model, chunks, ord);
    }
  }

  /** False stands for an exception, which is raised exactly in the cases of `Raises`, and after which the caller rolls back. */
  method RunIngestionPipeline(store: IndexStore, org: nat, id: nat, readers: Readers, model: Model, count: Counter)
    returns (ok: bool, ghost calls: seq<seq<string>>)
    modifies store
    ensures WithinLimit(calls) && (ok <==> !Raises(old(store.index), org, id, readers, model, count))
    ensures ok ==> IsIngested(old(store.index), store.index, org, id, readers, count)
    ensures ok ==> IsEmbedded(old(store.index).documents[id], store.index, id, readers, model, count)
  {
    calls := [];
    var found := store.SelectDocument(org, id);
    if found.None? {
      return false, calls;
    }
    var extraction := ExtractText(found.value.mime, found.value.raw, readers);
    match extraction {
      case Raised => return false, calls;
      case Unsupported(error) =>
        store.UpdateFailed(org, id, error);
        return true, calls;
      case Extracted(text) => ok, calls := IndexText(store, org, id, text, readers, model, count);
    }
  }

  /** The delivery's transaction: a run that raises leaves nothing. */
  method Ingest(store: IndexStore, org: nat, id: nat, readers: Readers, model: Model, count: Counter) returns (ok: bool)
    modifies store
    ensures ok <==> !Raises(old(store.index), org, id, readers, model, count)
    ensures ok ==> IsIngested(old(store.index), store.index, org, id, readers, count)
    ensures ok ==> IsEmbedded(old(store.index).documents[id], store.index, id, readers, model, count)
    ensures !ok ==> store.index == old(store.index)
  {
    var saved := store.index;
    ghost var calls;
    ok, calls := RunIngestionPipeline(store, org, id, readers, model, count);
    if !ok {
      store.index := saved;
    }
  }

  // ---- over all deliveries -------------------------------------------------------------------------

  ghost predicate NoRows(index: Index, id: nat) {
    forall ord: nat :: ChunkKey(id, ord) !in index.chunks
  }

  /** The text kept with an indexed document is what its bytes read as. */
  ghost predicate TextKept(doc: Document, readers: Readers) {
    var e := ExtractText(doc.mime, doc.raw, readers);
    e.Extracted? && doc.textContent == Some(e.text)
  }

  /** An indexed document's rows are its chunks, in order, as many as it says; any other document has none. */
  ghost predicate DocumentFits(index: Index, id: nat, readers: Readers, count: Counter)
    requires id in index.documents
  {
    var doc := index.documents[id];
    if doc.status == Indexed then
      TextKept(doc, readers) && exists chunks :: HasChunks(doc, readers, count, chunks) && IsInIndex(index, doc, id, chunks)
    else
      && NoRows(index, id) && doc.chunkCount == 0 && doc.textContent == None
      && (doc.status == Failed ==> forall chunks :: !HasChunks(doc, readers, count, chunks))
  }

  ghost predicate IsInIndex(index: Index, doc: Document, id: nat, chunks: seq<string>) {
    doc.chunkCount == |chunks| && RowsUpTo(index, doc.org, id, chunks, |chunks|)
  }

  ghost predicate IndexFits(index: Index, readers: Readers, count: Counter) {
    && (forall id | id in index.documents :: DocumentFits(index, id, readers, count))
    && forall key | key in index.chunks :: key.document in index.documents
  }

  /** A new document, a delivery that committed, or one that did not. */
  datatype Event = Upload(org: nat, id: nat, mime: string, raw: Bytes) | Delivered(org: nat, id: nat) | FailedDelivery

  ghost predicate Happens(before: Index, e: Event, after: Index, readers: Readers, count: Counter) {
    match e
    case Upload(org, id, mime, raw) =>
      id !in before.documents
      && after == before.(documents := before.documents[id := Document(org, mime, raw, Pending, 0, None, None)])
    case Delivered(org, id) => IsIngested(before, after, org, id, readers, count)
    case FailedDelivery => after == before
  }

  lemma OtherFits(before: Index, after: Index, id: nat, other: nat, readers: Readers, count: Counter)
    requires other in before.documents && other != id && DocumentFits(before, other, readers, count)
    requires other in after.documents && after.documents[other] == before.documents[other] && OthersKept(before, after, id)
    ensures DocumentFits(after, other, readers, count)
  {
  }

  /** A document that is marked failed had no rows: it fails for its content, which does not change. */
  lemma FailedFits(before: Index, org: nat, id: nat, error: string, readers: Readers, count: Counter)
    requires Owned(before, org, id) && DocumentFits(before, id, readers, count)
    requires forall chunks :: !HasChunks(before.documents[id], readers, count, chunks)
    ensures DocumentFits(MarkFailed(before, org, id, error), id, readers, count)
  {
    var doc, after := before.documents[id], MarkFailed(before, org, id, error);
    assert doc.status != Indexed;
    assert NoRows(before, id) && after.chunks == before.chunks;
    forall chunks
      ensures !HasChunks(after.documents[id], readers, count, chunks)
    {
      assert !HasChunks(doc, readers, count, chunks);
    }
  }

  lemma EmptyFits(before: Index, org: nat, id: nat, text: string, readers: Readers, count: Counter)
    requires Owned(before, org, id) && DocumentFits(before, id, readers, count)
    requires ExtractText(before.documents[id].mime, before.documents[id].raw, readers) == Extracted(text)
    requires IsChunking(text, count, [])
    ensures DocumentFits(MarkFailed(before, org, id, NO_TEXT), id, readers, count)
  {
    forall chunks
      ensures !HasChunks(before.documents[id], readers, count, chunks)
    {
      if IsChunking(text, count, chunks) {
        ChunkingUnique(text, count, chunks, []);
      }
    }
    FailedFits(before, org, id, NO_TEXT, readers, count);
  }

  lemma IndexedFits(before: Index, after: Index, org: nat, id: nat, text: string, chunks: seq<string>, readers: Readers,
                    count: Counter)
    requires Owned(before, org, id) && IsIndexed(before, after, org, id, text, chunks) && chunks != []
    requires ExtractText(before.documents[id].mime, before.documents[id].raw, readers) == Extracted(text)
    requires IsChunking(text, count, chunks)
    ensures DocumentFits(after, id, readers, count)
  {
    var doc := after.documents[id];
    assert HasChunks(doc, readers, count, chunks) && IsInIndex(after, doc, id, chunks);
  }

  lemma TextFits(before: Index, after: Index, org: nat, id: nat, text: string, chunks: seq<string>, readers: Readers,
                 count: Counter)
    requires Owned(before, org, id) && DocumentFits(before, id, readers, count)
    requires ExtractText(before.documents[id].mime, before.documents[id].raw, readers) == Extracted(text)
    requires TextIngested(before, after, org, id, text, count, chunks)
    ensures id in after.documents && DocumentFits(after, id, readers, count)
  {
    if chunks == [] {
      EmptyFits(before, org, id, text, readers, count);
    } else {
      IndexedFits(before, after, org, id, text, chunks, readers, count);
    }
  }

  /** A delivery leaves the other documents and their rows alone. */
  lemma IngestedLeaves(before: Index, after: Index, org: nat, id: nat, readers: Readers, count: Counter)
    requires IsIngested(before, after, org, id, readers, count)
    ensures after.documents.Keys == before.documents.Keys && OthersKept(before, after, id)
    ensures forall other | other in before.documents && other != id :: after.documents[other] == before.documents[other]
  {
  }

  lemma IngestedFits(before: Index, after: Index, org: nat, id: nat, readers: Readers, count: Counter)
    requires IsIngested(before, after, org, id, readers, count) && DocumentFits(before, id, readers, count)
    ensures id in after.documents && DocumentFits(after, id, readers, count)
  {
    var e := ExtractText(before.documents[id].mime, before.documents[id].raw, readers);
    if e.Unsupported? {
      FailedFits(before, org, id, e.error, readers, count);
    } else {
      var chunks :| TextIngested(before, after, org, id, e.text, count, chunks);
      TextFits(before, after, org, id, e.text, chunks, readers, count);
    }
  }

  lemma EventFits(before: Index, e: Event, after: Index, readers: Readers, count: Counter)
    requires IndexFits(before, readers, count) && Happens(before, e, after, readers, count)
    ensures IndexFits(after, readers, count)
  {
    match e
    case Delivered(org, id) =>
      IngestedLeaves(before, after, org, id, readers, count);
      IngestedFits(before, after, org, id, readers, count);
      forall other | other in after.documents
        ensures DocumentFits(after, other, readers, count)
      {
        if other != id {
          OtherFits(before, after, id, other, readers, count);
        }
      }
    case Upload(org, id, mime, raw) =>
      forall other | other in after.documents
        ensures DocumentFits(after, other, readers, count)
      {
        if other != id {
          OtherFits(before, after, id, other, readers, count);
        }
      }
    case FailedDelivery =>
  }

  /**
   * After any number of deliveries in any order, failed ones and repeated ones among them, an
   * indexed document has exactly the rows 0 up to its chunk count, with the chunker's texts,
   * and a failed one has none.
   */
  lemma {:induction false} RunFits(states: seq<Index>, events: seq<Event>, readers: Readers, count: Counter, k: nat)
    requires |states| == |events| + 1 && states[0] == Index(map[], map[]) && k <= |events|
    requires forall j {:trigger events[j]} | 0 <= j < |events| :: Happens(states[j], events[j], states[j + 1], readers, count)
    ensures IndexFits(states[k], readers, count)
  {
    if k > 0 {
      RunFits(states, events, readers, count, k - 1);
      EventFits(states[k - 1], events[k - 1], states[k], readers, count);
    }
  }

  // ---- by the document's type alone ----------------------------------------------------------------

  /** What the document's bytes read as: a PDF through the extraction, markdown and plain text through the decoding. */
  ghost predicate ReadsAs(doc: Document, readers: Readers, text: Option<string>) {
    || (doc.mime == "application/pdf" && text == readers.pdf(doc.raw))
    || ((doc.mime == "text/markdown" || doc.mime == "text/plain") && text == readers.decode(doc.raw))
  }

  ghost predicate IsReadable(doc: Document) {
    doc.mime == "application/pdf" || doc.mime == "text/markdown" || doc.mime == "text/plain"
  }

  /** A document that can be read raises exactly if its reader does or the model rejects a batch of the chunks, at 400 and 60 tokens. */
  lemma {:induction false} RaisesWhen(index: Index, org: nat, id: nat, readers: Readers, model: Model, count: Counter,
                                      text: Option<string>)
    requires Owned(index, org, id) && ReadsAs(index.documents[id], readers, text)
    ensures Raises(index, org, id, readers, model, count)
            <==> text.None? || exists chunks :: AreChunks(text.value, count, 400, 60, chunks) && chunks != [] && RejectsOne(model, chunks)
  {
    if text.Some? {
      forall chunks
        ensures HasChunks(index.documents[id], readers, count, chunks)
                <==> AreChunks(text.value, count, 400, 60, chunks) && chunks != []
      {
      }
    }
  }

  /** What a delivery leaves of a document that reads as this text, which comes to these chunks. */
  ghost predicate IsLeft(before: Index, after: Index, org: nat, id: nat, text: string, chunks: seq<string>)
    requires Owned(before, org, id)
  {
    var doc := before.documents[id];
    if chunks == [] then
      after == before.(documents := before.documents[id := doc.(status := Failed, error := Some("no extractable text"), chunkCount := 0)])
    else
      && after.documents == before.documents[id := doc.(status := Indexed, chunkCount := |chunks|, error := None,
                                                        textContent := Some(text))]
      && RowsUpTo(after, org, id, chunks, |chunks|)
  }

  /** A delivery that commits indexes the document under its reader's text, or marks it failed if that has no chunk. */
  lemma {:induction false} IngestedReading(before: Index, after: Index, org: nat, id: nat, readers: Readers, count: Counter,
                                           text: Option<string>) returns (chunks: seq<string>)
    requires IsIngested(before, after, org, id, readers, count) && ReadsAs(before.documents[id], readers, text)
    ensures text.Some? && AreChunks(text.value, count, 400, 60, chunks) && IsLeft(before, after, org, id, text.value, chunks)
  {
    chunks :| TextIngested(before, after, org, id, text.value, count, chunks);
  }

  /** Any other type never raises on reading, and ends failed with an error that ends in the type as Python quotes it. */
  lemma {:induction false} OtherType(before: Index, after: Index, org: nat, id: nat, readers: Readers, model: Model,
                                     count: Counter)
    requires Owned(before, org, id) && !IsReadable(before.documents[id])
    ensures !Raises(before, org, id, readers, model, count)
    ensures IsIngested(before, after, org, id, readers, count) ==>
      var doc := before.documents[id];
      var error := "unsupported mime type: " + readers.repr(doc.mime);
      after == before.(documents := before.documents[id := doc.(status := Failed, error := Some(error), chunkCount := 0)])
  {
  }

  /** After any deliveries an indexed document can be read, and its text and rows are those of its reader's text. */
  lemma {:induction false} IndexedReading(states: seq<Index>, events: seq<Event>, readers: Readers, count: Counter, k: nat,
                                          id: nat, text: Option<string>) returns (chunks: seq<string>)
    requires |states| == |events| + 1 && states[0] == Index(map[], map[]) && k <= |events|
    requires forall j {:trigger events[j]} | 0 <= j < |events| :: Happens(states[j], events[j], states[j + 1], readers, count)
    requires id in states[k].documents && states[k].documents[id].status == Indexed
    requires IsReadable(states[k].documents[id]) ==> ReadsAs(states[k].documents[id], readers, text)
    ensures var doc := states[k].documents[id];
            && IsReadable(doc) && text.Some? && doc.textContent == text
            && AreChunks(text.value, count, 400, 60, chunks) && chunks != [] && doc.chunkCount == |chunks|
            && RowsUpTo(states[k], doc.org, id, chunks, |chunks|)
  {
    RunFits(states, events, readers, count, k);
    var doc := states[k].documents[id];
    assert DocumentFits(states[k], id, readers, count);
    chunks :| HasChunks(doc, readers, count, chunks) && IsInIndex(states[k], doc, id, chunks);
  }

  // ---- the model's calls ---------------------------------------------------------------------------

  /** The batches, 32 chunks each and the last one shorter. */
  ghost function Batch(chunks: seq<string>, q: nat): (batch: seq<string>)
    requires 32 * q < |chunks|
    ensures 0 < |batch| <= 32
  {
    if 32 * q + 32 <= |chunks| then chunks[32 * q..32 * q + 32] else chunks[32 * q..]
  }

  lemma {:induction false} BatchIs(chunks: seq<string>, ord: nat)
    requires ord < |chunks|
    ensures 32 * (ord / 32) <= ord && BatchOf(chunks, ord) == Batch(chunks, ord / 32)
  {
  }

  /** Chunk `ord` is embedded as number `ord % 32` of the model's answer for its batch, which has a vector for each. */
  lemma {:induction false} EmbeddingIs(index: Index, id: nat, model: Model, chunks: seq<string>, ord: nat)
    requires EmbeddedUpTo(index, id, model, chunks, |chunks|) && ord < |chunks|
    ensures 32 * (ord / 32) < |chunks|
    ensures var batch := Batch(chunks, ord / 32);
            && model(batch).Some? && |model(batch).value| == |batch| && ord % 32 < |batch|
            && HasVector(index, ChunkKey(id, ord), model(batch).value[ord % 32])
  {
    BatchIs(chunks, ord);
    assert RowEmbedded(index, id, model, chunks, ord);
  }

  /** The model rejects the chunks exactly if it fails on one of the batches, or gives it the wrong number of vectors. */
  lemma {:induction false} RejectsIff(model: Model, chunks: seq<string>)
    ensures RejectsOne(model, chunks)
            <==> exists q: nat :: 32 * q < |chunks| && var answer := model(Batch(chunks, q));
                                  answer.None? || |answer.value| != |Batch(chunks, q)|
  {
    if ord: nat :| ord < |chunks| && Rejected(model, BatchOf(chunks, ord)) {
      BatchIs(chunks, ord);
      assert 32 * (ord / 32) < |chunks|;
    }
    if q: nat :| 32 * q < |chunks| && (model(Batch(chunks, q)).None? || |model(Batch(chunks, q)).value| != |Batch(chunks, q)|) {
      BatchIs(chunks, 32 * q);
      assert Rejected(model, BatchOf(chunks, 32 * q));
    }
  }
}

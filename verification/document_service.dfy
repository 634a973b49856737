/** The server-side ingestion service: `extractTextFromPdf`, which only
    writes one placeholder line per page, and `processDocument`, which marks
    a document PROCESSING, picks its text, chunks it, embeds and stores the
    chunks in batches of five and finally marks the document COMPLETED or
    FAILED. */
module DocumentService {
  import opened Wrappers
  import opened Text
  import opened Chunking
  import opened Store

  const BatchSize: nat := 5
  /** What `downloadFileFromS3` throws whatever went wrong. */
  const DownloadFailed: string := "Failed to download file"
  const NoReadableText: string := "No readable text found in PDF"
  const InvalidPdf: string := "Invalid or corrupted PDF document."
  const PasswordPdf: string := "Password-protected PDFs are not supported."
  const PdfFailurePrefix: string := "Failed to extract text from PDF: "
  const UnsupportedType: string := "Unsupported file type"
  const NoText: string := "No text content extracted from document"
  const NoChunks: string := "No chunks created from document text"
  const NoneProcessed: string := "Failed to process any chunks - check AWS credentials and permissions"

  /** A downloaded file as the service reads it: its bytes decoded as UTF-8,
      and what the PDF parser makes of them (a page count, or the parser's
      error message). */
  datatype StoredFile = StoredFile(utf8: string, pdfPages: Result<nat>)

  // ------------------------------------------------------------------ PDF text

  /** `[Page ${n} content - text extraction not implemented]\n`. */
  function PageLine(n: nat): string {
    "[Page " + NatToString(n) + " content - text extraction not implemented]\n"
  }

  /** The placeholder text of a PDF with `n` pages. */
  function Placeholders(n: nat): string
    decreases n
  {
    if n == 0 then "" else Placeholders(n - 1) + PageLine(n)
  }

  /** The message `extractTextFromPdf` rethrows for an error with message `m`. */
  function PdfErrorMessage(m: string): string {
    if Contains(m, "Invalid PDF") then InvalidPdf
    else if Contains(m, "Password") then PasswordPdf
    else PdfFailurePrefix + m
  }

  /** What `extractTextFromPdf` returns for a parse result. */
  function PdfText(pages: Result<nat>): Result<string> {
    match pages
    case Err(m) => Err(PdfErrorMessage(m))
    case Ok(n) =>
      var text := Placeholders(n);
      if text == [] || Trim(text) == [] then Err(PdfErrorMessage(NoReadableText)) else Ok(text)
  }

  /** `extractTextFromPdf`, with its loop over the pages. */
  method ExtractTextFromPdf(pages: Result<nat>) returns (r: Result<string>)
    ensures r == PdfText(pages)
  {
    if pages.Err? {
      return Err(PdfErrorMessage(pages.message));
    }
    var count := pages.value;
    var fullText := "";
    var i := 0;
    while i < count
      invariant 0 <= i <= count
      invariant fullText == Placeholders(i)
    {
      fullText := fullText + PageLine(i + 1);
      i := i + 1;
    }
    if fullText == [] || Trim(fullText) == [] {
      return Err(PdfErrorMessage(NoReadableText));
    }
    return Ok(fullText);
  }

  /** A PDF with pages yields one placeholder line per page, never the
      "no readable text" error. */
  lemma PdfTextPages(n: nat)
    requires n > 0
    ensures PdfText(Ok(n)) == Ok(Placeholders(n))
  {
    var text := Placeholders(n);
    assert text[|Placeholders(n - 1)|] == '[';
  }

  // ------------------------------------------------------------------ text and chunks

  /** JavaScript truthiness of the stored `extractedText`: present and not
      empty. */
  predicate HasExtractedText(metadata: DocumentMetadata) {
    metadata.extractedText.Some? && metadata.extractedText.value != ""
  }

  /** The text to chunk: the text extracted in the browser when there is
      one, else the PDF placeholder text for a `.pdf` key, else the file as
      UTF-8 for a `.txt` key. */
  function ChooseText(doc: Document, file: StoredFile): Result<string> {
    if HasExtractedText(doc.metadata) then Ok(doc.metadata.extractedText.value)
    else if EndsWith(Lower(doc.s3Key), ".pdf") then PdfText(file.pdfPages)
    else if EndsWith(Lower(doc.s3Key), ".txt") then Ok(file.utf8)
    else Err(UnsupportedType)
  }

  /** From a downloaded file to the chunks to store. */
  function Prepare(doc: Document, file: StoredFile): Result<seq<DocumentChunk>> {
    match ChooseText(doc, file)
    case Err(m) => Err(m)
    case Ok(text) =>
      if text == [] || Trim(text) == [] then Err(NoText)
      else
        var chunks := Chunks(text, DefaultMaxTokens, DefaultOverlapTokens);
        if chunks == [] then Err(NoChunks) else Ok(chunks)
  }

  /** The rows stored for the first `n` chunks: one per chunk whose
      embedding succeeds, in chunk order, with consecutive ids from
      `firstId`. */
  function StoredPrefix(documentId: string, chunks: seq<DocumentChunk>, n: nat, embed: string -> Result<string>, firstId: nat): (r: seq<ChunkRow>)
    requires n <= |chunks|
    ensures |r| <= n
    decreases n
  {
    if n == 0 then []
    else
      var init := StoredPrefix(documentId, chunks, n - 1, embed, firstId);
      var last := chunks[n - 1];
      match embed(last.text)
      case Err(_) => init
      case Ok(e) => init + [ChunkRow(firstId + |init|, documentId, last.text, e, last.metadata)]
  }

  /** The rows stored for all of `chunks`. */
  function Stored(documentId: string, chunks: seq<DocumentChunk>, embed: string -> Result<string>, firstId: nat): (r: seq<ChunkRow>)
    ensures |r| <= |chunks|
  {
    StoredPrefix(documentId, chunks, |chunks|, embed, firstId)
  }

  /** A chunk whose embedding succeeds adds its row, with the next id. */
  lemma StoredPrefixAdds(documentId: string, chunks: seq<DocumentChunk>, k: nat, embed: string -> Result<string>, firstId: nat)
    requires k < |chunks| && embed(chunks[k].text).Ok?
    ensures var init := StoredPrefix(documentId, chunks, k, embed, firstId);
      StoredPrefix(documentId, chunks, k + 1, embed, firstId) ==
        init + [ChunkRow(firstId + |init|, documentId, chunks[k].text, embed(chunks[k].text).value, chunks[k].metadata)]
  {
  }

  /** A chunk whose embedding fails adds nothing. */
  lemma StoredPrefixSkips(documentId: string, chunks: seq<DocumentChunk>, k: nat, embed: string -> Result<string>, firstId: nat)
    requires k < |chunks| && embed(chunks[k].text).Err?
    ensures StoredPrefix(documentId, chunks, k + 1, embed, firstId) == StoredPrefix(documentId, chunks, k, embed, firstId)
  {
  }

  /** The callback each chunk of a batch goes through: embed its text and,
      when that succeeds, store it; a failure is caught and reported as
      `None`. */
  method StoreOne(store: DocumentStore, documentId: string, chunk: DocumentChunk, embed: string -> Result<string>)
    returns (row: Option<ChunkRow>)
    requires store.Valid()
    modifies store
    ensures store.Valid() && store.documents == old(store.documents)
    ensures embed(chunk.text).Err? ==>
      row == None && store.chunks == old(store.chunks) && store.nextChunkId == old(store.nextChunkId)
    ensures embed(chunk.text).Ok? ==>
      && row == Some(ChunkRow(old(store.nextChunkId), documentId, chunk.text, embed(chunk.text).value, chunk.metadata))
      && store.chunks == old(store.chunks) + [row.value]
      && store.nextChunkId == old(store.nextChunkId) + 1
  {
    var embedding := embed(chunk.text);
    if embedding.Err? {
      return None;
    }
    var created := store.CreateChunk(documentId, chunk.text, embedding.value, chunk.metadata);
    return Some(created);
  }

  /** The callback on `chunks[k]`, seen from the rows stored so far: the
      rows for the first `k + 1` chunks follow those for the first `k`. */
  method StoreAt(store: DocumentStore, documentId: string, chunks: seq<DocumentChunk>, embed: string -> Result<string>,
                 k: nat, ghost firstId: nat, ghost base: seq<ChunkRow>)
    returns (stored: bool)
    requires k < |chunks|
    requires store.Valid()
    requires store.chunks == base + StoredPrefix(documentId, chunks, k, embed, firstId)
    requires store.nextChunkId == firstId + |StoredPrefix(documentId, chunks, k, embed, firstId)|
    modifies store
    ensures store.Valid() && store.documents == old(store.documents)
    ensures store.chunks == base + StoredPrefix(documentId, chunks, k + 1, embed, firstId)
    ensures store.nextChunkId == firstId + |StoredPrefix(documentId, chunks, k + 1, embed, firstId)|
    ensures stored <==> embed(chunks[k].text).Ok?
    ensures |StoredPrefix(documentId, chunks, k + 1, embed, firstId)| ==
      |StoredPrefix(documentId, chunks, k, embed, firstId)| + (if stored then 1 else 0)
  {
    ghost var init := StoredPrefix(documentId, chunks, k, embed, firstId);
    var row := StoreOne(store, documentId, chunks[k], embed);
    if row.Some? {
      StoredPrefixAdds(documentId, chunks, k, embed, firstId);
      assert base + (init + [row.value]) == (base + init) + [row.value];
    } else {
      StoredPrefixSkips(documentId, chunks, k, embed, firstId);
    }
    stored := row.Some?;
  }

  /** One batch: `chunks[lo..hi]` through the callback, then the count of
      the settled results. */
  method StoreBatch(store: DocumentStore, documentId: string, chunks: seq<DocumentChunk>, embed: string -> Result<string>,
                    lo: nat, hi: nat, ghost firstId: nat, ghost base: seq<ChunkRow>)
    returns (processed: nat, failed: nat)
    requires lo <= hi <= |chunks|
    requires store.Valid()
    requires store.chunks == base + StoredPrefix(documentId, chunks, lo, embed, firstId)
    requires store.nextChunkId == firstId + |StoredPrefix(documentId, chunks, lo, embed, firstId)|
    modifies store
    ensures store.Valid() && store.documents == old(store.documents)
    ensures store.chunks == base + StoredPrefix(documentId, chunks, hi, embed, firstId)
    ensures store.nextChunkId == firstId + |StoredPrefix(documentId, chunks, hi, embed, firstId)|
    ensures processed == |StoredPrefix(documentId, chunks, hi, embed, firstId)| - |StoredPrefix(documentId, chunks, lo, embed, firstId)|
    ensures processed + failed == hi - lo
  {
    processed, failed := 0, 0;
    var k := lo;
    while k < hi
      invariant lo <= k <= hi
      invariant store.Valid() && store.documents == old(store.documents)
      invariant store.chunks == base + StoredPrefix(documentId, chunks, k, embed, firstId)
      invariant store.nextChunkId == firstId + |StoredPrefix(documentId, chunks, k, embed, firstId)|
      invariant processed + |StoredPrefix(documentId, chunks, lo, embed, firstId)| == |StoredPrefix(documentId, chunks, k, embed, firstId)|
      invariant processed + failed == k - lo
    {
      var stored := StoreAt(store, documentId, chunks, embed, k, firstId, base);
      if stored {
        processed := processed + 1;
      } else {
        failed := failed + 1;
      }
      k := k + 1;
    }
  }

  /** The batch loop: embeds and stores the chunks five at a time and counts
      the chunks stored and the chunks that failed. */
  method StoreChunks(store: DocumentStore, documentId: string, chunks: seq<DocumentChunk>, embed: string -> Result<string>)
    returns (processed: nat, failed: nat)
    requires store.Valid()
    modifies store
    ensures store.Valid()
    ensures store.documents == old(store.documents)
    ensures store.chunks == old(store.chunks) + Stored(documentId, chunks, embed, old(store.nextChunkId))
    ensures processed == |Stored(documentId, chunks, embed, old(store.nextChunkId))|
    ensures processed + failed == |chunks|
  {
    processed, failed := 0, 0;
    ghost var firstId := store.nextChunkId;
    ghost var base := store.chunks;
    assert chunks[..0] == [];
    var i := 0;
    while i < |chunks|
      invariant 0 <= i <= |chunks|
      invariant store.Valid() && store.documents == old(store.documents)
      invariant store.chunks == base + StoredPrefix(documentId, chunks, i, embed, firstId)
      invariant store.nextChunkId == firstId + |StoredPrefix(documentId, chunks, i, embed, firstId)|
      invariant processed == |StoredPrefix(documentId, chunks, i, embed, firstId)|
      invariant processed + failed == i
    {
      var hi := Min(i + BatchSize, |chunks|);
      var batchProcessed, batchFailed := StoreBatch(store, documentId, chunks, embed, i, hi, firstId, base);
      processed := processed + batchProcessed;
      failed := failed + batchFailed;
      i := hi;
    }
    assert chunks[..i] == chunks;
  }

  // ------------------------------------------------------------------ the whole run

  /** What one run leaves behind: the document's final status and error,
      the rows it stored and what it returns or throws. */
  datatype Outcome = Outcome(status: Status, processingError: Option<string>, rows: seq<ChunkRow>, result: Result<()>)

  function Failure(m: string): Outcome {
    Outcome(FAILED, Some(m), [], Err(m))
  }

  /** `${failed} chunks failed to process`, or nothing when none failed. */
  function FailureNote(failed: nat): Option<string> {
    if failed > 0 then Some(NatToString(failed) + " chunks failed to process") else None
  }

  /** The outcome of processing an existing document. `download` stands for
      the file store (`None` when the download fails) and `embed` for the
      embedding model; either may fail. */
  function Expected(doc: Document, download: string -> Option<StoredFile>, embed: string -> Result<string>, firstId: nat): Outcome {
    match download(doc.s3Key)
    case None => Failure(DownloadFailed)
    case Some(file) =>
      match Prepare(doc, file)
      case Err(m) => Failure(m)
      case Ok(chunks) => Completion(doc.id, chunks, embed, firstId)
  }

  /** The outcome once the chunks exist: COMPLETED when at least one chunk
      was stored, with a note counting the ones that were not. */
  function Completion(documentId: string, chunks: seq<DocumentChunk>, embed: string -> Result<string>, firstId: nat): Outcome {
    var rows := Stored(documentId, chunks, embed, firstId);
    if |rows| == 0 then Failure(NoneProcessed)
    else Outcome(COMPLETED, FailureNote(|chunks| - |rows|), rows, Ok(()))
  }

  /** The outcome depends on the document's id, key and metadata, not on its
      status. */
  lemma ExpectedIgnoresStatus(doc: Document, status: Status, processingError: Option<string>,
                              download: string -> Option<StoredFile>, embed: string -> Result<string>, firstId: nat)
    ensures Expected(doc.(status := status, processingError := processingError), download, embed, firstId)
         == Expected(doc, download, embed, firstId)
  {
    var other := doc.(status := status, processingError := processingError);
    var file := download(doc.s3Key);
    if file.Some? {
      assert ChooseText(other, file.value) == ChooseText(doc, file.value);
      assert Prepare(other, file.value) == Prepare(doc, file.value);
    }
  }

  /** The chunks whose embedding succeeds among the first `n`, in order. */
  function Embeddable(chunks: seq<DocumentChunk>, n: nat, embed: string -> Result<string>): (r: seq<DocumentChunk>)
    requires n <= |chunks|
    ensures |r| <= n
    ensures forall k :: 0 <= k < |r| ==> embed(r[k].text).Ok?
    decreases n
  {
    if n == 0 then []
    else Embeddable(chunks, n - 1, embed) + (if embed(chunks[n - 1].text).Ok? then [chunks[n - 1]] else [])
  }

  /** The stored rows are the chunks whose embedding succeeds, one row each
      and in order, with that embedding, the document's id and consecutive
      ids from `firstId`. */
  lemma {:induction false} StoredRows(documentId: string, chunks: seq<DocumentChunk>, n: nat, embed: string -> Result<string>, firstId: nat)
    requires n <= |chunks|
    ensures var rows := StoredPrefix(documentId, chunks, n, embed, firstId);
      var kept := Embeddable(chunks, n, embed);
      && |rows| == |kept|
      && forall k :: 0 <= k < |rows| ==>
        rows[k] == ChunkRow(firstId + k, documentId, kept[k].text, embed(kept[k].text).value, kept[k].metadata)
    decreases n
  {
    if n > 0 {
      StoredRows(documentId, chunks, n - 1, embed, firstId);
    }
  }

  /** When every embedding succeeds, every chunk is stored. */
  lemma {:induction false} EmbeddableAll(chunks: seq<DocumentChunk>, n: nat, embed: string -> Result<string>)
    requires n <= |chunks|
    requires forall k :: 0 <= k < n ==> embed(chunks[k].text).Ok?
    ensures Embeddable(chunks, n, embed) == chunks[..n]
    decreases n
  {
    if n > 0 {
      EmbeddableAll(chunks, n - 1, embed);
      assert chunks[..n] == chunks[..n - 1] + [chunks[n - 1]];
    }
  }

  /** When every embedding fails, nothing is stored. */
  lemma {:induction false} EmbeddableNone(chunks: seq<DocumentChunk>, n: nat, embed: string -> Result<string>)
    requires n <= |chunks|
    requires forall k :: 0 <= k < n ==> embed(chunks[k].text).Err?
    ensures Embeddable(chunks, n, embed) == []
    decreases n
  {
    if n > 0 {
      EmbeddableNone(chunks, n - 1, embed);
    }
  }

  /** The "no chunks" error cannot happen: text that survives the blank check
      always yields at least one chunk. */
  lemma PrepareNeverChunkless(doc: Document, file: StoredFile)
    ensures ChooseText(doc, file).Ok? && !IsBlank(ChooseText(doc, file).value) ==>
      Prepare(doc, file) == Ok(Chunks(ChooseText(doc, file).value, DefaultMaxTokens, DefaultOverlapTokens))
    ensures Prepare(doc, file).Ok? ==> Prepare(doc, file).value != []
    ensures ChooseText(doc, file).Ok? ==> Prepare(doc, file) != Err(NoChunks)
  {
    var text := ChooseText(doc, file);
    if text.Ok? {
      ChunksEmptyIffBlank(text.value, DefaultMaxTokens, DefaultOverlapTokens);
    }
  }

  /** Every row a run stores belongs to the processed document. */
  lemma {:induction false} StoredPrefixOwned(documentId: string, chunks: seq<DocumentChunk>, n: nat, embed: string -> Result<string>, firstId: nat)
    requires n <= |chunks|
    ensures forall c :: c in StoredPrefix(documentId, chunks, n, embed, firstId) ==> c.documentId == documentId
    decreases n
  {
    if n > 0 {
      StoredPrefixOwned(documentId, chunks, n - 1, embed, firstId);
    }
  }

  /** The rows of a run's outcome all belong to the document it processed. */
  lemma ExpectedRowsOwned(doc: Document, download: string -> Option<StoredFile>, embed: string -> Result<string>, firstId: nat)
    ensures forall c :: c in Expected(doc, download, embed, firstId).rows ==> c.documentId == doc.id
  {
    if download(doc.s3Key).Some? && Prepare(doc, download(doc.s3Key).value).Ok? {
      var chunks := Prepare(doc, download(doc.s3Key).value).value;
      StoredPrefixOwned(doc.id, chunks, |chunks|, embed, firstId);
    }
  }

  /** A run ends COMPLETED or FAILED. It ends COMPLETED exactly when it
      returns normally, which is exactly when at least one row was stored; a
      failed run stores nothing and records the message it throws. With the
      chunks prepared, the note counts the chunks whose embedding failed. */
  lemma ExpectedOutcome(doc: Document, download: string -> Option<StoredFile>, embed: string -> Result<string>, firstId: nat)
    ensures var o := Expected(doc, download, embed, firstId);
      && (o.status == COMPLETED || o.status == FAILED)
      && (o.status == COMPLETED <==> o.result.Ok?)
      && (o.result.Ok? <==> o.rows != [])
      && (o.status == FAILED ==> o.rows == [] && o.processingError == Some(o.result.message))
    ensures download(doc.s3Key).Some? && Prepare(doc, download(doc.s3Key).value).Ok? ==>
      var chunks := Prepare(doc, download(doc.s3Key).value).value;
      var o := Expected(doc, download, embed, firstId);
      var kept := Embeddable(chunks, |chunks|, embed);
      && |o.rows| == |kept|
      && (o.result.Ok? ==> o.processingError == FailureNote(|chunks| - |kept|))
  {
    var file := download(doc.s3Key);
    if file.Some? && Prepare(doc, file.value).Ok? {
      var chunks := Prepare(doc, file.value).value;
      StoredRows(doc.id, chunks, |chunks|, embed, firstId);
    }
  }

  /** The text choice of `processDocument`. */
  method ReadText(doc: Document, file: StoredFile) returns (r: Result<string>)
    ensures r == ChooseText(doc, file)
  {
    if HasExtractedText(doc.metadata) {
      r := Ok(doc.metadata.extractedText.value);
    } else if EndsWith(Lower(doc.s3Key), ".pdf") {
      r := ExtractTextFromPdf(file.pdfPages);
    } else if EndsWith(Lower(doc.s3Key), ".txt") {
      r := Ok(file.utf8);
    } else {
      r := Err(UnsupportedType);
    }
  }

  /** The `catch` of `processDocument`: mark the document FAILED with the
      message, then rethrow. */
  method Fail(store: DocumentStore, documentId: string, m: string) returns (r: Result<()>)
    requires store.Valid()
    modifies store
    ensures store.Valid() && store.chunks == old(store.chunks)
    ensures r == Err(m)
    ensures FindDocument(old(store.documents), documentId).None? ==> store.documents == old(store.documents)
    ensures FindDocument(old(store.documents), documentId).Some? ==>
      var i := IndexOf(old(store.documents), documentId).value;
      store.documents == old(store.documents)[i := old(store.documents)[i].(status := FAILED, processingError := Some(m))]
  {
    var _ := store.UpdateStatus(documentId, FAILED, Some(m));
    r := Err(m);
  }

  /** The text and chunking steps of `processDocument`. */
  method PrepareChunks(doc: Document, file: StoredFile) returns (r: Result<seq<DocumentChunk>>)
    ensures r == Prepare(doc, file)
  {
    var text := ReadText(doc, file);
    if text.Err? {
      return Err(text.message);
    }
    if text.value == [] || Trim(text.value) == [] {
      return Err(NoText);
    }
    var chunks := ChunkText(text.value, DefaultMaxTokens, DefaultOverlapTokens);
    if chunks == [] {
      return Err(NoChunks);
    }
    return Ok(chunks);
  }

  /** `processDocument` from the download on, for the document at index `i`. */
  method Run(store: DocumentStore, doc: Document, ghost i: nat,
             download: string -> Option<StoredFile>, embed: string -> Result<string>)
    returns (r: Result<()>)
    requires store.Valid() && i < |store.documents| && store.documents[i] == doc
    modifies store
    ensures store.Valid()
    ensures var o := Expected(doc, download, embed, old(store.nextChunkId));
      && r == o.result
      && store.documents == old(store.documents)[i := doc.(status := o.status, processingError := o.processingError)]
      && store.chunks == old(store.chunks) + o.rows
  {
    IndexOfUnique(store.documents, doc.id, i);
    var file := download(doc.s3Key);
    if file.None? {
      r := Fail(store, doc.id, DownloadFailed);
      return;
    }
    var chunks := PrepareChunks(doc, file.value);
    if chunks.Err? {
      r := Fail(store, doc.id, chunks.message);
      return;
    }
    r := Finish(store, doc.id, i, chunks.value, embed);
  }

  /** `processDocument` from storing the chunks on. */
  method Finish(store: DocumentStore, documentId: string, ghost i: nat, chunks: seq<DocumentChunk>, embed: string -> Result<string>)
    returns (r: Result<()>)
    requires store.Valid() && IndexOf(store.documents, documentId) == Some(i)
    modifies store
    ensures store.Valid()
    ensures var o := Completion(documentId, chunks, embed, old(store.nextChunkId));
      && r == o.result
      && store.documents == old(store.documents)[i := old(store.documents)[i].(status := o.status, processingError := o.processingError)]
      && store.chunks == old(store.chunks) + o.rows
  {
    var processed, failed := StoreChunks(store, documentId, chunks, embed);
    if processed == 0 {
      r := Fail(store, documentId, NoneProcessed);
      return;
    }
    var _ := store.UpdateStatus(documentId, COMPLETED, FailureNote(failed));
    r := Ok(());
  }

  /** `processDocument(documentId)`. A missing document makes the first
      status update throw Prisma's not-found error; the update to FAILED in
      the handler then fails as well and is ignored. */
  method ProcessDocument(store: DocumentStore, documentId: string,
                         download: string -> Option<StoredFile>, embed: string -> Result<string>)
    returns (r: Result<()>)
    requires store.Valid()
    modifies store
    ensures store.Valid()
    ensures FindDocument(old(store.documents), documentId).None? ==>
      r == Err(RecordNotFound) && store.documents == old(store.documents) && store.chunks == old(store.chunks)
    ensures FindDocument(old(store.documents), documentId).Some? ==>
      var i := IndexOf(old(store.documents), documentId).value;
      var doc := old(store.documents)[i];
      var o := Expected(doc, download, embed, old(store.nextChunkId));
      && r == o.result
      && store.documents == old(store.documents)[i := doc.(status := o.status, processingError := o.processingError)]
      && store.chunks == old(store.chunks) + o.rows
  {
    var ok := store.UpdateStatus(documentId, PROCESSING, None);
    if !ok {
      r := Fail(store, documentId, RecordNotFound);
      return;
    }
    // The document was just updated, so `findUnique` finds it and the
    // "Document not found" branch cannot be taken.
    ghost var i := IndexOf(old(store.documents), documentId).value;
    ghost var original := old(store.documents)[i];
    assert store.documents[i].id == documentId;
    IndexOfUnique(store.documents, documentId, i);
    var doc := FindDocument(store.documents, documentId).value;
    assert doc == original.(status := PROCESSING, processingError := None);
    ExpectedIgnoresStatus(original, PROCESSING, None, download, embed, store.nextChunkId);
    r := Run(store, doc, i, download, embed);
  }
}

/** The tRPC `documents` router: `getUploadUrl` creates the document record
    and asks for a presigned upload URL, `processDocument` guards a
    (re)processing request, `listDocuments` and `getDocumentStatus` read the
    caller's documents with their chunk counts. */
module DocumentsRouter {
  import opened Wrappers
  import opened Text
  import opened Schemas
  import opened Store
  import opened Upload
  import DocumentService

  const NotFoundOrDenied: string := "Document not found or access denied"
  const AlreadyCompleted: string := "Document already processed successfully"
  const InProgress: string := "Document is currently being processed"
  const StartedMessage: string := "Document processing started"

  // ------------------------------------------------------------------ getUploadUrl

  datatype UploadInput = UploadInput(fileName: string, fileType: string, fileSize: int, extractedText: Option<string>)

  datatype UploadReply = UploadReply(documentId: string, uploadUrl: string, s3Key: string)

  /** `uploadSchema`: a non-empty name and type and a positive size. */
  predicate ValidUpload(input: UploadInput) {
    |input.fileName| >= 1 && |input.fileType| >= 1 && input.fileSize > 0
  }

  /** `extractedText || null`: an empty text counts as none. */
  function TextOrNull(text: Option<string>): (r: Option<string>)
    ensures r.Some? <==> text.Some? && text.value != []
    ensures r.Some? ==> r == text
  {
    if text.Some? && text.value != [] then text else None
  }

  /** The metadata a new upload records. */
  function NewMetadata(input: UploadInput): DocumentMetadata {
    DocumentMetadata(input.fileName, input.fileType, input.fileSize, TextOrNull(input.extractedText))
  }

  /** `getUploadUrl`. `newId` is the id the database generates, `timestamp`
      the clock reading and `presign` the signing service, called with the
      full object key and the content type. The record is created before
      the URL is signed, so a signing failure leaves it behind. */
  method GetUploadUrl(store: DocumentStore, userId: string, input: UploadInput, newId: string, timestamp: nat,
                      presign: (string, string) -> Result<string>)
    returns (r: Result<UploadReply>)
    requires store.Valid()
    modifies store
    ensures store.Valid() && store.chunks == old(store.chunks)
    ensures !ValidUpload(input) ==> r == Err(BadRequest) && store.documents == old(store.documents)
    ensures ValidUpload(input) && CheckFile(input.fileType, input.fileSize).Err? ==>
      r == Err(CheckFile(input.fileType, input.fileSize).message) && store.documents == old(store.documents)
    ensures ValidUpload(input) && CheckFile(input.fileType, input.fileSize).Ok? && FindDocument(old(store.documents), newId).Some? ==>
      r == Err(UniqueViolation) && store.documents == old(store.documents)
    ensures ValidUpload(input) && CheckFile(input.fileType, input.fileSize).Ok? && FindDocument(old(store.documents), newId).None? ==>
      var doc := Document(newId, input.fileName, StorageKey(timestamp, input.fileName), userId, PENDING, None,
                          NewMetadata(input), old(store.clock));
      && store.documents == old(store.documents) + [doc]
      && r == match presign(doc.s3Key, input.fileType)
              case Err(m) => Err(m)
              case Ok(url) => Ok(UploadReply(newId, url, doc.s3Key))
  {
    if !ValidUpload(input) {
      return Err(BadRequest);
    }
    var check := CheckFile(input.fileType, input.fileSize);
    if check.Err? {
      return Err(check.message);
    }
    var objectName := ObjectName(timestamp, input.fileName);
    var created := store.CreateDocument(newId, input.fileName, "uploads/" + objectName, userId, NewMetadata(input));
    if created.Err? {
      return Err(created.message);
    }
    var url := presign(UploadPrefix + objectName, input.fileType);
    if url.Err? {
      return Err(url.message);
    }
    return Ok(UploadReply(created.value.id, url.value, created.value.s3Key));
  }

  // ------------------------------------------------------------------ processDocument

  datatype StartReply = StartReply(message: string, documentId: string)

  /** The checks `processDocument` makes before it starts: a cuid, a
      document the caller owns, and one that is neither COMPLETED nor
      PROCESSING. */
  function ProcessGuard(documents: seq<Document>, userId: string, documentId: string): (r: Result<Document>)
    requires UniqueIds(documents)
    ensures r.Ok? ==>
      && r.value in documents && r.value.id == documentId && r.value.uploaderId == userId
      && (r.value.status == PENDING || r.value.status == FAILED)
  {
    if !IsCuid(documentId) then Err(BadRequest)
    else match FindOwned(documents, documentId, userId)
      case None => Err(NotFoundOrDenied)
      case Some(doc) =>
        match doc.status
        case COMPLETED => Err(AlreadyCompleted)
        case PROCESSING => Err(InProgress)
        case PENDING => Ok(doc)
        case FAILED => Ok(doc)
  }

  /** For a well-formed id the guard fails with "not found or access denied"
      exactly when the caller owns no document with that id; for an owned
      document the answer depends on its status alone: COMPLETED and
      PROCESSING get their own messages, PENDING and FAILED pass. */
  lemma GuardCases(documents: seq<Document>, userId: string, documentId: string)
    requires UniqueIds(documents) && IsCuid(documentId)
    ensures ProcessGuard(documents, userId, documentId) == Err(NotFoundOrDenied) <==>
      forall d :: d in documents && d.id == documentId ==> d.uploaderId != userId
    ensures forall d :: d in documents && d.id == documentId && d.uploaderId == userId ==>
      ProcessGuard(documents, userId, documentId) ==
        match d.status
        case COMPLETED => Err(AlreadyCompleted)
        case PROCESSING => Err(InProgress)
        case _ => Ok(d)
  {
    forall d | d in documents && d.id == documentId
      ensures FindOwned(documents, documentId, userId) == (if d.uploaderId == userId then Some(d) else None)
    {
      var j :| 0 <= j < |documents| && documents[j] == d;
      IndexOfUnique(documents, documentId, j);
    }
  }

  /** `processDocument`: the guard, then for a FAILED document the removal of
      its chunks; on success the processing run (modelled by
      `DocumentService.ProcessDocument`) is dispatched without being waited
      for, so the reply does not depend on it. */
  method StartProcessing(store: DocumentStore, userId: string, documentId: string) returns (r: Result<StartReply>)
    requires store.Valid()
    modifies store
    ensures store.Valid() && store.documents == old(store.documents) && store.nextChunkId == old(store.nextChunkId)
    ensures var g := ProcessGuard(old(store.documents), userId, documentId);
      && (g.Err? ==> r == Err(g.message) && store.chunks == old(store.chunks))
      && (g.Ok? ==>
        && r == Ok(StartReply(StartedMessage, documentId))
        && store.chunks == (if g.value.status == FAILED then ChunksNotOf(old(store.chunks), documentId) else old(store.chunks)))
  {
    var guard := ProcessGuard(store.documents, userId, documentId);
    if guard.Err? {
      return Err(guard.message);
    }
    if guard.value.status == FAILED {
      store.DeleteChunksOf(documentId);
    }
    return Ok(StartReply(StartedMessage, documentId));
  }

  /** `processDocument` followed by the run it dispatches. The run's error is
      swallowed by its `.catch`, so the reply is the guard's. After a FAILED
      document is retried, its chunks are exactly the rows of the new run. */
  method ProcessAndRun(store: DocumentStore, userId: string, documentId: string,
                       download: string -> Option<DocumentService.StoredFile>, embed: string -> Result<string>)
    returns (r: Result<StartReply>)
    requires store.Valid()
    modifies store
    ensures store.Valid()
    ensures var g := ProcessGuard(old(store.documents), userId, documentId);
      g.Err? ==> r == Err(g.message) && store.documents == old(store.documents) && store.chunks == old(store.chunks)
    ensures var g := ProcessGuard(old(store.documents), userId, documentId);
      g.Ok? ==>
        var i := IndexOf(old(store.documents), documentId).value;
        var o := DocumentService.Expected(g.value, download, embed, old(store.nextChunkId));
        var kept := if g.value.status == FAILED then ChunksNotOf(old(store.chunks), documentId) else old(store.chunks);
        && r == Ok(StartReply(StartedMessage, documentId))
        && i < |old(store.documents)| && old(store.documents)[i] == g.value
        && store.documents == old(store.documents)[i := g.value.(status := o.status, processingError := o.processingError)]
        && store.chunks == kept + o.rows
        && (g.value.status == FAILED ==>
              ChunksOf(store.chunks, documentId) == o.rows
              && ChunksNotOf(store.chunks, documentId) == ChunksNotOf(old(store.chunks), documentId))
  {
    ghost var docs := store.documents;
    ghost var before := store.chunks;
    var g := ProcessGuard(store.documents, userId, documentId);
    r := StartProcessing(store, userId, documentId);
    if g.Ok? {
      ghost var j :| 0 <= j < |docs| && docs[j] == g.value;
      IndexOfUnique(docs, documentId, j);
      DocumentService.ExpectedRowsOwned(g.value, download, embed, store.nextChunkId);
      var _ := DocumentService.ProcessDocument(store, documentId, download, embed);
      if g.value.status == FAILED {
        ReplaceChunksOf(before, documentId, DocumentService.Expected(g.value, download, embed, old(store.nextChunkId)).rows);
      }
    }
  }

  // ------------------------------------------------------------------ listDocuments and getDocumentStatus

  datatype DocumentView = DocumentView(
    id: string,
    title: string,
    status: Status,
    isProcessed: bool,
    chunkCount: nat,
    processingError: Option<string>,
    createdAt: nat)

  /** A document as both read procedures format it. */
  function View(doc: Document, chunks: seq<ChunkRow>): DocumentView {
    DocumentView(doc.id, doc.title, doc.status, doc.status == COMPLETED, |ChunksOf(chunks, doc.id)|,
                 doc.processingError, doc.createdAt)
  }

  /** `listDocuments`: the caller's documents, newest first. */
  function ListDocuments(documents: seq<Document>, chunks: seq<ChunkRow>, userId: string): (r: seq<DocumentView>)
    ensures |r| <= |documents|
    decreases |documents|
  {
    if documents == [] then []
    else
      var last := documents[|documents| - 1];
      (if last.uploaderId == userId then [View(last, chunks)] else [])
        + ListDocuments(documents[..|documents| - 1], chunks, userId)
  }

  /** The list holds the view of every document the caller owns and of no
      other document. */
  lemma {:induction false} ListOwned(documents: seq<Document>, chunks: seq<ChunkRow>, userId: string)
    ensures forall v :: v in ListDocuments(documents, chunks, userId) <==>
      exists d :: d in documents && d.uploaderId == userId && v == View(d, chunks)
    decreases |documents|
  {
    if documents != [] {
      var init := documents[..|documents| - 1];
      ListOwned(init, chunks, userId);
      assert documents == init + [documents[|documents| - 1]];
    }
  }

  /** Strictly decreasing `createdAt`. */
  predicate NewestFirst(views: seq<DocumentView>) {
    forall i, j :: 0 <= i < j < |views| ==> views[i].createdAt > views[j].createdAt
  }

  /** Every listed document was created before `bound` when every stored
      one was. */
  lemma {:induction false} ListCreatedBefore(documents: seq<Document>, chunks: seq<ChunkRow>, userId: string, bound: nat)
    requires forall d :: d in documents ==> d.createdAt < bound
    ensures forall v :: v in ListDocuments(documents, chunks, userId) ==> v.createdAt < bound
    decreases |documents|
  {
    if documents != [] {
      var init := documents[..|documents| - 1];
      assert forall d :: d in init ==> d in documents;
      ListCreatedBefore(init, chunks, userId, bound);
    }
  }

  /** In creation order, every document but the last is older than it. */
  lemma OlderThanLast(documents: seq<Document>)
    requires documents != [] && CreatedInOrder(documents)
    ensures forall d :: d in documents[..|documents| - 1] ==> d.createdAt < documents[|documents| - 1].createdAt
  {
    var init := documents[..|documents| - 1];
    forall d | d in init
      ensures d.createdAt < documents[|documents| - 1].createdAt
    {
      var k :| 0 <= k < |init| && init[k] == d;
      assert documents[k] == d;
    }
  }

  /** A view newer than every view of a newest-first list can head it. */
  lemma ConsNewestFirst(v: DocumentView, rest: seq<DocumentView>)
    requires NewestFirst(rest)
    requires forall w :: w in rest ==> w.createdAt < v.createdAt
    ensures NewestFirst([v] + rest)
  {
    var r := [v] + rest;
    forall i, j | 0 <= i < j < |r|
      ensures r[i].createdAt > r[j].createdAt
    {
      assert r[j] == rest[j - 1] && rest[j - 1] in rest;
      if i > 0 {
        assert r[i] == rest[i - 1];
      }
    }
  }

  /** With documents stored in creation order, the list is strictly newest
      first. */
  lemma {:induction false} ListNewestFirst(documents: seq<Document>, chunks: seq<ChunkRow>, userId: string)
    requires CreatedInOrder(documents)
    ensures NewestFirst(ListDocuments(documents, chunks, userId))
    decreases |documents|
  {
    if documents != [] {
      var init := documents[..|documents| - 1];
      var last := documents[|documents| - 1];
      ListNewestFirst(init, chunks, userId);
      OlderThanLast(documents);
      ListCreatedBefore(init, chunks, userId, last.createdAt);
      var rest := ListDocuments(init, chunks, userId);
      if last.uploaderId == userId {
        ConsNewestFirst(View(last, chunks), rest);
      } else {
        assert ListDocuments(documents, chunks, userId) == rest;
      }
    }
  }

  /** `getDocumentStatus`. */
  function GetDocumentStatus(documents: seq<Document>, chunks: seq<ChunkRow>, userId: string, documentId: string): (r: Result<DocumentView>)
    requires UniqueIds(documents)
    ensures !IsCuid(documentId) ==> r == Err(BadRequest)
    ensures IsCuid(documentId) && r.Err? ==> r == Err(NotFoundOrDenied)
    ensures IsCuid(documentId) ==>
      (r.Ok? <==> exists d :: d in documents && d.id == documentId && d.uploaderId == userId)
    ensures r.Ok? ==> exists d :: d in documents && d.id == documentId && d.uploaderId == userId && r.value == View(d, chunks)
  {
    if !IsCuid(documentId) then Err(BadRequest)
    else match FindOwned(documents, documentId, userId)
      case None => Err(NotFoundOrDenied)
      case Some(doc) => Ok(View(doc, chunks))
  }
}

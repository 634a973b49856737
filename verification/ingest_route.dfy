/** `POST /api/documents/ingest`: the REST way to start processing. It checks
    the session, the id and ownership, refuses a document that already has a
    chunk, and otherwise dispatches `Processing.ProcessDocument` without
    waiting for it. */
module IngestRoute {
  import opened Wrappers
  import opened Schemas
  import opened Store
  import DocumentService
  import Processing

  const UnauthorizedError: string := "Unauthorized"
  const InvalidRequestError: string := "Invalid request data"
  const NotFoundOrDenied: string := "Document not found or access denied"
  const AlreadyProcessed: string := "Document already processed"
  const FailedError: string := "Failed to start document processing"
  const StartedMessage: string := "Document processing started"

  /** The request body: not JSON at all, or a JSON value whose `documentId`
      is a string (`Some`) or is missing or not a string (`None`). */
  datatype RequestBody = NotJson | Json(documentId: Option<string>)

  datatype Body =
    | ErrorBody(error: string)
    | StartedBody(message: string, documentId: string)

  /** The HTTP answer, and the id of the document whose processing was
      dispatched, if any. */
  datatype Response = Response(status: nat, body: Body, dispatched: Option<string>)

  function Error(status: nat, message: string): Response {
    Response(status, ErrorBody(message), None)
  }

  /** `documentChunk.findFirst({ where: { documentId } })` found a row. */
  predicate HasChunk(chunks: seq<ChunkRow>, documentId: string) {
    exists c :: c in chunks && c.documentId == documentId
  }

  /** The route. `session` is the signed-in user's id, if any. A body that
      is not JSON makes `request.json()` throw an error that is not a zod
      error. */
  function Post(session: Option<string>, body: RequestBody, documents: seq<Document>, chunks: seq<ChunkRow>): (r: Response)
    requires UniqueIds(documents)
    ensures r.dispatched.Some? ==> r.status == 200
  {
    if session.None? then Error(401, UnauthorizedError)
    else if body.NotJson? then Error(500, FailedError)
    else if body.documentId.None? || !IsCuid(body.documentId.value) then Error(400, InvalidRequestError)
    else
      var documentId := body.documentId.value;
      if FindOwned(documents, documentId, session.value).None? then Error(404, NotFoundOrDenied)
      else if HasChunk(chunks, documentId) then Error(400, AlreadyProcessed)
      else Response(200, StartedBody(StartedMessage, documentId), Some(documentId))
  }

  /** Processing is dispatched exactly for a signed-in caller naming, by a
      well-formed id, a document they own that has no chunk yet; the reply
      then echoes the id. */
  lemma PostDispatches(session: Option<string>, body: RequestBody, documents: seq<Document>, chunks: seq<ChunkRow>)
    requires UniqueIds(documents)
    ensures var r := Post(session, body, documents, chunks);
      r.dispatched.Some? <==>
        && session.Some? && body.Json? && body.documentId.Some? && IsCuid(body.documentId.value)
        && (exists d :: d in documents && d.id == body.documentId.value && d.uploaderId == session.value)
        && !HasChunk(chunks, body.documentId.value)
    ensures var r := Post(session, body, documents, chunks);
      r.dispatched.Some? ==> r.body == StartedBody(StartedMessage, r.dispatched.value) && r.dispatched == body.documentId
  {
    if session.Some? && body.Json? && body.documentId.Some? && IsCuid(body.documentId.value) {
      var id := body.documentId.value;
      if exists d :: d in documents && d.id == id && d.uploaderId == session.value {
        var d :| d in documents && d.id == id && d.uploaderId == session.value;
        var j :| 0 <= j < |documents| && documents[j] == d;
        IndexOfUnique(documents, id, j);
      }
    }
  }

  /** An owned document that already has a chunk is refused whatever its
      status, even a FAILED one that a retry would need to clear. */
  lemma PostRefusesChunked(userId: string, documentId: string, documents: seq<Document>, chunks: seq<ChunkRow>, d: Document)
    requires UniqueIds(documents) && IsCuid(documentId)
    requires d in documents && d.id == documentId && d.uploaderId == userId
    requires HasChunk(chunks, documentId)
    ensures Post(Some(userId), Json(Some(documentId)), documents, chunks) == Error(400, AlreadyProcessed)
  {
    var j :| 0 <= j < |documents| && documents[j] == d;
    IndexOfUnique(documents, documentId, j);
  }

  /** The route followed by the run it dispatches. The run's error is only
      logged by its `.catch`, so the response is the route's alone. Since a
      dispatched document had no chunk, its chunks afterwards are exactly the
      rows the run stored. */
  method PostAndRun(store: DocumentStore, session: Option<string>, body: RequestBody,
                    download: string -> Option<Processing.FileBuffer>, embed: string -> Result<string>)
    returns (resp: Response)
    requires store.Valid()
    modifies store
    ensures store.Valid() && store.documents == old(store.documents)
    ensures resp == Post(session, body, old(store.documents), old(store.chunks))
    ensures resp.dispatched.None? ==> store.chunks == old(store.chunks)
    ensures resp.dispatched.Some? ==>
      var d := FindDocument(old(store.documents), resp.dispatched.value);
      var rows := match Processing.Ingested(d.value, download, embed, old(store.nextChunkId))
                  case Ok(rows) => rows
                  case Err(_) => [];
      && d.Some?
      && store.chunks == old(store.chunks) + rows
      && ChunksOf(store.chunks, resp.dispatched.value) == rows
  {
    ghost var before := store.chunks;
    resp := Post(session, body, store.documents, store.chunks);
    if resp.dispatched.Some? {
      var id := resp.dispatched.value;
      PostDispatches(session, body, store.documents, store.chunks);
      ghost var d := FindDocument(store.documents, id).value;
      ghost var rows := match Processing.Ingested(d, download, embed, store.nextChunkId)
                        case Ok(rows) => rows
                        case Err(_) => [];
      Processing.IngestedRowsOwned(d, download, embed, store.nextChunkId);
      var _ := Processing.ProcessDocument(store, id, download, embed);
      ChunksOfNone(before, id);
      ChunksOfAppend(before, rows, id);
      FiltersOfOwnRows(rows, id);
    }
  }
}

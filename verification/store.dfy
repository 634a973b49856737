/** The two Prisma tables the ingestion pipeline works on, `Document` and
    `DocumentChunk`, held in memory. Rows are kept in insertion order, which is
    also `createdAt` order: every write takes the next tick of a logical clock. */
module Store {
  import opened Wrappers
  import opened Chunking

  datatype Status = PENDING | PROCESSING | COMPLETED | FAILED

  /** The JSON `metadata` column of a document as the upload paths write it. */
  datatype DocumentMetadata = DocumentMetadata(
    originalName: string,
    fileType: string,
    fileSize: int,
    extractedText: Option<string>)

  datatype Document = Document(
    id: string,
    title: string,
    s3Key: string,
    uploaderId: string,
    status: Status,
    processingError: Option<string>,
    metadata: DocumentMetadata,
    createdAt: nat)

  /** A stored chunk; the embedding vector is kept as the opaque string it is
      serialised to. */
  datatype ChunkRow = ChunkRow(
    id: nat,
    documentId: string,
    chunkText: string,
    embedding: string,
    metadata: ChunkMetadata)

  /** Prisma's message when `create` meets an id that is already taken. */
  const UniqueViolation: string := "Unique constraint failed on the fields: (`id`)"

  /** Prisma's message when `update` finds no row with the given id. */
  const RecordNotFound: string := "Record to update not found."

  /** The index of the document with id `id`, if there is one. */
  function IndexOf(docs: seq<Document>, id: string): (r: Option<nat>)
    ensures r.Some? ==> r.value < |docs| && docs[r.value].id == id
    ensures r.None? ==> forall d :: d in docs ==> d.id != id
    decreases |docs|
  {
    if docs == [] then None
    else if docs[|docs| - 1].id == id then Some(|docs| - 1)
    else IndexOf(docs[..|docs| - 1], id)
  }

  /** With unique ids, the search finds the one document with that id. */
  lemma {:induction false} IndexOfUnique(docs: seq<Document>, id: string, j: nat)
    requires UniqueIds(docs) && j < |docs| && docs[j].id == id
    ensures IndexOf(docs, id) == Some(j)
    decreases |docs|
  {
    if j < |docs| - 1 {
      IndexOfUnique(docs[..|docs| - 1], id, j);
    }
  }

  /** `findUnique({ where: { id } })`. */
  function FindDocument(docs: seq<Document>, id: string): (r: Option<Document>)
    ensures r.Some? ==> r.value in docs && r.value.id == id
    ensures r.None? ==> forall d :: d in docs ==> d.id != id
  {
    match IndexOf(docs, id)
    case Some(i) => Some(docs[i])
    case None => None
  }

  /** `findFirst({ where: { id, uploaderId } })`: the document, only when the
      caller owns it. */
  function FindOwned(docs: seq<Document>, id: string, userId: string): (r: Option<Document>)
    requires UniqueIds(docs)
    ensures r.Some? ==> r.value in docs && r.value.id == id && r.value.uploaderId == userId
    ensures r.None? ==> forall d :: d in docs && d.id == id ==> d.uploaderId != userId
  {
    match IndexOf(docs, id)
    case Some(i) => if docs[i].uploaderId == userId then Some(docs[i]) else None
    case None => None
  }

  /** The chunks that belong to document `id`, in storage order. */
  function ChunksOf(rows: seq<ChunkRow>, id: string): (r: seq<ChunkRow>)
    ensures |r| <= |rows|
    ensures forall c :: c in r <==> c in rows && c.documentId == id
    decreases |rows|
  {
    if rows == [] then []
    else (if rows[0].documentId == id then [rows[0]] else []) + ChunksOf(rows[1..], id)
  }

  /** The chunks that do not belong to document `id`, in storage order. */
  function ChunksNotOf(rows: seq<ChunkRow>, id: string): (r: seq<ChunkRow>)
    ensures |r| <= |rows|
    ensures forall c :: c in r <==> c in rows && c.documentId != id
    decreases |rows|
  {
    if rows == [] then []
    else (if rows[0].documentId != id then [rows[0]] else []) + ChunksNotOf(rows[1..], id)
  }

  /** A chunk row joined with its document's title (`include: { document:
      { select: { id, title } } }`). */
  datatype Candidate = Candidate(row: ChunkRow, title: string)

  /** The title of the chunk's document. */
  function TitleOf(documents: seq<Document>, row: ChunkRow): string {
    match FindDocument(documents, row.documentId)
    case None => ""
    case Some(d) => d.title
  }

  /** Every document id occurs once. */
  predicate UniqueIds(docs: seq<Document>) {
    forall i, j :: 0 <= i < j < |docs| ==> docs[i].id != docs[j].id
  }

  /** Documents come in strictly increasing `createdAt` order. */
  predicate CreatedInOrder(docs: seq<Document>) {
    forall i, j :: 0 <= i < j < |docs| ==> docs[i].createdAt < docs[j].createdAt
  }

  /** Chunk ids grow along storage order. */
  predicate IdsIncreasing(rows: seq<ChunkRow>) {
    forall i, j :: 0 <= i < j < |rows| ==> rows[i].id < rows[j].id
  }

  /** Dropping the chunks of one document keeps the ids increasing. */
  lemma {:induction false} NotOfIncreasing(rows: seq<ChunkRow>, id: string)
    requires IdsIncreasing(rows)
    ensures IdsIncreasing(ChunksNotOf(rows, id))
    decreases |rows|
  {
    if rows != [] {
      NotOfIncreasing(rows[1..], id);
      var rest := ChunksNotOf(rows[1..], id);
      forall c | c in rest
        ensures rows[0].id < c.id
      {
        var j :| 0 <= j < |rows[1..]| && rows[1..][j] == c;
        assert rows[j + 1] == c;
      }
    }
  }

  /** `ChunksOf` splits over a concatenation. */
  lemma {:induction false} ChunksOfAppend(a: seq<ChunkRow>, b: seq<ChunkRow>, id: string)
    ensures ChunksOf(a + b, id) == ChunksOf(a, id) + ChunksOf(b, id)
    decreases |a|
  {
    if a == [] {
      assert a + b == b;
    } else {
      var head := if a[0].documentId == id then [a[0]] else [];
      assert (a + b)[0] == a[0] && (a + b)[1..] == a[1..] + b;
      ChunksOfAppend(a[1..], b, id);
      assert head + (ChunksOf(a[1..], id) + ChunksOf(b, id)) == (head + ChunksOf(a[1..], id)) + ChunksOf(b, id);
    }
  }

  /** `ChunksNotOf` splits over a concatenation. */
  lemma {:induction false} ChunksNotOfAppend(a: seq<ChunkRow>, b: seq<ChunkRow>, id: string)
    ensures ChunksNotOf(a + b, id) == ChunksNotOf(a, id) + ChunksNotOf(b, id)
    decreases |a|
  {
    if a == [] {
      assert a + b == b;
    } else {
      var head := if a[0].documentId != id then [a[0]] else [];
      assert (a + b)[0] == a[0] && (a + b)[1..] == a[1..] + b;
      ChunksNotOfAppend(a[1..], b, id);
      assert head + (ChunksNotOf(a[1..], id) + ChunksNotOf(b, id)) == (head + ChunksNotOf(a[1..], id)) + ChunksNotOf(b, id);
    }
  }

  /** What `ChunksNotOf` leaves holds nothing of `id`. */
  lemma {:induction false} NotOfHoldsNoneOf(rows: seq<ChunkRow>, id: string)
    ensures ChunksOf(ChunksNotOf(rows, id), id) == []
    decreases |rows|
  {
    if rows != [] {
      NotOfHoldsNoneOf(rows[1..], id);
      if rows[0].documentId != id {
        assert ChunksNotOf(rows, id) == [rows[0]] + ChunksNotOf(rows[1..], id);
        ChunksOfAppend([rows[0]], ChunksNotOf(rows[1..], id), id);
        assert [rows[0]][1..] == [];
        assert ChunksOf([rows[0]], id) == [];
      } else {
        assert ChunksNotOf(rows, id) == ChunksNotOf(rows[1..], id);
      }
    }
  }

  /** Rows that all belong to `id` pass the one filter whole and the other
      not at all. */
  lemma {:induction false} FiltersOfOwnRows(rows: seq<ChunkRow>, id: string)
    requires forall c :: c in rows ==> c.documentId == id
    ensures ChunksOf(rows, id) == rows
    ensures ChunksNotOf(rows, id) == []
    decreases |rows|
  {
    if rows != [] {
      assert forall c :: c in rows[1..] ==> c in rows;
      FiltersOfOwnRows(rows[1..], id);
    }
  }

  /** Deleting a document's chunks and then adding new rows of it leaves
      exactly the new rows for that document and every other document's
      rows as they were. */
  lemma ReplaceChunksOf(rows: seq<ChunkRow>, id: string, added: seq<ChunkRow>)
    requires forall c :: c in added ==> c.documentId == id
    ensures ChunksOf(ChunksNotOf(rows, id) + added, id) == added
    ensures ChunksNotOf(ChunksNotOf(rows, id) + added, id) == ChunksNotOf(rows, id)
  {
    var kept := ChunksNotOf(rows, id);
    ChunksOfAppend(kept, added, id);
    ChunksNotOfAppend(kept, added, id);
    FiltersOfOwnRows(added, id);
    NotOfHoldsNoneOf(rows, id);
    assert forall c :: c in kept ==> c.documentId != id;
    ChunksNotOfOthers(kept, id);
  }

  /** A table with no row of `id` has no chunks of it. */
  lemma {:induction false} ChunksOfNone(rows: seq<ChunkRow>, id: string)
    requires forall c :: c in rows ==> c.documentId != id
    ensures ChunksOf(rows, id) == []
    decreases |rows|
  {
    if rows != [] {
      assert forall c :: c in rows[1..] ==> c in rows;
      ChunksOfNone(rows[1..], id);
    }
  }

  /** Rows of other documents pass `ChunksNotOf` unchanged. */
  lemma {:induction false} ChunksNotOfOthers(rows: seq<ChunkRow>, id: string)
    requires forall c :: c in rows ==> c.documentId != id
    ensures ChunksNotOf(rows, id) == rows
    decreases |rows|
  {
    if rows != [] {
      assert forall c :: c in rows[1..] ==> c in rows;
      ChunksNotOfOthers(rows[1..], id);
    }
  }

  class DocumentStore {
    var documents: seq<Document>
    var chunks: seq<ChunkRow>
    /** The logical clock: the `createdAt` the next document gets. */
    var clock: nat
    /** The id the next chunk row gets. */
    var nextChunkId: nat

    ghost predicate Valid()
      reads this
    {
      && UniqueIds(documents)
      && CreatedInOrder(documents)
      && (forall d :: d in documents ==> d.createdAt < clock)
      && (forall c :: c in chunks ==> c.id < nextChunkId)
      && IdsIncreasing(chunks)
    }

    constructor()
      ensures Valid() && documents == [] && chunks == []
    {
      documents, chunks, clock, nextChunkId := [], [], 0, 0;
    }

    /** `document.create`: appends a new document stamped with the clock, or
        fails, changing nothing, when the id is taken. */
    method CreateDocument(id: string, title: string, s3Key: string, uploaderId: string, metadata: DocumentMetadata)
      returns (r: Result<Document>)
      requires Valid()
      modifies this
      ensures Valid() && chunks == old(chunks) && nextChunkId == old(nextChunkId)
      ensures FindDocument(old(documents), id).Some? ==> r == Err(UniqueViolation) && documents == old(documents)
      ensures FindDocument(old(documents), id).None? ==>
        && r.Ok?
        && r.value == Document(id, title, s3Key, uploaderId, PENDING, None, metadata, old(clock))
        && documents == old(documents) + [r.value]
    {
      if FindDocument(documents, id).Some? {
        return Err(UniqueViolation);
      }
      var d := Document(id, title, s3Key, uploaderId, PENDING, None, metadata, clock);
      documents := documents + [d];
      clock := clock + 1;
      return Ok(d);
    }

    /** `document.update({ where: { id }, data: { status, processingError } })`:
        changes those two fields of that one document, or fails, changing
        nothing, when there is no such document. */
    method UpdateStatus(id: string, status: Status, processingError: Option<string>) returns (ok: bool)
      requires Valid()
      modifies this
      ensures Valid() && chunks == old(chunks) && nextChunkId == old(nextChunkId) && |documents| == |old(documents)|
      ensures ok <==> FindDocument(old(documents), id).Some?
      ensures !ok ==> documents == old(documents)
      ensures ok ==> var i := IndexOf(old(documents), id).value;
        documents == old(documents)[i := old(documents)[i].(status := status, processingError := processingError)]
    {
      var i := IndexOf(documents, id);
      if i.None? {
        return false;
      }
      documents := documents[i.value := documents[i.value].(status := status, processingError := processingError)];
      ok := true;
    }

    /** `documentChunk.create`: appends one row with a new id. */
    method CreateChunk(documentId: string, chunkText: string, embedding: string, metadata: ChunkMetadata)
      returns (row: ChunkRow)
      requires Valid()
      modifies this
      ensures Valid() && documents == old(documents)
      ensures row == ChunkRow(old(nextChunkId), documentId, chunkText, embedding, metadata)
      ensures chunks == old(chunks) + [row]
      ensures nextChunkId == old(nextChunkId) + 1
    {
      row := ChunkRow(nextChunkId, documentId, chunkText, embedding, metadata);
      chunks := chunks + [row];
      nextChunkId := nextChunkId + 1;
    }

    /** `documentChunk.deleteMany({ where: { documentId } })`. */
    method DeleteChunksOf(documentId: string)
      requires Valid()
      modifies this
      ensures Valid() && documents == old(documents)
      ensures chunks == ChunksNotOf(old(chunks), documentId) && nextChunkId == old(nextChunkId)
    {
      NotOfIncreasing(chunks, documentId);
      chunks := ChunksNotOf(chunks, documentId);
    }
  }
}

/** The processing run the REST ingest route dispatches: it reads PDFs
    through Textract's LINE blocks, chunks the text, and embeds and stores
    the chunks in batches of five, swallowing every per-chunk error. Unlike
    `DocumentService.ProcessDocument` it never touches the document's status
    and has no blank-text or no-chunk checks. */
module Processing {
  import opened Wrappers
  import opened Text
  import opened Chunking
  import opened Store
  import DocumentService

  const NotFound: string := "Document not found"
  /** What `extractTextFromPdf` throws whatever went wrong, including a
      response without blocks. */
  const PdfFailed: string := "Failed to extract text from PDF"

  datatype TextractBlock = TextractBlock(blockType: string, text: Option<string>)

  /** A downloaded file: its bytes as UTF-8, and what Textract answers for
      them (an error, a response without `Blocks`, or the blocks). */
  datatype FileBuffer = FileBuffer(utf8: string, textract: Result<Option<seq<TextractBlock>>>)

  /** A LINE block whose text is present and not empty. */
  predicate IsTextLine(b: TextractBlock) {
    b.blockType == "LINE" && b.text.Some? && b.text.value != []
  }

  /** `.filter(LINE).map(text).filter(text => text)`. */
  function LineTexts(blocks: seq<TextractBlock>): (r: seq<string>)
    ensures |r| <= |blocks|
    decreases |blocks|
  {
    if blocks == [] then []
    else (if IsTextLine(blocks[0]) then [blocks[0].text.value] else []) + LineTexts(blocks[1..])
  }

  /** The kept texts are exactly the texts of the LINE blocks that have
      one, none of them empty. */
  lemma {:induction false} LineTextsMembers(blocks: seq<TextractBlock>)
    ensures forall t :: t in LineTexts(blocks) <==> exists b :: b in blocks && IsTextLine(b) && b.text.value == t
    ensures forall k :: 0 <= k < |LineTexts(blocks)| ==> LineTexts(blocks)[k] != []
    decreases |blocks|
  {
    if blocks != [] {
      LineTextsMembers(blocks[1..]);
      assert blocks == [blocks[0]] + blocks[1..];
    }
  }

  /** The filter keeps block order: the lines of two runs of blocks are the
      lines of the first followed by those of the second. */
  lemma {:induction false} LineTextsConcat(a: seq<TextractBlock>, b: seq<TextractBlock>)
    ensures LineTexts(a + b) == LineTexts(a) + LineTexts(b)
    decreases |a|
  {
    if a == [] {
      assert a + b == b;
    } else {
      LineTextsConcat(a[1..], b);
      assert (a + b)[1..] == a[1..] + b;
    }
  }

  /** `extractTextFromPdf`: the kept lines joined with line feeds; any
      failure, a response without blocks included, becomes one fixed
      message. */
  function ExtractTextFromPdf(response: Result<Option<seq<TextractBlock>>>): (r: Result<string>)
    ensures r.Err? ==> r == Err(PdfFailed)
  {
    match response
    case Err(_) => Err(PdfFailed)
    case Ok(None) => Err(PdfFailed)
    case Ok(Some(blocks)) => Ok(Join(LineTexts(blocks), "\n"))
  }

  /** Every LINE block's text appears in the extracted text. */
  lemma ExtractKeepsLines(blocks: seq<TextractBlock>, b: TextractBlock)
    requires b in blocks && IsTextLine(b)
    ensures ExtractTextFromPdf(Ok(Some(blocks))).Ok?
    ensures Contains(ExtractTextFromPdf(Ok(Some(blocks))).value, b.text.value)
  {
    LineTextsMembers(blocks);
    var lines := LineTexts(blocks);
    assert b.text.value in lines;
    var k :| 0 <= k < |lines| && lines[k] == b.text.value;
    JoinContains(lines, "\n", k);
  }

  /** The text of the file, chosen by the lower-cased key's suffix. */
  function ChooseText(doc: Document, file: FileBuffer): Result<string> {
    if EndsWith(Lower(doc.s3Key), ".pdf") then ExtractTextFromPdf(file.textract)
    else if EndsWith(Lower(doc.s3Key), ".txt") then Ok(file.utf8)
    else Err(DocumentService.UnsupportedType)
  }

  /** What a run over an existing document stores, or the error it throws.
      `download` stands for the file store (`None` when it fails) and
      `embed` for the embedding model. */
  function Ingested(doc: Document, download: string -> Option<FileBuffer>, embed: string -> Result<string>, firstId: nat)
    : Result<seq<ChunkRow>>
  {
    match download(doc.s3Key)
    case None => Err(DocumentService.DownloadFailed)
    case Some(file) =>
      match ChooseText(doc, file)
      case Err(m) => Err(m)
      case Ok(text) => Ok(DocumentService.Stored(doc.id, Chunks(text, DefaultMaxTokens, DefaultOverlapTokens), embed, firstId))
  }

  /** The rows a run stores all belong to the processed document. */
  lemma IngestedRowsOwned(doc: Document, download: string -> Option<FileBuffer>, embed: string -> Result<string>, firstId: nat)
    ensures Ingested(doc, download, embed, firstId).Ok? ==>
      forall c :: c in Ingested(doc, download, embed, firstId).value ==> c.documentId == doc.id
  {
    if download(doc.s3Key).Some? && ChooseText(doc, download(doc.s3Key).value).Ok? {
      var chunks := Chunks(ChooseText(doc, download(doc.s3Key).value).value, DefaultMaxTokens, DefaultOverlapTokens);
      DocumentService.StoredPrefixOwned(doc.id, chunks, |chunks|, embed, firstId);
    }
  }

  /** Blank text is not an error here: the run completes and stores
      nothing. */
  lemma BlankStoresNothing(doc: Document, download: string -> Option<FileBuffer>, embed: string -> Result<string>, firstId: nat)
    requires download(doc.s3Key).Some?
    requires ChooseText(doc, download(doc.s3Key).value).Ok?
    requires IsBlank(ChooseText(doc, download(doc.s3Key).value).value)
    ensures Ingested(doc, download, embed, firstId) == Ok([])
  {
    ChunksEmptyIffBlank(ChooseText(doc, download(doc.s3Key).value).value, DefaultMaxTokens, DefaultOverlapTokens);
  }

  /** `processDocument(documentId)`: on success the chunk table grows by
      the stored rows; the document itself is never changed. */
  method ProcessDocument(store: DocumentStore, documentId: string,
                         download: string -> Option<FileBuffer>, embed: string -> Result<string>)
    returns (r: Result<()>)
    requires store.Valid()
    modifies store
    ensures store.Valid() && store.documents == old(store.documents)
    ensures FindDocument(old(store.documents), documentId).None? ==>
      r == Err(NotFound) && store.chunks == old(store.chunks)
    ensures FindDocument(old(store.documents), documentId).Some? ==>
      match Ingested(FindDocument(old(store.documents), documentId).value, download, embed, old(store.nextChunkId))
      case Err(m) => r == Err(m) && store.chunks == old(store.chunks)
      case Ok(rows) => r == Ok(()) && store.chunks == old(store.chunks) + rows
  {
    var found := FindDocument(store.documents, documentId);
    if found.None? {
      return Err(NotFound);
    }
    var doc := found.value;
    var file := download(doc.s3Key);
    if file.None? {
      return Err(DocumentService.DownloadFailed);
    }
    var text := ChooseText(doc, file.value);
    if text.Err? {
      return Err(text.message);
    }
    var chunks := ChunkText(text.value, DefaultMaxTokens, DefaultOverlapTokens);
    var _, _ := DocumentService.StoreChunks(store, documentId, chunks, embed);
    return Ok(());
  }
}

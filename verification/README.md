# great-hackathon ingestion and retrieval core, modelled in Dafny

This project models the server side of a document question-answering
application. Users upload PDF or plain-text files. The server records a
`Document` row and cuts the file's text into chunks (`chunkText`). It
embeds each chunk and stores it as a `DocumentChunk` row, five chunks per
batch. Questions are answered from the chunks whose text matches the
question: the chunks are scored by keyword hits and ranked, and the best
five are passed with the question to a language model. Around this core
sit the chat-history router, the Amazon Nova text extraction service, the
voice recorder's pure helpers and the Next.js middleware that guards the
dashboard.

Each source file becomes one module:

| module | source file | form |
|---|---|---|
| `Chunking` | `src/lib/documents/chunking.ts` | a loop (`ChunkText`) proved against a recursive specification (`ChunksFrom`) |
| `Store` | the Prisma `Document` and `DocumentChunk` tables | class `DocumentStore` with `seq` fields |
| `ChatRouter` | `src/server/routers/chat.ts` | functions; the scoring loop is a method |
| `RagSearch` | `src/lib/rag/search.ts` | functions; the scoring loops are a method |
| `QueryRoute` | `src/app/api/chat/query/route.ts` | a function from request to response |
| `DocumentService` | `src/server/services/documents.ts` | methods over `DocumentStore`, proved against `Expected` |
| `Upload`, `DocumentsRouter` | `src/server/routers/documents.ts` | functions and methods over `DocumentStore` |
| `UploadRoute` | `src/app/api/documents/upload/route.ts` | a method over `DocumentStore` |
| `IngestRoute` | `src/app/api/documents/ingest/route.ts` | a function from request to response |
| `Processing` | `src/lib/documents/processing.ts` | a method over `DocumentStore`, proved against `Ingested` |
| `ChatHistory` | `src/server/routers/chat-history.ts` | class `ChatStore` with `seq` fields |
| `BedrockDocument` | `src/server/services/bedrock-document.ts` | functions; the page loop is a method |
| `AudioUtils` | `src/lib/audio/audio-utils.ts` | functions |
| `Middleware` | `src/middleware.ts` | functions |

`Wrappers` (Option, Result), `Text` (the JavaScript string operations the
code uses, over `seq<char>`), `Ranking` (the stable descending sort by an
integer score), and `Schemas` (the zod string checks) are shared helpers.

Everything the code reaches outside itself is a parameter:
- the embedding model (`embed`), the answer generator (`generate`) and Nova (`nova`, `analysis`);
- the file store (`download`) and Textract (the `textract` field of a downloaded file);
- the PDF parser (`pages`, `pageCount`) and the JSON parser (`parse`);
- the browser's `MediaRecorder.isTypeSupported` (`isSupported`) and the request's cookies (`cookies`);
- the clock (`timestamp`) and the database's id generator (`newId`).

The database tables are `seq` fields of a store object, and `createdAt`
comes from a logical clock that every write advances.

Scores are kept exact. The chat router scores in halves (10 for the
phrase, 2 per keyword match, halved for short chunks), so the stored score
is twice the source's. The search library scores in tenths (10, 3 and 2),
so its score is ten times the source's. Similarities are `real`.

Three places where the code does not do what its names suggest, modelled as
the code is written:
- `processDocument` in `src/lib/documents/processing.ts` (the REST path) never sets a status and has no blank-text or no-chunk check;
- `chunkText`'s overlap never moves a window back, because `Math.max(endIndex - overlapChars, endIndex)` is always `endIndex` for a non-negative overlap;
- a window can end one character past `maxTokens * 4`, because `lastIndexOf` also looks at the cut position itself.

## Model

| member | source | states |
|---|---|---|
| Chunking.ChunkText | src/lib/documents/chunking.ts:10-55 | the loop returns exactly `Chunks(text, maxTokens, overlapTokens)`, the chunk list its recursive specification defines |
| Chunking.FindWindowEnd | src/lib/documents/chunking.ts:24-35 | the end the loop body computes is `WindowEnd` of the window's start |
| Chunking.WindowEnd | src/lib/documents/chunking.ts:24-35 | a window ends after its start, inside the text, at most `maxTokens * 4 + 1` characters later |
| Chunking.LastBreakEndSpec | src/lib/documents/chunking.ts:28-34 | the downward scan returns one past the last '.' or '\n' above the midpoint, or the raw cut when there is none |
| Chunking.WindowEndBreaksAt | src/lib/documents/chunking.ts:27-34 | a window that does not reach the end of the text stops where `BreaksAt` says: just after the last '.' or '\n' in `(start + maxChars/2, start + maxChars]`, else at the raw cut |
| Chunking.BreakSearch | src/lib/documents/chunking.ts:28-34 | the two `lastIndexOf` calls and `Math.max` pick an end that satisfies `BreaksAt` |
| Chunking.BreaksAtUnique | src/lib/documents/chunking.ts:27-34 | `BreaksAt` admits a single end, so the search and the scan agree |
| Chunking.SearchEndIsWindowEnd | src/lib/documents/chunking.ts:28-34 | the `lastIndexOf` form of the source equals the scan the model uses |
| Chunking.NextStart | src/lib/documents/chunking.ts:51 | the next start is never before the window's end; it equals the end for a non-negative overlap and is `end - overlapChars` for a negative one |
| Chunking.ChunksWellFormed | src/lib/documents/chunking.ts:37-48 | chunk i has `chunkIndex` i; each chunk is the trimmed, non-empty slice of its range inside the text, at most `maxTokens * 4 + 1` wide; chunks come in text order without overlap |
| Chunking.ChunksCoverText | src/lib/documents/chunking.ts:23-52 | with a non-negative overlap every non-space character of the text lies in some chunk's range |
| Chunking.ChunksEmptyIffBlank | src/lib/documents/chunking.ts:37-48 | with a non-negative overlap there are no chunks exactly when the text is blank |
| Chunking.BlankNoChunks | src/lib/documents/chunking.ts:37-39 | a blank text gives no chunks whatever the overlap |
| Chunking.ShortTextSingleChunk | src/lib/documents/chunking.ts:23-48 | a non-blank text of at most `maxTokens * 4` characters gives one chunk: the trimmed text with range `[0, length)` and index 0 |
| Chunking.OverlapHasNoEffect | src/lib/documents/chunking.ts:51 | any non-negative overlap gives the same chunks as overlap 0 |
| Chunking.NegativeOverlapSkips | src/lib/documents/chunking.ts:51 | a negative overlap leaves a gap of `-overlapTokens * 4` characters after every chunk |
| Store.IndexOf | src/server/services/documents.ts:64-66 | the index found holds a document with that id; no index means no document has it |
| Store.IndexOfUnique | src/server/services/documents.ts:64-66 | with unique ids the lookup finds the one document with that id |
| Store.FindDocument | src/server/services/documents.ts:64-70 | `findUnique` by id: the document found is stored and has the id; none found means no stored document has it |
| Store.FindOwned | src/server/routers/documents.ts:74-83 | `findFirst` by id and uploader: found only when the document with that id belongs to the caller |
| Store.ChunksOf | src/server/routers/documents.ts:124-127 | the chunks of one document, exactly those rows, in storage order |
| Store.ChunksNotOf | src/server/routers/documents.ts:96-100 | the rows of every other document, exactly those, in storage order |
| Store.NotOfIncreasing | src/server/routers/documents.ts:96-100 | deleting one document's chunks keeps chunk ids increasing along storage order |
| Store.DocumentStore.CreateDocument | src/server/routers/documents.ts:43-55 | appends the new document stamped with the clock, or fails with the unique-violation error when the id is taken; chunks unchanged |
| Store.DocumentStore.UpdateStatus | src/server/services/documents.ts:55-61 | sets status and error of the document with that id and nothing else; reports false and changes nothing when there is none |
| Store.DocumentStore.CreateChunk | src/server/services/documents.ts:124-131 | appends one row with the next id; documents unchanged |
| Store.ReplaceChunksOf | src/server/routers/documents.ts:96-100 | deleting a document's chunks and appending new rows of it leaves exactly those rows for it and every other document's rows unchanged |
| Store.DocumentStore.DeleteChunksOf | src/server/routers/documents.ts:96-100 | the chunk table becomes `ChunksNotOf` of the old one |
| ChatRouter.LongWords | src/server/routers/chat.ts:82 | keeps exactly the words longer than two characters |
| ChatRouter.Keywords | src/server/routers/chat.ts:82 | every keyword is lower-case, longer than two characters and holds no whitespace |
| ChatRouter.Candidates | src/server/routers/chat.ts:67-114 | no more entries than rows; a row is a candidate exactly when it is in scope (a COMPLETED document of the caller's, in the requested list when a non-empty one is given) and mentions the question or a keyword, ignoring case |
| ChatRouter.ScoreChunk | src/server/routers/chat.ts:127-149 | the scoring loop returns `Score`: 10 halves for the phrase plus 2 per keyword match, halved below 50 characters |
| ChatRouter.Ranked | src/server/routers/chat.ts:127-149 | pairs every candidate, in order, with its score |
| ChatRouter.KeywordHitsPositive | src/server/routers/chat.ts:138-141 | the keyword hit count is positive exactly when some keyword occurs in the text |
| ChatRouter.ScorePositive | src/server/routers/chat.ts:127-149 | a score is never negative, and positive exactly when the text holds the question or a keyword |
| ChatRouter.CandidatesScorePositive | src/server/routers/chat.ts:85-153 | every candidate scores above zero, so the `> 0` filter drops none |
| ChatRouter.TopOfCandidates | src/server/routers/chat.ts:113-155 | the top chunks are the first five of the sorted, scored first twenty candidates |
| ChatRouter.TopFromCandidates | src/server/routers/chat.ts:152-155 | every top chunk is a candidate |
| ChatRouter.TopInScope | src/server/routers/chat.ts:67-155 | every top chunk is a stored row in scope that mentions the question, with its document's title |
| ChatRouter.TopChunksRanked | src/server/routers/chat.ts:152-155 | at most five top chunks, in non-increasing score order, all scoring above zero |
| ChatRouter.Entries | src/server/routers/chat.ts:169-173 | entry i is "Source i+1 (from title):" and the chunk text |
| ChatRouter.ContextCitesSources | src/server/routers/chat.ts:169-173 | the context holds every top chunk under its numbered heading |
| ChatRouter.Sources | src/server/routers/chat.ts:179-186 | source i carries top chunk i's id, document, title, text and metadata, with similarity score/100 |
| ChatRouter.SourcesRanked | src/server/routers/chat.ts:179-186 | sources from a ranked list have positive, non-increasing similarities |
| ChatRouter.AnswerShape | src/server/routers/chat.ts:160-192 | no top chunks gives the fixed reply with no sources; otherwise the generator's failure or its answer with the sources |
| ChatRouter.QueryValid | src/server/routers/chat.ts:50-192 | a valid question is answered from its candidates |
| ChatRouter.QueryEmptyIff | src/server/routers/chat.ts:118-124 | a valid question gets the fixed "nothing found" reply exactly when there is no candidate |
| ChatRouter.QueryFailsOnlyInGenerator | src/server/routers/chat.ts:6-9 | an invalid question is refused with BAD_REQUEST; a valid one fails only with the generator's error |
| ChatRouter.QuerySources | src/server/routers/chat.ts:179-190 | a reply's sources are none or the sources of the top chunks |
| ChatRouter.QuerySourcesInScope | src/server/routers/chat.ts:67-190 | every cited source is a stored chunk of a COMPLETED document the caller uploaded, in the requested list, mentioning the question, with its own title |
| ChatRouter.QuerySourcesRanked | src/server/routers/chat.ts:152-186 | at most five sources, best first, each with positive similarity |
| ChatRouter.Reverse | src/server/routers/chat.ts:236-238 | the reversal of a sequence, element by element |
| ChatRouter.SearchMatches | src/server/routers/chat.ts:204-226 | exactly the rows in scope whose text holds the query, ignoring case, in storage order |
| ChatRouter.SearchMatchesIncreasing | src/server/routers/chat.ts:236-238 | matches keep chunk ids increasing |
| ChatRouter.Hits | src/server/routers/chat.ts:242-248 | hit i is the view of row i |
| ChatRouter.SearchShape | src/server/routers/chat.ts:196-252 | a valid search returns `count` hits, at most `limit`, each a stored chunk in scope holding the query |
| ChatRouter.SearchNewestFirst | src/server/routers/chat.ts:236-238 | with ids growing in storage order the hits come newest first |
| Ranking.SortDescending | src/server/routers/chat.ts:154 | the sort gives non-increasing scores |
| Ranking.SortPermutes | src/server/routers/chat.ts:154 | the sort is a permutation of its input |
| Ranking.SortStable | src/server/routers/chat.ts:154 | elements with equal scores keep their input order |
| Ranking.PositiveKeeps | src/server/routers/chat.ts:153 | the filter keeps every positive element and adds none |
| Ranking.PositiveAll | src/server/routers/chat.ts:153 | with every score positive the filter keeps everything |
| Ranking.TopOrdered | src/lib/rag/search.ts:87-90 | the top k are at most k, all positive, non-increasing |
| Ranking.TopFromInput | src/lib/rag/search.ts:87-90 | the top k come from the input; with at most k positive scores they are all of them |
| Ranking.TopStable | src/lib/rag/search.ts:87-90 | among equal scores the top list holds a prefix in input order |
| RagSearch.Candidates | src/lib/rag/search.ts:20-50 | exactly the caller's rows whose text holds the query or one of its space-separated pieces, ignoring case, in storage order |
| RagSearch.PhraseMatches | src/lib/rag/search.ts:106-125 | exactly the caller's rows holding the whole query, ignoring case |
| RagSearch.ScoreChunk | src/lib/rag/search.ts:53-84 | the scoring loops return `Score`: 10 tenths for the phrase, 3 per query word found, 2 per technical term found |
| RagSearch.Ranked | src/lib/rag/search.ts:53-84 | pairs every candidate, in order, with its score |
| RagSearch.WordHitsPositive | src/lib/rag/search.ts:66-70 | the word count is positive exactly when some word occurs, and at most the number of words |
| RagSearch.ScorePositive | src/lib/rag/search.ts:53-84 | a score lies between 0 and its maximum and is positive exactly when the text holds the query, a query word or a technical term |
| RagSearch.CandidatesScorePositive | src/lib/rag/search.ts:20-88 | every candidate scores above zero |
| RagSearch.LeadingSpaceMatchesAll | src/lib/rag/search.ts:33-38 | a query starting with a space matches every chunk, since its first piece is empty |
| RagSearch.TopResultsCount | src/lib/rag/search.ts:49-90 | the ranked path returns `min(limit, n)` results for n matching chunks of the caller's |
| RagSearch.TopResultsRanked | src/lib/rag/search.ts:87-100 | at most `limit` results, best first, with similarity `min(0.95, score)` |
| RagSearch.TopResultsInScope | src/lib/rag/search.ts:20-100 | every ranked result is a stored chunk of the caller's matching the query |
| RagSearch.Results | src/lib/rag/search.ts:93-100 | result i carries top chunk i's id, document, title, text and metadata with the capped similarity |
| RagSearch.FallbackResults | src/lib/rag/search.ts:127-134 | the fallback results carry similarity 0.5 |
| RagSearch.SearchDocumentsShape | src/lib/rag/search.ts:13-136 | both paths return at most `limit` results, each a stored chunk of the caller's; the fallback cites only chunks holding the whole query |
| RagSearch.Blocks | src/lib/rag/search.ts:138-145 | block i is "[Source i+1 - title]", the text and a line feed |
| RagSearch.ContextCitesResults | src/lib/rag/search.ts:138-145 | the context holds every result's text under its numbered heading |
| QueryRoute.RouteSources | src/app/api/chat/query/route.ts:43-48 | source i is result i's document, title and similarity with a preview of its text |
| QueryRoute.PreviewShape | src/app/api/chat/query/route.ts:46 | a preview is the first 200 characters followed by "...", the whole text plus "..." when short |
| QueryRoute.PostStatus | src/app/api/chat/query/route.ts:11-67 | no session 401; a body that is not JSON 500; an invalid question 400; otherwise 200 unless the generator fails, then 500 |
| QueryRoute.PostEmptyIff | src/app/api/chat/query/route.ts:24-32 | a valid request gets the fixed reply without sources exactly when the search finds nothing |
| QueryRoute.PostReply | src/app/api/chat/query/route.ts:34-50 | a reply with sources cites exactly the search results, in their order, as previews |
| QueryRoute.PreviewsOwned | src/app/api/chat/query/route.ts:43-48 | results drawn from the caller's chunks become sources whose documents are those chunks' documents and whose texts are previews of those chunks |
| QueryRoute.PostSourcesOwned | src/app/api/chat/query/route.ts:24-50 | a successful reply cites at most five sources, each a preview of a stored chunk the caller owns |
| Upload.Sanitize | src/server/routers/documents.ts:39 | same length; key characters are kept, every other character becomes '_' |
| Upload.SanitizeIdempotent | src/server/routers/documents.ts:39 | sanitising twice is sanitising once; a name made of key characters is unchanged |
| Upload.StorageKeyShape | src/server/routers/documents.ts:38-46 | the key starts with "uploads/", ends with the sanitised name, and between them holds as many characters as the timestamp's digits plus the dash |
| Upload.StorageKeyChars | src/server/routers/documents.ts:38-46 | after the prefix the key holds no '/' and no whitespace |
| Upload.CheckFile | src/server/routers/documents.ts:25-35 | accepted exactly for a PDF or text type of at most 10 MiB; the type is checked first |
| DocumentsRouter.TextOrNull | src/server/routers/documents.ts:52 | `extractedText \|\| null`: an empty text is stored as none |
| DocumentsRouter.GetUploadUrl | src/server/routers/documents.ts:20-65 | a bad input is refused, a bad file type or size gives its message, an id clash the unique-violation error; otherwise one document is appended with the sanitised key and the metadata |
| DocumentsRouter.ProcessGuard | src/server/routers/documents.ts:68-93 | passes only for a cuid naming a caller's document that is PENDING or FAILED |
| DocumentsRouter.GuardCases | src/server/routers/documents.ts:74-93 | "not found or access denied" exactly when no such document of the caller exists; an owned one fails exactly for COMPLETED or PROCESSING |
| DocumentsRouter.StartProcessing | src/server/routers/documents.ts:68-114 | on a guard failure nothing changes; a FAILED document loses its chunks first; the reply names the document |
| DocumentsRouter.ProcessAndRun | src/server/routers/documents.ts:68-114 | the guard's reply, whatever the dispatched run does; a passed guard ends with the document's status and error given by `Expected` and the run's rows appended; after a FAILED retry the document's chunks are exactly the new run's rows and every other document's chunks are as before |
| DocumentsRouter.ListDocuments | src/server/routers/documents.ts:117-146 | no more views than documents |
| DocumentsRouter.ListOwned | src/server/routers/documents.ts:120-143 | the list holds the view of every document the caller owns and of no other |
| DocumentsRouter.ListCreatedBefore | src/server/routers/documents.ts:117-146 | listed documents were created before any bound the stored ones respect |
| DocumentsRouter.ListNewestFirst | src/server/routers/documents.ts:129-131 | with documents stored in creation order the list is strictly newest first |
| DocumentsRouter.GetDocumentStatus | src/server/routers/documents.ts:149-181 | a non-cuid id is refused; otherwise the caller's document's view, or "not found or access denied" exactly when there is none |
| UploadRoute.ParseUpload | src/app/api/documents/upload/route.ts:7-11 | parses exactly when the name and type are non-empty and the size positive |
| UploadRoute.Post | src/app/api/documents/upload/route.ts:13-93 | 401 without a session, 500 for a non-JSON body, 400 for a bad body, type or size, 500 on an id clash; on success one document is appended and its key returned; an error body exactly for a non-200 status |
| IngestRoute.Post | src/app/api/documents/ingest/route.ts:11-75 | processing is dispatched only with status 200 |
| IngestRoute.PostAndRun | src/app/api/documents/ingest/route.ts:11-75 | the response is the route's whatever the dispatched run does; documents never change; a dispatched run appends `Ingested`'s rows, or nothing on error, and they are then exactly the document's chunks |
| IngestRoute.PostDispatches | src/app/api/documents/ingest/route.ts:14-58 | processing is dispatched exactly for a signed-in caller naming, by a cuid, an owned document that has no chunk yet |
| IngestRoute.PostRefusesChunked | src/app/api/documents/ingest/route.ts:38-48 | an owned document that already has a chunk is refused with 400, whatever its status |
| DocumentService.ExtractTextFromPdf | src/server/services/documents.ts:7-48 | the page loop returns `PdfText` of the parse result |
| DocumentService.PdfTextPages | src/server/services/documents.ts:15-32 | a PDF with pages yields one placeholder line per page |
| DocumentService.StoredPrefix | src/server/services/documents.ts:113-148 | no more rows than chunks |
| DocumentService.StoredRows | src/server/services/documents.ts:117-139 | the stored rows are the chunks whose embedding succeeds, in order, with consecutive ids |
| DocumentService.EmbeddableAll | src/server/services/documents.ts:117-139 | when every embedding succeeds every chunk is stored |
| DocumentService.EmbeddableNone | src/server/services/documents.ts:117-139 | when every embedding fails nothing is stored |
| DocumentService.StoreOne | src/server/services/documents.ts:118-137 | a failed embedding stores nothing; a successful one appends one row with the next id |
| DocumentService.StoreBatch | src/server/services/documents.ts:114-148 | one batch appends its successful rows in order; processed and failed add up to the batch size |
| DocumentService.StoreChunks | src/server/services/documents.ts:108-154 | the batch loop appends exactly `Stored` of the chunks; processed is its length and processed plus failed is the chunk count |
| DocumentService.PrepareNeverChunkless | src/server/services/documents.ts:94-106 | text that passes the blank check always gives chunks, so "No chunks created" cannot happen |
| DocumentService.ExpectedIgnoresStatus | src/server/services/documents.ts:55-70 | the outcome does not depend on the status the run overwrites |
| DocumentService.ExpectedRowsOwned | src/server/services/documents.ts:124-131 | every row a run stores belongs to the document it processed |
| DocumentService.ExpectedOutcome | src/server/services/documents.ts:50-187 | a run ends COMPLETED or FAILED; COMPLETED exactly when at least one chunk is stored; FAILED stores nothing and records the message; a completed run's note counts the chunks whose embedding failed |
| DocumentService.ReadText | src/server/services/documents.ts:78-92 | the text choice returns `ChooseText`: browser text first, then PDF, then UTF-8 for ".txt", else unsupported |
| DocumentService.PrepareChunks | src/server/services/documents.ts:94-106 | blank text and empty chunk lists are refused |
| DocumentService.Fail | src/server/services/documents.ts:172-187 | marks the document FAILED with the message, leaving everything else, and rethrows |
| DocumentService.ProcessDocument | src/server/services/documents.ts:50-188 | a missing document leaves the store unchanged and fails with the database's "Record to update not found.", because the PROCESSING update runs first; otherwise the document ends with the `Expected` status and error and the chunk table grows by the stored rows |
| Processing.LineTexts | src/lib/documents/processing.ts:30-32 | at most one text per block |
| Processing.LineTextsMembers | src/lib/documents/processing.ts:30-32 | the kept texts are exactly the non-empty texts of LINE blocks |
| Processing.LineTextsConcat | src/lib/documents/processing.ts:30-32 | the filter keeps block order |
| Processing.ExtractTextFromPdf | src/lib/documents/processing.ts:15-40 | every failure becomes "Failed to extract text from PDF" |
| Processing.ExtractKeepsLines | src/lib/documents/processing.ts:30-35 | every LINE block's text appears in the extracted text |
| Processing.IngestedRowsOwned | src/lib/documents/processing.ts:78-91 | every row a run stores belongs to the document it processed |
| Processing.BlankStoresNothing | src/lib/documents/processing.ts:66-99 | blank text is not an error: the run completes and stores nothing |
| Processing.ProcessDocument | src/lib/documents/processing.ts:42-106 | never changes a document; a missing one gives "Document not found" and stores nothing; otherwise the chunk table grows by `Ingested` or the error is returned |
| ChatHistory.ParseRole | src/server/routers/chat-history.ts:22-27 | parses exactly "USER" and "ASSISTANT"; the role's name is the lower-case spelling |
| ChatHistory.SessionTitle | src/server/routers/chat-history.ts:36 | never empty; a non-empty given title is kept |
| ChatHistory.AutoTitle | src/server/routers/chat-history.ts:143-146 | short content is kept whole; longer content is its first 50 characters and "..."; never more than 53 characters |
| ChatHistory.AutoTitleLeavesDefault | src/server/routers/chat-history.ts:140-149 | the automatic title is "New Chat" only for the content "New Chat" |
| ChatHistory.SessionIndex | src/server/routers/chat-history.ts:119-125 | the index holds a session with that id; none means no session has it |
| ChatHistory.OwnedIndex | src/server/routers/chat-history.ts:119-125 | the index holds that id and belongs to the caller |
| ChatHistory.OwnedIndexNone | src/server/routers/chat-history.ts:119-125 | no owned index exactly when no session has that id and owner |
| ChatHistory.MessagesOf | src/server/routers/chat-history.ts:84-89 | exactly the session's messages, in storage order |
| ChatHistory.MessagesNotOf | src/server/routers/chat-history.ts:187-205 | exactly the other sessions' messages |
| ChatHistory.MessagesOfInOrder | src/server/routers/chat-history.ts:87 | a session's messages stay in creation order |
| ChatHistory.ChatStore.CreateSession | src/server/routers/chat-history.ts:31-42 | appends a session owned by the caller with the title or "New Chat", stamped with the clock, or fails on an id clash |
| ChatHistory.ChatStore.SaveMessage | src/server/routers/chat-history.ts:112-161 | a bad id, role or empty content is refused; a session the caller does not own gives "Session not found"; otherwise one message is appended and the session's `updatedAt` moves past the message's time, with the automatic title when the role is user and the title is still "New Chat" |
| ChatHistory.ChatStore.UpdateSession | src/server/routers/chat-history.ts:164-184 | a title of 1 to 100 characters replaces the owned session's title and nothing else |
| ChatHistory.ChatStore.DeleteSession | src/server/routers/chat-history.ts:187-205 | removes the owned session and its messages and nothing else |
| ChatHistory.SummaryNewest | src/server/routers/chat-history.ts:49-71 | a summary counts the session's messages and shows the newest one |
| ChatHistory.OwnedSessions | src/server/routers/chat-history.ts:45-62 | exactly the caller's sessions, scored by `updatedAt` |
| ChatHistory.Summaries | src/server/routers/chat-history.ts:64-72 | summary i is the summary of session i |
| ChatHistory.ListSessionsComplete | src/server/routers/chat-history.ts:45-74 | every session of the caller is listed |
| ChatHistory.ListSessionsOwned | src/server/routers/chat-history.ts:45-74 | only the caller's sessions are listed |
| ChatHistory.ListSessionsOrdered | src/server/routers/chat-history.ts:62 | the list is ordered by `updatedAt`, newest first |
| ChatHistory.Views | src/server/routers/chat-history.ts:95-106 | view i shows message i |
| ChatHistory.GetSession | src/server/routers/chat-history.ts:77-109 | a non-cuid id is refused; otherwise the only failure is "Session not found", and a success shows a session the caller owns, with its title |
| ChatHistory.GetSessionFound | src/server/routers/chat-history.ts:77-109 | a cuid naming a session the caller owns is found, with that session's id, title and times and the views of exactly its messages |
| ChatHistory.GetSessionMessages | src/server/routers/chat-history.ts:84-106 | the detail holds all the session's messages, lower-case roles, in strictly increasing time |
| BedrockDocument.NovaError | src/server/services/bedrock-document.ts:121-136 | the caught error becomes one of three fixed messages or the message under the API-error or the generic prefix |
| BedrockDocument.NovaErrorOrder | src/server/services/bedrock-document.ts:121-136 | the markers are checked in order: a validation error gets the API-error prefix; a too-long error not claimed by access denied or unavailable stays too long; a message with no marker gets the generic prefix |
| BedrockDocument.NoMarkerWrapped | src/server/services/bedrock-document.ts:121-136 | a message without any marker gets the generic prefix |
| BedrockDocument.NovaOwnErrors | src/server/services/bedrock-document.ts:105-136 | the service's own two errors are rethrown with the generic prefix |
| BedrockDocument.NovaAttempt | src/server/services/bedrock-document.ts:105-116 | the text is the trimmed answer of at least 10 characters; missing text and short text give their own errors |
| BedrockDocument.NovaProText | src/server/services/bedrock-document.ts:59-138 | succeeds exactly when the attempt does, with its text |
| BedrockDocument.NovaShortAnswer | src/server/services/bedrock-document.ts:105-113 | missing and too short answers fail with the wrapped messages |
| BedrockDocument.NovaTextNotBlank | src/server/services/bedrock-document.ts:109-116 | extracted text is never blank |
| BedrockDocument.WindowsPartition | src/server/services/bedrock-document.ts:154-165 | the 50-page windows lie in the page range, come in order without overlap and cover every page |
| BedrockDocument.PageInOneWindow | src/server/services/bedrock-document.ts:154-165 | every page lies in exactly one window |
| BedrockDocument.KeptMembers | src/server/services/bedrock-document.ts:174-187 | a window's text is kept exactly when it succeeds and is not blank |
| BedrockDocument.CollectWindowTexts | src/server/services/bedrock-document.ts:157-188 | the loop collects exactly `KeptFrom(0, total, text)` |
| BedrockDocument.ExtractTextWithChunkedNova | src/server/services/bedrock-document.ts:140-203 | returns `ChunkedText`: the kept texts joined by blank lines, or the prefixed error |
| BedrockDocument.ChunkedOutcome | src/server/services/bedrock-document.ts:140-203 | failures carry the chunked prefix; success holds every successful window's text |
| BedrockDocument.BedrockRouting | src/server/services/bedrock-document.ts:35-57 | files of at most 3 MiB use only the whole-file call; windows matter only when a large file's whole-file call fails as too long |
| BedrockDocument.LargeTooLongIsChunked | src/server/services/bedrock-document.ts:46-56 | a large file refused for length is read window by window |
| BedrockDocument.BedrockTextNotBlank | src/server/services/bedrock-document.ts:35-57 | extracted text is never blank |
| BedrockDocument.FromAnalysis | src/server/services/bedrock-document.ts:294-305 | each field takes its `\|\|` default: empty text, false flags, no page count for 0, no sections |
| BedrockDocument.AnalyzeFallsBack | src/server/services/bedrock-document.ts:217-231 | above 10 MiB, or when the analysis answer does not parse, the result is plain extraction |
| BedrockDocument.AnalyzeErrors | src/server/services/bedrock-document.ts:287-341 | a thrown analysis falls back only when too long, else rethrows; an answer without text fails with "No analysis result returned from Nova" |
| BedrockDocument.SimpleStructureShape | src/server/services/bedrock-document.ts:222-230 | plain extraction gives non-blank text and empty metadata |
| AudioUtils.FilterSpec | src/lib/audio/audio-utils.ts:40 | a filter keeps exactly the accepted elements, in order |
| AudioUtils.SupportedMimeTypesSpec | src/lib/audio/audio-utils.ts:30-41 | the supported types are the candidates the browser accepts, in preference order |
| AudioUtils.BestIsFirstSupported | src/lib/audio/audio-utils.ts:46-60 | the best type is the first supported candidate, or WebM when none is |
| AudioUtils.FormatDurationReadsBack | src/lib/audio/audio-utils.ts:113-117 | the display is digits, a colon and two digits below 60, and reads back as the number of seconds |
| AudioUtils.ValidateAudioSize | src/lib/audio/audio-utils.ts:122-127 | passes exactly when the size is at most the limit in MiB; fails with the limit in the message |
| AudioUtils.ValidateAudioSizeMonotone | src/lib/audio/audio-utils.ts:122-127 | a smaller file under a larger limit passes too; the default limit is 10 MiB |
| AudioUtils.DetectAudioFormat | src/lib/audio/audio-utils.ts:209-218 | one of webm, mp4, wav, ogg and unknown |
| AudioUtils.DetectAudioFormatSpec | src/lib/audio/audio-utils.ts:209-218 | a named format occurs in the type and no earlier one does; unknown exactly when none occurs |
| Middleware.SessionCookie | src/middleware.ts:17-23 | none exactly when no name is present; otherwise the value of the first present name |
| Middleware.FirstCookieDecides | src/middleware.ts:17-25 | the first present cookie alone decides, so an empty one hides a valid later one |
| Middleware.ProtectedIsDashboard | src/middleware.ts:4-9 | a path is protected exactly when it starts with "/dashboard" |
| Middleware.RoutesDisjoint | src/middleware.ts:4-11 | no path is both protected and a login or signup page |
| Middleware.DecideCases | src/middleware.ts:28-44 | visitors without a session go to /login from protected pages, signed-in users to /dashboard/chat from the auth pages, and everything else passes |

## Left out

- Concurrency: `Promise.all`/`allSettled` batches run their callbacks one after another in chunk order. A fire-and-forget dispatch runs to completion right after the reply is decided (`DocumentsRouter.ProcessAndRun`, `IngestRoute.PostAndRun`), so no request can interleave with a run. The 100 ms and 200 ms delays are left out.
- Storage order: a `findMany` without `orderBy` is taken to return rows in insertion order, and its `take` cuts that order (`take: 20` in `src/server/routers/chat.ts`, `take: limit * 2` and `take: limit` in `src/lib/rag/search.ts`).
- ChatRouter.SearchNewestFirst: the `createdAt` descending order of `chat.search` is stated as descending chunk id, since chunk rows carry no `createdAt` and ids grow with insertion.
- The embedding model: `embed` depends only on the chunk text, so equal texts always share one outcome. A failing `documentChunk.create` counts as a failed embedding, as both land in the same `catch`.
- Database failures: apart from the first query of `searchDocuments` (`candidateQueryFails`), every database call succeeds.
- QueryRoute.PostStatus: the 500 for a failing fallback query in `src/lib/rag/search.ts` is not modelled, so "500 exactly when the body is not JSON or the generator fails" holds only while that query succeeds.
- Logging, `console` output and the `debug` procedure of the chat router (it only reports counts).
- Regular expressions: keyword counting treats a keyword as a literal, so metacharacters in a keyword are not modelled.
- Floating point: scores are exact integers in halves or tenths, similarities are `real`, and the display of sizes in MB is left out. Exact scores create ties that floating point breaks. In the source three technical terms add up to 0.6000000000000001 and outrank two query words at 0.6; the model scores both 6 tenths, so the stable sort keeps them in storage order.
- Unicode: `toLowerCase` is ASCII only, and `\s` is space, tab, line feed and carriage return.
- `getDocumentUrl`: only a presigned URL for an owned document. It adds nothing beyond `FindOwned`.
- Authentication: `protectedProcedure` and `auth.api.getSession` become a caller id, or `None` in the REST routes.
- DocumentService.PdfText: the double wrap of "No readable text found in PDF" into the generic prefix is in the function, but no lemma states it, because proving a string-literal non-containment was too costly.
- DocumentService.ProcessDocument: the "Document not found" branch after the PROCESSING update is followed as written. The update fails first, so that message never appears.
- ChatHistory.ChatStore.DeleteSession: the message cascade is assumed from the schema's `onDelete: Cascade`, and the Prisma schema is not part of this model.
- ChatHistory.ChatStore.UpdateSession: does not move `updatedAt`, because whether the schema uses `@updatedAt` is not known here.
- Non-`Error` throws ("Unknown error") are not modelled: every failure carries a message.
- The middleware's `matcher` config: `Decide` is stated for every path.
- AudioUtils.FormatDuration: seconds are a `nat`, so negative or fractional durations are not modelled.
- AudioUtils.ValidateAudioSize: the limit is a whole number of MiB.
- The browser-only helpers of `src/lib/audio/audio-utils.ts` touch only browser APIs and compute nothing to prove: `isRecordingSupported`, `requestMicrophonePermission`, `blobToBase64`, `createMediaRecorder`, `stopMediaStream`, `createAudioAnalyzer`.
- The Bedrock client configuration and the request payloads sent to Nova are left out.
- The PDF library: the page count and the page copies are parameters.
- BedrockDocument.AnalyzeDocumentStructure: a repeated whole-file call gets the same answer, since `nova` is a function.
- Processing.ProcessDocument: Textract's request is left out; its answer is a field of the downloaded file.
- Chunking.ChunkText: `maxTokens` must be positive. With `maxTokens` 0 and a non-negative overlap the source's loop never ends on a non-empty text. With a negative `maxTokens` the windows run backwards; neither case is modelled.

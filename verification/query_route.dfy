/** `POST /api/chat/query`: the REST question-answering route. It checks the
    session, validates the body, retrieves five chunks, asks the generator
    and returns the answer with shortened sources. */
module QueryRoute {
  import opened Wrappers
  import opened Text
  import opened Store
  import opened Schemas
  import opened RagSearch

  const NoResultsAnswer: string :=
    "I couldn't find any relevant information in your uploaded documents. Please try rephrasing your question or upload more documents."
  const UnauthorizedError: string := "Unauthorized"
  const InvalidQuestionError: string := "Invalid question format"
  const FailedError: string := "Failed to process question"
  /** The route asks the search for five chunks. */
  const SearchLimit: nat := 5
  /** Source texts are cut to this many characters, then "..." is added. */
  const PreviewLength: nat := 200

  /** The request body: not JSON at all, or a JSON value whose `question`
      field is a string (`Some`) or is missing or not a string (`None`). */
  datatype RequestBody = NotJson | Json(question: Option<string>)

  datatype RouteSource = RouteSource(documentId: string, documentTitle: string, chunkText: string, similarity: real)

  datatype Body =
    | ErrorBody(error: string)
    | AnswerBody(answer: string, sources: seq<RouteSource>, question: string)

  datatype Response = Response(status: nat, body: Body)

  /** `text.slice(0, 200) + "..."`. */
  function Preview(text: string): string {
    Take(text, PreviewLength) + "..."
  }

  function RouteSources(results: seq<SearchResult>): (r: seq<RouteSource>)
    ensures |r| == |results|
    ensures forall i :: 0 <= i < |results| ==>
      r[i] == RouteSource(results[i].documentId, results[i].documentTitle, Preview(results[i].chunkText), results[i].similarity)
    decreases |results|
  {
    if results == [] then []
    else
      [RouteSource(results[0].documentId, results[0].documentTitle, Preview(results[0].chunkText), results[0].similarity)]
      + RouteSources(results[1..])
  }

  /** The zod check: a question of 1 to 1000 characters. */
  predicate ValidQuestion(question: Option<string>) {
    question.Some? && LengthWithin(question.value, 1, 1000)
  }

  /** The route. `session` is the signed-in user's id, if any;
      `candidateQueryFails` is passed on to the search; `generate` stands
      for the answer generator, which may fail. A body that is not JSON
      makes `request.json()` throw an error that is not a zod error. */
  function Post(session: Option<string>, body: RequestBody, documents: seq<Document>, chunks: seq<ChunkRow>,
                candidateQueryFails: bool, generate: (string, string) -> Result<string>): Response
  {
    if session.None? then Response(401, ErrorBody(UnauthorizedError))
    else if body.NotJson? then Response(500, ErrorBody(FailedError))
    else if !ValidQuestion(body.question) then Response(400, ErrorBody(InvalidQuestionError))
    else
      var question := body.question.value;
      var results := SearchDocuments(documents, chunks, session.value, question, SearchLimit, candidateQueryFails);
      if results == [] then Response(200, AnswerBody(NoResultsAnswer, [], question))
      else
        match generate(question, FormatContextForLLM(results))
        case Err(_) => Response(500, ErrorBody(FailedError))
        case Ok(answer) => Response(200, AnswerBody(answer, RouteSources(results), question))
  }

  // ------------------------------------------------------------------ lemmas

  /** The search found something and the generator failed on it. */
  predicate GeneratorFails(userId: string, question: string, documents: seq<Document>, chunks: seq<ChunkRow>,
                           candidateQueryFails: bool, generate: (string, string) -> Result<string>)
  {
    var results := SearchDocuments(documents, chunks, userId, question, SearchLimit, candidateQueryFails);
    results != [] && generate(question, FormatContextForLLM(results)).Err?
  }

  /** A preview is the first 200 characters of the text followed by "...":
      never longer than 203 characters, and the text itself, dots added,
      when it is short enough. */
  lemma PreviewShape(text: string)
    ensures |Preview(text)| == Min(PreviewLength, |text|) + 3
    ensures EndsWith(Preview(text), "...")
    ensures StartsWith(text, Preview(text)[..|Preview(text)| - 3])
    ensures |text| <= PreviewLength ==> Preview(text) == text + "..."
  {
    var p := Preview(text);
    assert p[..|p| - 3] == Take(text, PreviewLength);
    assert p[|p| - 3..] == "...";
  }

  /** The status is decided in this order: no session 401, a body that is
      not JSON 500, a bad question 400, a failing generator 500, else 200. */
  lemma PostStatus(session: Option<string>, body: RequestBody, documents: seq<Document>, chunks: seq<ChunkRow>,
                   candidateQueryFails: bool, generate: (string, string) -> Result<string>)
    ensures var r := Post(session, body, documents, chunks, candidateQueryFails, generate);
      && (r.status == 401 <==> session.None?)
      && (r.status == 400 <==> session.Some? && body.Json? && !ValidQuestion(body.question))
      && (r.status == 500 <==>
            session.Some? && (body.NotJson? || (ValidQuestion(body.question) && GeneratorFails(session.value, body.question.value,
              documents, chunks, candidateQueryFails, generate))))
      && (r.status in {200, 400, 401, 500})
      && (r.status == 200 <==> r.body.AnswerBody?)
  {
  }

  /** A successful reply without sources carries the fixed answer, and
      happens exactly when the search finds nothing. */
  lemma PostEmptyIff(userId: string, question: string, documents: seq<Document>, chunks: seq<ChunkRow>,
                     candidateQueryFails: bool, generate: (string, string) -> Result<string>)
    requires LengthWithin(question, 1, 1000)
    ensures var r := Post(Some(userId), Json(Some(question)), documents, chunks, candidateQueryFails, generate);
      (r.status == 200 && r.body.sources == []) <==>
        SearchDocuments(documents, chunks, userId, question, SearchLimit, candidateQueryFails) == []
    ensures var r := Post(Some(userId), Json(Some(question)), documents, chunks, candidateQueryFails, generate);
      r.status == 200 && r.body.sources == [] ==> r.body == AnswerBody(NoResultsAnswer, [], question)
  {
  }

  /** A reply with sources cites exactly the search results. */
  lemma PostReply(userId: string, question: string, documents: seq<Document>, chunks: seq<ChunkRow>,
                  candidateQueryFails: bool, generate: (string, string) -> Result<string>)
    ensures var r := Post(Some(userId), Json(Some(question)), documents, chunks, candidateQueryFails, generate);
      r.status == 200 && r.body.sources != [] ==>
        r.body.sources == RouteSources(SearchDocuments(documents, chunks, userId, question, SearchLimit, candidateQueryFails))
  {
  }

  lemma PreviewsOwned(results: seq<SearchResult>, documents: seq<Document>, chunks: seq<ChunkRow>, userId: string)
    requires forall x :: x in results ==> exists row ::
      row in chunks && OwnedBy(documents, userId, row) && x.documentId == row.documentId && x.chunkText == row.chunkText
    ensures forall s :: s in RouteSources(results) ==> exists row ::
      row in chunks && OwnedBy(documents, userId, row) && s.documentId == row.documentId && s.chunkText == Preview(row.chunkText)
  {
    forall s | s in RouteSources(results)
      ensures exists row ::
        row in chunks && OwnedBy(documents, userId, row) && s.documentId == row.documentId && s.chunkText == Preview(row.chunkText)
    {
      var i :| 0 <= i < |results| && RouteSources(results)[i] == s;
      assert results[i] in results;
    }
  }

  /** A successful reply cites at most five sources, each a preview of a
      stored chunk of a document the caller uploaded. */
  lemma PostSourcesOwned(userId: string, question: string, documents: seq<Document>, chunks: seq<ChunkRow>,
                         candidateQueryFails: bool, generate: (string, string) -> Result<string>)
    ensures var r := Post(Some(userId), Json(Some(question)), documents, chunks, candidateQueryFails, generate);
      r.status == 200 ==>
        && |r.body.sources| <= SearchLimit
        && forall s :: s in r.body.sources ==> exists row ::
             && row in chunks && OwnedBy(documents, userId, row)
             && s.documentId == row.documentId && s.chunkText == Preview(row.chunkText)
  {
    var results := SearchDocuments(documents, chunks, userId, question, SearchLimit, candidateQueryFails);
    SearchDocumentsShape(documents, chunks, userId, question, SearchLimit, candidateQueryFails);
    PostReply(userId, question, documents, chunks, candidateQueryFails, generate);
    PreviewsOwned(results, documents, chunks, userId);
  }
}

/** The tRPC chat router's `query` and `search` procedures: keyword retrieval
    over the caller's completed documents, a relevance score per chunk, the
    top five handed to the answer generator, and a plain newest-first text
    search.

    Scores are kept in halves (twice the JavaScript `relevanceScore`), so the
    `score *= 0.5` penalty stays an integer. */
module ChatRouter {
  import opened Wrappers
  import opened Text
  import opened Store
  import opened Ranking
  import opened Schemas
  import opened Chunking

  const NoInfoAnswer: string := "I couldn't find any relevant information in your documents to answer this question."
  /** `take: 20` on the candidate query. */
  const CandidateLimit: nat := 20
  /** `.slice(0, 5)` on the ranked chunks. */
  const TopLimit: nat := 5
  /** Chunks shorter than this many characters have their score halved. */
  const ShortChunk: nat := 50
  /** `limit` when the search input leaves it out. */
  const DefaultSearchLimit: int := 5

  datatype QueryInput = QueryInput(question: string, documentIds: Option<seq<string>>)

  datatype Source = Source(
    id: nat,
    documentId: string,
    documentTitle: string,
    chunkText: string,
    similarity: real,
    metadata: ChunkMetadata)

  datatype QueryResponse = QueryResponse(answer: string, sources: seq<Source>, query: string)

  datatype SearchInput = SearchInput(query: string, limit: Option<int>, documentIds: Option<seq<string>>)

  datatype SearchHit = SearchHit(
    id: nat,
    documentId: string,
    documentTitle: string,
    chunkText: string,
    metadata: ChunkMetadata)

  datatype SearchResponse = SearchResponse(results: seq<SearchHit>, query: string, count: nat)

  // ------------------------------------------------------------------ input

  /** `querySchema`: a question of 1 to 1000 characters and cuid document ids. */
  predicate ValidQuery(input: QueryInput) {
    && LengthWithin(input.question, 1, 1000)
    && (input.documentIds.Some? ==> AllCuids(input.documentIds.value))
  }

  /** `searchSchema`: a query of 1 to 500 characters, a limit from 1 to 20
      when one is given, and cuid document ids. */
  predicate ValidSearch(input: SearchInput) {
    && LengthWithin(input.query, 1, 500)
    && (input.limit.Some? ==> 1 <= input.limit.value <= 20)
    && (input.documentIds.Some? ==> AllCuids(input.documentIds.value))
  }

  /** The words longer than two characters, in order. */
  function LongWords(words: seq<string>): (r: seq<string>)
    ensures forall w :: w in r <==> w in words && |w| > 2
    decreases |words|
  {
    if words == [] then []
    else (if |words[0]| > 2 then [words[0]] else []) + LongWords(words[1..])
  }

  /** `question.toLowerCase().split(/\s+/).filter(word => word.length > 2)`. */
  function Keywords(question: string): (r: seq<string>)
    ensures forall w :: w in r ==> |w| > 2 && Lower(w) == w && !HasSpace(w)
  {
    LowerIdempotent(question);
    WordsKeepCase(Lower(question));
    LongWords(Words(Lower(question)))
  }

  // ------------------------------------------------------------------ candidates

  /** The `where` clause shared by both procedures: the chunk's document
      exists, belongs to the caller and is COMPLETED, and, when a non-empty
      list of document ids is given, is one of them. */
  predicate InScope(documents: seq<Document>, userId: string, documentIds: Option<seq<string>>, row: ChunkRow) {
    match FindDocument(documents, row.documentId)
    case None => false
    case Some(d) =>
      && d.uploaderId == userId
      && d.status == COMPLETED
      && (documentIds.Some? && |documentIds.value| > 0 ==> row.documentId in documentIds.value)
  }

  /** The `OR` of the candidate query: the whole question or one of the
      keywords occurs in the text, ignoring case. */
  predicate Mentions(text: string, question: string, keywords: seq<string>) {
    ContainsCI(text, question) || exists k :: k in keywords && ContainsCI(text, k)
  }

  /** Every chunk the candidate query matches, in storage order, joined with
      its document's title. */
  function Candidates(documents: seq<Document>, rows: seq<ChunkRow>, userId: string,
                      documentIds: Option<seq<string>>, question: string, keywords: seq<string>): (r: seq<Candidate>)
    ensures |r| <= |rows|
    ensures forall c :: c in r <==>
      && c.row in rows
      && InScope(documents, userId, documentIds, c.row)
      && Mentions(c.row.chunkText, question, keywords)
      && c.title == TitleOf(documents, c.row)
    decreases |rows|
  {
    if rows == [] then []
    else
      var row := rows[0];
      (if InScope(documents, userId, documentIds, row) && Mentions(row.chunkText, question, keywords)
       then [Candidate(row, TitleOf(documents, row))] else [])
      + Candidates(documents, rows[1..], userId, documentIds, question, keywords)
  }

  // ------------------------------------------------------------------ scoring

  /** Total number of matches of the keywords in `text`. */
  function KeywordHits(text: string, keywords: seq<string>): nat
    decreases |keywords|
  {
    if keywords == [] then 0
    else KeywordHits(text, keywords[..|keywords| - 1]) + CountMatches(text, keywords[|keywords| - 1])
  }

  /** The relevance score of a chunk, in halves: 10 for the whole question,
      2 per keyword match, halved for a chunk under 50 characters. */
  function Score(chunkText: string, question: string, keywords: seq<string>): int {
    var text := Lower(chunkText);
    var raw := (if Contains(text, Lower(question)) then 10 else 0) + 2 * KeywordHits(text, keywords);
    if |chunkText| < ShortChunk then raw else 2 * raw
  }

  /** The scoring callback of the `.map`, with its `forEach` over the
      keywords. */
  method ScoreChunk(chunkText: string, question: string, keywords: seq<string>) returns (halves: int)
    ensures halves == Score(chunkText, question, keywords)
  {
    var text := Lower(chunkText);
    var questionLower := Lower(question);
    var score := 0;
    if Contains(text, questionLower) {
      score := score + 10;
    }
    var i := 0;
    while i < |keywords|
      invariant 0 <= i <= |keywords|
      invariant score == (if Contains(text, questionLower) then 10 else 0) + 2 * KeywordHits(text, keywords[..i])
    {
      assert keywords[..i + 1][..i] == keywords[..i];
      score := score + CountMatches(text, keywords[i]) * 2;
      i := i + 1;
    }
    assert keywords[..i] == keywords;
    if |chunkText| < ShortChunk {
      halves := score;
    } else {
      halves := 2 * score;
    }
  }

  /** The candidates with their scores, in candidate order. */
  function Ranked(candidates: seq<Candidate>, question: string, keywords: seq<string>): (r: seq<Scored<Candidate>>)
    ensures |r| == |candidates|
    ensures forall i :: 0 <= i < |r| ==>
      r[i] == Scored(candidates[i], Score(candidates[i].row.chunkText, question, keywords))
    decreases |candidates|
  {
    if candidates == [] then []
    else [Scored(candidates[0], Score(candidates[0].row.chunkText, question, keywords))]
         + Ranked(candidates[1..], question, keywords)
  }

  // ------------------------------------------------------------------ answer

  /** `Source ${n} (from ${title}):\n${text}`. */
  function Entry(n: nat, title: string, text: string): string {
    "Source " + NatToString(n) + " (from " + title + "):\n" + text
  }

  function Entries(top: seq<Scored<Candidate>>, first: nat): (r: seq<string>)
    ensures |r| == |top|
    ensures forall i :: 0 <= i < |top| ==>
      r[i] == Entry(first + i + 1, top[i].item.title, top[i].item.row.chunkText)
    decreases |top|
  {
    if top == [] then []
    else [Entry(first + 1, top[0].item.title, top[0].item.row.chunkText)] + Entries(top[1..], first + 1)
  }

  /** The numbered sources separated by blank lines, as the generator sees them. */
  function Context(top: seq<Scored<Candidate>>): string {
    Join(Entries(top, 0), "\n\n")
  }

  /** `relevanceScore / 100`, from a score in halves. */
  function Similarity(halves: int): real {
    halves as real / 200.0
  }

  function Sources(top: seq<Scored<Candidate>>): (r: seq<Source>)
    ensures |r| == |top|
    ensures forall i :: 0 <= i < |top| ==>
      var c := top[i].item;
      r[i] == Source(c.row.id, c.row.documentId, c.title, c.row.chunkText, Similarity(top[i].score), c.row.metadata)
    decreases |top|
  {
    if top == [] then []
    else
      var c := top[0].item;
      [Source(c.row.id, c.row.documentId, c.title, c.row.chunkText, Similarity(top[0].score), c.row.metadata)]
      + Sources(top[1..])
  }

  /** The candidate query: at most 20 matching chunks. */
  function QueryCandidates(documents: seq<Document>, chunks: seq<ChunkRow>, userId: string, input: QueryInput): seq<Candidate> {
    Take(Candidates(documents, chunks, userId, input.documentIds, input.question, Keywords(input.question)), CandidateLimit)
  }

  /** The chunks that reach the answer generator: the five best candidates. */
  function TopChunks(candidates: seq<Candidate>, question: string): seq<Scored<Candidate>> {
    Top(Ranked(candidates, question, Keywords(question)), TopLimit)
  }

  function NoInfo(question: string): QueryResponse {
    QueryResponse(NoInfoAnswer, [], question)
  }

  /** From the top chunks to the reply: the generator is asked only when
      there is something to cite. */
  function Answer(question: string, top: seq<Scored<Candidate>>, generate: (string, string) -> Result<string>): Result<QueryResponse> {
    if top == [] then Ok(NoInfo(question))
    else
      match generate(question, Context(top))
      case Err(m) => Err(m)
      case Ok(answer) => Ok(QueryResponse(answer, Sources(top), question))
  }

  /** The `query` mutation. `generate` stands for the answer generator, which
      may fail. */
  function Query(documents: seq<Document>, chunks: seq<ChunkRow>, userId: string, input: QueryInput,
                 generate: (string, string) -> Result<string>): Result<QueryResponse>
  {
    if !ValidQuery(input) then Err(BadRequest)
    else
      var candidates := QueryCandidates(documents, chunks, userId, input);
      if candidates == [] then Ok(NoInfo(input.question))
      else Answer(input.question, TopChunks(candidates, input.question), generate)
  }

  // ------------------------------------------------------------------ search

  function Reverse<T>(s: seq<T>): (r: seq<T>)
    ensures |r| == |s|
    ensures forall i :: 0 <= i < |s| ==> r[i] == s[|s| - 1 - i]
    decreases |s|
  {
    if s == [] then [] else Reverse(s[1..]) + [s[0]]
  }

  /** The chunks in scope whose text holds the query, ignoring case, in
      storage order. */
  function SearchMatches(documents: seq<Document>, rows: seq<ChunkRow>, userId: string,
                         documentIds: Option<seq<string>>, query: string): (r: seq<ChunkRow>)
    ensures forall c :: c in r <==> c in rows && InScope(documents, userId, documentIds, c) && ContainsCI(c.chunkText, query)
    decreases |rows|
  {
    if rows == [] then []
    else
      (if InScope(documents, userId, documentIds, rows[0]) && ContainsCI(rows[0].chunkText, query) then [rows[0]] else [])
      + SearchMatches(documents, rows[1..], userId, documentIds, query)
  }

  function Hit(documents: seq<Document>, row: ChunkRow): SearchHit {
    SearchHit(row.id, row.documentId, TitleOf(documents, row), row.chunkText, row.metadata)
  }

  function Hits(documents: seq<Document>, rows: seq<ChunkRow>): (r: seq<SearchHit>)
    ensures |r| == |rows|
    ensures forall i :: 0 <= i < |rows| ==> r[i] == Hit(documents, rows[i])
    decreases |rows|
  {
    if rows == [] then [] else [Hit(documents, rows[0])] + Hits(documents, rows[1..])
  }

  /** The `search` query: the `limit` newest matching chunks, newest first. */
  function Search(documents: seq<Document>, chunks: seq<ChunkRow>, userId: string, input: SearchInput): Result<SearchResponse> {
    if !ValidSearch(input) then Err(BadRequest)
    else
      var limit := input.limit.GetOr(DefaultSearchLimit);
      var rows := Take(Reverse(SearchMatches(documents, chunks, userId, input.documentIds, input.query)), limit as nat);
      Ok(SearchResponse(Hits(documents, rows), input.query, |rows|))
  }

  // ------------------------------------------------------------------ lemmas

  lemma {:induction false} KeywordHitsPositive(text: string, keywords: seq<string>)
    ensures KeywordHits(text, keywords) > 0 <==> exists k :: k in keywords && Contains(text, k)
    decreases |keywords|
  {
    if keywords != [] {
      var init := keywords[..|keywords| - 1];
      var last := keywords[|keywords| - 1];
      KeywordHitsPositive(text, init);
      CountMatchesPositive(text, last);
      assert keywords == init + [last];
    }
  }

  /** A chunk scores above zero exactly when it holds the whole question or
      one of the keywords, ignoring case; no score is negative. */
  lemma ScorePositive(chunkText: string, question: string, keywords: seq<string>)
    ensures Score(chunkText, question, keywords) >= 0
    ensures Score(chunkText, question, keywords) > 0 <==>
      Contains(Lower(chunkText), Lower(question)) || exists k :: k in keywords && Contains(Lower(chunkText), k)
  {
    KeywordHitsPositive(Lower(chunkText), keywords);
  }

  /** Every chunk the candidate query returns scores above zero, so the
      positivity filter before the ranking never drops a candidate. */
  lemma CandidatesScorePositive(documents: seq<Document>, rows: seq<ChunkRow>, userId: string,
                                documentIds: Option<seq<string>>, question: string)
    ensures forall c :: c in Candidates(documents, rows, userId, documentIds, question, Keywords(question)) ==>
      Score(c.row.chunkText, question, Keywords(question)) > 0
  {
    var keywords := Keywords(question);
    forall c | c in Candidates(documents, rows, userId, documentIds, question, keywords)
      ensures Score(c.row.chunkText, question, keywords) > 0
    {
      ScorePositive(c.row.chunkText, question, keywords);
      if !ContainsCI(c.row.chunkText, question) {
        var k :| k in keywords && ContainsCI(c.row.chunkText, k);
        assert Contains(Lower(c.row.chunkText), k);
      }
    }
  }

  lemma TakeMembers<T>(s: seq<T>, n: nat)
    ensures forall x :: x in Take(s, n) ==> x in s
  {
  }

  /** With all candidate scores positive, the top list is the first five of
      the stably sorted candidates: there are min(5, n) of them for n
      candidates. */
  lemma TopOfCandidates(documents: seq<Document>, chunks: seq<ChunkRow>, userId: string, input: QueryInput)
    ensures var all := Candidates(documents, chunks, userId, input.documentIds, input.question, Keywords(input.question));
      |QueryCandidates(documents, chunks, userId, input)| == Min(CandidateLimit, |all|)
    ensures var candidates := QueryCandidates(documents, chunks, userId, input);
      |TopChunks(candidates, input.question)| == Min(TopLimit, |candidates|)
  {
    var keywords := Keywords(input.question);
    var all := Candidates(documents, chunks, userId, input.documentIds, input.question, keywords);
    var candidates := QueryCandidates(documents, chunks, userId, input);
    var ranked := Ranked(candidates, input.question, keywords);
    CandidatesScorePositive(documents, chunks, userId, input.documentIds, input.question);
    TakeMembers(all, CandidateLimit);
    forall i | 0 <= i < |ranked|
      ensures ranked[i].score > 0
    {
      assert candidates[i] in all;
    }
    PositiveAll(ranked);
  }

  /** Every top chunk is one of the candidates. */
  lemma TopFromCandidates(candidates: seq<Candidate>, question: string)
    ensures forall x :: x in TopChunks(candidates, question) ==> x.item in candidates
  {
    var ranked := Ranked(candidates, question, Keywords(question));
    TopFromInput(ranked, TopLimit);
    forall x | x in TopChunks(candidates, question)
      ensures x.item in candidates
    {
      assert x in multiset(ranked);
      var j :| 0 <= j < |ranked| && ranked[j] == x;
    }
  }

  /** The reply holds no sources and the fixed answer when there is nothing
      to cite, and cites exactly the top chunks otherwise. */
  lemma AnswerShape(question: string, top: seq<Scored<Candidate>>, generate: (string, string) -> Result<string>)
    ensures top == [] ==> Answer(question, top, generate) == Ok(NoInfo(question))
    ensures top != [] ==> match Answer(question, top, generate)
      case Ok(reply) => reply.sources == Sources(top) && reply.query == question
                        && generate(question, Context(top)) == Ok(reply.answer)
      case Err(m) => generate(question, Context(top)) == Err(m)
  {
  }

  /** A valid question is answered from its candidates. */
  lemma QueryValid(documents: seq<Document>, chunks: seq<ChunkRow>, userId: string, input: QueryInput,
                   generate: (string, string) -> Result<string>)
    requires ValidQuery(input)
    ensures var candidates := QueryCandidates(documents, chunks, userId, input);
      Query(documents, chunks, userId, input, generate) ==
        if candidates == [] then Ok(NoInfo(input.question))
        else Answer(input.question, TopChunks(candidates, input.question), generate)
  {
  }

  /** A valid question gets the fixed "nothing found" reply, with no
      sources, exactly when no chunk in scope mentions it; otherwise the
      reply cites min(5, n) chunks of the n that do. */
  lemma QueryEmptyIff(documents: seq<Document>, chunks: seq<ChunkRow>, userId: string, input: QueryInput,
                      generate: (string, string) -> Result<string>)
    requires ValidQuery(input)
    ensures var r := Query(documents, chunks, userId, input, generate);
      (r.Ok? && r.value.sources == []) <==>
        Candidates(documents, chunks, userId, input.documentIds, input.question, Keywords(input.question)) == []
    ensures var r := Query(documents, chunks, userId, input, generate);
      r.Ok? && r.value.sources == [] ==> r.value == NoInfo(input.question)
    ensures var r := Query(documents, chunks, userId, input, generate);
      r.Ok? && r.value.sources != [] ==>
        |r.value.sources| == Min(TopLimit, |Candidates(documents, chunks, userId, input.documentIds, input.question, Keywords(input.question))|)
  {
    var candidates := QueryCandidates(documents, chunks, userId, input);
    QueryValid(documents, chunks, userId, input, generate);
    TopOfCandidates(documents, chunks, userId, input);
    var top := TopChunks(candidates, input.question);
    AnswerShape(input.question, top, generate);
  }

  /** An invalid question is refused; a valid one fails only when the answer
      generator fails on a non-empty context, and then with its message. */
  lemma QueryFailsOnlyInGenerator(documents: seq<Document>, chunks: seq<ChunkRow>, userId: string, input: QueryInput,
                                  generate: (string, string) -> Result<string>)
    ensures !ValidQuery(input) ==> Query(documents, chunks, userId, input, generate) == Err(BadRequest)
    ensures ValidQuery(input) && Query(documents, chunks, userId, input, generate).Err? ==>
      var top := TopChunks(QueryCandidates(documents, chunks, userId, input), input.question);
      && top != []
      && generate(input.question, Context(top)) == Err(Query(documents, chunks, userId, input, generate).message)
  {
    if ValidQuery(input) {
      var candidates := QueryCandidates(documents, chunks, userId, input);
      AnswerShape(input.question, TopChunks(candidates, input.question), generate);
    }
  }

  /** A reply's sources are either none or the top chunks. */
  lemma QuerySources(documents: seq<Document>, chunks: seq<ChunkRow>, userId: string, input: QueryInput,
                     generate: (string, string) -> Result<string>)
    ensures var r := Query(documents, chunks, userId, input, generate);
      r.Ok? ==> (r.value.sources == [] ||
        r.value.sources == Sources(TopChunks(QueryCandidates(documents, chunks, userId, input), input.question)))
  {
    if ValidQuery(input) {
      var candidates := QueryCandidates(documents, chunks, userId, input);
      AnswerShape(input.question, TopChunks(candidates, input.question), generate);
    }
  }

  /** Every top chunk is a stored chunk in scope that mentions the question. */
  lemma TopInScope(documents: seq<Document>, chunks: seq<ChunkRow>, userId: string, input: QueryInput)
    ensures forall x :: x in TopChunks(QueryCandidates(documents, chunks, userId, input), input.question) ==>
      && x.item.row in chunks
      && x.item.title == TitleOf(documents, x.item.row)
      && InScope(documents, userId, input.documentIds, x.item.row)
      && Mentions(x.item.row.chunkText, input.question, Keywords(input.question))
  {
    var all := Candidates(documents, chunks, userId, input.documentIds, input.question, Keywords(input.question));
    var candidates := QueryCandidates(documents, chunks, userId, input);
    TopFromCandidates(candidates, input.question);
    TakeMembers(all, CandidateLimit);
  }

  /** Every cited source is a stored chunk of a COMPLETED document the
      caller uploaded (one of the requested documents when a list is given)
      that mentions the question, with its own title. */
  lemma QuerySourcesInScope(documents: seq<Document>, chunks: seq<ChunkRow>, userId: string, input: QueryInput,
                            generate: (string, string) -> Result<string>)
    ensures var r := Query(documents, chunks, userId, input, generate);
      r.Ok? ==> forall s :: s in r.value.sources ==> exists row ::
        && row in chunks
        && s.id == row.id && s.documentId == row.documentId && s.chunkText == row.chunkText
        && s.documentTitle == TitleOf(documents, row)
        && InScope(documents, userId, input.documentIds, row)
        && Mentions(row.chunkText, input.question, Keywords(input.question))
  {
    var r := Query(documents, chunks, userId, input, generate);
    QuerySources(documents, chunks, userId, input, generate);
    if r.Ok? && r.value.sources != [] {
      var top := TopChunks(QueryCandidates(documents, chunks, userId, input), input.question);
      TopInScope(documents, chunks, userId, input);
      forall s | s in r.value.sources
        ensures exists row ::
          && row in chunks
          && s.id == row.id && s.documentId == row.documentId && s.chunkText == row.chunkText
          && s.documentTitle == TitleOf(documents, row)
          && InScope(documents, userId, input.documentIds, row)
          && Mentions(row.chunkText, input.question, Keywords(input.question))
      {
        var i :| 0 <= i < |top| && Sources(top)[i] == s;
        var x := top[i];
        assert x in top;
        var row := x.item.row;
        assert s == Source(row.id, row.documentId, x.item.title, row.chunkText, Similarity(x.score), row.metadata);
      }
    }
  }

  /** The top chunks are at most five, best first, all scoring above zero. */
  lemma TopChunksRanked(candidates: seq<Candidate>, question: string)
    ensures |TopChunks(candidates, question)| <= TopLimit
    ensures Descending(TopChunks(candidates, question))
    ensures forall i :: 0 <= i < |TopChunks(candidates, question)| ==> TopChunks(candidates, question)[i].score > 0
  {
    TopOrdered(Ranked(candidates, question, Keywords(question)), TopLimit);
  }

  /** Sources made from a ranked list keep its order, with similarities
      above zero. */
  lemma SourcesRanked(top: seq<Scored<Candidate>>)
    requires Descending(top)
    requires forall i :: 0 <= i < |top| ==> top[i].score > 0
    ensures forall i :: 0 <= i < |Sources(top)| ==> Sources(top)[i].similarity > 0.0
    ensures forall i, j :: 0 <= i < j < |Sources(top)| ==> Sources(top)[i].similarity >= Sources(top)[j].similarity
  {
  }

  /** The sources are at most five, best first, each with a similarity
      above zero. */
  lemma QuerySourcesRanked(documents: seq<Document>, chunks: seq<ChunkRow>, userId: string, input: QueryInput,
                           generate: (string, string) -> Result<string>)
    ensures var r := Query(documents, chunks, userId, input, generate);
      r.Ok? ==>
        && |r.value.sources| <= TopLimit
        && (forall i :: 0 <= i < |r.value.sources| ==> r.value.sources[i].similarity > 0.0)
        && (forall i, j :: 0 <= i < j < |r.value.sources| ==> r.value.sources[i].similarity >= r.value.sources[j].similarity)
  {
    var top := TopChunks(QueryCandidates(documents, chunks, userId, input), input.question);
    TopChunksRanked(QueryCandidates(documents, chunks, userId, input), input.question);
    SourcesRanked(top);
    QuerySources(documents, chunks, userId, input, generate);
  }

  /** The context handed to the generator holds every top chunk, under its
      numbered "Source n (from title):" heading. */
  lemma ContextCitesSources(top: seq<Scored<Candidate>>, i: nat)
    requires i < |top|
    ensures Contains(Context(top), Entry(i + 1, top[i].item.title, top[i].item.row.chunkText))
    ensures Contains(Context(top), top[i].item.row.chunkText)
  {
    var entries := Entries(top, 0);
    JoinContains(entries, "\n\n", i);
    JoinInfix(entries, "\n\n", i);
    var x, y :| Context(top) == x + entries[i] + y;
    var head := "Source " + NatToString(i + 1) + " (from " + top[i].item.title + "):\n";
    assert Context(top) == (x + head) + top[i].item.row.chunkText + y;
    ContainsInfix(x + head, top[i].item.row.chunkText, y);
  }

  lemma {:induction false} SearchMatchesIncreasing(documents: seq<Document>, rows: seq<ChunkRow>, userId: string,
                                                   documentIds: Option<seq<string>>, query: string)
    requires IdsIncreasing(rows)
    ensures IdsIncreasing(SearchMatches(documents, rows, userId, documentIds, query))
    decreases |rows|
  {
    if rows != [] {
      SearchMatchesIncreasing(documents, rows[1..], userId, documentIds, query);
      forall c | c in SearchMatches(documents, rows[1..], userId, documentIds, query)
        ensures rows[0].id < c.id
      {
        var j :| 0 <= j < |rows[1..]| && rows[1..][j] == c;
        assert rows[j + 1] == c;
      }
    }
  }

  /** A valid search returns `count` hits, at most `limit` (5 by default),
      each a stored chunk of a COMPLETED document of the caller that holds
      the query; when fewer chunks match than the limit, all of them. */
  lemma SearchShape(documents: seq<Document>, chunks: seq<ChunkRow>, userId: string, input: SearchInput)
    requires ValidSearch(input)
    ensures var r := Search(documents, chunks, userId, input);
      && r.Ok?
      && r.value.count == |r.value.results| <= input.limit.GetOr(DefaultSearchLimit)
      && r.value.query == input.query
      && |r.value.results| == Min(input.limit.GetOr(DefaultSearchLimit), |SearchMatches(documents, chunks, userId, input.documentIds, input.query)|)
      && forall h :: h in r.value.results ==> exists row ::
           && row in chunks && h == Hit(documents, row)
           && InScope(documents, userId, input.documentIds, row) && ContainsCI(row.chunkText, input.query)
  {
    var matches := SearchMatches(documents, chunks, userId, input.documentIds, input.query);
    var limit := input.limit.GetOr(DefaultSearchLimit);
    var rows := Take(Reverse(matches), limit as nat);
    var r := Search(documents, chunks, userId, input);
    forall h | h in r.value.results
      ensures exists row ::
        && row in chunks && h == Hit(documents, row)
        && InScope(documents, userId, input.documentIds, row) && ContainsCI(row.chunkText, input.query)
    {
      var i :| 0 <= i < |rows| && Hits(documents, rows)[i] == h;
      assert rows[i] == matches[|matches| - 1 - i];
      assert rows[i] in matches;
    }
  }

  /** With chunk ids growing in storage order, as the store keeps them, the
      hits come newest first. */
  lemma SearchNewestFirst(documents: seq<Document>, chunks: seq<ChunkRow>, userId: string, input: SearchInput)
    requires IdsIncreasing(chunks)
    ensures var r := Search(documents, chunks, userId, input);
      r.Ok? ==> forall i, j :: 0 <= i < j < |r.value.results| ==> r.value.results[i].id > r.value.results[j].id
  {
    SearchMatchesIncreasing(documents, chunks, userId, input.documentIds, input.query);
  }
}

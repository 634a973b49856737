/** `searchDocuments` and `formatContextForLLM`: the retrieval step of the
    REST chat route. Candidates are the caller's chunks that mention the
    query or one of its space-separated words; each is scored, the positive
    ones are ranked best first and the first `limit` are returned. When the
    candidate query throws, a plain phrase search with a fixed similarity
    is used instead.

    Scores are kept in tenths (ten times the JavaScript `relevanceScore`). */
module RagSearch {
  import opened Wrappers
  import opened Text
  import opened Store
  import opened Ranking
  import opened Chunking

  /** The manufacturing terms that add 0.2 each. */
  const TechnicalTerms: seq<string> :=
    ["maintenance", "repair", "troubleshoot", "error", "warning", "procedure", "step", "instruction"]
  /** `limit` when the caller leaves it out. */
  const DefaultLimit: nat := 5

  datatype SearchResult = SearchResult(
    chunkId: nat,
    documentId: string,
    documentTitle: string,
    chunkText: string,
    similarity: real,
    metadata: ChunkMetadata)

  /** `document: { uploaderId: userId }`: the chunk's document exists and
      belongs to the caller, whatever its status. */
  predicate OwnedBy(documents: seq<Document>, userId: string, row: ChunkRow) {
    match FindDocument(documents, row.documentId)
    case None => false
    case Some(d) => d.uploaderId == userId
  }

  /** The `OR` of the candidate query: the query, or one of the pieces of
      `query.split(" ")`, occurs in the text, ignoring case. */
  predicate Matches(text: string, query: string) {
    ContainsCI(text, query) || exists w :: w in SplitOn(query, ' ') && ContainsCI(text, w)
  }

  /** Every chunk the candidate query matches, in storage order. */
  function Candidates(documents: seq<Document>, rows: seq<ChunkRow>, userId: string, query: string): (r: seq<Candidate>)
    ensures |r| <= |rows|
    ensures forall c :: c in r <==>
      c.row in rows && OwnedBy(documents, userId, c.row) && Matches(c.row.chunkText, query) && c.title == TitleOf(documents, c.row)
    decreases |rows|
  {
    if rows == [] then []
    else
      (if OwnedBy(documents, userId, rows[0]) && Matches(rows[0].chunkText, query)
       then [Candidate(rows[0], TitleOf(documents, rows[0]))] else [])
      + Candidates(documents, rows[1..], userId, query)
  }

  /** The fallback query: the caller's chunks holding the whole query. */
  function PhraseMatches(documents: seq<Document>, rows: seq<ChunkRow>, userId: string, query: string): (r: seq<Candidate>)
    ensures |r| <= |rows|
    ensures forall c :: c in r <==>
      c.row in rows && OwnedBy(documents, userId, c.row) && ContainsCI(c.row.chunkText, query) && c.title == TitleOf(documents, c.row)
    decreases |rows|
  {
    if rows == [] then []
    else
      (if OwnedBy(documents, userId, rows[0]) && ContainsCI(rows[0].chunkText, query)
       then [Candidate(rows[0], TitleOf(documents, rows[0]))] else [])
      + PhraseMatches(documents, rows[1..], userId, query)
  }

  // ------------------------------------------------------------------ scoring

  /** How many of `words` occur in `text` (a repeated word counts each time). */
  function WordHits(text: string, words: seq<string>): nat
    decreases |words|
  {
    if words == [] then 0
    else WordHits(text, words[..|words| - 1]) + (if Contains(text, words[|words| - 1]) then 1 else 0)
  }

  /** The relevance score in tenths: 10 for the whole query, 3 per query
      word and 2 per technical term found in the lower-cased text. */
  function Score(chunkText: string, query: string): int {
    var text := Lower(chunkText);
    var queryLower := Lower(query);
    (if Contains(text, queryLower) then 10 else 0)
    + 3 * WordHits(text, SplitOn(queryLower, ' '))
    + 2 * WordHits(text, TechnicalTerms)
  }

  /** The scoring callback, with its two `forEach` loops. */
  method ScoreChunk(chunkText: string, query: string) returns (tenths: int)
    ensures tenths == Score(chunkText, query)
  {
    var text := Lower(chunkText);
    var queryLower := Lower(query);
    var queryWords := SplitOn(queryLower, ' ');
    var score := 0;
    if Contains(text, queryLower) {
      score := score + 10;
    }
    var i := 0;
    while i < |queryWords|
      invariant 0 <= i <= |queryWords|
      invariant score == (if Contains(text, queryLower) then 10 else 0) + 3 * WordHits(text, queryWords[..i])
    {
      assert queryWords[..i + 1][..i] == queryWords[..i];
      if Contains(text, queryWords[i]) {
        score := score + 3;
      }
      i := i + 1;
    }
    assert queryWords[..i] == queryWords;
    var base := score;
    var t := 0;
    while t < |TechnicalTerms|
      invariant 0 <= t <= |TechnicalTerms|
      invariant score == base + 2 * WordHits(text, TechnicalTerms[..t])
    {
      assert TechnicalTerms[..t + 1][..t] == TechnicalTerms[..t];
      if Contains(text, TechnicalTerms[t]) {
        score := score + 2;
      }
      t := t + 1;
    }
    assert TechnicalTerms[..t] == TechnicalTerms;
    tenths := score;
  }

  function Ranked(candidates: seq<Candidate>, query: string): (r: seq<Scored<Candidate>>)
    ensures |r| == |candidates|
    ensures forall i :: 0 <= i < |r| ==> r[i] == Scored(candidates[i], Score(candidates[i].row.chunkText, query))
    decreases |candidates|
  {
    if candidates == [] then []
    else [Scored(candidates[0], Score(candidates[0].row.chunkText, query))] + Ranked(candidates[1..], query)
  }

  /** `Math.min(0.95, relevanceScore)`, from a score in tenths. */
  function Similarity(tenths: int): real {
    var score := tenths as real / 10.0;
    if score < 0.95 then score else 0.95
  }

  function Results(top: seq<Scored<Candidate>>): (r: seq<SearchResult>)
    ensures |r| == |top|
    ensures forall i :: 0 <= i < |top| ==>
      var c := top[i].item;
      r[i] == SearchResult(c.row.id, c.row.documentId, c.title, c.row.chunkText, Similarity(top[i].score), c.row.metadata)
    decreases |top|
  {
    if top == [] then []
    else
      var c := top[0].item;
      [SearchResult(c.row.id, c.row.documentId, c.title, c.row.chunkText, Similarity(top[0].score), c.row.metadata)]
      + Results(top[1..])
  }

  /** The fallback results, each with similarity 0.5. */
  function FallbackResults(found: seq<Candidate>): (r: seq<SearchResult>)
    ensures |r| == |found|
    ensures forall i :: 0 <= i < |found| ==>
      var c := found[i];
      r[i] == SearchResult(c.row.id, c.row.documentId, c.title, c.row.chunkText, 0.5, c.row.metadata)
    decreases |found|
  {
    if found == [] then []
    else
      var c := found[0];
      [SearchResult(c.row.id, c.row.documentId, c.title, c.row.chunkText, 0.5, c.row.metadata)]
      + FallbackResults(found[1..])
  }

  /** The ranked path: `take: limit * 2` candidates, the `limit` best. */
  function TopResults(documents: seq<Document>, chunks: seq<ChunkRow>, userId: string, query: string, limit: nat): seq<Scored<Candidate>> {
    var candidates := Take(Candidates(documents, chunks, userId, query), limit * 2);
    Top(Ranked(candidates, query), limit)
  }

  /** `searchDocuments(query, userId, limit)`. `candidateQueryFails` says
      whether the database throws on the candidate query, which sends the
      search down the fallback path. */
  function SearchDocuments(documents: seq<Document>, chunks: seq<ChunkRow>, userId: string, query: string, limit: nat,
                           candidateQueryFails: bool): seq<SearchResult>
  {
    if !candidateQueryFails then Results(TopResults(documents, chunks, userId, query, limit))
    else FallbackResults(Take(PhraseMatches(documents, chunks, userId, query), limit))
  }

  // ------------------------------------------------------------------ context

  /** `[Source ${n} - ${title}]\n${text}\n`. */
  function Block(n: nat, title: string, text: string): string {
    "[Source " + NatToString(n) + " - " + title + "]\n" + text + "\n"
  }

  function Blocks(results: seq<SearchResult>, first: nat): (r: seq<string>)
    ensures |r| == |results|
    ensures forall i :: 0 <= i < |results| ==> r[i] == Block(first + i + 1, results[i].documentTitle, results[i].chunkText)
    decreases |results|
  {
    if results == [] then []
    else [Block(first + 1, results[0].documentTitle, results[0].chunkText)] + Blocks(results[1..], first + 1)
  }

  /** `formatContextForLLM`: the numbered blocks separated by blank lines. */
  function FormatContextForLLM(results: seq<SearchResult>): string {
    Join(Blocks(results, 0), "\n\n")
  }

  // ------------------------------------------------------------------ lemmas

  lemma {:induction false} WordHitsPositive(text: string, words: seq<string>)
    ensures WordHits(text, words) > 0 <==> exists w :: w in words && Contains(text, w)
    ensures WordHits(text, words) <= |words|
    decreases |words|
  {
    if words != [] {
      var init := words[..|words| - 1];
      var last := words[|words| - 1];
      WordHitsPositive(text, init);
      assert words == init + [last];
      if Contains(text, last) {
        assert last in words;
      }
    }
  }

  /** A chunk scores above zero exactly when its lower-cased text holds the
      lower-cased query, one of its words or a technical term; the score is
      at most 10 + 3 per query word + 16. */
  lemma ScorePositive(chunkText: string, query: string)
    ensures 0 <= Score(chunkText, query) <= 10 + 3 * |SplitOn(Lower(query), ' ')| + 2 * |TechnicalTerms|
    ensures Score(chunkText, query) > 0 <==>
      || Contains(Lower(chunkText), Lower(query))
      || (exists w :: w in SplitOn(Lower(query), ' ') && Contains(Lower(chunkText), w))
      || (exists t :: t in TechnicalTerms && Contains(Lower(chunkText), t))
  {
    WordHitsPositive(Lower(chunkText), SplitOn(Lower(query), ' '));
    WordHitsPositive(Lower(chunkText), TechnicalTerms);
  }

  /** Every candidate scores above zero, so the positivity filter never
      drops one. */
  lemma CandidatesScorePositive(documents: seq<Document>, rows: seq<ChunkRow>, userId: string, query: string)
    ensures forall c :: c in Candidates(documents, rows, userId, query) ==> Score(c.row.chunkText, query) > 0
  {
    SplitOnLower(query, ' ');
    LowerAllMember(SplitOn(query, ' '));
    forall c | c in Candidates(documents, rows, userId, query)
      ensures Score(c.row.chunkText, query) > 0
    {
      ScorePositive(c.row.chunkText, query);
      if !ContainsCI(c.row.chunkText, query) {
        var w :| w in SplitOn(query, ' ') && ContainsCI(c.row.chunkText, w);
        assert Lower(w) in SplitOn(Lower(query), ' ');
      }
    }
  }

  /** A query that starts with a space splits into an empty first word,
      which every text contains: then every chunk of the caller is a
      candidate. */
  lemma LeadingSpaceMatchesAll(query: string, text: string)
    requires |query| > 0 && query[0] == ' '
    ensures Matches(text, query)
  {
    assert "" in SplitOn(query, ' ');
    ContainsEmpty(Lower(text));
    assert Lower("") == "";
  }

  lemma TakeMembers<T>(s: seq<T>, n: nat)
    ensures forall x :: x in Take(s, n) ==> x in s
  {
  }

  /** The ranked path returns min(limit, n) results for n candidates: the
      candidate query's `limit * 2` cap never bites before the final cut. */
  lemma TopResultsCount(documents: seq<Document>, chunks: seq<ChunkRow>, userId: string, query: string, limit: nat)
    ensures |TopResults(documents, chunks, userId, query, limit)| == Min(limit, |Candidates(documents, chunks, userId, query)|)
  {
    var all := Candidates(documents, chunks, userId, query);
    var candidates := Take(all, limit * 2);
    var ranked := Ranked(candidates, query);
    CandidatesScorePositive(documents, chunks, userId, query);
    TakeMembers(all, limit * 2);
    forall i | 0 <= i < |ranked|
      ensures ranked[i].score > 0
    {
      assert candidates[i] in all;
    }
    PositiveAll(ranked);
  }

  /** The ranked results are at most `limit`, best first, with similarities
      in (0, 0.95]. */
  lemma TopResultsRanked(documents: seq<Document>, chunks: seq<ChunkRow>, userId: string, query: string, limit: nat)
    ensures var r := Results(TopResults(documents, chunks, userId, query, limit));
      && |r| <= limit
      && (forall i :: 0 <= i < |r| ==> 0.0 < r[i].similarity <= 0.95)
      && (forall i, j :: 0 <= i < j < |r| ==> r[i].similarity >= r[j].similarity)
  {
    var candidates := Take(Candidates(documents, chunks, userId, query), limit * 2);
    TopOrdered(Ranked(candidates, query), limit);
  }

  /** Every ranked result is a stored chunk of a document the caller
      uploaded, whatever its status, that mentions the query or one of its
      words, with its own title. */
  lemma TopResultsInScope(documents: seq<Document>, chunks: seq<ChunkRow>, userId: string, query: string, limit: nat)
    ensures forall x :: x in TopResults(documents, chunks, userId, query, limit) ==>
      && x.item.row in chunks
      && OwnedBy(documents, userId, x.item.row)
      && Matches(x.item.row.chunkText, query)
      && x.item.title == TitleOf(documents, x.item.row)
  {
    var all := Candidates(documents, chunks, userId, query);
    var candidates := Take(all, limit * 2);
    var ranked := Ranked(candidates, query);
    TopFromInput(ranked, limit);
    TakeMembers(all, limit * 2);
    forall x | x in TopResults(documents, chunks, userId, query, limit)
      ensures x.item in all
    {
      assert x in multiset(ranked);
      var j :| 0 <= j < |ranked| && ranked[j] == x;
      assert candidates[j] in all;
    }
  }

  /** Both paths return at most `limit` results, each a stored chunk of a
      document the caller uploaded. The fallback returns the first `limit`
      chunks holding the whole query, each with similarity 0.5. */
  lemma SearchDocumentsShape(documents: seq<Document>, chunks: seq<ChunkRow>, userId: string, query: string, limit: nat,
                             candidateQueryFails: bool)
    ensures var r := SearchDocuments(documents, chunks, userId, query, limit, candidateQueryFails);
      && |r| <= limit
      && forall x :: x in r ==> exists row ::
           row in chunks && OwnedBy(documents, userId, row) && x.chunkId == row.id && x.chunkText == row.chunkText
           && x.documentId == row.documentId && x.documentTitle == TitleOf(documents, row)
    ensures candidateQueryFails ==>
      var r := SearchDocuments(documents, chunks, userId, query, limit, candidateQueryFails);
      && |r| == Min(limit, |PhraseMatches(documents, chunks, userId, query)|)
      && forall x :: x in r ==> x.similarity == 0.5 && ContainsCI(x.chunkText, query)
  {
    var r := SearchDocuments(documents, chunks, userId, query, limit, candidateQueryFails);
    if candidateQueryFails {
      var found := Take(PhraseMatches(documents, chunks, userId, query), limit);
      TakeMembers(PhraseMatches(documents, chunks, userId, query), limit);
      forall x | x in r
        ensures exists row ::
          row in chunks && OwnedBy(documents, userId, row) && x.chunkId == row.id && x.chunkText == row.chunkText
          && x.documentId == row.documentId && x.documentTitle == TitleOf(documents, row)
        ensures x.similarity == 0.5 && ContainsCI(x.chunkText, query)
      {
        var i :| 0 <= i < |found| && FallbackResults(found)[i] == x;
        assert found[i] in found;
      }
    } else {
      var top := TopResults(documents, chunks, userId, query, limit);
      TopResultsInScope(documents, chunks, userId, query, limit);
      TopResultsRanked(documents, chunks, userId, query, limit);
      forall x | x in r
        ensures exists row ::
          row in chunks && OwnedBy(documents, userId, row) && x.chunkId == row.id && x.chunkText == row.chunkText
          && x.documentId == row.documentId && x.documentTitle == TitleOf(documents, row)
      {
        var i :| 0 <= i < |top| && Results(top)[i] == x;
        assert top[i] in top;
      }
    }
  }

  /** The context holds every result, under its numbered
      "[Source n - title]" heading. */
  lemma ContextCitesResults(results: seq<SearchResult>, i: nat)
    requires i < |results|
    ensures Contains(FormatContextForLLM(results), Block(i + 1, results[i].documentTitle, results[i].chunkText))
    ensures Contains(FormatContextForLLM(results), results[i].chunkText)
  {
    var blocks := Blocks(results, 0);
    JoinContains(blocks, "\n\n", i);
    JoinInfix(blocks, "\n\n", i);
    var x, y :| FormatContextForLLM(results) == x + blocks[i] + y;
    var head := "[Source " + NatToString(i + 1) + " - " + results[i].documentTitle + "]\n";
    ContainsInside(x, blocks[i], y, head, results[i].chunkText, "\n");
  }
}

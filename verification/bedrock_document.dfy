/** Text extraction through Amazon Nova Pro. Small PDFs go to Nova whole;
    larger ones go whole first and, when Nova says the input is too long,
    fifty pages at a time. `analyzeDocumentStructure` asks Nova for a JSON
    description and falls back to plain extraction. Nova itself, the PDF
    library and the JSON parser are parameters: `nova` answers for a part of
    the file, `pageCount` is what loading the PDF gives, `parse` reads
    Nova's JSON. */
module BedrockDocument {
  import opened Wrappers
  import opened Text

  const SmallPdfLimit: nat := 3 * 1024 * 1024
  const MediumPdfLimit: nat := 10 * 1024 * 1024
  /** Pages per window in chunked extraction. */
  const WindowPages: nat := 50
  /** Fewer trimmed characters than this count as a failed extraction. */
  const MinTextLength: nat := 10

  const TooLong: string := "Input is too long"
  // The next three messages are written in pieces so that the verifier can
  // check cheaply which letters they lack.
  const NoContent: string := "No text content" + " returned from" + " Nova analysis"
  const Insufficient: string := "Insufficient" + " text content" + " extracted" + " from document"
  const ApiErrorPrefix: string := "Bedrock API error: "
  const AccessDenied: string := "Bedrock access denied - check AWS permissions for Nova models"
  const Unavailable: string := "Bedrock service temporarily unavailable - please try again later"
  const NovaFailedPrefix: string := "Nova document analysis failed: "
  const ChunkedFailedPrefix: string := "Chunked PDF processing failed: "
  const NoChunkText: string := "No text could be extracted from any PDF chunks"
  const NoAnalysis: string := "No analysis result" + " returned from Nova"

  /** What Nova is shown: the whole file, or a PDF made of the pages
      `[start, end)`. */
  datatype Part = Whole | Pages(start: nat, end: nat)

  /** Nova's answer: a thrown error, or a response whose first content
      block has `text` (`None` when that path is missing). */
  datatype NovaReply = Thrown(message: string) | Answered(text: Option<string>)

  /** A present, non-empty text: JavaScript's truthiness of a string. */
  predicate HasText(text: Option<string>) {
    text.Some? && text.value != []
  }

  // ------------------------------------------------------------------ extractTextWithNovaPro

  /** The `catch` of `extractTextWithNovaPro`: four markers checked in turn,
      anything else wrapped. */
  function NovaError(m: string): (r: string)
    ensures r == AccessDenied || r == Unavailable || r == TooLong
         || StartsWith(r, ApiErrorPrefix) || StartsWith(r, NovaFailedPrefix)
  {
    if Contains(m, "ValidationException") || Contains(m, "ThrottlingException") then ApiErrorPrefix + m
    else if Contains(m, "AccessDeniedException") then AccessDenied
    else if Contains(m, "ServiceUnavailableException") then Unavailable
    else if Contains(m, TooLong) then TooLong
    else NovaFailedPrefix + m
  }

  /** The markers are checked in order: an API error keeps the whole
      message, so a length complaint inside it still shows; one that
      carries none of the three service markers is reduced to the bare
      length complaint; a message with no marker at all is wrapped. */
  lemma NovaErrorOrder(m: string)
    ensures Contains(m, "ValidationException") ==> NovaError(m) == ApiErrorPrefix + m
    ensures Contains(m, TooLong) && !Contains(m, "AccessDeniedException") && !Contains(m, "ServiceUnavailableException") ==>
      Contains(NovaError(m), TooLong)
    ensures (!Contains(m, "ValidationException") && !Contains(m, "ThrottlingException")
             && !Contains(m, "AccessDeniedException") && !Contains(m, "ServiceUnavailableException") && !Contains(m, TooLong)) ==>
      NovaError(m) == NovaFailedPrefix + m
  {
    if Contains(m, TooLong) {
      ContainsAfterPrefix(ApiErrorPrefix, m, TooLong);
      assert TooLong == "" + TooLong + "";
      ContainsInfix("", TooLong, "");
    }
  }

  /** `s` lacks the first letter of each service marker and the letter
      `c`. */
  predicate LacksMarkerLetters(s: string, c: char) {
    'V' !in s && 'T' !in s && 'A' !in s && 'S' !in s && c !in s
  }

  lemma LettersConcat(a: string, b: string, c: char)
    requires LacksMarkerLetters(a, c) && LacksMarkerLetters(b, c)
    ensures LacksMarkerLetters(a + b, c)
  {
  }

  /** A message lacking the first letter of each service marker and some
      letter of the length complaint is wrapped. */
  lemma NoMarkerWrapped(m: string, c: char)
    requires c in TooLong && LacksMarkerLetters(m, c)
    ensures NovaError(m) == NovaFailedPrefix + m
  {
    assert "ValidationException"[0] == 'V' && "ThrottlingException"[0] == 'T';
    assert "AccessDeniedException"[0] == 'A' && "ServiceUnavailableException"[0] == 'S';
    MissingCharNotContained(m, "ValidationException", 'V');
    MissingCharNotContained(m, "ThrottlingException", 'T');
    MissingCharNotContained(m, "AccessDeniedException", 'A');
    MissingCharNotContained(m, "ServiceUnavailableException", 'S');
    MissingCharNotContained(m, TooLong, c);
  }

  lemma NoContentLetters()
    ensures LacksMarkerLetters(NoContent, 'I')
  {
    assert LacksMarkerLetters("No text content", 'I');
    assert LacksMarkerLetters(" returned from", 'I');
    assert LacksMarkerLetters(" Nova analysis", 'I');
    LettersConcat("No text content", " returned from", 'I');
    LettersConcat("No text content" + " returned from", " Nova analysis", 'I');
  }

  lemma InsufficientLetters()
    ensures LacksMarkerLetters(Insufficient, 'p')
  {
    assert LacksMarkerLetters("Insufficient", 'p');
    assert LacksMarkerLetters(" text content", 'p');
    assert LacksMarkerLetters(" extracted", 'p');
    assert LacksMarkerLetters(" from document", 'p');
    LettersConcat("Insufficient", " text content", 'p');
    LettersConcat("Insufficient" + " text content", " extracted", 'p');
    LettersConcat("Insufficient" + " text content" + " extracted", " from document", 'p');
  }

  /** The two errors `extractTextWithNovaPro` raises itself carry no
      marker, so they come out wrapped. */
  lemma NovaOwnErrors(m: string)
    requires m == NoContent || m == Insufficient
    ensures NovaError(m) == NovaFailedPrefix + m
  {
    assert TooLong[0] == 'I' && TooLong[2] == 'p';
    if m == NoContent {
      NoContentLetters();
      NoMarkerWrapped(m, 'I');
    } else {
      InsufficientLetters();
      NoMarkerWrapped(m, 'p');
    }
  }

  /** The `try` block of `extractTextWithNovaPro`: the trimmed text when it
      has at least ten characters, otherwise the message thrown. */
  function NovaAttempt(reply: NovaReply): (r: Result<string>)
    ensures r.Ok? ==> reply.Answered? && HasText(reply.text) && r.value == Trim(reply.text.value)
    ensures r.Ok? ==> |r.value| >= MinTextLength
    ensures r.Err? ==>
      || (reply.Thrown? && r.message == reply.message)
      || (reply.Answered? && !HasText(reply.text) && r.message == NoContent)
      || (reply.Answered? && HasText(reply.text) && |Trim(reply.text.value)| < MinTextLength && r.message == Insufficient)
  {
    match reply
    case Thrown(m) => Err(m)
    case Answered(text) =>
      if !HasText(text) then Err(NoContent)
      else
        var extracted := Trim(text.value);
        if |extracted| < MinTextLength then Err(Insufficient) else Ok(extracted)
  }

  /** `extractTextWithNovaPro` on Nova's answer: what the `try` block gives,
      its error mapped. */
  function NovaProText(reply: NovaReply): (r: Result<string>)
    ensures r.Ok? <==> NovaAttempt(reply).Ok?
    ensures r.Ok? ==> r.value == NovaAttempt(reply).value
  {
    match NovaAttempt(reply)
    case Ok(text) => Ok(text)
    case Err(m) => Err(NovaError(m))
  }

  /** A missing or too short answer fails with the wrapped message, as
      the callers see it. */
  lemma NovaShortAnswer(reply: NovaReply)
    requires reply.Answered?
    ensures !HasText(reply.text) ==> NovaProText(reply) == Err(NovaFailedPrefix + NoContent)
    ensures HasText(reply.text) && |Trim(reply.text.value)| < MinTextLength ==>
      NovaProText(reply) == Err(NovaFailedPrefix + Insufficient)
  {
    if NovaAttempt(reply).Err? {
      NovaOwnErrors(NovaAttempt(reply).message);
    }
  }

  /** What Nova returns is never blank. */
  lemma NovaTextNotBlank(reply: NovaReply)
    requires NovaProText(reply).Ok?
    ensures !IsBlank(NovaProText(reply).value)
  {
    var t := NovaProText(reply).value;
    TrimIdempotent(reply.text.value);
    assert Trim(t) != [];
  }

  // ------------------------------------------------------------------ extractTextWithChunkedNova

  /** The pages `[start, end)` one Nova call is given. */
  datatype Window = Window(start: nat, end: nat)

  /** The windows of the `for` loop from `start` on: fifty pages each, the
      last one cut at the page count. */
  function WindowsFrom(start: nat, total: nat): seq<Window>
    decreases total - start
  {
    if start >= total then []
    else [Window(start, Min(start + WindowPages, total))] + WindowsFrom(start + WindowPages, total)
  }

  function Windows(total: nat): seq<Window> {
    WindowsFrom(0, total)
  }

  /** Each window is non-empty, at most fifty pages long and inside
      `[start, total)`. */
  predicate WindowsInRange(ws: seq<Window>, start: nat, total: nat) {
    forall k :: 0 <= k < |ws| ==> start <= ws[k].start < ws[k].end <= total && ws[k].end - ws[k].start <= WindowPages
  }

  /** Windows come in page order and do not overlap. */
  predicate WindowsOrdered(ws: seq<Window>) {
    forall i, j :: 0 <= i < j < |ws| ==> ws[i].end <= ws[j].start
  }

  predicate InWindow(w: Window, p: nat) {
    w.start <= p < w.end
  }

  predicate PageCovered(ws: seq<Window>, p: nat) {
    exists k :: 0 <= k < |ws| && InWindow(ws[k], p)
  }

  /** Every page of `[start, total)` lies in some window. */
  predicate WindowsCover(ws: seq<Window>, start: nat, total: nat) {
    forall p: nat :: start <= p < total ==> PageCovered(ws, p)
  }

  /** The windows lie in range, are non-empty, at most fifty pages long,
      come in page order without overlapping and cover every page. */
  lemma {:induction false} WindowsPartition(start: nat, total: nat)
    ensures WindowsInRange(WindowsFrom(start, total), start, total)
    ensures WindowsOrdered(WindowsFrom(start, total))
    ensures WindowsCover(WindowsFrom(start, total), start, total)
    decreases total - start
  {
    if start < total {
      var ws := WindowsFrom(start, total);
      var rest := WindowsFrom(start + WindowPages, total);
      WindowsPartition(start + WindowPages, total);
      assert ws == [Window(start, Min(start + WindowPages, total))] + rest;
      forall i, j | 0 <= i < j < |ws|
        ensures ws[i].end <= ws[j].start
      {
        assert ws[j] == rest[j - 1];
        if i > 0 {
          assert ws[i] == rest[i - 1];
        } else {
          assert rest[j - 1].start >= start + WindowPages;
        }
      }
      forall p: nat | start <= p < total
        ensures PageCovered(ws, p)
      {
        if p >= start + WindowPages {
          assert PageCovered(rest, p);
          var k :| 0 <= k < |rest| && InWindow(rest[k], p);
          assert ws[k + 1] == rest[k];
        } else {
          assert InWindow(ws[0], p);
        }
      }
    }
  }

  /** Every page lies in exactly one window. */
  lemma PageInOneWindow(total: nat, p: nat)
    requires p < total
    ensures PageCovered(Windows(total), p)
    ensures forall i, j :: (0 <= i < |Windows(total)| && 0 <= j < |Windows(total)|
                            && InWindow(Windows(total)[i], p) && InWindow(Windows(total)[j], p)) ==> i == j
  {
    WindowsPartition(0, total);
  }

  /** What `extractTextWithNovaPro` gives for each window. */
  function WindowText(nova: Part -> NovaReply): Window -> Result<string> {
    (w: Window) => NovaProText(nova(Pages(w.start, w.end)))
  }

  /** `if (chunkText.trim()) chunks.push(chunkText)` for one window. */
  function Keep(text: Result<string>): seq<string> {
    if text.Ok? && !IsBlank(text.value) then [text.value] else []
  }

  /** The texts the loop keeps from the window at `start` on, in window
      order, given what each window gives. */
  function KeptFrom(start: nat, total: nat, text: Window -> Result<string>): seq<string>
    decreases total - start
  {
    if start >= total then []
    else Keep(text(Window(start, Min(start + WindowPages, total)))) + KeptFrom(start + WindowPages, total, text)
  }

  function Kept(total: nat, nova: Part -> NovaReply): seq<string> {
    KeptFrom(0, total, WindowText(nova))
  }

  /** A window's text is kept exactly when it is there and not blank; a
      failed window is skipped. */
  lemma {:induction false} KeptMembers(start: nat, total: nat, text: Window -> Result<string>)
    ensures forall t :: t in KeptFrom(start, total, text) <==>
      exists w :: w in WindowsFrom(start, total) && text(w) == Ok(t) && !IsBlank(t)
    decreases total - start
  {
    if start < total {
      KeptMembers(start + WindowPages, total, text);
      var w := Window(start, Min(start + WindowPages, total));
      assert WindowsFrom(start, total) == [w] + WindowsFrom(start + WindowPages, total);
    }
  }

  /** `extractTextWithChunkedNova`: the kept texts joined by blank lines;
      every failure, including no text at all, wrapped. */
  function ChunkedText(pageCount: Result<nat>, nova: Part -> NovaReply): Result<string> {
    match pageCount
    case Err(m) => Err(ChunkedFailedPrefix + m)
    case Ok(total) =>
      var kept := Kept(total, nova);
      if kept == [] then Err(ChunkedFailedPrefix + NoChunkText) else Ok(Join(kept, "\n\n"))
  }

  /** The loop of `extractTextWithChunkedNova`, one window per iteration:
      the texts it collects. `text` is the extraction of one window, in
      the source `extractTextWithNovaPro` on a PDF of those pages. */
  method CollectWindowTexts(total: nat, text: Window -> Result<string>) returns (chunks: seq<string>)
    ensures chunks == KeptFrom(0, total, text)
  {
    chunks := [];
    var startPage: nat := 0;
    while startPage < total
      invariant chunks + KeptFrom(startPage, total, text) == KeptFrom(0, total, text)
      decreases total - startPage
    {
      var endPage := Min(startPage + WindowPages, total);
      var chunkText := text(Window(startPage, endPage));
      ghost var before := chunks;
      ghost var rest := KeptFrom(startPage + WindowPages, total, text);
      if chunkText.Ok? && !IsBlank(chunkText.value) {
        chunks := chunks + [chunkText.value];
      }
      assert chunks + rest == before + (Keep(chunkText) + rest);
      startPage := startPage + WindowPages;
    }
    assert chunks + [] == chunks;
  }

  /** `extractTextWithChunkedNova`. */
  method ExtractTextWithChunkedNova(pageCount: Result<nat>, nova: Part -> NovaReply) returns (r: Result<string>)
    ensures r == ChunkedText(pageCount, nova)
  {
    if pageCount.Err? {
      return Err(ChunkedFailedPrefix + pageCount.message);
    }
    var chunks := CollectWindowTexts(pageCount.value, WindowText(nova));
    if chunks == [] {
      return Err(ChunkedFailedPrefix + NoChunkText);
    }
    return Ok(Join(chunks, "\n\n"));
  }

  /** Chunked extraction fails with its own prefix, and when it succeeds
      every window text Nova extracted is part of the result. */
  lemma ChunkedOutcome(pageCount: Result<nat>, nova: Part -> NovaReply, w: Window)
    ensures ChunkedText(pageCount, nova).Err? ==> StartsWith(ChunkedText(pageCount, nova).message, ChunkedFailedPrefix)
    ensures pageCount.Ok? && w in Windows(pageCount.value) && NovaProText(nova(Pages(w.start, w.end))).Ok? ==>
      && ChunkedText(pageCount, nova).Ok?
      && Contains(ChunkedText(pageCount, nova).value, NovaProText(nova(Pages(w.start, w.end))).value)
  {
    if pageCount.Ok? && w in Windows(pageCount.value) && NovaProText(nova(Pages(w.start, w.end))).Ok? {
      var kept := Kept(pageCount.value, nova);
      var t := NovaProText(nova(Pages(w.start, w.end))).value;
      KeptMembers(0, pageCount.value, WindowText(nova));
      NovaTextNotBlank(nova(Pages(w.start, w.end)));
      assert WindowText(nova)(w) == Ok(t);
      assert t in kept;
      var k :| 0 <= k < |kept| && kept[k] == t;
      JoinContains(kept, "\n\n", k);
    }
  }

  // ------------------------------------------------------------------ extractTextWithBedrock

  /** `extractTextWithBedrock` for a file of `size` bytes. */
  function BedrockText(size: nat, pageCount: Result<nat>, nova: Part -> NovaReply): Result<string> {
    var whole := NovaProText(nova(Whole));
    if size <= SmallPdfLimit then whole
    else if whole.Err? && Contains(whole.message, TooLong) then ChunkedText(pageCount, nova)
    else whole
  }

  /** Page windows are used only for a file above 3 MiB whose whole-file
      error mentions the length; otherwise the answer is the whole-file
      one, whatever Nova would say about any window. */
  lemma BedrockRouting(size: nat, pageCount: Result<nat>, nova: Part -> NovaReply, other: Part -> NovaReply)
    requires other(Whole) == nova(Whole)
    ensures size <= SmallPdfLimit ==> BedrockText(size, pageCount, nova) == BedrockText(size, pageCount, other)
    ensures BedrockText(size, pageCount, nova) != BedrockText(size, pageCount, other) ==>
      size > SmallPdfLimit && NovaProText(nova(Whole)).Err? && Contains(NovaProText(nova(Whole)).message, TooLong)
  {
  }

  /** A large file whose whole-file call is refused for its length, with
      no access or availability marker in the refusal, is read in
      windows. */
  lemma LargeTooLongIsChunked(size: nat, pageCount: Result<nat>, nova: Part -> NovaReply)
    requires size > SmallPdfLimit && nova(Whole).Thrown?
    requires Contains(nova(Whole).message, TooLong)
    requires !Contains(nova(Whole).message, "AccessDeniedException")
    requires !Contains(nova(Whole).message, "ServiceUnavailableException")
    ensures BedrockText(size, pageCount, nova) == ChunkedText(pageCount, nova)
  {
    NovaErrorOrder(nova(Whole).message);
  }

  /** Extracted text is never blank. */
  lemma BedrockTextNotBlank(size: nat, pageCount: Result<nat>, nova: Part -> NovaReply)
    requires BedrockText(size, pageCount, nova).Ok?
    ensures !IsBlank(BedrockText(size, pageCount, nova).value)
  {
    var whole := NovaProText(nova(Whole));
    if whole.Ok? {
      NovaTextNotBlank(nova(Whole));
    } else {
      var kept := Kept(pageCount.value, nova);
      KeptMembers(0, pageCount.value, WindowText(nova));
      assert kept[0] in kept;
      var w :| w in Windows(pageCount.value) && WindowText(nova)(w) == Ok(kept[0]) && !IsBlank(kept[0]);
      JoinHead(kept, "\n\n");
      var i :| 0 <= i < |kept[0]| && !IsSpace(kept[0][i]);
      assert Join(kept, "\n\n")[i] == kept[0][i];
    }
  }

  /** The first part opens the join. */
  lemma JoinHead(parts: seq<string>, sep: string)
    requires parts != []
    ensures StartsWith(Join(parts, sep), parts[0])
  {
  }

  // ------------------------------------------------------------------ analyzeDocumentStructure

  /** What `JSON.parse` of Nova's analysis gives: each field `None` when it
      is absent. */
  datatype Analysis = Analysis(
    text: Option<string>,
    hasImages: Option<bool>,
    hasTables: Option<bool>,
    pageCount: Option<int>,
    sections: Option<seq<string>>)

  datatype Structure = Structure(text: string, hasImages: bool, hasTables: bool, pageCount: Option<int>, sections: seq<string>)

  /** The fields with `||` defaults: `""`, `false`, `null`, `[]`; a page
      count of 0 is falsy too. */
  function FromAnalysis(a: Analysis): (r: Structure)
    ensures r.text == (if a.text.Some? then a.text.value else [])
    ensures r.hasImages <==> a.hasImages == Some(true)
    ensures r.hasTables <==> a.hasTables == Some(true)
    ensures r.pageCount.Some? <==> a.pageCount.Some? && a.pageCount.value != 0
    ensures r.pageCount.Some? ==> r.pageCount == a.pageCount
    ensures r.sections == (if a.sections.Some? then a.sections.value else [])
  {
    Structure(
      if HasText(a.text) then a.text.value else "",
      a.hasImages == Some(true),
      a.hasTables == Some(true),
      if a.pageCount.Some? && a.pageCount.value != 0 then a.pageCount else None,
      if a.sections.Some? then a.sections.value else [])
  }

  /** Plain extraction with empty metadata. */
  function SimpleStructure(size: nat, pageCount: Result<nat>, nova: Part -> NovaReply): Result<Structure> {
    match BedrockText(size, pageCount, nova)
    case Err(m) => Err(m)
    case Ok(text) => Ok(Structure(text, false, false, None, []))
  }

  /** The outer `catch`: a length complaint falls back to plain
      extraction, any other error is rethrown. */
  function AfterFailure(m: string, size: nat, pageCount: Result<nat>, nova: Part -> NovaReply): Result<Structure> {
    if Contains(m, TooLong) then SimpleStructure(size, pageCount, nova) else Err(m)
  }

  /** `analyzeDocumentStructure`. `analysis` is Nova's answer to the
      structured prompt and `parse` the JSON reading of its text. A failed
      plain extraction inside the parse fallback reaches the outer `catch`
      too. */
  function AnalyzeDocumentStructure(size: nat, pageCount: Result<nat>, nova: Part -> NovaReply,
                                    analysis: NovaReply, parse: string -> Option<Analysis>): Result<Structure> {
    if size > MediumPdfLimit then SimpleStructure(size, pageCount, nova)
    else match analysis
      case Thrown(m) => AfterFailure(m, size, pageCount, nova)
      case Answered(text) =>
        if !HasText(text) then AfterFailure(NoAnalysis, size, pageCount, nova)
        else match parse(text.value)
          case Some(a) => Ok(FromAnalysis(a))
          case None =>
            match SimpleStructure(size, pageCount, nova)
            case Ok(s) => Ok(s)
            case Err(m) => AfterFailure(m, size, pageCount, nova)
  }

  /** Above 10 MiB and after an unreadable analysis the result is plain
      extraction with empty metadata; the retry in the outer `catch` after
      a failed fallback repeats the same call and so changes nothing. */
  lemma AnalyzeFallsBack(size: nat, pageCount: Result<nat>, nova: Part -> NovaReply,
                         analysis: NovaReply, parse: string -> Option<Analysis>)
    requires size > MediumPdfLimit || (analysis.Answered? && HasText(analysis.text) && parse(analysis.text.value).None?)
    ensures AnalyzeDocumentStructure(size, pageCount, nova, analysis, parse) == SimpleStructure(size, pageCount, nova)
  {
  }

  /** A thrown analysis falls back only for a length complaint and is
      rethrown otherwise; a missing analysis is passed on as such. */
  lemma AnalyzeErrors(size: nat, pageCount: Result<nat>, nova: Part -> NovaReply,
                      analysis: NovaReply, parse: string -> Option<Analysis>)
    requires size <= MediumPdfLimit
    ensures analysis.Thrown? ==>
      AnalyzeDocumentStructure(size, pageCount, nova, analysis, parse) ==
        (if Contains(analysis.message, TooLong) then SimpleStructure(size, pageCount, nova) else Err(analysis.message))
    ensures analysis.Answered? && !HasText(analysis.text) ==>
      AnalyzeDocumentStructure(size, pageCount, nova, analysis, parse) == Err(NoAnalysis)
  {
    assert TooLong[0] == 'I';
    assert 'I' !in "No analysis result" && 'I' !in " returned from Nova";
    MissingCharNotContained(NoAnalysis, TooLong, 'I');
  }

  /** Plain extraction gives non-blank text and empty metadata. */
  lemma SimpleStructureShape(size: nat, pageCount: Result<nat>, nova: Part -> NovaReply)
    requires SimpleStructure(size, pageCount, nova).Ok?
    ensures var s := SimpleStructure(size, pageCount, nova).value;
      !IsBlank(s.text) && !s.hasImages && !s.hasTables && s.pageCount.None? && s.sections == []
  {
    BedrockTextNotBlank(size, pageCount, nova);
  }
}

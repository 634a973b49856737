/** The chunker of src/lib/documents/chunking.ts: cuts a text into windows of
    at most `maxTokens * 4` characters, preferring to end a window just after
    the last '.' or '\n' past its midpoint, trims each window and drops the
    blank ones.

    The loop itself is `ChunkText`; `ChunksFrom` is its specification, and the
    lemmas below state what the chunks look like. Two facts follow from the
    code as written rather than from its parameter names: a non-negative
    overlap never moves the next window back (so the windows tile the text and
    the overlap has no effect), and a window can hold one character more than
    `maxTokens * 4`. */
module Chunking {
  import opened Text

  /** The defaults of `chunkText`'s `maxTokens` and `overlapTokens`. */
  const DefaultMaxTokens: nat := 800
  const DefaultOverlapTokens: int := 100

  /** `maxTokens * avgCharsPerToken`, with about four characters per token. */
  function MaxChars(maxTokens: nat): nat { maxTokens * 4 }

  datatype ChunkMetadata = ChunkMetadata(startIndex: nat, endIndex: nat, chunkIndex: nat)

  /** The `DocumentChunk` shape: trimmed text and where it came from. */
  datatype DocumentChunk = DocumentChunk(text: string, metadata: ChunkMetadata)

  predicate IsBreakChar(c: char) {
    c == '.' || c == '\n'
  }

  /** Where a window that does not reach the end of the text stops: at the raw
      cut `start + maxChars` when no '.' or '\n' lies in
      `(start + maxChars / 2, start + maxChars]`, and otherwise just after the
      last one in that range. */
  predicate BreaksAt(text: string, start: nat, maxTokens: nat, r: nat)
    requires start + MaxChars(maxTokens) < |text|
  {
    var cut, half := start + MaxChars(maxTokens), start + MaxChars(maxTokens) / 2;
    || (r == cut && forall j :: half < j <= cut ==> !IsBreakChar(text[j]))
    || (half < r - 1 <= cut && IsBreakChar(text[r - 1]) &&
        forall j :: r - 1 < j <= cut ==> !IsBreakChar(text[j]))
  }

  /** Scanning down from `j` to just above `half`: one past the first '.' or
      '\n' met, or `cut` when there is none. */
  function LastBreakEnd(text: string, half: nat, j: nat, cut: nat): (r: nat)
    requires half <= j <= cut < |text|
    ensures half < r <= cut + 1 || r == cut
    decreases j - half
  {
    if j == half then cut
    else if IsBreakChar(text[j]) then j + 1
    else LastBreakEnd(text, half, j - 1, cut)
  }

  /** The end of the window that starts at `start`: the end of the text when
      it is within `maxChars`, and otherwise just after the last '.' or '\n'
      in the second half of the window, or the raw cut when there is none. */
  function WindowEnd(text: string, start: nat, maxTokens: nat): (r: nat)
    requires start < |text| && maxTokens > 0
    ensures start < r <= |text|
    ensures r - start <= MaxChars(maxTokens) + 1
  {
    if start + MaxChars(maxTokens) >= |text| then |text|
    else LastBreakEnd(text, start + MaxChars(maxTokens) / 2, start + MaxChars(maxTokens), start + MaxChars(maxTokens))
  }

  /** The scan finds the end that `BreaksAt` describes, for the part
      `(half, j]` it has looked at. */
  lemma {:induction false} LastBreakEndSpec(text: string, half: nat, j: nat, cut: nat)
    requires half <= j <= cut < |text|
    ensures var r := LastBreakEnd(text, half, j, cut);
      || (r == cut && forall i :: half < i <= j ==> !IsBreakChar(text[i]))
      || (half < r - 1 <= j && IsBreakChar(text[r - 1]) && forall i :: r - 1 < i <= j ==> !IsBreakChar(text[i]))
    decreases j - half
  {
    if j > half && !IsBreakChar(text[j]) {
      LastBreakEndSpec(text, half, j - 1, cut);
    }
  }

  /** A window that does not reach the end of the text ends where `BreaksAt`
      says. */
  lemma WindowEndBreaksAt(text: string, start: nat, maxTokens: nat)
    requires maxTokens > 0 && start + MaxChars(maxTokens) < |text|
    ensures BreaksAt(text, start, maxTokens, WindowEnd(text, start, maxTokens))
  {
    var cut := start + MaxChars(maxTokens);
    LastBreakEndSpec(text, start + MaxChars(maxTokens) / 2, cut, cut);
  }

  /** The `lastIndexOf` search of the source finds a window end that
      `BreaksAt` accepts. */
  lemma BreakSearch(text: string, start: nat, maxTokens: nat)
    requires start + MaxChars(maxTokens) < |text|
    ensures BreaksAt(text, start, maxTokens, SearchEnd(text, start, maxTokens))
  {
  }

  /** `breakPoint + 1` when `breakPoint > startIndex + maxChars / 2`, else
      the raw cut. */
  function SearchEnd(text: string, start: nat, maxTokens: nat): nat
    requires start + MaxChars(maxTokens) < |text|
  {
    var cut := start + MaxChars(maxTokens);
    var breakPoint := Max(LastIndexOf(text, '.', cut), LastIndexOf(text, '\n', cut));
    if breakPoint > start + MaxChars(maxTokens) / 2 then breakPoint + 1 else cut
  }

  /** `BreaksAt` admits exactly one end. */
  lemma BreaksAtUnique(text: string, start: nat, maxTokens: nat, r1: nat, r2: nat)
    requires start + MaxChars(maxTokens) < |text|
    requires BreaksAt(text, start, maxTokens, r1) && BreaksAt(text, start, maxTokens, r2)
    ensures r1 == r2
  {
  }

  /** The window end the source computes is `WindowEnd`. */
  lemma SearchEndIsWindowEnd(text: string, start: nat, maxTokens: nat)
    requires maxTokens > 0 && start + MaxChars(maxTokens) < |text|
    ensures WindowEnd(text, start, maxTokens) == SearchEnd(text, start, maxTokens)
  {
    BreakSearch(text, start, maxTokens);
    WindowEndBreaksAt(text, start, maxTokens);
    BreaksAtUnique(text, start, maxTokens, WindowEnd(text, start, maxTokens), SearchEnd(text, start, maxTokens));
  }

  /** `Math.max(endIndex - overlapChars, endIndex)`: never before `end`, and
      exactly `end` whenever the overlap is not negative. */
  function NextStart(end: nat, overlapChars: int): (r: nat)
    ensures r >= end
    ensures overlapChars >= 0 ==> r == end
    ensures overlapChars < 0 ==> r == end - overlapChars
  {
    Max(end - overlapChars, end)
  }

  /** The chunks the loop pushes from `start` on, when `k` chunks were pushed
      before: a window whose trimmed slice is not empty is pushed with
      `chunkIndex` = the number pushed before it. */
  function ChunksFrom(text: string, start: nat, maxTokens: nat, overlapTokens: int, k: nat): seq<DocumentChunk>
    requires maxTokens > 0
    decreases |text| - start
  {
    if start >= |text| then []
    else
      var end := WindowEnd(text, start, maxTokens);
      var t := Trim(text[start..end]);
      var next := NextStart(end, overlapTokens * 4);
      if t != [] then [DocumentChunk(t, ChunkMetadata(start, end, k))] + ChunksFrom(text, next, maxTokens, overlapTokens, k + 1)
      else ChunksFrom(text, next, maxTokens, overlapTokens, k)
  }

  /** What `chunkText(text, maxTokens, overlapTokens)` returns. */
  function Chunks(text: string, maxTokens: nat, overlapTokens: int): seq<DocumentChunk>
    requires maxTokens > 0
  {
    ChunksFrom(text, 0, maxTokens, overlapTokens, 0)
  }

  /** `chunkText`. `maxTokens` must be positive. With `maxTokens == 0` and
      a non-negative overlap every window of a non-empty text is empty and
      the next start equals the current one, so the source loops forever. */
  method ChunkText(text: string, maxTokens: nat, overlapTokens: int) returns (chunks: seq<DocumentChunk>)
    requires maxTokens > 0
    ensures chunks == Chunks(text, maxTokens, overlapTokens)
  {
    var overlapChars := overlapTokens * 4;
    chunks := [];
    var startIndex: nat := 0;
    ghost var all := Chunks(text, maxTokens, overlapTokens);
    ghost var rest := all;
    ghost var pushed := 0;
    while startIndex < |text|
      invariant pushed == |chunks|
      invariant rest == ChunksFrom(text, startIndex, maxTokens, overlapTokens, pushed)
      invariant chunks + rest == all
      decreases |text| - startIndex
    {
      var endIndex := FindWindowEnd(text, startIndex, maxTokens);
      var chunkText := Trim(text[startIndex..endIndex]);
      var nextStart := Max(endIndex - overlapChars, endIndex);
      if |chunkText| > 0 {
        var chunk := DocumentChunk(chunkText, ChunkMetadata(startIndex, endIndex, |chunks|));
        StepPush(text, maxTokens, overlapTokens, pushed, startIndex, endIndex, nextStart);
        ShiftOne(chunks, chunk, ChunksFrom(text, nextStart, maxTokens, overlapTokens, pushed + 1), rest, all);
        rest := ChunksFrom(text, nextStart, maxTokens, overlapTokens, pushed + 1);
        chunks := chunks + [chunk];
        pushed := pushed + 1;
      } else {
        StepSkip(text, maxTokens, overlapTokens, pushed, startIndex, endIndex, nextStart);
        rest := ChunksFrom(text, nextStart, maxTokens, overlapTokens, pushed);
      }
      startIndex := nextStart;
    }
    assert chunks + [] == chunks;
  }

  /** The end of the window starting at `startIndex`, computed as the loop
      body does: cut at `maxChars`, then move back to just after the last '.'
      or '\n' when that lies past the window's midpoint. */
  method FindWindowEnd(text: string, startIndex: nat, maxTokens: nat) returns (endIndex: nat)
    requires maxTokens > 0 && startIndex < |text|
    ensures endIndex == WindowEnd(text, startIndex, maxTokens)
  {
    var maxChars := MaxChars(maxTokens);
    endIndex := Min(startIndex + maxChars, |text|);
    if endIndex < |text| {
      var lastSentence := LastIndexOf(text, '.', endIndex);
      var lastNewline := LastIndexOf(text, '\n', endIndex);
      var breakPoint := Max(lastSentence, lastNewline);
      if breakPoint > startIndex + maxChars / 2 {
        endIndex := breakPoint + 1;
      }
      SearchEndIsWindowEnd(text, startIndex, maxTokens);
    }
  }

  /** A window `[start, end)` that is not blank gives the next chunk, numbered
      `k`; the chunks after it start where the loop resumes. */
  lemma StepPush(text: string, maxTokens: nat, overlapTokens: int, k: nat, start: nat, end: nat, next: nat)
    requires maxTokens > 0 && start < |text|
    requires end == WindowEnd(text, start, maxTokens) && next == NextStart(end, overlapTokens * 4)
    requires |Trim(text[start..end])| > 0
    ensures ChunksFrom(text, start, maxTokens, overlapTokens, k)
         == [DocumentChunk(Trim(text[start..end]), ChunkMetadata(start, end, k))] + ChunksFrom(text, next, maxTokens, overlapTokens, k + 1)
  {
  }

  /** A blank window `[start, end)` gives no chunk. */
  lemma StepSkip(text: string, maxTokens: nat, overlapTokens: int, k: nat, start: nat, end: nat, next: nat)
    requires maxTokens > 0 && start < |text|
    requires end == WindowEnd(text, start, maxTokens) && next == NextStart(end, overlapTokens * 4)
    requires |Trim(text[start..end])| == 0
    ensures ChunksFrom(text, start, maxTokens, overlapTokens, k) == ChunksFrom(text, next, maxTokens, overlapTokens, k)
  {
  }

  /** Moving the first element still to do onto the end of what is done keeps
      their concatenation. */
  lemma ShiftOne<T>(done: seq<T>, x: T, later: seq<T>, todo: seq<T>, all: seq<T>)
    requires done + todo == all && todo == [x] + later
    ensures (done + [x]) + later == all
  {
    assert done + ([x] + later) == (done + [x]) + later;
  }

  // ------------------------------------------------------------------ shape

  /** Chunk `i` carries `chunkIndex` `k + i`. */
  predicate Numbered(cs: seq<DocumentChunk>, k: nat) {
    forall i :: 0 <= i < |cs| ==> cs[i].metadata.chunkIndex == k + i
  }

  /** Each chunk is a range of `text` starting at or after `start` and ending
      where `WindowEnd` ends a window starting there; its text is the trimmed
      slice of that range, and is not empty. */
  predicate Windowed(text: string, cs: seq<DocumentChunk>, start: nat, maxTokens: nat)
    requires maxTokens > 0
  {
    forall c :: c in cs ==>
      && start <= c.metadata.startIndex < |text|
      && c.metadata.endIndex == WindowEnd(text, c.metadata.startIndex, maxTokens)
      && c.text == Trim(text[c.metadata.startIndex..c.metadata.endIndex])
      && c.text != []
  }

  /** Each chunk ends no later than the next one starts. */
  predicate Ordered(cs: seq<DocumentChunk>) {
    forall i :: 0 <= i < |cs| - 1 ==> cs[i].metadata.endIndex <= cs[i + 1].metadata.startIndex
  }

  lemma {:induction false} ChunksFromNumbered(text: string, start: nat, maxTokens: nat, overlapTokens: int, k: nat)
    requires maxTokens > 0
    ensures Numbered(ChunksFrom(text, start, maxTokens, overlapTokens, k), k)
    decreases |text| - start
  {
    if start < |text| {
      var end := WindowEnd(text, start, maxTokens);
      var next := NextStart(end, overlapTokens * 4);
      if |Trim(text[start..end])| > 0 {
        StepPush(text, maxTokens, overlapTokens, k, start, end, next);
        ChunksFromNumbered(text, next, maxTokens, overlapTokens, k + 1);
        var rest := ChunksFrom(text, next, maxTokens, overlapTokens, k + 1);
        var c := DocumentChunk(Trim(text[start..end]), ChunkMetadata(start, end, k));
        forall i | 1 <= i < |rest| + 1
          ensures ([c] + rest)[i] == rest[i - 1]
        {
        }
      } else {
        StepSkip(text, maxTokens, overlapTokens, k, start, end, next);
        ChunksFromNumbered(text, next, maxTokens, overlapTokens, k);
      }
    }
  }

  lemma {:induction false} ChunksFromWindowed(text: string, start: nat, maxTokens: nat, overlapTokens: int, k: nat)
    requires maxTokens > 0
    ensures Windowed(text, ChunksFrom(text, start, maxTokens, overlapTokens, k), start, maxTokens)
    decreases |text| - start
  {
    if start < |text| {
      var end := WindowEnd(text, start, maxTokens);
      var next := NextStart(end, overlapTokens * 4);
      if |Trim(text[start..end])| > 0 {
        StepPush(text, maxTokens, overlapTokens, k, start, end, next);
        ChunksFromWindowed(text, next, maxTokens, overlapTokens, k + 1);
      } else {
        StepSkip(text, maxTokens, overlapTokens, k, start, end, next);
        ChunksFromWindowed(text, next, maxTokens, overlapTokens, k);
      }
    }
  }

  lemma {:induction false} ChunksFromOrdered(text: string, start: nat, maxTokens: nat, overlapTokens: int, k: nat)
    requires maxTokens > 0
    ensures Ordered(ChunksFrom(text, start, maxTokens, overlapTokens, k))
    decreases |text| - start
  {
    if start < |text| {
      var end := WindowEnd(text, start, maxTokens);
      var next := NextStart(end, overlapTokens * 4);
      if |Trim(text[start..end])| > 0 {
        StepPush(text, maxTokens, overlapTokens, k, start, end, next);
        ChunksFromOrdered(text, next, maxTokens, overlapTokens, k + 1);
        ChunksFromWindowed(text, next, maxTokens, overlapTokens, k + 1);
        var rest := ChunksFrom(text, next, maxTokens, overlapTokens, k + 1);
        var c := DocumentChunk(Trim(text[start..end]), ChunkMetadata(start, end, k));
        if |rest| > 0 {
          assert rest[0] in rest;
        }
        forall i | 1 <= i < |rest| + 1
          ensures ([c] + rest)[i] == rest[i - 1]
        {
        }
      } else {
        StepSkip(text, maxTokens, overlapTokens, k, start, end, next);
        ChunksFromOrdered(text, next, maxTokens, overlapTokens, k);
      }
    }
  }

  /** Every chunk of `chunkText` is numbered by its position, lies inside the
      text, holds the trimmed non-empty slice of its range, is at most
      `maxTokens * 4 + 1` characters wide, ends where `WindowEnd` puts it, and
      the chunks come in text order without overlap. */
  lemma ChunksWellFormed(text: string, maxTokens: nat, overlapTokens: int)
    requires maxTokens > 0
    ensures Numbered(Chunks(text, maxTokens, overlapTokens), 0)
    ensures Windowed(text, Chunks(text, maxTokens, overlapTokens), 0, maxTokens)
    ensures Ordered(Chunks(text, maxTokens, overlapTokens))
    ensures forall c :: c in Chunks(text, maxTokens, overlapTokens) ==>
      c.metadata.endIndex - c.metadata.startIndex <= MaxChars(maxTokens) + 1
  {
    ChunksFromNumbered(text, 0, maxTokens, overlapTokens, 0);
    ChunksFromWindowed(text, 0, maxTokens, overlapTokens, 0);
    ChunksFromOrdered(text, 0, maxTokens, overlapTokens, 0);
  }

  // ------------------------------------------------------------------ coverage

  /** Position `p` lies in the range of some chunk. */
  predicate Covered(cs: seq<DocumentChunk>, p: nat) {
    exists i :: 0 <= i < |cs| && cs[i].metadata.startIndex <= p < cs[i].metadata.endIndex
  }

  /** With a non-negative overlap no non-space character at or after `start`
      is lost: each lies in the range of some chunk. */
  lemma {:induction false} ChunksFromCover(text: string, start: nat, maxTokens: nat, overlapTokens: int, k: nat, p: nat)
    requires maxTokens > 0 && overlapTokens >= 0
    requires start <= p < |text| && !IsSpace(text[p])
    ensures Covered(ChunksFrom(text, start, maxTokens, overlapTokens, k), p)
    decreases |text| - start
  {
    var end := WindowEnd(text, start, maxTokens);
    var t := Trim(text[start..end]);
    var next := NextStart(end, overlapTokens * 4);
    assert next == end;
    if p < end {
      assert text[start..end][p - start] == text[p];
      assert t != [];
      var cs := ChunksFrom(text, start, maxTokens, overlapTokens, k);
      assert cs[0].metadata.startIndex <= p < cs[0].metadata.endIndex;
    } else if t != [] {
      ChunksFromCover(text, next, maxTokens, overlapTokens, k + 1, p);
      var rest := ChunksFrom(text, next, maxTokens, overlapTokens, k + 1);
      var c := DocumentChunk(t, ChunkMetadata(start, end, k));
      var i :| 0 <= i < |rest| && rest[i].metadata.startIndex <= p < rest[i].metadata.endIndex;
      assert ([c] + rest)[i + 1] == rest[i];
    } else {
      ChunksFromCover(text, next, maxTokens, overlapTokens, k, p);
    }
  }

  /** With a non-negative overlap every non-space character of the text lies
      in the range of some chunk. */
  lemma ChunksCoverText(text: string, maxTokens: nat, overlapTokens: int, p: nat)
    requires maxTokens > 0 && overlapTokens >= 0
    requires p < |text| && !IsSpace(text[p])
    ensures Covered(Chunks(text, maxTokens, overlapTokens), p)
  {
    ChunksFromCover(text, 0, maxTokens, overlapTokens, 0, p);
  }

  /** A text that is not blank gives at least one chunk (with a non-negative
      overlap), and a blank text (the empty text included) gives none. */
  lemma ChunksEmptyIffBlank(text: string, maxTokens: nat, overlapTokens: int)
    requires maxTokens > 0 && overlapTokens >= 0
    ensures Chunks(text, maxTokens, overlapTokens) == [] <==> IsBlank(text)
  {
    if !IsBlank(text) {
      var p :| 0 <= p < |text| && !IsSpace(text[p]);
      ChunksCoverText(text, maxTokens, overlapTokens, p);
    } else {
      BlankNoChunks(text, 0, maxTokens, overlapTokens, 0);
    }
  }

  /** A blank text has no non-blank window, whatever the overlap. */
  lemma {:induction false} BlankNoChunks(text: string, start: nat, maxTokens: nat, overlapTokens: int, k: nat)
    requires maxTokens > 0 && IsBlank(text)
    ensures ChunksFrom(text, start, maxTokens, overlapTokens, k) == []
    decreases |text| - start
  {
    if start < |text| {
      var end := WindowEnd(text, start, maxTokens);
      assert forall i :: 0 <= i < end - start ==> text[start..end][i] == text[start + i];
      BlankNoChunks(text, NextStart(end, overlapTokens * 4), maxTokens, overlapTokens, k);
    }
  }

  /** A text of at most `maxTokens * 4` characters that is not blank gives
      exactly one chunk, spanning the whole text. */
  lemma ShortTextSingleChunk(text: string, maxTokens: nat, overlapTokens: int)
    requires maxTokens > 0
    requires |text| <= MaxChars(maxTokens) && !IsBlank(text)
    ensures Chunks(text, maxTokens, overlapTokens) == [DocumentChunk(Trim(text), ChunkMetadata(0, |text|, 0))]
  {
    var end := WindowEnd(text, 0, maxTokens);
    assert text[0..end] == text;
    assert ChunksFrom(text, NextStart(end, overlapTokens * 4), maxTokens, overlapTokens, 1) == [];
  }

  /** Any non-negative overlap gives the same chunks as no overlap at all:
      `Math.max(endIndex - overlapChars, endIndex)` is always `endIndex`. */
  lemma {:induction false} OverlapHasNoEffect(text: string, start: nat, maxTokens: nat, overlapTokens: int, k: nat)
    requires maxTokens > 0 && overlapTokens >= 0
    ensures ChunksFrom(text, start, maxTokens, overlapTokens, k) == ChunksFrom(text, start, maxTokens, 0, k)
    decreases |text| - start
  {
    if start < |text| {
      var end := WindowEnd(text, start, maxTokens);
      OverlapHasNoEffect(text, end, maxTokens, overlapTokens, k);
      OverlapHasNoEffect(text, end, maxTokens, overlapTokens, k + 1);
    }
  }

  /** A negative overlap skips `-overlapTokens * 4` characters after each
      window: the next chunk starts at least that far past the previous end. */
  predicate SkipsAfter(cs: seq<DocumentChunk>, gap: nat) {
    forall i :: 0 <= i < |cs| - 1 ==> cs[i + 1].metadata.startIndex >= cs[i].metadata.endIndex + gap
  }

  lemma {:induction false} NegativeOverlapSkips(text: string, start: nat, maxTokens: nat, overlapTokens: int, k: nat)
    requires maxTokens > 0 && overlapTokens < 0
    ensures SkipsAfter(ChunksFrom(text, start, maxTokens, overlapTokens, k), -overlapTokens * 4)
    decreases |text| - start
  {
    if start < |text| {
      var end := WindowEnd(text, start, maxTokens);
      var next := NextStart(end, overlapTokens * 4);
      if |Trim(text[start..end])| > 0 {
        StepPush(text, maxTokens, overlapTokens, k, start, end, next);
        NegativeOverlapSkips(text, next, maxTokens, overlapTokens, k + 1);
        ChunksFromWindowed(text, next, maxTokens, overlapTokens, k + 1);
        var rest := ChunksFrom(text, next, maxTokens, overlapTokens, k + 1);
        var c := DocumentChunk(Trim(text[start..end]), ChunkMetadata(start, end, k));
        if |rest| > 0 {
          assert rest[0] in rest;
        }
        forall i | 1 <= i < |rest| + 1
          ensures ([c] + rest)[i] == rest[i - 1]
        {
        }
      } else {
        StepSkip(text, maxTokens, overlapTokens, k, start, end, next);
        NegativeOverlapSkips(text, next, maxTokens, overlapTokens, k);
      }
    }
  }
}

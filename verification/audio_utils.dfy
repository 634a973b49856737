/** The pure helpers of the voice recorder: MIME type choice, duration
    display, size check and format detection. What the browser supports is
    a parameter, `isSupported`, standing for
    `MediaRecorder.isTypeSupported`. */
module AudioUtils {
  import opened Wrappers
  import opened Text

  const Opus: string := "audio/webm;codecs=opus"
  const Webm: string := "audio/webm"

  /** The types `getSupportedMimeTypes` asks about, in order of
      preference. */
  const Candidates: seq<string> := [Opus, Webm, "audio/mp4", "audio/wav", "audio/ogg;codecs=opus", "audio/ogg"]

  const DefaultMaxSizeMB: nat := 10
  const BytesPerMB: nat := 1024 * 1024

  // ------------------------------------------------------------------ MIME types

  /** `xs.filter(keep)`. */
  function Filter(xs: seq<string>, keep: string -> bool): (r: seq<string>)
    ensures |r| <= |xs|
    decreases |xs|
  {
    if xs == [] then [] else (if keep(xs[0]) then [xs[0]] else []) + Filter(xs[1..], keep)
  }

  /** `a` is `b` with some elements left out and the rest in order. */
  predicate IsSubsequence(a: seq<string>, b: seq<string>)
    decreases |b|
  {
    a == [] || (b != [] && ((a[0] == b[0] && IsSubsequence(a[1..], b[1..])) || IsSubsequence(a, b[1..])))
  }

  /** A filter keeps exactly the accepted elements, in their order. */
  lemma {:induction false} FilterSpec(xs: seq<string>, keep: string -> bool)
    ensures IsSubsequence(Filter(xs, keep), xs)
    ensures forall t :: t in Filter(xs, keep) <==> t in xs && keep(t)
    decreases |xs|
  {
    if xs != [] {
      FilterSpec(xs[1..], keep);
      assert xs == [xs[0]] + xs[1..];
      var a := Filter(xs, keep);
      if keep(xs[0]) {
        assert a[0] == xs[0] && a[1..] == Filter(xs[1..], keep);
        assert IsSubsequence(a[1..], xs[1..]);
      } else {
        assert a == Filter(xs[1..], keep);
        assert IsSubsequence(a, xs[1..]);
      }
    }
  }

  /** `getSupportedMimeTypes`. */
  function SupportedMimeTypes(isSupported: string -> bool): seq<string> {
    Filter(Candidates, isSupported)
  }

  /** The supported types are the candidates the browser accepts, in the
      candidates' order. */
  lemma SupportedMimeTypesSpec(isSupported: string -> bool)
    ensures IsSubsequence(SupportedMimeTypes(isSupported), Candidates)
    ensures forall t :: t in SupportedMimeTypes(isSupported) <==> t in Candidates && isSupported(t)
  {
    FilterSpec(Candidates, isSupported);
  }

  /** `getBestMimeType` on the supported list: WebM with Opus, then plain
      WebM, then the first supported type, then WebM anyway. */
  function BestMimeType(supported: seq<string>): string {
    if Opus in supported then Opus
    else if Webm in supported then Webm
    else if supported != [] && supported[0] != [] then supported[0]
    else Webm
  }

  /** The first of `xs` the browser accepts, or WebM when none. */
  function FirstAccepted(xs: seq<string>, isSupported: string -> bool): (r: string)
    ensures r in xs || r == Webm
    decreases |xs|
  {
    if xs == [] then Webm else if isSupported(xs[0]) then xs[0] else FirstAccepted(xs[1..], isSupported)
  }

  /** Since WebM with Opus and plain WebM head the candidates, the
      preference chain is simply the first supported candidate, falling
      back to WebM. */
  lemma BestIsFirstSupported(isSupported: string -> bool)
    ensures BestMimeType(SupportedMimeTypes(isSupported)) == FirstAccepted(Candidates, isSupported)
    ensures var best := BestMimeType(SupportedMimeTypes(isSupported));
      isSupported(best) || (best == Webm && forall t :: t in Candidates ==> !isSupported(t))
  {
    var supported := SupportedMimeTypes(isSupported);
    SupportedMimeTypesSpec(isSupported);
    var rest := Candidates[2..];
    assert Candidates == [Opus, Webm] + rest;
    assert Candidates[1..] == [Webm] + rest;
    if !isSupported(Opus) && !isSupported(Webm) {
      assert supported == Filter(Candidates[1..], isSupported);
      assert Candidates[1..][1..] == rest;
      assert FirstAccepted(Candidates, isSupported) == FirstAccepted(rest, isSupported);
      FirstOfFilter(rest, isSupported);
      assert Opus !in supported && Webm !in supported;
    }
  }

  /** The first element a filter keeps is the first accepted one. */
  lemma {:induction false} FirstOfFilter(xs: seq<string>, keep: string -> bool)
    requires forall t :: t in xs ==> t != []
    ensures Filter(xs, keep) != [] ==> Filter(xs, keep)[0] == FirstAccepted(xs, keep)
    ensures Filter(xs, keep) == [] ==> FirstAccepted(xs, keep) == Webm && forall t :: t in xs ==> !keep(t)
    decreases |xs|
  {
    if xs != [] {
      assert forall t :: t in xs[1..] ==> t in xs;
      FirstOfFilter(xs[1..], keep);
    }
  }

  // ------------------------------------------------------------------ formatDuration

  /** `formatDuration` for a whole number of seconds: minutes and seconds,
      each padded to two digits. */
  function FormatDuration(seconds: nat): string {
    PadStart2(NatToString(seconds / 60)) + ":" + PadStart2(NatToString(seconds % 60))
  }

  /** Padding keeps a digit string's value. */
  lemma PadKeepsValue(s: string)
    requires |s| >= 1 && forall i :: 0 <= i < |s| ==> IsDigit(s[i])
    ensures forall i :: 0 <= i < |PadStart2(s)| ==> IsDigit(PadStart2(s)[i])
    ensures DigitsValue(PadStart2(s)) == DigitsValue(s)
  {
    if |s| == 1 {
      LeadingZeroValue(s);
    }
  }

  /** The display reads back as the duration: the part after the colon is
      exactly two digits worth less than 60, the part before it the
      minutes. */
  lemma FormatDurationReadsBack(seconds: nat)
    ensures var r := FormatDuration(seconds);
      && |r| >= 5 && r[|r| - 3] == ':'
      && (forall i :: 0 <= i < |r| && i != |r| - 3 ==> IsDigit(r[i]))
      && DigitsValue(r[|r| - 2..]) < 60
      && DigitsValue(r[..|r| - 3]) * 60 + DigitsValue(r[|r| - 2..]) == seconds
  {
    var m := PadStart2(NatToString(seconds / 60));
    var s := PadStart2(NatToString(seconds % 60));
    var r := FormatDuration(seconds);
    PadKeepsValue(NatToString(seconds / 60));
    PadKeepsValue(NatToString(seconds % 60));
    NatToStringValue(seconds / 60);
    NatToStringValue(seconds % 60);
    assert |s| == 2;
    assert r[..|r| - 3] == m;
    assert r[|r| - 2..] == s;
  }

  // ------------------------------------------------------------------ validateAudioSize

  function TooLargeMessage(maxSizeMB: nat): string {
    "Audio file is too large. Maximum size is " + NatToString(maxSizeMB) + "MB."
  }

  /** `validateAudioSize`: a file of exactly the limit passes. */
  function ValidateAudioSize(size: nat, maxSizeMB: nat): (r: Result<()>)
    ensures r.Ok? <==> size <= maxSizeMB * BytesPerMB
    ensures r.Err? ==> r.message == TooLargeMessage(maxSizeMB)
  {
    if size > maxSizeMB * BytesPerMB then Err(TooLargeMessage(maxSizeMB)) else Ok(())
  }

  /** A file that passes passes under any larger limit, and so does any
      smaller file; with the default limit the bound is 10 MiB. */
  lemma ValidateAudioSizeMonotone(size: nat, smaller: nat, maxSizeMB: nat, larger: nat)
    requires ValidateAudioSize(size, maxSizeMB).Ok?
    requires smaller <= size && maxSizeMB <= larger
    ensures ValidateAudioSize(smaller, larger).Ok?
    ensures ValidateAudioSize(size, DefaultMaxSizeMB).Ok? <==> size <= 10485760
  {
    assert maxSizeMB * BytesPerMB <= larger * BytesPerMB;
  }

  // ------------------------------------------------------------------ detectAudioFormat

  /** `detectAudioFormat` on the blob's MIME type. */
  function DetectAudioFormat(mimeType: string): (r: string)
    ensures r in ["webm", "mp4", "wav", "ogg", "unknown"]
  {
    if Contains(mimeType, "webm") then "webm"
    else if Contains(mimeType, "mp4") then "mp4"
    else if Contains(mimeType, "wav") then "wav"
    else if Contains(mimeType, "ogg") then "ogg"
    else "unknown"
  }

  /** A named format is one the type mentions, and none mentioned earlier
      in the list; "unknown" means the type mentions none. */
  lemma DetectAudioFormatSpec(mimeType: string)
    ensures var r := DetectAudioFormat(mimeType);
      && (r != "unknown" ==> Contains(mimeType, r))
      && (r == "unknown" <==>
            !Contains(mimeType, "webm") && !Contains(mimeType, "mp4") && !Contains(mimeType, "wav") && !Contains(mimeType, "ogg"))
      && (r == "mp4" ==> !Contains(mimeType, "webm"))
      && (r == "wav" ==> !Contains(mimeType, "webm") && !Contains(mimeType, "mp4"))
      && (r == "ogg" ==> !Contains(mimeType, "webm") && !Contains(mimeType, "mp4") && !Contains(mimeType, "wav"))
  {
    assert "webm" != "unknown" && "mp4" != "unknown" && "wav" != "unknown" && "ogg" != "unknown";
    assert "mp4" != "webm" && "wav" != "webm" && "ogg" != "webm" && "wav" != "mp4" && "ogg" != "mp4" && "ogg" != "wav";
  }
}

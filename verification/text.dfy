/** The JavaScript string built-ins the core relies on (`trim`, `toLowerCase`,
    `includes`, `startsWith`, `endsWith`, `lastIndexOf`, `split`, `join`,
    `slice`, `padStart`, `Number.prototype.toString`), over ASCII: case
    folding and the whitespace class are the ASCII ones. */
module Text {

  function Min(a: int, b: int): int { if a <= b then a else b }
  function Max(a: int, b: int): int { if a >= b then a else b }

  /** ASCII whitespace as `String.prototype.trim` and `\s` see it:
      space, tab, line feed, vertical tab, form feed, carriage return. */
  predicate IsSpace(c: char) {
    c == ' ' || c == '\t' || c == '\n' || c == '\r' || c as int == 11 || c as int == 12
  }

  predicate IsBlank(s: string) {
    forall i :: 0 <= i < |s| ==> IsSpace(s[i])
  }

  // ---------------------------------------------------------------- trim

  /** The first index at or after `lo` that holds no whitespace, or `|s|`. */
  function SkipSpaces(s: string, lo: nat): (r: nat)
    requires lo <= |s|
    ensures lo <= r <= |s|
    ensures forall j :: lo <= j < r ==> IsSpace(s[j])
    ensures r == |s| || !IsSpace(s[r])
    decreases |s| - lo
  {
    if lo < |s| && IsSpace(s[lo]) then SkipSpaces(s, lo + 1) else lo
  }

  /** The end of `s[lo..hi]` once its trailing whitespace is dropped. */
  function DropTrailingSpaces(s: string, lo: nat, hi: nat): (r: nat)
    requires lo <= hi <= |s|
    ensures lo <= r <= hi
    ensures forall j :: r <= j < hi ==> IsSpace(s[j])
    ensures r == lo || !IsSpace(s[r - 1])
    decreases hi
  {
    if lo < hi && IsSpace(s[hi - 1]) then DropTrailingSpaces(s, lo, hi - 1) else hi
  }

  /** `s.trim()`: the infix of `s` left once the whitespace at both ends is
      dropped; it is empty exactly when `s` is blank. */
  function Trim(s: string): (r: string)
    ensures |r| <= |s|
    ensures r == [] || (!IsSpace(r[0]) && !IsSpace(r[|r| - 1]))
    ensures r == [] <==> IsBlank(s)
  {
    var lo := SkipSpaces(s, 0);
    var hi := DropTrailingSpaces(s, lo, |s|);
    assert lo < |s| ==> lo < hi;
    s[lo..hi]
  }

  /** Trimming keeps every character strictly between the first and the last
      non-space character, and drops only whitespace. */
  lemma TrimInfix(s: string)
    ensures exists lo, hi ::
      && 0 <= lo <= hi <= |s| && Trim(s) == s[lo..hi]
      && IsBlank(s[..lo]) && IsBlank(s[hi..])
  {
    var lo := SkipSpaces(s, 0);
    var hi := DropTrailingSpaces(s, lo, |s|);
    assert IsBlank(s[..lo]);
    assert IsBlank(s[hi..]);
  }

  /** Trimming twice is trimming once. */
  lemma TrimIdempotent(s: string)
    ensures Trim(Trim(s)) == Trim(s)
  {
    var t := Trim(s);
    if t != [] {
      assert SkipSpaces(t, 0) == 0;
      assert DropTrailingSpaces(t, 0, |t|) == |t|;
      assert t[0..|t|] == t;
    }
  }

  // ---------------------------------------------------------------- case

  /** ASCII `toLowerCase` of one character. */
  function LowerChar(c: char): (r: char)
    ensures 'A' <= c <= 'Z' ==> r as int == c as int + 32
    ensures !('A' <= c <= 'Z') ==> r == c
  {
    if 'A' <= c <= 'Z' then (c as int + 32) as char else c
  }

  /** ASCII `toLowerCase`. */
  function Lower(s: string): (r: string)
    ensures |r| == |s|
    ensures forall i :: 0 <= i < |s| ==> r[i] == LowerChar(s[i])
  {
    if s == [] then [] else [LowerChar(s[0])] + Lower(s[1..])
  }

  lemma LowerIdempotent(s: string)
    ensures Lower(Lower(s)) == Lower(s)
  {
  }

  lemma LowerConcat(a: string, b: string)
    ensures Lower(a + b) == Lower(a) + Lower(b)
  {
  }

  lemma LowerKeepsSpaces(s: string)
    ensures forall i :: 0 <= i < |s| ==> (IsSpace(Lower(s)[i]) <==> IsSpace(s[i]))
    ensures forall i :: 0 <= i < |s| ==> (Lower(s)[i] == ' ' <==> s[i] == ' ')
  {
  }

  // ---------------------------------------------------------------- search

  predicate StartsWith(s: string, prefix: string) {
    |prefix| <= |s| && s[..|prefix|] == prefix
  }

  predicate EndsWith(s: string, suffix: string) {
    |suffix| <= |s| && s[|s| - |suffix|..] == suffix
  }

  /** `s.includes(sub)`. */
  predicate Contains(s: string, sub: string)
    decreases |s|
  {
    StartsWith(s, sub) || (|s| > 0 && Contains(s[1..], sub))
  }

  predicate OccursAt(s: string, sub: string, i: int) {
    0 <= i <= |s| - |sub| && s[i..i + |sub|] == sub
  }

  /** `s.includes(sub)` in terms of a position: both directions. */
  lemma {:induction false} ContainsAt(s: string, sub: string)
    ensures Contains(s, sub) <==> exists i :: OccursAt(s, sub, i)
    decreases |s|
  {
    if StartsWith(s, sub) {
      assert OccursAt(s, sub, 0);
    } else if |s| > 0 {
      ContainsAt(s[1..], sub);
      if Contains(s[1..], sub) {
        var i :| OccursAt(s[1..], sub, i);
        assert s[i + 1..i + 1 + |sub|] == s[1..][i..i + |sub|];
        assert OccursAt(s, sub, i + 1);
      }
      if exists i :: OccursAt(s, sub, i) {
        var i :| OccursAt(s, sub, i);
        assert i != 0;
        assert s[1..][i - 1..i - 1 + |sub|] == s[i..i + |sub|];
        assert OccursAt(s[1..], sub, i - 1);
      }
    }
  }

  /** A string cannot contain a pattern holding a character it lacks. */
  lemma MissingCharNotContained(s: string, sub: string, c: char)
    requires c in sub && c !in s
    ensures !Contains(s, sub)
  {
    ContainsAt(s, sub);
  }

  /** Prisma's `contains` with `mode: "insensitive"` and JavaScript's
      `a.toLowerCase().includes(b.toLowerCase())`. */
  predicate ContainsCI(s: string, sub: string) {
    Contains(Lower(s), Lower(sub))
  }

  lemma {:induction false} ContainsEmpty(s: string)
    ensures Contains(s, "")
  {
    assert StartsWith(s, "");
  }

  /** Number of matches of the literal `pat` found by `s.match(new RegExp(pat, "g"))`:
      leftmost, non-overlapping; an empty pattern matches at every position. */
  function CountMatches(s: string, pat: string): nat
    decreases |s|
  {
    if |pat| == 0 then |s| + 1
    else if |s| < |pat| then 0
    else if StartsWith(s, pat) then 1 + CountMatches(s[|pat|..], pat)
    else CountMatches(s[1..], pat)
  }

  /** A literal occurs at least once exactly when `includes` finds it. */
  lemma {:induction false} CountMatchesPositive(s: string, pat: string)
    ensures CountMatches(s, pat) > 0 <==> Contains(s, pat)
    decreases |s|
  {
    if |pat| == 0 {
      assert StartsWith(s, pat);
    } else if |s| < |pat| {
      NotContainsLonger(s, pat);
    } else if !StartsWith(s, pat) {
      CountMatchesPositive(s[1..], pat);
    }
  }

  lemma {:induction false} NotContainsLonger(s: string, pat: string)
    requires |s| < |pat|
    ensures !Contains(s, pat)
    decreases |s|
  {
    if |s| > 0 {
      NotContainsLonger(s[1..], pat);
    }
  }

  /** `s.lastIndexOf(c, pos)` for a one-character search string: the largest
      index `<= pos` holding `c`, or -1. */
  function LastIndexOf(s: string, c: char, pos: nat): (r: int)
    ensures -1 <= r <= pos && r < |s|
    ensures r >= 0 ==> s[r] == c
    ensures forall j :: r < j <= pos && j < |s| ==> s[j] != c
    decreases pos
  {
    if pos < |s| && s[pos] == c then pos
    else if pos == 0 then -1
    else LastIndexOf(s, c, pos - 1)
  }

  // ---------------------------------------------------------------- split / join

  /** `a.join(sep)`. */
  function Join(parts: seq<string>, sep: string): string
    decreases |parts|
  {
    if |parts| == 0 then ""
    else if |parts| == 1 then parts[0]
    else parts[0] + sep + Join(parts[1..], sep)
  }

  /** `s.split(sep)` for a one-character separator: the maximal
      separator-free pieces, empty pieces included. */
  function SplitOn(s: string, sep: char): (r: seq<string>)
    ensures |r| >= 1
    ensures forall k, i :: 0 <= k < |r| && 0 <= i < |r[k]| ==> r[k][i] != sep
    decreases |s|
  {
    if s == [] then [""]
    else if s[0] == sep then [""] + SplitOn(s[1..], sep)
    else
      var rest := SplitOn(s[1..], sep);
      [[s[0]] + rest[0]] + rest[1..]
  }

  /** Splitting and joining again on the same separator gives back the string. */
  lemma {:induction false} SplitOnJoin(s: string, sep: char)
    ensures Join(SplitOn(s, sep), [sep]) == s
    decreases |s|
  {
    if s != [] {
      SplitOnJoin(s[1..], sep);
      var rest := SplitOn(s[1..], sep);
      if s[0] != sep && |rest| > 1 {
        assert rest == [rest[0]] + rest[1..];
        assert Join(rest, [sep]) == rest[0] + [sep] + Join(rest[1..], [sep]);
      }
    }
  }

  /** Length of the leading run of non-whitespace characters. */
  function WordLength(s: string): (n: nat)
    ensures 0 <= n <= |s|
    ensures forall i :: 0 <= i < n ==> !IsSpace(s[i])
    ensures n < |s| ==> IsSpace(s[n])
  {
    if s == [] || IsSpace(s[0]) then 0 else 1 + WordLength(s[1..])
  }

  /** The non-empty pieces of `s.split(/\s+/)`: the maximal runs of
      non-whitespace characters, in order. */
  function Words(s: string): (r: seq<string>)
    ensures forall k :: 0 <= k < |r| ==> |r[k]| > 0 && !HasSpace(r[k])
    decreases |s|
  {
    if s == [] then []
    else if IsSpace(s[0]) then Words(s[1..])
    else
      var n := WordLength(s);
      [s[..n]] + Words(s[n..])
  }

  predicate HasSpace(s: string) {
    exists i :: 0 <= i < |s| && IsSpace(s[i])
  }

  // ---------------------------------------------------------------- numbers

  function DigitChar(d: nat): char
    requires d < 10
  {
    ('0' as int + d) as char
  }

  predicate IsDigit(c: char) { '0' <= c <= '9' }

  /** `n.toString()` for a non-negative integer. */
  function NatToString(n: nat): (r: string)
    ensures |r| >= 1
    ensures forall i :: 0 <= i < |r| ==> IsDigit(r[i])
    ensures n < 10 ==> |r| == 1
    ensures 10 <= n < 100 ==> |r| == 2
    ensures n >= 10 ==> r[0] != '0'
  {
    if n < 10 then [DigitChar(n)] else NatToString(n / 10) + [DigitChar(n % 10)]
  }

  /** The value of a string of decimal digits. */
  function DigitsValue(s: string): nat
    requires forall i :: 0 <= i < |s| ==> IsDigit(s[i])
  {
    if s == [] then 0
    else
      assert IsDigit(s[|s| - 1]);
      10 * DigitsValue(s[..|s| - 1]) + (s[|s| - 1] as int - '0' as int)
  }

  /** Reading back what `toString` wrote gives the number. */
  lemma {:induction false} NatToStringValue(n: nat)
    ensures DigitsValue(NatToString(n)) == n
  {
    if n >= 10 {
      NatToStringValue(n / 10);
      var s := NatToString(n);
      assert s[..|s| - 1] == NatToString(n / 10);
    }
  }

  /** A leading zero does not change the value of a digit string. */
  lemma {:induction false} LeadingZeroValue(s: string)
    requires forall i :: 0 <= i < |s| ==> IsDigit(s[i])
    ensures DigitsValue("0" + s) == DigitsValue(s)
    decreases |s|
  {
    if s != [] {
      LeadingZeroValue(s[..|s| - 1]);
      assert ("0" + s)[..|s|] == "0" + s[..|s| - 1];
    }
  }

  /** `s.padStart(2, "0")`. */
  function PadStart2(s: string): (r: string)
    ensures |s| >= 2 ==> r == s
    ensures |s| < 2 ==> |r| == 2 && r[2 - |s|..] == s
    ensures forall i :: 0 <= i < 2 - |s| ==> r[i] == '0'
  {
    if |s| >= 2 then s else if |s| == 1 then "0" + s else "00"
  }

  /** `s.slice(0, n)`, which is also `s.substring(0, n)` for `n >= 0`. */
  function Take<T>(s: seq<T>, n: nat): (r: seq<T>)
    ensures |r| == Min(n, |s|)
    ensures r == s[..|r|]
  {
    if n <= |s| then s[..n] else s
  }

  // ---------------------------------------------------------------- case of pieces

  /** The words of a lower-case string are lower-case. */
  lemma {:induction false} WordsKeepCase(s: string)
    requires Lower(s) == s
    ensures forall w :: w in Words(s) ==> Lower(w) == w
    decreases |s|
  {
    if s != [] {
      assert Lower(s[1..]) == s[1..];
      if IsSpace(s[0]) {
        WordsKeepCase(s[1..]);
      } else {
        var n := WordLength(s);
        assert Lower(s[..n]) == s[..n];
        assert Lower(s[n..]) == s[n..];
        WordsKeepCase(s[n..]);
      }
    }
  }

  /** `parts.map(p => p.toLowerCase())`. */
  function LowerAll(parts: seq<string>): (r: seq<string>)
    ensures |r| == |parts|
    decreases |parts|
  {
    if parts == [] then [] else [Lower(parts[0])] + LowerAll(parts[1..])
  }

  lemma {:induction false} LowerAllMember(parts: seq<string>)
    ensures forall p :: p in parts ==> Lower(p) in LowerAll(parts)
    decreases |parts|
  {
    if parts != [] {
      LowerAllMember(parts[1..]);
    }
  }

  /** Lower-casing before or after splitting on a separator that has no case
      gives the same pieces. */
  lemma {:induction false} SplitOnLower(s: string, sep: char)
    requires !('A' <= sep <= 'Z') && !('a' <= sep <= 'z')
    ensures SplitOn(Lower(s), sep) == LowerAll(SplitOn(s, sep))
    decreases |s|
  {
    if s != [] {
      var ls := Lower(s);
      assert ls[1..] == Lower(s[1..]);
      SplitOnLower(s[1..], sep);
      if s[0] != sep {
        var rest := SplitOn(s[1..], sep);
        assert Lower([s[0]] + rest[0]) == [ls[0]] + Lower(rest[0]);
      }
    }
  }

  // ---------------------------------------------------------------- infixes

  /** What is glued between two strings occurs in the result. */
  lemma ContainsInfix(a: string, b: string, c: string)
    ensures Contains(a + b + c, b)
  {
    assert (a + b + c)[|a|..|a| + |b|] == b;
    assert OccursAt(a + b + c, b, |a|);
    ContainsAt(a + b + c, b);
  }

  /** What is glued inside a piece of a string occurs in the string. */
  lemma ContainsInside(x: string, m: string, y: string, a: string, sub: string, b: string)
    requires m == a + sub + b
    ensures Contains(x + m + y, sub)
  {
    assert x + m + y == (x + a) + sub + (b + y);
    ContainsInfix(x + a, sub, b + y);
  }

  /** A match survives putting text in front. */
  lemma ContainsAfterPrefix(p: string, s: string, sub: string)
    requires Contains(s, sub)
    ensures Contains(p + s, sub)
  {
    ContainsAt(s, sub);
    var i :| OccursAt(s, sub, i);
    assert s == s[..i] + sub + s[i + |sub|..];
    assert p + s == (p + s[..i]) + sub + s[i + |sub|..];
    ContainsInfix(p + s[..i], sub, s[i + |sub|..]);
  }

  /** Each part of a join sits between two strings of the result. */
  lemma {:induction false} JoinInfix(parts: seq<string>, sep: string, k: nat)
    requires k < |parts|
    ensures exists x, y :: Join(parts, sep) == x + parts[k] + y
    decreases |parts|
  {
    if |parts| == 1 {
      assert Join(parts, sep) == "" + parts[0] + "";
    } else if k == 0 {
      assert Join(parts, sep) == "" + parts[0] + (sep + Join(parts[1..], sep));
    } else {
      JoinInfix(parts[1..], sep, k - 1);
      var x, y :| Join(parts[1..], sep) == x + parts[1..][k - 1] + y;
      assert Join(parts, sep) == (parts[0] + sep + x) + parts[k] + y;
    }
  }

  /** A join holds each of its parts. */
  lemma JoinContains(parts: seq<string>, sep: string, k: nat)
    requires k < |parts|
    ensures Contains(Join(parts, sep), parts[k])
  {
    JoinInfix(parts, sep, k);
    var x, y :| Join(parts, sep) == x + parts[k] + y;
    ContainsInfix(x, parts[k], y);
  }
}

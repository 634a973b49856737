/** The ranking chain both retrieval scorers end with:
    `.filter(c => c.relevanceScore > 0).sort((a, b) => b.relevanceScore - a.relevanceScore).slice(0, k)`.
    `Array.prototype.sort` is stable, so chunks with equal scores keep the
    order they came in; `Sort` is the stable insertion sort that has the same
    result. Scores are integers (each scorer scales its own). */
module Ranking {

  datatype Scored<T> = Scored(item: T, score: int)

  /** `.filter(c => c.relevanceScore > 0)`. */
  function Positive<T>(xs: seq<Scored<T>>): (r: seq<Scored<T>>)
    ensures |r| <= |xs|
    ensures forall k :: 0 <= k < |r| ==> r[k].score > 0
    decreases |xs|
  {
    if xs == [] then []
    else (if xs[0].score > 0 then [xs[0]] else []) + Positive(xs[1..])
  }

  /** Non-increasing by score. */
  predicate Descending<T>(xs: seq<Scored<T>>) {
    forall i, j :: 0 <= i < j < |xs| ==> xs[i].score >= xs[j].score
  }

  /** Puts `x` before the first element it does not score below, so that it
      stays ahead of every later element with its score. */
  function Insert<T>(x: Scored<T>, s: seq<Scored<T>>): (r: seq<Scored<T>>)
    ensures |r| == |s| + 1
    decreases |s|
  {
    if s == [] || x.score >= s[0].score then [x] + s
    else [s[0]] + Insert(x, s[1..])
  }

  /** `.sort((a, b) => b.relevanceScore - a.relevanceScore)`. */
  function Sort<T>(xs: seq<Scored<T>>): (r: seq<Scored<T>>)
    ensures |r| == |xs|
    decreases |xs|
  {
    if xs == [] then [] else Insert(xs[0], Sort(xs[1..]))
  }

  /** The elements scoring exactly `v`, in order. */
  function WithScore<T>(xs: seq<Scored<T>>, v: int): seq<Scored<T>>
    decreases |xs|
  {
    if xs == [] then []
    else (if xs[0].score == v then [xs[0]] else []) + WithScore(xs[1..], v)
  }

  /** The top `k`: positive scores only, best first, ties in input order. */
  function Top<T>(xs: seq<Scored<T>>, k: nat): (r: seq<Scored<T>>)
  {
    var sorted := Sort(Positive(xs));
    if |sorted| <= k then sorted else sorted[..k]
  }

  // ------------------------------------------------------------------ lemmas

  lemma {:induction false} InsertDescending<T>(x: Scored<T>, s: seq<Scored<T>>)
    requires Descending(s)
    ensures Descending(Insert(x, s))
    ensures Insert(x, s)[0] == x || Insert(x, s)[0] == s[0]
    decreases |s|
  {
    if s != [] && x.score < s[0].score {
      InsertDescending(x, s[1..]);
    }
  }

  /** The sort puts scores in non-increasing order. */
  lemma {:induction false} SortDescending<T>(xs: seq<Scored<T>>)
    ensures Descending(Sort(xs))
    decreases |xs|
  {
    if xs != [] {
      SortDescending(xs[1..]);
      InsertDescending(xs[0], Sort(xs[1..]));
    }
  }

  lemma {:induction false} InsertPermutes<T>(x: Scored<T>, s: seq<Scored<T>>)
    ensures multiset(Insert(x, s)) == multiset([x] + s)
    decreases |s|
  {
    if s != [] && x.score < s[0].score {
      InsertPermutes(x, s[1..]);
      assert s == [s[0]] + s[1..];
    }
  }

  /** The sort neither loses nor duplicates an element. */
  lemma {:induction false} SortPermutes<T>(xs: seq<Scored<T>>)
    ensures multiset(Sort(xs)) == multiset(xs)
    decreases |xs|
  {
    if xs != [] {
      SortPermutes(xs[1..]);
      InsertPermutes(xs[0], Sort(xs[1..]));
      assert xs == [xs[0]] + xs[1..];
    }
  }

  lemma {:induction false} WithScoreConcat<T>(a: seq<Scored<T>>, b: seq<Scored<T>>, v: int)
    ensures WithScore(a + b, v) == WithScore(a, v) + WithScore(b, v)
    decreases |a|
  {
    if a != [] {
      WithScoreConcat(a[1..], b, v);
      assert (a + b)[0] == a[0];
      assert (a + b)[1..] == a[1..] + b;
    } else {
      assert a + b == b;
    }
  }

  lemma {:induction false} InsertStable<T>(x: Scored<T>, s: seq<Scored<T>>, v: int)
    ensures WithScore(Insert(x, s), v) == WithScore([x] + s, v)
    decreases |s|
  {
    if s != [] && x.score < s[0].score {
      InsertStable(x, s[1..], v);
      WithScoreConcat([s[0]], Insert(x, s[1..]), v);
      WithScoreConcat([x], s[1..], v);
      WithScoreConcat([x], s, v);
      WithScoreConcat([s[0]], s[1..], v);
      assert s == [s[0]] + s[1..];
    }
  }

  /** The sort is stable: the elements with any one score come out in the
      order they went in. */
  lemma {:induction false} SortStable<T>(xs: seq<Scored<T>>, v: int)
    ensures WithScore(Sort(xs), v) == WithScore(xs, v)
    decreases |xs|
  {
    if xs != [] {
      SortStable(xs[1..], v);
      InsertStable(xs[0], Sort(xs[1..]), v);
      WithScoreConcat([xs[0]], Sort(xs[1..]), v);
      WithScoreConcat([xs[0]], xs[1..], v);
      assert xs == [xs[0]] + xs[1..];
    }
  }

  lemma {:induction false} PositiveKeeps<T>(xs: seq<Scored<T>>)
    ensures multiset(Positive(xs)) <= multiset(xs)
    ensures forall x :: x in xs && x.score > 0 ==> x in Positive(xs)
    decreases |xs|
  {
    if xs != [] {
      PositiveKeeps(xs[1..]);
      assert xs == [xs[0]] + xs[1..];
    }
  }

  /** With every score positive, the positivity filter keeps everything. */
  lemma {:induction false} PositiveAll<T>(xs: seq<Scored<T>>)
    requires forall k :: 0 <= k < |xs| ==> xs[k].score > 0
    ensures Positive(xs) == xs
    decreases |xs|
  {
    if xs != [] {
      PositiveAll(xs[1..]);
    }
  }

  lemma PrefixSubMultiset<T>(s: seq<T>, k: nat)
    requires k <= |s|
    ensures multiset(s[..k]) <= multiset(s)
  {
    assert s == s[..k] + s[k..];
  }

  /** The top `k` holds at most `k` elements, all with a positive score, in
      non-increasing order. */
  lemma TopOrdered<T>(xs: seq<Scored<T>>, k: nat)
    ensures |Top(xs, k)| <= k
    ensures forall i :: 0 <= i < |Top(xs, k)| ==> Top(xs, k)[i].score > 0
    ensures Descending(Top(xs, k))
  {
    var p := Positive(xs);
    SortDescending(p);
    SortKeepsPositive(p);
  }

  /** Sorting a list of positive scores leaves them all positive. */
  lemma SortKeepsPositive<T>(p: seq<Scored<T>>)
    requires forall k :: 0 <= k < |p| ==> p[k].score > 0
    ensures forall i :: 0 <= i < |Sort(p)| ==> Sort(p)[i].score > 0
  {
    SortPermutes(p);
    var sorted := Sort(p);
    forall i | 0 <= i < |sorted|
      ensures sorted[i].score > 0
    {
      assert sorted[i] in multiset(p);
    }
  }

  /** Every element of the top `k` is taken from the input (no more often
      than it occurs there); with no more than `k` positive scores the top
      `k` holds every one of them. */
  lemma TopFromInput<T>(xs: seq<Scored<T>>, k: nat)
    ensures multiset(Top(xs, k)) <= multiset(xs)
    ensures |Positive(xs)| <= k ==> multiset(Top(xs, k)) == multiset(Positive(xs))
  {
    var p := Positive(xs);
    SortPermutes(p);
    PositiveKeeps(xs);
    if |p| > k {
      PrefixSubMultiset(Sort(p), k);
    }
  }

  /** Ties keep their input order in the top list: among the elements scoring
      `v`, the top list holds a prefix of them in input order. */
  lemma TopStable<T>(xs: seq<Scored<T>>, k: nat, v: int)
    ensures exists n :: 0 <= n <= |WithScore(Positive(xs), v)| && WithScore(Top(xs, k), v) == WithScore(Positive(xs), v)[..n]
  {
    var p := Positive(xs);
    var sorted := Sort(p);
    SortStable(p, v);
    if |sorted| > k {
      WithScoreConcat(sorted[..k], sorted[k..], v);
      assert sorted == sorted[..k] + sorted[k..];
      var n := |WithScore(sorted[..k], v)|;
      assert WithScore(sorted, v)[..n] == WithScore(sorted[..k], v);
    } else {
      assert WithScore(p, v)[..|WithScore(p, v)|] == WithScore(p, v);
    }
  }
}

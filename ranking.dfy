/** The ranking expressions of the vector search: sort a frame by a score column in
    non-increasing order, then keep its first rows as pandas' `head` does. Scores are
    abstract reals; the sort's order among equal scores is not part of any promise. */
module Ranking {

  /** Every row scores at least as high as every row after it. */
  predicate Descending<T>(xs: seq<T>, score: T -> real) {
    forall i, j :: 0 <= i < j < |xs| ==> score(xs[i]) >= score(xs[j])
  }

  /** Put `x` in front of the first row of `sorted` that scores lower than it. */
  function Insert<T>(x: T, sorted: seq<T>, score: T -> real): (r: seq<T>)
    requires Descending(sorted, score)
    ensures Descending(r, score)
    ensures |r| == |sorted| + 1 && multiset(r) == multiset(sorted) + multiset{x}
    decreases |sorted|
  {
    if sorted == [] || score(x) >= score(sorted[0]) then
      [x] + sorted
    else
      var rest := Insert(x, sorted[1..], score);
      assert sorted == [sorted[0]] + sorted[1..];
      BoundedByHead(x, sorted, rest, score);
      [sorted[0]] + rest
  }

  /** A rearrangement of the tail of a descending sequence plus a lower-scoring row
      scores nowhere above the head. */
  lemma BoundedByHead<T>(x: T, sorted: seq<T>, rest: seq<T>, score: T -> real)
    requires Descending(sorted, score) && sorted != [] && score(x) < score(sorted[0])
    requires multiset(rest) == multiset(sorted[1..]) + multiset{x}
    ensures forall k :: 0 <= k < |rest| ==> score(sorted[0]) >= score(rest[k])
  {
    forall k | 0 <= k < |rest|
      ensures score(sorted[0]) >= score(rest[k])
    {
      assert rest[k] in multiset(rest);
      if rest[k] != x {
        assert rest[k] in multiset(sorted[1..]);
        var j :| 0 <= j < |sorted[1..]| && sorted[1..][j] == rest[k];
        assert sorted[j + 1] == rest[k];
      }
    }
  }

  /** `sort_values(score, ascending=False)`: the same rows, in non-increasing order
      of score. */
  function SortDescending<T>(xs: seq<T>, score: T -> real): (r: seq<T>)
    ensures |r| == |xs| && multiset(r) == multiset(xs)
    ensures Descending(r, score)
    decreases |xs|
  {
    if xs == [] then []
    else
      assert xs == [xs[0]] + xs[1..];
      Insert(xs[0], SortDescending(xs[1..], score), score)
  }

  /** pandas `head(n)`: the first `n` rows, or for a negative `n` all rows but the
      last `-n`. */
  function Head<T>(xs: seq<T>, n: int): (r: seq<T>)
    ensures n >= 0 ==> |r| == if n < |xs| then n else |xs|
    ensures n < 0 ==> |r| == if |xs| + n > 0 then |xs| + n else 0
    ensures r == xs[..|r|]
  {
    var m := if n >= 0 then (if n < |xs| then n else |xs|) else (if |xs| + n > 0 then |xs| + n else 0);
    xs[..m]
  }

  /** Sort by score, highest first, and keep the first `k` rows. */
  function TopK<T>(xs: seq<T>, score: T -> real, k: int): seq<T> {
    Head(SortDescending(xs, score), k)
  }

  /** For a non-negative `k` the ranking keeps `min(k, |xs|)` of the given rows, in
      non-increasing score order, and no row it leaves out scores higher than a row it
      keeps. */
  lemma TopKRanks<T>(xs: seq<T>, score: T -> real, k: int)
    requires k >= 0
    ensures var r := TopK(xs, score, k);
      && |r| == (if k < |xs| then k else |xs|)
      && Descending(r, score)
      && multiset(r) <= multiset(xs)
      && forall x, y :: x in r && y in multiset(xs) - multiset(r) ==> score(x) >= score(y)
  {
    var s := SortDescending(xs, score);
    var r := TopK(xs, score, k);
    var m := |r|;
    assert s == r + s[m..];
    assert multiset(xs) == multiset(r) + multiset(s[m..]);
    assert multiset(xs) - multiset(r) == multiset(s[m..]);
    PrefixOutranks(s, m, score);
  }

  /** In a descending sequence every row of a prefix scores at least as high as every
      row after it. */
  lemma PrefixOutranks<T>(s: seq<T>, m: nat, score: T -> real)
    requires Descending(s, score) && m <= |s|
    ensures forall x, y :: x in s[..m] && y in multiset(s[m..]) ==> score(x) >= score(y)
  {
    forall x, y | x in s[..m] && y in multiset(s[m..])
      ensures score(x) >= score(y)
    {
      var i :| 0 <= i < m && s[..m][i] == x;
      var j :| 0 <= j < |s| - m && s[m..][j] == y;
      assert s[i] == x && s[m + j] == y;
    }
  }
}

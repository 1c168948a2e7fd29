/**
 * The descending, capped ranking behind the "most run" and "most
 * dispatched" queries: the tracked processes, taken in the map's iteration
 * order, sorted by a score from highest to lowest (a stable sort, so equal
 * scores keep their iteration order), and the first `count` kept.
 */
module Ranking {
  import opened Machine
  import opened Collections

  /** Every element has a score. */
  predicate Scored(s: seq<int>, score: map<int, int>)
  {
    forall i | 0 <= i < |s| :: s[i] in score
  }

  /** Scores never increase along the sequence. */
  predicate Descending(s: seq<int>, score: map<int, int>)
    requires Scored(s, score)
  {
    forall i, j | 0 <= i < j < |s| :: score[s[i]] >= score[s[j]]
  }

  /**
   * Insert `x` into a descending sequence after every element scoring at
   * least as high, so that among equal scores the earlier-inserted come first.
   */
  function Insert(x: int, sorted: seq<int>, score: map<int, int>): (r: seq<int>)
    requires x in score && Scored(sorted, score) && Descending(sorted, score)
    ensures |r| == |sorted| + 1
    ensures multiset(r) == multiset(sorted) + multiset{x}
    ensures Scored(r, score) && Descending(r, score)
    ensures forall y | y in r :: y == x || y in sorted
    decreases |sorted|
  {
    if sorted == [] then [x]
    else if score[sorted[0]] >= score[x] then
      var rest := Insert(x, sorted[1..], score);
      assert sorted == [sorted[0]] + sorted[1..];
      assert forall y | y in rest :: score[sorted[0]] >= score[y];
      [sorted[0]] + rest
    else
      [x] + sorted
  }

  /** The stable sort, highest score first: insert each element of `s` in turn. */
  function SortDescending(s: seq<int>, score: map<int, int>): (r: seq<int>)
    requires Scored(s, score)
    ensures multiset(r) == multiset(s)
    ensures |r| == |s|
    ensures Scored(r, score) && Descending(r, score)
    decreases |s|
  {
    if s == [] then []
    else
      var init := s[..|s| - 1];
      assert s == init + [s[|s| - 1]];
      Insert(s[|s| - 1], SortDescending(init, score), score)
  }

  /** The first `count` processes of the sorted order, or all of them when there are fewer. */
  function TopK(order: seq<int>, score: map<int, int>, count: nat): (r: seq<int>)
    requires Scored(order, score)
    ensures |r| == Min(count, |order|)
    ensures Scored(r, score) && Descending(r, score)
  {
    SortDescending(order, score)[..Min(count, |order|)]
  }

  /**
   * The capped ranking holds min(count, |order|) distinct elements of
   * `order`, highest score first, and nothing left out scores higher than
   * anything kept.
   */
  lemma TopKIsRanking(order: seq<int>, score: map<int, int>, count: nat)
    requires Scored(order, score) && Distinct(order)
    ensures var r := TopK(order, score, count);
      && |r| == Min(count, |order|)
      && Distinct(r)
      && (forall i | 0 <= i < |r| :: r[i] in order)
      && Scored(r, score) && Descending(r, score)
      && (forall x, i | x in order && x !in r && 0 <= i < |r| :: score[x] <= score[r[i]])
  {
    var sorted := SortDescending(order, score);
    var k := Min(count, |order|);
    var r := sorted[..k];
    DistinctPermutation(order, sorted);
    forall i | 0 <= i < |r| ensures r[i] in order {
      assert r[i] in multiset(sorted);
    }
    forall x, i | x in order && x !in r && 0 <= i < |r| ensures score[x] <= score[r[i]] {
      assert x in multiset(sorted);
      var j := IndexOf(sorted, x);
    }
  }

  /** A permutation of a sequence without repetitions has none either. */
  lemma DistinctPermutation(s: seq<int>, t: seq<int>)
    requires Distinct(s) && multiset(s) == multiset(t)
    ensures Distinct(t)
  {
    forall i, j | 0 <= i < j < |t| ensures t[i] != t[j] {
      if t[i] == t[j] {
        var x := t[i];
        assert multiset(t)[x] >= 2 by {
          assert t == t[..i] + [x] + t[i + 1..j] + [x] + t[j + 1..];
        }
        DistinctCountsOnce(s, x);
      }
    }
  }

  /** In a sequence without repetitions, every value occurs at most once. */
  lemma {:induction false} DistinctCountsOnce(s: seq<int>, x: int)
    requires Distinct(s)
    ensures multiset(s)[x] <= 1
    decreases |s|
  {
    if s != [] {
      var rest := s[1..];
      assert s == [s[0]] + rest;
      assert Distinct(rest);
      DistinctCountsOnce(rest, x);
      if s[0] == x {
        assert x !in rest;
        assert multiset(rest)[x] == 0;
      }
    }
  }

  /** The position of an element known to occur. */
  lemma IndexOf(s: seq<int>, x: int) returns (i: nat)
    requires x in s
    ensures i < |s| && s[i] == x
  {
    i := 0;
    while s[i] != x
      invariant i < |s| && x in s[i..]
      decreases |s| - i
    {
      assert s[i..] == [s[i]] + s[i + 1..];
      i := i + 1;
    }
  }
}

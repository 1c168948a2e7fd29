/**
 * Facts about sequences of ids used as Java lists and as iteration orders:
 * their elements as a set, and the absence of repetitions.
 */
module Collections {

  /** The elements of a sequence, as a set. */
  function Members(s: seq<int>): (r: set<int>)
    ensures forall p :: p in r <==> p in s
  {
    set p | p in s
  }

  /** No element occurs twice. */
  predicate Distinct(s: seq<int>)
  {
    forall i, j | 0 <= i < j < |s| :: s[i] != s[j]
  }

  lemma MembersSnoc(s: seq<int>, x: int)
    ensures Members(s + [x]) == Members(s) + {x}
  {
  }

  /** One more element of the prefix adds that element. */
  lemma PrefixMembers(s: seq<int>, i: int)
    requires 0 <= i < |s|
    ensures Members(s[..i + 1]) == Members(s[..i]) + {s[i]}
  {
    assert s[..i + 1] == s[..i] + [s[i]];
  }

  /** A sequence has at most as many distinct elements as entries, and exactly as many without repetitions. */
  lemma {:induction false} MembersCount(s: seq<int>)
    ensures |Members(s)| <= |s|
    ensures Distinct(s) ==> |Members(s)| == |s|
    decreases |s|
  {
    if s != [] {
      MembersCount(s[1..]);
      assert Members(s) == {s[0]} + Members(s[1..]);
      if Distinct(s) {
        assert s[0] !in s[1..];
        assert Distinct(s[1..]);
      }
    }
  }
}

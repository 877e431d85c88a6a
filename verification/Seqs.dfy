/** Filtering and pairwise facts about sequences, shared by the tables that
    compact their entry lists. */
module Seqs {

  datatype Option<+T> = None | Some(value: T)

  /** The elements of s that satisfy p, in order. */
  function Filter<T>(s: seq<T>, p: T -> bool): seq<T> {
    if s == [] then []
    else
      var front := Filter(s[..|s| - 1], p);
      if p(s[|s| - 1]) then front + [s[|s| - 1]] else front
  }

  /** Every two elements at different positions are related, earlier one first. */
  ghost predicate Pairwise<T(!new)>(s: seq<T>, related: (T, T) -> bool) {
    forall i, j {:trigger s[i], s[j]} :: 0 <= i < j < |s| ==> related(s[i], s[j])
  }

  lemma {:induction false} FilterMember<T>(s: seq<T>, p: T -> bool, x: T)
    ensures x in Filter(s, p) <==> x in s && p(x)
  {
    if s != [] {
      FilterMember(s[..|s| - 1], p, x);
      assert s == s[..|s| - 1] + [s[|s| - 1]];
    }
  }

  lemma FilterMembers<T(!new)>(s: seq<T>, p: T -> bool)
    ensures forall x :: x in Filter(s, p) <==> x in s && p(x)
  {
    forall x ensures x in Filter(s, p) <==> x in s && p(x) {
      FilterMember(s, p, x);
    }
  }

  /** Filtering keeps any pairwise relation. */
  lemma {:induction false} FilterPairwise<T(!new)>(s: seq<T>, p: T -> bool, related: (T, T) -> bool)
    requires Pairwise(s, related)
    ensures Pairwise(Filter(s, p), related)
  {
    if s != [] {
      var front, last := s[..|s| - 1], s[|s| - 1];
      FilterPairwise(front, p, related);
      forall x | x in Filter(front, p) ensures related(x, last) {
        FilterMember(front, p, x);
        var i :| 0 <= i < |front| && front[i] == x;
        assert related(s[i], s[|s| - 1]);
      }
    }
  }

  lemma {:induction false} FilterLength<T>(s: seq<T>, p: T -> bool)
    ensures |Filter(s, p)| <= |s|
    ensures |Filter(s, p)| == |s| <==> Filter(s, p) == s
  {
    if s != [] {
      FilterLength(s[..|s| - 1], p);
      assert s == s[..|s| - 1] + [s[|s| - 1]];
    }
  }

  lemma {:induction false} FilterAll<T>(s: seq<T>, p: T -> bool)
    requires forall x :: x in s ==> p(x)
    ensures Filter(s, p) == s
  {
    if s != [] {
      FilterAll(s[..|s| - 1], p);
      assert s == s[..|s| - 1] + [s[|s| - 1]];
    }
  }

  lemma PairwiseAppend<T(!new)>(s: seq<T>, x: T, related: (T, T) -> bool)
    requires Pairwise(s, related)
    requires forall y :: y in s ==> related(y, x)
    ensures Pairwise(s + [x], related)
  {
  }
}

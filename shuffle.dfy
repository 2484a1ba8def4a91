/**
 * The role shuffle. The source sorts the role pool with a random comparator; whatever
 * order that produces, the result is a rearrangement of the pool. It is modelled by the
 * index sequence `order`: position i of the shuffled pool holds pool[order[i]].
 */
module Shuffle {

  /** [0, 1, ..., n - 1]. */
  function Indices(n: nat): (r: seq<nat>)
    ensures |r| == n && forall i :: 0 <= i < n ==> r[i] == i
  {
    if n == 0 then [] else Indices(n - 1) + [n - 1]
  }

  /** `order` lists every index below n exactly once. */
  predicate IsShuffle(order: seq<nat>, n: nat) {
    |order| == n && multiset(order) == multiset(Indices(n))
  }

  lemma ShuffleInRange(order: seq<nat>, n: nat)
    requires IsShuffle(order, n)
    ensures forall i :: 0 <= i < |order| ==> order[i] < n
  {
    forall i | 0 <= i < |order| ensures order[i] < n {
      assert order[i] in multiset(order);
      assert order[i] in Indices(n);
    }
  }

  /** The sequence rearranged by `order`. */
  function Permute<T>(s: seq<T>, order: seq<nat>): (r: seq<T>)
    requires forall i :: 0 <= i < |order| ==> order[i] < |s|
    ensures |r| == |order|
    ensures forall i :: 0 <= i < |order| ==> r[i] == s[order[i]]
  {
    seq(|order|, i requires 0 <= i < |order| => s[order[i]])
  }

  /** Dropping position j takes one copy of that element out of the multiset. */
  lemma RemoveAt(order: seq<nat>, j: nat)
    requires j < |order|
    ensures multiset(order[..j] + order[j + 1..]) == multiset(order) - multiset{order[j]}
  {
    assert order == order[..j] + [order[j]] + order[j + 1..];
  }

  /** Taking out the last index from a shuffle of n + 1 leaves a shuffle of n. */
  lemma RemoveLast(order: seq<nat>, n: nat) returns (j: nat, rest: seq<nat>)
    requires IsShuffle(order, n + 1)
    ensures j < |order| && order[j] == n
    ensures rest == order[..j] + order[j + 1..]
    ensures IsShuffle(rest, n)
  {
    assert multiset(Indices(n + 1)) == multiset(Indices(n)) + multiset{n} by {
      assert Indices(n + 1) == Indices(n) + [n];
    }
    assert n in multiset(order);
    j :| 0 <= j < |order| && order[j] == n;
    rest := order[..j] + order[j + 1..];
    RemoveAt(order, j);
  }

  /** Inserting one element anywhere adds it to the multiset. */
  lemma InsertMultiset<T>(p: seq<T>, j: nat, x: T)
    requires j <= |p|
    ensures multiset(p[..j] + [x] + p[j..]) == multiset(p) + multiset{x}
  {
    assert p == p[..j] + p[j..];
  }

  /** Permuting by a shuffle whose last index sits at j: the rest permutes the prefix, plus the last element. */
  lemma PermuteSplit<T>(s: seq<T>, order: seq<nat>, j: nat, rest: seq<nat>)
    requires |s| > 0
    requires j < |order| && order[j] == |s| - 1
    requires rest == order[..j] + order[j + 1..]
    requires forall i :: 0 <= i < |order| ==> order[i] < |s|
    requires forall i :: 0 <= i < |rest| ==> rest[i] < |s| - 1
    ensures multiset(Permute(s, order)) == multiset(Permute(s[..|s| - 1], rest)) + multiset{s[|s| - 1]}
  {
    var p := Permute(s[..|s| - 1], rest);
    var q := p[..j] + [s[|s| - 1]] + p[j..];
    assert |q| == |order|;
    forall i | 0 <= i < |order| ensures Permute(s, order)[i] == q[i] {
      if i < j {
        assert rest[i] == order[i];
      } else if i > j {
        assert rest[i - 1] == order[i];
      }
    }
    assert Permute(s, order) == q;
    InsertMultiset(p, j, s[|s| - 1]);
  }

  /** A shuffle keeps every element with its multiplicity. */
  lemma {:induction false} ShufflePreservesMultiset<T>(s: seq<T>, order: seq<nat>)
    requires IsShuffle(order, |s|)
    ensures forall i :: 0 <= i < |order| ==> order[i] < |s|
    ensures multiset(Permute(s, order)) == multiset(s)
  {
    ShuffleInRange(order, |s|);
    if |s| > 0 {
      var n := |s| - 1;
      var init := s[..n];
      var j, rest := RemoveLast(order, n);
      ShuffleInRange(rest, n);
      ShufflePreservesMultiset(init, rest);
      PermuteSplit(s, order, j, rest);
      assert multiset(s) == multiset(init) + multiset{s[n]} by {
        assert s == init + [s[n]];
      }
    }
  }
}

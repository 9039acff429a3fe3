/** Lists that are permutations of each other.

    The shared multiset says it; what the proofs need is a step: take the last entry of one list away, find
    it in the other and take it away there too, and the rests are still permutations (`MatchLast`). With
    that step a statement about a list is carried over to any other order of it, by induction on the
    length. */
module Permutations {
  /** The indices below `n`, in order. */
  function Iota(n: nat): (s: seq<nat>)
    ensures |s| == n && forall i :: 0 <= i < n ==> s[i] == i
  {
    seq(n, i => i)
  }

  /** A list is one of its entries and the rest. */
  lemma EntryAndRest<T>(b: seq<T>, j: nat)
    requires j < |b|
    ensures multiset(b) == multiset(b[..j] + b[j + 1..]) + multiset{b[j]}
  {
    assert b == b[..j] + [b[j]] + b[j + 1..];
  }

  lemma SameRest<T>(all: multiset<T>, x: T, m: multiset<T>, n: multiset<T>)
    requires m + multiset{x} == all && n + multiset{x} == all
    ensures m == n
  {
    assert m == all - multiset{x} && n == all - multiset{x};
  }

  /** The last entry of one list found in the other, and the rests are still permutations. */
  lemma MatchLast<T>(a: seq<T>, b: seq<T>) returns (j: nat)
    requires |a| > 0 && multiset(a) == multiset(b)
    ensures j < |b| && b[j] == a[|a| - 1]
    ensures multiset(a[..|a| - 1]) == multiset(b[..j] + b[j + 1..])
  {
    var n := |a| - 1;
    var x := a[n];
    assert x in multiset(b);
    j :| 0 <= j < |b| && b[j] == x;
    assert a[..n] + a[n + 1..] == a[..n];
    EntryAndRest(a, n);
    EntryAndRest(b, j);
    SameRest(multiset(a), x, multiset(a[..n]), multiset(b[..j] + b[j + 1..]));
  }
}

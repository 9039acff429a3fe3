/** NDCG@K as `scripts/train_feed_ranker.py` computes it. Scores and labels are exact reals;
    the discount 1/log2(i+2) is any positive strictly decreasing sequence. */
module Ndcg {
  import opened Permutations
  import opened Sorting

  // ---------- sums over sequences ----------

  ghost function SumBy<T>(s: seq<T>, f: T -> real): real {
    if |s| == 0 then 0.0 else f(s[0]) + SumBy(s[1..], f)
  }

  lemma {:induction false} SumByConcat<T>(s: seq<T>, t: seq<T>, f: T -> real)
    ensures SumBy(s + t, f) == SumBy(s, f) + SumBy(t, f)
  {
    if |s| == 0 {
      assert s + t == t;
    } else {
      assert (s + t)[1..] == s[1..] + t;
      SumByConcat(s[1..], t, f);
    }
  }

  lemma SumByWithout<T>(t: seq<T>, j: nat, f: T -> real)
    requires j < |t|
    ensures SumBy(t, f) == SumBy(t[..j] + t[j + 1..], f) + f(t[j])
  {
    var front, back := t[..j], t[j + 1..];
    assert t == front + t[j..];
    assert t[j..][1..] == back;
    SumByConcat(front, t[j..], f);
    SumByConcat(front, back, f);
  }

  /** A sum does not depend on the order of its terms. */
  lemma {:induction false} SumByPermuted<T>(s: seq<T>, t: seq<T>, f: T -> real)
    requires multiset(s) == multiset(t)
    ensures SumBy(s, f) == SumBy(t, f)
    decreases |s|
  {
    if |s| == 0 {
      assert |multiset(t)| == |multiset(s)| == 0;
    } else {
      var j := MatchLast(s, t);
      var n := |s| - 1;
      SumByPermuted(s[..n], t[..j] + t[j + 1..], f);
      SumByWithout(s, n, f);
      SumByWithout(t, j, f);
      assert s[..n] + s[n + 1..] == s[..n];
    }
  }

  // ---------- discounted cumulative gain ----------

  /** What the ranking argument needs of 1 / log2(i + 2). */
  ghost predicate Discount(disc: nat -> real) {
    (forall i :: disc(i) > 0.0) && forall i, j :: i < j ==> disc(i) > disc(j)
  }

  function DcgTo(s: seq<real>, m: nat, disc: nat -> real): real
    requires m <= |s|
  {
    if m == 0 then 0.0 else DcgTo(s, m - 1, disc) + s[m - 1] * disc(m - 1)
  }

  /** `_dcg` */
  function Dcg(s: seq<real>, disc: nat -> real): real {
    DcgTo(s, |s|, disc)
  }

  /** What one item gains at position `i`: the discount of the position. */
  lemma GainOfOne(s: seq<real>, i: nat, disc: nat -> real)
    requires i < |s| && s[i] == 1.0 && forall j :: 0 <= j < |s| && j != i ==> s[j] == 0.0
    ensures Dcg(s, disc) == disc(i)
  {
    GainUpTo(s, |s|, i, disc);
  }

  lemma {:induction false} GainUpTo(s: seq<real>, m: nat, i: nat, disc: nat -> real)
    requires m <= |s| && i < |s| && s[i] == 1.0 && forall j :: 0 <= j < |s| && j != i ==> s[j] == 0.0
    ensures DcgTo(s, m, disc) == if i < m then disc(i) else 0.0
  {
    if m > 0 {
      GainUpTo(s, m - 1, i, disc);
    }
  }

  /** Gains add up, position by position, with any factor: together with `GainOfOne` this says what every
      list gains. */
  lemma {:induction false} GainsAddUp(s: seq<real>, a: seq<real>, b: seq<real>, c: real, m: nat, disc: nat -> real)
    requires |s| == |a| == |b| && m <= |s| && forall i :: 0 <= i < |s| ==> s[i] == a[i] + c * b[i]
    ensures DcgTo(s, m, disc) == DcgTo(a, m, disc) + c * DcgTo(b, m, disc)
  {
    if m > 0 {
      GainsAddUp(s, a, b, c, m - 1, disc);
      OneGainMore(a[m - 1], b[m - 1], c, disc(m - 1), DcgTo(a, m - 1, disc), DcgTo(b, m - 1, disc));
    }
  }

  lemma OneGainMore(x: real, y: real, c: real, d: real, p: real, q: real)
    ensures (p + c * q) + (x + c * y) * d == (p + x * d) + c * (q + y * d)
  {
    assert (x + c * y) * d == x * d + c * (y * d) by {
      assert (c * y) * d == c * (y * d);
    }
    assert c * (q + y * d) == c * q + c * (y * d);
  }

  function Prefix(s: seq<real>, m: nat): real
    requires m <= |s|
  {
    if m == 0 then 0.0 else Prefix(s, m - 1) + s[m - 1]
  }

  ghost predicate Dominates(b: seq<real>, a: seq<real>) {
    |a| == |b| && forall m :: 0 <= m <= |a| ==> Prefix(a, m) <= Prefix(b, m)
  }

  lemma {:induction false} PrefixOfTake(s: seq<real>, n: nat, m: nat)
    requires m <= n <= |s|
    ensures Prefix(s[..n], m) == Prefix(s, m)
  {
    if m > 0 {
      PrefixOfTake(s, n, m - 1);
    }
  }

  ghost predicate AgreeTo(a: seq<real>, b: seq<real>, m: nat)
    requires m <= |a| && m <= |b|
  {
    forall i :: 0 <= i < m ==> a[i] == b[i]
  }

  /** How far the first `m` of `b` are ahead of those of `a`. */
  function Lead(a: seq<real>, b: seq<real>, m: nat): real
    requires m <= |a| && m <= |b|
  {
    if m == 0 then 0.0 else Lead(a, b, m - 1) + (b[m - 1] - a[m - 1])
  }

  /** The same for the discounted sums. */
  function DcgLead(a: seq<real>, b: seq<real>, m: nat, disc: nat -> real): real
    requires m <= |a| && m <= |b|
  {
    if m == 0 then 0.0 else DcgLead(a, b, m - 1, disc) + (b[m - 1] * disc(m - 1) - a[m - 1] * disc(m - 1))
  }

  lemma {:induction false} LeadIs(a: seq<real>, b: seq<real>, m: nat)
    requires m <= |a| && m <= |b|
    ensures Lead(a, b, m) == Prefix(b, m) - Prefix(a, m)
  {
    if m > 0 {
      LeadIs(a, b, m - 1);
    }
  }

  lemma {:induction false} DcgLeadIs(a: seq<real>, b: seq<real>, m: nat, disc: nat -> real)
    requires m <= |a| && m <= |b|
    ensures DcgLead(a, b, m, disc) == DcgTo(b, m, disc) - DcgTo(a, m, disc)
  {
    if m > 0 {
      DcgLeadIs(a, b, m - 1, disc);
    }
  }

  /** `t` is the lead at the discount of the last of the `m` terms. */
  ghost predicate IsGap(t: real, a: seq<real>, b: seq<real>, m: nat, disc: nat -> real)
    requires m <= |a| && m <= |b|
  {
    if m == 0 then t == 0.0 else t == disc(m - 1) * Lead(a, b, m)
  }

  lemma NextGap(a: seq<real>, b: seq<real>, m: nat, disc: nat -> real, t0: real) returns (t: real)
    requires Discount(disc) && 0 < m <= |a| == |b| && Lead(a, b, m - 1) >= 0.0 && Lead(a, b, m) >= 0.0
    requires IsGap(t0, a, b, m - 1, disc) && 0.0 <= t0 <= DcgLead(a, b, m - 1, disc)
    ensures IsGap(t, a, b, m, disc) && 0.0 <= t <= DcgLead(a, b, m, disc)
    ensures DcgLead(a, b, m, disc) == 0.0 ==>
              DcgLead(a, b, m - 1, disc) == 0.0 && Lead(a, b, m - 1) == 0.0 && Lead(a, b, m) == 0.0
  {
    var p := GapFactor(a, b, m - 1, disc, t0);
    var q, x, y := disc(m - 1), a[m - 1], b[m - 1];
    t := q * Lead(a, b, m);
    DcgStep(DcgLead(a, b, m - 1, disc), p, q, Lead(a, b, m - 1), Lead(a, b, m), t0, t, x, y, x * q, y * q);
  }

  /** The discount before the gap, and more than the discount after it. */
  lemma GapFactor(a: seq<real>, b: seq<real>, m: nat, disc: nat -> real, t: real) returns (p: real)
    requires Discount(disc) && m < |a| == |b| && IsGap(t, a, b, m, disc)
    ensures p > disc(m) && t == p * Lead(a, b, m)
  {
    p := if m > 0 then disc(m - 1) else disc(0) + 1.0;
  }

  /** Summation by parts: larger prefix sums give at least as large a discounted sum, and the
      discounted sums agree only when the sequences do. `t` bounds the difference from below. */
  lemma {:induction false} DcgToDominated(a: seq<real>, b: seq<real>, m: nat, disc: nat -> real) returns (t: real)
    requires Discount(disc) && Dominates(b, a) && m <= |a|
    ensures IsGap(t, a, b, m, disc) && 0.0 <= t <= DcgLead(a, b, m, disc)
    ensures DcgLead(a, b, m, disc) == 0.0 ==> AgreeTo(a, b, m)
  {
    if m == 0 {
      t := 0.0;
    } else {
      var t0 := DcgToDominated(a, b, m - 1, disc);
      LeadIs(a, b, m - 1);
      LeadIs(a, b, m);
      t := NextGap(a, b, m, disc, t0);
      SamePrefixes(a, b, m);
    }
  }

  lemma SamePrefixes(a: seq<real>, b: seq<real>, m: nat)
    requires 0 < m <= |a| == |b|
    ensures AgreeTo(a, b, m - 1) && Lead(a, b, m - 1) == 0.0 && Lead(a, b, m) == 0.0 ==> AgreeTo(a, b, m)
  {
  }

  lemma DcgStep(
    diff: real, p: real, q: real, d0: real, d1: real, t0: real, t1: real, x: real, y: real, ex: real, ey: real)
    requires p > q > 0.0 && d0 >= 0.0 && d1 >= 0.0 && y - x == d1 - d0
    requires t0 == p * d0 && t1 == q * d1 && ex == x * q && ey == y * q
    requires 0.0 <= t0 <= diff
    ensures 0.0 <= t1 <= diff + (ey - ex)
    ensures diff + (ey - ex) == 0.0 ==> d0 == 0.0 && d1 == 0.0 && diff == 0.0
  {
    var r := q * d0;
    assert ey - ex == (y - x) * q == t1 - r;
    ScaledBelow(q, p, d0, r, t0);
    ScaledBelow(0.0, q, d1, 0.0, t1);
  }

  lemma ScaledBelow(q: real, p: real, d: real, r: real, t: real)
    requires 0.0 <= q < p && d >= 0.0 && r == q * d && t == p * d
    ensures r <= t && (d > 0.0 ==> r < t)
  {
    var step := p - q;
    var gap := step * d;
    assert t - r == gap;
    if d > 0.0 {
      ProductPositive(step, d, gap);
    }
  }

  lemma ProductPositive(x: real, y: real, z: real)
    requires x > 0.0 && y > 0.0 && z == x * y
    ensures z > 0.0
  {
  }

  lemma DcgDominated(a: seq<real>, b: seq<real>, disc: nat -> real)
    requires Discount(disc) && Dominates(b, a)
    ensures Dcg(a, disc) <= Dcg(b, disc)
    ensures Dcg(a, disc) == Dcg(b, disc) ==> a == b
  {
    var t := DcgToDominated(a, b, |a|, disc);
    DcgLeadIs(a, b, |a|, disc);
  }

  // ---------- the best top of a labelled group ----------

  ghost predicate Descending(s: seq<real>) {
    forall i, j :: 0 <= i < j < |s| ==> s[i] >= s[j]
  }

  ghost function Excess(t: real): real -> real {
    (x: real) => if x > t then x - t else 0.0
  }

  /** One term more of the sums over a threshold. */
  lemma ExcessStep(s: seq<real>, m: nat, t: real)
    requires 0 < m <= |s|
    ensures SumBy(s[..m], Excess(t)) == SumBy(s[..m - 1], Excess(t)) + (if s[m - 1] > t then s[m - 1] - t else 0.0)
  {
    assert s[..m] == s[..m - 1] + [s[m - 1]];
    SumByConcat(s[..m - 1], [s[m - 1]], Excess(t));
    assert [s[m - 1]][1..] == [];
  }

  lemma TimesOneMore(m: nat, t: real)
    requires m > 0
    ensures m as real * t == (m - 1) as real * t + t
  {
  }

  lemma {:induction false} PrefixBelowThreshold(s: seq<real>, m: nat, t: real)
    requires m <= |s|
    ensures Prefix(s, m) <= m as real * t + SumBy(s[..m], Excess(t))
  {
    if m > 0 {
      PrefixBelowThreshold(s, m - 1, t);
      ExcessStep(s, m, t);
      TimesOneMore(m, t);
    }
  }

  lemma {:induction false} PrefixAtThreshold(s: seq<real>, m: nat, t: real)
    requires m <= |s| && forall i :: 0 <= i < m ==> s[i] >= t
    ensures Prefix(s, m) == m as real * t + SumBy(s[..m], Excess(t))
  {
    if m > 0 {
      PrefixAtThreshold(s, m - 1, t);
      ExcessStep(s, m, t);
      TimesOneMore(m, t);
    }
  }

  lemma {:induction false} ExcessNonnegative(s: seq<real>, t: real)
    ensures SumBy(s, Excess(t)) >= 0.0
    ensures (forall x :: x in s ==> x <= t) ==> SumBy(s, Excess(t)) == 0.0
  {
    if |s| > 0 {
      ExcessNonnegative(s[1..], t);
      assert forall x :: x in s[1..] ==> x in s;
      assert s[0] in s;
    }
  }

  lemma SplitExcess(s: seq<real>, m: nat, t: real)
    requires m <= |s|
    ensures SumBy(s, Excess(t)) == SumBy(s[..m], Excess(t)) + SumBy(s[m..], Excess(t))
    ensures SumBy(s[m..], Excess(t)) >= 0.0
    ensures (forall i :: m <= i < |s| ==> s[i] <= t) ==> SumBy(s[m..], Excess(t)) == 0.0
  {
    assert s == s[..m] + s[m..];
    SumByConcat(s[..m], s[m..], Excess(t));
    ExcessNonnegative(s[m..], t);
  }

  lemma TopSum(a: seq<real>, b: seq<real>, m: nat)
    requires 0 < m <= |a| == |b| && Descending(b)
    requires SumBy(a, Excess(b[m - 1])) == SumBy(b, Excess(b[m - 1]))
    ensures Prefix(a, m) <= Prefix(b, m)
  {
    var t := b[m - 1];
    PrefixBelowThreshold(a, m, t);
    PrefixAtThreshold(b, m, t);
    SplitExcess(a, m, t);
    SplitExcess(b, m, t);
  }

  /** The first `m` of a descending rearrangement sum to at least the first `m` of any other. */
  lemma TopIsLargest(a: seq<real>, b: seq<real>)
    requires |a| == |b| && Descending(b)
    requires forall t :: SumBy(a, Excess(t)) == SumBy(b, Excess(t))
    ensures Dominates(b, a)
  {
    forall m | 0 <= m <= |a| ensures Prefix(a, m) <= Prefix(b, m) {
      if m > 0 {
        TopSum(a, b, m);
      }
    }
  }

  // ---------- orderings ----------

  /** `order` lists the indices below `n`, each once. */
  ghost predicate IsOrdering(order: seq<nat>, n: nat) {
    multiset(order) == multiset(Iota(n))
  }

  lemma OrderingInRange(order: seq<nat>, n: nat)
    requires IsOrdering(order, n)
    ensures |order| == n && forall i :: 0 <= i < n ==> order[i] < n
  {
    assert |multiset(order)| == |multiset(Iota(n))|;
    forall i | 0 <= i < |order| ensures order[i] < n {
      assert order[i] in multiset(order);
      assert order[i] in Iota(n);
    }
  }

  function At(s: seq<real>, i: nat): real { if i < |s| then s[i] else 0.0 }

  function Pick(s: seq<real>, order: seq<nat>): (r: seq<real>)
    ensures |r| == |order| && forall i :: 0 <= i < |r| ==> r[i] == At(s, order[i])
  {
    seq(|order|, i requires 0 <= i < |order| => At(s, order[i]))
  }

  lemma {:induction false} SumOfPicked(s: seq<real>, order: seq<nat>, f: real -> real)
    ensures SumBy(Pick(s, order), f) == SumBy(order, i => f(At(s, i)))
  {
    if |order| > 0 {
      SumOfPicked(s, order[1..], f);
      assert Pick(s, order)[1..] == Pick(s, order[1..]);
    }
  }

  lemma PickedSameSums(s: seq<real>, order: seq<nat>, f: real -> real)
    requires IsOrdering(order, |s|)
    ensures SumBy(Pick(s, order), f) == SumBy(s, f)
  {
    SumOfPicked(s, order, f);
    SumOfPicked(s, Iota(|s|), f);
    assert Pick(s, Iota(|s|)) == s;
    SumByPermuted(order, Iota(|s|), i => f(At(s, i)));
  }

  /** `np.argsort(-scores)`: its default sort is not stable, so ties may come in any order. */
  ghost predicate IsArgSortDescending(order: seq<nat>, scores: seq<real>) {
    IsOrdering(order, |scores|) && Descending(Pick(scores, order))
  }

  function Geq(): (real, real) -> bool { (x, y) => x >= y }

  /** `np.sort(labels)[::-1]`. */
  function Ideal(labels: seq<real>): seq<real> { Sort(labels, Geq()) }

  lemma IdealIsDescendingRearrangement(labels: seq<real>)
    ensures Descending(Ideal(labels)) && |Ideal(labels)| == |labels|
    ensures multiset(Ideal(labels)) == multiset(labels)
  {
    SortIsStableSorting(labels, Geq());
    SortContents(labels, Geq());
  }

  // ---------- NDCG of one group ----------

  /** Python's `s[:k]`, also for a negative `k`. */
  function Take<T>(s: seq<T>, k: int): (r: seq<T>)
    ensures r <= s
    ensures |r| == if k >= 0 then Min(k, |s|) else if |s| + k >= 0 then |s| + k else 0
  {
    if k >= |s| then s else if k >= 0 then s[..k] else if -k >= |s| then [] else s[..|s| + k]
  }

  function GroupNdcg(labels: seq<real>, order: seq<nat>, k: int, disc: nat -> real): real {
    var denom := Dcg(Take(Ideal(labels), k), disc);
    if denom > 0.0 then Dcg(Pick(labels, Take(order, k)), disc) / denom else 0.0
  }

  /** The score of a group under a ranking: the share of the ideal gain that its top k reaches. */
  ghost predicate IsScore(score: real, labels: seq<real>, order: seq<nat>, k: int, disc: nat -> real) {
    var ideal, gained := Dcg(Take(Ideal(labels), k), disc), Dcg(Pick(labels, Take(order, k)), disc);
    if ideal > 0.0 then score * ideal == gained else score == 0.0
  }

  /** No other number is the score. */
  lemma ScoreIsShare(score: real, labels: seq<real>, order: seq<nat>, k: int, disc: nat -> real)
    ensures score == GroupNdcg(labels, order, k, disc) <==> IsScore(score, labels, order, k, disc)
  {
    var ideal, gained := Dcg(Take(Ideal(labels), k), disc), Dcg(Pick(labels, Take(order, k)), disc);
    if ideal > 0.0 {
      ShareIs(score, gained, ideal);
    }
  }

  lemma ShareIs(score: real, gained: real, ideal: real)
    requires ideal > 0.0
    ensures score == gained / ideal <==> score * ideal == gained
  {
  }

  /** Two rankings of one group compare as what their top k gain. */
  lemma RankingsCompare(labels: seq<real>, first: seq<nat>, second: seq<nat>, k: int, disc: nat -> real)
    requires Dcg(Take(Ideal(labels), k), disc) > 0.0
    ensures GroupNdcg(labels, first, k, disc) <= GroupNdcg(labels, second, k, disc)
       <==> Dcg(Pick(labels, Take(first, k)), disc) <= Dcg(Pick(labels, Take(second, k)), disc)
  {
    SharesCompare(Dcg(Pick(labels, Take(first, k)), disc), Dcg(Pick(labels, Take(second, k)), disc),
                  Dcg(Take(Ideal(labels), k), disc));
  }

  lemma SharesCompare(a: real, b: real, ideal: real)
    requires ideal > 0.0
    ensures a / ideal <= b / ideal <==> a <= b
  {
    var p, q := a / ideal, b / ideal;
    assert p * ideal == a && q * ideal == b;
    if p < q {
      ProductPositive(q - p, ideal, (q - p) * ideal);
    } else if q < p {
      ProductPositive(p - q, ideal, (p - q) * ideal);
    }
  }

  lemma {:induction false} DcgToSign(s: seq<real>, m: nat, disc: nat -> real)
    requires Discount(disc) && m <= |s| && forall i :: 0 <= i < m ==> s[i] >= 0.0
    ensures DcgTo(s, m, disc) >= 0.0
    ensures m > 0 && s[0] > 0.0 ==> DcgTo(s, m, disc) > 0.0
    ensures (forall i :: 0 <= i < m ==> s[i] == 0.0) ==> DcgTo(s, m, disc) == 0.0
  {
    if m > 0 {
      DcgToSign(s, m - 1, disc);
      TermSign(s[m - 1], disc(m - 1), s[m - 1] * disc(m - 1));
    }
  }

  lemma TermSign(x: real, q: real, e: real)
    requires x >= 0.0 && q > 0.0 && e == x * q
    ensures e >= 0.0 && (x > 0.0 ==> e > 0.0) && (x == 0.0 ==> e == 0.0)
  {
    if x > 0.0 {
      ScaledBelow(0.0, q, x, 0.0, e);
    }
  }

  lemma DcgNonnegative(s: seq<real>, disc: nat -> real)
    requires Discount(disc) && forall x :: x in s ==> x >= 0.0
    ensures Dcg(s, disc) >= 0.0
    ensures |s| > 0 && s[0] > 0.0 ==> Dcg(s, disc) > 0.0
    ensures (forall x :: x in s ==> x == 0.0) ==> Dcg(s, disc) == 0.0
  {
    assert forall i :: 0 <= i < |s| ==> s[i] in s;
    DcgToSign(s, |s|, disc);
  }

  lemma TakeOfPick(labels: seq<real>, order: seq<nat>, k: int)
    requires |order| == |labels|
    ensures Pick(labels, Take(order, k)) == Take(Pick(labels, order), k)
  {
  }

  lemma {:induction false} DominatesTake(b: seq<real>, a: seq<real>, k: int)
    requires Dominates(b, a)
    ensures Dominates(Take(b, k), Take(a, k))
  {
    var n := |Take(a, k)|;
    assert Take(a, k) == a[..n] && Take(b, k) == b[..n];
    forall m | 0 <= m <= n ensures Prefix(a[..n], m) <= Prefix(b[..n], m) {
      PrefixOfTake(a, n, m);
      PrefixOfTake(b, n, m);
    }
  }

  /** No ordering of a group reaches more discounted gain in its top k than the labels in
      descending order, and only the same top-k labels reach as much. */
  lemma IdealTopIsBest(labels: seq<real>, order: seq<nat>, k: int, disc: nat -> real)
    requires Discount(disc) && IsOrdering(order, |labels|)
    ensures Dcg(Pick(labels, Take(order, k)), disc) <= Dcg(Take(Ideal(labels), k), disc)
    ensures Dcg(Pick(labels, Take(order, k)), disc) == Dcg(Take(Ideal(labels), k), disc)
            <==> Pick(labels, Take(order, k)) == Take(Ideal(labels), k)
  {
    var v, ideal := Pick(labels, order), Ideal(labels);
    IdealIsDescendingRearrangement(labels);
    OrderingInRange(order, |labels|);
    forall t ensures SumBy(v, Excess(t)) == SumBy(ideal, Excess(t)) {
      PickedSameSums(labels, order, Excess(t));
      SumByPermuted(labels, ideal, Excess(t));
    }
    TopIsLargest(v, ideal);
    DominatesTake(ideal, v, k);
    TakeOfPick(labels, order, k);
    DcgDominated(Take(v, k), Take(ideal, k), disc);
  }

  /** A group's NDCG lies in [0, 1]; it is 1 exactly when the top k is not empty, some label is
      positive, and the top-k labels by score are the top-k labels there are. */
  lemma GroupNdcgRange(labels: seq<real>, order: seq<nat>, k: int, disc: nat -> real)
    requires Discount(disc) && IsOrdering(order, |labels|)
    requires forall x :: x in labels ==> x >= 0.0
    ensures 0.0 <= GroupNdcg(labels, order, k, disc) <= 1.0
    ensures GroupNdcg(labels, order, k, disc) == 1.0
            <==> |Take(labels, k)| > 0 && HasPositive(labels)
                 && Pick(labels, Take(order, k)) == Take(Ideal(labels), k)
  {
    IdealGainPositive(labels, k, disc);
    IdealTopIsBest(labels, order, k, disc);
    OrderingInRange(order, |labels|);
    var top := Pick(labels, Take(order, k));
    forall x | x in top ensures x >= 0.0 {
      TakeOfPick(labels, order, k);
      var i :| 0 <= i < |top| && top[i] == x;
      assert At(labels, order[i]) in labels;
    }
    DcgNonnegative(top, disc);
    var denom, gain := Dcg(Take(Ideal(labels), k), disc), Dcg(top, disc);
    if denom > 0.0 {
      RatioRange(gain, denom);
    }
  }

  lemma RatioRange(gain: real, denom: real)
    requires 0.0 <= gain <= denom && denom > 0.0
    ensures 0.0 <= gain / denom <= 1.0
    ensures gain / denom == 1.0 <==> gain == denom
  {
    var q := gain / denom;
    assert q * denom == gain;
    assert q > 1.0 ==> (q - 1.0) * denom > 0.0;
    assert q < 0.0 ==> q * denom < 0.0;
  }

  ghost predicate RanksByLabel(labels: seq<real>, scores: seq<real>) {
    |labels| == |scores|
    && forall i, j :: 0 <= i < |labels| && 0 <= j < |labels| && labels[i] > labels[j] ==> scores[i] > scores[j]
  }

  /** When every higher label has the higher score, a group with a positive label and a
      non-empty top k scores exactly 1, however ties are broken. */
  lemma PerfectRankingScoresOne(labels: seq<real>, scores: seq<real>, order: seq<nat>, k: int, disc: nat -> real)
    requires Discount(disc) && IsArgSortDescending(order, scores) && RanksByLabel(labels, scores)
    requires forall x :: x in labels ==> x >= 0.0
    requires HasPositive(labels) && |Take(labels, k)| > 0
    ensures GroupNdcg(labels, order, k, disc) == 1.0
  {
    PerfectRankingIsIdeal(labels, scores, order);
    TakeOfPick(labels, order, k);
    GroupNdcgRange(labels, order, k, disc);
  }

  lemma PerfectRankingIsIdeal(labels: seq<real>, scores: seq<real>, order: seq<nat>)
    requires IsArgSortDescending(order, scores) && RanksByLabel(labels, scores)
    ensures |order| == |labels| && Pick(labels, order) == Ideal(labels)
  {
    var v, ideal := Pick(labels, order), Ideal(labels);
    OrderingInRange(order, |labels|);
    IdealIsDescendingRearrangement(labels);
    assert Descending(v) by {
      forall p, q | 0 <= p < q < |v| ensures v[p] >= v[q] {
        assert Pick(scores, order)[p] >= Pick(scores, order)[q];
      }
    }
    forall t ensures SumBy(ideal, Excess(t)) == SumBy(v, Excess(t)) {
      PickedSameSums(labels, order, Excess(t));
      SumByPermuted(labels, ideal, Excess(t));
    }
    TopIsLargest(ideal, v);
    TopIsLargest(v, ideal);
    forall m | 0 <= m < |v| ensures v[m] == ideal[m] {
      assert Prefix(v, m) == Prefix(ideal, m) && Prefix(v, m + 1) == Prefix(ideal, m + 1);
    }
  }

  ghost predicate HasPositive(labels: seq<real>) {
    exists i :: 0 <= i < |labels| && labels[i] > 0.0
  }

  /** A group counts only when its top k is not empty and some label is positive. */
  lemma IdealGainPositive(labels: seq<real>, k: int, disc: nat -> real)
    requires Discount(disc)
    requires forall x :: x in labels ==> x >= 0.0
    ensures Dcg(Take(Ideal(labels), k), disc) > 0.0 <==> |Take(labels, k)| > 0 && HasPositive(labels)
  {
    var ideal := Ideal(labels);
    IdealIsDescendingRearrangement(labels);
    forall x | x in ideal ensures x >= 0.0 && x in labels {
      assert x in multiset(ideal);
      assert x in multiset(labels);
      assert x in labels;
    }
    var top := Take(ideal, k);
    assert forall x :: x in top ==> x in ideal;
    DcgNonnegative(top, disc);
    if HasPositive(labels) {
      var i :| 0 <= i < |labels| && labels[i] > 0.0;
      assert labels[i] in multiset(ideal);
      var j :| 0 <= j < |ideal| && ideal[j] == labels[i];
      assert ideal[0] >= ideal[j];
    } else {
      forall x | x in top ensures x == 0.0 {
        assert x in labels;
      }
    }
  }

  // ---------- NDCG over consecutive groups ----------

  function Min(a: nat, b: nat): nat { if a <= b then a else b }

  /** `s[from : from + size]`, clamped to the sequence as Python clamps slices. */
  function Clip<T>(s: seq<T>, from: nat, size: nat): seq<T> {
    s[Min(from, |s|)..Min(from + size, |s|)]
  }

  function Offset(groups: seq<nat>, g: nat): nat
    requires g <= |groups|
  {
    if g == 0 then 0 else Offset(groups, g - 1) + groups[g - 1]
  }

  function Group<T>(s: seq<T>, groups: seq<nat>, g: nat): seq<T>
    requires g < |groups|
  {
    Clip(s, Offset(groups, g), groups[g])
  }

  /** Each group is its own stretch of the samples. */
  lemma GroupIsStretch<T>(s: seq<T>, groups: seq<nat>, g: nat)
    requires g < |groups| && Offset(groups, g + 1) <= |s|
    ensures |Group(s, groups, g)| == groups[g]
    ensures forall i :: 0 <= i < groups[g] ==> Group(s, groups, g)[i] == s[Offset(groups, g) + i]
  {
  }

  /** The first `n` groups, one after the other. */
  function Joined<T>(s: seq<T>, groups: seq<nat>, n: nat): seq<T>
    requires n <= |groups|
  {
    if n == 0 then [] else Joined(s, groups, n - 1) + Group(s, groups, n - 1)
  }

  /** The groups follow each other without gap or overlap. */
  lemma {:induction false} GroupsTile<T>(s: seq<T>, groups: seq<nat>, n: nat)
    requires n <= |groups| && Offset(groups, n) <= |s|
    ensures Joined(s, groups, n) == s[..Offset(groups, n)]
  {
    if n > 0 {
      GroupsTile(s, groups, n - 1);
      var lo, hi := Offset(groups, n - 1), Offset(groups, n);
      assert s[..hi] == s[..lo] + s[lo..hi];
    }
  }

  /** The ranking of one group: scores of the group in descending order. */
  ghost predicate RanksGroup(order: seq<nat>, yScore: seq<real>, groups: seq<nat>, g: nat)
    requires g < |groups|
  {
    IsArgSortDescending(order, Group(yScore, groups, g))
  }

  function GroupTerm(yTrue: seq<real>, groups: seq<nat>, g: nat, order: seq<nat>, k: int, disc: nat -> real): real
    requires g < |groups|
  {
    if groups[g] == 0 then 0.0 else GroupNdcg(Group(yTrue, groups, g), order, k, disc)
  }

  function NdcgTotal(yTrue: seq<real>, groups: seq<nat>, orders: seq<seq<nat>>, k: int, disc: nat -> real): real
    requires |orders| <= |groups|
  {
    if |orders| == 0 then 0.0
    else
      var g := |orders| - 1;
      NdcgTotal(yTrue, groups, orders[..g], k, disc) + GroupTerm(yTrue, groups, g, orders[g], k, disc)
  }

  function NonEmptyGroups(groups: seq<nat>, g: nat): nat
    requires g <= |groups|
  {
    if g == 0 then 0 else NonEmptyGroups(groups, g - 1) + (if groups[g - 1] == 0 then 0 else 1)
  }

  /** The average over the non-empty groups, 0 when there are none. */
  function MeanNdcg(yTrue: seq<real>, groups: seq<nat>, orders: seq<seq<nat>>, k: int, disc: nat -> real): real
    requires |orders| == |groups|
  {
    var count := NonEmptyGroups(groups, |groups|);
    if count == 0 then 0.0 else NdcgTotal(yTrue, groups, orders, k, disc) / count as real
  }

  ghost predicate Nonnegative(s: seq<real>) {
    forall x :: x in s ==> x >= 0.0
  }

  ghost predicate AllRanked(yScore: seq<real>, groups: seq<nat>, orders: seq<seq<nat>>) {
    |orders| <= |groups| && forall g :: 0 <= g < |orders| ==> RanksGroup(orders[g], yScore, groups, g)
  }

  ghost predicate Perfect(yTrue: seq<real>, groups: seq<nat>, g: nat, order: seq<nat>, k: int, disc: nat -> real)
    requires g < |groups|
  {
    groups[g] != 0 ==> GroupTerm(yTrue, groups, g, order, k, disc) == 1.0
  }

  /** Every non-empty group ranked so far scores 1. */
  ghost predicate AllPerfect(yTrue: seq<real>, groups: seq<nat>, orders: seq<seq<nat>>, k: int, disc: nat -> real)
    requires |orders| <= |groups|
  {
    forall g :: 0 <= g < |orders| ==> Perfect(yTrue, groups, g, orders[g], k, disc)
  }

  lemma AllPerfectSoFar(
    yTrue: seq<real>, groups: seq<nat>, orders: seq<seq<nat>>, g: nat, k: int, disc: nat -> real)
    requires |orders| == g + 1 <= |groups| && AllPerfect(yTrue, groups, orders, k, disc)
    ensures AllPerfect(yTrue, groups, orders[..g], k, disc) && Perfect(yTrue, groups, g, orders[g], k, disc)
  {
    var init := orders[..g];
    forall h | 0 <= h < |init| ensures Perfect(yTrue, groups, h, init[h], k, disc) {
      assert init[h] == orders[h];
    }
  }

  lemma OneMorePerfect(
    yTrue: seq<real>, groups: seq<nat>, orders: seq<seq<nat>>, g: nat, k: int, disc: nat -> real)
    requires |orders| == g + 1 <= |groups|
    requires AllPerfect(yTrue, groups, orders[..g], k, disc) && Perfect(yTrue, groups, g, orders[g], k, disc)
    ensures AllPerfect(yTrue, groups, orders, k, disc)
  {
    forall h | 0 <= h < |orders| ensures Perfect(yTrue, groups, h, orders[h], k, disc) {
      PerfectAt(yTrue, groups, orders, g, h, k, disc);
    }
  }

  lemma PerfectAt(
    yTrue: seq<real>, groups: seq<nat>, orders: seq<seq<nat>>, g: nat, h: nat, k: int, disc: nat -> real)
    requires h <= g < |orders| <= |groups|
    requires AllPerfect(yTrue, groups, orders[..g], k, disc) && Perfect(yTrue, groups, g, orders[g], k, disc)
    ensures Perfect(yTrue, groups, h, orders[h], k, disc)
  {
    assert h < g ==> orders[..g][h] == orders[h];
  }

  lemma AllPerfectUnfolds(
    yTrue: seq<real>, groups: seq<nat>, orders: seq<seq<nat>>, g: nat, k: int, disc: nat -> real)
    requires |orders| == g + 1 <= |groups|
    ensures AllPerfect(yTrue, groups, orders, k, disc)
            <==> AllPerfect(yTrue, groups, orders[..g], k, disc) && Perfect(yTrue, groups, g, orders[g], k, disc)
  {
    if AllPerfect(yTrue, groups, orders, k, disc) {
      AllPerfectSoFar(yTrue, groups, orders, g, k, disc);
    } else if AllPerfect(yTrue, groups, orders[..g], k, disc) && Perfect(yTrue, groups, g, orders[g], k, disc) {
      OneMorePerfect(yTrue, groups, orders, g, k, disc);
    }
  }

  lemma GroupTermRange(
    yTrue: seq<real>, yScore: seq<real>, groups: seq<nat>, g: nat, order: seq<nat>, k: int, disc: nat -> real)
    requires |yTrue| == |yScore| && g < |groups|
    requires Discount(disc) && Nonnegative(yTrue) && RanksGroup(order, yScore, groups, g)
    ensures 0.0 <= GroupTerm(yTrue, groups, g, order, k, disc) <= 1.0
    ensures groups[g] == 0 ==> GroupTerm(yTrue, groups, g, order, k, disc) == 0.0
  {
    var labels := Group(yTrue, groups, g);
    assert forall x :: x in labels ==> x in yTrue;
    GroupNdcgRange(labels, order, k, disc);
  }

  lemma {:induction false} TotalRange(
    yTrue: seq<real>, yScore: seq<real>, groups: seq<nat>, orders: seq<seq<nat>>, k: int, disc: nat -> real)
    requires |yTrue| == |yScore| && Discount(disc) && Nonnegative(yTrue) && AllRanked(yScore, groups, orders)
    ensures 0.0 <= NdcgTotal(yTrue, groups, orders, k, disc) <= NonEmptyGroups(groups, |orders|) as real
    ensures NdcgTotal(yTrue, groups, orders, k, disc) == NonEmptyGroups(groups, |orders|) as real
            <==> AllPerfect(yTrue, groups, orders, k, disc)
  {
    if |orders| > 0 {
      var g := |orders| - 1;
      var init := orders[..g];
      assert AllRanked(yScore, groups, init) by {
        forall h | 0 <= h < g ensures RanksGroup(init[h], yScore, groups, h) {
          assert init[h] == orders[h];
        }
      }
      TotalRange(yTrue, yScore, groups, init, k, disc);
      GroupTermRange(yTrue, yScore, groups, g, orders[g], k, disc);
      AllPerfectUnfolds(yTrue, groups, orders, g, k, disc);
    }
  }

  /** The averaged NDCG lies in [0, 1], for any group sizes and any k, and it is 1 exactly when
      there is a non-empty group and every non-empty group scores 1. */
  lemma MeanNdcgRange(
    yTrue: seq<real>, yScore: seq<real>, groups: seq<nat>, orders: seq<seq<nat>>, k: int, disc: nat -> real)
    requires |yTrue| == |yScore| && |orders| == |groups|
    requires Discount(disc) && Nonnegative(yTrue) && AllRanked(yScore, groups, orders)
    ensures 0.0 <= MeanNdcg(yTrue, groups, orders, k, disc) <= 1.0
    ensures MeanNdcg(yTrue, groups, orders, k, disc) == 1.0
            <==> NonEmptyGroups(groups, |groups|) > 0 && AllPerfect(yTrue, groups, orders, k, disc)
  {
    TotalRange(yTrue, yScore, groups, orders, k, disc);
    var count := NonEmptyGroups(groups, |groups|);
    if count > 0 {
      RatioRange(NdcgTotal(yTrue, groups, orders, k, disc), count as real);
    }
  }

  /** The score of group `g`; an empty group scores nothing. */
  ghost predicate ScoresGroup(score: real, yTrue: seq<real>, groups: seq<nat>, g: nat, order: seq<nat>, k: int,
                              disc: nat -> real)
    requires g < |groups|
  {
    if groups[g] == 0 then score == 0.0 else IsScore(score, Group(yTrue, groups, g), order, k, disc)
  }

  ghost predicate AreScores(scores: seq<real>, yTrue: seq<real>, groups: seq<nat>, orders: seq<seq<nat>>, k: int,
                            disc: nat -> real)
  {
    && |scores| == |orders| <= |groups|
    && forall g :: 0 <= g < |scores| ==> ScoresGroup(scores[g], yTrue, groups, g, orders[g], k, disc)
  }

  lemma TermScores(yTrue: seq<real>, groups: seq<nat>, g: nat, order: seq<nat>, k: int, disc: nat -> real)
    requires g < |groups|
    ensures ScoresGroup(GroupTerm(yTrue, groups, g, order, k, disc), yTrue, groups, g, order, k, disc)
  {
    if groups[g] != 0 {
      ScoreIsShare(GroupTerm(yTrue, groups, g, order, k, disc), Group(yTrue, groups, g), order, k, disc);
    }
  }

  lemma PrefixOfLonger(before: seq<real>, term: real)
    ensures Prefix(before + [term], |before| + 1) == Prefix(before, |before|) + term
  {
    PrefixOfTake(before + [term], |before|, |before|);
    assert (before + [term])[..|before|] == before;
  }

  /** The scores of the groups, and their sum. */
  lemma {:induction false} ScoresOf(
    yTrue: seq<real>, groups: seq<nat>, orders: seq<seq<nat>>, k: int, disc: nat -> real)
    returns (scores: seq<real>)
    requires |orders| <= |groups|
    ensures AreScores(scores, yTrue, groups, orders, k, disc)
    ensures Prefix(scores, |scores|) == NdcgTotal(yTrue, groups, orders, k, disc)
    decreases |orders|
  {
    if |orders| == 0 {
      scores := [];
    } else {
      var g := |orders| - 1;
      var before := ScoresOf(yTrue, groups, orders[..g], k, disc);
      var term := GroupTerm(yTrue, groups, g, orders[g], k, disc);
      scores := before + [term];
      PrefixOfLonger(before, term);
      TermScores(yTrue, groups, g, orders[g], k, disc);
      OneMoreScore(before, term, yTrue, groups, orders, k, disc);
    }
  }

  lemma OneMoreScore(before: seq<real>, term: real, yTrue: seq<real>, groups: seq<nat>, orders: seq<seq<nat>>, k: int,
                     disc: nat -> real)
    requires 0 < |orders| <= |groups| && AreScores(before, yTrue, groups, orders[..|orders| - 1], k, disc)
    requires ScoresGroup(term, yTrue, groups, |orders| - 1, orders[|orders| - 1], k, disc)
    ensures AreScores(before + [term], yTrue, groups, orders, k, disc)
  {
    var scores := before + [term];
    forall h | 0 <= h < |scores| ensures ScoresGroup(scores[h], yTrue, groups, h, orders[h], k, disc) {
      ScoreBefore(before, term, yTrue, groups, orders, h, k, disc);
    }
  }

  lemma ScoreBefore(before: seq<real>, term: real, yTrue: seq<real>, groups: seq<nat>, orders: seq<seq<nat>>, h: nat,
                    k: int, disc: nat -> real)
    requires h < |orders| <= |groups| && AreScores(before, yTrue, groups, orders[..|orders| - 1], k, disc)
    requires ScoresGroup(term, yTrue, groups, |orders| - 1, orders[|orders| - 1], k, disc)
    ensures ScoresGroup((before + [term])[h], yTrue, groups, h, orders[h], k, disc)
  {
    if h < |orders| - 1 {
      assert orders[..|orders| - 1][h] == orders[h] && (before + [term])[h] == before[h];
    }
  }

  /** `value` is the mean of what adds up to `total`; the mean of nothing is 0. */
  ghost predicate IsMean(value: real, total: real, count: nat) {
    if count == 0 then value == 0.0 else value * count as real == total
  }

  lemma QuotientIsMean(value: real, total: real, count: nat)
    requires count > 0 && value == total / count as real
    ensures IsMean(value, total, count)
  {
    ShareIs(value, total, count as real);
  }

  lemma MeanIs(yTrue: seq<real>, groups: seq<nat>, orders: seq<seq<nat>>, k: int, disc: nat -> real)
    requires |orders| == |groups|
    ensures IsMean(MeanNdcg(yTrue, groups, orders, k, disc), NdcgTotal(yTrue, groups, orders, k, disc),
                   NonEmptyGroups(groups, |groups|))
  {
    if NonEmptyGroups(groups, |groups|) > 0 {
      QuotientIsMean(MeanNdcg(yTrue, groups, orders, k, disc), NdcgTotal(yTrue, groups, orders, k, disc),
                     NonEmptyGroups(groups, |groups|));
    }
  }

  /** What the mean over all groups says. */
  lemma MeanMeans(yTrue: seq<real>, yScore: seq<real>, groups: seq<nat>, orders: seq<seq<nat>>, k: int, disc: nat -> real)
    returns (scores: seq<real>)
    requires |yTrue| == |yScore| && |orders| == |groups| && AllRanked(yScore, groups, orders)
    ensures AreScores(scores, yTrue, groups, orders, k, disc)
    ensures IsMean(MeanNdcg(yTrue, groups, orders, k, disc), Prefix(scores, |scores|), NonEmptyGroups(groups, |groups|))
    ensures Discount(disc) && Nonnegative(yTrue) ==> 0.0 <= MeanNdcg(yTrue, groups, orders, k, disc) <= 1.0
  {
    scores := ScoresOf(yTrue, groups, orders, k, disc);
    MeanIs(yTrue, groups, orders, k, disc);
    if Discount(disc) && Nonnegative(yTrue) {
      MeanNdcgRange(yTrue, yScore, groups, orders, k, disc);
    }
  }

  method ArgSortDescending(scores: seq<real>) returns (order: seq<nat>)
    ensures IsArgSortDescending(order, scores)
  {
    var le := (i: nat, j: nat) => At(scores, i) >= At(scores, j);
    order := Sort(Iota(|scores|), le);
    SortContents(Iota(|scores|), le);
    SortIsStableSorting(Iota(|scores|), le);
    OrderingInRange(order, |scores|);
    forall p, q | 0 <= p < q < |order| ensures Pick(scores, order)[p] >= Pick(scores, order)[q] {
      assert le(order[p], order[q]);
    }
  }

  /** The body of the loop for a group that is not empty. */
  method OneGroup(yt: seq<real>, ranking: seq<nat>, k: int, disc: nat -> real) returns (ndcg: real)
    ensures ndcg == GroupNdcg(yt, ranking, k, disc)
  {
    var denom := Dcg(Take(Ideal(yt), k), disc);
    ndcg := if denom > 0.0 then Dcg(Pick(yt, Take(ranking, k)), disc) / denom else 0.0;
  }

  /** `_ndcg_at_k`; `orders` records the rankings that the sort happened to pick. */
  method NdcgAtK(yTrue: seq<real>, yScore: seq<real>, groups: seq<nat>, k: int, disc: nat -> real)
    returns (value: real, ghost orders: seq<seq<nat>>, ghost scores: seq<real>)
    requires |yTrue| == |yScore|
    ensures |orders| == |groups| && AllRanked(yScore, groups, orders)
    ensures AreScores(scores, yTrue, groups, orders, k, disc)
    ensures IsMean(value, Prefix(scores, |scores|), NonEmptyGroups(groups, |groups|))
    ensures value == MeanNdcg(yTrue, groups, orders, k, disc)
    ensures Discount(disc) && Nonnegative(yTrue) ==> 0.0 <= value <= 1.0
  {
    var idx, total, count := 0, 0.0, 0;
    orders := [];
    for g := 0 to |groups|
      invariant |orders| == g && AllRanked(yScore, groups, orders)
      invariant idx == Offset(groups, g)
      invariant total == NdcgTotal(yTrue, groups, orders, k, disc)
      invariant count == NonEmptyGroups(groups, g)
    {
      var size := groups[g];
      var yt, ys := Clip(yTrue, idx, size), Clip(yScore, idx, size);
      var ranking := ArgSortDescending(ys);
      OneMoreRanked(yTrue, yScore, groups, orders, ranking, k, disc);
      idx := idx + size;
      orders := orders + [ranking];
      if size == 0 {
        continue;
      }
      var ndcg := OneGroup(yt, ranking, k, disc);
      total := total + ndcg;
      count := count + 1;
    }
    value := if count != 0 then total / count as real else 0.0;
    scores := MeanMeans(yTrue, yScore, groups, orders, k, disc);
  }

  lemma OneMoreRanked(
    yTrue: seq<real>, yScore: seq<real>, groups: seq<nat>, orders: seq<seq<nat>>, ranking: seq<nat>,
    k: int, disc: nat -> real)
    requires AllRanked(yScore, groups, orders) && |orders| < |groups|
    requires RanksGroup(ranking, yScore, groups, |orders|)
    ensures AllRanked(yScore, groups, orders + [ranking])
    ensures NdcgTotal(yTrue, groups, orders + [ranking], k, disc)
            == NdcgTotal(yTrue, groups, orders, k, disc) + GroupTerm(yTrue, groups, |orders|, ranking, k, disc)
  {
    var more := orders + [ranking];
    assert more[..|orders|] == orders;
    forall g | 0 <= g < |more| ensures RanksGroup(more[g], yScore, groups, g) {
      assert g < |orders| ==> more[g] == orders[g];
    }
  }
}

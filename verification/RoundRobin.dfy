/** The deterministic replacement for random choices: `scripts/seed/rr.py`. */
module RoundRobin {
  import opened Wrappers

  /** A cursor that goes round any sequence it is given. */
  class Cursor {
    var i: nat

    constructor ()
      ensures i == 0
    {
      i := 0;
    }

    /** `pick`; an empty sequence is an error, which leaves the cursor where it is. */
    method Pick<T>(s: seq<T>) returns (v: Option<T>)
      modifies this
      ensures if s == [] then v == None && i == old(i)
              else v == Some(s[old(i) % |s|]) && i == old(i) + 1
    {
      if s == [] {
        return None;
      }
      v := Some(s[i % |s|]);
      i := i + 1;
    }

    /** `pick_n`; a negative `n` picks nothing. */
    method PickN<T>(s: seq<T>, n: int) returns (vs: Option<seq<T>>)
      modifies this
      ensures s == [] && n > 0 ==> vs == None && i == old(i)
      ensures s != [] || n <= 0 ==>
                && vs.Some? && |vs.value| == Positive(n) && i == old(i) + Positive(n)
                && |vs.value| == (if n > 0 then n else 0)
                && forall k :: 0 <= k < n ==> vs.value[k] == s[(old(i) + k) % |s|]
    {
      var picked: seq<T> := [];
      for k := 0 to Positive(n)
        invariant k > 0 ==> s != []
        invariant |picked| == k && i == old(i) + k
        invariant forall m :: 0 <= m < k ==> picked[m] == s[(old(i) + m) % |s|]
      {
        var v := Pick(s);
        if v.None? {
          return None;
        }
        picked := picked + [v.value];
      }
      vs := Some(picked);
    }

    /** `_sample`: the value of the first entry whose accumulated weight exceeds the bucket. */
    method Sample(distribution: seq<Entry>) returns (v: Option<int>)
      modifies this
      ensures var total := Sum(distribution, |distribution|);
              if total <= 0 then v == None && i == old(i)
              else i == old(i) + 1 && v == Some(distribution[Hit(distribution, old(i) % total)].value)
    {
      var items: seq<(int, int)>, total := [], 0;
      for k := 0 to |distribution|
        invariant |items| == k && total == Sum(distribution, k)
        invariant forall m :: 0 <= m < k ==> items[m] == (distribution[m].value, Scaled(distribution[m]))
      {
        var w := Scaled(distribution[k]);
        total := total + w;
        items := items + [(distribution[k].value, w)];
      }
      var picked := Pick(seq(if total > 0 then total else 0, b => b));
      if picked.None? {
        return None;
      }
      var bucket, acc := picked.value, 0;
      for k := 0 to |items|
        invariant acc == Sum(distribution, k)
        invariant forall m :: 0 < m <= k ==> Sum(distribution, m) <= bucket
      {
        acc := acc + items[k].1;
        if bucket < acc {
          HitIsUnique(distribution, bucket, k);
          return Some(items[k].0);
        }
      }
      // The last accumulated weight is the total, so the loop has always returned by now.
      assert false;
    }
  }

  function Positive(n: int): nat {
    if n > 0 then n else 0
  }

  // ---------- even picking ----------

  /** How often position `p` of a sequence of length `len` is picked by `n` picks from cursor `i`. */
  function Picks(i: nat, n: nat, len: nat, p: nat): nat
    requires len > 0
  {
    if n == 0 then 0 else Picks(i, n - 1, len, p) + if (i + n - 1) % len == p then 1 else 0
  }

  /** The picks of position `p` before cursor `m`. */
  function Before(m: nat, len: nat, p: nat): nat
    requires p < len
  {
    (m + (len - 1 - p)) / len
  }

  lemma QuotientIs(x: int, len: int, q: int)
    requires len > 0 && q * len <= x < q * len + len
    ensures x / len == q
  {
    var d := x / len;
    assert d * len <= x < d * len + len;
    assert (q + 1) * len == q * len + len && (d + 1) * len == d * len + len;
  }

  lemma BeforeStep(m: nat, len: nat, p: nat)
    requires p < len
    ensures Before(m + 1, len, p) == Before(m, len, p) + if m % len == p then 1 else 0
  {
    var q, r := m / len, m % len;
    assert m == q * len + r;
    if r > p {
      assert (q + 1) * len == q * len + len;
      QuotientIs(m + (len - 1 - p), len, q + 1);
      QuotientIs(m + 1 + (len - 1 - p), len, q + 1);
    } else if r == p {
      assert (q + 1) * len == q * len + len;
      QuotientIs(m + (len - 1 - p), len, q);
      QuotientIs(m + 1 + (len - 1 - p), len, q + 1);
    } else {
      QuotientIs(m + (len - 1 - p), len, q);
      QuotientIs(m + 1 + (len - 1 - p), len, q);
    }
  }

  lemma {:induction false} PicksAreCounted(i: nat, n: nat, len: nat, p: nat)
    requires p < len
    ensures Picks(i, n, len, p) == Before(i + n, len, p) - Before(i, len, p)
  {
    if n > 0 {
      PicksAreCounted(i, n - 1, len, p);
      BeforeStep(i + n - 1, len, p);
    }
  }

  lemma SumQuotient(a: int, b: int, len: int)
    requires len > 0
    ensures (a + b) / len == a / len + b / len + if a % len + b % len < len then 0 else 1
  {
    var qa, ra, qb, rb := a / len, a % len, b / len, b % len;
    var q := qa + qb;
    assert q * len == qa * len + qb * len;
    assert a + b == q * len + (ra + rb);
    assert (q + 1) * len == q * len + len;
    QuotientIs(a + b, len, if ra + rb < len then q else q + 1);
  }

  lemma RoundedUp(n: int, len: int)
    requires len > 0 && n >= 0
    ensures (n + len - 1) / len == n / len + if n % len == 0 then 0 else 1
  {
    var q, r := n / len, n % len;
    assert n == q * len + r;
    assert (q + 1) * len == q * len + len;
    QuotientIs(n + len - 1, len, if r == 0 then q else q + 1);
  }

  lemma QuotientGap(a: int, n: int, len: int)
    requires len > 0 && n >= 0
    ensures n / len <= (a + n) / len - a / len <= (n + len - 1) / len
  {
    SumQuotient(a, n, len);
    RoundedUp(n, len);
  }

  /** From any cursor, `n` picks take every position either the rounded-down or the rounded-up share of
      `n`; so no position is taken twice while there are enough of them. */
  lemma PickingIsEven(i: nat, n: nat, len: nat, p: nat)
    requires p < len
    ensures n / len <= Picks(i, n, len, p) <= (n + len - 1) / len
    ensures n <= len ==> Picks(i, n, len, p) <= 1
  {
    PicksAreCounted(i, n, len, p);
    QuotientGap(i + (len - 1 - p), n, len);
    if n <= len {
      if n == 0 {
        QuotientIs(n + len - 1, len, 0);
      } else {
        QuotientIs(n + len - 1, len, 1);
      }
    }
  }

  /** A full round takes every position once. */
  lemma FullRound(i: nat, len: nat, p: nat)
    requires p < len
    ensures Picks(i, len, len, p) == 1
  {
    PickingIsEven(i, len, len, p);
    QuotientIs(len, len, 1);
  }

  // ---------- weights ----------

  datatype Entry = Entry(value: int, weight: real)

  /** Python's `round`: to the nearest integer, halves to the even one. */
  function Round(x: real): int {
    var f := x.Floor;
    var d := x - f as real;
    if d < 0.5 then f else if d > 0.5 then f + 1 else if f % 2 == 0 then f else f + 1
  }

  /** The nearest integer, and of two equally near ones the even one. */
  lemma RoundIsNearest(x: real, n: int)
    ensures n == Round(x)
       <==> && x - 0.5 <= n as real <= x + 0.5
            && (n as real == x - 0.5 || n as real == x + 0.5 ==> n % 2 == 0)
  {
  }

  /** `round(weight * scale)` */
  function Scaled(e: Entry): int {
    Round(e.weight * 2.0)
  }

  /** The accumulated weight of the first `n` entries. */
  function Sum(distribution: seq<Entry>, n: nat): int
    requires n <= |distribution|
  {
    if n == 0 then 0 else Sum(distribution, n - 1) + Scaled(distribution[n - 1])
  }

  lemma {:induction false} SumFromZero(distribution: seq<Entry>, n: nat)
    requires n <= |distribution| && NonNegative(distribution)
    ensures Sum(distribution, n) >= 0
    ensures Sum(distribution, n) > 0 <==> exists j :: 0 <= j < n && Scaled(distribution[j]) > 0
  {
    if n > 0 {
      SumFromZero(distribution, n - 1);
    }
  }

  /** Without negative weights there is something to sample exactly when some weight is scaled to more than
      nothing. */
  lemma SamplingWorksIff(distribution: seq<Entry>)
    requires NonNegative(distribution)
    ensures Sum(distribution, |distribution|) > 0
       <==> exists j :: 0 <= j < |distribution| && Scaled(distribution[j]) > 0
  {
    SumFromZero(distribution, |distribution|);
  }

  /** Entry `j` is the first whose accumulated weight exceeds the bucket. */
  ghost predicate IsHit(distribution: seq<Entry>, bucket: int, j: nat) {
    && j < |distribution| && bucket < Sum(distribution, j + 1)
    && forall m :: 0 < m <= j ==> Sum(distribution, m) <= bucket
  }

  /** Looks for the entry from number `k` on. */
  function HitFrom(distribution: seq<Entry>, bucket: int, k: nat): (j: nat)
    requires k < |distribution| && bucket < Sum(distribution, |distribution|)
    requires forall m :: 0 < m <= k ==> Sum(distribution, m) <= bucket
    ensures IsHit(distribution, bucket, j)
    decreases |distribution| - k
  {
    if bucket < Sum(distribution, k + 1) then k else HitFrom(distribution, bucket, k + 1)
  }

  /** The entry that a bucket falls to: there always is one, so the fallback of the source is dead. */
  function Hit(distribution: seq<Entry>, bucket: int): (j: nat)
    requires 0 <= bucket < Sum(distribution, |distribution|)
    ensures IsHit(distribution, bucket, j)
  {
    HitFrom(distribution, bucket, 0)
  }

  lemma HitIsUnique(distribution: seq<Entry>, bucket: int, j: nat)
    requires 0 <= bucket < Sum(distribution, |distribution|) && IsHit(distribution, bucket, j)
    ensures Hit(distribution, bucket) == j
  {
    var h := Hit(distribution, bucket);
    assert IsHit(distribution, bucket, h);
  }

  ghost predicate NonNegative(distribution: seq<Entry>) {
    forall k :: 0 <= k < |distribution| ==> Scaled(distribution[k]) >= 0
  }

  lemma {:induction false} SumsGrow(distribution: seq<Entry>, m: nat, n: nat)
    requires m <= n <= |distribution| && NonNegative(distribution)
    ensures Sum(distribution, m) <= Sum(distribution, n)
  {
    if m < n {
      SumsGrow(distribution, m, n - 1);
    }
  }

  /** With no negative weight an entry is hit by exactly the buckets between two sums. */
  lemma HitInterval(distribution: seq<Entry>, bucket: int, j: nat)
    requires NonNegative(distribution) && j < |distribution|
    requires 0 <= bucket < Sum(distribution, |distribution|)
    ensures Hit(distribution, bucket) == j <==> Sum(distribution, j) <= bucket < Sum(distribution, j + 1)
  {
    if Sum(distribution, j) <= bucket < Sum(distribution, j + 1) {
      forall m | 0 < m <= j ensures Sum(distribution, m) <= bucket {
        SumsGrow(distribution, m, j);
      }
      HitIsUnique(distribution, bucket, j);
    }
  }

  /** How often entry `j` is sampled by `n` samples in a row from cursor `i`. */
  function Samples(distribution: seq<Entry>, i: nat, n: nat, j: nat): nat
    requires Sum(distribution, |distribution|) > 0
  {
    if n == 0 then 0
    else Samples(distribution, i, n - 1, j)
         + if Hit(distribution, (i + n - 1) % Sum(distribution, |distribution|)) == j then 1 else 0
  }

  /** The picks, among `n` from cursor `i`, whose bucket is in `lo..hi`. */
  function PicksIn(i: nat, n: nat, len: nat, lo: nat, hi: nat): nat
    requires len > 0
  {
    if n == 0 then 0 else PicksIn(i, n - 1, len, lo, hi) + if lo <= (i + n - 1) % len < hi then 1 else 0
  }

  lemma {:induction false} PicksInGrows(i: nat, n: nat, len: nat, lo: nat, hi: nat)
    requires lo <= hi < len
    ensures PicksIn(i, n, len, lo, hi + 1) == PicksIn(i, n, len, lo, hi) + Picks(i, n, len, hi)
  {
    if n > 0 {
      PicksInGrows(i, n - 1, len, lo, hi);
    }
  }

  lemma {:induction false} NoPicksInEmpty(i: nat, n: nat, len: nat, lo: nat)
    requires len > 0
    ensures PicksIn(i, n, len, lo, lo) == 0
  {
    if n > 0 {
      NoPicksInEmpty(i, n - 1, len, lo);
    }
  }

  /** A full round takes as many buckets of an interval as it holds. */
  lemma {:induction false} FullRoundIn(i: nat, len: nat, lo: nat, hi: nat)
    requires lo <= hi <= len && len > 0
    ensures PicksIn(i, len, len, lo, hi) == hi - lo
  {
    if lo == hi {
      NoPicksInEmpty(i, len, len, lo);
    } else {
      FullRoundIn(i, len, lo, hi - 1);
      PicksInGrows(i, len, len, lo, hi - 1);
      FullRound(i, len, hi - 1);
    }
  }

  lemma {:induction false} SamplesArePicks(distribution: seq<Entry>, i: nat, n: nat, j: nat, lo: nat, hi: nat, total: nat)
    requires NonNegative(distribution) && j < |distribution|
    requires total == Sum(distribution, |distribution|) > 0
    requires lo == Sum(distribution, j) && hi == Sum(distribution, j + 1)
    ensures Samples(distribution, i, n, j) == PicksIn(i, n, total, lo, hi)
  {
    if n > 0 {
      SamplesArePicks(distribution, i, n - 1, j, lo, hi, total);
      HitInterval(distribution, (i + n - 1) % total, j);
    }
  }

  lemma SampledByWeight(distribution: seq<Entry>, i: nat, j: nat)
    requires NonNegative(distribution) && j < |distribution| && Sum(distribution, |distribution|) > 0
    ensures Samples(distribution, i, Sum(distribution, |distribution|), j) == Scaled(distribution[j])
  {
    var total := Sum(distribution, |distribution|);
    SumsGrow(distribution, 0, j);
    SumsGrow(distribution, j, j + 1);
    SumsGrow(distribution, j + 1, |distribution|);
    var lo, hi := Sum(distribution, j), Sum(distribution, j + 1);
    SamplesArePicks(distribution, i, total, j, lo, hi, total);
    FullRoundIn(i, total, lo, hi);
  }

  /** From any cursor, as many samples in a row as the total weight return every entry exactly as often
      as its scaled weight says, precisely when no scaled weight is negative. */
  lemma SamplingIsExact(distribution: seq<Entry>, i: nat)
    requires Sum(distribution, |distribution|) > 0
    ensures (forall j :: 0 <= j < |distribution| ==>
               Samples(distribution, i, Sum(distribution, |distribution|), j) == Scaled(distribution[j]))
       <==> NonNegative(distribution)
  {
    if NonNegative(distribution) {
      forall j | 0 <= j < |distribution|
        ensures Samples(distribution, i, Sum(distribution, |distribution|), j) == Scaled(distribution[j])
      {
        SampledByWeight(distribution, i, j);
      }
    }
  }

  /** When every weight is a non-negative multiple of one half, the shares are exactly proportional: each
      entry is returned twice its weight in every round. */
  lemma HalfWeightsAreExact(distribution: seq<Entry>, i: nat, j: nat, k: nat)
    requires forall m {:trigger distribution[m]} :: 0 <= m < |distribution| ==>
               distribution[m].weight >= 0.0 && (distribution[m].weight * 2.0).Floor as real == distribution[m].weight * 2.0
    requires j < |distribution| && distribution[j].weight * 2.0 == k as real
    requires Sum(distribution, |distribution|) > 0
    ensures Samples(distribution, i, Sum(distribution, |distribution|), j) == k
  {
    assert forall m :: 0 <= m < |distribution| ==> Scaled(distribution[m]) >= 0;
    SampledByWeight(distribution, i, j);
  }
}

/** Group-safe train/validation split and query-group sizes of `scripts/train_feed_ranker.py`. */
module GroupSplit {
  import opened Permutations
  import opened Sorting

  // ---------- the order of Python strings ----------

  predicate StringLe(a: string, b: string) {
    if |a| == 0 then true
    else if |b| == 0 then false
    else if a[0] != b[0] then a[0] < b[0]
    else StringLe(a[1..], b[1..])
  }

  lemma {:induction false} StringLeTotal(a: string, b: string)
    ensures StringLe(a, b) || StringLe(b, a)
    ensures StringLe(a, b) && StringLe(b, a) ==> a == b
  {
    if |a| > 0 && |b| > 0 && a[0] == b[0] {
      StringLeTotal(a[1..], b[1..]);
      assert a == [a[0]] + a[1..] && b == [b[0]] + b[1..];
    }
  }

  lemma {:induction false} StringLeTransitive(a: string, b: string, c: string)
    requires StringLe(a, b) && StringLe(b, c)
    ensures StringLe(a, c)
  {
    if |a| > 0 && |b| > 0 && |c| > 0 && a[0] == b[0] == c[0] {
      StringLeTransitive(a[1..], b[1..], c[1..]);
    }
  }

  // ---------- consecutive groups ----------

  /** Equal group ids stand next to each other. */
  ghost predicate Contiguous(groups: seq<string>) {
    forall i, j, k :: 0 <= i < j < k < |groups| && groups[i] == groups[k] ==> groups[j] == groups[i]
  }

  ghost predicate SortedGroups(groups: seq<string>) {
    forall i, j :: 0 <= i < j < |groups| ==> StringLe(groups[i], groups[j])
  }

  lemma SortedIsContiguous(groups: seq<string>)
    requires SortedGroups(groups)
    ensures Contiguous(groups)
  {
    forall i, j, k | 0 <= i < j < k < |groups| && groups[i] == groups[k] ensures groups[j] == groups[i] {
      StringLeTotal(groups[i], groups[j]);
    }
  }

  function Sum(s: seq<nat>): nat {
    if |s| == 0 then 0 else Sum(s[..|s| - 1]) + s[|s| - 1]
  }

  function GroupSet(groups: seq<string>): set<string> {
    set g | g in groups
  }

  /** `sizes` are the lengths of the maximal runs of equal ids in the first `n` groups, in order. */
  ghost predicate AreRuns(groups: seq<string>, n: nat, sizes: seq<nat>)
    requires n <= |groups|
  {
    if |sizes| == 0 then n == 0
    else
      var m := sizes[|sizes| - 1];
      && 1 <= m <= n
      && (forall i :: n - m <= i < n ==> groups[i] == groups[n - 1])
      && (n - m > 0 ==> groups[n - m - 1] != groups[n - 1])
      && AreRuns(groups, n - m, sizes[..|sizes| - 1])
  }

  /** `_group_sizes` */
  method GroupSizes(groups: seq<string>) returns (sizes: seq<nat>)
    ensures AreRuns(groups, |groups|, sizes)
    ensures Contiguous(groups) ==> |sizes| == |GroupSet(groups)| && Sum(sizes) == |groups|
  {
    sizes := [];
    var prev: string := "";
    for i := 0 to |groups|
      invariant AreRuns(groups, i, sizes)
      invariant i > 0 ==> prev == groups[i - 1]
    {
      var g := groups[i];
      if i == 0 || g != prev {
        sizes := sizes + [1];
        prev := g;
      } else {
        sizes := sizes[|sizes| - 1 := sizes[|sizes| - 1] + 1];
      }
    }
    if Contiguous(groups) {
      assert groups[..|groups|] == groups;
      RunsOfContiguous(groups, |groups|, sizes);
    }
  }

  /** When equal ids are adjacent there is one run per distinct id, and the runs cover everything. */
  lemma {:induction false} RunsOfContiguous(groups: seq<string>, n: nat, sizes: seq<nat>)
    requires n <= |groups| && AreRuns(groups, n, sizes) && Contiguous(groups)
    ensures |sizes| == |GroupSet(groups[..n])|
    ensures Sum(sizes) == n
    decreases |sizes|
  {
    if |sizes| == 0 {
      assert GroupSet(groups[..n]) == {};
    } else {
      var m := sizes[|sizes| - 1];
      RunsOfContiguous(groups, n - m, sizes[..|sizes| - 1]);
      LastRunCounts(groups, n, n - m);
    }
  }

  lemma LastRunCounts(groups: seq<string>, n: nat, c: nat)
    requires Contiguous(groups) && c < n <= |groups|
    requires forall i :: c <= i < n ==> groups[i] == groups[n - 1]
    requires c > 0 ==> groups[c - 1] != groups[n - 1]
    ensures |GroupSet(groups[..n])| == |GroupSet(groups[..c])| + 1
  {
    LastRunIsNew(groups, n, c);
  }

  lemma LastRunIsNew(groups: seq<string>, n: nat, c: nat)
    requires Contiguous(groups) && c < n <= |groups|
    requires forall i :: c <= i < n ==> groups[i] == groups[n - 1]
    requires c > 0 ==> groups[c - 1] != groups[n - 1]
    ensures groups[n - 1] !in GroupSet(groups[..c])
    ensures GroupSet(groups[..n]) == GroupSet(groups[..c]) + {groups[n - 1]}
  {
    forall i | 0 <= i < c ensures groups[i] != groups[n - 1] {
      assert i == c - 1 || i < c - 1 < n - 1;
    }
    forall x | x in GroupSet(groups[..n]) ensures x in GroupSet(groups[..c]) + {groups[n - 1]} {
      var i :| 0 <= i < n && groups[i] == x;
      assert i < c ==> groups[..c][i] == x;
    }
    assert groups[..n][n - 1] == groups[n - 1];
    forall x | x in GroupSet(groups[..c]) ensures x in GroupSet(groups[..n]) {
      var i :| 0 <= i < c && groups[..c][i] == x;
      assert groups[..n][i] == x;
    }
  }

  // ---------- the split ----------

  function Distinct(groups: seq<string>): (d: seq<string>)
    ensures forall g :: g in d <==> g in groups
    ensures forall i, j :: 0 <= i < j < |d| ==> d[i] != d[j]
  {
    if |groups| == 0 then []
    else
      var d := Distinct(groups[..|groups| - 1]);
      var g := groups[|groups| - 1];
      if g in d then d else d + [g]
  }

  /** The number of validation groups: `max(1, int(n * valid_ratio))`, cut off at `n` by the slice. */
  function ValidCount(n: nat, ratio: real): nat {
    var product := n as real * ratio;
    var truncated := if product >= 0.0 then product.Floor else -((-product).Floor);
    var wanted := if truncated > 1 then truncated else 1;
    if wanted < n then wanted else n
  }

  /** The ratio of the groups, rounded down; at least one group, if there is any, and at most all. */
  lemma ValidCountIs(n: nat, ratio: real, m: nat)
    ensures m == ValidCount(n, ratio)
       <==> && m <= n && (m == 0 ==> n == 0)
            && (m > 1 ==> m as real <= n as real * ratio)
            && (m < n ==> n as real * ratio < m as real + 1.0)
  {
  }

  ghost predicate Ascending(s: seq<nat>) {
    forall i, j :: 0 <= i < j < |s| ==> s[i] < s[j]
  }

  /** The index lists that split the first `n` samples by membership of their group in `valid`. */
  ghost predicate SplitBy(groups: seq<string>, n: nat, valid: set<string>, tr: seq<nat>, va: seq<nat>)
    requires n <= |groups|
  {
    && Ascending(tr) && Ascending(va) && InRange(tr, n) && InRange(va, n)
    && (forall i :: i in tr <==> 0 <= i < n && groups[i] !in valid)
    && (forall i :: i in va <==> 0 <= i < n && groups[i] in valid)
  }

  lemma SplitStep(groups: seq<string>, n: nat, valid: set<string>, tr: seq<nat>, va: seq<nat>)
    requires n < |groups| && SplitBy(groups, n, valid, tr, va)
    ensures groups[n] in valid ==> SplitBy(groups, n + 1, valid, tr, va + [n])
    ensures groups[n] !in valid ==> SplitBy(groups, n + 1, valid, tr + [n], va)
  {
    assert forall i :: i in va + [n] <==> i in va || i == n;
    assert forall i :: i in tr + [n] <==> i in tr || i == n;
  }

  ghost predicate InRange(indices: seq<nat>, n: nat) {
    forall j :: 0 <= j < |indices| ==> indices[j] < n
  }

  function PickRows<Row>(rows: seq<Row>, indices: seq<nat>): (r: seq<Row>)
    requires InRange(indices, |rows|)
    ensures |r| == |indices| && forall j :: 0 <= j < |r| ==> r[j] == rows[indices[j]]
  {
    seq(|indices|, j requires 0 <= j < |indices| => rows[indices[j]])
  }

  /** `set(unique_groups[:n_valid])`; `shuffled` is what the random generator makes of the distinct ids. */
  function Chosen(shuffled: seq<string>, ratio: real): set<string> {
    GroupSet(shuffled[..ValidCount(|shuffled|, ratio)])
  }

  /** `_split_by_group` */
  method SplitByGroup(groups: seq<string>, shuffled: seq<string>, ratio: real)
    returns (tr: seq<nat>, va: seq<nat>)
    requires multiset(shuffled) == multiset(Sort(Distinct(groups), StringLe))
    ensures SplitBy(groups, |groups|, Chosen(shuffled, ratio), tr, va)
  {
    var validSeq := shuffled[..ValidCount(|shuffled|, ratio)];
    tr, va := [], [];
    for i := 0 to |groups|
      invariant SplitBy(groups, i, Chosen(shuffled, ratio), tr, va)
    {
      SplitStep(groups, i, Chosen(shuffled, ratio), tr, va);
      if groups[i] in validSeq {
        va := va + [i];
      } else {
        tr := tr + [i];
      }
    }
  }

  /** Whatever the shuffle, as many groups are chosen as the ratio asks for, all of them real. */
  lemma ChosenGroups(groups: seq<string>, shuffled: seq<string>, ratio: real)
    requires multiset(shuffled) == multiset(Sort(Distinct(groups), StringLe))
    ensures Chosen(shuffled, ratio) <= GroupSet(groups)
    ensures |Chosen(shuffled, ratio)| == ValidCount(|GroupSet(groups)|, ratio)
  {
    ShuffledDistinct(groups, shuffled);
    SetOfDistinct(shuffled);
    SetOfDistinct(shuffled[..ValidCount(|shuffled|, ratio)]);
    assert GroupSet(shuffled) == GroupSet(groups);
  }

  lemma {:induction false} SetOfDistinct(s: seq<string>)
    requires forall i, j :: 0 <= i < j < |s| ==> s[i] != s[j]
    ensures |GroupSet(s)| == |s|
  {
    if |s| > 0 {
      var n := |s| - 1;
      SetOfDistinct(s[..n]);
      assert s == s[..n] + [s[n]];
      assert GroupSet(s) == GroupSet(s[..n]) + {s[n]};
    } else {
      assert GroupSet(s) == {};
    }
  }

  lemma ShuffledDistinct(groups: seq<string>, shuffled: seq<string>)
    requires multiset(shuffled) == multiset(Sort(Distinct(groups), StringLe))
    ensures forall g :: g in shuffled <==> g in groups
    ensures forall i, j :: 0 <= i < j < |shuffled| ==> shuffled[i] != shuffled[j]
  {
    var d := Distinct(groups);
    SortContents(d, StringLe);
    forall g ensures g in shuffled <==> g in d {
      assert g in shuffled <==> g in multiset(shuffled);
      assert g in d <==> g in multiset(d);
    }
    forall i, j | 0 <= i < j < |shuffled| ensures shuffled[i] != shuffled[j] {
      if shuffled[i] == shuffled[j] {
        CountTwice(shuffled, i, j);
        CountOnce(d, shuffled[i]);
      }
    }
  }

  lemma CountTwice(s: seq<string>, i: nat, j: nat)
    requires i < j < |s| && s[i] == s[j]
    ensures multiset(s)[s[i]] >= 2
  {
    assert s == s[..j] + s[j..];
    assert s[i] in s[..j] && s[i] in s[j..];
    assert multiset(s) == multiset(s[..j]) + multiset(s[j..]);
  }

  lemma {:induction false} CountOnce(s: seq<string>, g: string)
    requires forall i, j :: 0 <= i < j < |s| ==> s[i] != s[j]
    ensures multiset(s)[g] <= 1
  {
    if |s| > 0 {
      var n := |s| - 1;
      CountOnce(s[..n], g);
      assert s == s[..n] + [s[n]];
      if s[n] == g {
        assert g !in s[..n];
        assert g !in multiset(s[..n]);
      }
    }
  }

  /** Splitting id-sorted samples loses nothing, leaks no group, and leaves every group in one
      piece on its side: the query sizes of a side have one entry per distinct group and add up
      to the side. The validation side is empty only for no samples at all; the training side is
      empty exactly when the ratio claims every group. */
  lemma SplitIsGroupSafe(groups: seq<string>, valid: set<string>, tr: seq<nat>, va: seq<nat>, ratio: real)
    requires SortedGroups(groups) && SplitBy(groups, |groups|, valid, tr, va)
    requires valid <= GroupSet(groups) && |valid| == ValidCount(|GroupSet(groups)|, ratio)
    ensures forall i :: 0 <= i < |groups| ==> (i in tr) != (i in va)
    ensures |tr| + |va| == |groups|
    ensures GroupSet(PickRows(groups, va)) == valid
    ensures GroupSet(PickRows(groups, tr)) == GroupSet(groups) - valid
    ensures Contiguous(PickRows(groups, tr)) && Contiguous(PickRows(groups, va))
    ensures |va| == 0 <==> |groups| == 0
    ensures |tr| == 0 <==> ValidCount(|GroupSet(groups)|, ratio) == |GroupSet(groups)|
  {
    SortedIsContiguous(groups);
    SplitSets(groups, valid, tr, va);
    SplitLengths(groups, |groups|, valid, tr, va);
    EmptySet(groups);
    EmptySet(PickRows(groups, va));
    EmptySet(PickRows(groups, tr));
    assert |GroupSet(groups) - valid| == |GroupSet(groups)| - |valid|;
  }

  lemma EmptySet(groups: seq<string>)
    ensures |GroupSet(groups)| == 0 <==> |groups| == 0
  {
    if |groups| > 0 {
      assert groups[0] in GroupSet(groups);
    } else {
      assert GroupSet(groups) == {};
    }
  }

  lemma SplitSets(groups: seq<string>, valid: set<string>, tr: seq<nat>, va: seq<nat>)
    requires SplitBy(groups, |groups|, valid, tr, va) && valid <= GroupSet(groups)
    ensures GroupSet(PickRows(groups, va)) == valid
    ensures GroupSet(PickRows(groups, tr)) == GroupSet(groups) - valid
  {
    forall i | 0 <= i < |groups|
      ensures groups[i] in valid ==> groups[i] in GroupSet(PickRows(groups, va))
      ensures groups[i] !in valid ==> groups[i] in GroupSet(PickRows(groups, tr))
    {
      if groups[i] in valid {
        assert i in va;
        var j :| 0 <= j < |va| && va[j] == i;
        assert PickRows(groups, va)[j] == groups[i];
      } else {
        assert i in tr;
        var j :| 0 <= j < |tr| && tr[j] == i;
        assert PickRows(groups, tr)[j] == groups[i];
      }
    }
    forall j | 0 <= j < |va| ensures PickRows(groups, va)[j] in valid {
      assert va[j] in va;
    }
    forall j | 0 <= j < |tr| ensures PickRows(groups, tr)[j] !in valid {
      assert tr[j] in tr;
    }
  }

  lemma {:induction false} SplitLengths(groups: seq<string>, n: nat, valid: set<string>, tr: seq<nat>, va: seq<nat>)
    requires n <= |groups| && SplitBy(groups, n, valid, tr, va)
    ensures |tr| + |va| == n
  {
    if n > 0 {
      if groups[n - 1] in valid {
        DropLast(va, n - 1);
        SplitLengths(groups, n - 1, valid, tr, va[..|va| - 1]);
      } else {
        DropLast(tr, n - 1);
        SplitLengths(groups, n - 1, valid, tr[..|tr| - 1], va);
      }
    }
  }

  lemma DropLast(s: seq<nat>, n: nat)
    requires Ascending(s) && n in s && InRange(s, n + 1)
    ensures |s| > 0 && s[|s| - 1] == n && Ascending(s[..|s| - 1]) && InRange(s[..|s| - 1], n)
    ensures forall i :: i in s[..|s| - 1] <==> i in s && i != n
  {
    var j :| 0 <= j < |s| && s[j] == n;
    assert s == s[..|s| - 1] + [n];
  }

  // ---------- rearranging the samples ----------

  function KeyAt(groups: seq<string>, i: nat): string { if i < |groups| then groups[i] else "" }

  function ByGroup(groups: seq<string>): (nat, nat) -> bool {
    (i: nat, j: nat) => StringLe(KeyAt(groups, i), KeyAt(groups, j))
  }

  lemma ByGroupIsPreorder(groups: seq<string>)
    ensures TotalPreorder(ByGroup(groups))
  {
    forall x: nat, y: nat ensures ByGroup(groups)(x, y) || ByGroup(groups)(y, x) {
      StringLeTotal(KeyAt(groups, x), KeyAt(groups, y));
    }
    forall x: nat, y: nat, z: nat | ByGroup(groups)(x, y) && ByGroup(groups)(y, z)
      ensures ByGroup(groups)(x, z)
    {
      StringLeTransitive(KeyAt(groups, x), KeyAt(groups, y), KeyAt(groups, z));
    }
  }

  lemma OrderedByGroup(groups: seq<string>, order: seq<nat>)
    requires order == Sort(Iota(|groups|), ByGroup(groups))
    ensures multiset(order) == multiset(Iota(|groups|)) && InRange(order, |groups|)
    ensures StableSorting(order, Iota(|groups|), ByGroup(groups))
    ensures SortedGroups(PickRows(groups, order))
  {
    ByGroupIsPreorder(groups);
    SortContents(Iota(|groups|), ByGroup(groups));
    SortIsStableSorting(Iota(|groups|), ByGroup(groups));
    forall j | 0 <= j < |order| ensures order[j] < |groups| {
      assert order[j] in multiset(order);
      assert order[j] in Iota(|groups|);
    }
    var g := PickRows(groups, order);
    forall i, j | 0 <= i < j < |g| ensures StringLe(g[i], g[j]) {
      assert ByGroup(groups)(order[i], order[j]);
    }
  }

  /** The samples rearranged by `np.argsort(groups, kind="stable")`: one order for all three
      columns, so every label and matrix row stays with its group id. */
  method OrderByGroup<Row>(groups: seq<string>, labels: seq<int>, matrix: seq<Row>)
    returns (order: seq<nat>, g: seq<string>, l: seq<int>, m: seq<Row>)
    requires |groups| == |labels| == |matrix|
    ensures multiset(order) == multiset(Iota(|groups|)) && InRange(order, |groups|)
    ensures StableSorting(order, Iota(|groups|), ByGroup(groups))
    ensures g == PickRows(groups, order) && SortedGroups(g)
    ensures l == PickRows(labels, order) && m == PickRows(matrix, order)
  {
    order := Sort(Iota(|groups|), ByGroup(groups));
    OrderedByGroup(groups, order);
    g := PickRows(groups, order);
    l := PickRows(labels, order);
    m := PickRows(matrix, order);
  }
}

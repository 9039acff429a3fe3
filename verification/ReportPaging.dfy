/** The cross-table report list of `app/services/admin/report.py`: every table gives its newest
    rows, the pieces are merged by one stable sort and one page is cut out. */
module ReportPaging {
  import opened Sorting
  import opened Wrappers

  /** `createdAt` counts from the smallest timestamp there is, which also stands in for a missing one. */
  datatype Report = Report(model: int, pk: int, createdAt: Option<nat>)

  function Key(r: Report): nat { if r.createdAt.Some? then r.createdAt.value else 0 }

  /** `sort(key=created_at or datetime.min, reverse=True)` keeps ties in order. */
  function Newest(): (Report, Report) -> bool { (a: Report, b: Report) => Key(a) >= Key(b) }

  /** `a` is no older than `b`; a report without a time is older than any other, and as old as one at the
      smallest timestamp. */
  predicate NotOlder(a: Report, b: Report) {
    b.createdAt == None || b.createdAt == Some(0)
    || (a.createdAt.Some? && b.createdAt.Some? && a.createdAt.value >= b.createdAt.value)
  }

  lemma NewestIsNotOlder(a: Report, b: Report)
    ensures Newest()(a, b) <==> NotOlder(a, b)
  {
  }

  /** `_distinct_models`: the report tables of the registered resources, each once, in the order
      of first use. */
  function DistinctModels(registry: seq<Option<int>>): (models: seq<int>)
    ensures forall m :: m in models <==> Some(m) in registry
    ensures forall i, j :: 0 <= i < j < |models| ==> models[i] != models[j]
  {
    if |registry| == 0 then []
    else
      var before := DistinctModels(registry[..|registry| - 1]);
      var last := registry[|registry| - 1];
      assert registry == registry[..|registry| - 1] + [last];
      if last.None? || last.value in before then before else before + [last.value]
  }

  /** The tables come in the order of their first use: one is used before all uses of any later one. */
  lemma {:induction false} ModelsInOrder(registry: seq<Option<int>>, i: nat, j: nat) returns (p: nat)
    requires i < j < |DistinctModels(registry)|
    ensures p < |registry| && registry[p] == Some(DistinctModels(registry)[i])
    ensures forall q :: 0 <= q <= p ==> registry[q] != Some(DistinctModels(registry)[j])
    decreases |registry|
  {
    var init := registry[..|registry| - 1];
    var before, models := DistinctModels(init), DistinctModels(registry);
    if j < |before| {
      p := ModelsInOrder(init, i, j);
    } else {
      assert Some(models[i]) in init && Some(models[j]) !in init;
      p :| 0 <= p < |init| && init[p] == Some(models[i]);
    }
  }

  /** The rows of each table that pass the filter, newest first. */
  type Tables = map<int, seq<Report>>

  function Rows(tables: Tables, model: int): seq<Report> {
    if model in tables then tables[model] else []
  }

  ghost predicate NewestFirst(tables: Tables) {
    forall m :: m in tables ==> SortedBy(tables[m], Newest())
  }

  function Take<T>(s: seq<T>, n: nat): seq<T> { if n <= |s| then s[..n] else s }

  /** Python's `s[lo:hi]` for non-negative bounds. */
  function Slice<T>(s: seq<T>, lo: nat, hi: nat): seq<T>
    requires lo <= hi
  {
    Take(s, hi)[|Take(s, lo)|..]
  }

  /** All rows of the given tables, table after table, each cut to its first `n`. */
  function Gather(tables: Tables, models: seq<int>, n: nat): seq<Report> {
    if |models| == 0 then []
    else Gather(tables, models[..|models| - 1], n) + Take(Rows(tables, models[|models| - 1]), n)
  }

  function AllRows(tables: Tables, models: seq<int>): seq<Report> {
    if |models| == 0 then []
    else AllRows(tables, models[..|models| - 1]) + Rows(tables, models[|models| - 1])
  }

  /** Rows of a sorted table beyond its first `n` cannot reach the first `n` of the merge. */
  lemma {:induction false} DropTail(p: seq<Report>, t: seq<Report>, q: seq<Report>, n: nat)
    requires SortedBy(t, Newest())
    ensures Take(Sort(p + t + q, Newest()), n) == Take(Sort(p + Take(t, n) + q, Newest()), n)
    decreases |t|
  {
    if |t| > n {
      var t', last := t[..|t| - 1], t[|t| - 1];
      DropTail(p, t', q, n);
      assert Take(t', n) == Take(t, n);
      assert p + t + q == (p + t') + [last] + q;
      var i := SortWithOneMore(p + t', last, q, Newest());
      CountBeforeSorted(p, t', last, Newest());
      SortContents(p + t' + q, Newest());
      assert (p + t') + q == p + t' + q;
    } else {
      assert Take(t, n) == t;
    }
  }

  lemma {:induction false} TruncationIsHarmless(tables: Tables, models: seq<int>, n: nat, q: seq<Report>)
    requires NewestFirst(tables)
    ensures Take(Sort(Gather(tables, models, n) + q, Newest()), n)
            == Take(Sort(AllRows(tables, models) + q, Newest()), n)
    decreases |models|
  {
    if |models| > 0 {
      var init, t := models[..|models| - 1], Rows(tables, models[|models| - 1]);
      var p, all := Gather(tables, init, n), AllRows(tables, init);
      assert p + Take(t, n) + q == p + (Take(t, n) + q);
      TruncationIsHarmless(tables, init, n, Take(t, n) + q);
      assert all + Take(t, n) + q == all + (Take(t, n) + q);
      DropTail(all, t, q, n);
    }
  }

  /** The list as one global stable sort of every report. */
  function Ranked(tables: Tables, models: seq<int>): seq<Report> {
    Sort(AllRows(tables, models), Newest())
  }

  function ClampPage(page: int): (p: nat)
    ensures p >= 1 && (page >= 1 ==> p == page) && (page < 1 ==> p == 1)
  {
    if page > 1 then page else 1
  }

  function ClampSize(pageSize: int): (s: nat)
    ensures 1 <= s <= 50 && (1 <= pageSize <= 50 ==> s == pageSize)
    ensures (pageSize < 1 ==> s == 1) && (pageSize > 50 ==> s == 50)
  {
    if pageSize < 1 then 1 else if pageSize > 50 then 50 else pageSize
  }

  function Page(tables: Tables, models: seq<int>, page: nat, size: nat): seq<Report>
    requires page >= 1
  {
    PageBounds(page, size);
    Slice(Ranked(tables, models), (page - 1) * size, page * size)
  }

  lemma PageBounds(page: nat, size: nat)
    requires page >= 1
    ensures 0 <= (page - 1) * size <= page * size == (page - 1) * size + size
  {
  }

  /** `list_reports` without a resource type. */
  method ListReports(registry: seq<Option<int>>, tables: Tables, page: int, pageSize: int)
    returns (items: seq<Report>, total: nat, page': nat, pageSize': nat)
    requires NewestFirst(tables)
    ensures page' == ClampPage(page) && pageSize' == ClampSize(pageSize)
    ensures items == Page(tables, DistinctModels(registry), page', pageSize')
    ensures total == TotalOf(tables, DistinctModels(registry))
    ensures |items| <= pageSize' && (total >= page' * pageSize' ==> |items| == pageSize')
    ensures forall i, j :: 0 <= i < j < |items| ==> NotOlder(items[i], items[j])
  {
    page', pageSize' := ClampPage(page), ClampSize(pageSize);
    var n := page' * pageSize';
    var models := DistinctModels(registry);
    var merged: seq<Report> := [];
    total := 0;
    for m := 0 to |models|
      invariant merged == Gather(tables, models[..m], n)
      invariant total == |AllRows(tables, models[..m])|
    {
      OneMoreTable(tables, models, m, n);
      var subItems, subTotal := Take(Rows(tables, models[m]), n), |Rows(tables, models[m])|;
      total := total + subTotal;
      merged := merged + subItems;
    }
    assert models[..|models|] == models;
    merged := Sort(merged, Newest());
    PageBounds(page', pageSize');
    TruncatedMerge(tables, models, n);
    SliceNeedsOnlyPrefix(merged, Ranked(tables, models), n - pageSize', n);
    items := Slice(merged, n - pageSize', n);
    AllRowsTotal(tables, models);
    PageIsOrdered(tables, models, page', pageSize');
  }

  // ---------- what the list holds, said of the tables themselves ----------

  /** The rows of the listed tables together. */
  function TotalOf(tables: Tables, models: seq<int>): nat {
    if |models| == 0 then 0 else (if models[0] in tables then |tables[models[0]]| else 0) + TotalOf(tables, models[1..])
  }

  /** How often the listed tables together hold `r`. */
  function TimesIn(tables: Tables, models: seq<int>, r: Report): nat {
    if |models| == 0 then 0
    else (if models[0] in tables then multiset(tables[models[0]])[r] else 0) + TimesIn(tables, models[1..], r)
  }

  lemma {:induction false} TotalOfLast(tables: Tables, models: seq<int>, last: int)
    ensures TotalOf(tables, models + [last])
         == TotalOf(tables, models) + if last in tables then |tables[last]| else 0
  {
    if |models| == 0 {
      assert models + [last] == [last] && [last][1..] == [];
    } else {
      assert (models + [last])[1..] == models[1..] + [last];
      TotalOfLast(tables, models[1..], last);
    }
  }

  lemma {:induction false} TimesInLast(tables: Tables, models: seq<int>, last: int, r: Report)
    ensures TimesIn(tables, models + [last], r)
         == TimesIn(tables, models, r) + if last in tables then multiset(tables[last])[r] else 0
  {
    if |models| == 0 {
      assert models + [last] == [last] && [last][1..] == [];
    } else {
      assert (models + [last])[1..] == models[1..] + [last];
      TimesInLast(tables, models[1..], last, r);
    }
  }

  lemma {:induction false} AllRowsTotal(tables: Tables, models: seq<int>)
    ensures |AllRows(tables, models)| == TotalOf(tables, models)
  {
    if |models| > 0 {
      var init, last := models[..|models| - 1], models[|models| - 1];
      AllRowsTotal(tables, init);
      TotalOfLast(tables, init, last);
      assert models == init + [last];
    }
  }

  /** One table alone. */
  lemma AllRowsOfOne(tables: Tables, m: int)
    ensures AllRows(tables, [m]) == if m in tables then tables[m] else []
  {
    assert [m][..0] == [];
  }

  lemma AllRowsLast(tables: Tables, models: seq<int>, last: int)
    ensures AllRows(tables, models + [last]) == AllRows(tables, models) + Rows(tables, last)
  {
    assert (models + [last])[..|models|] == models;
  }

  /** The rows stand table after table. */
  lemma {:induction false} AllRowsConcat(tables: Tables, a: seq<int>, b: seq<int>)
    ensures AllRows(tables, a + b) == AllRows(tables, a) + AllRows(tables, b)
  {
    if |b| == 0 {
      assert a + b == a;
    } else {
      var init, last := b[..|b| - 1], b[|b| - 1];
      AllRowsConcat(tables, a, init);
      AllRowsLast(tables, a + init, last);
      AllRowsLast(tables, init, last);
      assert b == init + [last] && a + b == a + init + [last];
    }
  }

  /** Gathering keeps every row of every listed table, as often as it is there, and adds none. */
  lemma {:induction false} AllRowsCount(tables: Tables, models: seq<int>, r: Report)
    ensures multiset(AllRows(tables, models))[r] == TimesIn(tables, models, r)
  {
    if |models| > 0 {
      var init, last := models[..|models| - 1], models[|models| - 1];
      AllRowsCount(tables, init, r);
      TimesInLast(tables, init, last, r);
      assert models == init + [last];
    }
  }

  lemma SliceAt<T>(s: seq<T>, lo: nat, hi: nat)
    requires lo <= hi
    ensures |Slice(s, lo, hi)| == if hi <= |s| then hi - lo else if lo <= |s| then |s| - lo else 0
    ensures forall i :: 0 <= i < |Slice(s, lo, hi)| ==> lo + i < |s| && Slice(s, lo, hi)[i] == s[lo + i]
  {
  }

  /** The part of the ranking that a page shows. */
  ghost predicate Shows(items: seq<Report>, s: seq<Report>, lo: nat, size: nat) {
    && |items| == (if lo + size <= |s| then size else if lo <= |s| then |s| - lo else 0)
    && forall i :: 0 <= i < |items| ==> lo + i < |s| && items[i] == s[lo + i]
  }

  lemma PageAt(tables: Tables, models: seq<int>, page: nat, size: nat, lo: nat)
    requires page >= 1 && lo == (page - 1) * size
    ensures Shows(Page(tables, models, page, size), Ranked(tables, models), lo, size)
  {
    PageBounds(page, size);
    SliceAt(Ranked(tables, models), lo, page * size);
  }

  lemma RankedIsOrdered(tables: Tables, models: seq<int>)
    ensures |Ranked(tables, models)| == |AllRows(tables, models)|
    ensures multiset(Ranked(tables, models)) == multiset(AllRows(tables, models))
    ensures SortedBy(Ranked(tables, models), Newest())
  {
    SortContents(AllRows(tables, models), Newest());
    SortIsStableSorting(AllRows(tables, models), Newest());
  }

  lemma ShownIsOrdered(items: seq<Report>, s: seq<Report>, lo: nat, size: nat)
    requires Shows(items, s, lo, size) && SortedBy(s, Newest())
    ensures forall i, j :: 0 <= i < j < |items| ==> NotOlder(items[i], items[j])
  {
    forall i, j | 0 <= i < j < |items| ensures NotOlder(items[i], items[j]) {
      assert Newest()(s[lo + i], s[lo + j]);
    }
  }

  lemma PageIsOrdered(tables: Tables, models: seq<int>, page: nat, size: nat)
    requires page >= 1
    ensures var items := Page(tables, models, page, size);
            && |items| <= size && (|AllRows(tables, models)| >= page * size ==> |items| == size)
            && forall i, j :: 0 <= i < j < |items| ==> NotOlder(items[i], items[j])
  {
    PageBounds(page, size);
    var lo := (page - 1) * size;
    RankedIsOrdered(tables, models);
    PageAt(tables, models, page, size, lo);
    ShownIsOrdered(Page(tables, models, page, size), Ranked(tables, models), lo, size);
  }

  lemma RowIsRanked(tables: Tables, models: seq<int>, m: int, r: Report) returns (p: nat)
    requires m in models && m in tables && r in tables[m]
    ensures p < |Ranked(tables, models)| && Ranked(tables, models)[p] == r
  {
    CountsAtLeast(tables, models, m, r);
    AllRowsCount(tables, models, r);
    RankedIsOrdered(tables, models);
    assert r in multiset(Ranked(tables, models));
    p :| 0 <= p < |Ranked(tables, models)| && Ranked(tables, models)[p] == r;
  }

  /** Every row of a listed table is on some page, of any size. */
  lemma EveryRowIsOnAPage(tables: Tables, models: seq<int>, size: nat, m: int, i: nat) returns (page: nat, k: nat)
    requires size > 0 && m in models && m in tables && i < |tables[m]|
    ensures page >= 1 && k < |Page(tables, models, page, size)| && Page(tables, models, page, size)[k] == tables[m][i]
  {
    var p := RowIsRanked(tables, models, m, tables[m][i]);
    page, k := p / size + 1, p % size;
    PositionOnPage(p, size, page, k);
    PageBounds(page, size);
    PageAt(tables, models, page, size, p - k);
  }

  lemma PositionOnPage(p: nat, size: nat, page: nat, k: nat)
    requires size > 0 && page == p / size + 1 && k == p % size
    ensures (page - 1) * size + k == p && k < size
  {
  }

  lemma {:induction false} CountsAtLeast(tables: Tables, models: seq<int>, m: int, r: Report)
    requires m in models && m in tables && r in tables[m]
    ensures TimesIn(tables, models, r) > 0
  {
    if models[0] != m {
      CountsAtLeast(tables, models[1..], m, r);
    } else {
      assert r in multiset(tables[m]);
    }
  }

  lemma OneMoreTable(tables: Tables, models: seq<int>, m: nat, n: nat)
    requires m < |models|
    ensures Gather(tables, models[..m + 1], n) == Gather(tables, models[..m], n) + Take(Rows(tables, models[m]), n)
    ensures |AllRows(tables, models[..m + 1])| == |AllRows(tables, models[..m])| + |Rows(tables, models[m])|
  {
    assert models[..m + 1][..m] == models[..m];
  }

  lemma TruncatedMerge(tables: Tables, models: seq<int>, n: nat)
    requires NewestFirst(tables)
    ensures Take(Sort(Gather(tables, models, n), Newest()), n) == Take(Ranked(tables, models), n)
  {
    TruncationIsHarmless(tables, models, n, []);
    assert Gather(tables, models, n) + [] == Gather(tables, models, n);
    assert AllRows(tables, models) + [] == AllRows(tables, models);
  }

  lemma SliceNeedsOnlyPrefix<T>(s: seq<T>, t: seq<T>, lo: nat, hi: nat)
    requires lo <= hi && Take(s, hi) == Take(t, hi)
    ensures Slice(s, lo, hi) == Slice(t, lo, hi)
  {
    assert Take(Take(s, hi), lo) == Take(s, lo);
    assert Take(Take(t, hi), lo) == Take(t, lo);
  }

  /** Pages 1 to `m`, one after the other. */
  function Pages(tables: Tables, models: seq<int>, m: nat, size: nat): seq<Report> {
    if m == 0 then [] else Pages(tables, models, m - 1, size) + Page(tables, models, m, size)
  }

  lemma TakeThenSlice<T>(s: seq<T>, lo: nat, hi: nat)
    requires lo <= hi
    ensures Take(s, hi) == Take(s, lo) + Slice(s, lo, hi)
  {
  }

  lemma {:induction false} PagesArePrefix(tables: Tables, models: seq<int>, m: nat, size: nat)
    ensures Pages(tables, models, m, size) == Take(Ranked(tables, models), m * size)
  {
    if m > 0 {
      PagesArePrefix(tables, models, m - 1, size);
      PageBounds(m, size);
      TakeThenSlice(Ranked(tables, models), (m - 1) * size, m * size);
    }
  }

  /** Over a fixed snapshot, enough pages of any size list every report exactly once, newest
      first, with equally old reports in table order; no other list is a stable newest-first
      ordering of all reports. */
  lemma PagesListEveryReportOnce(tables: Tables, models: seq<int>, m: nat, size: nat, other: seq<Report>)
    requires m * size >= TotalOf(tables, models)
    ensures forall r :: multiset(Pages(tables, models, m, size))[r] == TimesIn(tables, models, r)
    ensures StableSorting(other, AllRows(tables, models), Newest()) <==> other == Pages(tables, models, m, size)
  {
    var all := AllRows(tables, models);
    AllRowsTotal(tables, models);
    forall r ensures multiset(all)[r] == TimesIn(tables, models, r) {
      AllRowsCount(tables, models, r);
    }
    PagesArePrefix(tables, models, m, size);
    SortContents(all, Newest());
    SortIsStableSorting(all, Newest());
    assert Pages(tables, models, m, size) == Sort(all, Newest());
    if StableSorting(other, all, Newest()) {
      SameStableSorting(other, Sort(all, Newest()), all);
    }
  }

  lemma SameStableSorting(r: seq<Report>, t: seq<Report>, s: seq<Report>)
    requires StableSorting(r, s, Newest()) && StableSorting(t, s, Newest())
    ensures r == t
  {
    forall x ensures Ties(x, r, Newest()) == Ties(x, t, Newest()) {
      assert Ties(x, r, Newest()) == Ties(x, s, Newest());
    }
    StableSortingIsUnique(r, t, Newest());
  }

  /** Tables shared by several resources enter the list and the total once: rows with different
      tables or primary keys make the gathered list free of duplicates. */
  lemma {:induction false} NoReportTwice(tables: Tables, models: seq<int>)
    requires forall i, j :: 0 <= i < j < |models| ==> models[i] != models[j]
    requires forall m, i :: m in tables && 0 <= i < |tables[m]| ==> tables[m][i].model == m
    requires forall m, i, j :: m in tables && 0 <= i < j < |tables[m]| ==> tables[m][i] != tables[m][j]
    ensures forall i, j :: 0 <= i < j < |AllRows(tables, models)|
              ==> AllRows(tables, models)[i] != AllRows(tables, models)[j]
    ensures forall r :: r in AllRows(tables, models) ==> r.model in models
  {
    if |models| > 0 {
      var init, last := models[..|models| - 1], models[|models| - 1];
      NoReportTwice(tables, init);
      forall r | r in Rows(tables, last) ensures r.model == last {
        var i :| 0 <= i < |Rows(tables, last)| && Rows(tables, last)[i] == r;
        assert tables[last][i].model == last;
      }
      assert last !in init;
    }
  }
}

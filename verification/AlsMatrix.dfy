/** The user-item matrix of `scripts/train_als_recall.py`, built in compressed sparse row form.
    Weights are exact reals. */
module AlsMatrix {
  import opened Permutations
  import opened Sorting

  /** One interaction: user, item and feedback weight. */
  datatype Feedback = Feedback(mid: int, bizId: int, weight: real)

  /** One stored entry of a row. */
  datatype Cell = Cell(col: nat, weight: real)

  datatype Csr = Csr(indptr: seq<nat>, indices: seq<nat>, data: seq<real>)

  // ---------- ids ----------

  ghost predicate Increasing(s: seq<int>) {
    forall i, j :: 0 <= i < j < |s| ==> s[i] < s[j]
  }

  function InsertId(x: int, s: seq<int>): (r: seq<int>)
    requires Increasing(s)
    ensures Increasing(r) && forall y :: y in r <==> y in s || y == x
  {
    if |s| == 0 || x < s[0] then [x] + s
    else if x == s[0] then s
    else
      var rest := InsertId(x, s[1..]);
      assert s == [s[0]] + s[1..];
      assert forall k :: 0 <= k < |rest| ==> rest[k] in rest;
      [s[0]] + rest
  }

  /** `sorted({...})` of a column of ids. */
  function SortedIds(ids: seq<int>): (r: seq<int>)
    ensures Increasing(r) && forall y :: y in r <==> y in ids
  {
    if |ids| == 0 then []
    else
      assert ids == [ids[0]] + ids[1..];
      InsertId(ids[0], SortedIds(ids[1..]))
  }

  function Users(rows: seq<Feedback>): (r: seq<int>)
    ensures |r| == |rows| && forall i :: 0 <= i < |r| ==> r[i] == rows[i].mid
  {
    seq(|rows|, i requires 0 <= i < |rows| => rows[i].mid)
  }

  function Items(rows: seq<Feedback>): (r: seq<int>)
    ensures |r| == |rows| && forall i :: 0 <= i < |r| ==> r[i] == rows[i].bizId
  {
    seq(|rows|, i requires 0 <= i < |rows| => rows[i].bizId)
  }

  function Column(items: seq<int>, id: int): (c: nat)
    requires Increasing(items) && id in items
    ensures c < |items| && items[c] == id
  {
    var c :| 0 <= c < |items| && items[c] == id; c
  }

  // ---------- cells ----------

  /** The cells of user `u` among the first `k` rows, in row order. */
  function CellsOf(rows: seq<Feedback>, k: nat, items: seq<int>, u: int): seq<Cell>
    requires k <= |rows| && KnownItems(rows, items)
  {
    if k == 0 then []
    else
      var r := rows[k - 1];
      CellsOf(rows, k - 1, items, u) + if r.mid == u then [Cell(Column(items, r.bizId), r.weight)] else []
  }

  function CellLe(): (Cell, Cell) -> bool {
    (a: Cell, b: Cell) => a.col < b.col || (a.col == b.col && a.weight <= b.weight)
  }

  /** The number of rows of user `u`. */
  function Interactions(rows: seq<Feedback>, k: nat, u: int): nat
    requires k <= |rows|
  {
    if k == 0 then 0 else Interactions(rows, k - 1, u) + if rows[k - 1].mid == u then 1 else 0
  }

  /** The total weight the input gives to one user and item. */
  function WeightSum(rows: seq<Feedback>, k: nat, u: int, item: int): real
    requires k <= |rows|
  {
    if k == 0 then 0.0
    else WeightSum(rows, k - 1, u, item)
         + if rows[k - 1].mid == u && rows[k - 1].bizId == item then rows[k - 1].weight else 0.0
  }

  function CellSum(cells: seq<Cell>, c: nat): real {
    if |cells| == 0 then 0.0
    else CellSum(cells[..|cells| - 1], c)
         + if cells[|cells| - 1].col == c then cells[|cells| - 1].weight else 0.0
  }

  ghost predicate KnownItems(rows: seq<Feedback>, items: seq<int>) {
    Increasing(items) && forall r :: r in rows ==> r.bizId in items
  }

  /** The cells of a user carry exactly the input weights, one cell a row. */
  lemma {:induction false} CellsAddUp(rows: seq<Feedback>, k: nat, items: seq<int>, u: int, item: int)
    requires k <= |rows| && KnownItems(rows, items) && item in items
    ensures CellSum(CellsOf(rows, k, items, u), Column(items, item)) == WeightSum(rows, k, u, item)
  {
    if k > 0 {
      CellsAddUp(rows, k - 1, items, u, item);
      var r := rows[k - 1];
      assert r in rows;
      if r.mid == u {
        assert CellsOf(rows, k, items, u) == CellsOf(rows, k - 1, items, u) + [Cell(Column(items, r.bizId), r.weight)];
      } else {
        assert CellsOf(rows, k, items, u) == CellsOf(rows, k - 1, items, u);
      }
    }
  }

  lemma {:induction false} CellsCounted(rows: seq<Feedback>, k: nat, items: seq<int>, u: int)
    requires k <= |rows| && KnownItems(rows, items)
    ensures |CellsOf(rows, k, items, u)| == Interactions(rows, k, u)
    ensures forall x :: x in CellsOf(rows, k, items, u) ==> x.col < |items|
  {
    if k > 0 {
      CellsCounted(rows, k - 1, items, u);
    }
  }

  lemma {:induction false} CellSumConcat(a: seq<Cell>, b: seq<Cell>, c: nat)
    ensures CellSum(a + b, c) == CellSum(a, c) + CellSum(b, c)
  {
    if |b| == 0 {
      assert a + b == a;
    } else {
      assert (a + b)[..|a + b| - 1] == a + b[..|b| - 1];
      CellSumConcat(a, b[..|b| - 1], c);
    }
  }

  lemma CellSumWithout(b: seq<Cell>, j: nat, c: nat)
    requires j < |b|
    ensures CellSum(b, c) == CellSum(b[..j] + b[j + 1..], c) + if b[j].col == c then b[j].weight else 0.0
  {
    var front, back := b[..j], b[j + 1..];
    assert b == front + [b[j]] + back;
    CellSumAround(front, b[j], back, c);
  }

  lemma CellSumAround(front: seq<Cell>, x: Cell, back: seq<Cell>, c: nat)
    ensures CellSum(front + [x] + back, c) == CellSum(front + back, c) + if x.col == c then x.weight else 0.0
  {
    CellSumConcat(front + [x], back, c);
    CellSumConcat(front, back, c);
  }

  lemma {:induction false} CellSumPermuted(a: seq<Cell>, b: seq<Cell>, c: nat)
    requires multiset(a) == multiset(b)
    ensures CellSum(a, c) == CellSum(b, c)
    decreases |a|
  {
    assert |multiset(a)| == |a| && |multiset(b)| == |b|;
    if |a| > 0 {
      var j := MatchLast(a, b);
      var x, n := b[j], |a| - 1;
      CellSumPermuted(a[..n], b[..j] + b[j + 1..], c);
      CellSumWithout(b, j, c);
      assert a == a[..n] + [x];
    }
  }

  // ---------- the matrix ----------

  function Zip(indices: seq<nat>, data: seq<real>): (cells: seq<Cell>)
    requires |indices| == |data|
    ensures |cells| == |indices| && forall p :: 0 <= p < |cells| ==> cells[p] == Cell(indices[p], data[p])
  {
    seq(|indices|, p requires 0 <= p < |indices| => Cell(indices[p], data[p]))
  }

  /** Row pointers start at 0, never fall, and end at the number of stored cells. */
  ghost predicate RowPointers(m: Csr) {
    && |m.indices| == |m.data|
    && |m.indptr| > 0 && m.indptr[0] == 0
    && (forall r, q :: 0 <= r < q < |m.indptr| ==> m.indptr[r] <= m.indptr[q])
    && m.indptr[|m.indptr| - 1] == |m.indices|
  }

  ghost function RowCells(m: Csr, r: nat): seq<Cell>
    requires RowPointers(m) && r + 1 < |m.indptr|
  {
    Zip(m.indices, m.data)[m.indptr[r]..m.indptr[r + 1]]
  }

  /** The value that `csr_matrix` gives an entry: duplicates of a column add up. */
  ghost function Dense(m: Csr, r: nat, c: nat): real
    requires RowPointers(m) && r + 1 < |m.indptr|
  {
    CellSum(RowCells(m, r), c)
  }

  /** Every stored row is the sorted list of its user's cells. */
  ghost predicate RowsOf(m: Csr, rows: seq<Feedback>, items: seq<int>, kept: seq<int>)
    requires KnownItems(rows, items)
  {
    && RowPointers(m) && |m.indptr| == |kept| + 1
    && forall r :: 0 <= r < |kept| ==> RowCells(m, r) == Sort(CellsOf(rows, |rows|, items, kept[r]), CellLe())
  }

  /** The users among the first `n` ids that have enough rows, in ascending order. */
  ghost predicate KeptOf(kept: seq<int>, users: seq<int>, n: nat, rows: seq<Feedback>, minInteractions: int)
    requires n <= |users|
  {
    && Increasing(kept)
    && (forall u :: u in kept <==> u in users[..n] && Interactions(rows, |rows|, u) >= minInteractions)
  }

  lemma AppendRow(m: Csr, cells: seq<Cell>, m': Csr, rows: seq<Feedback>, items: seq<int>, kept: seq<int>, u: int)
    requires KnownItems(rows, items) && RowsOf(m, rows, items, kept)
    requires cells == Sort(CellsOf(rows, |rows|, items, u), CellLe())
    requires |m'.indices| == |m'.data| && Zip(m'.indices, m'.data) == Zip(m.indices, m.data) + cells
    requires m'.indptr == m.indptr + [|m'.indices|]
    ensures RowsOf(m', rows, items, kept + [u])
  {
    var z, z' := Zip(m.indices, m.data), Zip(m'.indices, m'.data);
    forall r | 0 <= r < |kept| + 1
      ensures RowCells(m', r) == Sort(CellsOf(rows, |rows|, items, (kept + [u])[r]), CellLe())
    {
      if r < |kept| {
        assert m.indptr[r] <= m.indptr[r + 1] <= |z|;
        assert z'[m.indptr[r]..m.indptr[r + 1]] == z[m.indptr[r]..m.indptr[r + 1]];
        assert RowCells(m, r) == Sort(CellsOf(rows, |rows|, items, kept[r]), CellLe());
      } else {
        assert z'[|z|..] == cells;
        assert m'.indptr[r] == |z| && m'.indptr[r + 1] == |z'|;
      }
    }
  }

  lemma TakeOneMore(users: seq<int>, n: nat, u: int)
    requires n < |users|
    ensures u in users[..n + 1] <==> u in users[..n] || u == users[n]
  {
    assert users[..n + 1] == users[..n] + [users[n]];
  }

  lemma KeptStep(kept: seq<int>, users: seq<int>, n: nat, rows: seq<Feedback>, minInteractions: int)
    requires n < |users| && Increasing(users) && KeptOf(kept, users, n, rows, minInteractions)
    ensures KeptOf(if Interactions(rows, |rows|, users[n]) < minInteractions then kept else kept + [users[n]],
                   users, n + 1, rows, minInteractions)
  {
    forall i | 0 <= i < |kept| ensures kept[i] < users[n] {
      assert kept[i] in kept;
      assert kept[i] in users[..n];
    }
    forall u ensures u in users[..n + 1] <==> u in users[..n] || u == users[n] {
      TakeOneMore(users, n, u);
    }
  }

  function Lookup(byUser: map<int, seq<Cell>>, u: int): seq<Cell> {
    if u in byUser then byUser[u] else []
  }

  ghost predicate ByUser(byUser: map<int, seq<Cell>>, rows: seq<Feedback>, k: nat, items: seq<int>)
    requires k <= |rows| && KnownItems(rows, items)
  {
    forall u :: CellsOf(rows, k, items, u) == Lookup(byUser, u)
  }

  /** `by_user.setdefault(mid, []).append((i_index[bizId], weight))` */
  function AddCell(byUser: map<int, seq<Cell>>, r: Feedback, items: seq<int>): map<int, seq<Cell>>
    requires Increasing(items) && r.bizId in items
  {
    byUser[r.mid := Lookup(byUser, r.mid) + [Cell(Column(items, r.bizId), r.weight)]]
  }

  lemma ByUserStep(byUser: map<int, seq<Cell>>, rows: seq<Feedback>, k: nat, items: seq<int>)
    requires k < |rows| && KnownItems(rows, items) && ByUser(byUser, rows, k, items)
    ensures rows[k].bizId in items
    ensures ByUser(AddCell(byUser, rows[k], items), rows, k + 1, items)
  {
    assert rows[k] in rows;
    var more := AddCell(byUser, rows[k], items);
    forall u ensures CellsOf(rows, k + 1, items, u) == Lookup(more, u) {
      assert CellsOf(rows, k, items, u) == Lookup(byUser, u);
      if u != rows[k].mid {
        assert CellsOf(rows, k + 1, items, u) == CellsOf(rows, k, items, u);
      }
    }
  }

  method GroupByUser(rows: seq<Feedback>, items: seq<int>) returns (byUser: map<int, seq<Cell>>)
    requires KnownItems(rows, items)
    ensures ByUser(byUser, rows, |rows|, items)
  {
    byUser := map[];
    for k := 0 to |rows|
      invariant ByUser(byUser, rows, k, items)
    {
      ByUserStep(byUser, rows, k, items);
      byUser := AddCell(byUser, rows[k], items);
    }
  }

  /** Appends one sorted row to the two parallel lists. */
  method AppendCells(indices: seq<nat>, data: seq<real>, sorted: seq<Cell>)
    returns (indices': seq<nat>, data': seq<real>)
    requires |indices| == |data|
    ensures |indices'| == |data'| && Zip(indices', data') == Zip(indices, data) + sorted
  {
    indices', data' := indices, data;
    for p := 0 to |sorted|
      invariant |indices'| == |data'| && Zip(indices', data') == Zip(indices, data) + sorted[..p]
    {
      indices' := indices' + [sorted[p].col];
      data' := data' + [sorted[p].weight];
    }
  }

  /** Stores the cells of user `u` as the next row. */
  method AppendUser(m: Csr, cells: seq<Cell>, rows: seq<Feedback>, items: seq<int>, ghost kept: seq<int>, u: int)
    returns (m': Csr)
    requires KnownItems(rows, items) && RowsOf(m, rows, items, kept)
    requires cells == CellsOf(rows, |rows|, items, u)
    ensures RowsOf(m', rows, items, kept + [u])
  {
    var sorted := Sort(cells, CellLe());
    var indices, data := AppendCells(m.indices, m.data, sorted);
    var end: nat := |indices|;
    m' := Csr(m.indptr + [end], indices, data);
    AppendRow(m, sorted, m', rows, items, kept, u);
  }

  lemma AllItemsKnown(rows: seq<Feedback>)
    ensures KnownItems(rows, SortedIds(Items(rows)))
  {
    forall r | r in rows ensures r.bizId in SortedIds(Items(rows)) {
      var k :| 0 <= k < |rows| && rows[k] == r;
      assert Items(rows)[k] == r.bizId;
    }
  }

  /** `_build_matrix` */
  method BuildMatrix(rows: seq<Feedback>, minInteractions: int)
    returns (m: Csr, kept: seq<int>, items: seq<int>)
    ensures Increasing(items) && (forall i :: i in items <==> i in Items(rows)) && KnownItems(rows, items)
    ensures Increasing(kept)
    ensures forall u :: u in kept <==> u in Users(rows) && Interactions(rows, |rows|, u) >= minInteractions
    ensures RowsOf(m, rows, items, kept)
  {
    var users := SortedIds(Users(rows));
    items := SortedIds(Items(rows));
    AllItemsKnown(rows);
    var byUser := GroupByUser(rows, items);
    m := Csr([0], [], []);
    kept := [];
    for n := 0 to |users|
      invariant KeptOf(kept, users, n, rows, minInteractions)
      invariant RowsOf(m, rows, items, kept)
    {
      var u := users[n];
      var cells := Lookup(byUser, u);
      CellsCounted(rows, |rows|, items, u);
      KeptStep(kept, users, n, rows, minInteractions);
      if |cells| < minInteractions {
        continue;
      }
      m := AppendUser(m, cells, rows, items, kept, u);
      kept := kept + [u];
    }
    assert users[..|users|] == users;
  }

  /** The value of the matrix at a user and an item is the sum of all weights the input gives
      that pair. */
  lemma MatrixMeansWeights(m: Csr, rows: seq<Feedback>, items: seq<int>, kept: seq<int>, r: nat, item: int)
    requires KnownItems(rows, items) && RowsOf(m, rows, items, kept)
    requires r < |kept| && item in items
    ensures Dense(m, r, Column(items, item)) == WeightSum(rows, |rows|, kept[r], item)
  {
    var cells, sorted := CellsOf(rows, |rows|, items, kept[r]), RowCells(m, r);
    assert sorted == Sort(cells, CellLe());
    SortContents(cells, CellLe());
    CellsAddUp(rows, |rows|, items, kept[r], item);
    CellSumPermuted(cells, sorted, Column(items, item));
  }

  /** A row stores one cell per input row of its user, with columns in range and ascending, and the
      weights of one column ascending too. */
  lemma RowsAreSorted(m: Csr, rows: seq<Feedback>, items: seq<int>, kept: seq<int>, r: nat)
    requires KnownItems(rows, items) && RowsOf(m, rows, items, kept) && r < |kept|
    ensures m.indptr[r + 1] - m.indptr[r] == Interactions(rows, |rows|, kept[r])
    ensures 0 <= m.indptr[r] <= m.indptr[r + 1] <= |m.indices|
    ensures forall p :: m.indptr[r] <= p < m.indptr[r + 1] ==> m.indices[p] < |items|
    ensures |m.data| == |m.indices|
    ensures forall p, q :: m.indptr[r] <= p < q < m.indptr[r + 1] ==>
              m.indices[p] < m.indices[q] || (m.indices[p] == m.indices[q] && m.data[p] <= m.data[q])
  {
    var cells := CellsOf(rows, |rows|, items, kept[r]);
    CellsCounted(rows, |rows|, items, kept[r]);
    SortedCells(RowCells(m, r), cells, |items|);
    ColumnsOfRow(m, r, |items|);
  }

  /** Columns in range and ascending, and the weights of one column too. */
  ghost predicate GoodRow(s: seq<Cell>, width: nat) {
    && (forall i :: 0 <= i < |s| ==> s[i].col < width)
    && (forall i, j :: 0 <= i < j < |s| ==> s[i].col < s[j].col || (s[i].col == s[j].col && s[i].weight <= s[j].weight))
  }

  lemma ColumnsOfRow(m: Csr, r: nat, width: nat)
    requires RowPointers(m) && r + 1 < |m.indptr| && GoodRow(RowCells(m, r), width)
    ensures |RowCells(m, r)| == m.indptr[r + 1] - m.indptr[r]
    ensures 0 <= m.indptr[r] <= m.indptr[r + 1] <= |m.indices|
    ensures forall p :: m.indptr[r] <= p < m.indptr[r + 1] ==> m.indices[p] < width
    ensures |m.data| == |m.indices|
    ensures forall p, q :: m.indptr[r] <= p < q < m.indptr[r + 1] ==>
              m.indices[p] < m.indices[q] || (m.indices[p] == m.indices[q] && m.data[p] <= m.data[q])
  {
    var s, lo := RowCells(m, r), m.indptr[r];
    forall p | lo <= p < m.indptr[r + 1] ensures m.indices[p] == s[p - lo].col && m.data[p] == s[p - lo].weight {
    }
  }

  lemma SortedCells(s: seq<Cell>, cells: seq<Cell>, width: nat)
    requires s == Sort(cells, CellLe())
    requires forall x :: x in cells ==> x.col < width
    ensures |s| == |cells| && GoodRow(s, width)
  {
    SortIsStableSorting(cells, CellLe());
    SortContents(cells, CellLe());
    forall i | 0 <= i < |s| ensures s[i].col < width {
      assert s[i] in multiset(s);
      assert s[i] in cells;
    }
    forall i, j | 0 <= i < j < |s| ensures s[i].col <= s[j].col {
      assert CellLe()(s[i], s[j]);
    }
  }
}

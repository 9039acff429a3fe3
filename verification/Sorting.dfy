/** Stable sorting by a total preorder, the contract of Python's `sorted` and `list.sort`.

    `Sort` is an executable insertion sort. `SortIsStableSorting` and `StableSortingIsUnique` together say
    that it computes the only sequence a stable sort may return: sorted, with ties in their old order.
    The rest is about one element more in the input: the output has it behind everything that it must
    follow, and is otherwise the same. */
module Sorting {

  ghost predicate TotalPreorder<T(!new)>(le: (T, T) -> bool) {
    && (forall x, y :: le(x, y) || le(y, x))
    && (forall x, y, z :: le(x, y) && le(y, z) ==> le(x, z))
  }

  ghost predicate SortedBy<T>(s: seq<T>, le: (T, T) -> bool) {
    forall i, j :: 0 <= i < j < |s| ==> le(s[i], s[j])
  }

  /** The elements of `s` that tie with `x`, in the order `s` has them. */
  function Ties<T>(x: T, s: seq<T>, le: (T, T) -> bool): seq<T> {
    if |s| == 0 then []
    else (if le(x, s[0]) && le(s[0], x) then [s[0]] else []) + Ties(x, s[1..], le)
  }

  /** What a stable sort of `s` must return: sorted, and ties keep the order they had in `s`. */
  ghost predicate StableSorting<T(!new)>(r: seq<T>, s: seq<T>, le: (T, T) -> bool) {
    SortedBy(r, le) && forall x :: Ties(x, r, le) == Ties(x, s, le)
  }

  function Insert<T>(x: T, s: seq<T>, le: (T, T) -> bool): seq<T> {
    if |s| == 0 || le(x, s[0]) then [x] + s else [s[0]] + Insert(x, s[1..], le)
  }

  function Sort<T>(s: seq<T>, le: (T, T) -> bool): seq<T> {
    if |s| == 0 then [] else Insert(s[0], Sort(s[1..], le), le)
  }

  lemma {:induction false} InsertContents<T>(x: T, s: seq<T>, le: (T, T) -> bool)
    ensures multiset(Insert(x, s, le)) == multiset{x} + multiset(s)
    ensures |Insert(x, s, le)| == |s| + 1
  {
    if |s| == 0 || le(x, s[0]) {
    } else {
      InsertContents(x, s[1..], le);
      assert s == [s[0]] + s[1..];
    }
  }

  lemma {:induction false} SortContents<T>(s: seq<T>, le: (T, T) -> bool)
    ensures multiset(Sort(s, le)) == multiset(s)
    ensures |Sort(s, le)| == |s|
  {
    if |s| != 0 {
      SortContents(s[1..], le);
      InsertContents(s[0], Sort(s[1..], le), le);
      assert s == [s[0]] + s[1..];
    }
  }

  lemma {:induction false} InsertSorted<T(!new)>(x: T, s: seq<T>, le: (T, T) -> bool)
    requires TotalPreorder(le) && SortedBy(s, le)
    ensures SortedBy(Insert(x, s, le), le)
  {
    if |s| == 0 || le(x, s[0]) {
    } else {
      InsertSorted(x, s[1..], le);
      var r := Insert(x, s[1..], le);
      InsertContents(x, s[1..], le);
      forall y | y in r ensures le(s[0], y) {
        assert y in multiset(r);
        assert y == x || y in s[1..];
      }
    }
  }

  lemma TiesOfFirst<T>(y: T, x: T, s: seq<T>, le: (T, T) -> bool)
    ensures Ties(y, [x] + s, le) == (if le(y, x) && le(x, y) then [x] else []) + Ties(y, s, le)
    ensures Ties(y, [x], le) == if le(y, x) && le(x, y) then [x] else []
  {
    assert ([x] + s)[1..] == s && [x][1..] == [];
  }

  lemma TiesBehind<T(!new)>(y: T, x: T, z: T, ties: seq<T>, le: (T, T) -> bool)
    requires TotalPreorder(le) && !le(x, z)
    ensures (if le(y, z) && le(z, y) then [z] else []) + ((if le(y, x) && le(x, y) then [x] else []) + ties)
         == (if le(y, x) && le(x, y) then [x] else []) + ((if le(y, z) && le(z, y) then [z] else []) + ties)
  {
  }

  lemma {:induction false} InsertTies<T(!new)>(y: T, x: T, s: seq<T>, le: (T, T) -> bool)
    requires TotalPreorder(le)
    ensures Ties(y, Insert(x, s, le), le) == Ties(y, [x], le) + Ties(y, s, le)
  {
    if |s| == 0 || le(x, s[0]) {
      TiesOfFirst(y, x, s, le);
    } else {
      InsertTies(y, x, s[1..], le);
      TiesOfFirst(y, x, s[1..], le);
      TiesOfFirst(y, s[0], Insert(x, s[1..], le), le);
      TiesBehind(y, x, s[0], Ties(y, s[1..], le), le);
    }
  }

  lemma {:induction false} SortIsStableSorting<T(!new)>(s: seq<T>, le: (T, T) -> bool)
    requires TotalPreorder(le)
    ensures StableSorting(Sort(s, le), s, le)
  {
    if |s| != 0 {
      SortIsStableSorting(s[1..], le);
      InsertSorted(s[0], Sort(s[1..], le), le);
      forall x ensures Ties(x, Sort(s, le), le) == Ties(x, s, le) {
        InsertTies(x, s[0], Sort(s[1..], le), le);
      }
    }
  }

  lemma {:induction false} TiesNonempty<T(!new)>(x: T, s: seq<T>, le: (T, T) -> bool)
    ensures |Ties(x, s, le)| > 0 <==> exists i :: 0 <= i < |s| && le(x, s[i]) && le(s[i], x)
    ensures forall y :: y in Ties(x, s, le) ==> y in s && le(x, y) && le(y, x)
  {
    if |s| != 0 {
      TiesNonempty(x, s[1..], le);
      if i :| 0 <= i < |s| && le(x, s[i]) && le(s[i], x) {
        if i > 0 {
          assert s[1..][i - 1] == s[i];
        }
      }
    }
  }

  /** The first element of one rearrangement ties with some element of the other. */
  lemma HeadTies<T(!new)>(r: seq<T>, t: seq<T>, le: (T, T) -> bool)
    requires TotalPreorder(le) && |r| > 0 && Ties(r[0], r, le) == Ties(r[0], t, le)
    ensures exists j :: 0 <= j < |t| && le(r[0], t[j]) && le(t[j], r[0])
  {
    TiesNonempty(r[0], t, le);
  }

  /** Both heads tie with each other, so both are the first of the same ties. */
  lemma HeadsAgree<T(!new)>(r: seq<T>, t: seq<T>, le: (T, T) -> bool)
    requires TotalPreorder(le) && SortedBy(r, le) && SortedBy(t, le) && |r| > 0 && |t| > 0
    requires Ties(r[0], r, le) == Ties(r[0], t, le) && Ties(t[0], r, le) == Ties(t[0], t, le)
    ensures r[0] == t[0]
  {
    HeadTies(r, t, le);
    HeadTies(t, r, le);
    var j :| 0 <= j < |t| && le(r[0], t[j]) && le(t[j], r[0]);
    var i :| 0 <= i < |r| && le(t[0], r[i]) && le(r[i], t[0]);
    assert le(r[0], r[0]) && le(t[0], t[0]);
    assert le(r[0], r[i]) && le(t[0], t[j]);
    assert le(r[0], t[0]) && le(t[0], r[0]);
    assert Ties(r[0], r, le)[0] == r[0] && Ties(r[0], t, le)[0] == t[0];
  }

  lemma TailsTie<T(!new)>(r: seq<T>, t: seq<T>, le: (T, T) -> bool, x: T)
    requires |r| > 0 && |t| > 0 && r[0] == t[0] && Ties(x, r, le) == Ties(x, t, le)
    ensures Ties(x, r[1..], le) == Ties(x, t[1..], le)
  {
    var h := if le(x, r[0]) && le(r[0], x) then [r[0]] else [];
    assert Ties(x, r[1..], le) == (h + Ties(x, r[1..], le))[|h|..];
    assert Ties(x, t[1..], le) == (h + Ties(x, t[1..], le))[|h|..];
  }

  lemma {:induction false} StableSortingIsUnique<T(!new)>(r: seq<T>, t: seq<T>, le: (T, T) -> bool)
    requires TotalPreorder(le)
    requires SortedBy(r, le) && SortedBy(t, le)
    requires forall x :: Ties(x, r, le) == Ties(x, t, le)
    ensures r == t
  {
    if |r| > 0 {
      HeadTies(r, t, le);
      HeadsAgree(r, t, le);
      forall x ensures Ties(x, r[1..], le) == Ties(x, t[1..], le) {
        TailsTie(r, t, le, x);
      }
      StableSortingIsUnique(r[1..], t[1..], le);
      assert r == [r[0]] + r[1..] && t == [t[0]] + t[1..];
    } else if |t| > 0 {
      HeadTies(t, r, le);
    }
  }

  /** How many elements of `s` must come before an element `t` that follows all of `s`. */
  function CountBefore<T>(s: seq<T>, t: T, le: (T, T) -> bool): nat {
    if |s| == 0 then 0 else (if le(s[0], t) then 1 else 0) + CountBefore(s[1..], t, le)
  }

  /** `r` is `s` with `t` added at position `i`. */
  ghost predicate IsInsertionAt<T>(r: seq<T>, s: seq<T>, t: T, i: nat) {
    && i <= |s| && |r| == |s| + 1 && r[i] == t
    && (forall k :: 0 <= k < i ==> r[k] == s[k])
    && (forall k :: i < k < |r| ==> r[k] == s[k - 1])
  }

  lemma {:induction false} InsertPosition<T>(x: T, s: seq<T>, le: (T, T) -> bool) returns (i: nat)
    ensures IsInsertionAt(Insert(x, s, le), s, x, i)
  {
    if |s| == 0 || le(x, s[0]) {
      i := 0;
    } else {
      var k := InsertPosition(x, s[1..], le);
      i := k + 1;
    }
  }

  /** Sorting with one more element `t`, placed after `p` in the input, inserts `t` behind
      every element of `p` that does not come strictly after it. */
  lemma {:induction false} SortWithOneMore<T(!new)>(p: seq<T>, t: T, q: seq<T>, le: (T, T) -> bool)
    returns (i: nat)
    requires TotalPreorder(le)
    ensures IsInsertionAt(Sort(p + [t] + q, le), Sort(p + q, le), t, i)
    ensures i >= CountBefore(p, t, le)
  {
    if |p| == 0 {
      assert p + [t] + q == [t] + q && p + q == q;
      assert ([t] + q)[1..] == q;
      i := InsertPosition(t, Sort(q, le), le);
    } else {
      var x, p' := p[0], p[1..];
      var i' := SortWithOneMore(p', t, q, le);
      assert (p + [t] + q)[1..] == p' + [t] + q && (p + q)[1..] == p' + q;
      SortIsStableSorting(p' + [t] + q, le);
      i := InsertAround(x, t, Sort(p' + [t] + q, le), Sort(p' + q, le), i', le);
    }
  }

  /** Inserting `x` into `r`, which is `s` with `t` added, adds `t` to `Insert(x, s)`. */
  lemma {:induction false} InsertAround<T(!new)>(x: T, t: T, r: seq<T>, s: seq<T>, k: nat, le: (T, T) -> bool)
    returns (i: nat)
    requires TotalPreorder(le) && SortedBy(r, le)
    requires IsInsertionAt(r, s, t, k)
    ensures IsInsertionAt(Insert(x, r, le), Insert(x, s, le), t, i)
    ensures i >= k && (le(x, t) ==> i == k + 1)
    decreases k
  {
    if k == 0 {
      assert r[1..] == s;
      i := if le(x, t) then 1 else 0;
      if le(x, t) {
        assert |s| > 0 ==> le(t, r[1]);
        assert Insert(x, s, le) == [x] + s;
      }
    } else if le(x, s[0]) {
      i := k + 1;
    } else {
      assert le(r[0], r[k]);
      var m := InsertAround(x, t, r[1..], s[1..], k - 1, le);
      i := m + 1;
    }
  }

  /** For a sorted run `t`, everything in front of its last element counts as before it. */
  lemma {:induction false} CountBeforeSorted<T(!new)>(p: seq<T>, run: seq<T>, t: T, le: (T, T) -> bool)
    requires forall i :: 0 <= i < |run| ==> le(run[i], t)
    ensures CountBefore(p + run, t, le) >= |run|
  {
    if |p| > 0 {
      CountBeforeSorted(p[1..], run, t, le);
      assert (p + run)[1..] == p[1..] + run;
    } else if |run| > 0 {
      assert p + run == run;
      CountBeforeSorted([], run[1..], t, le);
      assert [] + run[1..] == run[1..];
    }
  }
}

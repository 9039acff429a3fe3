/** Vectors and square matrices over exact reals, as far as LinUCB needs them.

    A vector is a sequence, a matrix the sequence of its rows, and every operation says in its contract
    what its entries are. The lemmas are the laws of the scalar product (it is symmetric, linear in its
    first argument, and positive for every vector but zero) and what applying a matrix means when an
    outer product is added to it. Products of reals appear in small lemmas over named factors, which
    keeps nonlinear steps out of all other proofs. */
module Linear {
  type Vec = seq<real>
  type Mat = seq<seq<real>>

  /** The sum of the first `n` components. */
  function Sum(v: Vec, n: nat): real
    requires n <= |v|
  {
    if n == 0 then 0.0 else Sum(v, n - 1) + v[n - 1]
  }

  function Products(x: Vec, y: Vec): (r: Vec)
    requires |x| == |y|
    ensures |r| == |x| && forall i {:trigger r[i]} :: 0 <= i < |r| ==> r[i] == x[i] * y[i]
  {
    seq(|x|, i requires 0 <= i < |x| => x[i] * y[i])
  }

  function Dot(x: Vec, y: Vec): real
    requires |x| == |y|
  {
    Sum(Products(x, y), |x|)
  }

  function Zero(d: nat): (r: Vec)
    ensures |r| == d && forall i {:trigger r[i]} :: 0 <= i < d ==> r[i] == 0.0
  {
    seq(d, i => 0.0)
  }

  function Add(x: Vec, y: Vec): (r: Vec)
    requires |x| == |y|
    ensures |r| == |x| && forall i {:trigger r[i]} :: 0 <= i < |r| ==> r[i] == x[i] + y[i]
  {
    seq(|x|, i requires 0 <= i < |x| => x[i] + y[i])
  }

  function Scale(c: real, x: Vec): (r: Vec)
    ensures |r| == |x| && forall i {:trigger r[i]} :: 0 <= i < |r| ==> r[i] == c * x[i]
  {
    seq(|x|, i requires 0 <= i < |x| => c * x[i])
  }

  function Unit(d: nat, i: nat): (r: Vec)
    ensures |r| == d && forall j {:trigger r[j]} :: 0 <= j < d ==> r[j] == if j == i then 1.0 else 0.0
  {
    seq(d, j => if j == i then 1.0 else 0.0)
  }

  ghost predicate Square(a: Mat, d: nat) {
    |a| == d && forall i :: 0 <= i < d ==> |a[i]| == d
  }

  function Eye(d: nat): (r: Mat)
    ensures Square(r, d) && forall i {:trigger r[i]} :: 0 <= i < d ==> r[i] == Unit(d, i)
  {
    seq(d, i requires 0 <= i < d => Unit(d, i))
  }

  /** `a + np.outer(x, x)` */
  function AddOuter(a: Mat, x: Vec): (r: Mat)
    requires Square(a, |x|)
    ensures Square(r, |x|)
    ensures forall i {:trigger r[i]} :: 0 <= i < |x| ==> r[i] == Add(a[i], Scale(x[i], x))
  {
    seq(|x|, i requires 0 <= i < |x| => Add(a[i], Scale(x[i], x)))
  }

  function Apply(a: Mat, y: Vec): (r: Vec)
    requires Square(a, |y|)
    ensures |r| == |y| && forall i {:trigger r[i]} :: 0 <= i < |r| ==> r[i] == Dot(a[i], y)
  {
    seq(|y|, i requires 0 <= i < |y| => Dot(a[i], y))
  }

  lemma {:induction false} SumAdd(v: Vec, w: Vec, n: nat)
    requires n <= |v| == |w|
    ensures Sum(Add(v, w), n) == Sum(v, n) + Sum(w, n)
  {
    if n > 0 {
      SumAdd(v, w, n - 1);
    }
  }

  lemma {:induction false} SumScale(c: real, v: Vec, n: nat)
    requires n <= |v|
    ensures Sum(Scale(c, v), n) == c * Sum(v, n)
  {
    if n > 0 {
      SumScale(c, v, n - 1);
    }
  }

  /** A sum of nonnegative terms is nonnegative, and positive as soon as one term is. */
  lemma {:induction false} SumSign(v: Vec, n: nat)
    requires n <= |v| && forall i :: 0 <= i < n ==> v[i] >= 0.0
    ensures Sum(v, n) >= 0.0
    ensures forall i :: 0 <= i < n ==> Sum(v, n) >= v[i]
  {
    if n > 0 {
      SumSign(v, n - 1);
    }
  }

  /** A sum with at most one nonzero term. */
  lemma {:induction false} SumSingle(v: Vec, n: nat, i: nat)
    requires n <= |v| && forall j :: 0 <= j < n && j != i ==> v[j] == 0.0
    ensures Sum(v, n) == if i < n then v[i] else 0.0
  {
    if n > 0 {
      SumSingle(v, n - 1, i);
    }
  }

  lemma DotComm(x: Vec, y: Vec)
    requires |x| == |y|
    ensures Dot(x, y) == Dot(y, x)
  {
    assert Products(x, y) == Products(y, x);
  }

  lemma DotAdd(x: Vec, z: Vec, y: Vec)
    requires |x| == |y| == |z|
    ensures Dot(Add(x, z), y) == Dot(x, y) + Dot(z, y)
  {
    var l, r := Products(Add(x, z), y), Add(Products(x, y), Products(z, y));
    assert forall i :: 0 <= i < |x| ==> l[i] == r[i];
    assert l == r;
    SumAdd(Products(x, y), Products(z, y), |x|);
  }

  lemma DotScale(c: real, x: Vec, y: Vec)
    requires |x| == |y|
    ensures Dot(Scale(c, x), y) == c * Dot(x, y)
  {
    var l, r := Products(Scale(c, x), y), Scale(c, Products(x, y));
    assert forall i :: 0 <= i < |x| ==> l[i] == r[i];
    assert l == r;
    SumScale(c, Products(x, y), |x|);
  }

  lemma DotUnit(i: nat, y: Vec)
    requires i < |y|
    ensures Dot(Unit(|y|, i), y) == y[i]
  {
    SumSingle(Products(Unit(|y|, i), y), |y|, i);
  }

  lemma PositiveProduct(a: real, b: real, p: real)
    requires a > 0.0 && b > 0.0 && p == a * b
    ensures p > 0.0
  {
  }

  lemma SquareSign(r: real, p: real)
    requires p == r * r
    ensures p >= 0.0 && (r != 0.0 ==> p > 0.0)
  {
    if r < 0.0 {
      assert (-r) * (-r) == r * r;
      PositiveProduct(-r, -r, p);
    } else if r > 0.0 {
      PositiveProduct(r, r, p);
    }
  }

  lemma DotSelf(x: Vec)
    ensures Dot(x, x) >= 0.0
    ensures Dot(x, x) == 0.0 <==> x == Zero(|x|)
    ensures forall i :: 0 <= i < |x| ==> Dot(x, x) >= Products(x, x)[i]
  {
    var v := Products(x, x);
    forall i | 0 <= i < |x| ensures v[i] >= 0.0 && (x[i] != 0.0 ==> v[i] > 0.0) {
      SquareSign(x[i], v[i]);
    }
    SumSign(v, |x|);
    if x == Zero(|x|) {
      SumSingle(v, |x|, |x|);
    } else {
      var i :| 0 <= i < |x| && x[i] != 0.0;
      assert v[i] > 0.0;
    }
  }

  lemma ProductMonotone(a: real, b: real, w: real, p: real, q: real)
    requires 0.0 <= a <= b && w >= 0.0 && p == a * w && q == b * w
    ensures 0.0 <= p <= q
  {
    assert (b - a) * w >= 0.0;
    assert (b - a) * w == b * w - a * w;
  }

  lemma FactorSign(a: real, m: real)
    requires m > 0.0 && a * m > 0.0
    ensures a > 0.0
  {
  }

  lemma ApplyEye(y: Vec)
    ensures Apply(Eye(|y|), y) == y
  {
    forall i | 0 <= i < |y| ensures Apply(Eye(|y|), y)[i] == y[i] {
      DotUnit(i, y);
    }
  }

  lemma DotOuterRow(row: Vec, c: real, x: Vec, y: Vec)
    requires |row| == |x| == |y|
    ensures Dot(Add(row, Scale(c, x)), y) == Dot(row, y) + Dot(x, y) * c
  {
    DotAdd(row, Scale(c, x), y);
    DotScale(c, x, y);
  }

  lemma ApplyAddOuter(a: Mat, x: Vec, y: Vec)
    requires |x| == |y| && Square(a, |x|)
    ensures Apply(AddOuter(a, x), y) == Add(Apply(a, y), Scale(Dot(x, y), x))
  {
    var l, r := Apply(AddOuter(a, x), y), Add(Apply(a, y), Scale(Dot(x, y), x));
    forall i | 0 <= i < |y| ensures l[i] == r[i] {
      DotOuterRow(a[i], x[i], x, y);
    }
  }
}

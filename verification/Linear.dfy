/** Vectors as functions of an index, matrices as functions of two, and the laws of their products. */
module Linear {
  import opened Sums

  type Vector = int -> real

  type Matrix = (int, int) -> real

  function Times(f: Vector, g: Vector): Vector { i => f(i) * g(i) }

  function Dot(n: int, f: Vector, g: Vector): real { Sum(0, n, Times(f, g)) }

  function Row(Q: Matrix, a: int): Vector { j => Q(a, j) }

  function Col(Q: Matrix, j: int): Vector { a => Q(a, j) }

  function Transpose(Q: Matrix): Matrix { (a, j) => Q(j, a) }

  function MatVec(n: int, Q: Matrix, e: Vector): Vector { a => Dot(n, Row(Q, a), e) }

  function VecMat(n: int, p: Vector, Q: Matrix): Vector { j => Dot(n, p, Col(Q, j)) }

  /** A B. */
  function Product(n: int, A: Matrix, B: Matrix): Matrix { (i, j) => Dot(n, Row(A, i), Col(B, j)) }

  lemma DotExt(n: int, f: Vector, g: Vector, f': Vector, g': Vector)
    requires forall i :: 0 <= i < n ==> f(i) == f'(i) && g(i) == g'(i)
    ensures Dot(n, f, g) == Dot(n, f', g')
  {
    SumExt(0, n, Times(f, g), Times(f', g'));
  }

  lemma DotSwap(n: int, f: Vector, g: Vector)
    ensures Dot(n, f, g) == Dot(n, g, f)
  {
    SumExt(0, n, Times(f, g), Times(g, f));
  }

  lemma DotLast(n: int, f: Vector, g: Vector)
    requires n > 0
    ensures Dot(n, f, g) == Dot(n - 1, f, g) + f(n - 1) * g(n - 1)
  {
    SumLast(0, n, Times(f, g));
  }

  lemma DotNone(f: Vector, g: Vector)
    ensures Dot(0, f, g) == 0.0
  {
  }

  lemma DotZero(n: int, f: Vector, g: Vector)
    requires forall i :: 0 <= i < n ==> f(i) == 0.0 || g(i) == 0.0
    ensures Dot(n, f, g) == 0.0
  {
    SumZero(0, n, Times(f, g));
  }

  lemma SquaresNonneg(n: int, v: Vector)
    ensures 0.0 <= Dot(n, v, v)
  {
    forall i ensures 0.0 <= v(i) * v(i) {}
    SumNonneg(0, n, Times(v, v));
  }

  lemma Distribute(x: real, s: real, q: real, e: real)
    ensures x * (s + q * e) == x * s + e * (x * q)
  {
  }

  lemma LastTerm(p: Vector, all: Vector, head: Vector, last: Vector, a: int, e: real)
    requires all(a) == head(a) + last(a) * e
    ensures Times(p, all)(a) == Times(p, head)(a) + e * Times(p, last)(a)
  {
    Distribute(p(a), head(a), last(a), e);
  }

  lemma DotIs(n: int, f: Vector, g: Vector)
    ensures Dot(n, f, g) == Sum(0, n, Times(f, g))
  {
  }

  lemma LastColumn(n: int, m: nat, p: Vector, Q: Matrix, e: Vector)
    requires m > 0
    ensures Dot(n, p, MatVec(m, Q, e)) == Dot(n, p, MatVec(m - 1, Q, e)) + VecMat(n, p, Q)(m - 1) * e(m - 1)
  {
    hide Sum, Dot, Times;
    var z := m - 1;
    var all, head, last := MatVec(m, Q, e), MatVec(z, Q, e), Col(Q, z);
    var f, g := Times(p, head), Times(p, last);
    var scaled := i => e(z) * g(i);
    forall a ensures Times(p, all)(a) == f(a) + scaled(a) {
      DotLast(m, Row(Q, a), e);
      LastTerm(p, all, head, last, a, e(z));
    }
    SumPlus(0, n, f, scaled);
    SumTimes(0, n, e(z), g);
    SumExt(0, n, Times(p, all), i => f(i) + scaled(i));
    DotIs(n, p, all);
    DotIs(n, p, head);
    DotIs(n, p, last);
    var s := VecMat(n, p, Q)(z);
    assert s == Dot(n, p, last);
    assert e(z) * s == s * e(z);
  }

  /** (p Q) e = p (Q e). */
  lemma {:induction false} Associate(n: int, m: nat, p: Vector, Q: Matrix, e: Vector)
    ensures Dot(m, VecMat(n, p, Q), e) == Dot(n, p, MatVec(m, Q, e))
  {
    hide Dot, Sum;
    if m == 0 {
      DotNone(VecMat(n, p, Q), e);
      forall a ensures MatVec(0, Q, e)(a) == 0.0 { DotNone(Row(Q, a), e); }
      DotZero(n, p, MatVec(0, Q, e));
    } else {
      var v, z := VecMat(n, p, Q), m - 1;
      Associate(n, z, p, Q, e);
      DotLast(m, v, e);
      LastColumn(n, m, p, Q, e);
      var last := v(z) * e(z);
      assert Dot(m, v, e) == Dot(z, v, e) + last;
      assert Dot(n, p, MatVec(m, Q, e)) == Dot(n, p, MatVec(z, Q, e)) + last;
    }
  }

  // ---------------------------------------------------------------- quadratic forms

  /** e^T A e. */
  function Form(k: int, A: Matrix, e: Vector): real { Dot(k, VecMat(k, e, A), e) }

  /** Entry (i, j) of M D M^T. */
  function Congruent(k: int, M: Matrix, D: Matrix, i: int, j: int): real {
    Dot(k, Row(M, i), MatVec(k, D, Row(M, j)))
  }

  /** D M^T. */
  function Half(k: int, M: Matrix, D: Matrix): Matrix { (a, j) => Dot(k, Row(D, a), Row(M, j)) }

  lemma RowForm(k: nat, M: Matrix, D: Matrix, H: Matrix, e: Vector, i: int)
    requires forall j :: 0 <= j < k ==> H(i, j) == Congruent(k, M, D, i, j)
    ensures MatVec(k, H, e)(i) == MatVec(k, M, MatVec(k, D, VecMat(k, e, M)))(i)
  {
    hide Dot, Sum;
    var u := VecMat(k, e, M);
    var w := MatVec(k, D, u);
    var G := Half(k, M, D);
    forall j | 0 <= j < k ensures Row(H, i)(j) == VecMat(k, Row(M, i), G)(j) {
      DotExt(k, Row(M, i), MatVec(k, D, Row(M, j)), Row(M, i), Col(G, j));
    }
    DotExt(k, Row(H, i), e, VecMat(k, Row(M, i), G), e);
    Associate(k, k, Row(M, i), G, e);
    forall a ensures MatVec(k, G, e)(a) == w(a) {
      var T := Transpose(M);
      forall j ensures Row(G, a)(j) == VecMat(k, Row(D, a), T)(j) {
        assert Row(G, a)(j) == Dot(k, Row(D, a), Row(M, j));
        DotExt(k, Row(D, a), Row(M, j), Row(D, a), Col(T, j));
      }
      DotExt(k, Row(G, a), e, VecMat(k, Row(D, a), T), e);
      Associate(k, k, Row(D, a), T, e);
      forall b ensures MatVec(k, T, e)(b) == u(b) {
        DotExt(k, Row(T, b), e, Col(M, b), e);
        DotSwap(k, Col(M, b), e);
      }
      DotExt(k, Row(D, a), MatVec(k, T, e), Row(D, a), u);
    }
    DotExt(k, Row(M, i), MatVec(k, G, e), Row(M, i), w);
  }

  /** e^T (M D M^T) e = u^T D u with u = M^T e. */
  lemma CongruentForm(k: nat, M: Matrix, D: Matrix, H: Matrix, e: Vector)
    requires forall i, j :: 0 <= i < k && 0 <= j < k ==> H(i, j) == Congruent(k, M, D, i, j)
    ensures Form(k, H, e) == Form(k, D, VecMat(k, e, M))
  {
    hide Dot, Sum, Congruent;
    var u := VecMat(k, e, M);
    var w := MatVec(k, D, u);
    Associate(k, k, e, H, e);
    forall i | 0 <= i < k ensures MatVec(k, H, e)(i) == MatVec(k, M, w)(i) {
      RowForm(k, M, D, H, e, i);
    }
    DotExt(k, e, MatVec(k, H, e), e, MatVec(k, M, w));
    Associate(k, k, e, M, w);
    Associate(k, k, u, D, u);
  }
}

/** The calibrated path end to end: the factor of the damped Hessian, its diagonal zeroed, drives LDLQ, and the proxy
    loss is a sum of squares of locally weighted roundings. */
module Calibrated {
  import opened Sums
  import opened Linear
  import opened Tiles
  import opened Ldlq
  import opened Feedback
  import opened Loss
  import opened BlockLdl

  /** Zeroing the diagonal of a block LDL factor leaves exactly the part below its diagonal blocks. */
  lemma ZeroDiagonalIsStrict(n: nat, L: Mat<real>)
    requires UnitBlockLower(16, n, L)
    ensures StrictlyLower(ZeroDiagonal(0.0, L))
    ensures forall i, j :: 0 <= i < n && 0 <= j < n ==> UnitPlus(ZeroDiagonal(0.0, L))(i, j) == Entry(L, i, j)
  {
    var Z := ZeroDiagonal(0.0, L);
    forall r, a | 0 <= a && r < 16 * (a / 16) + 16 ensures Entry(Z, r, a) == 0.0 {
      if 0 <= r < n && a < n {
        assert Z[r] == L[r][r := 0.0];
        assert Entry(L, r, a) == if r == a then 1.0 else 0.0;
        assert Z[r][a] == if r == a then 0.0 else L[r][a];
      }
    }
    forall i, j | 0 <= i < n && 0 <= j < n ensures UnitPlus(Z)(i, j) == Entry(L, i, j) {
      assert Z[i] == L[i][i := 0.0];
      assert Z[i][j] == if i == j then 0.0 else L[i][j];
      if i == j { assert Entry(L, i, j) == 1.0; }
    }
  }

  lemma CongruentExt(k: nat, M: Matrix, N: Matrix, D: Matrix, i: int, j: int)
    requires 0 <= i < k && 0 <= j < k && forall a, b :: 0 <= a < k && 0 <= b < k ==> M(a, b) == N(a, b)
    ensures Congruent(k, M, D, i, j) == Congruent(k, N, D, i, j)
  {
    hide Dot;
    forall a ensures MatVec(k, D, Linear.Row(M, j))(a) == MatVec(k, D, Linear.Row(N, j))(a) {
      DotExt(k, Linear.Row(D, a), Linear.Row(M, j), Linear.Row(D, a), Linear.Row(N, j));
    }
    DotExt(k, Linear.Row(M, i), MatVec(k, D, Linear.Row(M, j)), Linear.Row(N, i), MatVec(k, D, Linear.Row(N, j)));
  }

  lemma GramEntry(C: Mat<real>, b: int, s: int, t: int)
    requires 0 <= b && 0 <= s < 16 && 0 <= t < 16
    ensures var B := BlockOf(AsMatrix(C), b);
            BlockOf(BlockGram(16, C), b)(s, t) == Dot(16, Linear.Row(B, s), Linear.Row(B, t))
  {
    hide Dot;
    assert (16 * b + s) / 16 == b && (16 * b + t) / 16 == b;
    var B := BlockOf(AsMatrix(C), b);
    DotExt(16, Shift(Linear.Row(AsMatrix(C), 16 * b + s), 16 * b), Shift(Linear.Row(AsMatrix(C), 16 * b + t), 16 * b),
           Linear.Row(B, s), Linear.Row(B, t));
  }

  /** The form of a Gram block is a sum of squares. */
  lemma GramForm(C: Mat<real>, b: int, u: Vector)
    requires 0 <= b
    ensures var v := VecMat(16, u, BlockOf(AsMatrix(C), b)); Form(16, BlockOf(BlockGram(16, C), b), u) == Dot(16, v, v)
  {
    hide Dot;
    var G, B := BlockOf(BlockGram(16, C), b), BlockOf(AsMatrix(C), b);
    var v := VecMat(16, u, B);
    forall t | 0 <= t < 16 ensures VecMat(16, u, G)(t) == MatVec(16, B, v)(t) {
      forall s | 0 <= s < 16 ensures Col(G, t)(s) == MatVec(16, B, Linear.Row(B, t))(s) {
        GramEntry(C, b, s, t);
      }
      DotExt(16, u, Col(G, t), u, MatVec(16, B, Linear.Row(B, t)));
      Associate(16, 16, u, B, Linear.Row(B, t));
      DotSwap(16, v, Linear.Row(B, t));
    }
    DotExt(16, VecMat(16, u, G), u, MatVec(16, B, v), u);
    DotSwap(16, MatVec(16, B, v), u);
    Associate(16, 16, u, B, v);
  }

  /** The rounding of block b in column c, weighted by the Cholesky block. */
  ghost function Weighted<I(!new)>(p: Problem<real, I>, C: Mat<real>, wq: Mat<real>, b: int, c: int): Vector
    requires Shaped(p.K)
  {
    VecMat(16, Rounding(p.K, FedRows(p.W, p.L, p.n, wq, b), p.tn, c), BlockOf(AsMatrix(C), b))
  }

  /** The squared length of the weighted roundings of column c, over all blocks. */
  ghost function Squares<I(!new)>(p: Problem<real, I>, C: Mat<real>, wq: Mat<real>, c: int): real
    requires Shaped(p.K)
  {
    Sum(0, p.k / 16, b => Dot(16, Weighted(p, C, wq, b, c), Weighted(p, C, wq, b, c)))
  }

  lemma GramIsBlockDiagonal(C: Mat<real>)
    ensures BlockDiagonal(BlockGram(16, C))
  {
    hide Dot;
  }

  lemma ColumnOfSquares<I(!new)>(p: Problem<real, I>, C: Mat<real>, wq: Mat<real>, c: int)
    requires Shaped(p.K)
    ensures Sum(0, p.k / 16, b => BlockLoss(p, BlockGram(16, C), wq, b, c)) == Squares(p, C, wq, c)
    ensures 0.0 <= Squares(p, C, wq, c)
  {
    hide Sum, Form, Dot, BlockGram, FedRows;
    var m := p.k / 16;
    forall b | 0 <= b < m
      ensures BlockLoss(p, BlockGram(16, C), wq, b, c) == Dot(16, Weighted(p, C, wq, b, c), Weighted(p, C, wq, b, c))
      ensures 0.0 <= BlockLoss(p, BlockGram(16, C), wq, b, c)
    {
      GramForm(C, b, Rounding(p.K, FedRows(p.W, p.L, p.n, wq, b), p.tn, c));
      SquaresNonneg(16, Weighted(p, C, wq, b, c));
    }
    SumExt(0, m, b => BlockLoss(p, BlockGram(16, C), wq, b, c),
                 b => Dot(16, Weighted(p, C, wq, b, c), Weighted(p, C, wq, b, c)));
    SumNonneg(0, m, b => Dot(16, Weighted(p, C, wq, b, c), Weighted(p, C, wq, b, c)));
  }

  /** trace(E^T H E), as the encoder measures it, is the sum of |C_b^T rounding|^2 over blocks and columns; in
      particular the proxy numerator is never negative. */
  lemma CalibratedLoss<I(!new)>(p: Problem<real, I>, H: Mat<real>, C: Mat<real>, L: Mat<real>)
    requires Ok(p) && Exact(p.K) && IsBlockLdl(16, p.k, H, C, L) && p.L == ZeroDiagonal(0.0, L)
    ensures Trace(Err(p, Result(p).wq, 0, p.k), H, p.n) == Sum(0, p.n, c => Squares(p, C, Result(p).wq, c))
    ensures 0.0 <= Trace(Err(p, Result(p).wq, 0, p.k), H, p.n)
  {
    hide Sum, Form, Result, Trace, Congruent, Dot, BlockGram, FedRows, Squares;
    var k, wq, D := p.k, Result(p).wq, BlockGram(16, C);
    ZeroDiagonalIsStrict(k, L);
    GramIsBlockDiagonal(C);
    forall i, j | 0 <= i < k && 0 <= j < k ensures Entry(H, i, j) == Congruent(k, UnitPlus(p.L), D, i, j) {
      CongruentExt(k, UnitPlus(p.L), AsMatrix(L), D, i, j);
    }
    LdlqLoss(p, D, H);
    forall c | 0 <= c < p.n
      ensures Sum(0, k / 16, b => BlockLoss(p, D, wq, b, c)) == Squares(p, C, wq, c) && 0.0 <= Squares(p, C, wq, c)
    {
      ColumnOfSquares(p, C, wq, c);
    }
    SumExt(0, p.n, c => Sum(0, k / 16, b => BlockLoss(p, D, wq, b, c)), c => Squares(p, C, wq, c));
    SumNonneg(0, p.n, c => Squares(p, C, wq, c));
  }
}

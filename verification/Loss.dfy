/** The proxy loss of LDLQ: the trace of E^T H E is the sum of the blocks' local rounding losses. */
module Loss {
  import opened Sums
  import opened Linear
  import opened Tiles
  import opened Ldlq
  import opened Feedback

  function AsMatrix(m: Mat<real>): Matrix { (i, j) => Entry(m, i, j) }

  /** Column c of W - Wq. */
  function ErrorColumn(W: Mat<real>, wq: Mat<real>, c: int): Vector { r => Entry(W, r, c) - Entry(wq, r, c) }

  /** I + L. */
  function UnitPlus(L: Mat<real>): Matrix { (i, j) => (if i == j then 1.0 else 0.0) + Entry(L, i, j) }

  /** L is zero above and on its 16x16 diagonal blocks. */
  ghost predicate StrictlyLower(L: Mat<real>) {
    forall r, a :: 0 <= a && r < 16 * (a / 16) + 16 ==> Entry(L, r, a) == 0.0
  }

  ghost predicate BlockDiagonal(D: Matrix) {
    forall i, j :: 0 <= i && 0 <= j && i / 16 != j / 16 ==> D(i, j) == 0.0
  }

  /** Column c of what rounding changed: the rows given to the quantizer minus the quantized rows. */
  ghost function Residual(W: Mat<real>, L: Mat<real>, wq: Mat<real>, c: int): Vector {
    a => Entry(W, a, c) + Feed(W, L, wq, a, c, 16 * (a / 16) + 16) - Entry(wq, a, c)
  }

  /** Row a of (I + L)^T E is row a of the rounding residual. */
  lemma ResidualIsProjection(W: Mat<real>, L: Mat<real>, wq: Mat<real>, c: int, a: int)
    requires StrictlyLower(L) && 0 <= a < |W| && |W| % 16 == 0
    ensures VecMat(|W|, ErrorColumn(W, wq, c), UnitPlus(L))(a) == Residual(W, L, wq, c)(a)
  {
    hide Sum, Entry;
    var k, from := |W|, 16 * (a / 16) + 16;
    var e, m := ErrorColumn(W, wq, c), Col(UnitPlus(L), a);
    var f := Times(e, m);
    SumSplit(0, from, k, f);
    SumPoint(0, from, f, a);
    SumExt(from, k, f, r => Entry(L, r, a) * (Entry(W, r, c) - Entry(wq, r, c)));
  }

  function BlockOf(D: Matrix, b: int): Matrix { (s, t) => D(16 * b + s, 16 * b + t) }

  function Shift(u: Vector, d: int): Vector { s => u(d + s) }

  lemma LastBlock(m: nat, D: Matrix, u: Vector)
    requires BlockDiagonal(D) && m > 0
    ensures Sum(16 * m - 16, 16 * m, Times(VecMat(16 * m, u, D), u))
      == Form(16, BlockOf(D, m - 1), Shift(u, 16 * (m - 1)))
  {
    hide Sum;
    var h, k := 16 * m - 16, 16 * m;
    var f := Times(VecMat(k, u, D), u);
    var B, v := BlockOf(D, m - 1), Shift(u, 16 * (m - 1));
    SumShift(h, 16, f);
    forall t | 0 <= t < 16 ensures f(h + t) == Times(VecMat(16, v, B), v)(t) {
      var g := Times(u, Col(D, h + t));
      SumSplit(0, h, k, g);
      SumZero(0, h, g);
      SumShift(h, 16, g);
      SumExt(0, 16, r => g(h + r), Times(v, Col(B, t)));
    }
    SumExt(0, 16, r => f(h + r), Times(VecMat(16, v, B), v));
  }

  /** The quadratic form of a block-diagonal matrix is the sum of the forms of its blocks. */
  lemma {:induction false} FormBlocks(m: nat, D: Matrix, u: Vector)
    requires BlockDiagonal(D)
    ensures Form(16 * m, D, u) == Sum(0, m, b => Form(16, BlockOf(D, b), Shift(u, 16 * b)))
  {
    hide Sum;
    var g := b => Form(16, BlockOf(D, b), Shift(u, 16 * b));
    var k := 16 * m;
    if m == 0 {
      DotNone(VecMat(k, u, D), u);
      SumZero(0, 0, g);
    } else {
      var h := k - 16;
      FormBlocks(m - 1, D, u);
      SumLast(0, m, g);
      var f := Times(VecMat(k, u, D), u);
      SumSplit(0, h, k, f);
      forall j | 0 <= j < h ensures f(j) == Times(VecMat(h, u, D), u)(j) {
        var t := Times(u, Col(D, j));
        SumSplit(0, h, k, t);
        SumZero(h, k, t);
      }
      SumExt(0, h, f, Times(VecMat(h, u, D), u));
      LastBlock(m, D, u);
    }
  }

  // ---------------------------------------------------------------- the trace and its blocked sum

  function Column(A: Mat<real>, c: int): Vector { r => Entry(A, r, c) }

  /** The terms of trace(A^T B A) that column j of B contributes. */
  function TraceTerm(A: Mat<real>, B: Mat<real>, n: nat): Vector {
    j => Sum(0, n, c => Dot(|A|, Column(A, c), Col(AsMatrix(B), j)) * Entry(A, j, c))
  }

  /** trace(A^T B A). */
  function Trace(A: Mat<real>, B: Mat<real>, n: nat): real { Sum(0, |A|, TraceTerm(A, B, n)) }

  /** The trace summed over column blocks of B: the same for every block size. */
  method BlockTrace(A: Mat<real>, B: Mat<real>, n: nat, blockSize: int) returns (total: real)
    requires blockSize >= 1 && Shape(A, |A|, n) && Shape(B, |A|, |A|)
    ensures total == Trace(A, B, n)
  {
    total := 0.0;
    var jStart := 0;
    while jStart < |A|
      invariant 0 <= jStart <= |A|
      invariant total == Sum(0, jStart, TraceTerm(A, B, n))
    {
      var jEnd := if jStart + blockSize <= |A| then jStart + blockSize else |A|;
      var partial := Sum(jStart, jEnd, TraceTerm(A, B, n));
      SumSplit(0, jStart, jEnd, TraceTerm(A, B, n));
      total := total + partial;
      jStart := jEnd;
    }
  }

  /** trace(A^T B A) is the sum over the columns of A of their forms. */
  lemma TraceIsForms(A: Mat<real>, B: Mat<real>, n: nat)
    ensures Trace(A, B, n) == Sum(0, n, c => Form(|A|, AsMatrix(B), Column(A, c)))
  {
    hide Sum;
    var k := |A|;
    var f := (j, c) => Dot(k, Column(A, c), Col(AsMatrix(B), j)) * Entry(A, j, c);
    SumSwap(0, k, 0, n, f);
    forall j ensures TraceTerm(A, B, n)(j) == Sum(0, n, c => f(j, c)) {
      SumExt(0, n, c => Dot(k, Column(A, c), Col(AsMatrix(B), j)) * Entry(A, j, c), c => f(j, c));
    }
    SumExt(0, k, TraceTerm(A, B, n), j => Sum(0, n, c => f(j, c)));
    forall c ensures Sum(0, k, j => f(j, c)) == Form(k, AsMatrix(B), Column(A, c)) {
      SumExt(0, k, j => f(j, c), Times(VecMat(k, Column(A, c), AsMatrix(B)), Column(A, c)));
    }
    SumExt(0, n, c => Sum(0, k, j => f(j, c)), c => Form(k, AsMatrix(B), Column(A, c)));
  }

  // ---------------------------------------------------------------- the loss theorem

  /** Column c of what the quantizer's rounding changes in 16 rows. */
  ghost function Rounding<I(!new)>(K: Kernel<real, I>, rows: Mat<real>, tn: nat, c: int): Vector
    requires Shaped(K) && Shape(rows, 16, 16 * tn)
  {
    s => Entry(rows, s, c) - Entry(RowsOf(Values(K, TilesOf(rows, tn)), tn), s, c)
  }

  /** What block b alone contributes: the form of its D block at the rounding of its fed rows. */
  ghost function BlockLoss<I(!new)>(p: Problem<real, I>, D: Matrix, wq: Mat<real>, b: int, c: int): real
    requires Shaped(p.K)
  {
    Form(16, BlockOf(D, b), Rounding(p.K, FedRows(p.W, p.L, p.n, wq, b), p.tn, c))
  }

  lemma FormExt(k: int, A: Matrix, u: Vector, v: Vector)
    requires forall i :: 0 <= i < k ==> u(i) == v(i)
    ensures Form(k, A, u) == Form(k, A, v)
  {
    hide Dot;
    forall j ensures VecMat(k, u, A)(j) == VecMat(k, v, A)(j) { DotExt(k, u, Col(A, j), v, Col(A, j)); }
    DotExt(k, VecMat(k, u, A), u, VecMat(k, v, A), v);
  }

  /** In an LDLQ result the residual of a block is the quantizer's rounding of its fed rows. */
  lemma ResidualIsRounding<I(!new)>(p: Problem<real, I>, wq: Mat<real>, enc: seq<seq<seq<I>>>, b: int, c: int)
    requires Unblocked(p, wq, enc) && 0 <= b < p.k / 16 && 0 <= c < p.n
    ensures forall s :: 0 <= s < 16 ==>
      Shift(Residual(p.W, p.L, wq, c), 16 * b)(s) == Rounding(p.K, FedRows(p.W, p.L, p.n, wq, b), p.tn, c)(s)
  {
    hide Feed, TilesOf, RowsOf, Values;
    assert Quantized(p, wq, enc, b);
    var rows := FedRows(p.W, p.L, p.n, wq, b);
    forall s | 0 <= s < 16
      ensures Shift(Residual(p.W, p.L, wq, c), 16 * b)(s) == Rounding(p.K, rows, p.tn, c)(s)
    {
      assert (16 * b + s) / 16 == b;
      assert wq[16 * b..16 * b + 16][s] == wq[16 * b + s];
    }
  }

  lemma ColumnLoss<I(!new)>(p: Problem<real, I>, D: Matrix, H: Mat<real>, wq: Mat<real>, enc: seq<seq<seq<I>>>, c: int)
    requires Exact(p.K) && Unblocked(p, wq, enc) && StrictlyLower(p.L) && BlockDiagonal(D) && 0 <= c < p.n
    requires forall i, j :: 0 <= i < p.k && 0 <= j < p.k ==> Entry(H, i, j) == Congruent(p.k, UnitPlus(p.L), D, i, j)
    ensures Form(p.k, AsMatrix(H), Column(Err(p, wq, 0, p.k), c)) == Sum(0, p.k / 16, b => BlockLoss(p, D, wq, b, c))
  {
    hide Sum, Form, Congruent, Feed, Quantized, StrictlyLower, BlockDiagonal;
    var k, e, u := p.k, ErrorColumn(p.W, wq, c), Residual(p.W, p.L, wq, c);
    OkParts(p);
    ErrEntries(p, wq, 0, k);
    FormExt(k, AsMatrix(H), Column(Err(p, wq, 0, k), c), e);
    CongruentForm(k, UnitPlus(p.L), D, AsMatrix(H), e);
    forall a | 0 <= a < k ensures VecMat(k, e, UnitPlus(p.L))(a) == u(a) {
      ResidualIsProjection(p.W, p.L, wq, c, a);
    }
    FormExt(k, D, VecMat(k, e, UnitPlus(p.L)), u);
    FormBlocks(k / 16, D, u);
    forall b | 0 <= b < k / 16 ensures Form(16, BlockOf(D, b), Shift(u, 16 * b)) == BlockLoss(p, D, wq, b, c) {
      ResidualIsRounding(p, wq, enc, b, c);
      FormExt(16, BlockOf(D, b), Shift(u, 16 * b), Rounding(p.K, FedRows(p.W, p.L, p.n, wq, b), p.tn, c));
    }
    SumExt(0, k / 16, b => Form(16, BlockOf(D, b), Shift(u, 16 * b)), b => BlockLoss(p, D, wq, b, c));
  }

  /** For H = (I + L) D (I + L)^T the loss of a run is the sum of its blocks' losses; nothing is left of the
      interaction between blocks. */
  lemma LdlqLoss<I(!new)>(p: Problem<real, I>, D: Matrix, H: Mat<real>)
    requires Ok(p) && Exact(p.K) && StrictlyLower(p.L) && BlockDiagonal(D)
    requires forall i, j :: 0 <= i < p.k && 0 <= j < p.k ==> Entry(H, i, j) == Congruent(p.k, UnitPlus(p.L), D, i, j)
    ensures var wq := Result(p).wq;
            Trace(Err(p, wq, 0, p.k), H, p.n) == Sum(0, p.n, c => Sum(0, p.k / 16, b => BlockLoss(p, D, wq, b, c)))
  {
    hide Sum, Form, Result, Trace, Congruent, Feed;
    var wq := Result(p).wq;
    BlockedIsUnblocked(p);
    var E := Err(p, wq, 0, p.k);
    TraceIsForms(E, H, p.n);
    forall c | 0 <= c < p.n
      ensures Form(|E|, AsMatrix(H), Column(E, c)) == Sum(0, p.k / 16, b => BlockLoss(p, D, wq, b, c))
    {
      ColumnLoss(p, D, H, wq, Result(p).enc, c);
    }
    SumExt(0, p.n, c => Form(|E|, AsMatrix(H), Column(E, c)), c => Sum(0, p.k / 16, b => BlockLoss(p, D, wq, b, c)));
  }
}

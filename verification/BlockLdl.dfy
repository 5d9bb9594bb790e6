/** The block LDL factor: Cholesky with diagonal-damping retries, column blocks normalized in place, and the
    meaning of the result in exact arithmetic. */
module BlockLdl {
  import opened Arithmetic
  import opened Options
  import opened Sums
  import opened Linear
  import opened Tiles
  import opened Feedback
  import opened Loss

  // ---------------------------------------------------------------- the library calls

  ghost predicate Lower(n: nat, C: Mat<real>) {
    && Shape(C, n, n)
    && (forall i, j :: 0 <= i < j < n ==> Entry(C, i, j) == 0.0)
    && (forall i :: 0 <= i < n ==> Entry(C, i, i) > 0.0)
  }

  /** C is a Cholesky factor of H: lower triangular with C C^T = H. */
  ghost predicate IsCholesky(n: nat, H: Mat<real>, C: Mat<real>) {
    && Lower(n, C)
    && forall i, j :: 0 <= i < n && 0 <= j < n ==>
         Entry(H, i, j) == Dot(n, Linear.Row(AsMatrix(C), i), Linear.Row(AsMatrix(C), j))
  }

  /** A factorization that fails or returns a Cholesky factor. */
  ghost predicate CholeskyLaw(n: nat, chol: Mat<real> -> Option<Mat<real>>) {
    forall H :: Shape(H, n, n) && chol(H).Some? ==> IsCholesky(n, H, chol(H).value)
  }

  /** An inverse on the left of every lower triangular block with positive diagonal, and on its right. */
  ghost predicate InverseLaw(h: nat, inv: Mat<real> -> Mat<real>) {
    forall B, s, t :: Lower(h, B) && 0 <= s < h && 0 <= t < h ==>
      Product(h, AsMatrix(inv(B)), AsMatrix(B))(s, t) == (if s == t then 1.0 else 0.0)
      && Product(h, AsMatrix(B), AsMatrix(inv(B)))(s, t) == (if s == t then 1.0 else 0.0)
  }

  // ---------------------------------------------------------------- damping

  function Constant(x: real): Vector { i => x }

  function Diagonal(H: Mat<real>): Vector { i => Entry(H, i, i) }

  function DiagonalMean(H: Mat<real>): real
    requires |H| > 0
  {
    Sum(0, |H|, Diagonal(H)) / |H| as real
  }

  /** H with x added to its diagonal. */
  function AddDiagonal(H: Mat<real>, x: real): (r: Mat<real>)
    requires Shape(H, |H|, |H|)
    ensures Shape(r, |H|, |H|)
    ensures forall i, j :: 0 <= i < |H| && 0 <= j < |H| ==> r[i][j] == H[i][j] + if i == j then x else 0.0
  {
    seq(|H|, i requires 0 <= i < |H| => H[i][i := H[i][i] + x])
  }

  /** What a retry adds to the diagonal. */
  function Bump(H: Mat<real>, sigma: real): real
    requires |H| > 0
  {
    2.0 * sigma * DiagonalMean(H)
  }

  /** H after t failed factorizations. */
  function Damped(H: Mat<real>, sigma: real, t: nat): (r: Mat<real>)
    requires Shape(H, |H|, |H|) && |H| > 0
    ensures Shape(r, |H|, |H|)
  {
    if t == 0 then H else
      var d := Damped(H, sigma, t - 1);
      AddDiagonal(d, Bump(d, sigma))
  }

  lemma MeanStep(total: real, s: real, n: real, x: real)
    requires n > 0.0 && total == s + n * x
    ensures total / n == s / n + x
  {
    var q := s / n;
    assert total == (q + x) * n;
  }

  lemma MeanOfDamped(H: Mat<real>, x: real)
    requires Shape(H, |H|, |H|) && |H| > 0
    ensures DiagonalMean(AddDiagonal(H, x)) == DiagonalMean(H) + x
  {
    hide Sum, AddDiagonal;
    var n := |H|;
    var r := AddDiagonal(H, x);
    var f, c := Diagonal(H), Constant(x);
    forall i | 0 <= i < n ensures Diagonal(r)(i) == f(i) + c(i) {
      assert r[i][i] == H[i][i] + x;
    }
    SumExt(0, n, Diagonal(r), i => f(i) + c(i));
    SumPlus(0, n, f, c);
    SumConstant(n, c, x);
    MeanStep(Sum(0, n, Diagonal(r)), Sum(0, n, f), n as real, x);
  }

  lemma Growth(m: real, sigma: real, p: real, md: real)
    requires md == m * p
    ensures md + 2.0 * sigma * md == m * ((1.0 + 2.0 * sigma) * p)
    ensures m * (p - 1.0) + 2.0 * sigma * md == m * ((1.0 + 2.0 * sigma) * p - 1.0)
  {
  }

  /** t retries multiply the mean of the diagonal by (1 + 2 sigma)^t and change nothing off the diagonal. */
  lemma {:induction false} DampedIs(H: Mat<real>, sigma: real, t: nat)
    requires Shape(H, |H|, |H|) && |H| > 0
    ensures DiagonalMean(Damped(H, sigma, t)) == DiagonalMean(H) * Power(1.0 + 2.0 * sigma, t)
    ensures forall i, j :: 0 <= i < |H| && 0 <= j < |H| ==>
      Damped(H, sigma, t)[i][j] == H[i][j] + if i == j then DiagonalMean(H) * (Power(1.0 + 2.0 * sigma, t) - 1.0)
        else 0.0
  {
    hide DiagonalMean, AddDiagonal;
    if t > 0 {
      var d := Damped(H, sigma, t - 1);
      var m, p, x := DiagonalMean(H), Power(1.0 + 2.0 * sigma, t - 1), Bump(d, sigma);
      DampedIs(H, sigma, t - 1);
      MeanOfDamped(d, x);
      Growth(m, sigma, p, DiagonalMean(d));
      assert Power(1.0 + 2.0 * sigma, t) == (1.0 + 2.0 * sigma) * p;
      assert Damped(H, sigma, t) == AddDiagonal(d, x);
    }
  }

  lemma Rescale(s: real, n: real, p: real)
    requires n > 0.0
    ensures n * (s / n * (p - 1.0)) == s * (p - 1.0) && n * (s / n * p) == s * p && n * (s / n) == s
  {
    var q := s / n;
    assert q * n == s;
    assert n * (q * p) == (q * n) * p;
  }

  /** In terms of the entries: t retries add the same to every diagonal entry, so that the trace, the sum of the
      diagonal, is multiplied by (1 + 2 sigma)^t. */
  lemma DampedTrace(H: Mat<real>, sigma: real, t: nat, i: int)
    requires Shape(H, |H|, |H|) && |H| > 0 && 0 <= i < |H|
    ensures var trace := Sum(0, |H|, x => Entry(H, x, x));
            (|H| as real) * (Entry(Damped(H, sigma, t), i, i) - Entry(H, i, i))
            == trace * (Power(1.0 + 2.0 * sigma, t) - 1.0)
            && Sum(0, |H|, x => Entry(Damped(H, sigma, t), x, x)) == trace * Power(1.0 + 2.0 * sigma, t)
  {
    hide Sum, Power, Damped;
    var n, p := |H| as real, Power(1.0 + 2.0 * sigma, t);
    var d := Damped(H, sigma, t);
    DampedIs(H, sigma, t);
    SumExt(0, |H|, Diagonal(H), x => Entry(H, x, x));
    SumExt(0, |H|, Diagonal(d), x => Entry(d, x, x));
    Rescale(Sum(0, |H|, Diagonal(H)), n, p);
    Rescale(Sum(0, |H|, Diagonal(d)), n, p);
    assert d[i][i] == H[i][i] + DiagonalMean(H) * (p - 1.0);
  }

  // ---------------------------------------------------------------- column blocks

  /** The first index of the block of h that c belongs to. */
  function First(h: nat, c: int): int
    requires h >= 1
  {
    h * (c / h)
  }

  lemma FirstIs(h: nat, c: int)
    requires h >= 1 && 0 <= c
    ensures 0 <= First(h, c) <= c < First(h, c) + h
  {
  }

  lemma FirstFits(h: nat, n: nat, c: int)
    requires h >= 1 && n % h == 0 && 0 <= c < n
    ensures 0 <= First(h, c) <= c < First(h, c) + h <= n
  {
    FirstIs(h, c);
    var q, m := c / h, n / h;
    assert n == h * m;
    if q >= m { Ordered(h, m, q); } else { Ordered(h, q + 1, m); }
  }

  lemma FirstOf(h: nat, b: int, s: int)
    requires h >= 1 && 0 <= b && 0 <= s < h
    ensures First(h, h * b + s) == h * b
  {
    DivMod(h, b, s);
  }

  /** Index a is in the block that starts where the block of c does exactly if it is between its ends. */
  lemma SameFirst(h: nat, a: int, c: int)
    requires h >= 1 && 0 <= a && 0 <= c
    ensures First(h, a) == First(h, c) <==> First(h, c) <= a < First(h, c) + h
  {
    FirstIs(h, a);
    if First(h, c) <= a < First(h, c) + h { FirstOf(h, c / h, a - First(h, c)); FirstIs(h, c); }
  }

  function DiagonalBlock(h: nat, C: Mat<real>, lo: int): (B: Mat<real>)
    requires Shape(C, |C|, |C|) && 0 <= lo && lo + h <= |C|
    ensures Shape(B, h, h)
  {
    seq(h, s requires 0 <= s < h => C[lo + s][lo..lo + h])
  }

  /** Row r of C against the column of c in the inverse of the diagonal block that starts at lo. */
  ghost function NormalizedIn(h: nat, C: Mat<real>, inv: Mat<real> -> Mat<real>, lo: int, r: int, c: int): real
    requires Shape(C, |C|, |C|) && 0 <= lo && lo + h <= |C|
  {
    Dot(h, Shift(Linear.Row(AsMatrix(C), r), lo), Col(AsMatrix(inv(DiagonalBlock(h, C, lo))), c - lo))
  }

  /** The normalized entry: its block is the one that c belongs to. */
  ghost function NormalizedAt(h: nat, C: Mat<real>, inv: Mat<real> -> Mat<real>, r: int, c: int): real
    requires h >= 1 && Shape(C, |C|, |C|) && |C| % h == 0 && 0 <= c < |C|
  {
    FirstFits(h, |C|, c);
    NormalizedIn(h, C, inv, First(h, c), r, c)
  }

  /** Identity diagonal blocks and zeros above them. */
  ghost predicate UnitBlockLower(h: nat, n: nat, L: Mat<real>)
    requires h >= 1
  {
    && Shape(L, n, n)
    && forall r, c :: 0 <= r < n && 0 <= c < n && r < First(h, c) + h ==> Entry(L, r, c) == if r == c then 1.0 else 0.0
  }

  /** diag(C_b C_b^T): the Gram matrices of the diagonal blocks of C. */
  function BlockGram(h: nat, C: Mat<real>): Matrix
    requires h >= 1
  {
    (i, j) => if First(h, i) != First(h, j) then 0.0 else
      Dot(h, Shift(Linear.Row(AsMatrix(C), i), First(h, i)), Shift(Linear.Row(AsMatrix(C), j), First(h, i)))
  }

  lemma DiagonalBlockLower(h: nat, n: nat, C: Mat<real>, lo: int)
    requires Lower(n, C) && 0 <= lo && lo + h <= n
    ensures Lower(h, DiagonalBlock(h, C, lo))
    ensures forall s, t :: 0 <= s < h && 0 <= t < h ==> Entry(DiagonalBlock(h, C, lo), s, t) == Entry(C, lo + s, lo + t)
  {
    var B := DiagonalBlock(h, C, lo);
    forall s, t | 0 <= s < h && 0 <= t < h ensures Entry(B, s, t) == Entry(C, lo + s, lo + t) {
      assert B[s] == C[lo + s][lo..lo + h];
    }
  }

  /** Normalizing a diagonal block gives the identity, and a block above it zero. */
  lemma NormalizedShape(h: nat, n: nat, C: Mat<real>, inv: Mat<real> -> Mat<real>, r: int, c: int)
    requires h >= 1 && Lower(n, C) && n % h == 0 && InverseLaw(h, inv) && 0 <= r < n && 0 <= c < n
      && r < First(h, c) + h
    ensures NormalizedAt(h, C, inv, r, c) == if r == c then 1.0 else 0.0
  {
    hide Dot, First;
    FirstFits(h, n, c);
    var lo := First(h, c);
    var B := DiagonalBlock(h, C, lo);
    var x, v := Shift(Linear.Row(AsMatrix(C), r), lo), Col(AsMatrix(inv(B)), c - lo);
    if r < lo {
      DotZero(h, x, v);
    } else {
      DiagonalBlockLower(h, n, C, lo);
      DotExt(h, x, v, Linear.Row(AsMatrix(B), r - lo), v);
      assert Product(h, AsMatrix(B), AsMatrix(inv(B)))(r - lo, c - lo) == if r == c then 1.0 else 0.0;
    }
  }

  /** The block-diagonal part of C. */
  function DiagonalPart(h: nat, C: Mat<real>): Matrix
    requires h >= 1
  {
    (i, t) => if First(h, i) == First(h, t) then Entry(C, i, t) else 0.0
  }

  /** A sum whose terms vanish outside a block. */
  lemma SumOfBlock(h: nat, n: nat, lo: int, f: Vector)
    requires 0 <= lo && lo + h <= n
    requires forall a :: 0 <= a < n && !(lo <= a < lo + h) ==> f(a) == 0.0
    ensures Sum(0, n, f) == Sum(0, h, Shift(f, lo))
  {
    hide Sum;
    SumSplit(0, lo, n, f);
    SumSplit(lo, lo + h, n, f);
    SumZero(0, lo, f);
    SumZero(lo + h, n, f);
    SumShift(lo, h, f);
    SumExt(0, h, Shift(f, lo), r => f(lo + r));
  }

  lemma NormalizedUnfold(h: nat, C: Mat<real>, inv: Mat<real> -> Mat<real>, r: int, c: int)
    requires h >= 1 && Shape(C, |C|, |C|) && |C| % h == 0 && 0 <= c < |C|
    ensures 0 <= First(h, c) <= c < First(h, c) + h <= |C|
    ensures NormalizedAt(h, C, inv, r, c) == NormalizedIn(h, C, inv, First(h, c), r, c)
  {
    hide First;
    FirstFits(h, |C|, c);
  }

  /** L times the block-diagonal part of C is C. */
  lemma NormalizedTimesDiagonal(h: nat, n: nat, C: Mat<real>, inv: Mat<real> -> Mat<real>, L: Mat<real>, i: int, t: int)
    requires h >= 1 && Lower(n, C) && n % h == 0 && InverseLaw(h, inv) && 0 <= i < n && 0 <= t < n
    requires forall c :: 0 <= c < n ==> Entry(L, i, c) == NormalizedAt(h, C, inv, i, c)
    ensures VecMat(n, Linear.Row(AsMatrix(L), i), DiagonalPart(h, C))(t) == Entry(C, i, t)
  {
    hide Sum, Entry, NormalizedAt, First;
    FirstFits(h, n, t);
    var lo := First(h, t);
    var t' := t - lo;
    var B := DiagonalBlock(h, C, lo);
    DiagonalBlockLower(h, n, C, lo);
    var V, BM := AsMatrix(inv(B)), AsMatrix(B);
    var x := Shift(Linear.Row(AsMatrix(C), i), lo);
    var f := Times(Linear.Row(AsMatrix(L), i), Col(DiagonalPart(h, C), t));
    forall a | 0 <= a < n ensures !(lo <= a < lo + h) ==> f(a) == 0.0 { SameFirst(h, a, t); }
    SumOfBlock(h, n, lo, f);
    forall a | 0 <= a < h ensures Shift(f, lo)(a) == Times(VecMat(h, x, V), Col(BM, t'))(a) {
      SameFirst(h, lo + a, t);
      NormalizedUnfold(h, C, inv, i, lo + a);
    }
    SumExt(0, h, Shift(f, lo), Times(VecMat(h, x, V), Col(BM, t')));
    Associate(h, h, x, V, Col(BM, t'));
    var unit := MatVec(h, V, Col(BM, t'));
    forall s | 0 <= s < h ensures unit(s) == if s == t' then 1.0 else 0.0 {
      assert unit(s) == Product(h, V, BM)(s, t');
    }
    SumPoint(0, h, Times(x, unit), t');
  }

  lemma GramOfDiagonal(h: nat, n: nat, C: Mat<real>, i: int, j: int)
    requires h >= 1 && n % h == 0 && 0 <= i < n && 0 <= j < n
    ensures BlockGram(h, C)(i, j) == Dot(n, Linear.Row(DiagonalPart(h, C), i), Linear.Row(DiagonalPart(h, C), j))
  {
    hide Sum, Entry, First;
    var f := Times(Linear.Row(DiagonalPart(h, C), i), Linear.Row(DiagonalPart(h, C), j));
    if First(h, i) != First(h, j) {
      SumZero(0, n, f);
    } else {
      var lo := First(h, i);
      FirstFits(h, n, i);
      forall a | 0 <= a < n ensures First(h, a) == lo <==> lo <= a < lo + h { SameFirst(h, a, i); }
      SumOfBlock(h, n, lo, f);
      var x, y := Shift(Linear.Row(AsMatrix(C), i), lo), Shift(Linear.Row(AsMatrix(C), j), lo);
      SumExt(0, h, Shift(f, lo), Times(x, y));
    }
  }

  /** L diag(C_b C_b^T) L^T = C C^T. */
  lemma LdlReconstructs(h: nat, n: nat, C: Mat<real>, inv: Mat<real> -> Mat<real>, L: Mat<real>, i: int, j: int)
    requires h >= 1 && Lower(n, C) && n % h == 0 && InverseLaw(h, inv) && 0 <= i < n && 0 <= j < n
    requires forall r, c :: 0 <= r < n && 0 <= c < n ==> Entry(L, r, c) == NormalizedAt(h, C, inv, r, c)
    ensures Congruent(n, AsMatrix(L), BlockGram(h, C), i, j)
         == Dot(n, Linear.Row(AsMatrix(C), i), Linear.Row(AsMatrix(C), j))
  {
    hide Dot, Entry, NormalizedAt, Lower, InverseLaw, BlockGram, First;
    var D, P := BlockGram(h, C), DiagonalPart(h, C);
    var li, lj := Linear.Row(AsMatrix(L), i), Linear.Row(AsMatrix(L), j);
    var ci, cj := Linear.Row(AsMatrix(C), i), Linear.Row(AsMatrix(C), j);
    var T := Transpose(P);
    forall t | 0 <= t < n ensures VecMat(n, li, P)(t) == ci(t) && VecMat(n, lj, P)(t) == cj(t) {
      NormalizedTimesDiagonal(h, n, C, inv, L, i, t);
      NormalizedTimesDiagonal(h, n, C, inv, L, j, t);
    }
    forall a | 0 <= a < n ensures MatVec(n, D, lj)(a) == MatVec(n, P, cj)(a) {
      forall c | 0 <= c < n ensures Linear.Row(D, a)(c) == VecMat(n, Linear.Row(P, a), T)(c) {
        GramOfDiagonal(h, n, C, a, c);
        DotExt(n, Linear.Row(P, a), Linear.Row(P, c), Linear.Row(P, a), Col(T, c));
      }
      DotExt(n, Linear.Row(D, a), lj, VecMat(n, Linear.Row(P, a), T), lj);
      Associate(n, n, Linear.Row(P, a), T, lj);
      forall t | 0 <= t < n ensures MatVec(n, T, lj)(t) == cj(t) {
        DotExt(n, Linear.Row(T, t), lj, Col(P, t), lj);
        DotSwap(n, Col(P, t), lj);
      }
      DotExt(n, Linear.Row(P, a), MatVec(n, T, lj), Linear.Row(P, a), cj);
    }
    DotExt(n, li, MatVec(n, D, lj), li, MatVec(n, P, cj));
    Associate(n, n, li, P, cj);
    DotExt(n, VecMat(n, li, P), cj, ci, cj);
  }

  // ---------------------------------------------------------------- the routine

  /** A row whose columns of the block from lo on are multiplied by B. */
  function BlockTimes(h: nat, row: seq<real>, lo: int, B: Mat<real>): (r: seq<real>)
    requires 0 <= lo && lo + h <= |row|
    ensures |r| == |row|
    ensures forall c :: 0 <= c < |row| && !(lo <= c < lo + h) ==> r[c] == row[c]
  {
    seq(|row|, c requires 0 <= c < |row| =>
      if lo <= c < lo + h then Dot(h, Shift(AsVector(row), lo), Col(AsMatrix(B), c - lo)) else row[c])
  }

  lemma BlockTimesNormalizes(h: nat, row: seq<real>, C: Mat<real>, inv: Mat<real> -> Mat<real>, r: int, lo: int, c: int)
    requires h >= 1 && Shape(C, |C|, |C|) && |C| % h == 0 && |row| == |C| && 0 <= r < |C|
    requires 0 <= lo <= c < lo + h <= |C| && First(h, c) == lo
    requires forall x :: lo <= x < |C| ==> row[x] == C[r][x]
    ensures BlockTimes(h, row, lo, inv(DiagonalBlock(h, C, lo)))[c] == NormalizedAt(h, C, inv, r, c)
  {
    hide Dot, First;
    var v := Col(AsMatrix(inv(DiagonalBlock(h, C, lo))), c - lo);
    DotExt(h, Shift(AsVector(row), lo), v, Shift(Linear.Row(AsMatrix(C), r), lo), v);
  }

  /** A row with the columns from lo on overwritten by row r of the identity. */
  function WithIdentity(h: nat, row: seq<real>, lo: int, r: int): (w: seq<real>)
    requires 0 <= lo && lo + h <= |row|
    ensures |w| == |row|
    ensures forall c :: 0 <= c < |row| ==> w[c] == if lo <= c < lo + h then (if c == r then 1.0 else 0.0) else row[c]
  {
    row[..lo] + seq(h, s => if lo + s == r then 1.0 else 0.0) + row[lo + h..]
  }

  lemma DampedZero(H: Mat<real>, sigma: real)
    requires Shape(H, |H|, |H|) && |H| > 0
    ensures Damped(H, sigma, 0) == H
  {
  }

  lemma DampedStep(H: Mat<real>, sigma: real, t: nat)
    requires Shape(H, |H|, |H|) && |H| > 0
    ensures var d := Damped(H, sigma, t); Damped(H, sigma, t + 1) == AddDiagonal(d, Bump(d, sigma))
  {
  }

  /** Cholesky with up to ten damping retries. */
  method Factor(H: array<seq<real>>, sigma: real, chol: Mat<real> -> Option<Mat<real>>)
      returns (C: Option<Mat<real>>, ghost t: nat)
    requires H.Length > 0 && Shape(H[..], H.Length, H.Length)
    modifies H
    ensures t <= 10 && H[..] == Damped(old(H[..]), sigma, t) && C == chol(H[..])
    ensures forall u :: 0 <= u < t ==> chol(Damped(old(H[..]), sigma, u)).None?
    ensures C.None? ==> t == 10
  {
    hide Damped, AddDiagonal, DiagonalMean;
    var retries := 0;
    t := 0;
    DampedZero(H[..], sigma);
    C := chol(H[..]);
    while C.None? && retries < 10
      invariant 0 <= retries <= 10 && t == retries
      invariant Shape(H[..], H.Length, H.Length) && H[..] == Damped(old(H[..]), sigma, t) && C == chol(H[..])
      invariant forall u :: 0 <= u < t ==> chol(Damped(old(H[..]), sigma, u)).None?
      decreases 10 - retries
    {
      retries := retries + 1;
      DampedStep(old(H[..]), sigma, t);
      var damped := AddDiagonal(H[..], Bump(H[..], sigma));
      forall i | 0 <= i < H.Length { H[i] := damped[i]; }
      assert H[..] == damped;
      t := t + 1;
      C := chol(H[..]);
    }
  }

  /** The start of block b. */
  function BlockAt(h: nat, b: nat): nat { h * b }

  lemma BlockStart(h: nat, n: nat, b: nat)
    requires h >= 1 && n % h == 0 && b < n / h
    ensures BlockAt(h, b) + h == BlockAt(h, b + 1) <= n && BlockAt(h, 0) == 0
    ensures forall c :: BlockAt(h, b) <= c < BlockAt(h, b) + h ==> First(h, c) == BlockAt(h, b)
  {
    Ordered(h, b + 1, n / h);
    forall c | h * b <= c < h * b + h ensures First(h, c) == h * b { FirstOf(h, b, c - h * b); }
  }

  /** One column block. */
  method NormalizeBlock(h: nat, L: array<seq<real>>, inv: Mat<real> -> Mat<real>, ghost C: Mat<real>, lo: int,
                        B: Mat<real>)
    requires h >= 1 && |C| == L.Length && L.Length % h == 0 && Shape(L[..], |C|, |C|) && Shape(C, |C|, |C|)
    requires 0 <= lo && lo + h <= |C| && B == inv(DiagonalBlock(h, C, lo))
    requires forall c :: lo <= c < lo + h ==> First(h, c) == lo
    requires forall r, c :: 0 <= r < |C| && lo <= c < |C| ==> L[r][c] == C[r][c]
    modifies L
    ensures Shape(L[..], |C|, |C|)
    ensures forall r, c :: 0 <= r < |C| && 0 <= c < |C| && !(lo <= c < lo + h) ==> L[r][c] == old(L[..])[r][c]
    ensures forall r, c :: 0 <= r < |C| && lo <= c < lo + h ==> L[r][c] == NormalizedAt(h, C, inv, r, c)
  {
    hide NormalizedAt, Entry, Dot, BlockTimes, DiagonalBlock, First;
    ghost var was := L[..];
    forall r | 0 <= r < L.Length {
      L[r] := BlockTimes(h, L[r], lo, B);
    }
    forall r, c | 0 <= r < |C| && lo <= c < lo + h ensures L[r][c] == NormalizedAt(h, C, inv, r, c) {
      BlockTimesNormalizes(h, was[r], C, inv, r, lo, c);
    }
  }

  lemma BlockEnds(h: nat, n: nat)
    requires h >= 1 && n % h == 0
    ensures BlockAt(h, 0) == 0 && BlockAt(h, n / h) == n
  {
  }

  /** Every column block of L is multiplied by the inverse of its diagonal block, which was taken before. */
  method NormalizeBlocks(h: nat, L: array<seq<real>>, inv: Mat<real> -> Mat<real>)
    requires h >= 1 && L.Length % h == 0 && Shape(L[..], L.Length, L.Length)
    modifies L
    ensures Shape(L[..], L.Length, L.Length)
    ensures forall r, c :: 0 <= r < L.Length && 0 <= c < L.Length ==> L[r][c] == NormalizedAt(h, old(L[..]), inv, r, c)
  {
    hide NormalizedAt, Entry, Dot, BlockTimes, DiagonalBlock, First, BlockAt;
    var C := L[..];
    var n := L.Length;
    var m := n / h;
    assert BlockAt(h, 0) == 0 && BlockAt(h, m) == n by { BlockEnds(h, n); }
    forall b: nat | b < m ensures BlockAt(h, b) + h <= n { BlockStart(h, n, b); }
    var inverses := seq(m, b requires 0 <= b < m && BlockAt(h, b) + h <= n => inv(DiagonalBlock(h, C, BlockAt(h, b))));
    var lo := 0;
    for b := 0 to m
      invariant Shape(L[..], n, n) && 0 <= lo == BlockAt(h, b) <= n
      invariant forall r, c :: 0 <= r < n && lo <= c < n ==> L[r][c] == C[r][c]
      invariant forall r, c :: 0 <= r < n && 0 <= c < lo ==> L[r][c] == NormalizedAt(h, C, inv, r, c)
    {
      BlockStart(h, n, b);
      NormalizeBlock(h, L, inv, C, lo, inverses[b]);
      lo := lo + h;
    }
  }

  /** L' is L with the identity for every diagonal block. */
  ghost predicate IdentityOver(h: nat, n: nat, L: Mat<real>, L': Mat<real>)
    requires h >= 1 && Shape(L, n, n) && Shape(L', n, n)
  {
    forall r, c :: 0 <= r < n && 0 <= c < n ==>
      L'[r][c] == if First(h, r) == First(h, c) then (if r == c then 1.0 else 0.0) else L[r][c]
  }

  /** The diagonal blocks become the identity; nothing else is written. */
  method SetIdentity(h: nat, L: array<seq<real>>)
    requires h >= 1 && L.Length % h == 0 && Shape(L[..], L.Length, L.Length)
    modifies L
    ensures Shape(L[..], L.Length, L.Length) && IdentityOver(h, L.Length, old(L[..]), L[..])
  {
    hide First;
    ghost var was := L[..];
    var n := L.Length;
    forall r | 0 <= r < n ensures 0 <= First(h, r) && First(h, r) + h <= n { FirstFits(h, n, r); }
    forall r | 0 <= r < n {
      L[r] := WithIdentity(h, L[r], First(h, r), r);
    }
    forall r, c | 0 <= r < n && 0 <= c < n
      ensures L[r][c] == if First(h, r) == First(h, c) then (if r == c then 1.0 else 0.0) else was[r][c]
    {
      SameFirst(h, c, r);
    }
  }

  /** Overwriting diagonal blocks that are the identity already changes nothing. */
  lemma IdentityAlready(h: nat, n: nat, L: Mat<real>, L': Mat<real>)
    requires h >= 1 && Shape(L, n, n) && Shape(L', n, n) && IdentityOver(h, n, L, L')
    requires forall r, c :: 0 <= r < n && 0 <= c < n && First(h, r) == First(h, c) ==>
      L[r][c] == if r == c then 1.0 else 0.0
    ensures L' == L
  {
    hide First;
    forall r | 0 <= r < n ensures L'[r] == L[r] {
      forall c | 0 <= c < n ensures L'[r][c] == L[r][c] {
        var same := First(h, r) == First(h, c);
        assert same ==> L[r][c] == if r == c then 1.0 else 0.0;
      }
    }
  }

  /** What the routine is for: L has identity diagonal blocks, zeros above them, and L diag(C_b C_b^T) L^T = H. */
  ghost predicate IsBlockLdl(h: nat, n: nat, H: Mat<real>, C: Mat<real>, L: Mat<real>)
    requires h >= 1
  {
    && IsCholesky(n, H, C) && UnitBlockLower(h, n, L)
    && forall i, j :: 0 <= i < n && 0 <= j < n ==> Entry(H, i, j) == Congruent(n, AsMatrix(L), BlockGram(h, C), i, j)
  }

  lemma EntryAt(m: Mat<real>, r: int, c: int)
    requires 0 <= r < |m| && 0 <= c < |m[r]|
    ensures Entry(m, r, c) == m[r][c]
  {
  }

  /** The block LDL factorization of H with blocks of h. On success the storage of H holds L and the damped H is
      returned beside it; it fails exactly when H and its first ten dampings all fail to factor. */
  method BlockLdl(h: nat, H: array<seq<real>>, sigma: real, chol: Mat<real> -> Option<Mat<real>>,
                  inv: Mat<real> -> Mat<real>)
      returns (ok: bool, Hcpu: Mat<real>, ghost t: nat)
    requires h >= 1 && H.Length > 0 && H.Length % h == 0 && Shape(H[..], H.Length, H.Length)
    requires CholeskyLaw(H.Length, chol) && InverseLaw(h, inv)
    modifies H
    ensures t <= 10 && forall u :: 0 <= u < t ==> chol(Damped(old(H[..]), sigma, u)).None?
    ensures ok <==> chol(Damped(old(H[..]), sigma, t)).Some?
    ensures !ok ==> t == 10
    ensures ok ==> Hcpu == Damped(old(H[..]), sigma, t) && IsBlockLdl(h, H.Length, Hcpu, chol(Hcpu).value, H[..])
  {
    hide Damped, NormalizedAt, Dot, Congruent, BlockGram, Entry, InverseLaw, First, IdentityOver;
    var n := H.Length;
    var C;
    C, t := Factor(H, sigma, chol);
    ok, Hcpu := C.Some?, H[..];
    if ok {
      forall i | 0 <= i < n { H[i] := C.value[i]; }
      assert H[..] == C.value;
      NormalizeBlocks(h, H, inv);
      ghost var L := H[..];
      forall r, c | 0 <= r < n && 0 <= c < n ensures Entry(L, r, c) == L[r][c] == NormalizedAt(h, C.value, inv, r, c) {
        EntryAt(L, r, c);
      }
      forall r, c | 0 <= r < n && 0 <= c < n && r < First(h, c) + h
        ensures L[r][c] == Entry(L, r, c) == if r == c then 1.0 else 0.0
      {
        NormalizedShape(h, n, C.value, inv, r, c);
      }
      forall r, c | 0 <= r < n && 0 <= c < n && First(h, r) == First(h, c) ensures r < First(h, c) + h {
        SameFirst(h, r, c);
      }
      SetIdentity(h, H);
      IdentityAlready(h, n, L, H[..]);
      forall i, j | 0 <= i < n && 0 <= j < n
        ensures Entry(Hcpu, i, j) == Congruent(n, AsMatrix(L), BlockGram(h, C.value), i, j)
      {
        LdlReconstructs(h, n, C.value, inv, L, i, j);
      }
    }
  }
}

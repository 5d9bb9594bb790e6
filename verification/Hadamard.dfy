/** Sylvester Hadamard matrices: the doubling construction, its closed form, orthogonality, and the block-by-block
    transforms from the left and from the right. */
module Hadamard {
  import opened Arithmetic
  import opened Sums
  import opened Linear
  import opened Tiles
  import opened Ldlq
  import opened Loss

  // ---------------------------------------------------------------- powers of two

  ghost predicate PowerOfTwo(n: nat)
    ensures PowerOfTwo(n) ==> n >= 1
  {
    n == 1 || (n > 1 && n % 2 == 0 && PowerOfTwo(n / 2))
  }

  /** Bitwise and. */
  function BitAnd(a: nat, b: nat): nat {
    if a == 0 then 0 else 2 * BitAnd(a / 2, b / 2) + if a % 2 == 1 && b % 2 == 1 then 1 else 0
  }

  lemma {:induction false} AndItself(n: nat)
    ensures BitAnd(n, n) == n
  {
    if n > 0 { AndItself(n / 2); }
  }

  /** The assertion n & (n - 1) == 0 accepts the powers of two and no other size. */
  lemma {:induction false} GuardIsPowerOfTwo(n: nat)
    requires n >= 1
    ensures BitAnd(n, n - 1) == 0 <==> PowerOfTwo(n)
  {
    if n % 2 == 1 {
      assert (n - 1) / 2 == n / 2;
      AndItself(n / 2);
    } else {
      assert (n - 1) / 2 == n / 2 - 1 && (n - 1) % 2 == 1;
      GuardIsPowerOfTwo(n / 2);
    }
  }

  lemma {:induction false} RoomToDouble(d: nat, n: nat)
    requires PowerOfTwo(d) && PowerOfTwo(n) && d < n
    ensures PowerOfTwo(2 * d) && 2 * d <= n
  {
    if d > 1 { RoomToDouble(d / 2, n / 2); }
    assert 2 * d / 2 == d;
  }

  // ---------------------------------------------------------------- the construction

  /** The sign at row i and column j: minus one to the number of bits that i and j share. */
  function Walsh(i: nat, j: nat): real {
    if i == 0 then 1.0
    else if i % 2 == 1 && j % 2 == 1 then -Walsh(i / 2, j / 2)
    else Walsh(i / 2, j / 2)
  }

  lemma {:induction false} WalshZero(i: nat)
    ensures Walsh(i, 0) == 1.0
  {
    if i > 0 { WalshZero(i / 2); }
  }

  lemma {:induction false} WalshSymmetric(i: nat, j: nat)
    ensures Walsh(i, j) == Walsh(j, i)
  {
    if i == 0 { WalshZero(j); }
    else if j == 0 { WalshZero(i); }
    else { WalshSymmetric(i / 2, j / 2); }
  }

  /** The quadrants: three copies of the matrix of half the size and its negative at the lower right. */
  lemma {:induction false} WalshQuadrants(d: nat, i: nat, j: nat)
    requires PowerOfTwo(d) && i < d && j < d
    ensures Walsh(d + i, j) == Walsh(i, j) && Walsh(i, d + j) == Walsh(i, j) && Walsh(d + i, d + j) == -Walsh(i, j)
    decreases d
  {
    if d > 1 {
      WalshQuadrants(d / 2, i / 2, j / 2);
      assert (d + i) / 2 == d / 2 + i / 2 && (d + j) / 2 == d / 2 + j / 2;
      assert (d + i) % 2 == i % 2 && (d + j) % 2 == j % 2;
    }
  }

  /** One doubling: the four quadrants are filled. */
  method Double(h: array2<real>) returns (s: array2<real>)
    requires h.Length0 == h.Length1 && PowerOfTwo(h.Length0)
    requires forall i, j :: 0 <= i < h.Length0 && 0 <= j < h.Length0 ==> h[i, j] == Walsh(i, j)
    ensures fresh(s) && s.Length0 == 2 * h.Length0 == s.Length1
    ensures forall i, j :: 0 <= i < s.Length0 && 0 <= j < s.Length0 ==> s[i, j] == Walsh(i, j)
  {
    hide Walsh;
    var d := h.Length0;
    s := new real[2 * d, 2 * d];
    forall i, j | 0 <= i < d && 0 <= j < d { s[i, j] := h[i, j]; }
    forall i, j | 0 <= i < d && d <= j < 2 * d { s[i, j] := h[i, j - d]; }
    forall i, j | d <= i < 2 * d && 0 <= j < d { s[i, j] := h[i - d, j]; }
    forall i, j | d <= i < 2 * d && d <= j < 2 * d { s[i, j] := -h[i - d, j - d]; }
    forall i, j | 0 <= i < 2 * d && 0 <= j < 2 * d ensures s[i, j] == Walsh(i, j) {
      var a, c := if i < d then i else i - d, if j < d then j else j - d;
      WalshQuadrants(d, a, c);
    }
  }

  /** The doubling loop. */
  method HadamardF16(n: nat) returns (h: array2<real>)
    requires PowerOfTwo(n)
    ensures fresh(h) && h.Length0 == n == h.Length1
    ensures forall i, j :: 0 <= i < n && 0 <= j < n ==> h[i, j] == Walsh(i, j)
  {
    h := new real[1, 1]((_, _) => 1.0);
    while h.Length0 < n
      invariant fresh(h) && h.Length0 == h.Length1 && PowerOfTwo(h.Length0) && h.Length0 <= n
      invariant forall i, j :: 0 <= i < h.Length0 && 0 <= j < h.Length0 ==> h[i, j] == Walsh(i, j)
      decreases n - h.Length0
    {
      var d := h.Length0;
      RoomToDouble(d, n);
      h := Double(h);
    }
  }

  // ---------------------------------------------------------------- orthogonality

  /** The Hadamard matrix with every sign times s. */
  function Signs(s: real): Matrix { (i, j) => if i < 0 || j < 0 then 0.0 else s * Walsh(i, j) }

  function WalshRow(i: nat): Vector { t => if t < 0 then 0.0 else Walsh(i, t) }

  lemma Turned(x: real, y: real, x': real, y': real, keep: bool, keep': bool)
    requires x' == (if keep then x else -x) && y' == if keep' then y else -y
    ensures x' * y' == (if keep == keep' then 1.0 else -1.0) * (x * y)
  {
  }

  lemma HalfTerm(d: nat, i: nat, j: nat, a: nat, c: nat, t: nat, sign: real)
    requires PowerOfTwo(d) && i < 2 * d && j < 2 * d && t < d
    requires a == (if i < d then i else i - d) && c == if j < d then j else j - d
    requires sign == if (i < d) == (j < d) then 1.0 else -1.0
    ensures Times(WalshRow(i), WalshRow(j))(t) == Times(WalshRow(a), WalshRow(c))(t)
    ensures Times(WalshRow(i), WalshRow(j))(d + t) == sign * Times(WalshRow(a), WalshRow(c))(t)
  {
    hide Walsh;
    WalshQuadrants(d, a, t);
    WalshQuadrants(d, c, t);
    Turned(Walsh(a, t), Walsh(c, t), Walsh(i, d + t), Walsh(j, d + t), i < d, j < d);
  }

  /** The lower half of a product of rows is the upper half, with its sign turned for rows of different halves. */
  lemma Halves(d: nat, i: nat, j: nat, a: nat, c: nat, sign: real)
    requires PowerOfTwo(d) && i < 2 * d && j < 2 * d
    requires a == (if i < d then i else i - d) && c == if j < d then j else j - d
    requires sign == if (i < d) == (j < d) then 1.0 else -1.0
    ensures Dot(2 * d, WalshRow(i), WalshRow(j))
      == Dot(d, WalshRow(a), WalshRow(c)) + sign * Dot(d, WalshRow(a), WalshRow(c))
  {
    hide Sum, Walsh, WalshRow, Times;
    var f, g := Times(WalshRow(i), WalshRow(j)), Times(WalshRow(a), WalshRow(c));
    SumSplit(0, d, 2 * d, f);
    SumShift(d, d, f);
    forall t | 0 <= t < d ensures f(t) == g(t) && f(d + t) == sign * g(t) {
      HalfTerm(d, i, j, a, c, t, sign);
    }
    SumExt(0, d, f, g);
    SumExt(0, d, t => f(d + t), t => sign * g(t));
    SumTimes(0, d, sign, g);
  }

  /** H H = n I. */
  lemma {:induction false} WalshOrthogonal(n: nat, i: nat, j: nat)
    requires PowerOfTwo(n) && i < n && j < n
    ensures Dot(n, WalshRow(i), WalshRow(j)) == if i == j then n as real else 0.0
    decreases n
  {
    if n == 1 {
      DotLast(1, WalshRow(i), WalshRow(j));
      DotNone(WalshRow(i), WalshRow(j));
    } else {
      var d := n / 2;
      var a, c := if i < d then i else i - d, if j < d then j else j - d;
      WalshOrthogonal(d, a, c);
      var same := (i < d) == (j < d);
      Halves(d, i, j, a, c, if same then 1.0 else -1.0);
    }
  }

  /** s is one over the root of n. */
  ghost predicate Norm(n: nat, s: real) { s * s * (n as real) == 1.0 }

  lemma Regroup(s: real, x: real, y: real)
    ensures (s * x) * (s * y) == (s * s) * (x * y)
  {
  }

  lemma SignTerm(s: real, i: nat, j: nat, t: nat)
    ensures Times(Row(Signs(s), i), Col(Signs(s), j))(t) == s * s * Times(WalshRow(i), WalshRow(j))(t)
  {
    hide Walsh;
    WalshSymmetric(t, j);
    Regroup(s, Walsh(i, t), Walsh(j, t));
  }

  /** Scaled by one over the root of its size the matrix is its own inverse. */
  lemma Orthonormal(n: nat, s: real, i: nat, j: nat)
    requires PowerOfTwo(n) && i < n && j < n && Norm(n, s)
    ensures Dot(n, Row(Signs(s), i), Col(Signs(s), j)) == if i == j then 1.0 else 0.0
  {
    hide Sum, Walsh, WalshRow, Times, Signs;
    var f, g := Times(Row(Signs(s), i), Col(Signs(s), j)), Times(WalshRow(i), WalshRow(j));
    var ss := s * s;
    forall t | 0 <= t < n ensures f(t) == ss * g(t) { SignTerm(s, i, j, t); }
    SumExt(0, n, f, t => ss * g(t));
    SumTimes(0, n, ss, g);
    WalshOrthogonal(n, i, j);
  }

  method ScaleAll(h: array2<real>, scale: real)
    modifies h
    ensures forall i, j :: 0 <= i < h.Length0 && 0 <= j < h.Length1 ==> h[i, j] == scale * old(h[i, j])
  {
    forall i, j | 0 <= i < h.Length0 && 0 <= j < h.Length1 { h[i, j] := scale * h[i, j]; }
  }

  /** had is the sign matrix of size d, scaled by s. */
  ghost predicate IsHadamard(had: Mat<real>, d: nat, s: real) {
    && PowerOfTwo(d) && Shape(had, d, d)
    && forall i, j :: 0 <= i < d && 0 <= j < d ==> had[i][j] == Signs(s)(i, j)
  }

  /** The scaled matrix as the transforms use it. */
  method GetHadamard(n: nat, scale: real) returns (had: Mat<real>)
    requires PowerOfTwo(n)
    ensures Shape(had, n, n) && IsHadamard(had, n, scale)
  {
    hide Walsh;
    var h := HadamardF16(n);
    ScaleAll(h, scale);
    had := seq(n, i requires 0 <= i < n reads h => seq(n, j requires 0 <= j < n reads h => h[i, j]));
    forall i, j | 0 <= i < n && 0 <= j < n ensures had[i][j] == Signs(scale)(i, j) {
      assert had[i][j] == h[i, j];
    }
  }

  // ---------------------------------------------------------------- the transforms

  /** Every block of d rows is multiplied from the left by S. */
  function Left(d: int, S: Matrix, X: Matrix): Matrix
    requires d > 0
  {
    (r, c) => Dot(d, Row(S, r % d), Shift(Col(X, c), r - r % d))
  }

  /** Every block of d columns is multiplied from the right by S. */
  function Right(d: int, S: Matrix, X: Matrix): Matrix
    requires d > 0
  {
    (r, c) => Dot(d, Shift(Row(X, r), c - c % d), Col(S, c % d))
  }

  lemma SameBlock(d: int, r: int, t: int)
    requires 0 <= t < d && r >= 0
    ensures (r - r % d + t) % d == t && 0 <= r % d < d
  {
    var q := r / d;
    assert r == d * q + r % d;
    DivMod(d, q, t);
  }

  lemma Grouping(s: real, w: real, x: real)
    ensures s * w * x == s * (w * x)
  {
  }

  /** Row i of block b after the left transform: s times the signed sum of the block's rows, with the signs of row i. */
  lemma LeftIs(d: nat, s: real, X: Matrix, b: nat, i: nat, c: int)
    requires i < d
    ensures Left(d, Signs(s), X)(d * b + i, c)
      == s * Sum(0, d, t => if t < 0 then 0.0 else Walsh(i, t) * X(d * b + t, c))
  {
    hide Sum, Walsh;
    DivMod(d, b, i);
    var f := t => if t < 0 then 0.0 else Walsh(i, t) * X(d * b + t, c);
    var g := Times(Row(Signs(s), i), Shift(Col(X, c), d * b));
    forall t | 0 <= t < d ensures g(t) == s * f(t) { Grouping(s, Walsh(i, t), X(d * b + t, c)); }
    SumExt(0, d, g, t => s * f(t));
    SumTimes(0, d, s, f);
  }

  /** Column j of block b after the right transform: s times the signed sum of the block's columns, with the signs of
      column j. */
  lemma RightIs(d: nat, s: real, X: Matrix, r: int, b: nat, j: nat)
    requires j < d
    ensures Right(d, Signs(s), X)(r, d * b + j)
      == s * Sum(0, d, t => if t < 0 then 0.0 else Walsh(t, j) * X(r, d * b + t))
  {
    hide Sum, Walsh;
    DivMod(d, b, j);
    var f := t => if t < 0 then 0.0 else Walsh(t, j) * X(r, d * b + t);
    var g := Times(Shift(Row(X, r), d * b), Col(Signs(s), j));
    forall t | 0 <= t < d ensures g(t) == s * f(t) { Grouping(s, Walsh(t, j), X(r, d * b + t)); }
    SumExt(0, d, g, t => s * f(t));
    SumTimes(0, d, s, f);
  }

  /** The sign matrix picks one entry of a vector when it meets itself. */
  lemma PickLeft(n: nat, s: real, i: nat, e: Vector)
    requires PowerOfTwo(n) && i < n && Norm(n, s)
    ensures Dot(n, VecMat(n, Row(Signs(s), i), Signs(s)), e) == e(i)
  {
    hide Sum, Walsh, Norm, PowerOfTwo;
    var v := VecMat(n, Row(Signs(s), i), Signs(s));
    forall t | 0 <= t < n ensures v(t) == if i == t then 1.0 else 0.0 { Orthonormal(n, s, i, t); }
    DotIs(n, v, e);
    SumPoint(0, n, Times(v, e), i);
  }

  lemma PickRight(n: nat, s: real, j: nat, e: Vector)
    requires PowerOfTwo(n) && j < n && Norm(n, s)
    ensures Dot(n, e, MatVec(n, Signs(s), Col(Signs(s), j))) == e(j)
  {
    hide Sum, Walsh, Norm, PowerOfTwo;
    var v := MatVec(n, Signs(s), Col(Signs(s), j));
    forall t | 0 <= t < n ensures v(t) == if t == j then 1.0 else 0.0 { Orthonormal(n, s, t, j); }
    DotIs(n, e, v);
    SumPoint(0, n, Times(e, v), j);
  }

  /** The left transform undoes itself. */
  lemma LeftTwice(d: nat, s: real, X: Matrix, r: nat, c: int)
    requires PowerOfTwo(d) && Norm(d, s)
    ensures Left(d, Signs(s), Left(d, Signs(s), X))(r, c) == X(r, c)
  {
    hide Dot, Signs, Norm, PowerOfTwo;
    var S, lo, i := Signs(s), r - r % d, r % d;
    var e := Shift(Col(X, c), lo);
    forall t | 0 <= t < d ensures Shift(Col(Left(d, S, X), c), lo)(t) == MatVec(d, S, e)(t) { SameBlock(d, r, t); }
    SameBlock(d, r, 0);
    DotExt(d, Row(S, i), Shift(Col(Left(d, S, X), c), lo), Row(S, i), MatVec(d, S, e));
    Associate(d, d, Row(S, i), S, e);
    PickLeft(d, s, i, e);
  }

  /** The right transform undoes itself. */
  lemma RightTwice(d: nat, s: real, X: Matrix, r: int, c: nat)
    requires PowerOfTwo(d) && Norm(d, s)
    ensures Right(d, Signs(s), Right(d, Signs(s), X))(r, c) == X(r, c)
  {
    hide Dot, Signs, Norm, PowerOfTwo;
    var S, lo, j := Signs(s), c - c % d, c % d;
    var e := Shift(Row(X, r), lo);
    forall t | 0 <= t < d ensures Shift(Row(Right(d, S, X), r), lo)(t) == VecMat(d, e, S)(t) { SameBlock(d, c, t); }
    SameBlock(d, c, 0);
    DotExt(d, Shift(Row(Right(d, S, X), r), lo), Col(S, j), VecMat(d, e, S), Col(S, j));
    Associate(d, d, e, S, Col(S, j));
    PickRight(d, s, j, e);
  }

  /** Where block i of size d begins. */
  function Begin(d: nat, i: nat): nat { d * i }

  lemma Begins(d: nat, i: nat)
    ensures Begin(d, 0) == 0 && Begin(d, i) == i * d
  {
  }

  lemma Ends(d: nat, k: nat)
    requires d > 0 && k % d == 0
    ensures Begin(d, k / d) == k
  {
  }

  lemma BlockInside(d: nat, i: nat, k: nat)
    requires d > 0 && k % d == 0 && i < k / d
    ensures Begin(d, i + 1) == Begin(d, i) + d <= k
  {
    Ordered(d, i + 1, k / d);
  }

  /** The product of the matrix and one block of rows. */
  function LeftBlock(had: Mat<real>, rows: Mat<real>, n: nat): (m: Mat<real>)
    requires |rows| == |had|
    ensures Shape(m, |rows|, n)
  {
    seq(|rows|, t requires 0 <= t < |rows| =>
      seq(n, c requires 0 <= c < n => Dot(|had|, Row(AsMatrix(had), t), Col(AsMatrix(rows), c))))
  }

  /** Rows from lo on are still X, rows above are transformed. */
  ghost predicate LeftUpTo(x: Mat<real>, X: Mat<real>, n: nat, d: nat, s: real, lo: int) {
    && d > 0 && Shape(x, |X|, n) && Shape(X, |X|, n)
    && (forall r :: 0 <= lo <= r < |X| ==> x[r] == X[r])
    && (forall r, c :: 0 <= r < lo && r < |X| && 0 <= c < n ==> x[r][c] == Left(d, Signs(s), AsMatrix(X))(r, c))
  }

  lemma LeftNone(X: Mat<real>, n: nat, d: nat, s: real)
    requires Shape(X, |X|, n) && PowerOfTwo(d)
    ensures LeftUpTo(X, X, n, d, s, 0)
  {
  }

  lemma LeftBlockIs(had: Mat<real>, X: Mat<real>, n: nat, d: nat, s: real, i: nat, t: nat, c: nat)
    requires IsHadamard(had, d, s) && Shape(X, |X|, n) && Begin(d, i) + d <= |X| && t < d && c < n
    ensures LeftBlock(had, X[Begin(d, i)..Begin(d, i) + d], n)[t][c]
      == Left(d, Signs(s), AsMatrix(X))(Begin(d, i) + t, c)
  {
    hide Dot, Signs;
    var lo := Begin(d, i);
    var rows := X[lo..lo + d];
    DivMod(d, i, t);
    DotExt(d, Row(AsMatrix(had), t), Col(AsMatrix(rows), c), Row(Signs(s), t), Shift(Col(AsMatrix(X), c), lo));
  }

  lemma LeftStep(had: Mat<real>, X: Mat<real>, Y: Mat<real>, n: nat, d: nat, s: real, i: nat)
    requires IsHadamard(had, d, s) && Begin(d, i) + d <= |X| && LeftUpTo(Y, X, n, d, s, Begin(d, i))
    ensures |Y| == |X|
    ensures var lo := Begin(d, i); LeftUpTo(Splice(Y, lo, LeftBlock(had, Y[lo..lo + d], n)), X, n, d, s, lo + d)
  {
    hide Left, LeftBlock, Begin, Signs;
    var lo := Begin(d, i);
    assert Y[lo..lo + d] == X[lo..lo + d];
    var Z := Splice(Y, lo, LeftBlock(had, Y[lo..lo + d], n));
    forall r, c | lo <= r < lo + d && 0 <= c < n ensures Z[r][c] == Left(d, Signs(s), AsMatrix(X))(r, c) {
      LeftBlockIs(had, X, n, d, s, i, r - lo, c);
    }
  }

  /** The in-place transform from the left, a block of rows after the other. */
  method BlockwisePreapplyHadL(x: array<seq<real>>, n: nat, d: nat, s: real)
    requires PowerOfTwo(d) && x.Length % d == 0 && Shape(x[..], x.Length, n)
    modifies x
    ensures LeftUpTo(x[..], old(x[..]), n, d, s, x.Length)
  {
    hide Left, LeftBlock, Signs, Begin, PowerOfTwo, LeftUpTo;
    var had := GetHadamard(d, s);
    ghost var X := x[..];
    assert LeftUpTo(X, X, n, d, s, 0) by { LeftNone(X, n, d, s); }
    Begins(d, 0);
    for i := 0 to x.Length / d
      invariant LeftUpTo(x[..], X, n, d, s, Begin(d, i))
    {
      BlockInside(d, i, x.Length);
      Begins(d, i);
      var lo := i * d;
      ghost var Y := x[..];
      LeftStep(had, X, Y, n, d, s, i);
      var block := LeftBlock(had, x[lo..lo + d], n);
      assert Y[lo..lo + d] == x[lo..lo + d];
      Store(x, lo, block);
    }
    Ends(d, x.Length);
  }

  /** One row with a block of columns multiplied from the right. */
  function RightRow(had: Mat<real>, row: seq<real>, lo: int): (m: seq<real>)
    requires 0 <= lo && lo + |had| <= |row|
    ensures |m| == |row|
  {
    seq(|row|, c requires 0 <= c < |row| =>
      if lo <= c < lo + |had| then Dot(|had|, Shift(AsVector(row), lo), Col(AsMatrix(had), c - lo)) else row[c])
  }

  /** Columns from lo on are still X, columns before are transformed. */
  ghost predicate RightUpTo(x: Mat<real>, X: Mat<real>, n: nat, d: nat, s: real, lo: int) {
    && d > 0 && Shape(x, |X|, n) && Shape(X, |X|, n)
    && (forall r, c :: 0 <= r < |X| && 0 <= lo <= c < n ==> x[r][c] == X[r][c])
    && (forall r, c :: 0 <= r < |X| && 0 <= c < lo && c < n ==> x[r][c] == Right(d, Signs(s), AsMatrix(X))(r, c))
  }

  lemma RightNone(X: Mat<real>, n: nat, d: nat, s: real)
    requires Shape(X, |X|, n) && PowerOfTwo(d)
    ensures RightUpTo(X, X, n, d, s, 0)
  {
  }

  lemma RightRowIs(had: Mat<real>, X: Mat<real>, row: seq<real>, n: nat, d: nat, s: real, r: nat, i: nat, t: nat)
    requires IsHadamard(had, d, s) && Shape(X, |X|, n) && |row| == n && Begin(d, i) + d <= n && t < d && r < |X|
    requires forall c :: Begin(d, i) <= c < n ==> row[c] == X[r][c]
    ensures RightRow(had, row, Begin(d, i))[Begin(d, i) + t] == Right(d, Signs(s), AsMatrix(X))(r, Begin(d, i) + t)
  {
    hide Dot, Signs;
    var lo := Begin(d, i);
    DivMod(d, i, t);
    DotExt(d, Shift(AsVector(row), lo), Col(AsMatrix(had), t), Shift(Row(AsMatrix(X), r), lo), Col(Signs(s), t));
  }

  lemma RightStep(had: Mat<real>, X: Mat<real>, Y: Mat<real>, Z: Mat<real>, n: nat, d: nat, s: real, i: nat)
    requires IsHadamard(had, d, s) && Begin(d, i) + d <= n && RightUpTo(Y, X, n, d, s, Begin(d, i)) && |Z| == |X|
    requires |Y| == |X| && forall r :: 0 <= r < |X| ==> |Y[r]| == n && Z[r] == RightRow(had, Y[r], Begin(d, i))
    ensures RightUpTo(Z, X, n, d, s, Begin(d, i) + d)
  {
    hide Right, Signs, Dot, Begin;
    var lo := Begin(d, i);
    forall r, c | 0 <= r < |X| && lo <= c < lo + d ensures Z[r][c] == Right(d, Signs(s), AsMatrix(X))(r, c) {
      RightRowIs(had, X, Y[r], n, d, s, r, i, c - lo);
    }
  }

  /** One block of columns in every row. */
  method RightBlock(x: array<seq<real>>, n: nat, had: Mat<real>, lo: nat)
    requires Shape(x[..], x.Length, n) && lo + |had| <= n
    modifies x
    ensures Shape(x[..], x.Length, n)
    ensures forall r :: 0 <= r < x.Length ==> |old(x[r])| == n && x[r] == RightRow(had, old(x[r]), lo)
  {
    hide RightRow;
    forall r | 0 <= r < x.Length ensures |x[r]| == n { assert x[r] == x[..][r]; }
    forall r | 0 <= r < x.Length { x[r] := RightRow(had, x[r], lo); }
  }

  /** The in-place transform from the right, a block of columns after the other. */
  method BlockwisePreapplyHadR(x: array<seq<real>>, n: nat, d: nat, s: real)
    requires PowerOfTwo(d) && n % d == 0 && Shape(x[..], x.Length, n)
    modifies x
    ensures RightUpTo(x[..], old(x[..]), n, d, s, n)
  {
    hide Right, RightRow, Signs, Begin, PowerOfTwo, RightUpTo;
    var had := GetHadamard(d, s);
    ghost var X := x[..];
    assert RightUpTo(X, X, n, d, s, 0) by { RightNone(X, n, d, s); }
    Begins(d, 0);
    for i := 0 to n / d
      invariant Shape(x[..], x.Length, n) && RightUpTo(x[..], X, n, d, s, Begin(d, i))
    {
      BlockInside(d, i, n);
      Begins(d, i);
      ghost var Y := x[..];
      RightBlock(x, n, had, i * d);
      RightStep(had, X, Y, x[..], n, d, s, i);
    }
    Ends(d, n);
  }
}

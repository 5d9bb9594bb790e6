/** Regularization of a weight before quantization, over exact reals, and the decoding that undoes it. */
module Regularize {
  import opened Arithmetic
  import opened Descending
  import opened Feedback
  import opened Options
  import opened Sums
  import opened Linear
  import opened Tiles
  import opened Loss
  import opened Hadamard

  const HAD: nat := 128
  const BLOCK: nat := 32
  const TINY: real := 1e-30
  const FILL: real := 0.1
  const NUDGE: real := 1e-10
  const CODEBOOK_SCALE: real := 1.24371088
  const SKEW: real := 0.15

  datatype OutScales = Auto | Always | Never

  // ---------------------------------------------------------------- whether output channels are scaled

  function Roots(sqrt: real -> real, diag: seq<real>): (v: seq<real>)
    ensures |v| == |diag|
  {
    seq(|diag|, i requires 0 <= i < |diag| => sqrt(diag[i]))
  }

  /** The largest fiftieth of the diagonal's roots is less than 15% of their sum; nothing is when they add up to
      zero. */
  predicate Smooth(sqrt: real -> real, diag: seq<real>) {
    var v := SortDown(Roots(sqrt, diag));
    var total := Sum(0, |v|, AsVector(v));
    total != 0.0 && Sum(0, |v| / 50, AsVector(v)) / total < SKEW
  }

  /** The decision; diag is the diagonal of a calibrated Hessian. */
  function Decide(force: OutScales, sqrt: real -> real, diag: Option<seq<real>>, fallback: bool, zeros: bool): OutScales
  {
    if zeros && force != Auto then Always
    else if fallback then force
    else if diag.Some? && force == Auto then (if Smooth(sqrt, diag.value) then Always else Never)
    else if force == Auto then Always
    else force
  }

  /** Without a setting of its own a calibrated weight that is not all zero is scaled exactly if its diagonal is
      smooth, in whatever order the diagonal is sorted out. */
  lemma DecidedBySkew(sqrt: real -> real, diag: seq<real>, sorted: seq<real>)
    requires Falling(sorted) && multiset(sorted) == multiset(Roots(sqrt, diag))
    ensures Decide(Auto, sqrt, Some(diag), false, false) ==
            var total := Sum(0, |sorted|, AsVector(sorted));
            if total != 0.0 && Sum(0, |sorted| / 50, AsVector(sorted)) / total < SKEW then Always else Never
  {
    SortDownFalls(Roots(sqrt, diag));
    FallingUnique(sorted, SortDown(Roots(sqrt, diag)));
  }

  /** The decision in every case: a weight that is all zero is scaled wherever there is a setting, and without one in
      the fallback nothing is decided; elsewhere a setting is obeyed, and without one the diagonal decides if there is
      one. */
  lemma Decisions(force: OutScales, sqrt: real -> real, diag: Option<seq<real>>, fallback: bool, zeros: bool)
    ensures var o := Decide(force, sqrt, diag, fallback, zeros);
            && (zeros && (force == Always || force == Never) ==> o == Always)
            && (!zeros && (force == Always || force == Never) ==> o == force)
            && (force == Auto && fallback ==> o == Auto)
            && (force == Auto && !fallback && diag.None? ==> o == Always)
            && (force == Auto && !fallback && diag.Some? ==>
                  (o == Always || o == Never)
                  && (o == Always <==>
                      var v := SortDown(seq(|diag.value|, i requires 0 <= i < |diag.value| => sqrt(diag.value[i])));
                      Sum(0, |v|, AsVector(v)) != 0.0
                      && Sum(0, |v| / 50, AsVector(v)) / Sum(0, |v|, AsVector(v)) < 0.15))
  {
    hide Sum, SortDown;
    if diag.Some? {
      assert Roots(sqrt, diag.value) == seq(|diag.value|, i requires 0 <= i < |diag.value| => sqrt(diag.value[i]));
    }
  }

  // ---------------------------------------------------------------- scales

  function Rms(sqrt: real -> real, len: nat, v: Vector): real
    requires len > 0
  {
    sqrt(Dot(len, v, v) / (len as real))
  }

  function RmsAll(sqrt: real -> real, count: nat, len: nat, M: Matrix): (x: seq<real>)
    requires len > 0
    ensures |x| == count
  {
    seq(count, i requires 0 <= i < count => Rms(sqrt, len, Row(M, i)))
  }

  /** Root mean square of every row, its squares summed in blocks. */
  method BlockRms(sqrt: real -> real, count: nat, len: nat, M: Matrix) returns (x: seq<real>)
    requires len > 0
    ensures x == RmsAll(sqrt, count, len, M)
  {
    x := [];
    for i := 0 to count
      invariant |x| == i && forall y :: 0 <= y < i ==> x[y] == Rms(sqrt, len, Row(M, y))
    {
      var sq, at := 0.0, 0;
      while at < len
        invariant 0 <= at <= len && sq == Sum(0, at, Times(Row(M, i), Row(M, i)))
      {
        var end := if at + BLOCK < len then at + BLOCK else len;
        SumSplit(0, at, end, Times(Row(M, i), Row(M, i)));
        sq, at := sq + Sum(at, end, Times(Row(M, i), Row(M, i))), end;
      }
      DotIs(len, Row(M, i), Row(M, i));
      x := x + [sqrt(sq / (len as real))];
    }
  }

  function Relative(x: seq<real>): (y: seq<real>)
    requires x != []
    ensures |y| == |x|
  {
    var mean := Mean(x);
    if mean > TINY then seq(|x|, i requires 0 <= i < |x| => x[i] / mean) else x
  }

  predicate Vanishes(x: real) { -TINY < x < TINY }

  function Filled(x: real): real { if Vanishes(x) then FILL else x }

  /** Division where the divisor is not zero. */
  function Over(x: real, y: real): real { if y == 0.0 then 0.0 else x / y }

  function OverColumns(X: Matrix, v: Vector): Matrix { (r, c) => Over(X(r, c), v(c)) }

  function OverRows(X: Matrix, v: Vector): Matrix { (r, c) => Over(X(r, c), v(r)) }

  function TimesColumns(X: Matrix, v: Vector): Matrix { (r, c) => X(r, c) * v(c) }

  function TimesRows(X: Matrix, v: Vector): Matrix { (r, c) => X(r, c) * v(r) }

  function Multiple(g: real, X: Matrix): Matrix { (r, c) => X(r, c) * g }

  // ---------------------------------------------------------------- what regularization gives

  datatype Input = Input(W: Mat<real>, n: nat, su: seq<real>, sv: seq<real>, apply: bool, sqrt: real -> real, s: real) {
    const k := |W|
  }

  ghost predicate Whole(p: Input) {
    && Shape(p.W, p.k, p.n) && p.k > 0 && p.n > 0 && p.k % HAD == 0 && p.n % HAD == 0
    && |p.su| == p.k && |p.sv| == p.n && Norm(HAD, p.s)
  }

  /** The scale of every output channel relative to their mean. */
  function OutScale(p: Input): (x: seq<real>)
    requires Whole(p)
    ensures |x| == p.n
  {
    Relative(RmsAll(p.sqrt, p.n, p.k, Transpose(AsMatrix(p.W))))
  }

  /** The mean column scale is too small to divide by. */
  predicate AllTiny(p: Input)
    requires Whole(p)
  {
    !(Mean(RmsAll(p.sqrt, p.n, p.k, Transpose(AsMatrix(p.W)))) > TINY)
  }

  /** What a column is divided by. */
  function Divisor(p: Input): (x: seq<real>)
    requires Whole(p)
    ensures |x| == p.n
  {
    var scale := OutScale(p);
    if p.apply then seq(p.n, c requires 0 <= c < p.n => p.sv[c] * Filled(scale[c]) + NUDGE) else p.sv
  }

  /** What the decoder multiplies a column with. */
  function SvOut(p: Input): (x: seq<real>)
    requires Whole(p)
    ensures |x| == p.n
  {
    seq(p.n, c requires 0 <= c < p.n => if Vanishes(OutScale(p)[c]) then 0.0 else Divisor(p)[c])
  }

  /** The weight after the output side. */
  function Rotated(p: Input): Matrix
    requires Whole(p)
  {
    Right(HAD, Signs(p.s), OverColumns(AsMatrix(p.W), AsVector(Divisor(p))))
  }

  /** What a row is divided by, and what the decoder multiplies it with up to the global scale. */
  function SuOut(p: Input): (x: seq<real>)
    requires Whole(p)
    ensures |x| == p.k
  {
    var scale := RmsAll(p.sqrt, p.k, p.n, Rotated(p));
    seq(p.k, r requires 0 <= r < p.k => p.su[r] * Filled(scale[r]) / -CODEBOOK_SCALE + NUDGE)
  }

  /** The regularized weight before the global scale. */
  function WeightOut(p: Input): Matrix
    requires Whole(p)
  {
    Left(HAD, Signs(p.s), OverRows(Rotated(p), AsVector(SuOut(p))))
  }

  /** No divisor is zero; otherwise the code divides by zero and goes on with infinities. */
  ghost predicate Finite(p: Input)
    requires Whole(p)
  {
    && (forall c :: 0 <= c < p.n ==> Divisor(p)[c] != 0.0)
    && (forall r :: 0 <= r < p.k ==> SuOut(p)[r] != 0.0)
  }

  // ---------------------------------------------------------------- the in-place routine

  /** Matrices that agree on k rows and n columns. */
  ghost predicate Agree(k: nat, n: nat, X: Matrix, Y: Matrix) {
    forall r, c :: 0 <= r < k && 0 <= c < n ==> X(r, c) == Y(r, c)
  }

  /** Divides every column of every row. */
  method DivideColumns(x: array<seq<real>>, n: nat, v: seq<real>)
    requires Shape(x[..], x.Length, n) && |v| == n
    modifies x
    ensures Shape(x[..], x.Length, n)
    ensures Agree(x.Length, n, AsMatrix(x[..]), OverColumns(AsMatrix(old(x[..])), AsVector(v)))
  {
    forall r | 0 <= r < x.Length ensures |x[r]| == n { assert x[r] == x[..][r]; }
    forall r | 0 <= r < x.Length {
      x[r] := seq(n, c requires 0 <= c < n && |x[r]| == n reads x => Over(x[r][c], v[c]));
    }
  }

  method DivideRows(x: array<seq<real>>, n: nat, v: seq<real>)
    requires Shape(x[..], x.Length, n) && |v| == x.Length
    modifies x
    ensures Shape(x[..], x.Length, n)
    ensures Agree(x.Length, n, AsMatrix(x[..]), OverRows(AsMatrix(old(x[..])), AsVector(v)))
  {
    forall r | 0 <= r < x.Length ensures |x[r]| == n { assert x[r] == x[..][r]; }
    forall r | 0 <= r < x.Length {
      x[r] := seq(n, c requires 0 <= c < n && |x[r]| == n reads x => Over(x[r][c], v[r]));
    }
  }

  lemma RmsAgrees(sqrt: real -> real, k: nat, n: nat, X: Matrix, Y: Matrix)
    requires n > 0 && Agree(k, n, X, Y)
    ensures RmsAll(sqrt, k, n, X) == RmsAll(sqrt, k, n, Y)
  {
    hide Dot;
    forall r | 0 <= r < k ensures Rms(sqrt, n, Row(X, r)) == Rms(sqrt, n, Row(Y, r)) {
      DotExt(n, Row(X, r), Row(X, r), Row(Y, r), Row(Y, r));
    }
  }

  lemma OverRowsAgrees(k: nat, n: nat, X: Matrix, Y: Matrix, v: Vector)
    requires Agree(k, n, X, Y)
    ensures Agree(k, n, OverRows(X, v), OverRows(Y, v))
  {
  }

  lemma HadIsPower()
    ensures PowerOfTwo(HAD)
  {
    assert PowerOfTwo(4) && PowerOfTwo(8) && PowerOfTwo(16) && PowerOfTwo(32) && PowerOfTwo(64);
  }

  lemma InBlock(d: nat, k: nat, r: nat, t: nat)
    requires d > 0 && k % d == 0 && r < k && t < d
    ensures 0 <= r - r % d + t < k
  {
    var q, m := r / d, k / d;
    assert r == d * q + r % d && k == d * m;
    if q >= m { Ordered(d, m, q); }
    Ordered(d, q + 1, m);
  }

  lemma LeftAgrees(d: nat, S: Matrix, k: nat, n: nat, X: Matrix, Y: Matrix)
    requires d > 0 && k % d == 0 && Agree(k, n, X, Y)
    ensures Agree(k, n, Left(d, S, X), Left(d, S, Y))
  {
    hide Dot;
    forall r, c | 0 <= r < k && 0 <= c < n ensures Left(d, S, X)(r, c) == Left(d, S, Y)(r, c) {
      var v, lo := Row(S, r % d), r - r % d;
      forall t | 0 <= t < d ensures Shift(Col(X, c), lo)(t) == Shift(Col(Y, c), lo)(t) { InBlock(d, k, r, t); }
      DotExt(d, v, Shift(Col(X, c), lo), v, Shift(Col(Y, c), lo));
    }
  }

  lemma RightAgrees(d: nat, S: Matrix, k: nat, n: nat, X: Matrix, Y: Matrix)
    requires d > 0 && n % d == 0 && Agree(k, n, X, Y)
    ensures Agree(k, n, Right(d, S, X), Right(d, S, Y))
  {
    hide Dot;
    forall r, c | 0 <= r < k && 0 <= c < n ensures Right(d, S, X)(r, c) == Right(d, S, Y)(r, c) {
      var v, lo := Col(S, c % d), c - c % d;
      forall t | 0 <= t < d ensures Shift(Row(X, r), lo)(t) == Shift(Row(Y, r), lo)(t) { InBlock(d, n, c, t); }
      DotExt(d, Shift(Row(X, r), lo), v, Shift(Row(Y, r), lo), v);
    }
  }

  /** The right transform, the row scales and the left transform. */
  method RegularizeRows(weight: array<seq<real>>, n: nat, su: array<real>, sqrt: real -> real, s: real, ghost p: Input)
      returns (su': array<real>)
    requires Whole(p) && p.n == n && p.su == su[..] && p.sqrt == sqrt && p.s == s && p.k == weight.Length
    requires Shape(weight[..], p.k, n)
    requires Agree(p.k, n, AsMatrix(weight[..]), OverColumns(AsMatrix(p.W), AsVector(Divisor(p))))
    modifies weight
    ensures Shape(weight[..], p.k, n) && Agree(p.k, n, AsMatrix(weight[..]), WeightOut(p))
    ensures fresh(su') && su'[..] == SuOut(p)
  {
    hide Left, Right, Norm, RmsAll, Signs, Divisor, OverColumns, OverRows;
    var k := weight.Length;
    HadIsPower();
    ghost var S, A := Signs(s), AsMatrix(weight[..]);
    BlockwisePreapplyHadR(weight, n, HAD, s);
    RightAgrees(HAD, S, k, n, A, OverColumns(AsMatrix(p.W), AsVector(Divisor(p))));
    ghost var B := AsMatrix(weight[..]);
    assert Agree(k, n, B, Rotated(p));
    var scale := BlockRms(sqrt, k, n, AsMatrix(weight[..]));
    RmsAgrees(sqrt, k, n, B, Rotated(p));
    var signs := su[..];
    su' :=
      new real[k](r requires 0 <= r < k == |signs| == |scale| => signs[r] * Filled(scale[r]) / -CODEBOOK_SCALE + NUDGE);
    assert su'[..] == SuOut(p);
    assert WeightOut(p) == Left(HAD, S, OverRows(Rotated(p), AsVector(su'[..])));
    DivideRows(weight, n, su'[..]);
    OverRowsAgrees(k, n, B, Rotated(p), AsVector(su'[..]));
    ghost var C := AsMatrix(weight[..]);
    BlockwisePreapplyHadL(weight, n, HAD, s);
    assert Agree(k, n, AsMatrix(weight[..]), Left(HAD, S, C));
    LeftAgrees(HAD, S, k, n, C, OverRows(Rotated(p), AsVector(su'[..])));
  }

  lemma OutputSide(p: Input, scale: seq<real>)
    requires Whole(p) && scale == Relative(RmsAll(p.sqrt, p.n, p.k, Transpose(AsMatrix(p.W))))
    ensures |scale| == |Divisor(p)| == |SvOut(p)| == p.n
    ensures p.apply ==> forall c :: 0 <= c < p.n ==> Divisor(p)[c] == p.sv[c] * Filled(scale[c]) + NUDGE
    ensures !p.apply ==> Divisor(p) == p.sv
    ensures forall c :: 0 <= c < p.n ==> SvOut(p)[c] == if Vanishes(scale[c]) then 0.0 else Divisor(p)[c]
  {
    hide Mean, Norm, RmsAll;
  }

  /** The column divisors: a new array where the output channels are scaled, and the column signs themselves
      elsewhere. */
  method DivideBy(sv: array<real>, scale: seq<real>, applied: bool) returns (sv': array<real>)
    requires |scale| == sv.Length
    ensures if applied then fresh(sv') else sv' == sv
    ensures sv'.Length == sv.Length
    ensures forall c :: 0 <= c < sv.Length ==> sv'[c] == if applied then sv[c] * Filled(scale[c]) + NUDGE else sv[c]
  {
    sv' := sv;
    if applied {
      sv' := new real[sv.Length](c requires 0 <= c < sv.Length reads sv => sv[c] * Filled(scale[c]) + NUDGE);
    }
  }

  /** The routine up to the scale search. The row signs, which slices share, are only read and the result is a new
      array; the column signs are the slice's own and are cleared in place where they are not replaced. */
  method RegularizePre(weight: array<seq<real>>, n: nat, su: array<real>, sv: array<real>, force: OutScales,
                       diag: Option<seq<real>>, fallback: bool, sqrt: real -> real, s: real, ghost p: Input)
      returns (applied: OutScales, su': array<real>, sv': array<real>)
    requires p == Input(weight[..], n, su[..], sv[..], p.apply, sqrt, s) && Whole(p) && su != sv
    requires p.apply <==> Decide(force, sqrt, diag, fallback, AllTiny(p)).Always?
    modifies weight, sv
    ensures applied == Decide(force, sqrt, diag, fallback, AllTiny(p))
    ensures su[..] == old(su[..]) && fresh(su')
    ensures if applied.Always? then fresh(sv') && sv[..] == old(sv[..]) else sv' == sv
    ensures sv' != su' && sv'[..] == SvOut(p)
    ensures Finite(p) ==> su'[..] == SuOut(p)
    ensures Finite(p) ==> Shape(weight[..], p.k, n) && Agree(p.k, n, AsMatrix(weight[..]), WeightOut(p))
  {
    hide Left, Right, Mean, Norm, RmsAll, Signs, Decide, Finite, Divisor, SvOut, SuOut, WeightOut, OverColumns,
      OutScale;
    var k := weight.Length;
    HadIsPower();
    var scale := BlockRms(sqrt, n, k, Transpose(AsMatrix(weight[..])));
    var mean := Mean(scale);
    applied := Decide(force, sqrt, diag, fallback, !(mean > TINY));
    scale := Relative(scale);
    OutputSide(p, scale);
    sv' := DivideBy(sv, scale, applied.Always?);
    assert forall c :: 0 <= c < n ==> sv'[c] == Divisor(p)[c];
    assert sv'[..] == Divisor(p);
    DivideColumns(weight, n, sv'[..]);
    forall c | 0 <= c < n && Vanishes(scale[c]) { sv'[c] := 0.0; }
    assert sv'[..] == SvOut(p);
    su' := RegularizeRows(weight, n, su, sqrt, s, p);
  }

  // ---------------------------------------------------------------- the round trip

  /** Decoding: left transform, row scales, right transform, column scales. */
  function Decoded(s: real, X: Matrix, su: Vector, sv: Vector): Matrix {
    TimesColumns(Right(HAD, Signs(s), TimesRows(Left(HAD, Signs(s), X), su)), sv)
  }

  /** No scale is zero. */
  ghost predicate Scalable(p: Input, g: real)
    requires Whole(p)
  {
    g != 0.0 && Finite(p)
  }

  lemma Carry(x: real, y: real, g: real)
    ensures x * (y * g) == g * (x * y)
  {
  }

  /** The left transform of a multiple. */
  lemma LeftMultiple(d: nat, S: Matrix, g: real, X: Matrix, r: int, c: int)
    requires d > 0
    ensures Left(d, S, Multiple(g, X))(r, c) == g * Left(d, S, X)(r, c)
  {
    hide Sum;
    var v, e := Row(S, r % d), Shift(Col(X, c), r - r % d);
    var e' := Shift(Col(Multiple(g, X), c), r - r % d);
    forall t ensures Times(v, e')(t) == g * Times(v, e)(t) { Carry(v(t), e(t), g); }
    SumExt(0, d, Times(v, e'), t => g * Times(v, e)(t));
    SumTimes(0, d, g, Times(v, e));
  }

  lemma Cancel(b: real, u: real, g: real)
    requires u != 0.0 && g != 0.0
    ensures g * Over(b, u) * (u / g) == b
  {
    var q := b / u;
    assert q * u == b;
    var w := u / g;
    assert w * g == u;
    assert g * q * w == q * (w * g);
  }

  /** The rows come back: left transform and row scales undo the input side, whatever the global scale. */
  lemma RowsBack(p: Input, g: real, r: nat, c: nat)
    requires Whole(p) && Scalable(p, g) && r < p.k && c < p.n
    ensures TimesRows(Left(HAD, Signs(p.s), Multiple(g, WeightOut(p))), u => AsVector(SuOut(p))(u) / g)(r, c)
      == Rotated(p)(r, c)
  {
    hide Left, Rotated, SuOut, Signs, PowerOfTwo, Norm;
    HadIsPower();
    var C := OverRows(Rotated(p), AsVector(SuOut(p)));
    LeftMultiple(HAD, Signs(p.s), g, WeightOut(p), r, c);
    LeftTwice(HAD, p.s, C, r, c);
    Cancel(Rotated(p)(r, c), SuOut(p)[r], g);
  }

  lemma Undo(x: real, v: real)
    requires v != 0.0
    ensures Over(x, v) * v == x && Over(x, v) * 0.0 == 0.0
  {
  }

  lemma RotatedBack(p: Input, r: nat, c: nat)
    requires Whole(p)
    ensures Right(HAD, Signs(p.s), Rotated(p))(r, c) == OverColumns(AsMatrix(p.W), AsVector(Divisor(p)))(r, c)
  {
    hide Right, Signs, PowerOfTwo, Norm, Divisor;
    HadIsPower();
    RightTwice(HAD, p.s, OverColumns(AsMatrix(p.W), AsVector(Divisor(p))), r, c);
  }

  /** What comes back: a column whose scale vanished comes back as zero, every other column as it was. */
  lemma RoundTrip(p: Input, g: real, r: nat, c: nat)
    requires Whole(p) && Scalable(p, g) && r < p.k && c < p.n
    ensures Decoded(p.s, Multiple(g, WeightOut(p)), u => AsVector(SuOut(p))(u) / g, AsVector(SvOut(p)))(r, c)
         == if Vanishes(OutScale(p)[c]) then 0.0 else p.W[r][c]
  {
    hide Left, Right, WeightOut, SuOut, Signs, OutScale, Divisor, PowerOfTwo, Norm, Rotated;
    HadIsPower();
    var A := OverColumns(AsMatrix(p.W), AsVector(Divisor(p)));
    var rows := TimesRows(Left(HAD, Signs(p.s), Multiple(g, WeightOut(p))), u => AsVector(SuOut(p))(u) / g);
    forall x, y | 0 <= x < p.k && 0 <= y < p.n ensures rows(x, y) == Rotated(p)(x, y) { RowsBack(p, g, x, y); }
    RightAgrees(HAD, Signs(p.s), p.k, p.n, rows, Rotated(p));
    assert Right(HAD, Signs(p.s), Rotated(p))(r, c) == A(r, c) by { RotatedBack(p, r, c); }
    var v := Divisor(p)[c];
    assert AsVector(Divisor(p))(c) == v && AsMatrix(p.W)(r, c) == p.W[r][c] by { assert 0 <= c < |p.W[r]|; }
    Undo(p.W[r][c], v);
  }

  /** The whole weight comes back if and only if every column whose scale vanished is exactly zero. */
  lemma RecoversIff(p: Input, g: real)
    requires Whole(p) && Scalable(p, g)
    ensures Agree(p.k, p.n, Decoded(p.s, Multiple(g, WeightOut(p)), u => AsVector(SuOut(p))(u) / g, AsVector(SvOut(p))),
      AsMatrix(p.W))
       <==> forall r, c :: 0 <= r < p.k && 0 <= c < p.n && Vanishes(OutScale(p)[c]) ==> p.W[r][c] == 0.0
  {
    hide Decoded, WeightOut, SuOut, SvOut, OutScale, Multiple, Vanishes;
    var X := Decoded(p.s, Multiple(g, WeightOut(p)), u => AsVector(SuOut(p))(u) / g, AsVector(SvOut(p)));
    forall r, c | 0 <= r < p.k && 0 <= c < p.n
      ensures X(r, c) == if Vanishes(OutScale(p)[c]) then 0.0 else p.W[r][c]
    {
      RoundTrip(p, g, r, c);
    }
    forall r, c | 0 <= r < p.k && 0 <= c < p.n
      ensures X(r, c) == AsMatrix(p.W)(r, c) <==> (Vanishes(OutScale(p)[c]) ==> p.W[r][c] == 0.0)
    {
    }
  }

  // ---------------------------------------------------------------- which columns are lost

  ghost predicate Root(sqrt: real -> real) {
    forall x :: 0.0 <= x ==> 0.0 <= sqrt(x) && sqrt(x) * sqrt(x) == x
  }

  /** The sum of squares of column c. */
  function Energy(p: Input, c: nat): real
    requires Whole(p)
  {
    Dot(p.k, Column(p.W, c), Column(p.W, c))
  }

  /** What the column scales are relative to. */
  function Unit(p: Input): (m: real)
    requires Whole(p)
    ensures m > 0.0
  {
    var mean := Mean(RmsAll(p.sqrt, p.n, p.k, Transpose(AsMatrix(p.W))));
    if mean > TINY then mean else 1.0
  }

  lemma SquaresLess(x: real, y: real)
    requires 0.0 <= x && 0.0 < y
    ensures x < y <==> x * x < y * y
  {
    var d, t := y - x, y + x;
    assert y * y - x * x == d * t;
    if d > 0.0 { assert d * t > 0.0; } else { assert d * t <= 0.0; }
  }

  lemma QuotientBelow(e: real, k: real, b: real)
    requires k > 0.0
    ensures e / k < b <==> e < b * k
  {
    var q := e / k;
    assert q * k == e;
    if q < b { assert q * k < b * k; } else { assert q * k >= b * k; }
  }

  lemma BelowIff(root: real, q: real, t: real, m: real)
    requires 0.0 <= root && root * root == q && t > 0.0 && m > 0.0
    ensures root / m < t <==> q < t * m * (t * m)
  {
    QuotientBelow(root, m, t);
    SquaresLess(root, t * m);
  }

  /** A column's scale vanishes exactly if its energy is below the threshold. */
  lemma VanishesIff(p: Input, c: nat)
    requires Whole(p) && Root(p.sqrt) && c < p.n
    ensures Vanishes(OutScale(p)[c]) <==> Energy(p, c) < TINY * Unit(p) * (TINY * Unit(p)) * (p.k as real)
  {
    hide Dot, Mean;
    var all := RmsAll(p.sqrt, p.n, p.k, Transpose(AsMatrix(p.W)));
    var e, k, m := Energy(p, c), p.k as real, Unit(p);
    DotExt(p.k, Row(Transpose(AsMatrix(p.W)), c), Row(Transpose(AsMatrix(p.W)), c), Column(p.W, c), Column(p.W, c));
    SquaresNonneg(p.k, Column(p.W, c));
    assert all[c] == p.sqrt(e / k);
    assert e / k >= 0.0;
    assert OutScale(p)[c] == all[c] / m;
    assert all[c] / m >= 0.0;
    BelowIff(all[c], e / k, TINY, m);
    QuotientBelow(e, k, TINY * m * (TINY * m));
  }

  /** The weight comes back if and only if every column is exactly zero or has energy from the threshold on. */
  lemma RecoversExactly(p: Input, g: real)
    requires Whole(p) && Scalable(p, g) && Root(p.sqrt)
    ensures Agree(p.k, p.n, Decoded(p.s, Multiple(g, WeightOut(p)), u => AsVector(SuOut(p))(u) / g, AsVector(SvOut(p))),
      AsMatrix(p.W))
       <==> forall c :: 0 <= c < p.n ==>
              (forall r :: 0 <= r < p.k ==> p.W[r][c] == 0.0)
              || Energy(p, c) >= TINY * Unit(p) * (TINY * Unit(p)) * (p.k as real)
  {
    hide Decoded, WeightOut, SuOut, SvOut, OutScale, Multiple, Vanishes, Energy, Unit;
    RecoversIff(p, g);
    forall c | 0 <= c < p.n
      ensures Vanishes(OutScale(p)[c]) <==> Energy(p, c) < TINY * Unit(p) * (TINY * Unit(p)) * (p.k as real)
    {
      VanishesIff(p, c);
    }
  }

  // ---------------------------------------------------------------- what the divisors do

  lemma RootOfMean(sqrt: real -> real, len: nat, v: Vector, root: real)
    requires Root(sqrt) && len > 0 && root == Rms(sqrt, len, v)
    ensures 0.0 <= root && root * root * (len as real) == Dot(len, v, v)
  {
    hide Dot;
    SquaresNonneg(len, v);
    var e, k := Dot(len, v, v), len as real;
    var q := e / k;
    assert q * k == e && q >= 0.0;
  }

  lemma RootBelow(root: real, e: real, n: real)
    requires 0.0 <= root && root * root * n == e && n > 0.0
    ensures root < 1e-30 <==> e < 1e-60 * n
  {
    SquaresLess(root, 1e-30);
    var q := root * root;
    if q < 1e-60 { assert q * n < 1e-60 * n; } else { assert q * n >= 1e-60 * n; }
  }

  lemma SignTimes(sign: real, x: real, u: real)
    requires sign * sign == 1.0 && 0.0 <= x && u == -(sign * x)
    ensures u * u == x * x && u * sign <= 0.0
  {
    assert u * u == (sign * sign) * (x * x);
    assert u * sign == -((sign * sign) * x);
  }

  /** Dividing a row by what comes out as its scale, up to the nudge, gives it the root mean square of the codebook: the
      row's sum of squares is its length times the square of 1.24371088 times the scale. A row whose root mean square
      vanishes is divided as if that were a tenth. */
  lemma RowScale(p: Input, r: nat)
    requires Whole(p) && Root(p.sqrt) && r < p.k && p.su[r] * p.su[r] == 1.0
    ensures var u := (SuOut(p)[r] - 1e-10) * 1.24371088;
            var energy := Sum(0, p.n, c => Rotated(p)(r, c) * Rotated(p)(r, c));
            if energy < 1e-60 * (p.n as real) then u == p.su[r] * -0.1
            else u * u * (p.n as real) == energy && u * p.su[r] <= 0.0
  {
    hide Sum, Rotated;
    var v := Row(Rotated(p), r);
    DotIs(p.n, v, v);
    SumExt(0, p.n, Times(v, v), c => Rotated(p)(r, c) * Rotated(p)(r, c));
    var root := Rms(p.sqrt, p.n, v);
    RootOfMean(p.sqrt, p.n, v, root);
    RootBelow(root, Dot(p.n, v, v), p.n as real);
    SignTimes(p.su[r], Filled(root), (SuOut(p)[r] - 1e-10) * 1.24371088);
  }

  /** The mean over the columns of their root mean squares. */
  lemma UnitIs(p: Input, unit: real)
    requires Whole(p)
    requires var mean := Sum(0, p.n, c =>
               p.sqrt(Sum(0, p.k, r => Entry(p.W, r, c) * Entry(p.W, r, c)) / (p.k as real))) / (p.n as real);
             unit == if mean > 1e-30 then mean else 1.0
    ensures unit == Unit(p)
  {
    hide Sum;
    var all := RmsAll(p.sqrt, p.n, p.k, Transpose(AsMatrix(p.W)));
    var f := c => p.sqrt(Sum(0, p.k, r => Entry(p.W, r, c) * Entry(p.W, r, c)) / (p.k as real));
    forall c | 0 <= c < p.n ensures AsVector(all)(c) == f(c) {
      var v := Row(Transpose(AsMatrix(p.W)), c);
      DotIs(p.k, v, v);
      SumExt(0, p.k, Times(v, v), r => Entry(p.W, r, c) * Entry(p.W, r, c));
    }
    SumExt(0, p.n, AsVector(all), f);
  }

  lemma Scaling(sign: real, root: real, unit: real, k: real, energy: real, v: real)
    requires sign * sign == 1.0 && unit > 0.0 && 0.0 <= root && root * root * k == energy && v == sign * (root / unit)
    ensures v * unit * (v * unit) * k == energy && v * sign >= 0.0
  {
    var x := root / unit;
    assert x * unit == root && x >= 0.0;
    assert v * unit == sign * root;
    assert sign * root * (sign * root) == (sign * sign) * (root * root);
    assert v * sign == (sign * sign) * x;
  }

  lemma ColumnRoot(p: Input, c: nat) returns (root: real)
    requires Whole(p) && Root(p.sqrt) && c < p.n
    ensures 0.0 <= root && root * root * (p.k as real) == Energy(p, c) && OutScale(p)[c] == root / Unit(p)
  {
    hide Dot, Mean;
    var v := Row(Transpose(AsMatrix(p.W)), c);
    root := Rms(p.sqrt, p.k, v);
    RootOfMean(p.sqrt, p.k, v, root);
    DotExt(p.k, v, v, Column(p.W, c), Column(p.W, c));
  }

  lemma EnergyIs(p: Input, c: nat)
    requires Whole(p)
    ensures Energy(p, c) == Sum(0, p.k, r => Entry(p.W, r, c) * Entry(p.W, r, c))
  {
    hide Sum;
    var col := Column(p.W, c);
    DotIs(p.k, col, col);
    SumExt(0, p.k, Times(col, col), r => Entry(p.W, r, c) * Entry(p.W, r, c));
  }

  lemma DivisorAt(p: Input, c: nat) returns (v: real)
    requires Whole(p) && c < p.n
    ensures v == Divisor(p)[c] - 1e-10
    ensures SvOut(p)[c] == if Vanishes(OutScale(p)[c]) then 0.0 else Divisor(p)[c]
    ensures p.apply ==> v == p.sv[c] * (if Vanishes(OutScale(p)[c]) then 0.1 else OutScale(p)[c])
    ensures !p.apply ==> Divisor(p)[c] == p.sv[c]
  {
    hide OutScale, Vanishes;
    v := Divisor(p)[c] - 1e-10;
  }

  /** Where output channels are scaled, what a column is divided by, up to the nudge, is its root mean square relative
      to the mean one, with the column's sign, and a tenth where that vanishes. A vanished column decodes to zero.
      Where they are not, a column is divided by its sign. */
  lemma ColumnScale(p: Input, c: nat, unit: real)
    requires Whole(p) && Root(p.sqrt) && c < p.n && p.sv[c] * p.sv[c] == 1.0
    requires var mean := Sum(0, p.n, x =>
               p.sqrt(Sum(0, p.k, r => Entry(p.W, r, x) * Entry(p.W, r, x)) / (p.k as real))) / (p.n as real);
             unit == if mean > 1e-30 then mean else 1.0
    ensures var v := Divisor(p)[c] - 1e-10;
            var energy := Sum(0, p.k, r => Entry(p.W, r, c) * Entry(p.W, r, c));
            var vanished := energy < 1e-30 * unit * (1e-30 * unit) * (p.k as real);
            && SvOut(p)[c] == (if vanished then 0.0 else Divisor(p)[c])
            && (!p.apply ==> Divisor(p)[c] == p.sv[c])
            && (p.apply && vanished ==> v == p.sv[c] * 0.1)
            && (p.apply && !vanished ==> v * unit * (v * unit) * (p.k as real) == energy && v * p.sv[c] >= 0.0)
  {
    hide Sum, OutScale, Unit, Root, Divisor, SvOut, Vanishes, Shape, Norm, Energy;
    UnitIs(p, unit);
    EnergyIs(p, c);
    VanishesIff(p, c);
    var root := ColumnRoot(p, c);
    var v := DivisorAt(p, c);
    if p.apply && !Vanishes(OutScale(p)[c]) {
      Scaling(p.sv[c], root, unit, p.k as real, Energy(p, c), v);
    }
  }

  // ---------------------------------------------------------------- an input that is not recovered

  lemma SumAtLeast(lo: int, hi: int, f: Vector, at: int)
    requires lo <= at < hi && forall i :: lo <= i < hi ==> 0.0 <= f(i)
    ensures Sum(lo, hi, f) >= f(at)
  {
    hide Sum;
    SumSplit(lo, at, hi, f);
    SumSplit(at, at + 1, hi, f);
    SumNonneg(lo, at, f);
    SumNonneg(at + 1, hi, f);
    SumLast(at, at + 1, f);
    SumZero(at, at, f);
  }

  /** A square of ones whose first column is 1e-40. */
  function FaintColumn(sqrt: real -> real, s: real): Input {
    var row := seq(HAD, c => if c == 0 then 1e-40 else 1.0);
    Input(seq(HAD, _ => row), HAD, seq(HAD, _ => -1.0), seq(HAD, _ => 1.0), false, sqrt, s)
  }

  lemma FaintEnergy(sqrt: real -> real, s: real)
    requires Root(sqrt) && Norm(HAD, s)
    ensures var p := FaintColumn(sqrt, s); Whole(p) && Energy(p, 0) == 128.0 * 1e-80 && Unit(p) >= 1.0 / 128.0
  {
    hide Sum, Norm;
    var p := FaintColumn(sqrt, s);
    SumConstant(HAD, Times(Column(p.W, 0), Column(p.W, 0)), 1e-80);
    DotIs(HAD, Column(p.W, 0), Column(p.W, 0));
    var T := Transpose(AsMatrix(p.W));
    var all := RmsAll(sqrt, HAD, HAD, T);
    forall c | 0 <= c < HAD ensures 0.0 <= all[c] { SquaresNonneg(HAD, Row(T, c)); }
    SumConstant(HAD, Times(Row(T, 1), Row(T, 1)), 1.0);
    DotIs(HAD, Row(T, 1), Row(T, 1));
    assert all[1] == sqrt(1.0);
    assert all[1] == 1.0 by { SquaresLess(all[1], 1.0); SquaresLess(1.0, all[1]); }
    SumAtLeast(0, HAD, AsVector(all), 1);
  }

  lemma RmsNonneg(sqrt: real -> real, count: nat, len: nat, M: Matrix, i: nat)
    requires Root(sqrt) && len > 0 && i < count
    ensures 0.0 <= RmsAll(sqrt, count, len, M)[i]
  {
    SquaresNonneg(len, Row(M, i));
  }

  /** It is a legal input with no scale zero, and decoding does not give it back. */
  lemma FaintColumnIsLost(sqrt: real -> real, s: real)
    requires Root(sqrt) && Norm(HAD, s)
    ensures var p := FaintColumn(sqrt, s);
            Whole(p) && Scalable(p, 1.0)
            && !Agree(p.k, p.n,
              Decoded(p.s, Multiple(1.0, WeightOut(p)), u => AsVector(SuOut(p))(u) / 1.0, AsVector(SvOut(p))),
                AsMatrix(p.W))
  {
    hide Decoded, WeightOut, SvOut, Multiple, Energy, Norm, Unit, Rotated, RmsAll;
    var p := FaintColumn(sqrt, s);
    FaintEnergy(sqrt, s);
    forall r | 0 <= r < p.k ensures SuOut(p)[r] > 0.0 {
      RmsNonneg(sqrt, p.k, p.n, Rotated(p), r);
    }
    RecoversExactly(p, 1.0);
    assert p.W[0][0] != 0.0;
  }

  // ---------------------------------------------------------------- the decoder

  method ScaleRows(x: array<seq<real>>, n: nat, v: seq<real>)
    requires Shape(x[..], x.Length, n) && |v| == x.Length
    modifies x
    ensures Shape(x[..], x.Length, n)
    ensures Agree(x.Length, n, AsMatrix(x[..]), TimesRows(AsMatrix(old(x[..])), AsVector(v)))
  {
    forall r | 0 <= r < x.Length ensures |x[r]| == n { assert x[r] == x[..][r]; }
    forall r | 0 <= r < x.Length { x[r] := seq(n, c requires 0 <= c < n && |x[r]| == n reads x => x[r][c] * v[r]); }
  }

  method ScaleColumns(x: array<seq<real>>, n: nat, v: seq<real>)
    requires Shape(x[..], x.Length, n) && |v| == n
    modifies x
    ensures Shape(x[..], x.Length, n)
    ensures Agree(x.Length, n, AsMatrix(x[..]), TimesColumns(AsMatrix(old(x[..])), AsVector(v)))
  {
    forall r | 0 <= r < x.Length ensures |x[r]| == n { assert x[r] == x[..][r]; }
    forall r | 0 <= r < x.Length { x[r] := seq(n, c requires 0 <= c < n && |x[r]| == n reads x => x[r][c] * v[c]); }
  }

  lemma TimesAgrees(k: nat, n: nat, X: Matrix, Y: Matrix, u: Vector, v: Vector)
    requires Agree(k, n, X, Y)
    ensures Agree(k, n, TimesRows(X, u), TimesRows(Y, u)) && Agree(k, n, TimesColumns(X, v), TimesColumns(Y, v))
  {
  }

  /** The decoder of the epilogue, on a copy of the quantized weight. */
  method Decode(wq: array<seq<real>>, n: nat, su: seq<real>, sv: seq<real>, s: real) returns (out: array<seq<real>>)
    requires Shape(wq[..], wq.Length, n) && wq.Length % HAD == 0 && n % HAD == 0 && |su| == wq.Length && |sv| == n
    ensures fresh(out) && Shape(out[..], wq.Length, n)
    ensures Agree(wq.Length, n, AsMatrix(out[..]), Decoded(s, AsMatrix(wq[..]), AsVector(su), AsVector(sv)))
  {
    hide Left, Right, Signs, TimesRows, TimesColumns;
    HadIsPower();
    var k := wq.Length;
    out := new seq<real>[k](r requires 0 <= r < k reads wq => wq[r]);
    assert out[..] == wq[..];
    ghost var S, X, u, v := Signs(s), AsMatrix(wq[..]), AsVector(su), AsVector(sv);
    BlockwisePreapplyHadL(out, n, HAD, s);
    ghost var A := AsMatrix(out[..]);
    assert Agree(k, n, A, Left(HAD, S, X));
    ScaleRows(out, n, su);
    TimesAgrees(k, n, A, Left(HAD, S, X), u, v);
    ghost var B := AsMatrix(out[..]);
    BlockwisePreapplyHadR(out, n, HAD, s);
    RightAgrees(HAD, S, k, n, B, TimesRows(Left(HAD, S, X), u));
    ghost var C := AsMatrix(out[..]);
    assert Agree(k, n, C, Right(HAD, S, B));
    ScaleColumns(out, n, sv);
    TimesAgrees(k, n, C, Right(HAD, S, TimesRows(Left(HAD, S, X), u)), u, v);
  }
}

/** The index of tokens by expert, and the Hessians accumulated over an expert's tokens. */
module Routing {
  import opened Arithmetic
  import opened Sums
  import opened Linear
  import opened Sorting
  import opened Tiles
  import opened Feedback
  import opened Loss

  const SLOTS: nat := 8

  // ---------------------------------------------------------------- the index

  /** Entries by expert, then by position. */
  function ByExpert(flat: seq<nat>): (int, int) -> bool {
    (x, y) => 0 <= x < |flat| && 0 <= y < |flat| && (flat[x] < flat[y] || (flat[x] == flat[y] && x < y))
  }

  /** What a stable argsort gives. */
  ghost predicate StableArgsort(flat: seq<nat>, order: seq<int>) {
    Ascending(ByExpert(flat), order) && forall x :: x in order <==> 0 <= x < |flat|
  }

  /** The positions of an expert among the first n entries, rising. */
  function Positions(flat: seq<nat>, e: nat, n: nat): (p: seq<int>)
    requires n <= |flat|
  {
    if n == 0 then [] else Positions(flat, e, n - 1) + if flat[n - 1] == e then [n - 1] else []
  }

  /** The positions of experts 0 to e, one expert after the other. */
  function Grouped(flat: seq<nat>, e: nat): seq<int> {
    if e == 0 then [] else Grouped(flat, e - 1) + Positions(flat, e - 1, |flat|)
  }

  lemma GroupedStep(flat: seq<nat>, e: nat)
    ensures Grouped(flat, 0) == [] && |Grouped(flat, e + 1)| == |Grouped(flat, e)| + |Positions(flat, e, |flat|)|
  {
    hide Positions;
  }

  lemma {:induction false} PositionsAre(flat: seq<nat>, e: nat, n: nat)
    requires n <= |flat|
    ensures forall x :: x in Positions(flat, e, n) <==> 0 <= x < n && flat[x] == e
    ensures Ascending(ByExpert(flat), Positions(flat, e, n))
  {
    if n > 0 {
      PositionsAre(flat, e, n - 1);
      var front := Positions(flat, e, n - 1);
      if flat[n - 1] == e {
        Joined(ByExpert(flat), front, [n - 1]);
      }
    }
  }

  lemma {:induction false} GroupedIs(flat: seq<nat>, e: nat)
    ensures forall x :: x in Grouped(flat, e) <==> 0 <= x < |flat| && flat[x] < e
    ensures Ascending(ByExpert(flat), Grouped(flat, e))
  {
    hide Positions;
    if e > 0 {
      GroupedIs(flat, e - 1);
      PositionsAre(flat, e - 1, |flat|);
      Joined(ByExpert(flat), Grouped(flat, e - 1), Positions(flat, e - 1, |flat|));
    }
  }

  lemma ByExpertOrders(flat: seq<nat>, S: set<int>)
    requires forall x :: x in S ==> 0 <= x < |flat|
    ensures Orders(ByExpert(flat), S)
  {
  }

  /** There is one stable argsort: the experts' positions one after the other. */
  lemma ArgsortIsGrouped(flat: seq<nat>, order: seq<int>, experts: nat)
    requires StableArgsort(flat, order) && forall x :: 0 <= x < |flat| ==> flat[x] < experts
    ensures order == Grouped(flat, experts)
  {
    hide Orders, Grouped, ByExpert;
    var grouped := Grouped(flat, experts);
    ByExpertOrders(flat, Elements(order));
    GroupedIs(flat, experts);
    assert forall x :: x in order <==> x in grouped;
    AscendingUnique(ByExpert(flat), order, grouped);
  }

  lemma {:induction false} GroupedSlice(flat: seq<nat>, e: nat, experts: nat)
    requires e < experts
    ensures |Grouped(flat, e)| <= |Grouped(flat, e + 1)| <= |Grouped(flat, experts)|
    ensures Grouped(flat, experts)[|Grouped(flat, e)|..|Grouped(flat, e + 1)|] == Positions(flat, e, |flat|)
    decreases experts
  {
    hide Positions;
    var a, b := |Grouped(flat, e)|, |Grouped(flat, e + 1)|;
    if e < experts - 1 {
      GroupedSlice(flat, e, experts - 1);
      assert Grouped(flat, experts)[a..b] == Grouped(flat, experts - 1)[a..b];
    }
  }

  /** Tokens of entries. */
  function Tokens(positions: seq<int>): (t: seq<int>)
    ensures |t| == |positions|
  {
    seq(|positions|, i requires 0 <= i < |positions| => positions[i] / SLOTS)
  }

  /** Occurrences of every expert. */
  method Bincount(flat: seq<nat>, experts: nat) returns (counts: array<nat>)
    requires forall x :: 0 <= x < |flat| ==> flat[x] < experts
    ensures fresh(counts) && counts.Length == experts
    ensures forall e :: 0 <= e < experts ==> counts[e] == |Positions(flat, e, |flat|)|
  {
    counts := new nat[experts](_ => 0);
    for n := 0 to |flat|
      invariant forall e :: 0 <= e < experts ==> counts[e] == |Positions(flat, e, n)|
    {
      counts[flat[n]] := counts[flat[n]] + 1;
    }
  }

  /** Where each expert's segment starts. */
  method Starts(counts: array<nat>, ghost flat: seq<nat>) returns (starts: seq<nat>)
    requires forall e :: 0 <= e < counts.Length ==> counts[e] == |Positions(flat, e, |flat|)|
    ensures |starts| == counts.Length + 1 && forall e :: 0 <= e <= counts.Length ==> starts[e] == |Grouped(flat, e)|
  {
    hide Positions, Grouped;
    GroupedStep(flat, 0);
    starts := [0];
    for e := 0 to counts.Length
      invariant |starts| == e + 1 && forall x :: 0 <= x <= e ==> starts[x] == |Grouped(flat, x)|
    {
      GroupedStep(flat, e);
      starts := starts + [starts[e] + counts[e]];
    }
  }

  // ---------------------------------------------------------------- Gram matrices

  /** The product of columns i and j at the t-th of the rows. */
  function Cross(x: Mat<real>, rows: seq<int>, i: int, j: int): int -> real {
    t => if 0 <= t < |rows| then Entry(x, rows[t], i) * Entry(x, rows[t], j) else 0.0
  }

  /** Entry (i, j) of the Gram matrix of the rows: each row counts as often as it is listed. */
  function Gram(x: Mat<real>, rows: seq<int>, i: int, j: int): real { Sum(0, |rows|, Cross(x, rows, i, j)) }

  ghost predicate IsGram(H: array2<real>, x: Mat<real>, rows: seq<int>, width: nat)
    reads H
  {
    && H.Length0 == width == H.Length1
    && forall i, j :: 0 <= i < width && 0 <= j < width ==> H[i, j] == Gram(x, rows, i, j)
  }

  /** H += xc^T xc for one chunk of rows. */
  method AddChunk(H: array2<real>, x: Mat<real>, rows: seq<int>, lo: nat, hi: nat)
    requires H.Length0 == H.Length1 && lo <= hi <= |rows|
    modifies H
    ensures forall i, j :: 0 <= i < H.Length0 && 0 <= j < H.Length0 ==>
      H[i, j] == old(H[i, j]) + Sum(lo, hi, Cross(x, rows, i, j))
  {
    forall i, j | 0 <= i < H.Length0 && 0 <= j < H.Length0 {
      H[i, j] := H[i, j] + Sum(lo, hi, Cross(x, rows, i, j));
    }
  }

  /** Accumulation in chunks gives the Gram matrix of all rows at once, for any size of chunk. */
  method Accumulate(x: Mat<real>, rows: seq<int>, width: nat, chunk: nat) returns (H: array2<real>)
    requires chunk >= 1
    ensures fresh(H) && IsGram(H, x, rows, width)
  {
    hide Sum, Cross;
    H := new real[width, width]((_, _) => 0.0);
    var at := 0;
    forall i, j ensures Sum(0, 0, Cross(x, rows, i, j)) == 0.0 { SumZero(0, 0, Cross(x, rows, i, j)); }
    while at < |rows|
      invariant 0 <= at <= |rows|
      invariant forall i, j :: 0 <= i < width && 0 <= j < width ==> H[i, j] == Sum(0, at, Cross(x, rows, i, j))
    {
      var end := if at + chunk < |rows| then at + chunk else |rows|;
      AddChunk(H, x, rows, at, end);
      forall i, j | 0 <= i < width && 0 <= j < width ensures H[i, j] == Sum(0, end, Cross(x, rows, i, j)) {
        SumSplit(0, at, end, Cross(x, rows, i, j));
      }
      at := end;
    }
  }

  lemma GramSymmetric(x: Mat<real>, rows: seq<int>, i: int, j: int)
    ensures Gram(x, rows, i, j) == Gram(x, rows, j, i)
  {
    SumExt(0, |rows|, Cross(x, rows, i, j), Cross(x, rows, j, i));
  }

  lemma GramEntryIs(x: Mat<real>, rows: seq<int>, M: Matrix, i: int, j: int)
    requires forall t, c :: 0 <= t < |rows| ==> M(t, c) == Entry(x, rows[t], c)
    ensures Gram(x, rows, i, j) == Dot(|rows|, Col(M, i), Col(M, j))
  {
    SumExt(0, |rows|, Cross(x, rows, i, j), Times(Col(M, i), Col(M, j)));
  }

  /** v^T (M^T M) v = |M v|^2. */
  lemma NormForm(n: nat, width: nat, M: Matrix, A: Matrix, v: Vector)
    requires forall i, j :: 0 <= i < width && 0 <= j < width ==> A(i, j) == Dot(n, Col(M, i), Col(M, j))
    ensures Form(width, A, v) == Dot(n, MatVec(width, M, v), MatVec(width, M, v))
  {
    hide Dot;
    var T, u := Transpose(M), MatVec(width, M, v);
    forall j | 0 <= j < width ensures VecMat(width, v, A)(j) == VecMat(n, u, M)(j) {
      forall i | 0 <= i < width ensures Col(A, j)(i) == MatVec(n, T, Col(M, j))(i) {
        DotExt(n, Row(T, i), Col(M, j), Col(M, i), Col(M, j));
      }
      DotExt(width, v, Col(A, j), v, MatVec(n, T, Col(M, j)));
      Associate(width, n, v, T, Col(M, j));
      forall t ensures VecMat(width, v, T)(t) == u(t) {
        DotExt(width, v, Col(T, t), v, Row(M, t));
        DotSwap(width, v, Row(M, t));
      }
      DotExt(n, VecMat(width, v, T), Col(M, j), u, Col(M, j));
    }
    DotExt(width, VecMat(width, v, A), v, VecMat(n, u, M), v);
    Associate(n, width, u, M, v);
  }

  /** An accumulated Hessian is X^T X of its rows: it is symmetric, and its form at any vector is the sum of the squares
      of the rows' products with the vector, so that it is never negative. */
  lemma HessianForm(H: array2<real>, A: Matrix, x: Mat<real>, rows: seq<int>, width: nat, v: Vector)
    requires IsGram(H, x, rows, width) && forall i, j :: 0 <= i < width && 0 <= j < width ==> A(i, j) == H[i, j]
    ensures forall i, j :: 0 <= i < width && 0 <= j < width ==> H[i, j] == H[j, i]
    ensures Form(width, A, v) == Sum(0, |rows|, t =>
      var y := Dot(width, Row(AsMatrix(x), if 0 <= t < |rows| then rows[t] else -1), v); y * y)
    ensures 0.0 <= Form(width, A, v)
  {
    hide Dot, Gram;
    var M: Matrix := (t, c) => Entry(x, if 0 <= t < |rows| then rows[t] else -1, c);
    forall i, j | 0 <= i < width && 0 <= j < width ensures H[i, j] == H[j, i] { GramSymmetric(x, rows, i, j); }
    forall i, j | 0 <= i < width && 0 <= j < width ensures A(i, j) == Dot(|rows|, Col(M, i), Col(M, j)) {
      GramEntryIs(x, rows, M, i, j);
    }
    NormForm(|rows|, width, M, A, v);
    var u := MatVec(width, M, v);
    DotIs(|rows|, u, u);
    SquaresNonneg(|rows|, u);
    var f := t => var y := Dot(width, Row(AsMatrix(x), if 0 <= t < |rows| then rows[t] else -1), v); y * y;
    forall t | 0 <= t < |rows| ensures Times(u, u)(t) == f(t) {
      DotExt(width, Row(M, t), v, Row(AsMatrix(x), rows[t]), v);
    }
    SumExt(0, |rows|, Times(u, u), f);
  }

  // ---------------------------------------------------------------- what an expert's rows are

  /** How many of the first n entries send token t to expert e. */
  function Routed(flat: seq<nat>, e: nat, t: int, n: nat): nat
    requires n <= |flat|
  {
    if n == 0 then 0 else Routed(flat, e, t, n - 1) + if flat[n - 1] == e && (n - 1) / SLOTS == t then 1 else 0
  }

  /** How many of the first s slots of token t name expert e. */
  function Slots(flat: seq<nat>, e: nat, t: nat, s: nat): nat
    requires SLOTS * t + s <= |flat|
  {
    if s == 0 then 0 else Slots(flat, e, t, s - 1) + if flat[SLOTS * t + s - 1] == e then 1 else 0
  }

  lemma {:induction false} RoutedOutside(flat: seq<nat>, e: nat, t: nat, n: nat)
    requires n <= |flat| && SLOTS * t + SLOTS <= |flat|
    ensures n <= SLOTS * t ==> Routed(flat, e, t, n) == 0
    ensures SLOTS * t <= n <= SLOTS * t + SLOTS ==> Routed(flat, e, t, n) == Slots(flat, e, t, n - SLOTS * t)
    ensures n >= SLOTS * t + SLOTS ==> Routed(flat, e, t, n) == Slots(flat, e, t, SLOTS)
  {
    if n > 0 { RoutedOutside(flat, e, t, n - 1); }
  }

  lemma {:induction false} TokenCount(flat: seq<nat>, e: nat, t: int, n: nat)
    requires n <= |flat|
    ensures multiset(Tokens(Positions(flat, e, n)))[t] == Routed(flat, e, t, n)
  {
    if n > 0 {
      TokenCount(flat, e, t, n - 1);
      var front := Positions(flat, e, n - 1);
      if flat[n - 1] == e {
        assert Tokens(Positions(flat, e, n)) == Tokens(front) + [(n - 1) / SLOTS];
      } else {
        assert Positions(flat, e, n) == front;
      }
    }
  }

  /** Tokens below a bound, rising. */
  ghost predicate Rising(rows: seq<int>, bound: int) {
    (forall i :: 0 <= i < |rows| ==> 0 <= rows[i] < bound) && forall i, j :: 0 <= i < j < |rows| ==> rows[i] <= rows[j]
  }

  /** The rows of an expert are the tokens with a slot for it, rising, each as often as it has such slots. */
  lemma RowsAre(flat: seq<nat>, e: nat, t: nat)
    requires |flat| % SLOTS == 0 && t < |flat| / SLOTS
    ensures var rows := Tokens(Positions(flat, e, |flat|));
            multiset(rows)[t] == Slots(flat, e, t, SLOTS) && Rising(rows, |flat| / SLOTS)
  {
    hide Positions, Routed, Slots;
    TokenCount(flat, e, t, |flat|);
    RoutedOutside(flat, e, t, |flat|);
    PositionsAre(flat, e, |flat|);
    var p := Positions(flat, e, |flat|);
    var rows := Tokens(p);
    forall i | 0 <= i < |rows| ensures 0 <= rows[i] < |flat| / SLOTS { assert p[i] in p && rows[i] == p[i] / SLOTS; }
    forall i, j | 0 <= i < j < |rows| ensures rows[i] <= rows[j] {
      assert p[i] in p && p[j] in p && ByExpert(flat)(p[i], p[j]);
      assert rows[i] == p[i] / SLOTS && rows[j] == p[j] / SLOTS;
    }
    assert Rising(rows, |flat| / SLOTS);
  }

  lemma {:induction false} SlotsCounted(flat: seq<nat>, e: nat, t: nat, n: nat)
    requires SLOTS * t + n <= |flat|
    ensures Slots(flat, e, t, n) == multiset(flat[SLOTS * t..SLOTS * t + n])[e]
  {
    if n > 0 {
      SlotsCounted(flat, e, t, n - 1);
      assert flat[SLOTS * t..SLOTS * t + n] == flat[SLOTS * t..SLOTS * t + n - 1] + [flat[SLOTS * t + n - 1]];
    }
  }

  /** A token is among an expert's rows as often as the expert is among the token's eight slots. */
  lemma RowsOfToken(flat: seq<nat>, e: nat, t: nat)
    requires |flat| % 8 == 0 && t < |flat| / 8
    ensures multiset(Tokens(Positions(flat, e, |flat|)))[t] == multiset(flat[8 * t..8 * t + 8])[e]
  {
    hide Positions, Slots;
    RowsAre(flat, e, t);
    SlotsCounted(flat, e, t, 8);
  }

  /** The segments of all experts together are all entries. */
  lemma SegmentsPartition(flat: seq<nat>, order: seq<int>, experts: nat)
    requires StableArgsort(flat, order) && forall x :: 0 <= x < |flat| ==> flat[x] < experts
    ensures |Grouped(flat, experts)| == |flat|
    ensures forall x :: 0 <= x < |flat| ==> x in Positions(flat, flat[x], |flat|)
    ensures forall x, e :: 0 <= x < |flat| && 0 <= e && e != flat[x] ==> x !in Positions(flat, e, |flat|)
  {
    hide Positions, Grouped;
    ArgsortIsGrouped(flat, order, experts);
    var all := seq(|flat|, x => x);
    forall x | 0 <= x < |flat| ensures x in all { assert all[x] == x; }
    assert Elements(order) == Elements(all);
    forall i, j | 0 <= i < j < |order| ensures order[i] != order[j] { assert ByExpert(flat)(order[i], order[j]); }
    Sizes(order);
    Sizes(all);
    forall x, e: nat | 0 <= x < |flat| ensures x in Positions(flat, e, |flat|) <==> flat[x] == e {
      PositionsAre(flat, e, |flat|);
    }
  }

  // ---------------------------------------------------------------- the calibration of a layer

  function Rows(n: nat): (r: seq<int>)
    ensures |r| == n
  {
    seq(n, t => t)
  }

  class LayerCalib {
    const x: Mat<real>
    const flat: seq<nat>
    const experts: nat
    const hidden: nat
    const tokenOf: seq<int>
    const starts: seq<nat>
    const fallbackRows: seq<int>
    var layerCache: array2?<real>

    ghost predicate Valid()
      reads this, this.layerCache
    {
      && (forall p :: 0 <= p < |flat| ==> flat[p] < experts)
      && tokenOf == Tokens(Grouped(flat, experts))
      && |starts| == experts + 1 && (forall e :: 0 <= e <= experts ==> starts[e] == |Grouped(flat, e)|)
      && (layerCache != null ==> IsGram(layerCache, x, Rows(|x|), hidden))
    }

    /** order is whatever stable argsort the library gives. */
    constructor (x: Mat<real>, flat: seq<nat>, order: seq<int>, experts: nat, hidden: nat, fallbackRows: seq<int>)
      requires StableArgsort(flat, order) && forall p :: 0 <= p < |flat| ==> flat[p] < experts
      ensures Valid() && this.x == x && this.flat == flat && this.experts == experts && this.hidden == hidden
      ensures this.fallbackRows == fallbackRows
    {
      ArgsortIsGrouped(flat, order, experts);
      var counts := Bincount(flat, experts);
      var starts := Starts(counts, flat);
      this.x, this.flat, this.experts, this.hidden, this.fallbackRows := x, flat, experts, hidden, fallbackRows;
      this.tokenOf, this.starts, layerCache := Tokens(order), starts, null;
    }

    /** The tokens routed to an expert. */
    method ExpertRows(e: nat) returns (rows: seq<int>)
      requires Valid() && e < experts
      ensures rows == Tokens(Positions(flat, e, |flat|))
    {
      hide Grouped, Positions, IsGram;
      GroupedSlice(flat, e, experts);
      rows := tokenOf[starts[e]..starts[e + 1]];
    }

    /** The Hessian of all tokens, accumulated once; the caller gets its own copy. */
    method LayerH(chunk: nat) returns (H: array2<real>, count: nat)
      requires Valid() && chunk >= 1
      modifies this
      ensures Valid() && fresh(H) && H != layerCache && IsGram(H, x, Rows(|x|), hidden) && count == |x|
      ensures layerCache != null && (old(layerCache) != null ==> layerCache == old(layerCache))
    {
      hide Grouped, Positions, Gram;
      if layerCache == null {
        layerCache := Accumulate(x, Rows(|x|), hidden, chunk);
      }
      var cached := layerCache;
      H :=
        new real[hidden, hidden]((i, j) requires 0 <= i < hidden && 0 <= j < hidden
          && IsGram(cached, x, Rows(|x|), hidden) reads cached => cached[i, j]);
      count := |x|;
    }
  }

  /** The activations between the projections, row by row. */
  function Inner(x: Mat<real>, inter: seq<real> -> seq<real>): (m: Mat<real>)
    ensures |m| == |x|
  {
    seq(|x|, t requires 0 <= t < |x| => inter(x[t]))
  }

  /** Columns lo to lo + s of every row. */
  function ColumnSlice(x: Mat<real>, lo: nat, s: nat): (m: Mat<real>)
    requires forall t :: 0 <= t < |x| ==> lo + s <= |x[t]|
    ensures |m| == |x|
  {
    seq(|x|, t requires 0 <= t < |x| => x[t][lo..lo + s])
  }

  /** A diagonal block of the Gram matrix is the Gram matrix of the block's own columns. */
  lemma BlockIsGram(x: Mat<real>, rows: seq<int>, lo: nat, s: nat, i: nat, j: nat)
    requires (forall t :: 0 <= t < |x| ==> lo + s <= |x[t]|) && i < s && j < s
    ensures Gram(x, rows, lo + i, lo + j) == Gram(ColumnSlice(x, lo, s), rows, i, j)
  {
    SumExt(0, |rows|, Cross(x, rows, lo + i, lo + j), Cross(ColumnSlice(x, lo, s), rows, i, j));
  }

  /** A sum of outer products and how many there were. */
  datatype HessianSum = HessianSum(H: array2<real>, count: nat)

  /** Both accumulations over the same chunks of rows; the first only for an expert with enough tokens. */
  method AccumulateBoth(x: Mat<real>, inner: Mat<real>, rows: seq<int>, hidden: nat, width: nat, chunk: nat, both: bool)
      returns (HX: array2<real>, HI: array2<real>)
    requires chunk >= 1
    ensures fresh(HX) && fresh(HI) && HX != HI && IsGram(HI, inner, rows, width)
      && (both ==> IsGram(HX, x, rows, hidden))
  {
    hide Sum, Cross;
    HX := new real[hidden, hidden]((_, _) => 0.0);
    HI := new real[width, width]((_, _) => 0.0);
    forall m: Mat<real>, i, j ensures Sum(0, 0, Cross(m, rows, i, j)) == 0.0 { SumZero(0, 0, Cross(m, rows, i, j)); }
    var at := 0;
    while at < |rows|
      invariant 0 <= at <= |rows|
      invariant forall i, j :: 0 <= i < width && 0 <= j < width ==> HI[i, j] == Sum(0, at, Cross(inner, rows, i, j))
      invariant both ==> forall i, j :: 0 <= i < hidden && 0 <= j < hidden ==>
        HX[i, j] == Sum(0, at, Cross(x, rows, i, j))
    {
      var end := if at + chunk < |rows| then at + chunk else |rows|;
      if both { AddChunk(HX, x, rows, at, end); }
      AddChunk(HI, inner, rows, at, end);
      forall m: Mat<real>, i, j
        ensures Sum(0, end, Cross(m, rows, i, j))
          == Sum(0, at, Cross(m, rows, i, j)) + Sum(at, end, Cross(m, rows, i, j))
      {
        SumSplit(0, at, end, Cross(m, rows, i, j));
      }
      at := end;
    }
  }

  lemma InnerWidth(x: Mat<real>, inter: seq<real> -> seq<real>, width: nat)
    requires forall v :: |inter(v)| == width
    ensures forall t :: 0 <= t < |Inner(x, inter)| ==> |Inner(x, inter)[t]| == width
  {
  }

  /** Rank r's Hessian is the Gram matrix of its own columns of the activations. */
  ghost predicate OwnBlock(h: HessianSum, inner: Mat<real>, rows: seq<int>, r: nat, slice: nat)
    reads h.H
  {
    && h.count == |rows| && (forall t :: 0 <= t < |inner| ==> r * slice + slice <= |inner[t]|)
    && IsGram(h.H, ColumnSlice(inner, r * slice, slice), rows, slice)
  }

  lemma SliceRow(x: Mat<real>, inter: seq<real> -> seq<real>, lo: nat, slice: nat, row: int, v: Vector)
    requires forall t :: 0 <= t < |x| ==> lo + slice <= |Inner(x, inter)[t]|
    ensures Dot(slice, Row(AsMatrix(ColumnSlice(Inner(x, inter), lo, slice)), row), v)
      == if 0 <= row < |x| then Dot(slice, Shift(AsVector(inter(x[row])), lo), v) else 0.0
  {
    hide Dot;
    var m := ColumnSlice(Inner(x, inter), lo, slice);
    if 0 <= row < |x| {
      DotExt(slice, Row(AsMatrix(m), row), v, Shift(AsVector(inter(x[row])), lo), v);
    } else {
      DotZero(slice, Row(AsMatrix(m), row), v);
    }
  }

  lemma SliceSquares(x: Mat<real>, inter: seq<real> -> seq<real>, lo: nat, slice: nat, rows: seq<int>, v: Vector)
    requires forall t :: 0 <= t < |Inner(x, inter)| ==> lo + slice <= |Inner(x, inter)[t]|
    ensures Sum(0, |rows|, t =>
        var y := Dot(slice, Row(AsMatrix(ColumnSlice(Inner(x, inter), lo, slice)),
                                if 0 <= t < |rows| then rows[t] else -1), v);
        y * y)
      == Sum(0, |rows|, t =>
        if 0 <= t < |rows| && 0 <= rows[t] < |x|
        then var y := Dot(slice, Shift(AsVector(inter(x[rows[t]])), lo), v); y * y
        else 0.0)
  {
    hide Sum, Dot, ColumnSlice, Inner, AsMatrix, Row, Shift, AsVector;
    var m := ColumnSlice(Inner(x, inter), lo, slice);
    var f := t => var y := Dot(slice, Row(AsMatrix(m), if 0 <= t < |rows| then rows[t] else -1), v); y * y;
    var g := t =>
      if 0 <= t < |rows| && 0 <= rows[t] < |x|
      then var y := Dot(slice, Shift(AsVector(inter(x[rows[t]])), lo), v); y * y
      else 0.0;
    forall t | 0 <= t < |rows| ensures f(t) == g(t) { SliceRow(x, inter, lo, slice, rows[t], v); }
    SumExt(0, |rows|, f, g);
  }

  /** The form of a rank's Hessian is the sum over the rows of the squares of the products with the rank's slice of the
      activations. */
  lemma OwnBlockForm(h: HessianSum, A: Matrix, x: Mat<real>, inter: seq<real> -> seq<real>, rows: seq<int>, r: nat,
                     slice: nat, v: Vector)
    requires OwnBlock(h, Inner(x, inter), rows, r, slice)
    requires forall i, j :: 0 <= i < slice && 0 <= j < slice ==> A(i, j) == h.H[i, j]
    ensures forall i, j :: 0 <= i < slice && 0 <= j < slice ==> h.H[i, j] == h.H[j, i]
    ensures h.count == |rows| && Form(slice, A, v) == Sum(0, |rows|, t =>
      if 0 <= t < |rows| && 0 <= rows[t] < |x|
      then var y := Dot(slice, Shift(AsVector(inter(x[rows[t]])), r * slice), v); y * y
      else 0.0)
  {
    hide Sum, Dot, Gram, Form, ColumnSlice, Inner, AsMatrix, Row, Shift, AsVector;
    HessianForm(h.H, A, ColumnSlice(Inner(x, inter), r * slice, slice), rows, slice, v);
    SliceSquares(x, inter, r * slice, slice, rows, v);
  }

  /** The layer's Hessian is that of all tokens, each once. */
  lemma LayerForm(H: array2<real>, A: Matrix, x: Mat<real>, width: nat, v: Vector)
    requires IsGram(H, x, Rows(|x|), width) && forall i, j :: 0 <= i < width && 0 <= j < width ==> A(i, j) == H[i, j]
    ensures Form(width, A, v) == Sum(0, |x|, t => var y := Dot(width, Row(AsMatrix(x), t), v); y * y)
  {
    hide Sum, Dot, Gram, Form;
    var rows := Rows(|x|);
    HessianForm(H, A, x, rows, width, v);
    SumExt(0, |x|, t => var y := Dot(width, Row(AsMatrix(x), if 0 <= t < |rows| then rows[t] else -1), v); y * y,
                   t => var y := Dot(width, Row(AsMatrix(x), t), v); y * y);
  }

  lemma RankInside(ranks: nat, r: nat, slice: nat)
    requires r < ranks
    ensures r * slice + slice <= ranks * slice
  {
    Ordered(slice, r + 1, ranks);
  }

  method CopyBlock(H: array2<real>, inner: Mat<real>, ghost rows: seq<int>, width: nat, lo: nat, slice: nat)
      returns (block: array2<real>)
    requires IsGram(H, inner, rows, width) && lo + slice <= width
    requires forall t :: 0 <= t < |inner| ==> |inner[t]| == width
    ensures fresh(block) && IsGram(block, ColumnSlice(inner, lo, slice), rows, slice)
  {
    hide Gram, ColumnSlice;
    block :=
      new real[slice, slice]((i, j) requires 0 <= i < slice && 0 <= j < slice
        && lo + slice <= H.Length0 == H.Length1 reads H
                                      => H[lo + i, lo + j]);
    forall i, j | 0 <= i < slice && 0 <= j < slice
      ensures block[i, j] == Gram(ColumnSlice(inner, lo, slice), rows, i, j)
    {
      BlockIsGram(inner, rows, lo, slice, i, j);
    }
  }

  method DiagonalSlice(H: array2<real>, inner: Mat<real>, ghost rows: seq<int>, width: nat, ranks: nat, r: nat,
                       slice: nat)
      returns (block: array2<real>)
    requires IsGram(H, inner, rows, width) && r < ranks && ranks * slice == width
    requires forall t :: 0 <= t < |inner| ==> |inner[t]| == width
    ensures fresh(block) && OwnBlock(HessianSum(block, |rows|), inner, rows, r, slice)
  {
    RankInside(ranks, r, slice);
    block := CopyBlock(H, inner, rows, width, r * slice, slice);
  }

  /** The Hessians of an expert: one for its gate and up slices over its own tokens, and one for each rank's slice of
      the down projection; an expert with too few tokens gets the layer's Hessian and a fixed sample of tokens
      instead. */
  method BuildExpertHessians(calib: LayerCalib, e: nat, inter: seq<real> -> seq<real>, width: nat, slice: nat,
                             ranks: nat, minRouted: nat, chunk: nat)
      returns (gateUp: HessianSum, down: seq<HessianSum>, fallback: bool)
    requires calib.Valid() && e < calib.experts && chunk >= 1 && ranks * slice == width
    requires forall v :: |inter(v)| == width
    modifies calib
    ensures calib.Valid() && fresh(gateUp.H) && gateUp.H != calib.layerCache
    ensures fallback <==> |Tokens(Positions(calib.flat, e, |calib.flat|))| < minRouted
    ensures var rows := if fallback then Rows(|calib.x|) else Tokens(Positions(calib.flat, e, |calib.flat|));
            gateUp.count == |rows| && IsGram(gateUp.H, calib.x, rows, calib.hidden)
    ensures |down| == ranks
    ensures var rows := if fallback then calib.fallbackRows else Tokens(Positions(calib.flat, e, |calib.flat|));
            forall r :: 0 <= r < ranks ==> OwnBlock(down[r], Inner(calib.x, inter), rows, r, slice)
  {
    hide Grouped, Positions, Gram, Inner, LayerCalib.Valid;
    var rows := calib.ExpertRows(e);
    fallback := |rows| < minRouted;
    var iRows := if fallback then calib.fallbackRows else rows;
    var inner := Inner(calib.x, inter);
    assert forall t :: 0 <= t < |inner| ==> |inner[t]| == width by { InnerWidth(calib.x, inter, width); }
    var HX, HI := AccumulateBoth(calib.x, inner, iRows, calib.hidden, width, chunk, !fallback);
    var H, count := HX, |rows|;
    if fallback { H, count := calib.LayerH(chunk); }
    gateUp := HessianSum(H, count);
    down := [];
    ghost var cache := calib.layerCache;
    for r := 0 to ranks
      invariant calib.layerCache == cache
      invariant |down| == r && calib.Valid() && IsGram(HI, inner, iRows, width)
      invariant IsGram(H, calib.x, if fallback then Rows(|calib.x|) else rows, calib.hidden)
      invariant forall k :: 0 <= k < r ==> OwnBlock(down[k], inner, iRows, k, slice)
    {
      var block := DiagonalSlice(HI, inner, iRows, width, ranks, r, slice);
      down := down + [HessianSum(block, |iRows|)];
    }
  }
}

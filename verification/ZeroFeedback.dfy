/** Quantization without feedback: LDLQ with L = 0, the whole matrix in one batch, and the reference loop over blocks
    give the same values and indices. */
module ZeroFeedback {
  import opened Arithmetic
  import opened Sums
  import opened Tiles
  import opened Ldlq
  import opened Feedback

  ghost predicate AllZero<S(!new), I(!new)>(K: Kernel<S, I>, A: Mat<S>) {
    forall r, a :: 0 <= r < |A| && 0 <= a < |A[r]| ==> A[r][a] == K.zero
  }

  /** What is needed of the arithmetic: a product with a zero matrix adds nothing, and neither does zero. */
  ghost predicate Neutral<S(!new), I(!new)>(K: Kernel<S, I>) {
    && (forall x :: K.add(x, K.zero) == x)
    && (forall C, A, B :: AllZero(K, A) ==> K.addmm(C, A, B) == C)
  }

  lemma AddZeroProduct<I(!new)>(K: Kernel<real, I>, C: Mat<real>, A: Mat<real>, B: Mat<real>)
    requires Exact(K) && AllZero(K, A)
    ensures K.addmm(C, A, B) == C
  {
    hide Sum;
    var r := K.addmm(C, A, B);
    assert r == AddProduct(C, A, B);
    forall a | 0 <= a < |C| ensures r[a] == C[a] {
      forall c | 0 <= c < |C[a]| ensures r[a][c] == C[a][c] {
        SumZero(0, |A|, x => Entry(A, x, a) * Entry(B, x, c));
      }
    }
  }

  /** Exact arithmetic is neutral. */
  lemma ExactIsNeutral<I(!new)>(K: Kernel<real, I>)
    requires Exact(K)
    ensures Neutral(K)
  {
    forall C, A, B | AllZero(K, A) ensures K.addmm(C, A, B) == C {
      AddZeroProduct(K, C, A, B);
    }
  }

  /** Whole tiles of 16 rows and 16 columns. */
  ghost predicate Tiled<S(!new), I(!new)>(K: Kernel<S, I>, W: Mat<S>, tn: nat) {
    Shaped(K) && Shape(W, |W|, 16 * tn) && |W| % 16 == 0
  }

  /** Block b quantized by itself. */
  ghost predicate Alone<S(!new), I(!new)>(K: Kernel<S, I>, W: Mat<S>, tn: nat, wq: Mat<S>, enc: seq<seq<seq<I>>>,
                                          b: int)
    requires Tiled(K, W, tn) && Shape(wq, |W|, 16 * tn) && |enc| == |W| / 16 && 0 <= b < |W| / 16
  {
    var tiles := TilesOf(W[16 * b..16 * b + 16], tn);
    assert Shape(Values(K, tiles), tn, 256);
    wq[16 * b..16 * b + 16] == RowsOf(Values(K, tiles), tn) && enc[b] == Indices(K, tiles)
  }

  /** Every 16-row block is quantized by itself. */
  ghost predicate AllAlone<S(!new), I(!new)>(K: Kernel<S, I>, W: Mat<S>, tn: nat, wq: Mat<S>, enc: seq<seq<seq<I>>>) {
    && Tiled(K, W, tn) && Shape(wq, |W|, 16 * tn) && |enc| == |W| / 16
    && forall b :: 0 <= b < |W| / 16 ==> Alone(K, W, tn, wq, enc, b)
  }

  /** There is one such result. */
  lemma AloneUnique<S(!new), I(!new)>(K: Kernel<S, I>, W: Mat<S>, tn: nat, wq: Mat<S>, enc: seq<seq<seq<I>>>,
                                      wq': Mat<S>, enc': seq<seq<seq<I>>>)
    requires AllAlone(K, W, tn, wq, enc) && AllAlone(K, W, tn, wq', enc')
    ensures wq == wq' && enc == enc'
  {
    hide TilesOf, RowsOf, Values, Indices;
    forall b | 0 <= b < |W| / 16 ensures enc[b] == enc'[b] {
      assert Alone(K, W, tn, wq, enc, b) && Alone(K, W, tn, wq', enc', b);
    }
    forall r | 0 <= r < |W| ensures wq[r] == wq'[r] {
      var b, a := r / 16, r % 16;
      assert Alone(K, W, tn, wq, enc, b) && Alone(K, W, tn, wq', enc', b);
      assert wq[r] == wq[16 * b..16 * b + 16][a] && wq'[r] == wq'[16 * b..16 * b + 16][a];
    }
  }

  /** Tile by tile, such a result holds what the quantizer gives for that tile of the weight. */
  lemma TileAlone<S(!new), I(!new)>(K: Kernel<S, I>, W: Mat<S>, tn: nat, wq: Mat<S>, enc: seq<seq<seq<I>>>, b: int,
                                    t: int)
    requires AllAlone(K, W, tn, wq, enc) && 0 <= b < |W| / 16 && 0 <= t < tn
    ensures Shape(W[16 * b..16 * b + 16], 16, 16 * tn) && Shape(wq[16 * b..16 * b + 16], 16, 16 * tn) && |enc[b]| == tn
    ensures var tile := TilesOf(W[16 * b..16 * b + 16], tn)[t];
            TilesOf(wq[16 * b..16 * b + 16], tn)[t] == K.value(tile) && enc[b][t] == K.index(tile)
  {
    hide TilesOf, RowsOf;
    assert Alone(K, W, tn, wq, enc, b);
    var tiles := TilesOf(W[16 * b..16 * b + 16], tn);
    assert Shape(Values(K, tiles), tn, 256);
    TilesOfRowsOf(Values(K, tiles), tn);
  }

  // ---------------------------------------------------------------- LDLQ with L = 0

  /** With L = 0 the cache stays zero, and every finished block is quantized by itself. */
  ghost predicate Idle<S(!new), I(!new)>(p: Problem<S, I>, e: int, s: State<S, I>)
    requires Ok(p) && Fits(p, s)
  {
    && s.cache == Zeros(p.K.zero, p.k, p.n)
    && forall b :: e <= 16 * b && 0 <= b < p.k / 16 ==> Alone(p.K, p.W, p.tn, s.wq, s.enc, b)
  }

  lemma CompIsZero<S(!new), I(!new)>(p: Problem<S, I>, j: int, bj: int, s: State<S, I>)
    requires Ok(p) && Neutral(p.K) && AllZero(p.K, p.L) && Fits(p, s) && At(p, j, bj) && j > 0
    requires s.cache == Zeros(p.K.zero, p.k, p.n)
    ensures Comp(p, j, bj, s) == Zeros(p.K.zero, 16, p.n)
    ensures Prepared(p, j, bj, s) == s
    ensures Input(p, j, bj, s) == p.W[j - p.buf + bj - 16..j - p.buf + bj]
  {
    hide Err;
    var e := j - p.buf + bj;
    assert s.cache[e - 16..e] == Zeros(p.K.zero, 16, p.n);
    assert AllZero(p.K, LSlice(p, e, j, e - 16));
    var rows, w := Input(p, j, bj, s), p.W[e - 16..e];
    forall a | 0 <= a < 16 ensures rows[a] == w[a] {
      forall c | 0 <= c < p.n ensures rows[a][c] == w[a][c] {}
    }
  }

  lemma EndSpanIdle<S(!new), I(!new)>(p: Problem<S, I>, j: int, s: State<S, I>)
    requires Ok(p) && Neutral(p.K) && AllZero(p.K, p.L) && Fits(p, s) && p.buf <= j <= p.k
    requires s.cache == Zeros(p.K.zero, p.k, p.n)
    ensures EndSpan(p, j, s) == s
  {
    hide Err;
    assert AllZero(p.K, p.L[j - p.buf..j]);
  }

  lemma AloneFrame<S(!new), I(!new)>(p: Problem<S, I>, wq: Mat<S>, enc: seq<seq<seq<I>>>,
                                     wq': Mat<S>, enc': seq<seq<seq<I>>>, b: int)
    requires Ok(p) && Shape(wq, p.k, p.n) && Shape(wq', p.k, p.n) && |enc| == |enc'| == p.k / 16 && 0 <= b < p.k / 16
    requires Alone(p.K, p.W, p.tn, wq, enc, b) && enc'[b] == enc[b]
    requires forall r :: 16 * b <= r < p.k ==> wq[r] == wq'[r]
    ensures Alone(p.K, p.W, p.tn, wq', enc', b)
  {
    hide TilesOf, RowsOf, Values, Indices;
    assert wq[16 * b..16 * b + 16] == wq'[16 * b..16 * b + 16];
  }

  lemma StepAlone<S(!new), I(!new)>(p: Problem<S, I>, j: int, bj: int, s: State<S, I>, t: State<S, I>, b: int)
    requires Ok(p) && Fits(p, s) && At(p, j, bj) && j > 0 && Fits(p, t) && t == Step(p, j, bj, s)
    requires 16 * b + 16 == j - p.buf + bj && 0 <= b < p.k / 16
    requires Input(p, j, bj, s) == p.W[16 * b..16 * b + 16]
    ensures Alone(p.K, p.W, p.tn, t.wq, t.enc, b)
  {
    hide Comp, Input, RowsOf, Values, Indices, TilesOf;
  }

  lemma OkTiled<S(!new), I(!new)>(p: Problem<S, I>)
    requires Ok(p)
    ensures Tiled(p.K, p.W, p.tn)
  {
  }

  lemma StepIdle<S(!new), I(!new)>(p: Problem<S, I>, j: int, bj: int, s: State<S, I>, t: State<S, I>)
    requires Ok(p) && Neutral(p.K) && AllZero(p.K, p.L) && Fits(p, s) && At(p, j, bj) && j > 0 && Fits(p, t)
    requires Idle(p, j - p.buf + bj, s) && t == Step(p, j, bj, s)
    ensures Idle(p, j - p.buf + bj - 16, t)
  {
    hide Step, Alone, Input, Prepared, Comp, Neutral, AllZero, Ok, Tiled, Spans;
    OkTiled(p);
    var e := j - p.buf + bj;
    CompIsZero(p, j, bj, s);
    StepFrame(p, j, bj, s, t);
    var b := BlockBelow(p, j, bj);
    StepAlone(p, j, bj, s, t, b);
    forall x | e <= 16 * x && 0 <= x < p.k / 16 ensures Alone(p.K, p.W, p.tn, t.wq, t.enc, x) {
      AloneFrame(p, s.wq, s.enc, t.wq, t.enc, x);
    }
  }

  lemma {:induction false} RunIdle<S(!new), I(!new)>(p: Problem<S, I>, j: int, bj: int, s: State<S, I>)
    requires Ok(p) && Neutral(p.K) && AllZero(p.K, p.L) && Fits(p, s) && At(p, j, bj)
    requires Idle(p, if j == 0 then 0 else j - p.buf + bj, s)
    ensures Idle(p, 0, Run(p, j, bj, s))
    decreases j, bj
  {
    hide Step, EndSpan, Fits, Alone, Neutral, AllZero;
    if j > 0 {
      var t := Step(p, j, bj, s);
      StepIdle(p, j, bj, s, t);
      RunOn(p, j, bj, s, t);
      if bj > 16 {
        RunIdle(p, j, bj - 16, t);
      } else {
        EndSpanIdle(p, j, t);
        RunIdle(p, j - p.buf, p.buf, t);
      }
    }
  }

  /** LDLQ with L = 0 quantizes every block by itself. */
  lemma ZeroLdlqIsAlone<S(!new), I(!new)>(p: Problem<S, I>)
    requires Ok(p) && Neutral(p.K) && AllZero(p.K, p.L)
    ensures AllAlone(p.K, p.W, p.tn, Result(p).wq, Result(p).enc)
  {
    hide Alone, Run, Neutral, AllZero;
    WholeSpans(p.k, p.buf);
    RunIdle(p, p.k, p.buf, Start(p));
  }

  // ---------------------------------------------------------------- the whole matrix in one batch

  lemma TileIndex(tk: nat, tn: nat, x: int)
    requires 0 <= x < tk * tn
    ensures tn > 0 && 0 <= x / tn < tk && 0 <= x % tn < tn
  {
    var q := x / tn;
    assert x == tn * q + x % tn;
    if q >= tk { assert tn * q >= tn * tk by { Ordered(tn, tk, q); } }
  }

  lemma TileNumber(tk: nat, tn: nat, P: int, t: int)
    requires 0 <= P < tk && 0 <= t < tn
    ensures 0 <= tn * P + t < tk * tn && (tn * P + t) / tn == P && (tn * P + t) % tn == t
  {
    DivMod(tn, P, t);
    Ordered(tn, P + 1, tk);
  }

  /** All tiles of the matrix: view(tk, 16, tn, 16).permute(0, 2, 1, 3).reshape(tk * tn, 256), then permuted. */
  function WholeTiles<S>(W: Mat<S>, tn: nat): (tiles: Mat<S>)
    requires Shape(W, |W|, 16 * tn) && |W| % 16 == 0
    ensures Shape(tiles, |W| / 16 * tn, 256)
  {
    seq(|W| / 16 * tn, x requires 0 <= x < |W| / 16 * tn =>
      TileIndex(|W| / 16, tn, x);
      Take(seq(256, y requires 0 <= y < 256 => W[16 * (x / tn) + y / 16][16 * (x % tn) + y % 16]), Perm()))
  }

  /** The inverse view of a batch: view(tk, tn, 16, 16).permute(0, 2, 1, 3).reshape(k, n). */
  function WholeRows<S>(tiles: Mat<S>, tk: nat, tn: nat): (m: Mat<S>)
    requires Shape(tiles, tk * tn, 256)
    ensures Shape(m, 16 * tk, 16 * tn)
  {
    seq(16 * tk, r requires 0 <= r < 16 * tk =>
      seq(16 * tn, c requires 0 <= c < 16 * tn =>
        TileNumber(tk, tn, r / 16, c / 16);
        Take(tiles[tn * (r / 16) + c / 16], PermInv())[r % 16 * 16 + c % 16]))
  }

  /** view(tk, tn, 256) of the indices. */
  function Grouped<T>(s: seq<T>, tk: nat, tn: nat): (g: seq<seq<T>>)
    requires |s| == tk * tn
    ensures |g| == tk && forall P :: 0 <= P < tk ==> |g[P]| == tn
  {
    seq(tk, P requires 0 <= P < tk =>
      seq(tn, t requires 0 <= t < tn => TileNumber(tk, tn, P, t); s[tn * P + t]))
  }

  /** The two gathers visit the same tiles: tile t of block b is tile tn * b + t of the whole. */
  lemma SameTile<S>(W: Mat<S>, tn: nat, b: int, t: int)
    requires Shape(W, |W|, 16 * tn) && |W| % 16 == 0 && 0 <= b < |W| / 16 && 0 <= t < tn
    ensures 0 <= tn * b + t < |W| / 16 * tn
    ensures WholeTiles(W, tn)[tn * b + t] == TilesOf(W[16 * b..16 * b + 16], tn)[t]
  {
    hide Perm, Take;
    TileNumber(|W| / 16, tn, b, t);
    var x := tn * b + t;
    var whole := seq(256, y requires 0 <= y < 256 => W[16 * (x / tn) + y / 16][16 * (x % tn) + y % 16]);
    var raw := RawTile(W[16 * b..16 * b + 16], tn, t);
    forall y | 0 <= y < 256 ensures whole[y] == raw[y] {
      assert W[16 * b..16 * b + 16][y / 16] == W[16 * b + y / 16];
    }
    assert whole == raw;
  }

  lemma WholeRowsIs<S>(tiles: Mat<S>, tk: nat, tn: nat, r: int, c: int)
    requires Shape(tiles, tk * tn, 256) && 0 <= r < 16 * tk && 0 <= c < 16 * tn
    ensures 0 <= tn * (r / 16) + c / 16 < |tiles|
    ensures WholeRows(tiles, tk, tn)[r][c] == Take(tiles[tn * (r / 16) + c / 16], PermInv())[r % 16 * 16 + c % 16]
  {
    hide PermInv, Take;
    TileNumber(tk, tn, r / 16, c / 16);
  }

  lemma WholeRowsAt<S>(tiles: Mat<S>, tk: nat, tn: nat, b: int, a: int, c: int)
    requires Shape(tiles, tk * tn, 256) && 0 <= b < tk && 0 <= a < 16 && 0 <= c < 16 * tn
    ensures 0 <= tn * b + c / 16 < |tiles|
    ensures WholeRows(tiles, tk, tn)[16 * b + a][c] == Take(tiles[tn * b + c / 16], PermInv())[a * 16 + c % 16]
  {
    hide PermInv, Take, WholeRows;
    DivMod(16, b, a);
    WholeRowsIs(tiles, tk, tn, 16 * b + a, c);
  }

  lemma WholeBlock<S(!new), I(!new)>(K: Kernel<S, I>, W: Mat<S>, tn: nat, b: int)
    requires Tiled(K, W, tn) && 0 <= b < |W| / 16 && Shape(Values(K, WholeTiles(W, tn)), |W| / 16 * tn, 256)
    ensures var tiles, tk := WholeTiles(W, tn), |W| / 16;
            Alone(K, W, tn, WholeRows(Values(K, tiles), tk, tn), Grouped(Indices(K, tiles), tk, tn), b)
  {
    hide TilesOf, WholeRows, WholeTiles, RowsOf, Take, PermInv;
    var tiles, tk, mine := WholeTiles(W, tn), |W| / 16, TilesOf(W[16 * b..16 * b + 16], tn);
    var q := Values(K, tiles);
    var rows, wq := RowsOf(Values(K, mine), tn), WholeRows(q, tk, tn);
    var part := wq[16 * b..16 * b + 16];
    forall a | 0 <= a < 16 ensures part[a] == rows[a] {
      forall c | 0 <= c < 16 * tn ensures part[a][c] == rows[a][c] {
        WholeRowsAt(q, tk, tn, b, a, c);
        SameTile(W, tn, b, c / 16);
        RowsOfAt(Values(K, mine), tn, c / 16, a, c % 16);
        assert c == c / 16 * 16 + c % 16;
        assert part[a] == wq[16 * b + a];
      }
    }
    var group := Grouped(Indices(K, tiles), tk, tn)[b];
    forall t | 0 <= t < tn ensures group[t] == Indices(K, mine)[t] {
      SameTile(W, tn, b, t);
    }
    assert group == Indices(K, mine);
  }

  /** One batch over the whole matrix quantizes every block by itself. */
  lemma WholeIsAlone<S(!new), I(!new)>(K: Kernel<S, I>, W: Mat<S>, tn: nat)
    requires Tiled(K, W, tn)
    ensures var tiles, tk := WholeTiles(W, tn), |W| / 16;
            Shape(Values(K, tiles), tk * tn, 256)
            && AllAlone(K, W, tn, WholeRows(Values(K, tiles), tk, tn), Grouped(Indices(K, tiles), tk, tn))
  {
    hide TilesOf, RowsOf, WholeRows, Grouped, WholeTiles, Take, PermInv;
    var tiles, tk := WholeTiles(W, tn), |W| / 16;
    var q := Values(K, tiles);
    assert Shape(q, tk * tn, 256);
    var wq, enc := WholeRows(q, tk, tn), Grouped(Indices(K, tiles), tk, tn);
    forall b | 0 <= b < tk ensures Alone(K, W, tn, wq, enc, b) {
      WholeBlock(K, W, tn, b);
    }
  }

  /** Identity-Hessian quantization of the whole matrix in one quantizer call. */
  method TrellisQuantAllTiles<S(!new), I(!new)>(K: Kernel<S, I>, weight: array<seq<S>>, tn: nat)
      returns (wq: array<seq<S>>, encoded: array<seq<seq<I>>>)
    requires Tiled(K, weight[..], tn)
    ensures fresh(wq) && fresh(encoded) && AllAlone(K, weight[..], tn, wq[..], encoded[..])
  {
    hide WholeTiles, WholeRows, Grouped, Alone;
    WholeIsAlone(K, weight[..], tn);
    var tk := weight.Length / 16;
    var tiles := WholeTiles(weight[..], tn);
    var rows := WholeRows(Values(K, tiles), tk, tn);
    var groups := Grouped(Indices(K, tiles), tk, tn);
    wq := new seq<S>[weight.Length](r requires 0 <= r < |rows| => rows[r]);
    encoded := new seq<seq<I>>[tk](b requires 0 <= b < |groups| => groups[b]);
    assert wq[..] == rows && encoded[..] == groups;
  }

  ghost predicate Sixteenfold(x: int) { x % 16 == 0 }

  /** The block below bj in the span that ends at j. */
  lemma NextBlock(j: int, buf: int, bj: int)
    requires Spans(j, buf) && j > 0 && Sixteenfold(buf) && Sixteenfold(bj) && 0 < bj <= buf
    ensures 0 <= j - buf + bj - 16 && bj >= 16 && Sixteenfold(bj - 16) && Sixteenfold(j - buf + bj - 16)
  {
    SpansAreTiled(j, buf);
  }

  lemma ValuesAreTiles<S(!new), I(!new)>(K: Kernel<S, I>, tiles: Mat<S>, tn: nat)
    requires Shaped(K) && Shape(tiles, tn, 256)
    ensures Shape(Values(K, tiles), tn, 256)
  {
  }

  /** The blocks from row lo on are quantized by themselves. */
  ghost predicate AloneFrom<S(!new), I(!new)>(K: Kernel<S, I>, W: Mat<S>, tn: nat, wq: Mat<S>, enc: seq<seq<seq<I>>>,
                                              lo: int)
    requires Tiled(K, W, tn)
  {
    && Shape(wq, |W|, 16 * tn) && |enc| == |W| / 16
    && forall b :: lo <= 16 * b && 0 <= b < |W| / 16 ==> Alone(K, W, tn, wq, enc, b)
  }

  /** One block of the reference loop. */
  method AloneBlock<S(!new), I(!new)>(K: Kernel<S, I>, weight: array<seq<S>>, tn: nat,
                                      weightQ: array<seq<S>>, encoded: array<seq<seq<I>>>, lo: int, ghost W: Mat<S>)
    requires Tiled(K, W, tn) && weight[..] == W && weightQ.Length == |W| && encoded.Length == |W| / 16
    requires 0 <= lo <= lo + 16 <= |W| && Sixteenfold(lo) && Shape(weightQ[..], |W|, 16 * tn)
    requires weightQ as object != encoded && weight !in {weightQ} && weight as object != encoded
    requires AloneFrom(K, W, tn, weightQ[..], encoded[..], lo + 16)
    modifies weightQ, encoded
    ensures Shape(weightQ[..], |W|, 16 * tn)
    ensures AloneFrom(K, W, tn, weightQ[..], encoded[..], lo)
  {
    hide TilesOf, RowsOf, Values, Indices, Splice;
    ghost var q, x := weightQ[..], encoded[..];
    var tiles := TilesOf(weight[lo..lo + 16], tn);
    assert Shape(Values(K, tiles), tn, 256) by { ValuesAreTiles(K, tiles, tn); }
    StoreBlock(tn, weightQ, encoded, lo, Values(K, tiles), Indices(K, tiles));
    forall b | lo <= 16 * b && b < |W| / 16 ensures Alone(K, W, tn, weightQ[..], encoded[..], b) {
      assert W[lo..lo + 16] == weight[lo..lo + 16];
      if 16 * b == lo {
        assert weightQ[..][lo..lo + 16] == RowsOf(Values(K, tiles), tn);
      } else {
        assert Alone(K, W, tn, q, x, b);
        assert weightQ[..][16 * b..16 * b + 16] == q[16 * b..16 * b + 16];
      }
    }
  }

  lemma SpanInside(j: int, buf: int)
    requires Spans(j, buf) && j > 0
    ensures buf <= j
  {
  }

  /** The blocks of the span that ends at j. */
  method AloneSpan<S(!new), I(!new)>(K: Kernel<S, I>, weight: array<seq<S>>, tn: nat, buf: nat,
                                     weightQ: array<seq<S>>, encoded: array<seq<seq<I>>>, j: int, ghost W: Mat<S>)
    requires Tiled(K, W, tn) && weight[..] == W && weightQ.Length == |W| && encoded.Length == |W| / 16
    requires 0 < j <= |W| && Spans(j, buf) && 16 <= buf && Sixteenfold(buf) && Shape(weightQ[..], |W|, 16 * tn)
    requires weightQ as object != encoded && weight !in {weightQ} && weight as object != encoded
    requires AloneFrom(K, W, tn, weightQ[..], encoded[..], j)
    modifies weightQ, encoded
    ensures Shape(weightQ[..], |W|, 16 * tn)
    ensures AloneFrom(K, W, tn, weightQ[..], encoded[..], j - buf)
  {
    hide AloneFrom, Shape, Spans, Tiled, Sixteenfold;
    SpanInside(j, buf);
    var i, bj := j - buf, buf;
    while bj > 0
      invariant 0 <= bj <= buf && Sixteenfold(bj) && weight[..] == W
      invariant Shape(weightQ[..], |W|, 16 * tn)
      invariant AloneFrom(K, W, tn, weightQ[..], encoded[..], i + bj)
    {
      NextBlock(j, buf, bj);
      AloneBlock(K, weight, tn, weightQ, encoded, i + bj - 16, W);
      bj := bj - 16;
    }
  }

  /** The reference loop without feedback: spans and blocks bottom-up, each block quantized by itself. When the height
      is no multiple of buf, the last span has no row for its first block, which does not take the shape of tiles: the
      call fails. */
  method ReferenceFallbackQuant<S(!new), I(!new)>(K: Kernel<S, I>, weight: array<seq<S>>, tn: nat, buf: nat)
      returns (ok: bool, weightQ: array<seq<S>>, encoded: array<seq<seq<I>>>)
    requires Tiled(K, weight[..], tn) && 16 <= buf && buf % 16 == 0 && (tn > 0 || weight.Length % buf == 0)
    ensures fresh(weightQ) && fresh(encoded)
    ensures ok <==> weight.Length % buf == 0
    ensures ok ==> AllAlone(K, weight[..], tn, weightQ[..], encoded[..])
  {
    hide Alone, Splice, TilesOf, RowsOf, Values, Indices;
    var k := weight.Length;
    ghost var W := weight[..];
    var zeroRow := Zeros(K.zero, 1, 16 * tn)[0];
    weightQ := new seq<S>[k](_ => zeroRow);
    encoded := new seq<seq<I>>[k / 16](_ => Zeros(K.zeroIndex, tn, 256));
    ok := k % buf == 0;
    if !ok {
      return;
    }
    WholeSpans(k, buf);
    var j := k;
    while j > 0
      invariant Spans(j, buf) && 0 <= j <= k && weight[..] == W
      invariant Shape(weightQ[..], k, 16 * tn)
      invariant AloneFrom(K, W, tn, weightQ[..], encoded[..], j)
    {
      AloneSpan(K, weight, tn, buf, weightQ, encoded, j, W);
      j := j - buf;
    }
  }

  /** LDLQ with L = 0 is the one-batch quantization and the reference loop. */
  lemma ZeroLdlqIsBatch<S(!new), I(!new)>(p: Problem<S, I>, wq: Mat<S>, enc: seq<seq<seq<I>>>)
    requires Ok(p) && Neutral(p.K) && AllZero(p.K, p.L) && AllAlone(p.K, p.W, p.tn, wq, enc)
    ensures Result(p).wq == wq && Result(p).enc == enc
  {
    hide AllAlone;
    ZeroLdlqIsAlone(p);
    AloneUnique(p.K, p.W, p.tn, wq, enc, Result(p).wq, Result(p).enc);
  }

  lemma ZerosOk<S(!new), I(!new)>(K: Kernel<S, I>, W: Mat<S>, tn: nat, buf: nat, L: Mat<S>)
    requires Tiled(K, W, tn) && 16 * tn % 128 == 0 && 16 <= buf && buf % 16 == 0 && 16 * tn % buf == 0 && |W| % buf == 0
    requires |L| == |W| && forall r :: 0 <= r < |L| ==> L[r] == Zeros(K.zero, 1, |W|)[0]
    ensures L == Zeros(K.zero, |W|, |W|) && AllZero(K, L)
    ensures var p := Problem(K, W, L, tn, buf); Ok(p) && Admitted(p)
  {
  }

  /** The encoder's self-check: LDLQ with L = 0, the batch and the reference loop side by side. It passes exactly if
      LDLQ with L = 0 quantizes every block by itself, which it does on every weight where adding a product with zeros
      changes nothing. */
  method SelfCheck<S(!new, ==), I(!new, ==)>(K: Kernel<S, I>, weight: array<seq<S>>, tn: nat, buf: nat)
      returns (passed: bool)
    requires Tiled(K, weight[..], tn) && 16 * tn % 128 == 0
    requires 16 <= buf && buf % 16 == 0 && 16 * tn % buf == 0 && weight.Length % buf == 0
    ensures var p := Problem(K, weight[..], Zeros(K.zero, weight.Length, weight.Length), tn, buf);
            Ok(p) && (passed <==> AllAlone(K, weight[..], tn, Result(p).wq, Result(p).enc))
    ensures Neutral(K) ==> passed
  {
    hide Neutral, AllAlone, Result, Ok, Admitted, Tiled, Zeros, AllZero;
    var k := weight.Length;
    var zeroRow := Zeros(K.zero, 1, k)[0];
    var L := new seq<S>[k](_ => zeroRow);
    ghost var p := Problem(K, weight[..], L[..], tn, buf);
    ZerosOk(K, weight[..], tn, buf, L[..]);
    var okA, wqA, encA := Ldlq.Ldlq(K, weight, L, tn, buf);
    var wqB, encB := TrellisQuantAllTiles(K, weight, tn);
    var okC, wqC, encC := ReferenceFallbackQuant(K, weight, tn, buf);
    passed := encA[..] == encB[..] && wqA[..] == wqB[..] && encA[..] == encC[..] && wqA[..] == wqC[..];
    AloneUnique(K, weight[..], tn, wqB[..], encB[..], wqC[..], encC[..]);
    if AllAlone(K, weight[..], tn, wqA[..], encA[..]) {
      AloneUnique(K, weight[..], tn, wqA[..], encA[..], wqB[..], encB[..]);
    }
    if Neutral(K) {
      ZeroLdlqIsAlone(p);
    }
  }
}

/** Blocked LDLQ with error feedback over opaque arithmetic: the machine of its 16-row steps and the
    sequential two-level loop that runs it. */
module Ldlq {
  import opened Arithmetic
  import opened Tiles

  /** The scalar operations, the matrix kernel C + A^T B and the per-tile quantizer, all left opaque. */
  datatype Kernel<!S, !I> = Kernel(
    zero: S,
    zeroIndex: I,
    add: (S, S) -> S,
    sub: (S, S) -> S,
    addmm: (Mat<S>, Mat<S>, Mat<S>) -> Mat<S>,
    value: seq<S> -> seq<S>,
    index: seq<S> -> seq<I>)

  /** What is assumed of the kernel: results have the shapes of the tensors they are stored in. */
  ghost predicate Shaped<S(!new), I(!new)>(K: Kernel<S, I>) {
    && (forall C, A, B :: |K.addmm(C, A, B)| == |C|)
    && (forall C, A, B, r :: 0 <= r < |C| ==> |K.addmm(C, A, B)[r]| == |C[r]|)
    && (forall t :: |t| == 256 ==> |K.value(t)| == 256)
    && (forall t :: |t| == 256 ==> |K.index(t)| == 256)
  }

  /** quantize_tiles over a batch: every tile is quantized by itself. */
  function Values<S, I>(K: Kernel<S, I>, tiles: Mat<S>): (r: Mat<S>)
    ensures |r| == |tiles|
  {
    seq(|tiles|, t requires 0 <= t < |tiles| => K.value(tiles[t]))
  }

  function Indices<S, I>(K: Kernel<S, I>, tiles: Mat<S>): (r: seq<seq<I>>)
    ensures |r| == |tiles|
  {
    seq(|tiles|, t requires 0 <= t < |tiles| => K.index(tiles[t]))
  }

  function Zip<S>(f: (S, S) -> S, a: seq<S>, b: seq<S>): (r: seq<S>)
    requires |a| == |b|
    ensures |r| == |a|
  {
    seq(|a|, c requires 0 <= c < |a| => f(a[c], b[c]))
  }

  function ZipM<S>(f: (S, S) -> S, a: Mat<S>, b: Mat<S>): (r: Mat<S>)
    requires |a| == |b| && forall x :: 0 <= x < |a| ==> |a[x]| == |b[x]|
    ensures |r| == |a| && forall x :: 0 <= x < |r| ==> |r[x]| == |a[x]|
  {
    seq(|a|, x requires 0 <= x < |a| => Zip(f, a[x], b[x]))
  }

  /** Columns [c, c + 16) of m. */
  function Columns<S>(m: Mat<S>, c: int): (r: Mat<S>)
    requires 0 <= c && forall x :: 0 <= x < |m| ==> c + 16 <= |m[x]|
    ensures Shape(r, |m|, 16)
  {
    seq(|m|, x requires 0 <= x < |m| => m[x][c..c + 16])
  }

  /** m with the rows from lo on replaced by part. */
  function Splice<T>(m: seq<T>, lo: int, part: seq<T>): (r: seq<T>)
    requires 0 <= lo <= lo + |part| <= |m|
    ensures |r| == |m|
    ensures forall x :: 0 <= x < |m| ==> r[x] == if lo <= x < lo + |part| then part[x - lo] else m[x]
  {
    m[..lo] + part + m[lo + |part|..]
  }

  /** A feedback matrix with zeros on its diagonal. */
  function ZeroDiagonal<S>(z: S, L: Mat<S>): (r: Mat<S>)
    ensures |r| == |L| && forall x :: 0 <= x < |L| ==> |r[x]| == |L[x]|
  {
    seq(|L|, x requires 0 <= x < |L| => if x < |L[x]| then L[x][x := z] else L[x])
  }

  /** One slice to quantize: its weight, its feedback matrix and the span height. */
  datatype Problem<!S, !I> = Problem(K: Kernel<S, I>, W: Mat<S>, L: Mat<S>, tn: nat, buf: nat) {
    const k := |W|
    const n := 16 * tn
  }

  /** The assertions a run starts with. */
  ghost predicate Ok<S(!new), I(!new)>(p: Problem<S, I>) {
    match p
    case Problem(K, W, L, tn, buf) =>
      && Shaped(K)
      && Shape(W, |W|, 16 * tn) && Shape(L, |W|, |W|)
      && |W| % 16 == 0 && 16 * tn % 128 == 0
      && 16 <= buf && buf % 16 == 0 && 16 * tn % buf == 0 && |W| % buf == 0
  }

  /** What sequential LDLQ asserts of its inputs; it does not assert that the span height divides the height. */
  ghost predicate Admitted<S(!new), I(!new)>(p: Problem<S, I>) {
    && Shaped(p.K)
    && Shape(p.W, |p.W|, 16 * p.tn) && Shape(p.L, |p.W|, |p.W|)
    && |p.W| % 16 == 0 && 16 * p.tn % 128 == 0
    && 16 <= p.buf && p.buf % 16 == 0 && 16 * p.tn % p.buf == 0
  }

  lemma OkIs<S(!new), I(!new)>(p: Problem<S, I>)
    ensures Ok(p) <==> Admitted(p) && p.buf >= 16 && |p.W| % p.buf == 0
  {
  }

  /** The three buffers a run writes. */
  datatype State<S, I> = State(wq: Mat<S>, enc: seq<seq<seq<I>>>, cache: Mat<S>)

  ghost predicate Fits<S, I>(p: Problem<S, I>, s: State<S, I>) {
    match s
    case State(wq, enc, cache) => Shape(wq, p.k, p.n) && Shape(cache, p.k, p.n) && |enc| == p.k / 16
  }

  /** Rows 0 to j are whole spans. */
  ghost predicate Spans(j: int, buf: int) {
    j == 0 || (0 < buf <= j && Spans(j - buf, buf))
  }

  lemma {:induction false} WholeSpans(j: int, buf: int)
    requires 0 <= j && 0 < buf && j % buf == 0
    ensures Spans(j, buf)
    decreases j
  {
    if j > 0 {
      var q := j / buf;
      assert j == buf * q;
      if q >= 1 { AtLeastOnce(buf, q); }
      assert j - buf == buf * (q - 1) + 0;
      DivMod(buf, q - 1, 0);
      WholeSpans(j - buf, buf);
    }
  }

  lemma {:induction false} SpansAreTiled(j: int, buf: int)
    requires Spans(j, buf) && buf % 16 == 0
    ensures j % 16 == 0
    decreases j
  {
    if j > 0 { SpansAreTiled(j - buf, buf); }
  }

  /** The position of a run: span [j - buf, j), whose rows from bj on are quantized. */
  ghost predicate At<S, I>(p: Problem<S, I>, j: int, bj: int) {
    && Spans(j, p.buf) && j <= p.k
    && 16 <= bj <= p.buf && bj % 16 == 0
  }

  function Zeros<S>(z: S, rows: nat, cols: nat): (m: Mat<S>)
    ensures Shape(m, rows, cols)
  {
    seq(rows, _ => seq(cols, _ => z))
  }

  function Start<S(!new), I(!new)>(p: Problem<S, I>): (s: State<S, I>)
    ensures Fits(p, s)
  {
    State(Zeros(p.K.zero, p.k, p.n), seq(p.k / 16, _ => Zeros(p.K.zeroIndex, p.tn, 256)), Zeros(p.K.zero, p.k, p.n))
  }

  /** Rows [lo, hi) of W - Wq. */
  function Err<S(!new), I(!new)>(p: Problem<S, I>, wq: Mat<S>, lo: int, hi: int): (e: Mat<S>)
    requires Ok(p) && Shape(wq, p.k, p.n) && 0 <= lo <= hi <= p.k
    ensures Shape(e, hi - lo, p.n)
  {
    ZipM(p.K.sub, p.W[lo..hi], wq[lo..hi])
  }

  /** Rows [lo, hi) and columns [c, c + 16) of the feedback matrix. */
  function LSlice<S(!new), I(!new)>(p: Problem<S, I>, lo: int, hi: int, c: int): (m: Mat<S>)
    requires Ok(p) && 0 <= lo <= hi <= p.k && 0 <= c <= c + 16 <= p.k
    ensures Shape(m, hi - lo, 16)
  {
    Columns(p.L[lo..hi], c)
  }

  /** The compensation term of the block that ends at row j - buf + bj. */
  function Comp<S(!new), I(!new)>(p: Problem<S, I>, j: int, bj: int, s: State<S, I>): (m: Mat<S>)
    requires Ok(p) && Fits(p, s) && At(p, j, bj) && j > 0
    ensures Shape(m, 16, p.n)
  {
    var e := j - p.buf + bj;
    p.K.addmm(s.cache[e - 16..e], LSlice(p, e, j, e - 16), Err(p, s.wq, e, j))
  }

  /** The rows that block gives to the quantizer. */
  function Input<S(!new), I(!new)>(p: Problem<S, I>, j: int, bj: int, s: State<S, I>): (m: Mat<S>)
    requires Ok(p) && Fits(p, s) && At(p, j, bj) && j > 0
    ensures Shape(m, 16, p.n)
  {
    var e := j - p.buf + bj;
    ZipM(p.K.add, p.W[e - 16..e], Comp(p, j, bj, s))
  }

  /** The tiles that block gives to the quantizer. */
  function Batch<S(!new), I(!new)>(p: Problem<S, I>, j: int, bj: int, s: State<S, I>): (tiles: Mat<S>)
    requires Ok(p) && Fits(p, s) && At(p, j, bj) && j > 0
    ensures Shape(tiles, p.tn, 256)
  {
    TilesOf(Input(p, j, bj, s), p.tn)
  }

  /** The state after the in-place compensation update of a block. */
  function Prepared<S(!new), I(!new)>(p: Problem<S, I>, j: int, bj: int, s: State<S, I>): (t: State<S, I>)
    requires Ok(p) && Fits(p, s) && At(p, j, bj) && j > 0
    ensures Fits(p, t)
  {
    s.(cache := Splice(s.cache, j - p.buf + bj - 16, Comp(p, j, bj, s)))
  }

  /** The state after quantized tiles are stored for a prepared block. */
  function Stored<S(!new), I(!new)>(p: Problem<S, I>, j: int, bj: int, s: State<S, I>,
                                    quantW: Mat<S>, quantI: seq<seq<I>>): (t: State<S, I>)
    requires Ok(p) && Fits(p, s) && At(p, j, bj) && j > 0 && Shape(quantW, p.tn, 256)
    ensures Fits(p, t)
  {
    var lo := j - p.buf + bj - 16;
    var b := lo / 16;
    assert 0 <= b < p.k / 16;
    s.(wq := Splice(s.wq, lo, RowsOf(quantW, p.tn)), enc := s.enc[b := quantI])
  }

  /** The state after one block. */
  function Step<S(!new), I(!new)>(p: Problem<S, I>, j: int, bj: int, s: State<S, I>): (t: State<S, I>)
    requires Ok(p) && Fits(p, s) && At(p, j, bj) && j > 0
    ensures Fits(p, t)
  {
    hide TilesOf, RowsOf, Input, Prepared, Splice;
    var tiles := Batch(p, j, bj, s);
    assert Shape(Values(p.K, tiles), p.tn, 256);
    Stored(p, j, bj, Prepared(p, j, bj, s), Values(p.K, tiles), Indices(p.K, tiles))
  }

  /** The error of a finished span, added for the rest of the matrix. */
  function EndSpan<S(!new), I(!new)>(p: Problem<S, I>, j: int, s: State<S, I>): (t: State<S, I>)
    requires Ok(p) && Fits(p, s) && p.buf <= j <= p.k
    ensures Fits(p, t)
  {
    s.(cache := p.K.addmm(s.cache, p.L[j - p.buf..j], Err(p, s.wq, j - p.buf, j)))
  }

  /** What is left of a run from a position and a state. */
  function Run<S(!new), I(!new)>(p: Problem<S, I>, j: int, bj: int, s: State<S, I>): (t: State<S, I>)
    requires Ok(p) && Fits(p, s) && At(p, j, bj)
    ensures Fits(p, t)
    decreases j, bj
  {
    hide Step, EndSpan;
    if j == 0 then s
    else
      var t := Step(p, j, bj, s);
      if bj > 16 then Run(p, j, bj - 16, t)
      else Run(p, j - p.buf, p.buf, EndSpan(p, j, t))
  }

  /** The result of LDLQ on a slice. */
  function Result<S(!new), I(!new)>(p: Problem<S, I>): (s: State<S, I>)
    requires Ok(p)
    ensures Fits(p, s)
  {
    WholeSpans(p.k, p.buf);
    Run(p, p.k, p.buf, Start(p))
  }

  lemma StartRows<S(!new), I(!new)>(p: Problem<S, I>, s: State<S, I>)
    requires |s.wq| == |s.cache| == p.k && |s.enc| == p.k / 16
    requires forall r :: 0 <= r < p.k ==> s.wq[r] == s.cache[r] == Zeros(p.K.zero, 1, p.n)[0]
    requires forall b :: 0 <= b < p.k / 16 ==> s.enc[b] == Zeros(p.K.zeroIndex, p.tn, 256)
    ensures s == Start(p)
  {
  }

  lemma StepIs<S(!new), I(!new)>(p: Problem<S, I>, j: int, bj: int, s: State<S, I>, t: State<S, I>, tiles: Mat<S>)
    requires Ok(p) && Fits(p, s) && At(p, j, bj) && j > 0
    requires tiles == Batch(p, j, bj, s) && Shape(Values(p.K, tiles), p.tn, 256)
    requires t.cache == Prepared(p, j, bj, s).cache
    requires t.wq == Splice(s.wq, j - p.buf + bj - 16, RowsOf(Values(p.K, tiles), p.tn))
    requires 0 <= (j - p.buf + bj - 16) / 16 < |s.enc|
    requires t.enc == s.enc[(j - p.buf + bj - 16) / 16 := Indices(p.K, tiles)]
    ensures t == Step(p, j, bj, s)
  {
    hide Batch, Splice, RowsOf, Comp;
  }

  /** One block on: the rest of the run is the same, from inside the span or from the span above. */
  lemma RunOn<S(!new), I(!new)>(p: Problem<S, I>, j: int, bj: int, s: State<S, I>, t: State<S, I>)
    requires Ok(p) && Fits(p, s) && At(p, j, bj) && j > 0 && t == Step(p, j, bj, s)
    ensures Fits(p, t)
    ensures bj > 16 ==> At(p, j, bj - 16) && Run(p, j, bj - 16, t) == Run(p, j, bj, s)
    ensures bj == 16 ==> At(p, j - p.buf, p.buf) && Run(p, j - p.buf, p.buf, EndSpan(p, j, t)) == Run(p, j, bj, s)
  {
    hide Step, EndSpan, Fits, Shape;
    assert bj > 16 ==> bj >= 32;
  }

  lemma OkParts<S(!new), I(!new)>(p: Problem<S, I>)
    requires Ok(p)
    ensures 16 <= p.buf && p.buf % 16 == 0 && Spans(p.k, p.buf)
    ensures |p.L| == p.k && p.k % 16 == 0
  {
    WholeSpans(p.k, p.buf);
  }

  /** The block that ends where the next step does. */
  lemma BlockBelow<S(!new), I(!new)>(p: Problem<S, I>, j: int, bj: int) returns (b: int)
    requires Ok(p) && At(p, j, bj) && j > 0
    ensures 16 * b + 16 == j - p.buf + bj && 0 <= b < p.k / 16
  {
    hide Ok;
    OkParts(p);
    SpansAreTiled(j, p.buf);
    b := (j - p.buf + bj) / 16 - 1;
  }

  /** A step leaves the cache outside its block, the rows below it and the indices of the other blocks. */
  lemma StepFrame<S(!new), I(!new)>(p: Problem<S, I>, j: int, bj: int, s: State<S, I>, t: State<S, I>)
    requires Ok(p) && Fits(p, s) && At(p, j, bj) && j > 0 && t == Step(p, j, bj, s)
    ensures Fits(p, t) && t.cache == Prepared(p, j, bj, s).cache
    ensures forall r :: 0 <= r < j - p.buf + bj - 16 ==> t.cache[r] == s.cache[r]
    ensures forall r :: j - p.buf + bj <= r < p.k ==> t.wq[r] == s.wq[r]
    ensures forall b :: 0 <= b < p.k / 16 && b != (j - p.buf + bj - 16) / 16 ==> t.enc[b] == s.enc[b]
  {
    hide Comp, Batch, RowsOf, Values, Indices;
  }

  lemma ValuesShape<S(!new), I(!new)>(p: Problem<S, I>, tiles: Mat<S>)
    requires Ok(p) && Shape(tiles, p.tn, 256)
    ensures Shape(Values(p.K, tiles), p.tn, 256)
  {
  }

  lemma FitsLengths<S, I>(p: Problem<S, I>, s: State<S, I>)
    requires Fits(p, s)
    ensures |s.wq| == |s.cache| == p.k && |s.enc| == p.k / 16
  {
  }

  /** In-place assignment to a row range. */
  method Store<T>(a: array<T>, lo: int, part: seq<T>)
    requires 0 <= lo <= lo + |part| <= a.Length
    modifies a
    ensures a[..] == Splice(old(a[..]), lo, part)
  {
    forall x | 0 <= x < |part| {
      a[lo + x] := part[x];
    }
  }

  /** The three buffers are distinct and are neither the weight nor the feedback matrix. */
  ghost predicate Separate(weight: object, L: object, prodCache: object, weightQ: object, encoded: object) {
    && prodCache != weightQ && prodCache != encoded && weightQ != encoded
    && weight !in {prodCache, weightQ, encoded} && L !in {prodCache, weightQ, encoded}
  }

  /** The compensation term from slices of the buffers. */
  lemma CompIs<S(!new), I(!new)>(p: Problem<S, I>, j: int, bj: int, s: State<S, I>, lo: int)
    requires Ok(p) && Fits(p, s) && At(p, j, bj) && j > 0 && lo == j - p.buf + bj - 16
    ensures 0 <= lo <= lo + 16 <= j <= p.k == |p.L| == |s.wq| == |s.cache|
    ensures Shape(p.W[lo + 16..j], j - lo - 16, p.n) && Shape(s.wq[lo + 16..j], j - lo - 16, p.n)
    ensures Shape(p.W[lo..lo + 16], 16, p.n) && Shape(Comp(p, j, bj, s), 16, p.n)
    ensures forall r :: lo + 16 <= r < j ==> |p.L[r]| == p.k
    ensures Comp(p, j, bj, s)
         == p.K.addmm(s.cache[lo..lo + 16], Columns(p.L[lo + 16..j], lo),
           ZipM(p.K.sub, p.W[lo + 16..j], s.wq[lo + 16..j]))
    ensures Input(p, j, bj, s) == ZipM(p.K.add, p.W[lo..lo + 16], Comp(p, j, bj, s))
    ensures Prepared(p, j, bj, s).cache == Splice(s.cache, lo, Comp(p, j, bj, s))
    ensures Batch(p, j, bj, s) == TilesOf(Input(p, j, bj, s), p.tn)
  {
    hide Splice, TilesOf, ZipM, Columns;
  }

  /** The head of the inner iteration: the compensation term is updated in place and the tiles gathered. */
  method Compensate<S(!new), I(!new)>(K: Kernel<S, I>, weight: array<seq<S>>, L: array<seq<S>>, tn: nat, buf: nat,
                                      prodCache: array<seq<S>>, weightQ: array<seq<S>>, j: int, bj: int,
                                      ghost p: Problem<S, I>, ghost s: State<S, I>)
      returns (tiles: Mat<S>)
    requires p == Problem(K, weight[..], L[..], tn, buf) && Ok(p)
    requires s.wq == weightQ[..] && s.cache == prodCache[..] && Fits(p, s) && At(p, j, bj) && j > 0
    requires prodCache !in {weight, L, weightQ}
    modifies prodCache
    ensures prodCache[..] == Prepared(p, j, bj, s).cache
    ensures tiles == Batch(p, j, bj, s)
  {
    hide Splice, TilesOf, ZipM, Columns, Comp, Input, Prepared, Batch, Ok, Spans;
    var i, bi := j - buf, bj - 16;
    CompIs(p, j, bj, s, i + bi);
    var bbErr := ZipM(K.sub, weight[i + bj..j], weightQ[i + bj..j]);
    var bbL := Columns(L[i + bj..j], i + bi);
    var comp := K.addmm(prodCache[i + bi..i + bj], bbL, bbErr);
    assert comp == Comp(p, j, bj, s);
    Store(prodCache, i + bi, comp);
    var rows := ZipM(K.add, weight[i + bi..i + bj], prodCache[i + bi..i + bj]);
    assert prodCache[i + bi..i + bj] == comp;
    tiles := TilesOf(rows, tn);
  }

  /** The tail of the inner iteration: quantized tiles are scattered to the rows and their indices stored. */
  method StoreBlock<S(!new), I(!new)>(tn: nat, weightQ: array<seq<S>>, encoded: array<seq<seq<I>>>, lo: int,
                                      quantW: Mat<S>, quantI: seq<seq<I>>)
    requires weightQ as object != encoded
    requires 0 <= lo <= lo + 16 <= weightQ.Length && 0 <= lo / 16 < encoded.Length && Shape(quantW, tn, 256)
    modifies weightQ, encoded
    ensures weightQ[..] == Splice(old(weightQ[..]), lo, RowsOf(quantW, tn))
    ensures encoded[..] == old(encoded[..])[lo / 16 := quantI]
  {
    hide Splice, RowsOf;
    Store(weightQ, lo, RowsOf(quantW, tn));
    encoded[lo / 16] := quantI;
  }

  /** The end of a span: its error is added for the rest of the matrix. */
  method FeedForward<S(!new), I(!new)>(K: Kernel<S, I>, weight: array<seq<S>>, L: array<seq<S>>, buf: nat,
                                       prodCache: array<seq<S>>, weightQ: array<seq<S>>, j: int,
                                       ghost p: Problem<S, I>, ghost s: State<S, I>)
    requires p == Problem(K, weight[..], L[..], p.tn, buf) && Ok(p)
    requires s.wq == weightQ[..] && s.cache == prodCache[..] && Fits(p, s) && buf <= j <= p.k
    requires prodCache !in {weight, L, weightQ}
    modifies prodCache
    ensures EndSpan(p, j, s) == s.(cache := prodCache[..])
  {
    hide ZipM, Splice;
    var i := j - buf;
    var bErr := ZipM(K.sub, weight[i..j], weightQ[i..j]);
    assert bErr == Err(p, s.wq, i, j);
    var cache := K.addmm(prodCache[..], L[i..j], bErr);
    assert cache == EndSpan(p, j, s).cache;
    Store(prodCache, 0, cache);
  }

  /** The inner loop: the blocks of the span that ends at j, bottom-up. */
  method QuantizeSpan<S(!new), I(!new)>(K: Kernel<S, I>, weight: array<seq<S>>, L: array<seq<S>>, tn: nat, buf: nat,
                                        prodCache: array<seq<S>>, weightQ: array<seq<S>>, encoded: array<seq<seq<I>>>,
                                        j: int, ghost p: Problem<S, I>, ghost s: State<S, I>)
      returns (ghost t: State<S, I>)
    requires p == Problem(K, weight[..], L[..], tn, buf) && Ok(p)
    requires s == State(weightQ[..], encoded[..], prodCache[..]) && Fits(p, s) && At(p, j, buf) && j > 0
    requires Separate(weight, L, prodCache, weightQ, encoded)
    modifies prodCache, weightQ, encoded
    ensures t == State(weightQ[..], encoded[..], prodCache[..]) && Fits(p, t)
    ensures Run(p, j, buf, s) == Run(p, j - buf, buf, EndSpan(p, j, t))
  {
    hide Run, Step, EndSpan, Batch, Prepared, Stored, Splice, Fits, Ok, Shape, Values, Indices;
    t := s;
    var bj := buf;
    while bj > 0
      invariant 0 <= bj <= buf && bj % 16 == 0
      invariant weight[..] == p.W && L[..] == p.L
      invariant t == State(weightQ[..], encoded[..], prodCache[..]) && Fits(p, t)
      invariant bj > 0 ==> Run(p, j, bj, t) == Run(p, j, buf, s)
      invariant bj == 0 ==> Run(p, j - buf, buf, EndSpan(p, j, t)) == Run(p, j, buf, s)
    {
      FitsLengths(p, t);
      var tiles := Compensate(K, weight, L, tn, buf, prodCache, weightQ, j, bj, p, t);
      var quantW, quantI := Values(K, tiles), Indices(K, tiles);
      ValuesShape(p, tiles);
      StoreBlock(tn, weightQ, encoded, j - buf + bj - 16, quantW, quantI);
      StepIs(p, j, bj, t, State(weightQ[..], encoded[..], prodCache[..]), tiles);
      RunOn(p, j, bj, t, Step(p, j, bj, t));
      t := Step(p, j, bj, t);
      bj := bj - 16;
    }
  }

  /** Sequential LDLQ: spans of buf rows bottom-up, 16-row blocks bottom-up inside a span. When the height is no
      multiple of buf, the last span starts at a negative row and its slices have no row for its first block, so that
      the product does not fit the compensation term: the call fails, and its buffers are dropped with it. */
  method Ldlq<S(!new), I(!new)>(K: Kernel<S, I>, weight: array<seq<S>>, L: array<seq<S>>, tn: nat, buf: nat)
      returns (ok: bool, weightQ: array<seq<S>>, encoded: array<seq<seq<I>>>)
    requires Admitted(Problem(K, weight[..], L[..], tn, buf))
    ensures fresh(weightQ) && fresh(encoded)
    ensures ok <==> weight.Length % buf == 0
    ensures ok ==> var p := Problem(K, weight[..], L[..], tn, buf);
                   Ok(p) && weightQ[..] == Result(p).wq && encoded[..] == Result(p).enc
  {
    hide Step, EndSpan, Zeros, Fits;
    ghost var p := Problem(K, weight[..], L[..], tn, buf);
    var k := weight.Length;
    var zeroRow := Zeros(K.zero, 1, 16 * tn)[0];
    var prodCache := new seq<S>[k](_ => zeroRow);
    weightQ := new seq<S>[k](_ => zeroRow);
    encoded := new seq<seq<I>>[k / 16](_ => Zeros(K.zeroIndex, tn, 256));
    ok := k % buf == 0;
    if !ok {
      return;
    }
    WholeSpans(k, buf);
    ghost var s := State(weightQ[..], encoded[..], prodCache[..]);
    StartRows(p, s);
    var j := k;
    while j > 0
      invariant At(p, j, buf)
      invariant weight[..] == p.W && L[..] == p.L
      invariant s == State(weightQ[..], encoded[..], prodCache[..]) && Fits(p, s)
      invariant Run(p, j, buf, s) == Result(p)
    {
      s := QuantizeSpan(K, weight, L, tn, buf, prodCache, weightQ, encoded, j, p, s);
      FeedForward(K, weight, L, buf, prodCache, weightQ, j, p, s);
      s := EndSpan(p, j, s);
      j := j - buf;
    }
  }
}

/** The slice encoder: one slice after another, or all prologues, a pooled scale search, all posts, lockstep walks and
    epilogues. Slices may share a Hessian record that the first of them finalizes. */
module Pipeline {
  import opened Arithmetic
  import opened Tiles
  import opened Ldlq
  import opened Lockstep
  import opened ZeroFeedback
  import opened GoldenSection
  import opened GssPool
  import Regularize

  type OutScales = Regularize.OutScales

  /** What finalizing a Hessian record gives; rng is the generator after the sign draw. */
  datatype Fin<S, R> = Fin(H: Mat<S>, L: Mat<S>, fallback: bool, su: seq<S>, diag: seq<S>, rng: R)

  /** What regularization gives before the global scale is applied. */
  datatype Reg<S> = Reg(weight: Mat<S>, su: seq<S>, sv: seq<S>, applied: OutScales)

  /** Everything the epilogue of a slice reads. */
  datatype Slice<S, I> = Slice(H: Mat<S>, fallback: bool, applied: OutScales, g: real, weight: Mat<S>, su: seq<S>,
      sv: seq<S>,
                               wq: Mat<S>, enc: seq<seq<seq<I>>>)

  /** The arithmetic of the encoder, left opaque. */
  datatype Encoder<!S, !I, !R, !O> = Encoder(
    K: Kernel<S, I>,
    Q: Probe<S>,
    phi: real,
    buf: nat,
    seeded: int -> R,
    signs: (R, nat) -> (seq<S>, R),
    mean: (Mat<S>, nat) -> Mat<S>,
    diagMean: Mat<S> -> S,
    tiny: S -> bool,
    damp: (Mat<S>, S) -> Mat<S>,
    diagonal: Mat<S> -> seq<S>,
    rotate: (Mat<S>, seq<S>) -> Mat<S>,
    factor: Mat<S> -> (Mat<S>, Mat<S>),
    regularize: (Mat<S>, seq<S>, seq<S>, OutScales, seq<S>, bool) -> Reg<S>,
    grow: (S, real) -> S,
    shrink: (S, real) -> S,
    finish: (Mat<S>, Slice<S, I>) -> O)

  /** What is assumed of the arithmetic: golden ratio and shapes. */
  ghost predicate Laws<S(!new), I(!new), R(!new), O(!new)>(E: Encoder<S, I, R, O>) {
    && Golden(E.phi) && Shaped(E.K) && E.buf == 128
    && (forall W, su, sv, out, diag, fb ::
          var w := E.regularize(W, su, sv, out, diag, fb).weight;
          |w| == |W| && forall r :: 0 <= r < |W| ==> |w[r]| == |W[r]|)
    && (forall H, n :: |E.mean(H, n)| == |H|)
    && (forall H, d :: |E.damp(H, d)| == |H|)
    && (forall H, su :: |E.rotate(H, su)| == |H|)
    && (forall H :: Shape(E.factor(H).0, |H|, |H|))
  }

  /** A slice of whole 128-row and 128-column blocks. */
  ghost predicate Sized<S>(W: Mat<S>, tn: nat) {
    Shape(W, |W|, 16 * tn) && |W| > 0 && |W| % 128 == 0 && tn > 0 && 16 * tn % 128 == 0
  }

  function Shrunk<S>(f: (S, real) -> S, v: seq<S>, g: real): (r: seq<S>)
    ensures |r| == |v|
  {
    seq(|v|, x requires 0 <= x < |v| => f(v[x], g))
  }

  function Grown<S>(f: (S, real) -> S, W: Mat<S>, g: real): (r: Mat<S>)
    ensures |r| == |W| && forall x :: 0 <= x < |W| ==> |r[x]| == |W[x]|
  {
    seq(|W|, x requires 0 <= x < |W| => Shrunk(f, W[x], g))
  }

  // ---------------------------------------------------------------- finalizing a Hessian record

  method ClearDiagonal<S>(z: S, L: array<seq<S>>)
    modifies L
    ensures L[..] == ZeroDiagonal(z, old(L[..]))
  {
    forall r | 0 <= r < L.Length && r < |L[r]| { L[r] := L[r][r := z]; }
  }

  /** The mean over the captured rows and the mean of its diagonal. */
  function Averaged<S(!new), I(!new), R(!new), O(!new)>(E: Encoder<S, I, R, O>, H: Mat<S>, count: nat): (Mat<S>, S) {
    if count == 0 then (H, E.K.zero) else (E.mean(H, count), E.diagMean(E.mean(H, count)))
  }

  function Factored<S(!new), I(!new), R(!new), O(!new)>(E: Encoder<S, I, R, O>, H: Mat<S>, fallback: bool, su: seq<S>,
                                                        diag: seq<S>, rng: R): (f: Fin<S, R>)
    ensures f.rng == rng && f.su == su
  {
    if fallback then Fin(H, [], true, su, diag, rng)
    else Fin(E.factor(H).1, ZeroDiagonal(E.K.zero, E.factor(H).0), false, su, diag, rng)
  }

  /** Mean over the captured rows, damping, sign draw, rotation, and the factor without its diagonal unless there is
      nothing to calibrate on. */
  function Finalized<S(!new), I(!new), R(!new), O(!new)>(E: Encoder<S, I, R, O>, H: Mat<S>, count: nat,
                                                         rng: R): Fin<S, R>
  {
    var avg := Averaged(E, H, count);
    var damped, draw := E.damp(avg.0, avg.1), E.signs(rng, |H|);
    Factored(E, E.rotate(damped, draw.0), count == 0 || E.tiny(avg.1), draw.0, E.diagonal(damped), draw.1)
  }

  lemma FinalizedShape<S(!new), I(!new), R(!new), O(!new)>(E: Encoder<S, I, R, O>, H: Mat<S>, count: nat, rng: R)
    requires Laws(E)
    ensures var f := Finalized(E, H, count, rng); !f.fallback ==> Shape(f.L, |H|, |H|)
  {
    hide Golden, Shaped;
  }

  /** What is in a record after its first use, operation by operation. Without captured rows, or with a diagonal whose
      mean is tiny, there is no feedback matrix; otherwise it is the factor with zeros on its diagonal. */
  lemma FinalizedIs<S(!new), I(!new), R(!new), O(!new)>(E: Encoder<S, I, R, O>, H: Mat<S>, count: nat, rng: R)
    ensures var f := Finalized(E, H, count, rng);
            var mean := if count == 0 then H else E.mean(H, count);
            var d := if count == 0 then E.K.zero else E.diagMean(mean);
            var draw := E.signs(rng, |H|);
            var rotated := E.rotate(E.damp(mean, d), draw.0);
            && f.su == draw.0 && f.rng == draw.1 && f.diag == E.diagonal(E.damp(mean, d))
            && (f.fallback <==> count == 0 || E.tiny(d))
            && (f.fallback ==> f.H == rotated && f.L == [])
            && (!f.fallback ==> f.H == E.factor(rotated).1 && f.L == ZeroDiagonal(E.K.zero, E.factor(rotated).0))
  {
    hide ZeroDiagonal;
  }

  // ---------------------------------------------------------------- what each slice's result is

  /** The regularized slice: signs drawn from rng, scaled and rotated, global scale not yet applied. */
  function Regular<S, I, R, O>(E: Encoder<S, I, R, O>, W: Mat<S>, tn: nat, fin: Fin<S, R>, rng: R,
                               out: OutScales): Reg<S>
  {
    E.regularize(W, fin.su, E.signs(rng, 16 * tn).0, out, fin.diag, fin.fallback)
  }

  lemma RegularSized<S(!new), I(!new), R(!new), O(!new)>(E: Encoder<S, I, R, O>, W: Mat<S>, tn: nat, fin: Fin<S, R>,
                                                         rng: R, out: OutScales)
    requires Laws(E) && Sized(W, tn)
    ensures var w := Regular(E, W, tn, fin, rng, out).weight; Sized(w, tn) && |w| == |W|
  {
    hide Golden, Shaped;
  }

  function BatchWq<S(!new), I(!new)>(K: Kernel<S, I>, W: Mat<S>, tn: nat): Mat<S>
    requires Tiled(K, W, tn)
  {
    WholeIsAlone(K, W, tn);
    WholeRows(Values(K, WholeTiles(W, tn)), |W| / 16, tn)
  }

  function BatchEnc<S(!new), I(!new)>(K: Kernel<S, I>, W: Mat<S>, tn: nat): seq<seq<seq<I>>>
    requires Tiled(K, W, tn)
  {
    Grouped(Indices(K, WholeTiles(W, tn)), |W| / 16, tn)
  }

  /** A slice's way from its regularized form to what its epilogue reads. */
  datatype Plan<S, I> = Plan(reg: Reg<S>, L: Mat<S>, out: Slice<S, I>)

  /** The rest of the way is determined by the regularized form and the feedback matrix: search the scale, apply it,
      quantize with feedback, or block by block in the fallback. */
  ghost predicate Consistent<S(!new), I(!new), R(!new), O(!new)>(E: Encoder<S, I, R, O>, tn: nat, pl: Plan<S, I>) {
    && Laws(E) && Sized(pl.reg.weight, tn)
    && pl.out.g == GScale(E.K, E.Q, E.phi, pl.reg.weight, tn)
    && pl.out.weight == Grown(E.grow, pl.reg.weight, pl.out.g)
    && pl.out.su == Shrunk(E.shrink, pl.reg.su, pl.out.g)
    && pl.out.sv == pl.reg.sv && pl.out.applied == pl.reg.applied
    && Tiled(E.K, pl.out.weight, tn)
    && (pl.out.fallback ==>
          pl.out.wq == BatchWq(E.K, pl.out.weight, tn) && pl.out.enc == BatchEnc(E.K, pl.out.weight, tn))
    && (!pl.out.fallback ==>
          var p := Problem(E.K, pl.out.weight, pl.L, tn, E.buf);
          Ok(p) && pl.out.wq == Result(p).wq && pl.out.enc == Result(p).enc)
  }

  lemma GrownShape<S>(f: (S, real) -> S, W: Mat<S>, g: real, n: nat)
    requires Shape(W, |W|, n)
    ensures Shape(Grown(f, W, g), |W|, n)
  {
    hide Shrunk;
  }

  lemma Sixteenths(n: nat)
    requires n % 128 == 0
    ensures n % 16 == 0
  {
    var q := n / 128;
    assert n == 16 * (8 * q) + 0;
    DivMod(16, 8 * q, 0);
  }

  lemma OkHere<S(!new), I(!new)>(K: Kernel<S, I>, W: Mat<S>, L: Mat<S>, tn: nat)
    requires Shaped(K) && Shape(W, |W|, 16 * tn) && |W| % 16 == 0 && |W| % 128 == 0 && 16 * tn % 128 == 0
    ensures Tiled(K, W, tn)
    ensures Shape(L, |W|, |W|) ==> Ok(Problem(K, W, L, tn, 128))
  {
    hide Shaped, Shape;
  }

  lemma Basics<S(!new), I(!new), R(!new), O(!new)>(E: Encoder<S, I, R, O>)
    requires Laws(E)
    ensures Golden(E.phi) && Shaped(E.K) && E.buf == 128
  {
    hide Golden, Shaped;
  }

  /** Scaling keeps what the quantizers ask for. */
  lemma GrownOk<S(!new), I(!new), R(!new), O(!new)>(E: Encoder<S, I, R, O>, W: Mat<S>, tn: nat, g: real, L: Mat<S>)
    requires Laws(E) && Sized(W, tn)
    ensures Tiled(E.K, Grown(E.grow, W, g), tn)
    ensures Shape(L, |W|, |W|) ==> Ok(Problem(E.K, Grown(E.grow, W, g), L, tn, E.buf))
  {
    hide Golden, Shaped, Shrunk, Laws, Grown, Shape, Ok, Tiled;
    Basics(E);
    var w := Grown(E.grow, W, g);
    assert Shape(w, |w|, 16 * tn) by { GrownShape(E.grow, W, g, 16 * tn); }
    Sixteenths(|w|);
    OkHere(E.K, w, L, tn);
  }

  /** What one slice gives, from its weight, its finalized record and its generator. */
  ghost function PlanOf<S(!new), I(!new), R(!new), O(!new)>(E: Encoder<S, I, R, O>, W: Mat<S>, tn: nat,
                                                            fin: Fin<S, R>, rng: R, out: OutScales): (pl: Plan<S, I>)
    requires Laws(E) && Sized(W, tn) && (!fin.fallback ==> Shape(fin.L, |W|, |W|))
    ensures Consistent(E, tn, pl) && (pl.out.fallback <==> fin.fallback)
  {
    hide Regular, GScale, Grown, Shrunk, Result, BatchWq, BatchEnc, Golden, Shaped, Ok, Tiled, Laws;
    Basics(E);
    RegularSized(E, W, tn, fin, rng, out);
    var reg := Regular(E, W, tn, fin, rng, out);
    var g := GScale(E.K, E.Q, E.phi, reg.weight, tn);
    var w := Grown(E.grow, reg.weight, g);
    GrownOk(E, reg.weight, tn, g, fin.L);
    var su := Shrunk(E.shrink, reg.su, g);
    if fin.fallback then
      Plan(reg, fin.L, Slice(fin.H, true, reg.applied, g, w, su, reg.sv, BatchWq(E.K, w, tn), BatchEnc(E.K, w, tn)))
    else
      var r := Result(Problem(E.K, w, fin.L, tn, E.buf));
      Plan(reg, fin.L, Slice(fin.H, false, reg.applied, g, w, su, reg.sv, r.wq, r.enc))
  }

  lemma GrownAt<S>(f: (S, real) -> S, W: Mat<S>, g: real, r: int, c: int)
    requires 0 <= r < |W| && 0 <= c < |W[r]|
    ensures |Grown(f, W, g)| == |W| && |Grown(f, W, g)[r]| == |W[r]| && Grown(f, W, g)[r][c] == f(W[r][c], g)
  {
  }

  lemma ShrunkAt<S>(f: (S, real) -> S, v: seq<S>, g: real, x: int)
    requires 0 <= x < |v|
    ensures Shrunk(f, v, g)[x] == f(v[x], g)
  {
  }

  /** What the epilogue of a slice reads: the scale searched on the regularized weight is in the weight and out of the
      signs; the values and indices are those of every block by itself without a feedback matrix, and those of LDLQ on
      the scaled weight with one. */
  ghost predicate SliceOf<S(!new), I(!new), R(!new), O(!new)>(E: Encoder<S, I, R, O>, tn: nat, fin: Fin<S, R>,
                                                              sl: Slice<S, I>)
  {
    && sl.fallback == fin.fallback && sl.H == fin.H
    && if sl.fallback then AllAlone(E.K, sl.weight, tn, sl.wq, sl.enc)
       else var p := Problem(E.K, sl.weight, fin.L, tn, 128);
            Ok(p) && sl.wq == Result(p).wq && sl.enc == Result(p).enc
  }

  lemma PlanGives<S(!new), I(!new), R(!new), O(!new)>(E: Encoder<S, I, R, O>, W: Mat<S>, tn: nat, fin: Fin<S, R>,
                                                      rng: R, out: OutScales)
    requires Laws(E) && Sized(W, tn) && (!fin.fallback ==> Shape(fin.L, |W|, |W|))
    ensures SliceOf(E, tn, fin, PlanOf(E, W, tn, fin, rng, out).out)
  {
    hide Regular, GScale, Grown, Shrunk, Result, Golden, Shaped, Ok, Tiled, Laws, AllAlone, Sized, WholeTiles,
      WholeRows,
      Grouped, Values, Indices;
    var pl := PlanOf(E, W, tn, fin, rng, out);
    Basics(E);
    if fin.fallback { WholeIsAlone(E.K, pl.out.weight, tn); }
  }

  /** The scale searched on the regularized weight is put into every entry of it and taken out of every row sign. */
  ghost predicate Graduated<S(!new), I(!new), R(!new), O(!new)>(E: Encoder<S, I, R, O>, k: nat, tn: nat, reg: Reg<S>,
                                                             sl: Slice<S, I>)
  {
    && Golden(E.phi) && Shape(reg.weight, k, 16 * tn) && k >= 16 && tn > 0
    && sl.g == GScale(E.K, E.Q, E.phi, reg.weight, tn) && sl.sv == reg.sv && sl.applied == reg.applied
    && |sl.su| == |reg.su| && (forall x :: 0 <= x < |reg.su| ==> sl.su[x] == E.shrink(reg.su[x], sl.g))
    && Shape(sl.weight, k, 16 * tn)
    && forall r, c :: 0 <= r < k && 0 <= c < 16 * tn ==> sl.weight[r][c] == E.grow(reg.weight[r][c], sl.g)
  }

  lemma PlanScales<S(!new), I(!new), R(!new), O(!new)>(E: Encoder<S, I, R, O>, W: Mat<S>, tn: nat, fin: Fin<S, R>,
                                                       rng: R, out: OutScales)
    requires Laws(E) && Sized(W, tn) && (!fin.fallback ==> Shape(fin.L, |W|, |W|))
    ensures var sl := PlanOf(E, W, tn, fin, rng, out).out;
            var reg := E.regularize(W, fin.su, E.signs(rng, 16 * tn).0, out, fin.diag, fin.fallback);
            Graduated(E, |W|, tn, reg, sl)
  {
    hide GScale, Grown, Shrunk, Result, BatchWq, BatchEnc, Golden, Shaped, Ok, Tiled, Laws, Values, Indices;
    Basics(E);
    RegularSized(E, W, tn, fin, rng, out);
    var reg := Regular(E, W, tn, fin, rng, out);
    var sl := PlanOf(E, W, tn, fin, rng, out).out;
    forall x | 0 <= x < |reg.su| ensures sl.su[x] == E.shrink(reg.su[x], sl.g) {
      ShrunkAt(E.shrink, reg.su, sl.g, x);
    }
    forall r, c | 0 <= r < |W| && 0 <= c < 16 * tn
      ensures |sl.weight[r]| == |reg.weight[r]| == 16 * tn && sl.weight[r][c] == E.grow(reg.weight[r][c], sl.g)
    {
      GrownAt(E.grow, reg.weight, sl.g, r, c);
    }
  }

  // ---------------------------------------------------------------- the shared Hessian record

  class HData<S(!new)> {
    var H: Mat<S>
    var count: nat
    var finalized: bool
    var L: array?<seq<S>>
    var su: array?<S>
    var diag: seq<S>
    var fallback: bool

    constructor (H: Mat<S>, count: nat)
      ensures this.H == H && this.count == count && !finalized
    {
      this.H, this.count, finalized, L, su, diag, fallback := H, count, false, null, null, [], false;
    }

    /** The record holds a finalization. */
    ghost predicate Holds<R>(fin: Fin<S, R>)
      reads this, this.L, this.su
      ensures Holds(fin) ==> finalized
    {
      && finalized && H == fin.H && fallback == fin.fallback && diag == fin.diag
      && su != null && su[..] == fin.su
      && (L == null <==> fin.fallback) && (L != null ==> L[..] == fin.L)
    }
  }

  method FactorRecord<S(!new), I(!new), R(!new), O(!new)>(E: Encoder<S, I, R, O>, hd: HData<S>, fallback: bool,
                                                          ghost rng: R)
    requires hd.su != null
    modifies hd
    ensures hd.su != null && hd.su == old(hd.su)
    ensures hd.Holds(Factored(E, old(hd.H), fallback, hd.su[..], hd.diag, rng))
    ensures hd.diag == old(hd.diag) && (hd.L != null ==> fresh(hd.L))
  {
    hide ZeroDiagonal;
    hd.L := null;
    if !fallback {
      var f := E.factor(hd.H);
      var L := f.0;
      var stored := new seq<S>[|L|](x requires 0 <= x < |L| => L[x]);
      assert stored[..] == L;
      ClearDiagonal(E.K.zero, stored);
      hd.L, hd.H := stored, f.1;
    }
    hd.finalized, hd.fallback := true, fallback;
  }

  /** Finalizes the record on first use and leaves it alone afterwards. */
  method FinalizeCaptureH<S(!new), I(!new), R(!new), O(!new)>(E: Encoder<S, I, R, O>, hd: HData<S>, rng: R,
      ghost fin: Fin<S, R>)
      returns (next: R)
    requires !hd.finalized ==> fin == Finalized(E, hd.H, hd.count, rng)
    requires hd.finalized ==> hd.Holds(fin)
    modifies hd
    ensures hd.Holds(fin) && next == if old(hd.finalized) then rng else fin.rng
    ensures old(hd.finalized) ==> unchanged(hd)
    ensures !old(hd.finalized) ==> fresh(hd.su) && (hd.L != null ==> fresh(hd.L))
    ensures !old(hd.finalized) ==>
      (hd.L == null <==> old(hd.count) == 0 || E.tiny(E.diagMean(E.mean(old(hd.H), old(hd.count)))))
  {
    hide Factored, ZeroDiagonal;
    if !hd.finalized { FinalizedIs(E, hd.H, hd.count, rng); }
    if hd.finalized {
      return rng;
    }
    var k, d := |hd.H|, E.K.zero;
    if hd.count != 0 {
      hd.H := E.mean(hd.H, hd.count);
      d := E.diagMean(hd.H);
    }
    var fallback := hd.count == 0 || E.tiny(d);
    hd.H := E.damp(hd.H, d);
    hd.diag := E.diagonal(hd.H);
    var draw := E.signs(rng, k);
    var su := draw.0;
    hd.su := new S[|su|](x requires 0 <= x < |su| => su[x]);
    assert hd.su[..] == su;
    hd.H := E.rotate(hd.H, su);
    next := draw.1;
    FactorRecord(E, hd, fallback, next);
  }

  // ---------------------------------------------------------------- the phases of one slice

  /** A slice between its phases: its context, its untouched weight and what the epilogue needs besides. */
  datatype Item<!S(!new), !I(!new)> = Item(ctx: SliceCtx<S, I>, orig: array<seq<S>>, H: Mat<S>, applied: OutScales)

  /** The parts of a slice that no phase changes agree with its plan. */
  ghost predicate Fixed<S(!new), I(!new), R(!new), O(!new)>(E: Encoder<S, I, R, O>, i: Item<S, I>, pl: Plan<S, I>)
    reads i.ctx.L
  {
    && Consistent(E, i.ctx.tn, pl) && i.ctx.K == E.K && i.ctx.buf == E.buf && i.ctx.sv == pl.reg.sv
    && (i.ctx.L == null <==> pl.out.fallback) && (i.ctx.L != null ==> i.ctx.L[..] == pl.L)
    && i.H == pl.out.H && i.applied == pl.out.applied
  }

  /** After the first prologue: regularized, not scaled. */
  ghost predicate Regularized<S(!new), I(!new), R(!new), O(!new)>(E: Encoder<S, I, R, O>, i: Item<S, I>, pl: Plan<S, I>)
    reads i.ctx`wqReg, i.ctx`encoded, i.ctx.weightR, i.ctx.su, i.ctx.L
  {
    && Fixed(E, i, pl) && i.ctx.weightR[..] == pl.reg.weight && i.ctx.su[..] == pl.reg.su
    && i.ctx.wqReg == null && i.ctx.encoded == null
  }

  /** After the second prologue: the scale is in the weight and out of the signs. */
  ghost predicate Moved<S(!new), I(!new), R(!new), O(!new)>(E: Encoder<S, I, R, O>, i: Item<S, I>, pl: Plan<S, I>)
    reads i.ctx.weightR, i.ctx.su, i.ctx.L
  {
    Fixed(E, i, pl) && i.ctx.weightR[..] == pl.out.weight && i.ctx.su[..] == pl.out.su
  }

  ghost predicate Rescaled<S(!new), I(!new), R(!new), O(!new)>(E: Encoder<S, I, R, O>, i: Item<S, I>, pl: Plan<S, I>)
    reads i.ctx`gScale, i.ctx.weightR, i.ctx.su, i.ctx.L
  {
    Moved(E, i, pl) && i.ctx.gScale == pl.out.g
  }

  /** The values and indices are there. */
  ghost predicate Coded<S(!new), I(!new)>(i: Item<S, I>, pl: Plan<S, I>)
    reads i.ctx, i.ctx.wqReg, i.ctx.encoded
  {
    && i.ctx.wqReg != null && i.ctx.wqReg[..] == pl.out.wq
    && i.ctx.encoded != null && i.ctx.encoded[..] == pl.out.enc
  }

  /** After the second prologue a slice is coded in the fallback, else it waits for its walk. */
  ghost predicate Ready<S(!new), I(!new), R(!new), O(!new)>(E: Encoder<S, I, R, O>, i: Item<S, I>, pl: Plan<S, I>)
    reads i.ctx, i.ctx.weightR, i.ctx.su, i.ctx.L, i.ctx.wqReg, i.ctx.encoded
  {
    Rescaled(E, i, pl) && if i.ctx.wqReg == null then i.ctx.encoded == null && i.ctx.L != null else Coded(i, pl)
  }

  /** What the phases of a slice write. */
  ghost function Mine<S(!new), I(!new)>(i: Item<S, I>): set<object> {
    {i.ctx, i.ctx.weightR, i.ctx.su}
  }

  /** Beside its finalized record a slice draws its column signs and regularizes a clone of its weight. */
  method RegularizeSlice<S(!new), I(!new), R(!new), O(!new)>(E: Encoder<S, I, R, O>, w: array<seq<S>>, tn: nat,
                                                             hd: HData<S>, rng: R, out: OutScales, ghost fin: Fin<S, R>)
      returns (item: Item<S, I>, ghost pl: Plan<S, I>)
    requires Laws(E) && Sized(w[..], tn) && hd.Holds(fin) && (!fin.fallback ==> Shape(fin.L, w.Length, w.Length))
    ensures fresh(Mine(item)) && item.ctx.weightR as object != item.ctx.su && item.orig == w && item.ctx.tn == tn
    ensures item.ctx.L == hd.L
    ensures pl == PlanOf(E, w[..], tn, fin, rng, out) && Regularized(E, item, pl)
  {
    hide Golden, Shaped, Laws, Sized, Result, GScale, Finalized;
    var reg := Regular(E, w[..], tn, Fin(hd.H, [], hd.fallback, hd.su[..], hd.diag, rng), rng, out);
    assert reg == Regular(E, w[..], tn, fin, rng, out);
    pl := PlanOf(E, w[..], tn, fin, rng, out);
    var weight := new seq<S>[|reg.weight|](x requires 0 <= x < |reg.weight| => reg.weight[x]);
    var su := new S[|reg.su|](x requires 0 <= x < |reg.su| => reg.su[x]);
    var ctx := new SliceCtx(E.K, tn, E.buf, weight, hd.L, su, reg.sv);
    assert weight[..] == reg.weight && su[..] == reg.su;
    item := Item(ctx, w, hd.H, reg.applied);
  }

  /** First part of the prologue: seed, finalize, draw, regularize a clone. */
  method ProloguePre<S(!new), I(!new), R(!new), O(!new)>(E: Encoder<S, I, R, O>, w: array<seq<S>>, tn: nat,
                                                         hd: HData<S>, seed: int, out: OutScales, ghost fin: Fin<S, R>)
      returns (item: Item<S, I>, ghost pl: Plan<S, I>)
    requires Laws(E) && Sized(w[..], tn)
    requires !hd.finalized ==> fin == Finalized(E, hd.H, hd.count, E.seeded(seed))
    requires hd.finalized ==> hd.Holds(fin)
    requires !fin.fallback ==> Shape(fin.L, w.Length, w.Length)
    modifies hd
    ensures hd.Holds(fin)
    ensures old(hd.finalized) ==> unchanged(hd)
    ensures !old(hd.finalized) ==> fresh(hd.su) && (hd.L != null ==> fresh(hd.L))
    ensures fresh(Mine(item)) && item.ctx.weightR as object != item.ctx.su && item.orig == w && item.ctx.tn == tn
    ensures item.ctx.L == hd.L && hd.L !in Mine(item) && hd.su !in Mine(item)
    ensures pl == PlanOf(E, w[..], tn, fin, if old(hd.finalized) then E.seeded(seed) else fin.rng, out)
    ensures Regularized(E, item, pl)
  {
    hide Golden, Shaped, Laws, Sized, Result, GScale, Finalized, PlanOf, Regularized;
    var rng := FinalizeCaptureH(E, hd, E.seeded(seed), fin);
    item, pl := RegularizeSlice(E, w, tn, hd, rng, out, fin);
  }

  lemma BatchIsAlone<S(!new), I(!new)>(K: Kernel<S, I>, W: Mat<S>, tn: nat, wq: Mat<S>, enc: seq<seq<seq<I>>>)
    requires Tiled(K, W, tn) && AllAlone(K, W, tn, wq, enc)
    ensures wq == BatchWq(K, W, tn) && enc == BatchEnc(K, W, tn)
  {
    hide AllAlone, Tiled, WholeTiles, WholeRows, Grouped, Values, Indices;
    WholeIsAlone(K, W, tn);
    AloneUnique(K, W, tn, wq, enc, BatchWq(K, W, tn), BatchEnc(K, W, tn));
  }

  /** The tail of regularization: the scale goes into the weight and out of the signs, both in place. */
  method RegularizePost<S(!new)>(grow: (S, real) -> S, shrink: (S, real) -> S, weight: array<seq<S>>, su: array<S>,
                                 g: real)
    requires weight as object != su
    modifies weight, su
    ensures weight[..] == Grown(grow, old(weight[..]), g)
    ensures su[..] == Shrunk(shrink, old(su[..]), g)
    ensures forall r :: 0 <= r < weight.Length ==> |weight[r]| == |old(weight[r])|
    ensures forall r, c :: 0 <= r < weight.Length && 0 <= c < |weight[r]| && c < |old(weight[r])| ==>
      weight[r][c] == grow(old(weight[r])[c], g)
    ensures forall x :: 0 <= x < su.Length ==> su[x] == shrink(old(su[x]), g)
  {
    forall r | 0 <= r < weight.Length { weight[r] := Shrunk(grow, weight[r], g); }
    forall x | 0 <= x < su.Length { su[x] := shrink(su[x], g); }
  }

  /** Second part of the prologue: apply the scale; in the fallback quantize right away. */
  method ProloguePost<S(!new), I(!new), R(!new), O(!new)>(E: Encoder<S, I, R, O>, item: Item<S, I>,
                                                          ghost pl: Plan<S, I>)
    requires Regularized(E, item, pl) && item.ctx.gScale == pl.out.g && item.ctx.L !in Mine(item)
    requires item.ctx.weightR as object != item.ctx.su
    modifies Mine(item)
    ensures Ready(E, item, pl) && item.ctx.gScale == old(item.ctx.gScale)
    ensures item.ctx.wqReg == null ==> item.ctx.encoded == null
    ensures item.ctx.wqReg != null ==> fresh(item.ctx.wqReg) && fresh(item.ctx.encoded)
  {
    hide Grown, Shrunk, Result, GScale, BatchWq, BatchEnc, Laws, Sized, Tiled, AllAlone;
    var c := item.ctx;
    RegularizePost(E.grow, E.shrink, c.weightR, c.su, c.gScale);
    assert c.weightR[..] == pl.out.weight && c.su[..] == pl.out.su;
    if c.L == null {
      c.wqReg, c.encoded := TrellisQuantAllTiles(c.K, c.weightR, c.tn);
      BatchIsAlone(c.K, pl.out.weight, c.tn, c.wqReg[..], c.encoded[..]);
    }
  }

  /** The end of a slice: what the encoder writes and measures. */
  method Epilogue<S(!new), I(!new), R(!new), O(!new)>(E: Encoder<S, I, R, O>, item: Item<S, I>, ghost pl: Plan<S, I>)
      returns (o: O)
    requires Rescaled(E, item, pl) && Coded(item, pl)
    ensures o == E.finish(item.orig[..], pl.out)
  {
    hide Result, GScale, BatchWq, BatchEnc, Laws, Sized, Tiled;
    var c := item.ctx;
    o := E.finish(item.orig[..],
                  Slice(item.H, c.L == null, item.applied, c.gScale, c.weightR[..], c.su[..], c.sv, c.wqReg[..],
                        c.encoded[..]));
  }

  // ---------------------------------------------------------------- many slices

  /** One slice to encode. */
  datatype Job<!S(!new)> = Job(w: array<seq<S>>, tn: nat, hd: HData<S>, seed: int, out: OutScales)

  ghost function FirstFrom<S(!new)>(jobs: seq<Job<S>>, x: nat, y: nat): (r: nat)
    requires y <= x < |jobs| && forall z :: 0 <= z < y ==> jobs[z].hd != jobs[x].hd
    ensures r <= x && jobs[r].hd == jobs[x].hd && forall z :: 0 <= z < r ==> jobs[z].hd != jobs[x].hd
    decreases x - y
  {
    if jobs[y].hd == jobs[x].hd then y else FirstFrom(jobs, x, y + 1)
  }

  /** The job that first meets x's Hessian record. */
  ghost function FirstUse<S(!new)>(jobs: seq<Job<S>>, x: nat): (y: nat)
    requires x < |jobs|
    ensures y <= x && jobs[y].hd == jobs[x].hd && forall z :: 0 <= z < y ==> jobs[z].hd != jobs[x].hd
  {
    FirstFrom(jobs, x, 0)
  }

  ghost function Records<S(!new)>(jobs: seq<Job<S>>): set<HData<S>> {
    set j | j in jobs :: j.hd
  }

  ghost function Weights<S(!new)>(jobs: seq<Job<S>>): set<array<seq<S>>> {
    set j | j in jobs :: j.w
  }

  ghost predicate PlannedAt<S(!new), I(!new), R(!new), O(!new)>(E: Encoder<S, I, R, O>, j: Job<S>, fin: Fin<S, R>,
                                                                first: bool, pl: Plan<S, I>)
    requires Laws(E)
    reads j.w
  {
    && Sized(j.w[..], j.tn) && (!fin.fallback ==> Shape(fin.L, j.w.Length, j.w.Length))
    && pl == PlanOf(E, j.w[..], j.tn, fin, if first then fin.rng else E.seeded(j.seed), j.out)
  }

  /** What every slice is to give: fins[x] is the finalization of x's record, under the seed of the slice that meets the
      record first; that slice draws on, every other slice draws from its own seed. */
  ghost predicate Planned<S(!new), I(!new), R(!new), O(!new)>(E: Encoder<S, I, R, O>, jobs: seq<Job<S>>,
                                                              fins: seq<Fin<S, R>>, plans: seq<Plan<S, I>>)
    reads Weights(jobs)
    ensures Planned(E, jobs, fins, plans) ==> |fins| == |plans| == |jobs|
  {
    && Laws(E) && |fins| == |plans| == |jobs|
    && (forall x, y :: 0 <= x < |jobs| && 0 <= y < |jobs| && jobs[x].hd == jobs[y].hd ==> fins[x] == fins[y])
    && forall x :: 0 <= x < |jobs| ==> PlannedAt(E, jobs[x], fins[x], FirstUse(jobs, x) == x, plans[x])
  }

  /** A record that was met holds its finalization; one that was not will get it. */
  ghost predicate MetAt<S(!new), I(!new), R(!new), O(!new)>(E: Encoder<S, I, R, O>, hd: HData<S>, fin: Fin<S, R>,
                                                            seed: int, met: bool)
    reads hd, hd.L, hd.su
  {
    if met then hd.Holds(fin) else !hd.finalized && fin == Finalized(E, hd.H, hd.count, E.seeded(seed))
  }

  /** The records before job x. */
  ghost predicate Met<S(!new), I(!new), R(!new), O(!new)>(E: Encoder<S, I, R, O>, jobs: seq<Job<S>>,
                                                          fins: seq<Fin<S, R>>, x: nat)
    requires |fins| == |jobs|
    reads Records(jobs), set h | h in Records(jobs) :: h.L, set h | h in Records(jobs) :: h.su
  {
    forall y :: 0 <= y < |jobs| ==>
      MetAt(E, jobs[y].hd, fins[y], jobs[FirstUse(jobs, y)].seed, FirstUse(jobs, y) < x)
  }

  lemma MetStep<S(!new), I(!new), R(!new), O(!new)>(E: Encoder<S, I, R, O>, jobs: seq<Job<S>>, fins: seq<Fin<S, R>>,
                                                    x: nat)
    requires x < |jobs| == |fins| && jobs[x].hd.Holds(fins[x])
    requires forall y :: 0 <= y < |jobs| && jobs[y].hd == jobs[x].hd ==> fins[y] == fins[x]
    requires forall y :: 0 <= y < |jobs| && jobs[y].hd != jobs[x].hd ==>
      MetAt(E, jobs[y].hd, fins[y], jobs[FirstUse(jobs, y)].seed, FirstUse(jobs, y) < x)
    ensures Met(E, jobs, fins, x + 1)
  {
    hide FirstUse, HData.Holds, Finalized;
    forall y | 0 <= y < |jobs|
      ensures MetAt(E, jobs[y].hd, fins[y], jobs[FirstUse(jobs, y)].seed, FirstUse(jobs, y) < x + 1)
    {
      if jobs[y].hd != jobs[x].hd { assert FirstUse(jobs, y) != x; }
    }
  }

  /** The first prologue of job x. */
  method PreOne<S(!new), I(!new), R(!new), O(!new)>(E: Encoder<S, I, R, O>, jobs: seq<Job<S>>, x: nat,
                                                    ghost fins: seq<Fin<S, R>>, ghost pl: Plan<S, I>)
      returns (item: Item<S, I>)
    requires x < |jobs| == |fins| && Met(E, jobs, fins, x) && Laws(E)
    requires PlannedAt(E, jobs[x], fins[x], FirstUse(jobs, x) == x, pl)
    requires forall y :: 0 <= y < |jobs| && jobs[y].hd == jobs[x].hd ==> fins[y] == fins[x]
    modifies jobs[x].hd
    ensures Met(E, jobs, fins, x + 1)
    ensures fresh(Mine(item)) && item.orig == jobs[x].w && item.ctx.weightR as object != item.ctx.su
    ensures Regularized(E, item, pl) && item.ctx.L == jobs[x].hd.L
    ensures jobs[x].hd.L !in Mine(item) && jobs[x].hd.su !in Mine(item)
    ensures jobs[x].hd.L in {null, old(jobs[x].hd.L)} || fresh(jobs[x].hd.L)
    ensures jobs[x].hd.su == old(jobs[x].hd.su) || fresh(jobs[x].hd.su)
  {
    hide PlanOf, Finalized, Laws, Regularized, Sized, FirstUse, HData.Holds, Consistent, Shape;
    var j := jobs[x];
    ghost var first := FirstUse(jobs, x);
    assert MetAt(E, j.hd, fins[x], jobs[first].seed, first < x);
    ghost var plan;
    item, plan := ProloguePre(E, j.w, j.tn, j.hd, j.seed, j.out, fins[x]);
    MetStep(E, jobs, fins, x);
  }

  /** No slice's phases write what another slice reads; feedback matrices may be shared. */
  ghost predicate Apart<S(!new), I(!new)>(items: seq<Item<S, I>>) {
    && (forall x, y :: 0 <= x < y < |items| ==> Mine(items[x]) !! Mine(items[y]))
    && (forall x, y :: 0 <= x < |items| && 0 <= y < |items| ==> items[x].ctx.L !in Mine(items[y]))
    && (forall x :: 0 <= x < |items| ==> items[x].ctx.weightR as object != items[x].ctx.su)
  }

  /** The items do not hold the arrays of the records. */
  ghost predicate Clear<S(!new), I(!new)>(jobs: seq<Job<S>>, items: seq<Item<S, I>>)
    reads Records(jobs)
  {
    forall h, i :: h in Records(jobs) && i in items ==> h.L !in Mine(i) && h.su !in Mine(i)
  }

  lemma ApartMore<S(!new), I(!new)>(items: seq<Item<S, I>>, item: Item<S, I>)
    requires Apart(items) && item.ctx.weightR as object != item.ctx.su && item.ctx.L !in Mine(item)
    requires forall i :: i in items ==> Mine(i) !! Mine(item) && i.ctx.L !in Mine(item) && item.ctx.L !in Mine(i)
    ensures Apart(items + [item])
  {
    hide Mine;
  }

  lemma NoneApart<S(!new), I(!new)>(jobs: seq<Job<S>>, items: seq<Item<S, I>>)
    requires items == []
    ensures Apart(items) && Clear(jobs, items)
  {
  }

  /** One more first prologue. */
  method PreMore<S(!new), I(!new), R(!new), O(!new)>(E: Encoder<S, I, R, O>, jobs: seq<Job<S>>, x: nat,
                                                     ghost fins: seq<Fin<S, R>>, ghost pl: Plan<S, I>,
                                                     items: seq<Item<S, I>>)
      returns (item: Item<S, I>)
    requires x < |jobs| == |fins| && Met(E, jobs, fins, x) && Laws(E)
    requires PlannedAt(E, jobs[x], fins[x], FirstUse(jobs, x) == x, pl)
    requires forall y :: 0 <= y < |jobs| && jobs[y].hd == jobs[x].hd ==> fins[y] == fins[x]
    requires Apart(items) && Clear(jobs, items)
    modifies jobs[x].hd
    ensures Met(E, jobs, fins, x + 1) && Apart(items + [item]) && Clear(jobs, items + [item])
    ensures fresh(Mine(item)) && item.orig == jobs[x].w && Regularized(E, item, pl)
  {
    hide Met, Laws, Regularized, PlannedAt, FirstUse, Consistent, Apart;
    assert jobs[x].hd in Records(jobs);
    item := PreOne(E, jobs, x, fins, pl);
    ApartMore(items, item);
  }

  /** All first prologues of jobs lo to hi, one after the other. */
  method PreAll<S(!new), I(!new), R(!new), O(!new)>(E: Encoder<S, I, R, O>, jobs: seq<Job<S>>, lo: nat, hi: nat,
                                                    ghost fins: seq<Fin<S, R>>, ghost plans: seq<Plan<S, I>>)
      returns (items: seq<Item<S, I>>)
    requires lo <= hi <= |jobs| && Planned(E, jobs, fins, plans) && Met(E, jobs, fins, lo)
    modifies Records(jobs)
    ensures Planned(E, jobs, fins, plans) && Met(E, jobs, fins, hi) && Apart(items) && Clear(jobs, items)
      && |items| == hi - lo
    ensures forall i :: i in items ==> fresh(Mine(i))
    ensures forall x :: 0 <= x < |items| ==> items[x].orig == jobs[lo + x].w && Regularized(E, items[x], plans[lo + x])
  {
    hide Met, Laws, Regularized, PlannedAt, FirstUse, Consistent, Apart, Clear, Mine, Shape, Sized;
    items := [];
    NoneApart(jobs, items);
    for x := lo to hi
      invariant Met(E, jobs, fins, x) && Apart(items) && Clear(jobs, items) && |items| == x - lo
      invariant forall i :: i in items ==> fresh(Mine(i))
      invariant forall y :: 0 <= y < |items| ==>
        items[y].orig == jobs[lo + y].w && Regularized(E, items[y], plans[lo + y])
    {
      var item := PreMore(E, jobs, x, fins, plans[x], items);
      items := items + [item];
    }
  }

  /** A regularized slice can be sampled, and the search returns its planned scale. */
  lemma PlannedScale<S(!new), I(!new), R(!new), O(!new)>(E: Encoder<S, I, R, O>, i: Item<S, I>, pl: Plan<S, I>)
    requires Regularized(E, i, pl)
    ensures Golden(E.phi) && Sampleable(i.ctx) && ScaleOf(E.K, E.Q, E.phi, i.ctx) == pl.out.g
  {
    hide Golden, Shaped, GScale, Result, BatchWq, BatchEnc;
  }

  ghost function Slices<S(!new), I(!new)>(items: seq<Item<S, I>>): set<SliceCtx<S, I>> {
    set i | i in items :: i.ctx
  }

  /** The pooled scale search over the slices of a group. */
  method SearchAll<S(!new), I(!new), R(!new), O(!new)>(E: Encoder<S, I, R, O>, items: seq<Item<S, I>>,
                                                       ghost plans: seq<Plan<S, I>>)
    requires Golden(E.phi) && Apart(items) && |plans| == |items|
    requires forall x :: 0 <= x < |items| ==> Regularized(E, items[x], plans[x])
    modifies Slices(items)`gScale
    ensures forall x :: 0 <= x < |items| ==> Regularized(E, items[x], plans[x]) && items[x].ctx.gScale == plans[x].out.g
  {
    hide Golden, Regularized, Sampleable, ScaleOf, Consistent, Laws;
    var ctxs: seq<SliceCtx<S, I>> := seq(|items|, x requires 0 <= x < |items| => items[x].ctx);
    forall x | 0 <= x < |items|
      ensures Sampleable(ctxs[x]) && ScaleOf(E.K, E.Q, E.phi, ctxs[x]) == plans[x].out.g
    {
      PlannedScale(E, items[x], plans[x]);
    }
    forall x, y | 0 <= x < y < |ctxs| ensures ctxs[x] != ctxs[y] {
      assert Mine(items[x]) !! Mine(items[y]) && items[x].ctx in Mine(items[x]);
    }
    assert (set c | c in ctxs) == Slices(items);
    ghost var pool := GScaleGssLockstep(E.K, E.Q, E.phi, ctxs);
    forall x | 0 <= x < |items|
      ensures Regularized(E, items[x], plans[x]) && items[x].ctx.gScale == plans[x].out.g
    {
      PlannedScale(E, items[x], plans[x]);
      assert ctxs[x] in ctxs;
    }
  }

  /** The values and indices of a slice, where it has them, are not what the phases of any slice write. */
  ghost predicate Loose<S(!new), I(!new)>(items: seq<Item<S, I>>, i: Item<S, I>)
    reads i.ctx
  {
    forall k :: k in items ==> i.ctx.wqReg !in Mine(k) && i.ctx.encoded !in Mine(k)
  }

  /** The second prologue of one slice of a group; the other slices are left alone. */
  method PostOne<S(!new), I(!new), R(!new), O(!new)>(E: Encoder<S, I, R, O>, ghost items: seq<Item<S, I>>, x: nat,
                                                     item: Item<S, I>, ghost plans: seq<Plan<S, I>>)
    requires Apart(items) && x < |items| == |plans| && item == items[x]
    requires forall y :: 0 <= y < x ==> Ready(E, items[y], plans[y]) && Loose(items, items[y])
    requires forall y :: x <= y < |items| ==>
      Regularized(E, items[y], plans[y]) && items[y].ctx.gScale == plans[y].out.g
    modifies Mine(item)
    ensures forall y :: 0 <= y <= x ==> Ready(E, items[y], plans[y]) && Loose(items, items[y])
    ensures forall y :: x < y < |items| ==> Regularized(E, items[y], plans[y]) && items[y].ctx.gScale == plans[y].out.g
  {
    hide Regularized, Ready, Consistent;
    ProloguePost(E, item, plans[x]);
    forall y | 0 <= y < |items| && y != x
      ensures y < x ==> Ready(E, items[y], plans[y]) && Loose(items, items[y])
      ensures x < y ==> Regularized(E, items[y], plans[y]) && items[y].ctx.gScale == plans[y].out.g
    {
      assert Mine(items[y]) !! Mine(item);
    }
  }

  ghost function Writes<S(!new), I(!new)>(items: seq<Item<S, I>>): set<object> {
    set i, o | i in items && o in Mine(i) :: o
  }

  /** All second prologues of a group. */
  method PostAll<S(!new), I(!new), R(!new), O(!new)>(E: Encoder<S, I, R, O>, items: seq<Item<S, I>>,
                                                     ghost plans: seq<Plan<S, I>>)
    requires Apart(items) && |items| == |plans|
    requires forall y :: 0 <= y < |items| ==>
      Regularized(E, items[y], plans[y]) && items[y].ctx.gScale == plans[y].out.g
    modifies Writes(items)
    ensures forall y :: 0 <= y < |items| ==> Ready(E, items[y], plans[y]) && Loose(items, items[y])
  {
    hide Regularized, Ready, Consistent, Apart, Loose, Mine;
    for x := 0 to |items|
      invariant forall y :: 0 <= y < x ==> Ready(E, items[y], plans[y]) && Loose(items, items[y])
      invariant forall y :: x <= y < |items| ==>
        Regularized(E, items[y], plans[y]) && items[y].ctx.gScale == plans[y].out.g
    {
      PostOne(E, items, x, items[x], plans);
    }
  }

  /** A slice that waits for its walk meets what the walk asks for, and the walk's result is the planned one. */
  lemma WaitingOk<S(!new), I(!new), R(!new), O(!new)>(E: Encoder<S, I, R, O>, i: Item<S, I>, pl: Plan<S, I>)
    requires Ready(E, i, pl) && i.ctx.wqReg == null
    ensures i.ctx.L != null && i.ctx.weightR.Length > 0 && i.ctx.K == E.K
    ensures var p := Problem(i.ctx.K, i.ctx.weightR[..], i.ctx.L[..], i.ctx.tn, i.ctx.buf);
            Ok(p) && Result(p).wq == pl.out.wq && Result(p).enc == pl.out.enc
  {
    hide Golden, Shaped, GScale, Result, BatchWq, BatchEnc, Shrunk, Ok, Tiled, Laws;
  }

  /** A walk at the start of its slice. */
  ghost predicate Begun<S(!new), I(!new)>(K: Kernel<S, I>, w: LDLQWalk<S, I>)
    reads w.Repr(), w.weight, w.L
  {
    && w.K == K && w.Valid() && !w.waiting && !w.done && w.ctx.wqReg == null && w.scale == w.ctx.gScale
    && w.weight == w.ctx.weightR && w.L == w.ctx.L && w.tn == w.ctx.tn && w.buf == w.ctx.buf
  }

  ghost function Walked<S(!new), I(!new)>(walks: seq<LDLQWalk<S, I>>): set<SliceCtx<S, I>> {
    set w | w in walks :: w.ctx
  }

  /** One more walk beside the walks of other slices. */
  method AddWalk<S(!new), I(!new)>(ghost walks: seq<LDLQWalk<S, I>>, ctx: SliceCtx<S, I>) returns (w: LDLQWalk<S, I>)
    requires Pool(walks) && ctx !in Walked(walks)
    requires forall v :: v in walks ==> ctx.weightR !in v.Repr() && ctx.L !in v.Repr()
    requires ctx.L != null && ctx.weightR.Length > 0 && ctx.wqReg == null
    requires Ok(Problem(ctx.K, ctx.weightR[..], ctx.L[..], ctx.tn, ctx.buf))
    ensures fresh(w.Repr() - {ctx}) && Begun(ctx.K, w) && w.ctx == ctx && Pool(walks + [w])
  {
    hide LDLQWalk.Valid, Ok;
    w := new LDLQWalk(ctx);
    assert forall v :: v in walks ==> v.Repr() !! w.Repr();
  }

  lemma NoWalks<S(!new), I(!new)>(walks: seq<LDLQWalk<S, I>>, items: seq<Item<S, I>>)
    requires walks == []
    ensures Pool(walks) && Walked(walks) <= Slices(items[..0])
  {
  }

  lemma SlicesBefore<S(!new), I(!new)>(items: seq<Item<S, I>>, x: int)
    requires Apart(items) && 0 <= x < |items|
    ensures items[x].ctx !in Slices(items[..x])
    ensures Slices(items[..x + 1]) == Slices(items[..x]) + {items[x].ctx}
  {
    forall y | 0 <= y < x ensures items[y].ctx != items[x].ctx {
      assert items[y].ctx in Mine(items[y]) && items[x].ctx in Mine(items[x]);
    }
    assert items[..x + 1] == items[..x] + [items[x]];
  }

  lemma WalkedMore<S(!new), I(!new)>(walks: seq<LDLQWalk<S, I>>, w: LDLQWalk<S, I>)
    ensures Walked(walks + [w]) == Walked(walks) + {w.ctx}
  {
  }

  /** A walk for every slice that waits for one. */
  method MakeWalks<S(!new), I(!new), R(!new), O(!new)>(ghost E: Encoder<S, I, R, O>, items: seq<Item<S, I>>,
                                                       ghost plans: seq<Plan<S, I>>)
      returns (walks: seq<LDLQWalk<S, I>>)
    requires Apart(items) && |items| == |plans|
    requires forall y :: 0 <= y < |items| ==> Ready(E, items[y], plans[y])
    ensures Pool(walks) && Walked(walks) <= Slices(items)
    ensures forall w :: w in walks ==> Begun(E.K, w) && fresh(w.Repr() - {w.ctx})
    ensures forall y :: 0 <= y < |items| && items[y].ctx.wqReg == null ==> items[y].ctx in Walked(walks)
  {
    hide LDLQWalk.Valid, Ready, Consistent, Ok, Begun, Apart, Pool, Slices, Walked;
    walks := [];
    NoWalks(walks, items);
    for x := 0 to |items|
      invariant Pool(walks) && Walked(walks) <= Slices(items[..x])
      invariant forall w :: w in walks ==> Begun(E.K, w)
      invariant forall w :: w in walks ==> fresh(w.Repr() - {w.ctx})
      invariant forall y :: 0 <= y < x && items[y].ctx.wqReg == null ==> items[y].ctx in Walked(walks)
    {
      SlicesBefore(items, x);
      if items[x].ctx.wqReg == null {
        WaitingOk(E, items[x], plans[x]);
        var w := AddWalk(walks, items[x].ctx);
        WalkedMore(walks, w);
        walks := walks + [w];
      }
    }
    assert items[..|items|] == items;
  }

  /** A finished walk has left in its slice what was planned. */
  lemma WalkGives<S(!new), I(!new), R(!new), O(!new)>(E: Encoder<S, I, R, O>, i: Item<S, I>, pl: Plan<S, I>,
                                                      w: LDLQWalk<S, I>)
    requires Moved(E, i, pl) && i.ctx.L != null && w.Finished() && w.K == E.K && w.ctx == i.ctx && w.scale == pl.out.g
    requires w.weight == i.ctx.weightR && w.L == i.ctx.L && w.tn == i.ctx.tn && w.buf == i.ctx.buf
    ensures Rescaled(E, i, pl) && Coded(i, pl)
  {
    hide Golden, Shaped, GScale, Result, BatchWq, BatchEnc, Shrunk, Grown, Ok, Tiled, Laws;
  }

  /** The walks of a group in lockstep. */
  method RunWalks<S(!new), I(!new), R(!new), O(!new)>(E: Encoder<S, I, R, O>, items: seq<Item<S, I>>, nMax: nat,
                                                      ghost plans: seq<Plan<S, I>>)
    requires nMax >= 1 && Apart(items) && |items| == |plans|
    requires forall y :: 0 <= y < |items| ==> Ready(E, items[y], plans[y])
    modifies Slices(items)
    ensures forall y :: 0 <= y < |items| ==> Rescaled(E, items[y], plans[y]) && Coded(items[y], plans[y])
  {
    hide LDLQWalk.Valid, LDLQWalk.Finished, Fixed, Consistent, Ok, Apart, Pool, Slices;
    var walks := MakeWalks(E, items, plans);
    label B:
    LockstepLdlq(E.K, walks, nMax);
    forall y | 0 <= y < |items| ensures Rescaled(E, items[y], plans[y]) && Coded(items[y], plans[y]) {
      var i := items[y];
      assert old(Ready(E, i, plans[y]));
      if i.ctx in Walked(walks) {
        var w :| w in walks && w.ctx == i.ctx;
        assert old@B(Begun(E.K, w));
        WalkGives(E, i, plans[y], w);
      }
    }
  }

  /** What the encoder writes for job j under its plan. */
  ghost function Output<S(!new), I(!new), R(!new), O(!new)>(E: Encoder<S, I, R, O>, j: Job<S>, pl: Plan<S, I>): O
    reads j.w
  {
    E.finish(j.w[..], pl.out)
  }

  /** The phases of a group between its first prologues and its epilogues: the pooled search, all second prologues, the
      walks in lockstep. */
  method Middle<S(!new), I(!new), R(!new), O(!new)>(E: Encoder<S, I, R, O>, items: seq<Item<S, I>>, nMax: nat,
                                                    ghost plans: seq<Plan<S, I>>)
    requires nMax >= 1 && Golden(E.phi) && Apart(items) && |items| == |plans|
    requires forall x :: 0 <= x < |items| ==> Regularized(E, items[x], plans[x])
    modifies Writes(items)
    ensures forall x :: 0 <= x < |items| ==> Rescaled(E, items[x], plans[x]) && Coded(items[x], plans[x])
  {
    hide Golden, Regularized, Ready, Rescaled, Coded, Apart, Loose;
    forall i | i in items ensures i.ctx in Writes(items) { assert i.ctx in Mine(i); }
    SearchAll(E, items, plans);
    PostAll(E, items, plans);
    RunWalks(E, items, nMax, plans);
  }

  method EpilogueAll<S(!new), I(!new), R(!new), O(!new)>(E: Encoder<S, I, R, O>, items: seq<Item<S, I>>,
                                                         ghost plans: seq<Plan<S, I>>)
      returns (outs: seq<O>)
    requires |items| == |plans|
    requires forall x :: 0 <= x < |items| ==> Rescaled(E, items[x], plans[x]) && Coded(items[x], plans[x])
    ensures |outs| == |items| && forall x :: 0 <= x < |outs| ==> outs[x] == E.finish(items[x].orig[..], plans[x].out)
  {
    hide Fixed;
    outs := [];
    for x := 0 to |items|
      invariant |outs| == x && forall y :: 0 <= y < x ==> outs[y] == E.finish(items[y].orig[..], plans[y].out)
      invariant forall y :: 0 <= y < |items| ==> Rescaled(E, items[y], plans[y]) && Coded(items[y], plans[y])
    {
      var o := Epilogue(E, items[x], plans[x]);
      outs := outs + [o];
    }
  }

  lemma WritesClear<S(!new), I(!new)>(jobs: seq<Job<S>>, items: seq<Item<S, I>>)
    requires Clear(jobs, items)
    ensures forall h :: h in Records(jobs) ==> h.L !in Writes(items) && h.su !in Writes(items)
  {
    hide Mine;
  }

  lemma NoRecordWritten<S(!new), I(!new)>(jobs: seq<Job<S>>, items: seq<Item<S, I>>)
    ensures forall h :: h in Records(jobs) ==> h as object !in Writes(items)
  {
  }

  /** The middle phases leave the records alone. */
  method MiddleApart<S(!new), I(!new), R(!new), O(!new)>(E: Encoder<S, I, R, O>, ghost jobs: seq<Job<S>>, ghost hi: nat,
                                                         ghost fins: seq<Fin<S, R>>, items: seq<Item<S, I>>, nMax: nat,
                                                         ghost plans: seq<Plan<S, I>>)
    requires nMax >= 1 && Golden(E.phi) && Apart(items) && |items| == |plans|
    requires forall x :: 0 <= x < |items| ==> Regularized(E, items[x], plans[x])
    requires |fins| == |jobs| && Met(E, jobs, fins, hi) && Clear(jobs, items)
    modifies Writes(items)
    ensures forall x :: 0 <= x < |items| ==> Rescaled(E, items[x], plans[x]) && Coded(items[x], plans[x])
    ensures Met(E, jobs, fins, hi)
  {
    hide Golden, Regularized, Rescaled, Coded, Apart, Met, Mine, Clear;
    WritesClear(jobs, items);
    NoRecordWritten(jobs, items);
    Middle(E, items, nMax, plans);
  }

  lemma PlannedLaws<S(!new), I(!new), R(!new), O(!new)>(E: Encoder<S, I, R, O>, jobs: seq<Job<S>>,
                                                        fins: seq<Fin<S, R>>, plans: seq<Plan<S, I>>)
    requires Planned(E, jobs, fins, plans)
    ensures Laws(E) && Golden(E.phi)
  {
    hide Golden, PlannedAt;
  }

  /** One group: all first prologues, the middle phases, all epilogues. */
  method EncodeGroup<S(!new), I(!new), R(!new), O(!new)>(E: Encoder<S, I, R, O>, jobs: seq<Job<S>>, lo: nat, hi: nat,
                                                         nMax: nat, ghost fins: seq<Fin<S, R>>,
                                                         ghost plans: seq<Plan<S, I>>)
      returns (outs: seq<O>)
    requires nMax >= 1 && lo <= hi <= |jobs| && Planned(E, jobs, fins, plans) && Met(E, jobs, fins, lo)
    modifies Records(jobs)
    ensures Planned(E, jobs, fins, plans) && Met(E, jobs, fins, hi) && |outs| == hi - lo
    ensures forall x :: 0 <= x < |outs| ==> outs[x] == Output(E, jobs[lo + x], plans[lo + x])
  {
    hide Laws, Regularized, Rescaled, Coded, Met, Apart, PlannedAt, Mine, Clear, Golden, FirstUse;
    PlannedLaws(E, jobs, fins, plans);
    var items := PreAll(E, jobs, lo, hi, fins, plans);
    ghost var mine := plans[lo..hi];
    assert forall o :: o in Writes(items) ==> fresh(o);
    assert forall j :: j in jobs ==> j.w !in Writes(items);
    MiddleApart(E, jobs, hi, fins, items, nMax, mine);
    outs := EpilogueAll(E, items, mine);
  }

  // ---------------------------------------------------------------- the two ways to encode all slices

  /** What a slice must meet: whole blocks, and a square record of its height not finalized yet. */
  ghost predicate Encodable<S(!new), I(!new), R(!new), O(!new)>(E: Encoder<S, I, R, O>, jobs: seq<Job<S>>)
    reads Weights(jobs), Records(jobs)
  {
    Laws(E) && forall j :: j in jobs ==> Sized(j.w[..], j.tn) && |j.hd.H| == j.w.Length && !j.hd.finalized
  }

  /** The finalization of x's record: once, under the seed of the first slice that uses it. */
  ghost function FinOf<S(!new), I(!new), R(!new), O(!new)>(E: Encoder<S, I, R, O>, jobs: seq<Job<S>>, x: nat): Fin<S, R>
    requires x < |jobs|
    reads Records(jobs)
  {
    var hd := jobs[x].hd;
    assert hd in Records(jobs);
    Finalized(E, hd.H, hd.count, E.seeded(jobs[FirstUse(jobs, x)].seed))
  }

  /** The plan of slice x: the first user of a record draws on from the finalization, the others from their own seed. */
  ghost function PlanAt<S(!new), I(!new), R(!new), O(!new)>(E: Encoder<S, I, R, O>, jobs: seq<Job<S>>,
                                                            x: nat): Plan<S, I>
    requires Encodable(E, jobs) && x < |jobs|
    reads Weights(jobs), Records(jobs)
  {
    hide Finalized, Laws, Sized;
    var j, fin := jobs[x], FinOf(E, jobs, x);
    assert j in jobs && j.w in Weights(jobs) && j.hd in Records(jobs);
    FinalizedShape(E, j.hd.H, j.hd.count, E.seeded(jobs[FirstUse(jobs, x)].seed));
    PlanOf(E, j.w[..], j.tn, fin, if FirstUse(jobs, x) == x then fin.rng else E.seeded(j.seed), j.out)
  }

  /** What slice x gives, from the weights, records and seeds at the start. */
  ghost function OutputAt<S(!new), I(!new), R(!new), O(!new)>(E: Encoder<S, I, R, O>, jobs: seq<Job<S>>, x: nat): O
    requires Encodable(E, jobs) && x < |jobs|
    reads Weights(jobs), Records(jobs)
  {
    assert jobs[x].w in Weights(jobs);
    Output(E, jobs[x], PlanAt(E, jobs, x))
  }

  ghost function Fins<S(!new), I(!new), R(!new), O(!new)>(E: Encoder<S, I, R, O>,
                                                          jobs: seq<Job<S>>): (f: seq<Fin<S, R>>)
    reads Records(jobs)
    ensures |f| == |jobs| && forall x :: 0 <= x < |jobs| ==> f[x] == FinOf(E, jobs, x)
  {
    seq(|jobs|, x requires 0 <= x < |jobs| reads Records(jobs) => FinOf(E, jobs, x))
  }

  ghost function Plans<S(!new), I(!new), R(!new), O(!new)>(E: Encoder<S, I, R, O>,
                                                           jobs: seq<Job<S>>): (p: seq<Plan<S, I>>)
    requires Encodable(E, jobs)
    reads Weights(jobs), Records(jobs)
    ensures |p| == |jobs| && forall x :: 0 <= x < |jobs| ==> p[x] == PlanAt(E, jobs, x)
  {
    hide PlanAt, Encodable;
    seq(|jobs|, x requires 0 <= x < |jobs| && Encodable(E, jobs) reads Weights(jobs), Records(jobs) =>
      PlanAt(E, jobs, x))
  }

  lemma SameFirst<S(!new)>(jobs: seq<Job<S>>, x: nat, y: nat)
    requires x < |jobs| && y < |jobs| && jobs[x].hd == jobs[y].hd
    ensures FirstUse(jobs, x) == FirstUse(jobs, y)
  {
    hide FirstFrom;
  }

  lemma StartPlanned<S(!new), I(!new), R(!new), O(!new)>(E: Encoder<S, I, R, O>, jobs: seq<Job<S>>)
    requires Encodable(E, jobs)
    ensures Planned(E, jobs, Fins(E, jobs), Plans(E, jobs)) && Met(E, jobs, Fins(E, jobs), 0)
  {
    hide Laws, Sized, Finalized, FirstUse, PlanOf, Plans, Fins;
    var fins, plans := Fins(E, jobs), Plans(E, jobs);
    forall x, y | 0 <= x < |jobs| && 0 <= y < |jobs| && jobs[x].hd == jobs[y].hd ensures fins[x] == fins[y] {
      SameFirst(jobs, x, y);
    }
    forall x | 0 <= x < |jobs| ensures PlannedAt(E, jobs[x], fins[x], FirstUse(jobs, x) == x, plans[x]) {
      var hd := jobs[x].hd;
      FinalizedShape(E, hd.H, hd.count, E.seeded(jobs[FirstUse(jobs, x)].seed));
      assert jobs[x] in jobs;
    }
    forall y | 0 <= y < |jobs| ensures MetAt(E, jobs[y].hd, fins[y], jobs[FirstUse(jobs, y)].seed, false) {
      assert jobs[y] in jobs;
    }
  }

  /** The plans, in terms of the records at the start: whether a slice is quantized with feedback. */
  lemma SlicesPlanned<S(!new), I(!new), R(!new), O(!new)>(E: Encoder<S, I, R, O>, jobs: seq<Job<S>>, x: nat)
    requires Encodable(E, jobs) && x < |jobs|
    ensures SliceOf(E, jobs[x].tn, FinOf(E, jobs, x), PlanAt(E, jobs, x).out)
    ensures var hd := jobs[x].hd;
            FinOf(E, jobs, x).fallback <==> hd.count == 0 || E.tiny(E.diagMean(E.mean(hd.H, hd.count)))
  {
    hide Laws, Sized, Finalized, FirstUse, PlanOf, SliceOf;
    var j, hd := jobs[x], jobs[x].hd;
    assert j in jobs && j.w in Weights(jobs) && hd in Records(jobs);
    var fin := FinOf(E, jobs, x);
    var rng := E.seeded(jobs[FirstUse(jobs, x)].seed);
    FinalizedShape(E, hd.H, hd.count, rng);
    FinalizedIs(E, hd.H, hd.count, rng);
    PlanGives(E, j.w[..], j.tn, fin, if FirstUse(jobs, x) == x then fin.rng else E.seeded(j.seed), j.out);
  }

  /** An output, operation by operation. The slice that meets the record first draws its column signs from where the
      record's row signs left the generator, every other slice from its own seed; the scale is searched on the
      regularized weight and then put into every entry of it and taken out of every row sign. */
  lemma OutputIs<S(!new), I(!new), R(!new), O(!new)>(E: Encoder<S, I, R, O>, jobs: seq<Job<S>>, x: nat)
      returns (sl: Slice<S, I>)
    requires Encodable(E, jobs) && x < |jobs|
    ensures OutputAt(E, jobs, x) == E.finish(jobs[x].w[..], sl)
    ensures var j, hd, y := jobs[x], jobs[x].hd, FirstUse(jobs, x);
            var draw := E.signs(E.seeded(jobs[y].seed), |hd.H|);
            var rng := if y == x then draw.1 else E.seeded(j.seed);
            var mean := if hd.count == 0 then hd.H else E.mean(hd.H, hd.count);
            var d := if hd.count == 0 then E.K.zero else E.diagMean(mean);
            var diag := E.diagonal(E.damp(mean, d));
            var reg :=
              E.regularize(j.w[..], draw.0, E.signs(rng, 16 * j.tn).0, j.out, diag, hd.count == 0 || E.tiny(d));
            Graduated(E, j.w.Length, j.tn, reg, sl)
  {
    hide Laws, Sized, Finalized, FirstUse, PlanOf, Graduated, Shape;
    var j, hd := jobs[x], jobs[x].hd;
    assert j in jobs && j.w in Weights(jobs) && hd in Records(jobs);
    var fin := FinOf(E, jobs, x);
    var seed := E.seeded(jobs[FirstUse(jobs, x)].seed);
    FinalizedShape(E, hd.H, hd.count, seed);
    FinalizedIs(E, hd.H, hd.count, seed);
    PlanScales(E, j.w[..], j.tn, fin, if FirstUse(jobs, x) == x then fin.rng else E.seeded(j.seed), j.out);
    sl := PlanAt(E, jobs, x).out;
  }

  /** A slice beside its finalized record. */
  lemma SliceBeside<S(!new), I(!new), R(!new), O(!new)>(E: Encoder<S, I, R, O>, hd: HData<S>, tn: nat, fin: Fin<S, R>,
                                                        sl: Slice<S, I>)
    requires hd.Holds(fin) && SliceOf(E, tn, fin, sl)
    ensures (hd.L == null <==> fin.fallback) && sl.H == hd.H
    ensures hd.L == null ==> AllAlone(E.K, sl.weight, tn, sl.wq, sl.enc)
    ensures hd.L != null ==>
      var p := Problem(E.K, sl.weight, hd.L[..], tn, 128); Ok(p) && sl.wq == Result(p).wq && sl.enc == Result(p).enc
  {
    hide AllAlone, Ok, Result;
  }

  lemma AllMet<S(!new), I(!new), R(!new), O(!new)>(E: Encoder<S, I, R, O>, jobs: seq<Job<S>>, fins: seq<Fin<S, R>>)
    requires |fins| == |jobs| && Met(E, jobs, fins, |jobs|)
    ensures forall x :: 0 <= x < |jobs| ==> jobs[x].hd.Holds(fins[x])
  {
    hide HData.Holds, Finalized, FirstFrom;
    forall x | 0 <= x < |jobs| ensures jobs[x].hd.Holds(fins[x]) {
      assert MetAt(E, jobs[x].hd, fins[x], jobs[FirstUse(jobs, x)].seed, FirstUse(jobs, x) < |jobs|);
    }
  }

  lemma AllPlanned<S(!new), I(!new), R(!new), O(!new)>(E: Encoder<S, I, R, O>, jobs: seq<Job<S>>,
                                                       slices: seq<Slice<S, I>>)
    requires Encodable(E, jobs) && |slices| == |jobs|
    requires forall x :: 0 <= x < |jobs| ==> slices[x] == PlanAt(E, jobs, x).out
    ensures forall x :: 0 <= x < |jobs| ==> SliceOf(E, jobs[x].tn, FinOf(E, jobs, x), slices[x])
    ensures forall x :: 0 <= x < |jobs| ==>
      (FinOf(E, jobs, x).fallback <==>
       jobs[x].hd.count == 0 || E.tiny(E.diagMean(E.mean(jobs[x].hd.H, jobs[x].hd.count))))
  {
    hide Encodable, PlanAt, FinOf, SliceOf;
    forall x | 0 <= x < |jobs|
      ensures SliceOf(E, jobs[x].tn, FinOf(E, jobs, x), slices[x])
      ensures FinOf(E, jobs, x).fallback <==>
        jobs[x].hd.count == 0 || E.tiny(E.diagMean(E.mean(jobs[x].hd.H, jobs[x].hd.count)))
    {
      SlicesPlanned(E, jobs, x);
    }
  }

  lemma AllBeside<S(!new), I(!new), R(!new), O(!new)>(E: Encoder<S, I, R, O>, jobs: seq<Job<S>>, fins: seq<Fin<S, R>>,
                                                      slices: seq<Slice<S, I>>)
    requires |slices| == |fins| == |jobs|
    requires forall x :: 0 <= x < |jobs| ==> jobs[x].hd.Holds(fins[x]) && SliceOf(E, jobs[x].tn, fins[x], slices[x])
    ensures forall x :: 0 <= x < |jobs| ==>
      (jobs[x].hd.L == null <==> fins[x].fallback) && slices[x].H == jobs[x].hd.H
    ensures forall x :: 0 <= x < |jobs| && jobs[x].hd.L == null ==>
      AllAlone(E.K, slices[x].weight, jobs[x].tn, slices[x].wq, slices[x].enc)
    ensures forall x :: 0 <= x < |jobs| && jobs[x].hd.L != null ==>
      var p := Problem(E.K, slices[x].weight, jobs[x].hd.L[..], jobs[x].tn, 128);
      Ok(p) && slices[x].wq == Result(p).wq && slices[x].enc == Result(p).enc
  {
    hide HData.Holds, SliceOf, AllAlone, Ok, Result;
    forall x | 0 <= x < |jobs|
      ensures (jobs[x].hd.L == null <==> fins[x].fallback) && slices[x].H == jobs[x].hd.H
      ensures jobs[x].hd.L == null ==> AllAlone(E.K, slices[x].weight, jobs[x].tn, slices[x].wq, slices[x].enc)
      ensures jobs[x].hd.L != null ==>
        var p := Problem(E.K, slices[x].weight, jobs[x].hd.L[..], jobs[x].tn, 128);
        Ok(p) && slices[x].wq == Result(p).wq && slices[x].enc == Result(p).enc
    {
      SliceBeside(E, jobs[x].hd, jobs[x].tn, fins[x], slices[x]);
    }
  }

  /** Group after group. */
  method EncodeGroups<S(!new), I(!new), R(!new), O(!new)>(E: Encoder<S, I, R, O>, jobs: seq<Job<S>>, size: nat,
                                                          nMax: nat, ghost fins: seq<Fin<S, R>>,
                                                          ghost plans: seq<Plan<S, I>>)
      returns (outs: seq<O>)
    requires size >= 1 && nMax >= 1 && Planned(E, jobs, fins, plans) && Met(E, jobs, fins, 0)
    modifies Records(jobs)
    ensures Met(E, jobs, fins, |jobs|)
    ensures |outs| == |jobs| && forall x :: 0 <= x < |jobs| ==> outs[x] == Output(E, jobs[x], plans[x])
  {
    hide Planned, Met;
    outs := [];
    var lo := 0;
    while lo < |jobs|
      invariant 0 <= lo <= |jobs| && |outs| == lo
      invariant Planned(E, jobs, fins, plans) && Met(E, jobs, fins, lo)
      invariant forall x :: 0 <= x < lo ==> outs[x] == Output(E, jobs[x], plans[x])
    {
      var hi := if lo + size < |jobs| then lo + size else |jobs|;
      var group := EncodeGroup(E, jobs, lo, hi, nMax, fins, plans);
      outs, lo := outs + group, hi;
    }
  }

  /** The phased encoder, for any size of group and any number of walks in flight: every slice gives what it is to give
      from the state at the start, and every record is finalized once. */
  method EncodePhased<S(!new), I(!new), R(!new), O(!new)>(E: Encoder<S, I, R, O>, jobs: seq<Job<S>>, size: nat,
                                                          nMax: nat)
      returns (outs: seq<O>, ghost slices: seq<Slice<S, I>>)
    requires size >= 1 && nMax >= 1 && Encodable(E, jobs)
    modifies Records(jobs)
    ensures |outs| == |jobs| && forall x :: 0 <= x < |jobs| ==> outs[x] == old(OutputAt(E, jobs, x))
    ensures forall x :: 0 <= x < |jobs| ==> jobs[x].hd.Holds(old(FinOf(E, jobs, x)))
    ensures |slices| == |jobs| && forall x :: 0 <= x < |jobs| ==>
      outs[x] == E.finish(jobs[x].w[..], slices[x]) && slices[x].H == jobs[x].hd.H
    ensures forall x :: 0 <= x < |jobs| ==>
      (jobs[x].hd.L == null <==>
       old(jobs[x].hd.count) == 0 || E.tiny(E.diagMean(E.mean(old(jobs[x].hd.H), old(jobs[x].hd.count)))))
    ensures forall x :: 0 <= x < |jobs| && jobs[x].hd.L == null ==>
      AllAlone(E.K, slices[x].weight, jobs[x].tn, slices[x].wq, slices[x].enc)
    ensures forall x :: 0 <= x < |jobs| && jobs[x].hd.L != null ==>
      var p := Problem(E.K, slices[x].weight, jobs[x].hd.L[..], jobs[x].tn, 128);
      Ok(p) && slices[x].wq == Result(p).wq && slices[x].enc == Result(p).enc
  {
    hide Planned, Met, Finalized, PlanAt, FinOf, Encodable, HData.Holds, SliceOf, AllAlone, Ok, Result;
    ghost var fins, plans := Fins(E, jobs), Plans(E, jobs);
    StartPlanned(E, jobs);
    slices := seq(|jobs|, x requires 0 <= x < |plans| => plans[x].out);
    AllPlanned(E, jobs, slices);
    outs := EncodeGroups(E, jobs, size, nMax, fins, plans);
    AllMet(E, jobs, fins);
    AllBeside(E, jobs, fins, slices);
  }

  lemma SizedParts<S>(W: Mat<S>, tn: nat)
    requires Sized(W, tn)
    ensures Shape(W, |W|, 16 * tn) && |W| >= 16 && tn > 0
  {
  }

  lemma PlanParts<S(!new), I(!new), R(!new), O(!new)>(E: Encoder<S, I, R, O>, W: Mat<S>, tn: nat, fin: Fin<S, R>,
                                                      rng: R, out: OutScales)
    requires Laws(E) && Sized(W, tn) && (!fin.fallback ==> Shape(fin.L, |W|, |W|))
    ensures var pl := PlanOf(E, W, tn, fin, rng, out);
            pl.reg == Regular(E, W, tn, fin, rng, out) && pl.L == fin.L && pl.out.H == fin.H
              && pl.out.fallback == fin.fallback
            && pl.out.sv == pl.reg.sv && pl.out.applied == pl.reg.applied
  {
    hide Regular, GScale, Grown, Shrunk, Result, BatchWq, BatchEnc, Golden, Shaped, Ok, Tiled, Laws, Consistent;
  }

  /** The second half of a slice: search the scale, apply it, quantize. */
  method ScaleAndQuantize<S(!new), I(!new), R(!new), O(!new)>(E: Encoder<S, I, R, O>, weight: array<seq<S>>,
      su: array<S>, L: array?<seq<S>>, tn: nat, ghost pl: Plan<S, I>)
      returns (g: real, wq: array<seq<S>>, encoded: array<seq<seq<I>>>)
    requires Consistent(E, tn, pl) && weight[..] == pl.reg.weight && su[..] == pl.reg.su
    requires (L == null <==> pl.out.fallback) && (L != null ==> L[..] == pl.L)
    requires weight as object != su && L != weight && L as object? != su
    modifies weight, su
    ensures weight[..] == pl.out.weight && su[..] == pl.out.su && g == pl.out.g
    ensures wq[..] == pl.out.wq && encoded[..] == pl.out.enc
  {
    hide Golden, Shaped, Laws, Sized, Result, GScale, Ok, Admitted, Tiled, AllAlone, BatchWq, BatchEnc, Grown, Shrunk,
      Shape;
    Basics(E);
    SizedParts(pl.reg.weight, tn);
    var error;
    g, error := GScaleGss(E.K, E.Q, E.phi, weight, tn);
    RegularizePost(E.grow, E.shrink, weight, su, g);
    assert weight[..] == pl.out.weight;
    if L == null {
      wq, encoded := TrellisQuantAllTiles(E.K, weight, tn);
      BatchIsAlone(E.K, pl.out.weight, tn, wq[..], encoded[..]);
    } else {
      OkIs(Problem(E.K, pl.out.weight, pl.L, tn, E.buf));
      var ok;
      ok, wq, encoded := Ldlq.Ldlq(E.K, weight, L, tn, E.buf);
    }
  }

  /** One slice from start to end: seed, finalize, draw, regularize a clone, search the scale, quantize, measure. */
  method EncodeSlice<S(!new), I(!new), R(!new), O(!new)>(E: Encoder<S, I, R, O>, w: array<seq<S>>, tn: nat,
                                                         hd: HData<S>, seed: int, out: OutScales, ghost fin: Fin<S, R>,
                                                         ghost pl: Plan<S, I>)
      returns (o: O)
    requires Laws(E) && Sized(w[..], tn)
    requires !hd.finalized ==> fin == Finalized(E, hd.H, hd.count, E.seeded(seed))
    requires hd.finalized ==> hd.Holds(fin)
    requires !fin.fallback ==> Shape(fin.L, w.Length, w.Length)
    requires pl == PlanOf(E, w[..], tn, fin, if hd.finalized then E.seeded(seed) else fin.rng, out)
    modifies hd
    ensures hd.Holds(fin) && o == E.finish(w[..], pl.out)
  {
    hide Laws, Sized, Finalized, PlanOf, Shape, Consistent, BatchWq, BatchEnc, Result, GScale;
    PlanParts(E, w[..], tn, fin, if hd.finalized then E.seeded(seed) else fin.rng, out);
    var rng := FinalizeCaptureH(E, hd, E.seeded(seed), fin);
    var reg := Regular(E, w[..], tn, Fin(hd.H, [], hd.fallback, hd.su[..], hd.diag, rng), rng, out);
    assert reg == pl.reg;
    var weight := new seq<S>[|reg.weight|](x requires 0 <= x < |reg.weight| => reg.weight[x]);
    var su := new S[|reg.su|](x requires 0 <= x < |reg.su| => reg.su[x]);
    assert weight[..] == reg.weight && su[..] == reg.su;
    var g, wq, encoded := ScaleAndQuantize(E, weight, su, hd.L, tn, pl);
    o := E.finish(w[..], Slice(hd.H, hd.fallback, reg.applied, g, weight[..], su[..], reg.sv, wq[..], encoded[..]));
  }

  /** The prologue of one slice with its own scale search: seed, finalize, draw, regularize, scale, and in the fallback
      quantize. */
  method Prologue<S(!new), I(!new), R(!new), O(!new)>(E: Encoder<S, I, R, O>, w: array<seq<S>>, tn: nat, hd: HData<S>,
                                                      seed: int, out: OutScales, ghost fin: Fin<S, R>,
                                                      ghost pl: Plan<S, I>)
      returns (item: Item<S, I>)
    requires Laws(E) && Sized(w[..], tn)
    requires !hd.finalized ==> fin == Finalized(E, hd.H, hd.count, E.seeded(seed))
    requires hd.finalized ==> hd.Holds(fin)
    requires !fin.fallback ==> Shape(fin.L, w.Length, w.Length)
    requires pl == PlanOf(E, w[..], tn, fin, if hd.finalized then E.seeded(seed) else fin.rng, out)
    modifies hd
    ensures hd.Holds(fin) && Ready(E, item, pl) && item.orig == w && fresh(Mine(item))
    ensures item.ctx.weightR as object != item.ctx.su && item.ctx.L !in Mine(item)
  {
    hide Laws, Sized, Finalized, PlanOf, Shape, Consistent, GScale, Golden, Fixed, Regularized, Ready;
    ghost var plan;
    item, plan := ProloguePre(E, w, tn, hd, seed, out, fin);
    PlannedScale(E, item, pl);
    var scale, error := GScaleGss(E.K, E.Q, E.phi, item.ctx.weightR, tn);
    item.ctx.gScale := scale;
    ProloguePost(E, item, pl);
  }

  /** The walk of one slice, if it still needs one. */
  method WalkOne<S(!new), I(!new), R(!new), O(!new)>(E: Encoder<S, I, R, O>, item: Item<S, I>, ghost pl: Plan<S, I>)
    requires Ready(E, item, pl) && item.ctx.weightR as object != item.ctx.su && item.ctx.L !in Mine(item)
    modifies item.ctx
    ensures Rescaled(E, item, pl) && Coded(item, pl)
  {
    hide Ready, Rescaled, Coded;
    ghost var pls := [pl];
    var items := [item];
    RunWalks(E, items, 1, pls);
    assert Rescaled(E, items[0], pls[0]) && Coded(items[0], pls[0]);
  }

  /** One slice as prologue, walk and epilogue: the same output and the same record. */
  method EncodeSplit<S(!new), I(!new), R(!new), O(!new)>(E: Encoder<S, I, R, O>, w: array<seq<S>>, tn: nat,
                                                         hd: HData<S>, seed: int, out: OutScales, ghost fin: Fin<S, R>,
                                                         ghost pl: Plan<S, I>)
      returns (o: O)
    requires Laws(E) && Sized(w[..], tn)
    requires !hd.finalized ==> fin == Finalized(E, hd.H, hd.count, E.seeded(seed))
    requires hd.finalized ==> hd.Holds(fin)
    requires !fin.fallback ==> Shape(fin.L, w.Length, w.Length)
    requires pl == PlanOf(E, w[..], tn, fin, if hd.finalized then E.seeded(seed) else fin.rng, out)
    modifies hd
    ensures hd.Holds(fin) && o == E.finish(w[..], pl.out)
  {
    hide Laws, Sized, Finalized, PlanOf, Shape, Consistent, Ready, Rescaled, Coded;
    var item := Prologue(E, w, tn, hd, seed, out, fin, pl);
    WalkOne(E, item, pl);
    o := Epilogue(E, item, pl);
  }

  method EncodeJob<S(!new), I(!new), R(!new), O(!new)>(E: Encoder<S, I, R, O>, jobs: seq<Job<S>>, x: nat,
                                                       ghost fins: seq<Fin<S, R>>, ghost plans: seq<Plan<S, I>>)
      returns (o: O)
    requires x < |jobs| && Planned(E, jobs, fins, plans) && Met(E, jobs, fins, x)
    modifies Records(jobs)
    ensures Planned(E, jobs, fins, plans) && Met(E, jobs, fins, x + 1) && o == Output(E, jobs[x], plans[x])
  {
    hide PlanOf, Finalized, Laws, Sized, FirstUse, HData.Holds, Consistent, Shape;
    var j := jobs[x];
    ghost var first := FirstUse(jobs, x);
    assert PlannedAt(E, j, fins[x], first == x, plans[x]);
    assert MetAt(E, j.hd, fins[x], jobs[first].seed, first < x);
    assert j.hd in Records(jobs);
    o := EncodeSlice(E, j.w, j.tn, j.hd, j.seed, j.out, fins[x], plans[x]);
    MetStep(E, jobs, fins, x);
  }

  /** Slice after slice. */
  method EncodeEach<S(!new), I(!new), R(!new), O(!new)>(E: Encoder<S, I, R, O>, jobs: seq<Job<S>>,
                                                        ghost fins: seq<Fin<S, R>>, ghost plans: seq<Plan<S, I>>)
      returns (outs: seq<O>)
    requires Planned(E, jobs, fins, plans) && Met(E, jobs, fins, 0)
    modifies Records(jobs)
    ensures Met(E, jobs, fins, |jobs|)
    ensures |outs| == |jobs| && forall x :: 0 <= x < |jobs| ==> outs[x] == Output(E, jobs[x], plans[x])
  {
    hide Planned, Met;
    outs := [];
    for x := 0 to |jobs|
      invariant |outs| == x && Planned(E, jobs, fins, plans) && Met(E, jobs, fins, x)
      invariant forall y :: 0 <= y < x ==> outs[y] == Output(E, jobs[y], plans[y])
    {
      var o := EncodeJob(E, jobs, x, fins, plans);
      outs := outs + [o];
    }
  }

  /** The encoder one slice after the other gives the same outputs and leaves the same records. */
  method EncodeAll<S(!new), I(!new), R(!new), O(!new)>(E: Encoder<S, I, R, O>, jobs: seq<Job<S>>)
      returns (outs: seq<O>, ghost slices: seq<Slice<S, I>>)
    requires Encodable(E, jobs)
    modifies Records(jobs)
    ensures |outs| == |jobs| && forall x :: 0 <= x < |jobs| ==> outs[x] == old(OutputAt(E, jobs, x))
    ensures forall x :: 0 <= x < |jobs| ==> jobs[x].hd.Holds(old(FinOf(E, jobs, x)))
    ensures |slices| == |jobs| && forall x :: 0 <= x < |jobs| ==>
      outs[x] == E.finish(jobs[x].w[..], slices[x]) && slices[x].H == jobs[x].hd.H
    ensures forall x :: 0 <= x < |jobs| ==>
      (jobs[x].hd.L == null <==>
       old(jobs[x].hd.count) == 0 || E.tiny(E.diagMean(E.mean(old(jobs[x].hd.H), old(jobs[x].hd.count)))))
    ensures forall x :: 0 <= x < |jobs| && jobs[x].hd.L == null ==>
      AllAlone(E.K, slices[x].weight, jobs[x].tn, slices[x].wq, slices[x].enc)
    ensures forall x :: 0 <= x < |jobs| && jobs[x].hd.L != null ==>
      var p := Problem(E.K, slices[x].weight, jobs[x].hd.L[..], jobs[x].tn, 128);
      Ok(p) && slices[x].wq == Result(p).wq && slices[x].enc == Result(p).enc
  {
    hide Planned, Met, Finalized, PlanAt, FinOf, Encodable, HData.Holds, SliceOf, AllAlone, Ok, Result;
    ghost var fins, plans := Fins(E, jobs), Plans(E, jobs);
    StartPlanned(E, jobs);
    slices := seq(|jobs|, x requires 0 <= x < |plans| => plans[x].out);
    AllPlanned(E, jobs, slices);
    outs := EncodeEach(E, jobs, fins, plans);
    AllMet(E, jobs, fins);
    AllBeside(E, jobs, fins, slices);
  }
}

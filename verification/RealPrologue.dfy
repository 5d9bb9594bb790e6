/** The first prologue of a slice over exact reals: the regularization of values that the phases are proved with is what
    the in-place routine does to the clone, while the row signs stay those of the shared record. */
module RealPrologue {
  import opened GoldenSection
  import opened GssPool
  import opened Hadamard
  import opened Ldlq
  import opened Linear
  import opened Lockstep
  import opened Loss
  import opened Options
  import opened Pipeline
  import opened Regularize
  import opened Tiles

  function RowsOf(k: nat, n: nat, X: Matrix): (W: Mat<real>)
    ensures Shape(W, k, n)
  {
    seq(k, r requires 0 <= r < k => seq(n, c requires 0 <= c < n => X(r, c)))
  }

  lemma RowsAgree(W: Mat<real>, k: nat, n: nat, X: Matrix)
    requires Shape(W, k, n) && Agree(k, n, AsMatrix(W), X)
    ensures W == RowsOf(k, n, X)
  {
    forall r | 0 <= r < k ensures W[r] == RowsOf(k, n, X)[r] {
      assert forall c :: 0 <= c < n ==> AsMatrix(W)(r, c) == X(r, c);
    }
  }

  /** What the routine is given, with the decision on the output channels taken. */
  function Given(sqrt: real -> real, s: real, W: Mat<real>, su: seq<real>, sv: seq<real>, out: OutScales,
                 diag: seq<real>, fallback: bool): (p: Input)
    requires Whole(Input(W, |sv|, su, sv, false, sqrt, s))
    ensures Whole(p) && (p.apply <==> Decide(out, sqrt, Some(diag), fallback, AllTiny(p)).Always?)
    ensures p == Input(W, |sv|, su, sv, p.apply, sqrt, s)
  {
    hide Shape, Norm, Decide;
    var p := Input(W, |sv|, su, sv, false, sqrt, s);
    p.(apply := Decide(out, sqrt, Some(diag), fallback, AllTiny(p)).Always?)
  }

  /** The encoder regularizes with exact reals. */
  ghost predicate Exact<I, R, O>(E: Encoder<real, I, R, O>, sqrt: real -> real, s: real) {
    forall W, su, sv, out, diag, fallback | Whole(Input(W, |sv|, su, sv, false, sqrt, s)) ::
      var p := Given(sqrt, s, W, su, sv, out, diag, fallback);
      E.regularize(W, su, sv, out, diag, fallback) ==
        Reg(RowsOf(p.k, p.n, WeightOut(p)), SuOut(p), SvOut(p), Decide(out, sqrt, Some(diag), fallback, AllTiny(p)))
  }

  /** The slice has whole signs and no divisor of its regularization is zero. */
  ghost predicate Divides<I, R, O>(E: Encoder<real, I, R, O>, W: Mat<real>, tn: nat, fin: Fin<real, R>, rng: R,
                                   out: OutScales, sqrt: real -> real, s: real)
  {
    var sv := E.signs(rng, 16 * tn).0;
    && |sv| == 16 * tn && Whole(Input(W, |sv|, fin.su, sv, false, sqrt, s))
    && Finite(Given(sqrt, s, W, fin.su, sv, out, fin.diag, fin.fallback))
  }

  /** Draws the column signs, clones the weight and regularizes the clone; the row signs are only read. */
  method RegularizeClone<I, R, O>(E: Encoder<real, I, R, O>, w: array<seq<real>>, tn: nat, su: array<real>,
                                  diag: seq<real>, fallback: bool, rng: R, out: OutScales, sqrt: real -> real, s: real,
                                  ghost fin: Fin<real, R>)
      returns (reg: Reg<real>, weight: array<seq<real>>, su': array<real>)
    requires Exact(E, sqrt, s) && Divides(E, w[..], tn, fin, rng, out, sqrt, s)
    requires su[..] == fin.su && diag == fin.diag && fallback == fin.fallback
    ensures fresh(weight) && fresh(su') && weight as object != su'
    ensures reg == Regular(E, w[..], tn, fin, rng, out) && reg.weight == weight[..] && reg.su == su'[..]
  {
    hide WeightOut, SuOut, SvOut, Finite, Decide, Agree, Given, AllTiny, Whole;
    var draw := E.signs(rng, 16 * tn).0;
    ghost var p := Given(sqrt, s, w[..], fin.su, draw, out, diag, fallback);
    var sv := new real[|draw|](x requires 0 <= x < |draw| => draw[x]);
    assert sv[..] == draw;
    weight := new seq<real>[w.Length](x requires 0 <= x < w.Length reads w => w[x]);
    assert weight[..] == w[..];
    var applied, sv';
    applied, su', sv' := RegularizePre(weight, 16 * tn, su, sv, out, Some(diag), fallback, sqrt, s, p);
    RowsAgree(weight[..], p.k, p.n, WeightOut(p));
    reg := Reg(weight[..], su'[..], sv'[..], applied);
  }

  /** Seed, finalize, draw, clone and regularize in place. */
  method ProloguePre<I(!new), R(!new), O(!new)>(E: Encoder<real, I, R, O>, w: array<seq<real>>, tn: nat,
                                                hd: HData<real>, seed: int, out: OutScales, sqrt: real -> real, s: real,
                                                ghost fin: Fin<real, R>)
      returns (item: Item<real, I>, ghost pl: Plan<real, I>)
    requires Laws(E) && Sized(w[..], tn) && Exact(E, sqrt, s)
    requires !hd.finalized ==> fin == Finalized(E, hd.H, hd.count, E.seeded(seed))
    requires hd.finalized ==> hd.Holds(fin)
    requires !fin.fallback ==> Shape(fin.L, w.Length, w.Length)
    requires Divides(E, w[..], tn, fin, if hd.finalized then E.seeded(seed) else fin.rng, out, sqrt, s)
    modifies hd
    ensures hd.Holds(fin)
    ensures old(hd.finalized) ==> unchanged(hd)
    ensures !old(hd.finalized) ==> fresh(hd.su) && (hd.L != null ==> fresh(hd.L))
    ensures fresh(Mine(item)) && item.ctx.weightR as object != item.ctx.su && item.orig == w && item.ctx.tn == tn
    ensures item.ctx.L == hd.L && hd.L !in Mine(item) && hd.su !in Mine(item)
    ensures pl == PlanOf(E, w[..], tn, fin, if old(hd.finalized) then E.seeded(seed) else fin.rng, out)
    ensures Regularized(E, item, pl)
  {
    hide Golden, Shaped, Laws, Sized, Result, GScale, Finalized, Exact, Divides, Regular;
    var rng := FinalizeCaptureH(E, hd, E.seeded(seed), fin);
    var reg, weight, su :=
      RegularizeClone(E, w, tn, hd.su, hd.diag, hd.fallback, rng, out, sqrt, s, fin);
    pl := PlanOf(E, w[..], tn, fin, rng, out);
    var ctx := new SliceCtx(E.K, tn, E.buf, weight, hd.L, su, reg.sv);
    item := Item(ctx, w, hd.H, reg.applied);
  }
}

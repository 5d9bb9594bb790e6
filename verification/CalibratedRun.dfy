/** The encoder on a calibrated record over exact reals: what the phases leave is unblocked error feedback with the
    factor of the record's Hessian, and the proxy loss of every output is a sum of squares. */
module CalibratedRun {
  import opened BlockLdl
  import opened Calibrated
  import opened Feedback
  import opened Ldlq
  import opened Linear
  import opened Loss
  import opened Options
  import opened Pipeline
  import opened Sums
  import opened Tiles

  /** H factors after t dampings and not before. */
  ghost predicate FactorsAt(H: Mat<real>, sigma: real, chol: Mat<real> -> Option<Mat<real>>, t: nat)
    requires Shape(H, |H|, |H|) && |H| > 0
  {
    t <= 10 && chol(Damped(H, sigma, t)).Some? && forall u :: 0 <= u < t ==> chol(Damped(H, sigma, u)).None?
  }

  /** The factorization is the block LDL routine wherever that routine succeeds. */
  ghost predicate BlockLdlFactor<I, R, O>(E: Encoder<real, I, R, O>, sigma: real,
                                          chol: Mat<real> -> Option<Mat<real>>)
  {
    forall H, t :: Shape(H, |H|, |H|) && |H| > 0 && |H| % 16 == 0 && FactorsAt(H, sigma, chol, t) ==>
      var Hd := Damped(H, sigma, t);
      E.factor(H).1 == Hd && IsBlockLdl(16, |H|, Hd, chol(Hd).value, E.factor(H).0)
  }

  /** The Hessian that the record of slice x is factored from: the damped mean, rotated by the signs that the first
      slice with this record draws. */
  ghost function Rotated<I(!new), R(!new), O(!new)>(E: Encoder<real, I, R, O>, jobs: seq<Job<real>>, x: nat): Mat<real>
    requires x < |jobs|
    reads Records(jobs)
  {
    var hd := jobs[x].hd;
    assert hd in Records(jobs);
    var mean := E.mean(hd.H, hd.count);
    E.rotate(E.damp(mean, E.diagMean(mean)), E.signs(E.seeded(jobs[FirstUse(jobs, x)].seed), |hd.H|).0)
  }

  /** The record of slice x has captured rows and a diagonal that is not tiny, and its Hessian factors. */
  ghost predicate Calibrates<I(!new), R(!new), O(!new)>(E: Encoder<real, I, R, O>, jobs: seq<Job<real>>, x: nat,
                                                        sigma: real, chol: Mat<real> -> Option<Mat<real>>, t: nat)
    requires x < |jobs|
    reads Records(jobs)
  {
    assert jobs[x].hd in Records(jobs);
    var hd, H := jobs[x].hd, Rotated(E, jobs, x);
    && hd.count != 0 && !E.tiny(E.diagMean(E.mean(hd.H, hd.count)))
    && Shape(H, |H|, |H|) && |H| > 0 && |H| % 16 == 0 && FactorsAt(H, sigma, chol, t)
  }

  lemma FactoredAt<I(!new), R(!new), O(!new)>(E: Encoder<real, I, R, O>, H: Mat<real>, sigma: real,
                                              chol: Mat<real> -> Option<Mat<real>>, t: nat)
    requires BlockLdlFactor(E, sigma, chol)
    requires Shape(H, |H|, |H|) && |H| > 0 && |H| % 16 == 0 && FactorsAt(H, sigma, chol, t)
    ensures var Hd := E.factor(H).1;
            |Hd| == |H| == |E.factor(H).0| && chol(Hd).Some? && IsBlockLdl(16, |H|, Hd, chol(Hd).value, E.factor(H).0)
  {
    hide Damped, Congruent;
  }

  /** A record that holds its finalization holds the damped Hessian and its block LDL factor with zeros on the
      diagonal. */
  lemma RecordIsFactored<I(!new), R(!new), O(!new)>(E: Encoder<real, I, R, O>, hd: HData<real>, H: Mat<real>,
                                                    count: nat, rng: R, sigma: real,
                                                    chol: Mat<real> -> Option<Mat<real>>, t: nat)
      returns (L: Mat<real>)
    requires hd.Holds(Finalized(E, H, count, rng)) && Exact(E.K) && BlockLdlFactor(E, sigma, chol)
    requires count != 0 && !E.tiny(E.diagMean(E.mean(H, count)))
    requires var M := E.rotate(E.damp(E.mean(H, count), E.diagMean(E.mean(H, count))), E.signs(rng, |H|).0);
             Shape(M, |M|, |M|) && |M| > 0 && |M| % 16 == 0 && FactorsAt(M, sigma, chol, t)
    ensures chol(hd.H).Some? && IsBlockLdl(16, |hd.H|, hd.H, chol(hd.H).value, L)
    ensures hd.L != null && hd.L[..] == ZeroDiagonal(0.0, L)
  {
    hide IsBlockLdl, FactorsAt, ZeroDiagonal, Damped;
    FinalizedIs(E, H, count, rng);
    var M := E.rotate(E.damp(E.mean(H, count), E.diagMean(E.mean(H, count))), E.signs(rng, |H|).0);
    L := E.factor(M).0;
    FactoredAt(E, M, sigma, chol, t);
  }

  lemma HeightIs<I(!new)>(p: Problem<real, I>)
    requires Ok(p)
    ensures |p.L| == p.k
  {
  }

  /** What the encoder gives for a slice with a calibrated record, one after the other or in phases: the output is that
      of a slice whose values and indices are unblocked error feedback on the scaled weight with the factor of the
      record's damped Hessian, and the proxy loss against that Hessian is a sum of squares. */
  lemma CalibratedOutput<I(!new), R(!new), O(!new)>(E: Encoder<real, I, R, O>, jobs: seq<Job<real>>, x: nat,
                                                    sigma: real, chol: Mat<real> -> Option<Mat<real>>, t: nat)
      returns (sl: Slice<real, I>, L: Mat<real>, p: Problem<real, I>)
    requires Encodable(E, jobs) && x < |jobs| && Exact(E.K) && BlockLdlFactor(E, sigma, chol)
    requires Calibrates(E, jobs, x, sigma, chol, t)
    ensures OutputAt(E, jobs, x) == E.finish(jobs[x].w[..], sl)
    ensures chol(sl.H).Some? && IsBlockLdl(16, |sl.H|, sl.H, chol(sl.H).value, L)
    ensures p == Problem(E.K, sl.weight, ZeroDiagonal(0.0, L), jobs[x].tn, 128) && Unblocked(p, sl.wq, sl.enc)
    ensures Trace(Err(p, sl.wq, 0, p.k), sl.H, p.n) == Sum(0, p.n, c => Squares(p, chol(sl.H).value, sl.wq, c))
    ensures 0.0 <= Trace(Err(p, sl.wq, 0, p.k), sl.H, p.n)
  {
    hide IsBlockLdl, FactorsAt, ZeroDiagonal, Damped, Result, Ok, Unblocked, Trace, Squares, Sum, PlanAt, Finalized,
      Encodable, BlockLdlFactor;
    sl := PlanAt(E, jobs, x).out;
    SlicesPlanned(E, jobs, x);
    var hd := jobs[x].hd;
    var rng := E.seeded(jobs[FirstUse(jobs, x)].seed);
    FinalizedIs(E, hd.H, hd.count, rng);
    var M := Rotated(E, jobs, x);
    FactoredAt(E, M, sigma, chol, t);
    L := E.factor(M).0;
    p := Problem(E.K, sl.weight, ZeroDiagonal(0.0, L), jobs[x].tn, 128);
    assert Ok(p) && sl.wq == Result(p).wq && sl.enc == Result(p).enc;
    BlockedIsUnblocked(p);
    HeightIs(p);
    CalibratedLoss(p, sl.H, chol(sl.H).value, L);
  }
}

/** Many golden-section searches advanced together, one quantizer call a wave, each as a coroutine of its bracket. */
module GssPool {
  import opened Arithmetic
  import opened Tiles
  import opened Ldlq
  import opened Lockstep
  import opened Sorting
  import opened GoldenSection

  /** Scaling of a tile and the error of a quantized batch, both left opaque. */
  datatype Probe<!S> = Probe(scale: (seq<S>, real) -> seq<S>, error: (Mat<S>, real, Mat<S>) -> real)

  function Scaled<S>(Q: Probe<S>, tiles: Mat<S>, x: real): (r: Mat<S>)
    ensures |r| == |tiles|
  {
    seq(|tiles|, t requires 0 <= t < |tiles| => Q.scale(tiles[t], x))
  }

  /** The error of quantizing the sampled tiles at a scale. */
  function TestScale<S, I>(K: Kernel<S, I>, Q: Probe<S>, tiles: Mat<S>): real -> real {
    x => Q.error(Values(K, Scaled(Q, tiles, x)), x, tiles)
  }

  const WIDTH := 3

  /** The tile at tile row b and tile column t, in tensor-core order. */
  function TileAt<S>(W: Mat<S>, tn: nat, b: int, t: int): (tile: seq<S>)
    requires Shape(W, |W|, 16 * tn) && 0 <= b < |W| / 16 && 0 <= t < tn
    ensures |tile| == 256
  {
    Take(RawTile(W[16 * b..16 * b + 16], tn, t), Perm())
  }

  /** The sampled tile of step i and offset w: tile row i and tile column i + w, both cyclic. */
  function SampleTile<S>(W: Mat<S>, tn: nat, i: nat, w: nat): (tile: seq<S>)
    requires Shape(W, |W|, 16 * tn) && |W| >= 16 && tn > 0
    ensures |tile| == 256
  {
    TileAt(W, tn, i % (|W| / 16), (i + w) % tn)
  }

  /** The whole sample, step by step. */
  function SampleUpTo<S>(W: Mat<S>, tn: nat, i: nat, w: nat): (tiles: Mat<S>)
    requires Shape(W, |W|, 16 * tn) && |W| >= 16 && tn > 0 && w <= WIDTH
    ensures |tiles| == WIDTH * i + w
    decreases i, w
  {
    if w > 0 then SampleUpTo(W, tn, i, w - 1) + [SampleTile(W, tn, i, w - 1)]
    else if i > 0 then SampleUpTo(W, tn, i - 1, WIDTH)
    else []
  }

  function Sample<S>(W: Mat<S>, tn: nat): Mat<S>
    requires Shape(W, |W|, 16 * tn) && |W| >= 16 && tn > 0
  {
    SampleUpTo(W, tn, Max(|W| / 16, tn), 0)
  }

  /** The sampling loops. */
  method SampleTiles<S>(weight: array<seq<S>>, tn: nat) returns (tiles: Mat<S>)
    requires Shape(weight[..], weight.Length, 16 * tn) && weight.Length >= 16 && tn > 0
    ensures tiles == Sample(weight[..], tn)
  {
    hide SampleTile;
    tiles := [];
    var steps := Max(weight.Length / 16, tn);
    for i := 0 to steps
      invariant tiles == SampleUpTo(weight[..], tn, i, 0)
    {
      for w := 0 to WIDTH
        invariant tiles == SampleUpTo(weight[..], tn, i, w)
      {
        tiles := tiles + [SampleTile(weight[..], tn, i, w)];
      }
    }
  }

  lemma {:induction false} SampledAt<S>(W: Mat<S>, tn: nat, steps: nat, i: nat)
    requires Shape(W, |W|, 16 * tn) && |W| >= 16 && tn > 0 && i < steps
    ensures SampleTile(W, tn, i, 0) in SampleUpTo(W, tn, steps, 0)
  {
    hide SampleTile;
    var all := SampleUpTo(W, tn, steps, 0);
    var s3, s2, s1 := SampleUpTo(W, tn, steps - 1, 3), SampleUpTo(W, tn, steps - 1, 2), SampleUpTo(W, tn, steps - 1, 1);
    assert all == s3 && s3 == s2 + [SampleTile(W, tn, steps - 1, 2)] && s2 == s1 + [SampleTile(W, tn, steps - 1, 1)];
    var s0 := SampleUpTo(W, tn, steps - 1, 0);
    assert s1 == s0 + [SampleTile(W, tn, steps - 1, 0)];
    if i < steps - 1 { SampledAt(W, tn, steps - 1, i); }
  }

  /** Every row of tiles and every column of tiles is sampled. */
  lemma SampleCovers<S>(W: Mat<S>, tn: nat, b: nat, t: nat)
    requires Shape(W, |W|, 16 * tn) && |W| >= 16 && tn > 0 && b < |W| / 16 && t < tn
    ensures TileAt(W, tn, b, b % tn) in Sample(W, tn)
    ensures TileAt(W, tn, t % (|W| / 16), t) in Sample(W, tn)
  {
    hide TileAt, SampleUpTo;
    var steps := Max(|W| / 16, tn);
    SampledAt(W, tn, steps, b);
    SampledAt(W, tn, steps, t);
    DivMod(|W| / 16, 0, b);
    DivMod(tn, 0, t);
  }

  lemma {:induction false} SampledEntry<S>(W: Mat<S>, tn: nat, steps: nat, v: nat, i: nat, w: nat)
    requires Shape(W, |W|, 16 * tn) && |W| >= 16 && tn > 0 && v <= WIDTH && w < WIDTH
    requires i < steps || (i == steps && w < v)
    ensures WIDTH * i + w < WIDTH * steps + v
    ensures SampleUpTo(W, tn, steps, v)[WIDTH * i + w] == SampleTile(W, tn, i, w)
    decreases steps, v
  {
    hide SampleTile;
    if v > 0 {
      if i < steps || w < v - 1 { SampledEntry(W, tn, steps, v - 1, i, w); }
    } else {
      SampledEntry(W, tn, steps - 1, WIDTH, i, w);
    }
  }

  /** The sample, tile by tile: for every step three tiles of the tile row of that step, from its tile column on, both
      counted cyclically, as the feedback loop would send them to the quantizer. */
  lemma SampleIs<S>(W: Mat<S>, tn: nat, i: nat, w: nat)
    requires Shape(W, |W|, 16 * tn) && |W| >= 16 && tn > 0 && w < 3 && (i < |W| / 16 || i < tn)
    ensures |Sample(W, tn)| == 3 * if |W| / 16 < tn then tn else |W| / 16
    ensures 3 * i + w < |Sample(W, tn)|
    ensures var b := i % (|W| / 16);
            Shape(W[16 * b..16 * b + 16], 16, 16 * tn)
            && Sample(W, tn)[3 * i + w] == TilesOf(W[16 * b..16 * b + 16], tn)[(i + w) % tn]
  {
    hide SampleUpTo, RawTile, Perm, Take;
    SampledEntry(W, tn, Max(|W| / 16, tn), 0, i, w);
  }

  /** The objective of a search: the error of what the quantizer makes of every sampled tile times the scale. */
  lemma ErrorIs<S, I>(K: Kernel<S, I>, Q: Probe<S>, tiles: Mat<S>, x: real, quantized: Mat<S>)
    requires |quantized| == |tiles| && forall t :: 0 <= t < |tiles| ==> quantized[t] == K.value(Q.scale(tiles[t], x))
    ensures TestScale(K, Q, tiles)(x) == Q.error(quantized, x, tiles)
  {
    assert quantized == Values(K, Scaled(Q, tiles, x));
  }

  // ---------------------------------------------------------------- the coroutine

  /** What a search waits for: its first value, its second, the value of a new lower point, of a new upper point, or
      nothing any more. */
  datatype Waiting = First | Second | Lower | Upper | Nothing

  lemma Advance(phi: real, f: real -> real, s: Bracket)
    requires Golden(phi) && Inv(phi, f, s) && !Closed(s, TOLERANCE)
    ensures var t := Next(phi, f, s);
            && Inv(phi, f, t) && Search(phi, f, s, TOLERANCE) == Search(phi, f, t, TOLERANCE)
            && Candidates(phi, f, s, TOLERANCE) == [Candidate(phi, s)] + Candidates(phi, f, t, TOLERANCE)
            && (s.f1 < s.f2 ==> var x := Low(phi, s.a, s.x2);
                                Candidate(phi, s) == x && t == Bracket(s.a, s.x2, x, s.x1, f(x), s.f1))
            && (s.f1 >= s.f2 ==> var x := High(phi, s.x1, s.b);
                                 Candidate(phi, s) == x && t == Bracket(s.x1, s.b, s.x2, x, s.f2, f(x)))
  {
    hide Golden, Low, High;
    NextDrops(phi, f, s, TOLERANCE);
  }

  lemma AtRest(phi: real, f: real -> real, s: Bracket)
    requires Golden(phi) && Inv(phi, f, s) && Closed(s, TOLERANCE)
    ensures Search(phi, f, s, TOLERANCE) == s && Candidates(phi, f, s, TOLERANCE) == []
  {
  }

  /** The search as a coroutine: it yields a candidate and is sent the candidate's value. */
  class GssSearch<S(!new), I(!new)> {
    const ctx: SliceCtx<S, I>
    const tiles: Mat<S>
    const phi: real
    var state: Waiting
    var candidate: real
    var a: real
    var b: real
    var x1: real
    var x2: real
    var f1: real
    var f2: real
    /** The objective whose values are sent, and the candidates yielded so far. */
    ghost const f: real -> real
    ghost var asked: seq<real>

    /** The bracket with the values its points will have. */
    ghost function Bracketed(): Bracket
      reads this
    {
      Bracket(a, b, x1, x2, f(x1), f(x2))
    }

    /** Finishing from here gives the bracket of the plain loop, and what was and will be asked is what the plain loop
        evaluates, in its order. */
    ghost predicate Valid()
      reads this, ctx
    {
      && Golden(phi) && Inv(phi, f, Bracketed())
      && Search(phi, f, Bracketed(), TOLERANCE) == Final(phi, f, LOW, HIGH, TOLERANCE)
      && asked + (if state == First then [x2] else []) + Candidates(phi, f, Bracketed(), TOLERANCE)
         == Evaluated(phi, f, LOW, HIGH, TOLERANCE)
      && match state
         case First => candidate == x1
         case Second => candidate == x2 && f1 == f(x1)
         case Lower => candidate == x1 && f2 == f(x2)
         case Upper => candidate == x2 && f1 == f(x1)
         case Nothing => Closed(Bracketed(), TOLERANCE) && ctx.gScale == Mid(Final(phi, f, LOW, HIGH, TOLERANCE))
    }

    /** Values still to be sent. */
    ghost function Left(): int
      reads this
    {
      if !Golden(phi) || state == Nothing then 0 else |Evaluated(phi, f, LOW, HIGH, TOLERANCE)| - |asked| + 1
    }

    constructor (ctx: SliceCtx<S, I>, tiles: Mat<S>, phi: real, ghost f: real -> real)
      requires Golden(phi)
      ensures Valid() && state == First
      ensures this.ctx == ctx && this.tiles == tiles && this.phi == phi && this.f == f
    {
      hide Golden, Search, Candidates, Low, High;
      this.ctx, this.tiles, this.phi, this.f := ctx, tiles, phi, f;
      a, b := LOW, HIGH;
      x1, x2 := Low(phi, LOW, HIGH), High(phi, LOW, HIGH);
      f1, f2 := 0.0, 0.0;
      candidate := Low(phi, LOW, HIGH);
      state := First;
      asked := [Low(phi, LOW, HIGH)];
      InitInv(phi, f, LOW, HIGH);
    }

    /** The next value arrives: the bracket advances to the next candidate, or closes and sets the scale. */
    method Send(v: real)
      requires Valid() && state != Nothing && v == f(candidate)
      modifies this, ctx`gScale
      ensures Valid() && Left() == old(Left()) - 1
    {
      hide Golden, Inv, Search, Candidates, Evaluated, Final, Closed, Mid;
      if state == First {
        f1, candidate, state := v, x2, Second;
        asked := asked + [x2];
      } else {
        if state == Lower { f1 := v; } else { f2 := v; }
        Loop();
      }
    }

    /** The loop head, with both values known. */
    method Loop()
      requires Golden(phi) && Inv(phi, f, Bracketed()) && f1 == f(x1) && f2 == f(x2)
      requires Search(phi, f, Bracketed(), TOLERANCE) == Final(phi, f, LOW, HIGH, TOLERANCE)
      requires asked + Candidates(phi, f, Bracketed(), TOLERANCE) == Evaluated(phi, f, LOW, HIGH, TOLERANCE)
      modifies this, ctx`gScale
      ensures Valid()
      ensures if state == Nothing then asked == old(asked) else |asked| == |old(asked)| + 1
      ensures state == Nothing ==> asked == Evaluated(phi, f, LOW, HIGH, TOLERANCE)
    {
      hide Golden, Inv, Evaluated, Final, Low, High, Search, Candidates;
      if Abs(b - a) > TOLERANCE {
        Iterate();
      } else {
        AtRest(phi, f, Bracketed());
        state := Nothing;
        ctx.gScale := (a + b) / 2.0;
      }
    }

    /** The loop body up to its next candidate. */
    method Iterate()
      requires Golden(phi) && Inv(phi, f, Bracketed()) && f1 == f(x1) && f2 == f(x2)
      requires Search(phi, f, Bracketed(), TOLERANCE) == Final(phi, f, LOW, HIGH, TOLERANCE)
      requires asked + Candidates(phi, f, Bracketed(), TOLERANCE) == Evaluated(phi, f, LOW, HIGH, TOLERANCE)
      requires !Closed(Bracketed(), TOLERANCE)
      modifies this
      ensures Valid() && state in {Lower, Upper} && |asked| == |old(asked)| + 1
    {
      hide Golden, Inv, Evaluated, Final, Low, High, Search, Candidates, Closed, Next, Candidate;
      ghost var s := Bracketed();
      Advance(phi, f, s);
      ghost var c, rest := Candidate(phi, s), Candidates(phi, f, Next(phi, f, s), TOLERANCE);
      assert (asked + [c]) + rest == asked + ([c] + rest);
      asked := asked + [c];
      if f1 < f2 { Lowered(); } else { Raised(); }
    }

    /** The upper end moves in; the new lower point waits for its value. */
    method Lowered()
      modifies `b, `x1, `x2, `f2, `candidate, `state
      ensures state == Lower && candidate == x1 == Low(phi, a, b) && b == old(x2) && x2 == old(x1) && f2 == old(f1)
    {
      b, x2, f2 := x2, x1, f1;
      x1 := Low(phi, a, b);
      candidate, state := x1, Lower;
    }

    /** The lower end moves in; the new upper point waits for its value. */
    method Raised()
      modifies `a, `x1, `x2, `f1, `candidate, `state
      ensures state == Upper && candidate == x2 == High(phi, a, b) && a == old(x1) && x1 == old(x2) && f1 == old(f2)
    {
      a, x1, f1 := x1, x2, f2;
      x2 := High(phi, a, b);
      candidate, state := x2, Upper;
    }
  }

  // ---------------------------------------------------------------- pools of searches

  ghost predicate OwnContexts<S(!new), I(!new)>(pool: seq<GssSearch<S, I>>) {
    Distinct(pool) && forall s, t :: s in pool && t in pool && s != t ==> s.ctx != t.ctx
  }

  /** Each search has its own context, and its objective is the error of its own tiles. */
  ghost predicate Searches<S(!new), I(!new)>(K: Kernel<S, I>, Q: Probe<S>, pool: seq<GssSearch<S, I>>) {
    OwnContexts(pool) && forall s :: s in pool ==> s.f == TestScale(K, Q, s.tiles)
  }

  ghost function Contexts<S(!new), I(!new)>(pool: seq<GssSearch<S, I>>): set<SliceCtx<S, I>> {
    set s | s in pool :: s.ctx
  }

  ghost function Objects<S(!new), I(!new)>(pool: seq<GssSearch<S, I>>): set<GssSearch<S, I>> {
    set s | s in pool
  }

  twostate predicate Still<S(!new), I(!new)>(s: GssSearch<S, I>)
    reads s, s.ctx
  {
    && (old(s.Valid()) ==> s.Valid())
    && s.state == old(s.state) && s.candidate == old(s.candidate) && s.Left() == old(s.Left())
  }

  twostate lemma KeptStill<S(!new), I(!new)>(s: GssSearch<S, I>)
    requires unchanged(s) && s.ctx.gScale == old(s.ctx.gScale)
    ensures Still(s)
  {
    hide Golden, Inv, Search, Candidates, Evaluated, Final, Closed;
  }

  /** One search of the pool is sent its value; the others keep still. */
  method SendOne<S(!new), I(!new)>(pool: seq<GssSearch<S, I>>, x: int, v: real)
    requires OwnContexts(pool)
    requires 0 <= x < |pool| && pool[x].Valid() && pool[x].state != Nothing && v == pool[x].f(pool[x].candidate)
    modifies pool[x], pool[x].ctx`gScale
    ensures pool[x].Valid() && pool[x].Left() == old(pool[x].Left()) - 1
    ensures forall y :: 0 <= y < |pool| && y != x ==> Still(pool[y])
  {
    hide GssSearch.Valid, GssSearch.Left;
    pool[x].Send(v);
    forall y | 0 <= y < |pool| && y != x ensures Still(pool[y]) {
      KeptStill(pool[y]);
    }
  }

  /** The searches whose bracket is still open, in order. */
  ghost function Open<S(!new), I(!new)>(pool: seq<GssSearch<S, I>>): seq<GssSearch<S, I>>
    reads pool
  {
    if pool == [] then [] else
      var n := |pool| - 1;
      Open(pool[..n]) + if pool[n].state == Nothing then [] else [pool[n]]
  }

  twostate lemma {:induction false} OpenKept<S(!new), I(!new)>(pool: seq<GssSearch<S, I>>)
    requires forall x :: 0 <= x < |pool| ==> pool[x].state == old(pool[x].state)
    ensures Open(pool) == old(Open(pool))
    decreases |pool|
  {
    if pool != [] { OpenKept(pool[..|pool| - 1]); }
  }

  lemma OpenStep<S(!new), I(!new)>(pool: seq<GssSearch<S, I>>, x: int)
    requires 0 <= x < |pool|
    ensures Open(pool[..x + 1]) == Open(pool[..x]) + if pool[x].state == Nothing then [] else [pool[x]]
  {
    assert pool[..x + 1][..x] == pool[..x];
  }

  lemma OpenNone<S(!new), I(!new)>(pool: seq<GssSearch<S, I>>)
    requires pool == []
    ensures Open(pool) == []
  {
  }

  lemma {:induction false} OpenMembers<S(!new), I(!new)>(pool: seq<GssSearch<S, I>>)
    ensures forall s :: s in Open(pool) <==> s in pool && s.state != Nothing
    ensures Distinct(pool) ==> Distinct(Open(pool))
    decreases |pool|
  {
    if pool != [] {
      var n := |pool| - 1;
      OpenMembers(pool[..n]);
      assert pool == pool[..n] + [pool[n]];
    }
  }

  /** The pooled evaluation: every search's error is computed on its own rows of one batch. */
  method Errors<S(!new), I(!new)>(K: Kernel<S, I>, Q: Probe<S>, active: seq<GssSearch<S, I>>) returns (mses: seq<real>)
    requires Searches(K, Q, active)
    ensures |mses| == |active|
    ensures forall x :: 0 <= x < |active| ==> mses[x] == active[x].f(active[x].candidate)
  {
    hide Cat, Values, Offset;
    var parts :=
      seq(|active|, x requires 0 <= x < |active| reads active => Scaled(Q, active[x].tiles, active[x].candidate));
    var qW := Values(K, Cat(parts));
    mses := [];
    OffsetZero(parts);
    var off := 0;
    for x := 0 to |active|
      invariant off == Offset(parts, x) && |mses| == x
      invariant forall y :: 0 <= y < x ==> mses[y] == active[y].f(active[y].candidate)
    {
      var s, m := active[x], |parts[x]|;
      BatchRows(K, parts, x);
      OffsetStep(parts, x);
      mses := mses + [Q.error(qW[off..off + m], s.candidate, s.tiles)];
      off := off + m;
    }
  }

  /** One wave: one quantizer call, one value to every active search; closed searches drop out. */
  method GssWave<S(!new), I(!new)>(K: Kernel<S, I>, Q: Probe<S>, active: seq<GssSearch<S, I>>)
      returns (next: seq<GssSearch<S, I>>)
    requires Searches(K, Q, active)
    requires forall x :: 0 <= x < |active| ==> active[x].Valid() && active[x].state != Nothing
    modifies Objects(active), Contexts(active)`gScale
    ensures forall x :: 0 <= x < |active| ==> active[x].Valid() && active[x].Left() == old(active[x].Left()) - 1
    ensures next == Open(active)
  {
    hide GssSearch.Valid, GssSearch.Left, Open;
    var mses := Errors(K, Q, active);
    next := [];
    OpenNone(active[..0]);
    for x := 0 to |active|
      invariant forall y :: 0 <= y < x ==> active[y].Valid() && active[y].Left() == old(active[y].Left()) - 1
      invariant forall y :: x <= y < |active| ==>
        active[y].Valid() && active[y].state != Nothing && active[y].Left() == old(active[y].Left())
      invariant forall y :: x <= y < |active| ==> mses[y] == active[y].f(active[y].candidate)
      invariant next == Open(active[..x])
    {
      label C:
      SendOne(active, x, mses[x]);
      OpenKept@C(active[..x]);
      OpenStep(active, x);
      if active[x].state != Nothing {
        next := next + [active[x]];
      }
    }
    assert active[..|active|] == active;
  }

  lemma LeftNonneg<S(!new), I(!new)>(s: GssSearch<S, I>)
    requires s.Valid()
    ensures 0 <= s.Left() && (s.state != Nothing ==> 0 < s.Left())
  {
    hide Golden, Inv, Search, Final, Closed, Evaluated, Candidates;
  }

  ghost function Lefts<S(!new), I(!new)>(pool: seq<GssSearch<S, I>>): (r: seq<int>)
    reads pool
    ensures |r| == |pool|
  {
    seq(|pool|, x requires 0 <= x < |pool| reads pool => pool[x].Left())
  }

  /** The scale the sequential search returns for a slice. */
  ghost function GScale<S, I>(K: Kernel<S, I>, Q: Probe<S>, phi: real, W: Mat<S>, tn: nat): real
    requires Golden(phi) && Shape(W, |W|, 16 * tn) && |W| >= 16 && tn > 0
  {
    Mid(Final(phi, TestScale(K, Q, Sample(W, tn)), LOW, HIGH, TOLERANCE))
  }

  /** The scale of a slice is from 0.1 to 1.9, and where the error has a single valley there, within 0.005 of its
      bottom. */
  lemma ScaleIsNearBest<S, I>(K: Kernel<S, I>, Q: Probe<S>, phi: real, W: Mat<S>, tn: nat, m: real)
    requires Golden(phi) && Shape(W, |W|, 16 * tn) && |W| >= 16 && tn > 0
    ensures 0.1 <= GScale(K, Q, phi, W, tn) <= 1.9
    ensures 0.1 <= m <= 1.9 && Unimodal(TestScale(K, Q, Sample(W, tn)), 0.1, 1.9, m) ==>
      -0.005 <= GScale(K, Q, phi, W, tn) - m <= 0.005
  {
    hide Golden, Final, Sample, TestScale, Unimodal;
    var f := TestScale(K, Q, Sample(W, tn));
    ScaleInBracket(phi, f, LOW, HIGH, TOLERANCE);
    if 0.1 <= m <= 1.9 && Unimodal(f, 0.1, 1.9, m) {
      ScaleIsNearMinimiser(phi, f, LOW, HIGH, TOLERANCE, m);
    }
  }

  /** A weight of whole tiles, not empty. */
  ghost predicate Sampleable<S(!new), I(!new)>(c: SliceCtx<S, I>)
    reads c.weightR
  {
    Shape(c.weightR[..], c.weightR.Length, 16 * c.tn) && c.weightR.Length >= 16 && c.tn > 0
  }

  /** The scale the sequential search returns for a slice's weight. */
  ghost function ScaleOf<S(!new), I(!new)>(K: Kernel<S, I>, Q: Probe<S>, phi: real, c: SliceCtx<S, I>): real
    requires Golden(phi) && Sampleable(c)
    reads c.weightR
  {
    GScale(K, Q, phi, c.weightR[..], c.tn)
  }

  /** The candidates the sequential search of a slice evaluates, in its order. */
  ghost function CandidatesOf<S(!new), I(!new)>(K: Kernel<S, I>, Q: Probe<S>, phi: real, c: SliceCtx<S, I>): seq<real>
    requires Golden(phi) && Sampleable(c)
    reads c.weightR
  {
    Evaluated(phi, TestScale(K, Q, Sample(c.weightR[..], c.tn)), LOW, HIGH, TOLERANCE)
  }

  /** A search with this ratio and objective is the sequential search of the slice. */
  ghost predicate SearchOf<S(!new), I(!new)>(K: Kernel<S, I>, Q: Probe<S>, phi: real, c: SliceCtx<S, I>,
                                             sphi: real, f: real -> real)
    requires Golden(phi) && Sampleable(c)
    reads c.weightR
  {
    && Golden(sphi) && Mid(Final(sphi, f, LOW, HIGH, TOLERANCE)) == ScaleOf(K, Q, phi, c)
    && Evaluated(sphi, f, LOW, HIGH, TOLERANCE) == CandidatesOf(K, Q, phi, c)
  }

  /** The search of one slice, primed to its first candidate. */
  method StartOne<S(!new), I(!new)>(K: Kernel<S, I>, Q: Probe<S>, phi: real, c: SliceCtx<S, I>)
      returns (s: GssSearch<S, I>)
    requires Golden(phi) && Sampleable(c)
    ensures fresh(s) && s.ctx == c && s.Valid() && s.state == First && s.f == TestScale(K, Q, s.tiles)
    ensures SearchOf(K, Q, phi, c, s.phi, s.f)
  {
    hide Sample, GssSearch.Valid, Final, Golden, Evaluated;
    var tiles := SampleTiles(c.weightR, c.tn);
    s := new GssSearch(c, tiles, phi, TestScale(K, Q, tiles));
  }

  /** The sequential search of one slice. */
  method GScaleGss<S(!new), I(!new)>(K: Kernel<S, I>, Q: Probe<S>, phi: real, weight: array<seq<S>>, tn: nat)
      returns (scale: real, error: real)
    requires Golden(phi) && Shape(weight[..], weight.Length, 16 * tn) && weight.Length >= 16 && tn > 0
    ensures scale == GScale(K, Q, phi, weight[..], tn)
    ensures var t := Final(phi, TestScale(K, Q, Sample(weight[..], tn)), LOW, HIGH, TOLERANCE);
            error == (t.f1 + t.f2) / 2.0
  {
    hide Golden, Final;
    var tiles := SampleTiles(weight, tn);
    scale, error := GoldenSearch(phi, TestScale(K, Q, tiles), LOW, HIGH, TOLERANCE);
  }

  lemma ClosedScale<S(!new), I(!new)>(s: GssSearch<S, I>)
    requires s.Valid() && s.state == Nothing
    ensures Golden(s.phi) && s.ctx.gScale == Mid(Final(s.phi, s.f, LOW, HIGH, TOLERANCE))
    ensures s.asked == Evaluated(s.phi, s.f, LOW, HIGH, TOLERANCE)
  {
    hide Golden, Inv, Search, Final, Closed, Evaluated, Candidates;
    AtRest(s.phi, s.f, s.Bracketed());
  }

  /** Some of the searches of a pool, each once. */
  ghost predicate Part<T>(some: seq<T>, all: seq<T>) {
    Distinct(some) && forall s :: s in some ==> s in all
  }

  lemma LeftsDrop<S(!new), I(!new)>(pool: seq<GssSearch<S, I>>, before: seq<int>)
    requires |before| == |pool|
    requires forall x :: 0 <= x < |pool| ==> pool[x].Valid() && pool[x].Left() <= before[x]
    requires exists x :: 0 <= x < |pool| && pool[x].Left() < before[x]
    ensures 0 <= Total(Lefts(pool)) < Total(before)
  {
    hide GssSearch.Valid, GssSearch.Left;
    forall x | 0 <= x < |pool| ensures 0 <= pool[x].Left() { LeftNonneg(pool[x]); }
    TotalDrops(before, Lefts(pool));
  }

  /** A wave over the searches still open: all stay valid, closed ones keep their scale, the values still to be sent
      over the whole pool go down. */
  method WaveAmong<S(!new), I(!new)>(K: Kernel<S, I>, Q: Probe<S>, ghost pool: seq<GssSearch<S, I>>,
                                     active: seq<GssSearch<S, I>>)
      returns (next: seq<GssSearch<S, I>>)
    requires Searches(K, Q, pool) && Part(active, pool) && active != []
    requires forall s :: s in pool ==> s.Valid() && (s in active <==> s.state != Nothing)
    modifies Objects(active), Contexts(active)`gScale
    ensures forall s :: s in pool ==> s.Valid()
    ensures forall s :: s in pool && s !in active ==> s.state == Nothing
    ensures 0 <= Total(Lefts(pool))
    ensures Total(Lefts(pool)) < old(Total(Lefts(pool)))
    ensures next == Open(active)
  {
    hide GssSearch.Valid, GssSearch.Left, Open, Total;
    ghost var before := Lefts(pool);
    assert Searches(K, Q, active);
    next := GssWave(K, Q, active);
    forall s | s in pool && s !in active ensures Still(s) {
      KeptStill(s);
    }
    assert active[0] in active && active[0] in pool;
    LeftsDrop(pool, before);
  }

  /** The searches of the slices; the slices are not touched. */
  method StartAll<S(!new), I(!new)>(K: Kernel<S, I>, Q: Probe<S>, phi: real, ctxs: seq<SliceCtx<S, I>>)
      returns (pool: seq<GssSearch<S, I>>)
    requires Golden(phi) && Distinct(ctxs)
    requires forall c :: c in ctxs ==> Sampleable(c)
    ensures |pool| == |ctxs| && fresh(pool) && Searches(K, Q, pool)
    ensures forall c :: c in ctxs ==> Sampleable(c)
    ensures forall x :: 0 <= x < |pool| ==> pool[x].ctx == ctxs[x] && pool[x].Valid() && pool[x].state == First
    ensures forall x :: 0 <= x < |pool| ==> SearchOf(K, Q, phi, ctxs[x], pool[x].phi, pool[x].f)
  {
    hide GssSearch.Valid, GssSearch.Left, Final, Golden, GScale, Shape, SearchOf;
    pool := [];
    for x := 0 to |ctxs|
      invariant |pool| == x && fresh(pool) && Searches(K, Q, pool)
      invariant forall c :: c in ctxs ==> Sampleable(c)
      invariant forall y :: 0 <= y < x ==> pool[y].ctx == ctxs[y] && pool[y].Valid() && pool[y].state == First
      invariant forall y :: 0 <= y < x ==> SearchOf(K, Q, phi, ctxs[y], pool[y].phi, pool[y].f)
    {
      var s := StartOne(K, Q, phi, ctxs[x]);
      pool := pool + [s];
    }
  }

  /** The pooled search: wave after wave until every bracket is closed, every slice gets the scale that its own
      sequential search returns, and its search has asked for the same candidates in the same order. */
  method GScaleGssLockstep<S(!new), I(!new)>(K: Kernel<S, I>, Q: Probe<S>, phi: real, ctxs: seq<SliceCtx<S, I>>)
      returns (ghost pool: seq<GssSearch<S, I>>)
    requires Golden(phi) && Distinct(ctxs)
    requires forall c :: c in ctxs ==> Sampleable(c)
    modifies (set c | c in ctxs)`gScale
    ensures forall c :: c in ctxs ==> Sampleable(c) && c.gScale == ScaleOf(K, Q, phi, c)
    ensures |pool| == |ctxs| && fresh(pool)
    ensures forall x :: 0 <= x < |ctxs| ==>
      pool[x].ctx == ctxs[x] && pool[x].asked == CandidatesOf(K, Q, phi, ctxs[x])
  {
    hide GssSearch.Valid, GssSearch.Left, Open, Total, Final, Golden, GScale, Shape, Evaluated;
    var searches := StartAll(K, Q, phi, ctxs);
    pool := searches;
    var active: seq<GssSearch<S, I>> := searches;
    assert forall s :: s in pool ==> s.ctx in ctxs && fresh(s);
    while active != []
      invariant forall s :: s in pool ==> s.Valid() && (s in active <==> s.state != Nothing)
      invariant Part(active, pool)
      decreases Total(Lefts(pool))
    {
      assert fresh(Objects(active));
      assert Contexts(active) <= set c | c in ctxs;
      var next := WaveAmong(K, Q, pool, active);
      OpenMembers(active);
      active := next;
    }
    forall x | 0 <= x < |ctxs|
      ensures Sampleable(ctxs[x]) && ctxs[x].gScale == ScaleOf(K, Q, phi, ctxs[x])
      ensures pool[x].asked == CandidatesOf(K, Q, phi, ctxs[x])
    {
      assert pool[x] in pool;
      ClosedScale(pool[x]);
    }
  }
}

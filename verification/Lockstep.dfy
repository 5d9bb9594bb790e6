/** LDLQ as a stepped state machine, and many such machines advanced together with one quantizer call a step. */
module Lockstep {
  import opened Tiles
  import opened Ldlq
  import opened Sorting

  /** What one slice carries from its prologue to its epilogue. */
  class SliceCtx<S(!new), I(!new)> {
    const K: Kernel<S, I>
    const tn: nat
    const buf: nat
    const weightR: array<seq<S>>
    const L: array?<seq<S>>
    const su: array<S>
    const sv: seq<S>
    var gScale: real
    var wqReg: array?<seq<S>>
    var encoded: array?<seq<seq<I>>>

    constructor (K: Kernel<S, I>, tn: nat, buf: nat, weightR: array<seq<S>>, L: array?<seq<S>>,
                 su: array<S>, sv: seq<S>)
      ensures this.K == K && this.tn == tn && this.buf == buf && this.weightR == weightR && this.L == L
      ensures this.su == su && this.sv == sv && wqReg == null && encoded == null
    {
      this.K, this.tn, this.buf, this.weightR, this.L, this.su, this.sv := K, tn, buf, weightR, L, su, sv;
      gScale, wqReg, encoded := 0.0, null, null;
    }
  }

  lemma PreparedParts<S(!new), I(!new)>(p: Problem<S, I>, j: int, bj: int, s: State<S, I>)
    requires Ok(p) && Fits(p, s) && At(p, j, bj) && j > 0
    ensures Prepared(p, j, bj, s).wq == s.wq && Prepared(p, j, bj, s).enc == s.enc
  {
    hide Splice, Comp;
  }

  /** One slice's LDLQ, a 16-row block at a time. */
  class LDLQWalk<S(!new), I(!new)> {
    const ctx: SliceCtx<S, I>
    const K: Kernel<S, I>
    const weight: array<seq<S>>
    const L: array<seq<S>>
    const prodCache: array<seq<S>>
    const weightQ: array<seq<S>>
    const encoded: array<seq<seq<I>>>
    const tn: nat
    const buf: nat
    var j: int
    var bj: int
    var done: bool
    /** The slice this walk quantizes and its scale, and between prepare and commit the state before prepare. */
    ghost const p: Problem<S, I>
    ghost const scale: real
    ghost var waiting: bool
    ghost var before: State<S, I>

    /** Everything the walk writes. */
    ghost function Repr(): set<object> {
      {this, ctx, prodCache, weightQ, encoded}
    }

    ghost function View(): State<S, I>
      reads prodCache, weightQ, encoded
    {
      State(weightQ[..], encoded[..], prodCache[..])
    }

    /** Rows still to quantize. */
    ghost function Remaining(): int
      reads this
    {
      j - buf + bj
    }

    /** Wherever it stands, finishing the run from here gives the result of sequential LDLQ. */
    ghost predicate Valid()
      reads Repr(), weight, L
    {
      && p == Problem(K, weight[..], L[..], tn, buf) && Ok(p) && ctx.gScale == scale
      && Separate(weight, L, prodCache, weightQ, encoded) && ctx as object !in {prodCache as object, weightQ, encoded}
      && At(p, j, bj) && (done <==> j == 0) && (j == 0 ==> bj == buf)
      && (waiting ==> j > 0 && Fits(p, before) && Run(p, j, bj, before) == Result(p)
                      && View() == Prepared(p, j, bj, before))
      && (!waiting ==> Fits(p, View()) && Run(p, j, bj, View()) == Result(p))
      && (done ==> ctx.wqReg == weightQ && ctx.encoded == encoded)
    }

    /** The context holds exactly what sequential LDLQ gives on this walk's weight and feedback matrix, both as they
        were when the walk was made. */
    ghost predicate Finished()
      reads Repr(), weight, L
    {
      && p == Problem(K, weight[..], L[..], tn, buf) && Ok(p) && ctx.gScale == scale
      && ctx.wqReg == weightQ && weightQ[..] == Result(p).wq
      && ctx.encoded == encoded && encoded[..] == Result(p).enc
    }

    /** The tiles the walk waits for. */
    ghost function Current(): Mat<S>
      requires Valid() && waiting
      reads Repr(), weight, L
    {
      Batch(p, j, bj, before)
    }

    constructor (ctx: SliceCtx<S, I>)
      requires ctx.L != null && ctx.weightR.Length > 0
      requires Ok(Problem(ctx.K, ctx.weightR[..], ctx.L[..], ctx.tn, ctx.buf))
      ensures Valid() && !waiting && !done
      ensures this.ctx == ctx && K == ctx.K && weight == ctx.weightR && L == ctx.L && tn == ctx.tn && buf == ctx.buf
      ensures fresh(Repr() - {ctx}) && scale == ctx.gScale
    {
      hide Zeros, Fits, Ok, Run, Start;
      var size := ctx.weightR.Length;
      var zeroRow := Zeros(ctx.K.zero, 1, 16 * ctx.tn)[0];
      this.ctx, K, weight, L, tn, buf := ctx, ctx.K, ctx.weightR, ctx.L, ctx.tn, ctx.buf;
      prodCache := new seq<S>[size](_ => zeroRow);
      weightQ := new seq<S>[size](_ => zeroRow);
      encoded := new seq<seq<I>>[size / 16](_ => Zeros(ctx.K.zeroIndex, ctx.tn, 256));
      j := size;
      bj := ctx.buf;
      done := false;
      p := Problem(ctx.K, ctx.weightR[..], ctx.L[..], ctx.tn, ctx.buf);
      scale := ctx.gScale;
      waiting := false;
      new;
      OkParts(p);
      before := View();
      StartRows(p, before);
    }

    /** The head of a step: the tiles of the current block. */
    method Prepare() returns (tiles: Mat<S>)
      requires Valid() && !waiting && !done
      modifies `waiting, `before, prodCache
      ensures Valid() && waiting && Remaining() == old(Remaining())
      ensures tiles == Current()
    {
      hide Batch, Prepared, Run, Fits, Ok, Result;
      before := View();
      waiting := true;
      tiles := Compensate(K, weight, L, tn, buf, prodCache, weightQ, j, bj, p, before);
      PreparedParts(p, j, bj, before);
    }

    /** The tail of a step: the quantized block is stored and the position advances. */
    method Commit(quantW: Mat<S>, quantI: seq<seq<I>>)
      requires Valid() && waiting
      requires quantW == Values(K, Current()) && quantI == Indices(K, Current())
      modifies this, ctx, prodCache, weightQ, encoded
      ensures Valid() && !waiting && Remaining() == old(Remaining()) - 16
    {
      hide Batch, Prepared, Stored, Step, EndSpan, Splice, Fits, Ok, Result, Values, Indices, Shape, Run;
      PreparedParts(p, j, bj, before);
      OkParts(p);
      ValuesShape(p, Batch(p, j, bj, before));
      FitsLengths(p, before);
      StoreBlock(tn, weightQ, encoded, j - buf + bj - 16, quantW, quantI);
      ghost var t := View();
      StepIs(p, j, bj, before, t, Batch(p, j, bj, before));
      RunOn(p, j, bj, before, t);
      waiting := false;
      bj := bj - 16;
      if bj == 0 {
        NextSpan();
      }
    }

    /** The end of a span: its error is fed forward and the walk moves to the span above, or is done. */
    method NextSpan()
      requires p == Problem(K, weight[..], L[..], tn, buf) && Ok(p) && Fits(p, View()) && ctx.gScale == scale
      requires Separate(weight, L, prodCache, weightQ, encoded)
        && ctx as object !in {prodCache as object, weightQ, encoded}
      requires Spans(j, buf) && 0 < j <= p.k && bj == 0 && !waiting && !done
      requires Run(p, j - buf, buf, EndSpan(p, j, View())) == Result(p)
      modifies this, ctx, prodCache
      ensures Valid() && !waiting && Remaining() == old(Remaining())
    {
      hide EndSpan, Fits, Ok, Result, Run, Shape;
      OkParts(p);
      FeedForward(K, weight, L, buf, prodCache, weightQ, j, p, View());
      j := j - buf;
      bj := buf;
      if j == 0 {
        done := true;
        ctx.wqReg := weightQ;
        ctx.encoded := encoded;
      }
    }
  }

  // ---------------------------------------------------------------- pools of walks

  /** No walk writes what another walk reads or writes; weights and feedback matrices may be shared. */
  ghost predicate Pool<S(!new), I(!new)>(walks: seq<LDLQWalk<S, I>>) {
    && Distinct(walks)
    && forall v, w :: v in walks && w in walks ==>
         v.weight !in w.Repr() && v.L !in w.Repr() && (v != w ==> v.Repr() !! w.Repr())
  }

  ghost function Footprint<S(!new), I(!new)>(walks: seq<LDLQWalk<S, I>>): set<object> {
    set w, o | w in walks && o in w.Repr() :: o
  }

  /** torch.cat along the rows. */
  function Cat<T>(parts: seq<seq<T>>): (r: seq<T>)
  {
    if parts == [] then [] else Cat(parts[..|parts| - 1]) + parts[|parts| - 1]
  }

  function Offset<T>(parts: seq<seq<T>>, x: int): (off: int)
    requires 0 <= x <= |parts|
  {
    |Cat(parts[..x])|
  }

  lemma OffsetZero<T>(parts: seq<seq<T>>)
    ensures Offset(parts, 0) == 0 && Offset(parts, |parts|) == |Cat(parts)|
  {
    assert parts[..|parts|] == parts;
  }

  lemma OffsetStep<T>(parts: seq<seq<T>>, x: int)
    requires 0 <= x < |parts|
    ensures Offset(parts, x + 1) == Offset(parts, x) + |parts[x]|
  {
    assert parts[..x + 1][..x] == parts[..x];
  }

  /** Rows [off, off + m) of a concatenation are the part that was put there. */
  lemma {:induction false} CatSlice<T>(parts: seq<seq<T>>, x: int)
    requires 0 <= x < |parts|
    ensures 0 <= Offset(parts, x) <= Offset(parts, x) + |parts[x]| <= |Cat(parts)|
    ensures Cat(parts)[Offset(parts, x)..Offset(parts, x) + |parts[x]|] == parts[x]
    decreases |parts|
  {
    var n := |parts| - 1;
    var front := parts[..n];
    if x < n {
      CatSlice(front, x);
      assert front[..x] == parts[..x];
      var o := Offset(parts, x);
      assert Cat(parts)[o..o + |parts[x]|] == Cat(front)[o..o + |parts[x]|];
    }
  }

  ghost function Remainings<S(!new), I(!new)>(walks: seq<LDLQWalk<S, I>>): (r: seq<int>)
    reads walks
    ensures |r| == |walks|
  {
    seq(|walks|, x requires 0 <= x < |walks| reads walks => walks[x].Remaining())
  }

  ghost function Total(r: seq<int>): int {
    if r == [] then 0 else r[0] + Total(r[1..])
  }

  lemma {:induction false} TotalDrops(a: seq<int>, b: seq<int>)
    requires |a| == |b| && forall x :: 0 <= x < |a| ==> 0 <= b[x] <= a[x]
    ensures 0 <= Total(b) <= Total(a)
    ensures (exists x :: 0 <= x < |a| && b[x] < a[x]) ==> Total(b) < Total(a)
    decreases |a|
  {
    if a != [] {
      TotalDrops(a[1..], b[1..]);
      if b[0] == a[0] && exists x :: 0 <= x < |a| && b[x] < a[x] {
        var x :| 0 <= x < |a| && b[x] < a[x];
        assert b[1..][x - 1] < a[1..][x - 1];
      }
    }
  }

  /** What a step of another walk leaves of w. */
  twostate predicate Same<S(!new), I(!new)>(w: LDLQWalk<S, I>)
    reads w.Repr(), w.weight, w.L
  {
    && (old(w.Valid()) ==> w.Valid())
    && w.waiting == old(w.waiting) && w.done == old(w.done) && w.Remaining() == old(w.Remaining())
    && (old(w.Valid() && w.waiting) ==> w.Current() == old(w.Current()))
  }

  twostate lemma Kept<S(!new), I(!new)>(w: LDLQWalk<S, I>)
    requires unchanged(w.Repr(), w.weight, w.L)
    ensures Same(w)
  {
    hide Ok, Fits, Run, At, Result, Prepared, Separate, Batch;
  }

  method PrepareOne<S(!new), I(!new)>(active: seq<LDLQWalk<S, I>>, a: int) returns (tiles: Mat<S>)
    requires Pool(active) && 0 <= a < |active|
    requires active[a].Valid() && !active[a].waiting && !active[a].done
    modifies active[a].Repr()
    ensures active[a].Valid() && active[a].waiting && tiles == active[a].Current()
    ensures active[a].Remaining() == old(active[a].Remaining())
    ensures forall x :: 0 <= x < |active| && x != a ==> Same(active[x])
  {
    hide LDLQWalk.Valid, LDLQWalk.Current, LDLQWalk.Remaining;
    tiles := active[a].Prepare();
    forall x | 0 <= x < |active| && x != a ensures Same(active[x]) {
      assert active[x].Repr() !! active[a].Repr();
      Kept(active[x]);
    }
  }

  method CommitOne<S(!new), I(!new)>(K: Kernel<S, I>, active: seq<LDLQWalk<S, I>>, a: int,
                                     quantW: Mat<S>, quantI: seq<seq<I>>)
    requires Pool(active) && 0 <= a < |active|
    requires active[a].Valid() && active[a].waiting && active[a].K == K
    requires quantW == Values(K, active[a].Current()) && quantI == Indices(K, active[a].Current())
    modifies active[a].Repr()
    ensures active[a].Valid() && !active[a].waiting
    ensures active[a].Remaining() == old(active[a].Remaining()) - 16
    ensures forall x :: 0 <= x < |active| && x != a ==> Same(active[x])
  {
    hide LDLQWalk.Valid, LDLQWalk.Current, LDLQWalk.Remaining, Values, Indices;
    active[a].Commit(quantW, quantI);
    forall x | 0 <= x < |active| && x != a ensures Same(active[x]) {
      assert active[x].Repr() !! active[a].Repr();
      Kept(active[x]);
    }
  }

  /** One wave of prepares: every active walk contributes its tiles. */
  method PrepareAll<S(!new), I(!new)>(active: seq<LDLQWalk<S, I>>) returns (parts: seq<Mat<S>>)
    requires Pool(active)
    requires forall x :: 0 <= x < |active| ==> active[x].Valid() && !active[x].waiting && !active[x].done
    modifies Footprint(active)
    ensures |parts| == |active|
    ensures forall x :: 0 <= x < |active| ==> active[x].Valid() && active[x].waiting && parts[x] == active[x].Current()
    ensures forall x :: 0 <= x < |active| ==> active[x].Remaining() == old(active[x].Remaining())
  {
    hide LDLQWalk.Valid, LDLQWalk.Current, LDLQWalk.Remaining;
    parts := [];
    for a := 0 to |active|
      invariant |parts| == a
      invariant forall x :: 0 <= x < a ==> active[x].Valid() && active[x].waiting && parts[x] == active[x].Current()
      invariant forall x :: a <= x < |active| ==> active[x].Valid() && !active[x].waiting && !active[x].done
      invariant forall x :: 0 <= x < |active| ==> active[x].Remaining() == old(active[x].Remaining())
    {
      var tiles := PrepareOne(active, a);
      parts := parts + [tiles];
    }
  }

  /** The walks that are not done, in order. */
  ghost function Undone<S(!new), I(!new)>(walks: seq<LDLQWalk<S, I>>): seq<LDLQWalk<S, I>>
    reads walks
  {
    if walks == [] then [] else
      var n := |walks| - 1;
      Undone(walks[..n]) + if walks[n].done then [] else [walks[n]]
  }

  twostate lemma {:induction false} UndoneKept<S(!new), I(!new)>(walks: seq<LDLQWalk<S, I>>)
    requires forall x :: 0 <= x < |walks| ==> walks[x].done == old(walks[x].done)
    ensures Undone(walks) == old(Undone(walks))
    decreases |walks|
  {
    if walks != [] { UndoneKept(walks[..|walks| - 1]); }
  }

  lemma UndoneNone<S(!new), I(!new)>(walks: seq<LDLQWalk<S, I>>)
    requires walks == []
    ensures Undone(walks) == []
  {
  }

  lemma UndoneStep<S(!new), I(!new)>(walks: seq<LDLQWalk<S, I>>, a: int)
    requires 0 <= a < |walks|
    ensures Undone(walks[..a + 1]) == Undone(walks[..a]) + if walks[a].done then [] else [walks[a]]
  {
    assert walks[..a + 1][..a] == walks[..a];
  }

  /** Quantizing a concatenation and slicing is quantizing the part: the batch a tile is in does not matter. */
  lemma BatchRows<S, I>(K: Kernel<S, I>, parts: seq<Mat<S>>, x: int)
    requires 0 <= x < |parts|
    ensures var o, m := Offset(parts, x), |parts[x]|;
            0 <= o <= o + m <= |Cat(parts)|
            && Values(K, Cat(parts))[o..o + m] == Values(K, parts[x])
            && Indices(K, Cat(parts))[o..o + m] == Indices(K, parts[x])
  {
    CatSlice(parts, x);
  }

  /** One wave of commits: every active walk takes its own rows of the batch; walks that are done drop out. */
  method CommitAll<S(!new), I(!new)>(K: Kernel<S, I>, active: seq<LDLQWalk<S, I>>, parts: seq<Mat<S>>,
                                     qW: Mat<S>, qI: seq<seq<I>>)
      returns (next: seq<LDLQWalk<S, I>>)
    requires Pool(active) && |parts| == |active|
    requires forall x :: 0 <= x < |active| ==> active[x].Valid() && active[x].waiting && active[x].K == K
    requires forall x :: 0 <= x < |active| ==> parts[x] == active[x].Current()
    requires qW == Values(K, Cat(parts)) && qI == Indices(K, Cat(parts))
    modifies Footprint(active)
    ensures forall x :: 0 <= x < |active| ==> active[x].Valid() && !active[x].waiting
    ensures forall x :: 0 <= x < |active| ==> active[x].Remaining() == old(active[x].Remaining()) - 16
    ensures next == Undone(active)
  {
    hide LDLQWalk.Valid, LDLQWalk.Current, LDLQWalk.Remaining, Values, Indices, Cat, Offset, Undone;
    next := [];
    UndoneNone(active[..0]);
    OffsetZero(parts);
    var off := 0;
    for a := 0 to |active|
      invariant off == Offset(parts, a)
      invariant forall x :: 0 <= x < a ==>
        active[x].Valid() && !active[x].waiting && active[x].Remaining() == old(active[x].Remaining()) - 16
      invariant forall x :: a <= x < |active| ==>
        active[x].Valid() && active[x].waiting && active[x].Remaining() == old(active[x].Remaining())
        && parts[x] == active[x].Current()
      invariant next == Undone(active[..a])
    {
      var m := |parts[a]|;
      BatchRows(K, parts, a);
      OffsetStep(parts, a);
      label C:
      CommitOne(K, active, a, qW[off..off + m], qI[off..off + m]);
      UndoneKept@C(active[..a]);
      UndoneStep(active, a);
      off := off + m;
      if !active[a].done {
        next := next + [active[a]];
      }
    }
    assert active[..|active|] == active;
  }

  /** Some of the walks of a pool, each once. */
  ghost predicate Among<S(!new), I(!new)>(some: seq<LDLQWalk<S, I>>, walks: seq<LDLQWalk<S, I>>) {
    Distinct(some) && forall w :: w in some ==> w in walks
  }

  lemma {:induction false} UndoneMembers<S(!new), I(!new)>(walks: seq<LDLQWalk<S, I>>)
    ensures forall w :: w in Undone(walks) <==> w in walks && !w.done
    ensures Distinct(walks) ==> Distinct(Undone(walks))
    decreases |walks|
  {
    if walks != [] {
      var n := |walks| - 1;
      UndoneMembers(walks[..n]);
      assert walks == walks[..n] + [walks[n]];
    }
  }

  lemma AmongPool<S(!new), I(!new)>(some: seq<LDLQWalk<S, I>>, walks: seq<LDLQWalk<S, I>>)
    requires Pool(walks) && Among(some, walks)
    ensures Pool(some) && Footprint(some) <= Footprint(walks)
    ensures forall w :: w in walks && w !in some ==> ({w.weight, w.L} + w.Repr()) !! Footprint(some)
  {
  }

  lemma RowsLeft<S(!new), I(!new)>(w: LDLQWalk<S, I>)
    requires w.Valid()
    ensures 0 <= w.Remaining()
  {
    hide Ok, Fits, Run, Result, Prepared;
  }

  lemma Progress<S(!new), I(!new)>(walks: seq<LDLQWalk<S, I>>, r: seq<int>)
    requires |r| == |walks|
    requires forall x :: 0 <= x < |walks| ==> walks[x].Valid() && walks[x].Remaining() <= r[x]
    requires exists x :: 0 <= x < |walks| && walks[x].Remaining() < r[x]
    ensures 0 <= Total(Remainings(walks)) < Total(r)
  {
    hide LDLQWalk.Remaining, LDLQWalk.Valid;
    forall x | 0 <= x < |walks| ensures 0 <= walks[x].Remaining() { RowsLeft(walks[x]); }
    TotalDrops(r, Remainings(walks));
  }

  /** One wave: prepare, one quantizer call, commit. */
  method Pulse<S(!new), I(!new)>(K: Kernel<S, I>, active: seq<LDLQWalk<S, I>>) returns (next: seq<LDLQWalk<S, I>>)
    requires Pool(active)
    requires forall x :: 0 <= x < |active| ==>
      active[x].Valid() && !active[x].waiting && !active[x].done && active[x].K == K
    modifies Footprint(active)
    ensures forall x :: 0 <= x < |active| ==>
      active[x].Valid() && !active[x].waiting && active[x].Remaining() == old(active[x].Remaining()) - 16
    ensures next == Undone(active)
  {
    hide LDLQWalk.Valid, LDLQWalk.Current, LDLQWalk.Remaining, Values, Indices, Cat, Undone, Pool;
    var parts := PrepareAll(active);
    var tiles := Cat(parts);
    next := CommitAll(K, active, parts, Values(K, tiles), Indices(K, tiles));
  }

  /** A pulse of some walks of a pool: the other walks keep still. */
  method PulseAmong<S(!new), I(!new)>(K: Kernel<S, I>, ghost walks: seq<LDLQWalk<S, I>>, active: seq<LDLQWalk<S, I>>)
      returns (next: seq<LDLQWalk<S, I>>)
    requires Pool(walks) && Among(active, walks)
    requires forall w :: w in walks ==> w.K == K
    requires forall w :: w in walks ==> w.Valid() && !w.waiting
    requires forall w :: w in active ==> !w.done
    modifies Footprint(active)
    ensures forall w :: w in walks && w !in active ==> Same(w)
    ensures forall w :: w in active ==> w.Valid() && !w.waiting && w.Remaining() == old(w.Remaining()) - 16
    ensures next == Undone(active)
  {
    hide LDLQWalk.Valid, LDLQWalk.Remaining, Undone;
    AmongPool(active, walks);
    next := Pulse(K, active);
    forall w | w in walks && w !in active ensures Same(w) {
      Kept(w);
    }
  }

  /** A wave: every walk stays valid and the rows left over the whole pool go down. */
  method Wave<S(!new), I(!new)>(K: Kernel<S, I>, ghost walks: seq<LDLQWalk<S, I>>, active: seq<LDLQWalk<S, I>>)
      returns (next: seq<LDLQWalk<S, I>>)
    requires Pool(walks) && Among(active, walks) && active != []
    requires forall w :: w in walks ==> w.K == K
    requires forall w :: w in walks ==> w.Valid() && !w.waiting
    requires forall w :: w in active ==> !w.done
    modifies Footprint(active)
    ensures forall w :: w in walks ==> w.Valid() && !w.waiting
    ensures forall w :: w in walks && w !in active ==> w.done == old(w.done)
    ensures 0 <= Total(Remainings(walks))
    ensures Total(Remainings(walks)) < old(Total(Remainings(walks)))
    ensures next == Undone(active)
  {
    hide LDLQWalk.Valid, LDLQWalk.Remaining, LDLQWalk.Current, Undone, Total, Footprint, Pool;
    ghost var r := Remainings(walks);
    next := PulseAmong(K, walks, active);
    assert active[0] in active && active[0] in walks;
    Progress(walks, r);
  }

  /** Pending walks enter while the pool has room. */
  method Refill<T>(pending: seq<T>, active: seq<T>, nMax: nat) returns (rest: seq<T>, filled: seq<T>)
    requires nMax >= 1 && active + pending != []
    ensures filled + rest == active + pending && filled != []
    ensures |filled| <= nMax || filled == active
  {
    rest, filled := pending, active;
    while rest != [] && |filled| < nMax
      invariant filled + rest == active + pending
      invariant |filled| <= nMax || filled == active
      decreases |rest|
    {
      filled, rest := filled + [rest[0]], rest[1..];
    }
  }

  lemma DoneIsFinished<S(!new), I(!new)>(w: LDLQWalk<S, I>)
    requires w.Valid() && w.done && !w.waiting
    ensures w.Finished()
  {
    hide Ok, Fits, Result, Prepared;
  }

  lemma WholePool<S(!new), I(!new)>(walks: seq<LDLQWalk<S, I>>)
    requires Pool(walks)
    ensures Among([] + walks, walks)
  {
  }

  lemma AmongParts<S(!new), I(!new)>(a: seq<LDLQWalk<S, I>>, b: seq<LDLQWalk<S, I>>, walks: seq<LDLQWalk<S, I>>)
    requires Among(a + b, walks)
    ensures Among(a, walks) && forall w :: w in b ==> w in walks && w !in a
  {
    forall x | 0 <= x < |a| ensures a[x] == (a + b)[x] {}
    forall y | 0 <= y < |b| ensures b[y] == (a + b)[|a| + y] {}
  }

  lemma AmongJoin<S(!new), I(!new)>(next: seq<LDLQWalk<S, I>>, a: seq<LDLQWalk<S, I>>, b: seq<LDLQWalk<S, I>>,
                                    walks: seq<LDLQWalk<S, I>>)
    requires Among(a + b, walks) && Distinct(next) && forall w :: w in next ==> w in a
    ensures Among(next + b, walks)
  {
    AmongParts(a, b, walks);
    var c, n := next + b, |next|;
    forall x, y | 0 <= x < y < |c| ensures c[x] != c[y] {
      if x < n <= y {
        assert c[x] in a && c[y] in b;
      } else if n <= x {
        assert c[x] == (a + b)[|a| + x - n] && c[y] == (a + b)[|a| + y - n];
      }
    }
  }

  /** Lockstep LDLQ: up to nMax walks advance a block at a time with one quantizer call for all their tiles. */
  method LockstepLdlq<S(!new), I(!new)>(K: Kernel<S, I>, walks: seq<LDLQWalk<S, I>>, nMax: nat)
    requires nMax >= 1 && Pool(walks)
    requires forall w :: w in walks ==> w.K == K
    requires forall w :: w in walks ==> w.Valid() && !w.waiting && !w.done
    modifies Footprint(walks)
    ensures forall w :: w in walks ==> w.Valid() && w.Finished()
  {
    hide LDLQWalk.Valid, Undone, Pool, Footprint, Remainings, Total;
    var pending: seq<LDLQWalk<S, I>>, active: seq<LDLQWalk<S, I>> := walks, [];
    WholePool(walks);
    while pending != [] || active != []
      invariant forall w :: w in walks ==> w.Valid() && !w.waiting
      invariant forall w :: w in walks ==> w.done || w in active + pending
      invariant forall w :: w in active + pending ==> !w.done
      invariant Among(active + pending, walks)
      decreases Total(Remainings(walks))
    {
      label R:
      pending, active := Refill(pending, active, nMax);
      forall w | w in walks ensures Same@R(w) { Kept@R(w); }
      AmongParts(active, pending, walks);
      AmongPool(active, walks);
      var next := Wave(K, walks, active);
      UndoneMembers(active);
      AmongJoin(next, active, pending, walks);
      active := next;
    }
    forall w | w in walks ensures w.Finished() {
      DoneIsFinished(w);
    }
  }
}

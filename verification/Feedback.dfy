/** LDLQ in exact arithmetic: the blocked loop with its running cache is the unblocked error feedback. */
module Feedback {
  import opened Sums
  import opened Tiles
  import opened Ldlq

  /** Entry (i, j), zero outside the matrix. */
  function Entry(m: Mat<real>, i: int, j: int): real {
    if 0 <= i < |m| && 0 <= j < |m[i]| then m[i][j] else 0.0
  }

  /** The products of column a of A and column c of B. */
  function Products(A: Mat<real>, B: Mat<real>, a: int, c: int): int -> real { r => Entry(A, r, a) * Entry(B, r, c) }

  /** C + A^T B. */
  function AddProduct(C: Mat<real>, A: Mat<real>, B: Mat<real>): (r: Mat<real>)
    ensures |r| == |C| && forall a :: 0 <= a < |C| ==> |r[a]| == |C[a]|
  {
    seq(|C|, a requires 0 <= a < |C| =>
      seq(|C[a]|, c requires 0 <= c < |C[a]| =>
        C[a][c] + Sum(0, |A|, Products(A, B, a, c))))
  }

  lemma AddedAt(C: Mat<real>, A: Mat<real>, B: Mat<real>, a: int, c: int)
    requires 0 <= a < |C| && 0 <= c < |C[a]|
    ensures AddProduct(C, A, B)[a][c] == C[a][c] + Sum(0, |A|, Products(A, B, a, c))
  {
  }

  /** Exact arithmetic around a tile quantizer. */
  ghost predicate Exact<I(!new)>(K: Kernel<real, I>) {
    && K.zero == 0.0
    && (forall x, y :: K.add(x, y) == x + y)
    && (forall x, y :: K.sub(x, y) == x - y)
    && (forall C, A, B :: K.addmm(C, A, B) == AddProduct(C, A, B))
  }

  /** The feedback that rows from `from` on send to row a: sum over r of L[r, a] (W - Wq)[r]. */
  ghost function Feed(W: Mat<real>, L: Mat<real>, wq: Mat<real>, a: int, c: int, from: int): real {
    Sum(from, |W|, r => Entry(L, r, a) * (Entry(W, r, c) - Entry(wq, r, c)))
  }

  /** Block b of the weight plus the feedback of all rows below the block. */
  ghost function FedRows(W: Mat<real>, L: Mat<real>, n: nat, wq: Mat<real>, b: int): (rows: Mat<real>)
    ensures Shape(rows, 16, n)
  {
    seq(16, a requires 0 <= a < 16 =>
      seq(n, c requires 0 <= c < n =>
        Entry(W, 16 * b + a, c) + Feed(W, L, wq, 16 * b + a, c, 16 * b + 16)))
  }

  /** Block b holds the quantization of its fed rows. */
  ghost predicate Quantized<I(!new)>(p: Problem<real, I>, wq: Mat<real>, enc: seq<seq<seq<I>>>, b: int)
    requires Ok(p) && Shape(wq, p.k, p.n) && |enc| == p.k / 16 && 0 <= b < p.k / 16
  {
    var tiles := TilesOf(FedRows(p.W, p.L, p.n, wq, b), p.tn);
    ValuesShape(p, tiles);
    wq[16 * b..16 * b + 16] == RowsOf(Values(p.K, tiles), p.tn) && enc[b] == Indices(p.K, tiles)
  }

  /** What unblocked LDLQ is: every block is the quantization of its rows plus the feedback from below. */
  ghost predicate Unblocked<I(!new)>(p: Problem<real, I>, wq: Mat<real>, enc: seq<seq<seq<I>>>) {
    && Ok(p) && Shape(wq, p.k, p.n) && |enc| == p.k / 16
    && forall b :: 0 <= b < p.k / 16 ==> Quantized(p, wq, enc, b)
  }

  // ---------------------------------------------------------------- the invariant of a run

  /** With rows from e on quantized and spans from j on fed forward: the cache of a row still to come is the
      feedback of the finished spans, and every finished block is quantized from its fed rows. */
  ghost predicate Inv<I(!new)>(p: Problem<real, I>, e: int, j: int, s: State<real, I>)
    requires Ok(p) && Fits(p, s) && 0 <= e <= j <= p.k
  {
    && (forall a, c :: 0 <= a < e && 0 <= c < p.n ==> Entry(s.cache, a, c) == Feed(p.W, p.L, s.wq, a, c, j))
    && (forall b :: e <= 16 * b && 0 <= b < p.k / 16 ==> Quantized(p, s.wq, s.enc, b))
  }

  /** Feedback from a row on depends only on the quantized rows from there on. */
  lemma FeedFrame(W: Mat<real>, L: Mat<real>, wq: Mat<real>, wq': Mat<real>, a: int, c: int, from: int)
    requires |wq| == |wq'| && 0 <= from && forall r :: from <= r < |wq| ==> wq[r] == wq'[r]
    ensures Feed(W, L, wq, a, c, from) == Feed(W, L, wq', a, c, from)
  {
    SumExt(from, |W|, r => Entry(L, r, a) * (Entry(W, r, c) - Entry(wq, r, c)),
                      r => Entry(L, r, a) * (Entry(W, r, c) - Entry(wq', r, c)));
  }

  /** The kernel product over rows [lo, hi) is the part of the feedback that those rows send. */
  lemma FeedPart(W: Mat<real>, L: Mat<real>, wq: Mat<real>, A: Mat<real>, B: Mat<real>,
                 a: int, a': int, c: int, lo: int, hi: int)
    requires 0 <= lo <= hi <= |W| && |A| == hi - lo
    requires forall r :: 0 <= r < hi - lo ==> Entry(A, r, a') == Entry(L, lo + r, a)
    requires forall r :: 0 <= r < hi - lo ==> Entry(B, r, c) == Entry(W, lo + r, c) - Entry(wq, lo + r, c)
    ensures Feed(W, L, wq, a, c, hi) + Sum(0, |A|, Products(A, B, a', c)) == Feed(W, L, wq, a, c, lo)
  {
    hide Entry, Sum;
    var f := r => Entry(L, r, a) * (Entry(W, r, c) - Entry(wq, r, c));
    SumExt(0, hi - lo, Products(A, B, a', c), r => f(lo + r));
    SumShift(lo, hi - lo, f);
    SumSplit(lo, hi, |W|, f);
  }

  lemma ErrEntries<I(!new)>(p: Problem<real, I>, wq: Mat<real>, lo: int, hi: int)
    requires Ok(p) && Exact(p.K) && Shape(wq, p.k, p.n) && 0 <= lo <= hi <= p.k
    ensures forall r, c :: 0 <= r < hi - lo && 0 <= c < p.n ==>
      Entry(Err(p, wq, lo, hi), r, c) == Entry(p.W, lo + r, c) - Entry(wq, lo + r, c)
  {
  }

  lemma LSliceEntries<I(!new)>(p: Problem<real, I>, lo: int, hi: int, col: int)
    requires Ok(p) && 0 <= lo <= hi <= p.k && 0 <= col <= col + 16 <= p.k
    ensures forall r, a :: 0 <= r < hi - lo && 0 <= a < 16 ==>
      Entry(LSlice(p, lo, hi, col), r, a) == Entry(p.L, lo + r, col + a)
  {
  }

  /** The compensation term of a block is the feedback of every row below it. */
  lemma CompIsFeed<I(!new)>(p: Problem<real, I>, j: int, bj: int, s: State<real, I>, a: int, c: int)
    requires Ok(p) && Exact(p.K) && Fits(p, s) && At(p, j, bj) && j > 0
    requires Inv(p, j - p.buf + bj, j, s) && 0 <= a < 16 && 0 <= c < p.n
    ensures Comp(p, j, bj, s)[a][c] == Feed(p.W, p.L, s.wq, j - p.buf + bj - 16 + a, c, j - p.buf + bj)
  {
    hide Feed, Sum, Err, LSlice, Quantized, AddProduct, Spans;
    var block := BlockBelow(p, j, bj);
    var e := j - p.buf + bj;
    var A, B := LSlice(p, e, j, e - 16), Err(p, s.wq, e, j);
    LSliceEntries(p, e, j, e - 16);
    ErrEntries(p, s.wq, e, j);
    FeedPart(p.W, p.L, s.wq, A, B, e - 16 + a, a, c, e, j);
    var C := s.cache[e - 16..e];
    AddedAt(C, A, B, a, c);
    assert C[a] == s.cache[e - 16 + a] && C[a][c] == Entry(s.cache, e - 16 + a, c);
  }

  lemma InputAt<I(!new)>(p: Problem<real, I>, j: int, bj: int, s: State<real, I>, r: int, c: int)
    requires Ok(p) && Exact(p.K) && Fits(p, s) && At(p, j, bj) && j > 0 && 0 <= c < p.n
    requires 0 <= j - p.buf + bj - 16 <= r < j - p.buf + bj
    ensures var a := r - (j - p.buf + bj - 16); Input(p, j, bj, s)[a][c] == Entry(p.W, r, c) + Comp(p, j, bj, s)[a][c]
  {
    hide Comp, Spans;
  }

  lemma FedAt(W: Mat<real>, L: Mat<real>, n: nat, wq: Mat<real>, b: int, a: int, c: int)
    requires 0 <= a < 16 && 0 <= c < n
    ensures FedRows(W, L, n, wq, b)[a][c] == Entry(W, 16 * b + a, c) + Feed(W, L, wq, 16 * b + a, c, 16 * b + 16)
  {
    hide Feed, Entry;
  }

  lemma InputIsFed<I(!new)>(p: Problem<real, I>, j: int, bj: int, s: State<real, I>, b: int)
    requires Ok(p) && Exact(p.K) && Fits(p, s) && At(p, j, bj) && j > 0
    requires Inv(p, j - p.buf + bj, j, s) && 16 * b + 16 == j - p.buf + bj
    ensures 0 <= b < p.k / 16 && Input(p, j, bj, s) == FedRows(p.W, p.L, p.n, s.wq, b)
  {
    hide Feed, Comp, Quantized, Input, FedRows, Entry, Spans;
    var block := BlockBelow(p, j, bj);
    var rows, fed := Input(p, j, bj, s), FedRows(p.W, p.L, p.n, s.wq, b);
    forall a | 0 <= a < 16 ensures rows[a] == fed[a] {
      forall c | 0 <= c < p.n ensures rows[a][c] == fed[a][c] {
        CompIsFeed(p, j, bj, s, a, c);
        InputAt(p, j, bj, s, 16 * b + a, c);
        FedAt(p.W, p.L, p.n, s.wq, b, a, c);
      }
    }
  }

  /** A finished block stays finished while other rows above it are written. */
  lemma QuantizedFrame<I(!new)>(p: Problem<real, I>, wq: Mat<real>, enc: seq<seq<seq<I>>>,
                                wq': Mat<real>, enc': seq<seq<seq<I>>>, b: int)
    requires Ok(p) && Shape(wq, p.k, p.n) && Shape(wq', p.k, p.n) && |enc| == |enc'| == p.k / 16 && 0 <= b < p.k / 16
    requires Quantized(p, wq, enc, b) && enc'[b] == enc[b]
    requires forall r :: 16 * b <= r < p.k ==> wq[r] == wq'[r]
    ensures Quantized(p, wq', enc', b)
  {
    hide Feed, TilesOf, RowsOf, Values, Indices;
    var rows, rows' := FedRows(p.W, p.L, p.n, wq, b), FedRows(p.W, p.L, p.n, wq', b);
    forall a | 0 <= a < 16 ensures rows[a] == rows'[a] {
      forall c | 0 <= c < p.n ensures rows[a][c] == rows'[a][c] {
        FeedFrame(p.W, p.L, wq, wq', 16 * b + a, c, 16 * b + 16);
      }
    }
    assert rows == rows';
    assert wq[16 * b..16 * b + 16] == wq'[16 * b..16 * b + 16];
  }

  lemma StepKeepsCache<I(!new)>(p: Problem<real, I>, j: int, bj: int, s: State<real, I>, t: State<real, I>, a: int,
                                c: int)
    requires Ok(p) && Fits(p, s) && At(p, j, bj) && j > 0 && Inv(p, j - p.buf + bj, j, s) && t == Step(p, j, bj, s)
    requires 0 <= a < j - p.buf + bj - 16 && 0 <= c < p.n
    ensures Entry(t.cache, a, c) == Feed(p.W, p.L, t.wq, a, c, j)
  {
    hide Feed, Step, Quantized, Input;
    StepFrame(p, j, bj, s, t);
    FeedFrame(p.W, p.L, s.wq, t.wq, a, c, j);
  }

  lemma StepKeepsBlock<I(!new)>(p: Problem<real, I>, j: int, bj: int, s: State<real, I>, t: State<real, I>, b: int)
    requires Ok(p) && Fits(p, s) && At(p, j, bj) && j > 0 && Fits(p, t) && t == Step(p, j, bj, s)
    requires 0 <= b < p.k / 16 && j - p.buf + bj <= 16 * b && Quantized(p, s.wq, s.enc, b)
    ensures Quantized(p, t.wq, t.enc, b)
  {
    hide Step, Quantized, Input;
    StepFrame(p, j, bj, s, t);
    QuantizedFrame(p, s.wq, s.enc, t.wq, t.enc, b);
  }

  lemma NewBlock<I(!new)>(p: Problem<real, I>, j: int, bj: int, s: State<real, I>, t: State<real, I>, b: int)
    requires Ok(p) && Fits(p, s) && At(p, j, bj) && j > 0 && Fits(p, t) && t == Step(p, j, bj, s)
    requires 16 * b + 16 == j - p.buf + bj && 0 <= b < p.k / 16 && Input(p, j, bj, s) == FedRows(p.W, p.L, p.n, s.wq, b)
    ensures Quantized(p, t.wq, t.enc, b)
  {
    hide Feed, Comp, Input, RowsOf, Values, Indices, TilesOf;
    var rows, rows' := FedRows(p.W, p.L, p.n, s.wq, b), FedRows(p.W, p.L, p.n, t.wq, b);
    forall a | 0 <= a < 16 ensures rows[a] == rows'[a] {
      forall c | 0 <= c < p.n ensures rows[a][c] == rows'[a][c] {
        FeedFrame(p.W, p.L, s.wq, t.wq, 16 * b + a, c, 16 * b + 16);
      }
    }
    assert rows == rows';
  }

  lemma StepKeepsInv<I(!new)>(p: Problem<real, I>, j: int, bj: int, s: State<real, I>, t: State<real, I>)
    requires Ok(p) && Exact(p.K) && Fits(p, s) && At(p, j, bj) && j > 0 && Fits(p, t)
    requires Inv(p, j - p.buf + bj, j, s) && t == Step(p, j, bj, s)
    ensures Inv(p, j - p.buf + bj - 16, j, t)
  {
    hide Feed, Step, Quantized, Input, Entry, Ok, Spans;
    var e := j - p.buf + bj;
    forall a, c | 0 <= a < e - 16 && 0 <= c < p.n ensures Entry(t.cache, a, c) == Feed(p.W, p.L, t.wq, a, c, j) {
      StepKeepsCache(p, j, bj, s, t, a, c);
    }
    var b := BlockBelow(p, j, bj);
    InputIsFed(p, j, bj, s, b);
    NewBlock(p, j, bj, s, t, b);
    forall x | e <= 16 * x && 0 <= x < p.k / 16 ensures Quantized(p, t.wq, t.enc, x) {
      StepKeepsBlock(p, j, bj, s, t, x);
    }
  }

  lemma EndSpanKeepsInv<I(!new)>(p: Problem<real, I>, j: int, s: State<real, I>, t: State<real, I>)
    requires Ok(p) && Exact(p.K) && Fits(p, s) && p.buf <= j <= p.k && Fits(p, t)
    requires Inv(p, j - p.buf, j, s) && t == EndSpan(p, j, s)
    ensures Inv(p, j - p.buf, j - p.buf, t)
  {
    hide Feed, Quantized, Err, Sum;
    var i := j - p.buf;
    var A, B := p.L[i..j], Err(p, s.wq, i, j);
    ErrEntries(p, s.wq, i, j);
    forall a, c | 0 <= a < i && 0 <= c < p.n ensures Entry(t.cache, a, c) == Feed(p.W, p.L, t.wq, a, c, i) {
      FeedPart(p.W, p.L, s.wq, A, B, a, a, c, i, j);
    }
  }

  lemma {:induction false} RunKeepsInv<I(!new)>(p: Problem<real, I>, j: int, bj: int, s: State<real, I>)
    requires Ok(p) && Exact(p.K) && Fits(p, s) && At(p, j, bj) && Inv(p, if j == 0 then 0 else j - p.buf + bj, j, s)
    ensures Inv(p, 0, 0, Run(p, j, bj, s))
    decreases j, bj
  {
    hide Feed, Quantized, Step, EndSpan, Fits, Inv;
    if j > 0 {
      var t := Step(p, j, bj, s);
      StepKeepsInv(p, j, bj, s, t);
      RunOn(p, j, bj, s, t);
      if bj > 16 {
        RunKeepsInv(p, j, bj - 16, t);
      } else {
        EndSpanKeepsInv(p, j, t, EndSpan(p, j, t));
        RunKeepsInv(p, j - p.buf, p.buf, EndSpan(p, j, t));
      }
    }
  }

  /** Blocked LDLQ is unblocked LDLQ, whatever the span height. */
  lemma BlockedIsUnblocked<I(!new)>(p: Problem<real, I>)
    requires Ok(p) && Exact(p.K)
    ensures Unblocked(p, Result(p).wq, Result(p).enc)
  {
    hide Quantized, Run;
    var s := Start(p);
    WholeSpans(p.k, p.buf);
    forall a, c | 0 <= a < p.k && 0 <= c < p.n ensures Entry(s.cache, a, c) == Feed(p.W, p.L, s.wq, a, c, p.k) {
    }
    RunKeepsInv(p, p.k, p.buf, s);
  }

  /** Tile by tile, an unblocked result holds what the quantizer gives for that tile of the fed rows. */
  lemma TileOfBlock<I(!new)>(p: Problem<real, I>, wq: Mat<real>, enc: seq<seq<seq<I>>>, b: int, t: int)
    requires Unblocked(p, wq, enc) && 0 <= b < p.k / 16 && 0 <= t < p.tn
    ensures Shape(wq[16 * b..16 * b + 16], 16, p.n) && |enc[b]| == p.tn
    ensures var tile := TilesOf(FedRows(p.W, p.L, p.n, wq, b), p.tn)[t];
            TilesOf(wq[16 * b..16 * b + 16], p.tn)[t] == p.K.value(tile) && enc[b][t] == p.K.index(tile)
  {
    hide FedRows, TilesOf, RowsOf, Ok;
    assert Quantized(p, wq, enc, b);
    var tiles := TilesOf(FedRows(p.W, p.L, p.n, wq, b), p.tn);
    ValuesShape(p, tiles);
    TilesOfRowsOf(Values(p.K, tiles), p.tn);
  }

  /** Every tile of an LDLQ result is the quantizer's value of that tile of the weight plus the feedback from below. */
  lemma EveryTile<I(!new)>(p: Problem<real, I>, b: int, t: int)
    requires Ok(p) && Exact(p.K) && 0 <= b < p.k / 16 && 0 <= t < p.tn
    ensures var wq, enc := Result(p).wq, Result(p).enc;
            && Shape(wq[16 * b..16 * b + 16], 16, p.n) && |enc[b]| == p.tn
            && var tile := TilesOf(FedRows(p.W, p.L, p.n, wq, b), p.tn)[t];
               TilesOf(wq[16 * b..16 * b + 16], p.tn)[t] == p.K.value(tile) && enc[b][t] == p.K.index(tile)
  {
    hide Result, FedRows, TilesOf, Ok, Unblocked;
    BlockedIsUnblocked(p);
    TileOfBlock(p, Result(p).wq, Result(p).enc, b, t);
  }

  // ---------------------------------------------------------------- uniqueness

  lemma {:induction false} UniqueFrom<I(!new)>(p: Problem<real, I>, wq: Mat<real>, enc: seq<seq<seq<I>>>,
                                               wq': Mat<real>, enc': seq<seq<seq<I>>>, b: int)
    requires Unblocked(p, wq, enc) && Unblocked(p, wq', enc') && 0 <= b <= p.k / 16
    ensures forall r :: 16 * b <= r < p.k ==> wq[r] == wq'[r]
    ensures forall x :: b <= x < p.k / 16 ==> enc[x] == enc'[x]
    decreases p.k / 16 - b
  {
    hide Feed, TilesOf, RowsOf, Values, Indices;
    if b == p.k / 16 {
      OkParts(p);
    } else {
      UniqueFrom(p, wq, enc, wq', enc', b + 1);
      var rows, rows' := FedRows(p.W, p.L, p.n, wq, b), FedRows(p.W, p.L, p.n, wq', b);
      forall a | 0 <= a < 16 ensures rows[a] == rows'[a] {
        forall c | 0 <= c < p.n ensures rows[a][c] == rows'[a][c] {
          FeedFrame(p.W, p.L, wq, wq', 16 * b + a, c, 16 * b + 16);
        }
      }
      assert rows == rows';
      assert Quantized(p, wq, enc, b) && Quantized(p, wq', enc', b);
      forall r | 16 * b <= r < 16 * b + 16 ensures wq[r] == wq'[r] {
        assert wq[r] == wq[16 * b..16 * b + 16][r - 16 * b] && wq'[r] == wq'[16 * b..16 * b + 16][r - 16 * b];
      }
    }
  }

  /** Unblocked LDLQ has one result. */
  lemma UnblockedUnique<I(!new)>(p: Problem<real, I>, wq: Mat<real>, enc: seq<seq<seq<I>>>,
                                 wq': Mat<real>, enc': seq<seq<seq<I>>>)
    requires Unblocked(p, wq, enc) && Unblocked(p, wq', enc')
    ensures wq == wq' && enc == enc'
  {
    UniqueFrom(p, wq, enc, wq', enc', 0);
  }

  lemma UnblockedIgnoresSpan<I(!new)>(p: Problem<real, I>, p': Problem<real, I>, wq: Mat<real>, enc: seq<seq<seq<I>>>)
    requires Ok(p) && p' == p.(buf := p'.buf) && Unblocked(p', wq, enc)
    ensures Unblocked(p, wq, enc)
  {
    hide TilesOf, RowsOf, Values, Indices, FedRows;
    forall b | 0 <= b < p.k / 16 ensures Quantized(p, wq, enc, b) {
      assert Quantized(p', wq, enc, b);
    }
  }

  /** LDLQ does not depend on the height of its spans. */
  lemma SpanIndependent<I(!new)>(p: Problem<real, I>, buf: nat)
    requires Ok(p) && Ok(p.(buf := buf)) && Exact(p.K)
    ensures Result(p).wq == Result(p.(buf := buf)).wq && Result(p).enc == Result(p.(buf := buf)).enc
  {
    hide Result, Unblocked, Ok;
    var p' := p.(buf := buf);
    BlockedIsUnblocked(p);
    BlockedIsUnblocked(p');
    UnblockedIgnoresSpan(p, p', Result(p').wq, Result(p').enc);
    UnblockedUnique(p, Result(p).wq, Result(p).enc, Result(p').wq, Result(p').enc);
  }
}

/** Finite sums of reals over an index range. */
module Sums {

  function Sum(lo: int, hi: int, f: int -> real): real
    decreases hi - lo
  {
    if hi <= lo then 0.0 else Sum(lo, hi - 1, f) + f(hi - 1)
  }

  /** A list as a function of its index. */
  function AsVector(row: seq<real>): int -> real { i => if 0 <= i < |row| then row[i] else 0.0 }

  lemma SumLast(lo: int, hi: int, f: int -> real)
    requires lo < hi
    ensures Sum(lo, hi, f) == Sum(lo, hi - 1, f) + f(hi - 1)
  {
  }

  lemma {:induction false} SumExt(lo: int, hi: int, f: int -> real, g: int -> real)
    requires forall i :: lo <= i < hi ==> f(i) == g(i)
    ensures Sum(lo, hi, f) == Sum(lo, hi, g)
    decreases hi - lo
  {
    if lo < hi { SumExt(lo, hi - 1, f, g); }
  }

  lemma {:induction false} SumZero(lo: int, hi: int, f: int -> real)
    requires forall i :: lo <= i < hi ==> f(i) == 0.0
    ensures Sum(lo, hi, f) == 0.0
    decreases hi - lo
  {
    if lo < hi { SumZero(lo, hi - 1, f); }
  }

  lemma {:induction false} SumPlus(lo: int, hi: int, f: int -> real, g: int -> real)
    ensures Sum(lo, hi, i => f(i) + g(i)) == Sum(lo, hi, f) + Sum(lo, hi, g)
    decreases hi - lo
  {
    if lo < hi { SumPlus(lo, hi - 1, f, g); }
  }

  lemma {:induction false} SumTimes(lo: int, hi: int, c: real, f: int -> real)
    ensures Sum(lo, hi, i => c * f(i)) == c * Sum(lo, hi, f)
    decreases hi - lo
  {
    if lo < hi { SumTimes(lo, hi - 1, c, f); }
  }

  lemma {:induction false} SumSplit(lo: int, mid: int, hi: int, f: int -> real)
    requires lo <= mid <= hi
    ensures Sum(lo, hi, f) == Sum(lo, mid, f) + Sum(mid, hi, f)
    decreases hi - mid
  {
    if mid < hi { SumSplit(lo, mid, hi - 1, f); }
  }

  /** Renaming the index: r runs from 0 where the sum runs from lo. */
  lemma {:induction false} SumShift(lo: int, n: nat, f: int -> real)
    ensures Sum(0, n, r => f(lo + r)) == Sum(lo, lo + n, f)
  {
    if n > 0 { SumShift(lo, n - 1, f); }
  }

  /** Exchange of two sums. */
  lemma {:induction false} SumSwap(lo: int, hi: int, lo': int, hi': int, f: (int, int) -> real)
    ensures Sum(lo, hi, i => Sum(lo', hi', j => f(i, j))) == Sum(lo', hi', j => Sum(lo, hi, i => f(i, j)))
    decreases hi - lo
  {
    if lo < hi {
      SumSwap(lo, hi - 1, lo', hi', f);
      var head, last := j => Sum(lo, hi - 1, i => f(i, j)), j => f(hi - 1, j);
      SumPlus(lo', hi', head, last);
      SumExt(lo', hi', j => Sum(lo, hi, i => f(i, j)), j => head(j) + last(j));
    } else {
      SumZero(lo', hi', j => Sum(lo, hi, i => f(i, j)));
    }
  }

  lemma {:induction false} SumNonneg(lo: int, hi: int, f: int -> real)
    requires forall i :: lo <= i < hi ==> 0.0 <= f(i)
    ensures 0.0 <= Sum(lo, hi, f)
    decreases hi - lo
  {
    if lo < hi { SumNonneg(lo, hi - 1, f); }
  }

  /** A sum with one nonzero term. */
  lemma {:induction false} SumPoint(lo: int, hi: int, f: int -> real, at: int)
    requires lo <= at < hi && forall i :: lo <= i < hi && i != at ==> f(i) == 0.0
    ensures Sum(lo, hi, f) == f(at)
    decreases hi - lo
  {
    if at == hi - 1 { SumZero(lo, hi - 1, f); } else { SumPoint(lo, hi - 1, f, at); }
  }

  lemma {:induction false} SumConstant(n: nat, f: int -> real, x: real)
    requires forall i :: 0 <= i < n ==> f(i) == x
    ensures Sum(0, n, f) == (n as real) * x
  {
    if n > 0 {
      SumConstant(n - 1, f, x);
      assert n as real == (n - 1) as real + 1.0;
    }
  }

  function Mean(x: seq<real>): real
    requires x != []
  {
    Sum(0, |x|, AsVector(x)) / (|x| as real)
  }

  function Power(x: real, n: nat): real { if n == 0 then 1.0 else x * Power(x, n - 1) }
}

/** Tokenwise Kullback-Leibler divergence of logits: the producer's in-place log-sum-exp forms and the verifier's
    probability form, over exact reals with an exponential and a logarithm. */
module TokenKld {
  import opened Sums

  datatype ExpLog = ExpLog(exp: real -> real, log: real -> real)

  /** What is assumed of the exponential and the logarithm. */
  ghost predicate Laws(E: ExpLog) {
    && (forall x, y :: E.exp(x + y) == E.exp(x) * E.exp(y))
    && (forall x :: E.exp(x) >= 1.0 + x)
    && (forall x :: E.log(E.exp(x)) == x)
    && (forall y :: y > 0.0 ==> E.exp(E.log(y)) == y)
  }

  // ---------------------------------------------------------------- consequences of the laws

  lemma Add(E: ExpLog, x: real, y: real, s: real)
    requires Laws(E) && s == x + y
    ensures E.exp(s) == E.exp(x) * E.exp(y)
  {
  }

  lemma Tangent(E: ExpLog, x: real)
    requires Laws(E)
    ensures E.exp(x) >= 1.0 + x
  {
  }

  lemma Inverse(E: ExpLog, x: real)
    requires Laws(E)
    ensures E.log(E.exp(x)) == x && (x > 0.0 ==> E.exp(E.log(x)) == x)
  {
  }

  lemma One(e: real)
    requires e == e * e && e >= 1.0
    ensures e == 1.0
  {
  }

  lemma ExpZero(E: ExpLog)
    requires Laws(E)
    ensures E.exp(0.0) == 1.0
  {
    hide Laws;
    Add(E, 0.0, 0.0, 0.0);
    Tangent(E, 0.0);
    One(E.exp(0.0));
  }

  lemma Product(x: real, y: real)
    ensures x >= 0.0 && y >= 0.0 ==> x * y >= 0.0
    ensures x > 0.0 && y > 0.0 ==> x * y > 0.0
    ensures -x * -y == x * y
  {
  }

  lemma PositiveSquare(e: real, h: real, i: real)
    requires e == h * h && e * i == 1.0
    ensures e > 0.0
  {
    Product(h, h);
    Product(-h, -h);
  }

  lemma ExpPositive(E: ExpLog, x: real)
    requires Laws(E)
    ensures E.exp(x) > 0.0
  {
    hide Laws;
    Add(E, x / 2.0, x / 2.0, x);
    Add(E, x, -x, 0.0);
    ExpZero(E);
    PositiveSquare(E.exp(x), E.exp(x / 2.0), E.exp(-x));
  }

  lemma SquaresKeepOrder(h: real, t: real, a: real, b: real)
    requires h >= t >= 0.0 && a == h * h && b == t * t
    ensures a >= b
  {
    Product(h - t, h + t);
    assert (h - t) * (h + t) == h * h - t * t;
  }

  lemma Positive(x: real, y: real, p: real)
    requires x > 0.0 && y > 0.0 && p == x * y
    ensures p > 0.0
  {
  }

  lemma SquarePositive(x: real, q: real)
    requires q == x * x
    ensures x != 0.0 ==> q > 0.0
  {
    if x > 0.0 { Positive(x, x, q); } else if x < 0.0 { Positive(-x, -x, q); }
  }

  lemma SquareOf(x: real) returns (q: real)
    ensures x != 0.0 ==> q > 0.0
    ensures 1.0 + x + q / 4.0 == (1.0 + x / 2.0) * (1.0 + x / 2.0)
  {
    q := x * x;
    SquarePositive(x, q);
  }

  lemma Above(h: real, x: real)
    requires h >= 1.0 + x / 2.0 >= 0.0
    ensures x != 0.0 ==> h * h > 1.0 + x
  {
    var q := SquareOf(x);
    SquaresKeepOrder(h, 1.0 + x / 2.0, h * h, 1.0 + x + q / 4.0);
  }

  /** The tangent touches only at zero. */
  lemma ExpStrict(E: ExpLog, x: real)
    requires Laws(E)
    ensures x != 0.0 ==> E.exp(x) > 1.0 + x
  {
    hide Laws;
    ExpPositive(E, x);
    Tangent(E, x / 2.0);
    Add(E, x / 2.0, x / 2.0, x);
    if x >= -2.0 { Above(E.exp(x / 2.0), x); }
  }

  lemma LogOf(E: ExpLog, s: real, p: real)
    requires Laws(E) && E.exp(s) == p
    ensures E.log(p) == s
  {
  }

  lemma LogProduct(E: ExpLog, x: real, y: real, p: real)
    requires Laws(E) && x > 0.0 && y > 0.0 && p == x * y
    ensures E.log(p) == E.log(x) + E.log(y)
  {
    hide Laws;
    Inverse(E, x);
    Inverse(E, y);
    Add(E, E.log(x), E.log(y), E.log(x) + E.log(y));
    LogOf(E, E.log(x) + E.log(y), p);
  }

  lemma Quotient(x: real, q: real, b: real)
    requires b > 0.0 && x == q * b
    ensures x / b == q
  {
  }

  lemma ExpOver(E: ExpLog, a: real, b: real)
    requires Laws(E) && b > 0.0
    ensures E.exp(a) / b == E.exp(a - E.log(b))
  {
    hide Laws;
    Inverse(E, b);
    Add(E, a - E.log(b), E.log(b), a);
    Quotient(E.exp(a), E.exp(a - E.log(b)), b);
  }

  // ---------------------------------------------------------------- rows

  function Largest(v: seq<real>): (m: real)
    requires v != []
    ensures m in v && forall i :: 0 <= i < |v| ==> v[i] <= m
  {
    if |v| == 1 then v[0] else
      var m := Largest(v[..|v| - 1]);
      if m < v[|v| - 1] then v[|v| - 1] else m
  }

  function Less(v: seq<real>, c: real): (w: seq<real>)
    ensures |w| == |v|
  {
    seq(|v|, i requires 0 <= i < |v| => v[i] - c)
  }

  function Exp(E: ExpLog, v: seq<real>): (w: seq<real>)
    ensures |w| == |v|
  {
    seq(|v|, i requires 0 <= i < |v| => E.exp(v[i]))
  }

  function Total(v: seq<real>): real { Sum(0, |v|, AsVector(v)) }

  function Partition(E: ExpLog, v: seq<real>): real { Total(Exp(E, v)) }

  /** logaddexp folded over a row. */
  function LogAddExp(E: ExpLog, v: seq<real>): real
    requires v != []
  {
    if |v| == 1 then v[0] else E.log(E.exp(LogAddExp(E, v[..|v| - 1])) + E.exp(v[|v| - 1]))
  }

  /** Log-probabilities. */
  function LogSoftmax(E: ExpLog, v: seq<real>): (w: seq<real>)
    ensures |w| == |v|
  {
    Less(v, E.log(Partition(E, v)))
  }

  /** The terms exp(t) (t - o). */
  function TermAt(E: ExpLog, t: seq<real>, o: seq<real>): int -> real
    requires |t| == |o|
  {
    i => if 0 <= i < |t| then E.exp(t[i]) * (t[i] - o[i]) else 0.0
  }

  /** Their sum. */
  function Weighted(E: ExpLog, t: seq<real>, o: seq<real>): real
    requires |t| == |o|
  {
    Sum(0, |t|, TermAt(E, t, o))
  }

  /** The divergence of a token. */
  function Divergence(E: ExpLog, v: seq<real>, w: seq<real>): real
    requires |v| == |w|
  {
    Weighted(E, LogSoftmax(E, v), LogSoftmax(E, w))
  }

  lemma PartitionNone(E: ExpLog, v: seq<real>)
    requires v == []
    ensures Partition(E, v) == 0.0
  {
  }

  lemma PartitionStep(E: ExpLog, v: seq<real>)
    requires v != []
    ensures Partition(E, v) == Partition(E, v[..|v| - 1]) + E.exp(v[|v| - 1])
  {
    hide Sum;
    var n := |v| - 1;
    SumLast(0, n + 1, AsVector(Exp(E, v)));
    SumExt(0, n, AsVector(Exp(E, v)), AsVector(Exp(E, v[..n])));
  }

  lemma {:induction false} PartitionPositive(E: ExpLog, v: seq<real>)
    requires Laws(E) && v != []
    ensures Partition(E, v) > 0.0
  {
    hide Laws, Partition;
    PartitionStep(E, v);
    ExpPositive(E, v[|v| - 1]);
    if |v| > 1 { PartitionPositive(E, v[..|v| - 1]); } else { PartitionNone(E, v[..|v| - 1]); }
  }

  /** Folding logaddexp gives the logarithm of the sum of the exponentials. */
  lemma {:induction false} LogAddExpIs(E: ExpLog, v: seq<real>)
    requires Laws(E) && v != []
    ensures LogAddExp(E, v) == E.log(Partition(E, v))
  {
    hide Partition, Laws;
    PartitionStep(E, v);
    if |v| == 1 {
      PartitionNone(E, v[..0]);
    } else {
      LogAddExpIs(E, v[..|v| - 1]);
      PartitionPositive(E, v[..|v| - 1]);
      Inverse(E, Partition(E, v[..|v| - 1]));
    }
    Inverse(E, v[|v| - 1]);
  }

  lemma Factor(x: real, y: real, c: real)
    ensures (x + y) * c == x * c + y * c
  {
  }

  lemma {:induction false} PartitionShift(E: ExpLog, v: seq<real>, c: real)
    requires Laws(E)
    ensures Partition(E, Less(v, c)) == Partition(E, v) * E.exp(-c)
  {
    hide Partition, Laws;
    if v == [] {
      PartitionNone(E, v);
      PartitionNone(E, Less(v, c));
    } else {
      var n, s := |v| - 1, Less(v, c);
      PartitionShift(E, v[..n], c);
      assert s[..n] == Less(v[..n], c);
      PartitionStep(E, v);
      PartitionStep(E, s);
      Add(E, v[n], -c, v[n] - c);
      Factor(Partition(E, v[..n]), E.exp(v[n]), E.exp(-c));
    }
  }

  /** Subtracting a constant first changes nothing. */
  lemma LogSoftmaxShift(E: ExpLog, v: seq<real>, c: real)
    requires Laws(E) && v != []
    ensures LogSoftmax(E, Less(v, c)) == LogSoftmax(E, v)
  {
    hide Partition, Laws;
    PartitionShift(E, v, c);
    PartitionPositive(E, v);
    ExpPositive(E, -c);
    LogProduct(E, Partition(E, v), E.exp(-c), Partition(E, Less(v, c)));
    Inverse(E, -c);
    var x, y := LogSoftmax(E, Less(v, c)), LogSoftmax(E, v);
    assert forall i :: 0 <= i < |v| ==> x[i] == y[i];
  }

  // ---------------------------------------------------------------- Gibbs

  /** Probabilities add up to one. */
  lemma ProbabilitiesSum(E: ExpLog, v: seq<real>)
    requires Laws(E) && v != []
    ensures Partition(E, LogSoftmax(E, v)) == 1.0
  {
    hide Partition, Laws;
    var p := Partition(E, v);
    PartitionPositive(E, v);
    PartitionShift(E, v, E.log(p));
    Inverse(E, p);
    Add(E, E.log(p), -E.log(p), 0.0);
    ExpZero(E);
  }

  lemma TermBound(p: real, e: real, q: real, t: real, o: real)
    requires p > 0.0 && q == p * e && e >= 1.0 + (o - t) && (o - t != 0.0 ==> e > 1.0 + (o - t))
    ensures p * (t - o) >= p - q && (p * (t - o) == p - q ==> t == o)
  {
    var d := t - o;
    var s := e - 1.0 + d;
    var a, b, c := p * d, p * e, p * s;
    assert a - (p - b) == c;
    Product(p, s);
    if d != 0.0 { assert c > 0.0; }
  }

  /** A term of the divergence is at least p - q, and equal to it only where the log-probabilities agree. */
  lemma Term(E: ExpLog, t: real, o: real)
    requires Laws(E)
    ensures E.exp(t) * (t - o) >= E.exp(t) - E.exp(o)
    ensures E.exp(t) * (t - o) == E.exp(t) - E.exp(o) ==> t == o
  {
    hide Laws;
    ExpPositive(E, t);
    Tangent(E, o - t);
    ExpStrict(E, o - t);
    Add(E, t, o - t, o);
    var p, e, q := E.exp(t), E.exp(o - t), E.exp(o);
    assert q == p * e;
    TermBound(p, e, q, t, o);
  }

  /** What a term exceeds p - q by. */
  function Excess(E: ExpLog, t: seq<real>, o: seq<real>): int -> real
    requires |t| == |o|
  {
    i => if 0 <= i < |t| then E.exp(t[i]) * (t[i] - o[i]) - E.exp(t[i]) + E.exp(o[i]) else 0.0
  }

  lemma TermSplit(E: ExpLog, t: seq<real>, o: seq<real>, i: int)
    requires |t| == |o| && 0 <= i < |t|
    ensures TermAt(E, t, o)(i) == Excess(E, t, o)(i) + AsVector(Exp(E, t))(i) - AsVector(Exp(E, o))(i)
  {
  }

  lemma {:induction false} SumOfDifferences(n: nat, g: int -> real, f: int -> real, p: int -> real, q: int -> real)
    requires forall i :: 0 <= i < n ==> g(i) == f(i) + p(i) - q(i)
    ensures Sum(0, n, g) == Sum(0, n, f) + Sum(0, n, p) - Sum(0, n, q)
  {
    if n > 0 { SumOfDifferences(n - 1, g, f, p, q); }
  }

  lemma WeightedIs(E: ExpLog, t: seq<real>, o: seq<real>)
    requires |t| == |o|
    ensures Weighted(E, t, o) == Sum(0, |t|, Excess(E, t, o)) + Partition(E, t) - Partition(E, o)
  {
    hide Sum, TermAt, Excess, Exp;
    var n, f, p, q := |t|, Excess(E, t, o), AsVector(Exp(E, t)), AsVector(Exp(E, o));
    forall i | 0 <= i < n ensures TermAt(E, t, o)(i) == f(i) + p(i) - q(i) { TermSplit(E, t, o, i); }
    SumOfDifferences(n, TermAt(E, t, o), f, p, q);
  }

  /** A sum of nonnegative terms is zero only if all are. */
  lemma {:induction false} SumOfNone(n: nat, f: int -> real)
    requires (forall i :: 0 <= i < n ==> f(i) >= 0.0) && Sum(0, n, f) == 0.0
    ensures forall i :: 0 <= i < n ==> f(i) == 0.0
  {
    if n > 0 {
      SumNonneg(0, n - 1, f);
      SumOfNone(n - 1, f);
    }
  }

  /** The divergence is never negative, and zero exactly for equal log-probabilities. */
  lemma Gibbs(E: ExpLog, v: seq<real>, w: seq<real>)
    requires Laws(E) && |v| == |w| > 0
    ensures Divergence(E, v, w) >= 0.0
    ensures Divergence(E, v, w) == 0.0 <==> LogSoftmax(E, v) == LogSoftmax(E, w)
  {
    hide Laws, Sum, Partition, LogSoftmax;
    var t, o := LogSoftmax(E, v), LogSoftmax(E, w);
    var f := Excess(E, t, o);
    forall i | 0 <= i < |t| ensures f(i) >= 0.0 && (f(i) == 0.0 ==> t[i] == o[i]) { Term(E, t[i], o[i]); }
    WeightedIs(E, t, o);
    ProbabilitiesSum(E, v);
    ProbabilitiesSum(E, w);
    SumNonneg(0, |t|, f);
    if Divergence(E, v, w) == 0.0 {
      SumOfNone(|t|, f);
      assert t == o;
    }
    if t == o {
      SumZero(0, |t|, f);
    }
  }

  /** The divergence is zero exactly if the two rows of logits differ by a constant. */
  lemma ZeroIff(E: ExpLog, v: seq<real>, w: seq<real>)
    requires Laws(E) && |v| == |w| > 0
    ensures Divergence(E, v, w) == 0.0 <==> exists c :: w == Less(v, c)
  {
    hide Laws, Partition, Divergence;
    Gibbs(E, v, w);
    var t, o := LogSoftmax(E, v), LogSoftmax(E, w);
    if t == o {
      var c := E.log(Partition(E, v)) - E.log(Partition(E, w));
      forall i | 0 <= i < |v| ensures w[i] == Less(v, c)[i] { assert t[i] == o[i]; }
      assert w == Less(v, c);
    }
    if c :| w == Less(v, c) {
      LogSoftmaxShift(E, v, c);
    }
  }

  /** Adding a constant to a row changes no divergence. */
  lemma ShiftInvariant(E: ExpLog, v: seq<real>, w: seq<real>, c: real, d: real)
    requires Laws(E) && |v| == |w| > 0
    ensures Divergence(E, Less(v, c), Less(w, d)) == Divergence(E, v, w)
  {
    hide Laws, LogSoftmax;
    LogSoftmaxShift(E, v, c);
    LogSoftmaxShift(E, w, d);
  }

  /** A row's term in the probability form. */
  function ProbabilityTerm(E: ExpLog, t: seq<real>, o: seq<real>, zt: real, zo: real): int -> real
    requires |t| == |o| && zt > 0.0
  {
    i => if 0 <= i < |t| then E.exp(t[i]) / zt * ((t[i] - E.log(zt)) - (o[i] - E.log(zo))) else 0.0
  }

  lemma ProbabilityForm(E: ExpLog, t: seq<real>, o: seq<real>)
    requires Laws(E) && |t| == |o| > 0
    ensures Partition(E, t) > 0.0
    ensures Sum(0, |t|, ProbabilityTerm(E, t, o, Partition(E, t), Partition(E, o))) == Divergence(E, t, o)
  {
    hide Laws, Partition, Sum;
    PartitionPositive(E, t);
    var zt, zo := Partition(E, t), Partition(E, o);
    var f, g := ProbabilityTerm(E, t, o, zt, zo), TermAt(E, LogSoftmax(E, t), LogSoftmax(E, o));
    forall i | 0 <= i < |t| ensures f(i) == g(i) { ExpOver(E, t[i], zt); }
    SumExt(0, |t|, f, g);
  }

  lemma LogProbability(E: ExpLog, x: real, z: real)
    requires Laws(E) && z > 0.0
    ensures E.log(E.exp(x) / z) == x - E.log(z)
  {
    hide Laws;
    ExpOver(E, x, z);
    Inverse(E, x - E.log(z));
  }

  /** The divergence goes from the teacher to the student: the teacher's probabilities weigh how much larger the
      logarithms of its probabilities are than those of the student. */
  lemma DivergenceIs(E: ExpLog, teacher: seq<real>, student: seq<real>, zt: real, zs: real)
    requires Laws(E) && |teacher| == |student| > 0
    requires zt == Sum(0, |teacher|, i => if 0 <= i < |teacher| then E.exp(teacher[i]) else 0.0)
    requires zs == Sum(0, |student|, i => if 0 <= i < |student| then E.exp(student[i]) else 0.0)
    ensures zt > 0.0 && zs > 0.0
    ensures Divergence(E, teacher, student) == Sum(0, |teacher|, i =>
      if 0 <= i < |teacher| && zt > 0.0 && zs > 0.0
      then E.exp(teacher[i]) / zt * (E.log(E.exp(teacher[i]) / zt) - E.log(E.exp(student[i]) / zs))
      else 0.0)
  {
    hide Laws, Sum, Divergence;
    SumExt(0, |teacher|, AsVector(Exp(E, teacher)), i => if 0 <= i < |teacher| then E.exp(teacher[i]) else 0.0);
    SumExt(0, |student|, AsVector(Exp(E, student)), i => if 0 <= i < |student| then E.exp(student[i]) else 0.0);
    assert zt == Partition(E, teacher) && zs == Partition(E, student);
    ProbabilityForm(E, teacher, student);
    PartitionPositive(E, student);
    var f := ProbabilityTerm(E, teacher, student, zt, zs);
    var g := i =>
      if 0 <= i < |teacher| && zt > 0.0 && zs > 0.0
      then E.exp(teacher[i]) / zt * (E.log(E.exp(teacher[i]) / zt) - E.log(E.exp(student[i]) / zs))
      else 0.0;
    forall i | 0 <= i < |teacher| ensures f(i) == g(i) {
      LogProbability(E, teacher[i], zt);
      LogProbability(E, student[i], zs);
    }
    SumExt(0, |teacher|, f, g);
  }

  // ---------------------------------------------------------------- the producers

  /** Rows of logits of one width. */
  ghost predicate Logits(x: seq<seq<real>>, width: nat) {
    forall r :: 0 <= r < |x| ==> |x[r]| == width
  }

  datatype Outcome = Values(values: seq<real>) | Mismatch

  lemma NormalizedIs(E: ExpLog, v: seq<real>)
    ensures LogSoftmax(E, v) == Less(v, E.log(Partition(E, v)))
  {
  }

  /** The two in-place subtractions of a producer on rows lo to hi: first the largest logit, then the logarithm of the
      partition, by folding logaddexp or directly. */
  method Normalize(E: ExpLog, a: array<seq<real>>, lo: nat, hi: nat, folded: bool)
    requires Laws(E) && lo <= hi <= a.Length && forall r :: lo <= r < hi ==> a[r] != []
    modifies a
    ensures forall r :: 0 <= r < a.Length ==> a[r] == if lo <= r < hi then LogSoftmax(E, old(a[r])) else old(a[r])
  {
    hide Laws, Partition, LogAddExp, Largest, LogSoftmax;
    forall r | lo <= r < hi { a[r] := Less(a[r], Largest(a[r])); }
    ghost var shifted := a[..];
    forall r | lo <= r < hi ensures a[r] != [] {}
    forall r | lo <= r < hi {
      a[r] := Less(a[r], if folded then LogAddExp(E, a[r]) else E.log(Partition(E, a[r])));
    }
    forall r | lo <= r < hi ensures a[r] == LogSoftmax(E, old(a[r])) {
      assert a[r] == Less(shifted[r], if folded then LogAddExp(E, shifted[r]) else E.log(Partition(E, shifted[r])));
      LogAddExpIs(E, shifted[r]);
      NormalizedIs(E, shifted[r]);
      LogSoftmaxShift(E, old(a[r]), Largest(old(a[r])));
    }
  }

  lemma NormalizedTwice(E: ExpLog, v: seq<real>)
    requires Laws(E) && v != []
    ensures LogSoftmax(E, LogSoftmax(E, v)) == LogSoftmax(E, v)
  {
    hide Laws, Partition, LogSoftmax;
    NormalizedIs(E, v);
    LogSoftmaxShift(E, v, E.log(Partition(E, v)));
  }

  /** One chunk of a producer. A float64 slice is a view of the caller's logits, and the subtractions go through to
      them; any other slice is converted into a copy. Teacher and student may be the same logits. */
  method Chunk(E: ExpLog, teacher: array<seq<real>>, student: array<seq<real>>, start: nat, stop: nat, double: bool,
               folded: bool)
      returns (values: seq<real>)
    requires Laws(E) && start <= stop <= teacher.Length == student.Length
    requires forall r :: start <= r < stop ==> |teacher[r]| == |student[r]| > 0
    modifies teacher, student
    ensures forall r :: 0 <= r < teacher.Length ==>
      teacher[r] == (if double && start <= r < stop then LogSoftmax(E, old(teacher[r])) else old(teacher[r]))
      && student[r] == (if double && start <= r < stop then LogSoftmax(E, old(student[r])) else old(student[r]))
    ensures |values| == stop - start
    ensures forall r :: start <= r < stop ==>
      (|old(teacher[r])| == |old(student[r])| && values[r - start] == Divergence(E, old(teacher[r]), old(student[r])))
  {
    hide Laws, LogSoftmax, Weighted;
    var n := stop - start;
    var target, observed, lo := teacher, student, start;
    if !double {
      target := new seq<real>[n](i requires 0 <= i < n reads teacher => teacher[start + i]);
      observed := new seq<real>[n](i requires 0 <= i < n reads student => student[start + i]);
      lo := 0;
    }
    Normalize(E, target, lo, lo + n, folded);
    Normalize(E, observed, lo, lo + n, folded);
    forall r | start <= r < stop
      ensures LogSoftmax(E, LogSoftmax(E, old(teacher[r]))) == LogSoftmax(E, old(teacher[r]))
    {
      NormalizedTwice(E, old(teacher[r]));
    }
    values := [];
    for i := 0 to n
      invariant |values| == i
      invariant forall x :: 0 <= x < i ==> values[x] == Divergence(E, old(teacher[start + x]), old(student[start + x]))
    {
      values := values + [Weighted(E, target[lo + i], observed[lo + i])];
    }
  }

  /** The shapes differ. */
  ghost predicate Differ(t: seq<seq<real>>, s: seq<seq<real>>) {
    |t| != |s| || exists r :: 0 <= r < |t| && |t[r]| != |s[r]|
  }

  ghost predicate Divergences(E: ExpLog, t: seq<seq<real>>, s: seq<seq<real>>, x: seq<real>) {
    |x| == |t| == |s| && forall r :: 0 <= r < |x| ==> |t[r]| == |s[r]| && x[r] == Divergence(E, t[r], s[r])
  }

  /** A producer: chunk after chunk, for any chunk size. */
  method TokenKld(E: ExpLog, teacher: array<seq<real>>, student: array<seq<real>>, ghost width: nat, ghost width': nat,
                  chunk: nat, double: bool, folded: bool) returns (o: Outcome)
    requires Laws(E) && chunk >= 1 && width > 0
    requires Logits(teacher[..], width) && Logits(student[..], width')
    modifies teacher, student
    ensures o.Mismatch? <==> Differ(old(teacher[..]), old(student[..]))
    ensures !double || o.Mismatch? ==> teacher[..] == old(teacher[..]) && student[..] == old(student[..])
    ensures double && o.Values? ==> forall r :: 0 <= r < teacher.Length ==>
      teacher[r] == LogSoftmax(E, old(teacher[r])) && student[r] == LogSoftmax(E, old(student[r]))
    ensures o.Values? ==> Divergences(E, old(teacher[..]), old(student[..]), o.values)
  {
    hide Laws, LogSoftmax, Divergence;
    if teacher.Length != student.Length || (teacher.Length > 0 && |teacher[0]| != |student[0]|) {
      return Mismatch;
    }
    ghost var T, S := teacher[..], student[..];
    var result, start := [], 0;
    while start < teacher.Length
      invariant 0 <= start <= teacher.Length && |result| == start
      invariant forall r :: 0 <= r < teacher.Length ==>
        teacher[r] == (if double && r < start then LogSoftmax(E, T[r]) else T[r])
        && student[r] == (if double && r < start then LogSoftmax(E, S[r]) else S[r])
      invariant forall r :: 0 <= r < start ==> result[r] == Divergence(E, T[r], S[r])
    {
      var stop := if start + chunk < teacher.Length then start + chunk else teacher.Length;
      var values := Chunk(E, teacher, student, start, stop, double, folded);
      result, start := result + values, stop;
    }
    o := Values(result);
  }

  /** Calling a producer again on logits it has overwritten gives the same values. */
  lemma SameAgain(E: ExpLog, v: seq<real>, w: seq<real>)
    requires Laws(E) && |v| == |w| > 0
    ensures Divergence(E, LogSoftmax(E, v), LogSoftmax(E, w)) == Divergence(E, v, w)
  {
    hide Laws, Partition, Divergence;
    ShiftInvariant(E, v, w, E.log(Partition(E, v)), E.log(Partition(E, w)));
  }

  // ---------------------------------------------------------------- the verifier

  method IndependentRow(E: ExpLog, v: seq<real>, w: seq<real>) returns (value: real)
    requires Laws(E) && |v| == |w| > 0
    ensures value == Divergence(E, v, w)
  {
    hide Laws, Partition, Divergence;
    var target, observed := Less(v, Largest(v)), Less(w, Largest(w));
    var zt, zo := Partition(E, target), Partition(E, observed);
    ProbabilityForm(E, target, observed);
    ShiftInvariant(E, v, w, Largest(v), Largest(w));
    value := Sum(0, |target|, ProbabilityTerm(E, target, observed, zt, zo));
  }

  /** The verifier: probabilities and log-probabilities by the partition, without touching its inputs. */
  method IndependentTokenKld(E: ExpLog, teacher: array<seq<real>>, student: array<seq<real>>, ghost width: nat,
                             ghost width': nat, chunk: nat)
      returns (o: Outcome)
    requires Laws(E) && chunk >= 1 && width > 0 && Logits(teacher[..], width) && Logits(student[..], width')
    ensures o.Mismatch? <==> Differ(teacher[..], student[..])
    ensures o.Values? ==> Divergences(E, teacher[..], student[..], o.values)
  {
    hide Laws, Divergence, ProbabilityTerm;
    if teacher.Length != student.Length || (teacher.Length > 0 && |teacher[0]| != |student[0]|) {
      return Mismatch;
    }
    var result, start := [], 0;
    while start < teacher.Length
      invariant 0 <= start <= teacher.Length && |result| == start
      invariant forall r :: 0 <= r < start ==> result[r] == Divergence(E, teacher[r], student[r])
    {
      var stop := if start + chunk < teacher.Length then start + chunk else teacher.Length;
      while start < stop
        invariant 0 <= start <= stop <= teacher.Length && |result| == start
        invariant forall r :: 0 <= r < start ==> result[r] == Divergence(E, teacher[r], student[r])
      {
        var value := IndependentRow(E, teacher[start], student[start]);
        result, start := result + [value], start + 1;
      }
    }
    o := Values(result);
  }
}

/** Golden-section search for the global scale: the loop, what its bracket always satisfies, and what it returns. */
module GoldenSection {
  import opened Sums

  /** phi is the golden ratio. */
  ghost predicate Golden(phi: real) {
    phi > 0.0 && phi * phi == phi + 1.0
  }

  const LOW: real := 0.1
  const HIGH: real := 1.9
  const TOLERANCE: real := 0.01

  datatype Bracket = Bracket(a: real, b: real, x1: real, x2: real, f1: real, f2: real)

  function Low(phi: real, a: real, b: real): real { a + (2.0 - phi) * (b - a) }

  function High(phi: real, a: real, b: real): real { b - (2.0 - phi) * (b - a) }

  function Init(phi: real, f: real -> real, a: real, b: real): Bracket {
    Bracket(a, b, Low(phi, a, b), High(phi, a, b), f(Low(phi, a, b)), f(High(phi, a, b)))
  }

  function Abs(x: real): real { if x < 0.0 then -x else x }

  /** The loop guard fails. */
  predicate Closed(s: Bracket, tol: real) { Abs(s.b - s.a) <= tol }

  /** The candidate that the next iteration evaluates. */
  function Candidate(phi: real, s: Bracket): real {
    if s.f1 < s.f2 then Low(phi, s.a, s.x2) else High(phi, s.x1, s.b)
  }

  /** One iteration, once the new candidate's value v is known. */
  function Shrink(phi: real, s: Bracket, v: real): Bracket {
    if s.f1 < s.f2 then Bracket(s.a, s.x2, Low(phi, s.a, s.x2), s.x1, v, s.f1)
    else Bracket(s.x1, s.b, s.x2, High(phi, s.x1, s.b), s.f2, v)
  }

  function Next(phi: real, f: real -> real, s: Bracket): Bracket { Shrink(phi, s, f(Candidate(phi, s))) }

  /** The interior points divide the bracket by the golden ratio and carry their true values. */
  ghost predicate Inv(phi: real, f: real -> real, s: Bracket) {
    && s.a <= s.b
    && s.x1 == Low(phi, s.a, s.b) && s.x2 == High(phi, s.a, s.b)
    && s.f1 == f(s.x1) && s.f2 == f(s.x2)
  }

  lemma Scale(c: real, x: real, y: real)
    requires 0.0 <= c && x <= y
    ensures c * x <= c * y
  {
  }

  lemma GoldenBounds(phi: real)
    requires Golden(phi)
    ensures 1.618 < phi < 1.618039
  {
    if phi <= 1.618 { Scale(phi, phi, 1.618); }
    if phi >= 1.618039 { Scale(phi, 1.618039, phi); }
  }

  lemma Commute(r: real, phi: real, w: real)
    requires r == 2.0 - phi && r * (phi - 1.0) == 2.0 * phi - 3.0
    ensures r * (w - r * w) == (2.0 * phi - 3.0) * w
  {
    assert w - r * w == (phi - 1.0) * w;
    assert r * ((phi - 1.0) * w) == (r * (phi - 1.0)) * w;
  }

  /** Reusing an interior point of the old bracket as an interior point of the new one is exact. */
  lemma Reuse(phi: real, a: real, b: real)
    requires Golden(phi)
    ensures High(phi, a, High(phi, a, b)) == Low(phi, a, b)
    ensures Low(phi, Low(phi, a, b), b) == High(phi, a, b)
    ensures High(phi, a, b) - a == (phi - 1.0) * (b - a) == b - Low(phi, a, b)
  {
    var r, w := 2.0 - phi, b - a;
    assert r * (phi - 1.0) == 2.0 * phi - 3.0 by { assert r * (phi - 1.0) == 3.0 * phi - 2.0 - phi * phi; }
    assert High(phi, a, b) - a == w - r * w == (phi - 1.0) * w;
    assert r * (w - r * w) == (2.0 * phi - 3.0) * w by { Commute(r, phi, w); }
  }

  lemma Between(r: real, w: real)
    requires 0.0 < r < 0.5 && 0.0 <= w
    ensures 0.0 <= r * w <= w - r * w
  {
  }

  lemma Points(phi: real, a: real, b: real)
    requires Golden(phi) && a <= b
    ensures a <= Low(phi, a, b) <= High(phi, a, b) <= b
  {
    GoldenBounds(phi);
    Between(2.0 - phi, b - a);
  }

  /** An iteration keeps the invariant, stays inside the bracket and scales the width by phi - 1. */
  lemma NextKeepsInv(phi: real, f: real -> real, s: Bracket)
    requires Golden(phi) && Inv(phi, f, s)
    ensures var t := Next(phi, f, s);
            Inv(phi, f, t) && t.b - t.a == (phi - 1.0) * (s.b - s.a) && s.a <= t.a && t.b <= s.b
    ensures s.a <= s.x1 <= s.x2 <= s.b
    ensures var t := Next(phi, f, s);
            if f(s.x1) < f(s.x2) then t.a == s.a && t.b == s.x2 && t.x2 == s.x1
            else t.a == s.x1 && t.b == s.b && t.x1 == s.x2
  {
    hide Low, High;
    Points(phi, s.a, s.b);
    Reuse(phi, s.a, s.b);
  }

  // ---------------------------------------------------------------- the search

  ghost function Quotient(w: real, c: real): nat
    requires c > 0.0
  {
    if w <= 0.0 then 0 else (w / c).Floor
  }

  /** A bound on the iterations left at width w. */
  ghost function Measure(phi: real, w: real, tol: real): nat
    requires Golden(phi) && tol > 0.0
  {
    GoldenBounds(phi);
    Quotient(w, (2.0 - phi) * tol)
  }

  lemma Strictly(c: real, x: real, y: real)
    requires 0.0 < c && x < y
    ensures x * c < y * c
  {
  }

  lemma AtMost(c: real, q: real, w: real)
    requires 0.0 < c && q * c <= w
    ensures q <= w / c
  {
    var p := w / c;
    assert w == p * c;
    if p < q { Strictly(c, p, q); }
  }

  lemma QuotientDrops(w: real, v: real, c: real)
    requires 0.0 < c <= w && v <= w - c
    ensures Quotient(v, c) < Quotient(w, c)
  {
    AtMost(c, 1.0, w);
    if v > 0.0 {
      var u := v / c;
      assert v == u * c;
      assert (u + 1.0) * c == v + c;
      AtMost(c, u + 1.0, w);
    }
  }

  lemma MeasureDrops(phi: real, w: real, v: real, tol: real)
    requires Golden(phi) && 0.0 < tol < w && v == (phi - 1.0) * w
    ensures Measure(phi, v, tol) < Measure(phi, w, tol)
  {
    GoldenBounds(phi);
    var c := (2.0 - phi) * tol;
    assert (phi - 1.0) * w == w - (2.0 - phi) * w;
    Scale(2.0 - phi, tol, w);
    Scale(w, 2.0 - phi, 1.0);
    QuotientDrops(w, v, c);
  }

  ghost function Left(phi: real, s: Bracket, tol: real): nat
    requires Golden(phi) && tol > 0.0
  {
    Measure(phi, s.b - s.a, tol)
  }

  lemma NextDrops(phi: real, f: real -> real, s: Bracket, tol: real)
    requires Golden(phi) && Inv(phi, f, s) && tol > 0.0 && !Closed(s, tol)
    ensures var t := Next(phi, f, s);
            Inv(phi, f, t) && Left(phi, t, tol) < Left(phi, s, tol) && s.a <= t.a && t.b <= s.b
  {
    hide Low, High, Measure;
    NextKeepsInv(phi, f, s);
    var t := Next(phi, f, s);
    MeasureDrops(phi, s.b - s.a, t.b - t.a, tol);
  }

  /** The bracket a search ends with. */
  ghost function Search(phi: real, f: real -> real, s: Bracket, tol: real): (t: Bracket)
    requires Golden(phi) && Inv(phi, f, s) && tol > 0.0
    ensures Inv(phi, f, t) && Closed(t, tol) && s.a <= t.a && t.b <= s.b
    decreases Left(phi, s, tol)
  {
    hide Inv, Left, Next, Golden;
    if Closed(s, tol) then s else
      NextDrops(phi, f, s, tol);
      Search(phi, f, Next(phi, f, s), tol)
  }

  /** The candidates a search evaluates from a bracket on, in order. */
  ghost function Candidates(phi: real, f: real -> real, s: Bracket, tol: real): seq<real>
    requires Golden(phi) && Inv(phi, f, s) && tol > 0.0
    decreases Left(phi, s, tol)
  {
    hide Inv, Left, Next, Golden;
    if Closed(s, tol) then [] else
      NextDrops(phi, f, s, tol);
      [Candidate(phi, s)] + Candidates(phi, f, Next(phi, f, s), tol)
  }

  lemma InitInv(phi: real, f: real -> real, a: real, b: real)
    requires a <= b
    ensures Inv(phi, f, Init(phi, f, a, b))
  {
  }

  /** Everything a whole search evaluates: the two first points and a candidate for every iteration. */
  ghost function Evaluated(phi: real, f: real -> real, a: real, b: real, tol: real): seq<real>
    requires Golden(phi) && a <= b && tol > 0.0
  {
    InitInv(phi, f, a, b);
    [Low(phi, a, b), High(phi, a, b)] + Candidates(phi, f, Init(phi, f, a, b), tol)
  }

  ghost function Final(phi: real, f: real -> real, a: real, b: real, tol: real): Bracket
    requires Golden(phi) && a <= b && tol > 0.0
  {
    InitInv(phi, f, a, b);
    Search(phi, f, Init(phi, f, a, b), tol)
  }

  function Mid(s: Bracket): real { (s.a + s.b) / 2.0 }

  lemma PointsAre(phi: real, resphi: real, a: real, b: real)
    requires resphi == 2.0 - phi
    ensures a + resphi * (b - a) == Low(phi, a, b) && b - resphi * (b - a) == High(phi, a, b)
  {
  }

  /** The search loop. */
  method GoldenSearch(phi: real, f: real -> real, a0: real, b0: real, tol: real) returns (scale: real, error: real)
    requires Golden(phi) && a0 <= b0 && tol > 0.0
    ensures var t := Final(phi, f, a0, b0, tol); scale == Mid(t) && error == (t.f1 + t.f2) / 2.0
  {
    hide Inv, Left, Golden, Low, High;
    var resphi := 2.0 - phi;
    var a, b := a0, b0;
    var x1 := a + resphi * (b - a);
    var x2 := b - resphi * (b - a);
    PointsAre(phi, resphi, a, b);
    var f1 := f(x1);
    var f2 := f(x2);
    InitInv(phi, f, a0, b0);
    ghost var s := Bracket(a, b, x1, x2, f1, f2);
    assert s == Init(phi, f, a0, b0);
    while Abs(b - a) > tol
      invariant s == Bracket(a, b, x1, x2, f1, f2) && Inv(phi, f, s)
      invariant Search(phi, f, s, tol) == Final(phi, f, a0, b0, tol)
      decreases Left(phi, s, tol)
    {
      NextDrops(phi, f, s, tol);
      s := Next(phi, f, s);
      if f1 < f2 {
        b, x2, f2 := x2, x1, f1;
        x1 := a + resphi * (b - a);
        PointsAre(phi, resphi, a, b);
        f1 := f(x1);
      } else {
        a, x1, f1 := x1, x2, f2;
        x2 := b - resphi * (b - a);
        PointsAre(phi, resphi, a, b);
        f2 := f(x2);
      }
    }
    scale, error := (a + b) / 2.0, (f1 + f2) / 2.0;
  }

  // ---------------------------------------------------------------- what a search finds

  function Lesser(x: real, y: real): real { if x <= y then x else y }

  /** For any objective, the better of the two last values is the least of all values evaluated, and it is the value at
      one of the two last points, both of which were evaluated. */
  lemma {:induction false} BestFrom(phi: real, f: real -> real, s: Bracket, tol: real)
    requires Golden(phi) && Inv(phi, f, s) && tol > 0.0
    ensures var t, c := Search(phi, f, s, tol), Candidates(phi, f, s, tol);
            && Lesser(t.f1, t.f2) <= Lesser(s.f1, s.f2)
            && (forall x :: x in c ==> Lesser(t.f1, t.f2) <= f(x))
            && t.x1 in [s.x1, s.x2] + c && t.x2 in [s.x1, s.x2] + c
    decreases Left(phi, s, tol)
  {
    hide Left, Golden, Low, High;
    if !Closed(s, tol) {
      NextDrops(phi, f, s, tol);
      BestFrom(phi, f, Next(phi, f, s), tol);
    }
  }

  lemma BestIsMinimum(phi: real, f: real -> real, a: real, b: real, tol: real)
    requires Golden(phi) && a <= b && tol > 0.0
    ensures var t, all := Final(phi, f, a, b, tol), Evaluated(phi, f, a, b, tol);
            && (forall x :: x in all ==> Lesser(t.f1, t.f2) <= f(x))
            && (exists x :: x in all && Lesser(t.f1, t.f2) == f(x))
  {
    hide Low, High, Golden, Candidates, Search;
    InitInv(phi, f, a, b);
    var s := Init(phi, f, a, b);
    BestFrom(phi, f, s, tol);
    var t := Search(phi, f, s, tol);
    assert f(t.x1) == t.f1 && f(t.x2) == t.f2;
    assert t.x1 in Evaluated(phi, f, a, b, tol) && t.x2 in Evaluated(phi, f, a, b, tol);
  }

  /** Strictly falling up to m and strictly rising after it. */
  ghost predicate Unimodal(f: real -> real, a: real, b: real, m: real) {
    && (forall x, y :: a <= x < y <= m ==> f(x) > f(y))
    && (forall x, y :: m <= x < y <= b ==> f(x) < f(y))
  }

  /** A step of less than half the width stays short of the middle. */
  lemma ShortStep(r: real, w: real, p: real)
    requires 0.0 < r < 0.5 && 0.0 < w && p == r * w
    ensures 0.0 < p && p + p < w
  {
    Strictly(w, 0.0, r);
    Strictly(w, r, 0.5);
    assert p < 0.5 * w;
  }

  lemma Apart(phi: real, a: real, b: real)
    requires Golden(phi) && a < b
    ensures a < Low(phi, a, b) < High(phi, a, b) < b
  {
    hide Golden;
    GoldenBounds(phi);
    ShortStep(2.0 - phi, b - a, (2.0 - phi) * (b - a));
  }

  lemma {:induction false} KeepsMinimiser(phi: real, f: real -> real, s: Bracket, tol: real, a: real, b: real, m: real)
    requires Golden(phi) && Inv(phi, f, s) && tol > 0.0 && Unimodal(f, a, b, m)
    requires a <= s.a <= m <= s.b <= b
    ensures var t := Search(phi, f, s, tol); t.a <= m <= t.b
    decreases Left(phi, s, tol)
  {
    hide Left, Golden, Low, High;
    if !Closed(s, tol) {
      NextDrops(phi, f, s, tol);
      var t := Next(phi, f, s);
      NextKeepsInv(phi, f, s);
      if s.x1 == s.x2 || m < t.a || t.b < m {
        Apart(phi, s.a, s.b);
      }
      KeepsMinimiser(phi, f, t, tol, a, b, m);
    }
  }

  /** For a strictly unimodal objective the returned scale is within tol / 2 of the minimiser. */
  lemma ScaleIsNearMinimiser(phi: real, f: real -> real, a: real, b: real, tol: real, m: real)
    requires Golden(phi) && a <= m <= b && tol > 0.0 && Unimodal(f, a, b, m)
    ensures Abs(Mid(Final(phi, f, a, b, tol)) - m) <= tol / 2.0
  {
    hide Low, High, Golden, Unimodal, Search;
    InitInv(phi, f, a, b);
    KeepsMinimiser(phi, f, Init(phi, f, a, b), tol, a, b, m);
  }

  /** The returned scale lies in the bracket the search starts with; for the encoder's bracket it is positive. */
  lemma ScaleInBracket(phi: real, f: real -> real, a: real, b: real, tol: real)
    requires Golden(phi) && a <= b && tol > 0.0
    ensures a <= Mid(Final(phi, f, a, b, tol)) <= b
  {
    hide Low, High, Golden, Search;
    InitInv(phi, f, a, b);
  }

  // ---------------------------------------------------------------- how long a search takes

  /** The golden powers are linear in g = phi - 1. */
  lemma GoldenPowers(g: real)
    requires 0.618 < g < 0.618039 && g * g == 1.0 - g
    ensures Power(g, 10) == 34.0 - 55.0 * g && Power(g, 11) == 89.0 * g - 55.0
  {
    assert Power(g, 2) == 1.0 - g by { assert Power(g, 1) == g * Power(g, 0); }
    assert Power(g, 3) == 2.0 * g - 1.0;
    assert Power(g, 4) == 2.0 - 3.0 * g;
    assert Power(g, 5) == 5.0 * g - 3.0;
    assert Power(g, 6) == 5.0 - 8.0 * g;
    assert Power(g, 7) == 13.0 * g - 8.0;
    assert Power(g, 8) == 13.0 - 21.0 * g;
    assert Power(g, 9) == 34.0 * g - 21.0;
  }

  lemma {:induction false} PowerPositive(g: real, n: nat)
    requires 0.0 < g < 1.0
    ensures 0.0 < Power(g, n)
  {
    if n > 0 {
      PowerPositive(g, n - 1);
      Strictly(Power(g, n - 1), 0.0, g);
    }
  }

  lemma {:induction false} PowerFalls(g: real, k: nat, n: nat)
    requires 0.0 < g < 1.0 && k <= n
    ensures 0.0 < Power(g, n) <= Power(g, k)
  {
    PowerPositive(g, n);
    if k < n {
      PowerFalls(g, k, n - 1);
      var p := Power(g, n - 1);
      Scale(p, g, 1.0);
    }
  }

  /** The encoder's bracket is above its tolerance for ten iterations and not above it after eleven. */
  lemma WidthAfter(phi: real, k: nat)
    requires Golden(phi) && k <= 11
    ensures (HIGH - LOW) * Power(phi - 1.0, k) <= TOLERANCE <==> k == 11
    ensures (HIGH - LOW) * Power(phi - 1.0, k) > 0.0
  {
    GoldenBounds(phi);
    var g := phi - 1.0;
    assert g * g == 1.0 - g by { assert g * g == phi * phi - 2.0 * phi + 1.0; }
    GoldenPowers(g);
    PowerPositive(g, k);
    if k < 11 { PowerFalls(g, k, 10); }
  }

  lemma PowerStep(g: real, k: nat, w: real, v: real)
    requires v == w * Power(g, k)
    ensures g * v == w * Power(g, k + 1)
  {
  }

  lemma {:induction false} CountFrom(phi: real, f: real -> real, s: Bracket, k: nat)
    requires Golden(phi) && Inv(phi, f, s) && k <= 11
    requires s.b - s.a == (HIGH - LOW) * Power(phi - 1.0, k)
    ensures |Candidates(phi, f, s, TOLERANCE)| == 11 - k
    decreases 11 - k
  {
    hide Low, High, Golden, Left;
    WidthAfter(phi, k);
    if k < 11 {
      var t := Next(phi, f, s);
      NextDrops(phi, f, s, TOLERANCE);
      NextKeepsInv(phi, f, s);
      PowerStep(phi - 1.0, k, HIGH - LOW, s.b - s.a);
      CountFrom(phi, f, t, k + 1);
    }
  }

  /** Whatever the objective, the encoder's search makes thirteen evaluations: two first points and eleven
      iterations. */
  lemma ThirteenEvaluations(phi: real, f: real -> real)
    requires Golden(phi)
    ensures |Evaluated(phi, f, LOW, HIGH, TOLERANCE)| == 13
  {
    hide Low, High, Golden;
    InitInv(phi, f, LOW, HIGH);
    CountFrom(phi, f, Init(phi, f, LOW, HIGH), 0);
  }
}

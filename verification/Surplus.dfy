/** The carried-surplus allocator: every layer spends what its budget allows on three fused projections, and what is
    left is carried to the next layer. */
module Surplus {
  import opened Arithmetic

  const PERMUTATIONS: seq<seq<int>> := [[0, 0, 0], [0, 0, 1], [0, 1, 1], [1, 1, 1]]

  /** int(x). */
  function Truncated(x: real): int { if x >= 0.0 then x.Floor else -(-x).Floor }

  /** The bits of the three projections under permutation i. */
  function Bits(i: nat, base: int): (row: seq<int>)
    requires i < 4
    ensures |row| == 3
  {
    seq(3, p requires 0 <= p < 3 => Min(8, PERMUTATIONS[i][p] + base))
  }

  /** The bits a row spends on projections of m weights each. */
  function Spent(row: seq<int>, m: int): int
    requires |row| == 3
  {
    row[0] * m + row[1] * m + row[2] * m
  }

  /** bisect_right of (budget,) in the sorted options: the number of options that spend strictly less. */
  function Below(m: int, base: int, budget: int, n: nat): (count: nat)
    requires n <= 4
    ensures count <= n
  {
    if n == 0 then 0 else Below(m, base, budget, n - 1) + if Spent(Bits(n - 1, base), m) < budget then 1 else 0
  }

  datatype Layer = Layer(row: seq<int>, surplus: int, used: int)

  /** What every layer may spend of its own. */
  function Share(bpw: real, m: int): int { Truncated(bpw * ((3 * m) as real)) + 1 }

  function Budget(bpw: real, m: int, surplus: int): int { Truncated(bpw * ((3 * m) as real)) + surplus + 1 }

  function Base(m: int, budget: int): int
    requires m > 0
  {
    Max(budget / (3 * m), 1)
  }

  function AllocateLayer(bpw: real, m: int, surplus: int): (l: Layer)
    requires m > 0
    ensures |l.row| == 3
  {
    var budget := Budget(bpw, m, surplus);
    var base := Base(m, budget);
    var index := Max(0, Below(m, base, budget, 4) - 1);
    var row := Bits(index, base);
    Layer(row, budget - Spent(row, m), Spent(row, m))
  }

  /** What a layer may spend of its own: the target rate over its three projections, cut off towards zero, and one
      bit. */
  lemma OwnBudget(bpw: real, m: int, surplus: int)
    ensures var own, x := Budget(bpw, m, surplus) - surplus, bpw * ((3 * m) as real);
            if x >= 0.0 then (own - 1) as real <= x < own as real else (own - 2) as real < x <= (own - 1) as real
  {
  }

  /** The four rows of a base below eight, and the one row from eight bits on. */
  lemma RowsAre(base: int)
    ensures base <= 7 ==>
      Bits(0, base) == [base, base, base] && Bits(1, base) == [base, base, base + 1]
      && Bits(2, base) == [base, base + 1, base + 1] && Bits(3, base) == [base + 1, base + 1, base + 1]
    ensures base >= 8 ==> forall i :: 0 <= i < 4 ==> Bits(i, base) == [8, 8, 8]
  {
  }

  // ---------------------------------------------------------------- one layer

  lemma Quotient(b: int, q: int, x: int)
    requires b > 0 && b * q <= x < b * q + b
    ensures x / b == q
  {
    var p := x / b;
    assert b * p <= x < b * p + b;
    Ordered(b, q + 1, p);
    Ordered(b, p + 1, q);
    assert b * (q + 1) == b * q + b && b * (p + 1) == b * p + b;
  }

  /** The options of a base, in rising order of what they spend. */
  lemma OptionsRise(m: int, base: int)
    requires m > 0 && 1 <= base <= 7
    ensures forall i :: 0 <= i < 4 ==> Spent(Bits(i, base), m) == (3 * base + i) * m
    ensures (3 * base) * m < (3 * base + 1) * m < (3 * base + 2) * m < (3 * base + 3) * m
  {
    forall i | 0 <= i < 4 ensures Spent(Bits(i, base), m) == (3 * base + i) * m {
      var row := Bits(i, base);
      assert row[0] + row[1] + row[2] == 3 * base + i;
      assert (row[0] + row[1] + row[2]) * m == row[0] * m + row[1] * m + row[2] * m;
    }
  }

  lemma BelowIs(m: int, base: int, budget: int)
    ensures Below(m, base, budget, 4)
         == (if Spent(Bits(0, base), m) < budget then 1 else 0) + (if Spent(Bits(1, base), m) < budget then 1 else 0)
          + (if Spent(Bits(2, base), m) < budget then 1 else 0) + (if Spent(Bits(3, base), m) < budget then 1 else 0)
  {
    hide Spent, Bits;
    assert Below(m, base, budget, 1) == if Spent(Bits(0, base), m) < budget then 1 else 0;
    assert Below(m, base, budget, 2) == Below(m, base, budget, 1) + if Spent(Bits(1, base), m) < budget then 1 else 0;
    assert Below(m, base, budget, 3) == Below(m, base, budget, 2) + if Spent(Bits(2, base), m) < budget then 1 else 0;
  }

  /** The row chosen from base b, 1 to 7, spends the most of its options that stays strictly below the budget, or the
      least when none does. */
  lemma Chosen(m: int, base: int, budget: int)
    requires m > 0 && 1 <= base <= 7
    ensures var index := Max(0, Below(m, base, budget, 4) - 1); var used := Spent(Bits(index, base), m);
            0 <= index < 4 && used == (3 * base + index) * m
            && (index == 0 || used < budget) && (index == 3 || used + m >= budget)
  {
    OptionsRise(m, base);
    var s0, s1, s2, s3 := (3 * base) * m, (3 * base + 1) * m, (3 * base + 2) * m, (3 * base + 3) * m;
    assert Below(m, base, budget, 4)
        == (if s0 < budget then 1 else 0) + (if s1 < budget then 1 else 0) + (if s2 < budget then 1 else 0)
          + (if s3 < budget then 1 else 0)
      by { BelowIs(m, base, budget); }
    assert s1 == s0 + m && s2 == s1 + m && s3 == s2 + m;
  }

  /** Nothing is lost: what is spent and what is carried on make up the budget. */
  lemma LayerBalance(bpw: real, m: int, surplus: int)
    requires m > 0
    ensures var l := AllocateLayer(bpw, m, surplus); l.used + l.surplus == Share(bpw, m) + surplus
  {
  }

  lemma Division(b: int, x: int, q: int)
    requires b > 0 && q == x / b
    ensures b * q <= x < b * q + b
  {
  }

  lemma QuotientRange(b: int, x: int, q: int)
    requires b > 0 && b * q <= x < b * q + b
    ensures x < b <==> q < 1
    ensures x < 8 * b <==> q < 8
  {
    Ordered(b, 1, q);
    Ordered(b, q, 0);
    Ordered(b, 8, q);
    Ordered(b, q, 7);
  }

  /** The base against the budget. */
  lemma BaseRange(m: int, budget: int)
    requires m > 0
    ensures var base := Base(m, budget);
            (budget < 3 * m ==> base == 1)
            && (3 * m <= budget < 24 * m ==> 1 <= base <= 7 && 3 * base * m <= budget < 3 * base * m + 3 * m)
            && (24 * m <= budget ==> base >= 8)
  {
    var b := 3 * m;
    var q := budget / b;
    Division(b, budget, q);
    QuotientRange(b, budget, q);
    assert 3 * q * m == b * q;
  }

  lemma Capped(m: int, base: int, budget: int)
    requires m > 0 && base >= 8
    ensures forall i :: 0 <= i < 4 ==> Spent(Bits(i, base), m) == 24 * m
  {
  }

  /** What is carried on is between nothing and one projection exactly if the budget is from one bit to 25/3 bits a
      weight. */
  lemma SurplusInRangeIff(bpw: real, m: int, surplus: int)
    requires m > 0
    ensures var l := AllocateLayer(bpw, m, surplus);
            0 <= l.surplus <= m <==> 3 * m <= Budget(bpw, m, surplus) <= 25 * m
  {
    hide Below, Budget, Bits, Spent, Base;
    var budget := Budget(bpw, m, surplus);
    var base := Base(m, budget);
    BaseRange(m, budget);
    if budget < 24 * m {
      Chosen(m, base, budget);
      OptionsRise(m, base);
      var s0 := 3 * base * m;
      assert (3 * base) * m == s0 && (3 * base + 1) * m == s0 + m && (3 * base + 2) * m == s0 + 2 * m
        && (3 * base + 3) * m == s0 + 3 * m;
    } else {
      Capped(m, base, budget);
    }
  }

  // ---------------------------------------------------------------- many layers

  function LayerAt(bpw: real, m: int, i: nat): (l: Layer)
    requires m > 0
    ensures |l.row| == 3
    decreases i, 1
  {
    AllocateLayer(bpw, m, if i == 0 then 0 else LayerAt(bpw, m, i - 1).surplus)
  }

  /** What is carried into layer n. */
  function Carried(bpw: real, m: int, n: nat): int
    requires m > 0
  {
    if n == 0 then 0 else LayerAt(bpw, m, n - 1).surplus
  }

  function TotalUsed(bpw: real, m: int, n: nat): int
    requires m > 0
  {
    if n == 0 then 0 else TotalUsed(bpw, m, n - 1) + LayerAt(bpw, m, n - 1).used
  }

  lemma LayerIs(bpw: real, m: int, i: nat)
    requires m > 0
    ensures LayerAt(bpw, m, i) == AllocateLayer(bpw, m, Carried(bpw, m, i))
  {
  }

  /** Over any number of layers, what is spent and what is left make up the budgets. */
  lemma {:induction false} Conservation(bpw: real, m: int, n: nat)
    requires m > 0
    ensures TotalUsed(bpw, m, n) + Carried(bpw, m, n) == n * Share(bpw, m)
  {
    hide AllocateLayer;
    if n > 0 {
      Conservation(bpw, m, n - 1);
      LayerIs(bpw, m, n - 1);
      LayerBalance(bpw, m, Carried(bpw, m, n - 1));
      var each := Share(bpw, m);
      assert n * each == (n - 1) * each + each;
    }
  }

  lemma CarriedStep(bpw: real, m: int, n: nat)
    requires m > 0
    ensures Carried(bpw, m, n + 1) == AllocateLayer(bpw, m, Carried(bpw, m, n)).surplus
  {
    hide AllocateLayer;
    LayerIs(bpw, m, n);
  }

  lemma NothingCarried(bpw: real, m: int)
    requires m > 0
    ensures Carried(bpw, m, 0) == 0
  {
  }

  lemma BudgetIs(bpw: real, m: int, surplus: int)
    ensures Budget(bpw, m, surplus) == Share(bpw, m) + surplus
  {
  }

  /** Between one and eight bits a weight the carry stays in range. */
  lemma {:induction false} RangeKept(bpw: real, m: int, n: nat)
    requires m > 0 && 3 * m <= Share(bpw, m) <= 24 * m
    ensures 0 <= Carried(bpw, m, n) <= m
  {
    hide AllocateLayer, Carried, Share;
    if n == 0 {
      assert Carried(bpw, m, 0) == 0 by { NothingCarried(bpw, m); }
    } else {
      RangeKept(bpw, m, n - 1);
      CarriedStep(bpw, m, n - 1);
      BudgetIs(bpw, m, Carried(bpw, m, n - 1));
      SurplusInRangeIff(bpw, m, Carried(bpw, m, n - 1));
    }
  }

  /** From eight bits a weight on, a layer spends eight bits on each and carries the rest. */
  lemma Full(bpw: real, m: int, surplus: int)
    requires m > 0 && Share(bpw, m) + surplus >= 24 * m
    ensures AllocateLayer(bpw, m, surplus).surplus == Share(bpw, m) + surplus - 24 * m
  {
    hide Below, Budget, Bits, Spent, Base, Share;
    var budget := Budget(bpw, m, surplus);
    BudgetIs(bpw, m, surplus);
    BaseRange(m, budget);
    Capped(m, Base(m, budget), budget);
  }

  lemma {:induction false} Piled(bpw: real, m: int, n: nat)
    requires m > 0 && Share(bpw, m) >= 24 * m
    ensures Carried(bpw, m, n) == n * (Share(bpw, m) - 24 * m) >= 0
  {
    hide AllocateLayer, Carried, Share;
    if n == 0 {
      NothingCarried(bpw, m);
    } else {
      Piled(bpw, m, n - 1);
      CarriedStep(bpw, m, n - 1);
      Full(bpw, m, Carried(bpw, m, n - 1));
      var rest := Share(bpw, m) - 24 * m;
      assert n * rest == (n - 1) * rest + rest;
    }
  }

  /** The carry of a run of layers stays between nothing and one projection exactly if a layer's own budget is at least
      one bit a weight and what it exceeds eight bits by does not pile up to more than a projection. */
  lemma RunSurplusInRangeIff(bpw: real, m: int, layers: nat)
    requires m > 0
    ensures (forall n: nat :: n <= layers ==> 0 <= Carried(bpw, m, n) <= m)
       <==> layers == 0 || (3 * m <= Share(bpw, m) && layers * (Share(bpw, m) - 24 * m) <= m)
  {
    hide AllocateLayer, Carried, Share;
    var share := Share(bpw, m);
    NothingCarried(bpw, m);
    if layers > 0 {
      if share < 3 * m {
        CarriedStep(bpw, m, 0);
        BudgetIs(bpw, m, 0);
        SurplusInRangeIff(bpw, m, 0);
      } else if share <= 24 * m {
        forall n: nat | n <= layers ensures 0 <= Carried(bpw, m, n) <= m { RangeKept(bpw, m, n); }
        Ordered(layers, share - 24 * m, 0);
      } else {
        forall n: nat | n <= layers ensures 0 <= Carried(bpw, m, n) <= layers * (share - 24 * m) {
          Piled(bpw, m, n);
          Ordered(share - 24 * m, n, layers);
        }
        Piled(bpw, m, layers);
      }
    }
  }

  /** It does so in runs of every length exactly if the own budget is from one to eight bits a weight. */
  lemma AllSurplusInRangeIff(bpw: real, m: int)
    requires m > 0
    ensures (forall n: nat :: 0 <= Carried(bpw, m, n) <= m) <==> 3 * m <= Share(bpw, m) <= 24 * m
  {
    hide AllocateLayer, Carried, Share;
    var share := Share(bpw, m);
    if 3 * m <= share <= 24 * m {
      forall n: nat ensures 0 <= Carried(bpw, m, n) <= m { RangeKept(bpw, m, n); }
    } else {
      RunSurplusInRangeIff(bpw, m, m + 1);
      if share > 24 * m { Ordered(m + 1, 1, share - 24 * m); }
    }
  }

  lemma HalfABitLayer()
    ensures AllocateLayer(0.5, 2, 0).surplus == -2
  {
    assert Budget(0.5, 2, 0) == 4 && Base(2, 4) == 1;
    Chosen(2, 1, 4);
  }

  /** At half a bit a weight a projection of two weights costs more than its layer may spend. */
  lemma HalfABit()
    ensures Carried(0.5, 2, 1) == -2
  {
    hide AllocateLayer;
    CarriedStep(0.5, 2, 0);
    assert AllocateLayer(0.5, 2, 0).surplus == -2 by { HalfABitLayer(); }
  }

  /** How many projections of a row get b bits. */
  function Occurs(row: seq<int>, b: int): (k: nat)
    requires |row| == 3
    ensures k <= 3
  {
    (if row[0] == b then 1 else 0) + (if row[1] == b then 1 else 0) + (if row[2] == b then 1 else 0)
  }

  /** How many projections of the first n layers get b bits. */
  function Groups(bpw: real, m: int, n: nat, b: int): nat
    requires m > 0
  {
    if n == 0 then 0 else Groups(bpw, m, n - 1, b) + Occurs(LayerAt(bpw, m, n - 1).row, b)
  }

  // ---------------------------------------------------------------- the document

  datatype Choice = Choice(layer: nat, expert: nat, projection: nat, bits: int)

  datatype Document = Document(choices: seq<Choice>, rows: seq<Layer>, totalUsed: int, surplus: int, k3: nat, k4: nat)
      | NotHalf

  function Count(choices: seq<Choice>, b: int): nat {
    if choices == [] then 0 else Count(choices[..|choices| - 1], b) + if choices[|choices| - 1].bits == b then 1 else 0
  }

  lemma CountMore(choices: seq<Choice>, c: Choice, b: int)
    ensures Count(choices + [c], b) == Count(choices, b) + if c.bits == b then 1 else 0
  {
    assert (choices + [c])[..|choices|] == choices;
  }

  /** The count is how often the bits occur in the list. */
  lemma {:induction false} CountIs(choices: seq<Choice>, b: int)
    ensures Count(choices, b) == multiset(seq(|choices|, i requires 0 <= i < |choices| => choices[i].bits))[b]
  {
    var bits := seq(|choices|, i requires 0 <= i < |choices| => choices[i].bits);
    if choices != [] {
      var front := choices[..|choices| - 1];
      CountIs(front, b);
      assert bits == seq(|front|, i requires 0 <= i < |front| => front[i].bits) + [choices[|choices| - 1].bits];
    }
  }

  /** Where the document lists projection p of expert e in layer i. */
  function Place(experts: nat, i: nat, e: nat, p: nat): nat {
    3 * (i * experts + e) + p
  }

  lemma PlaceIs(experts: nat, i: nat, e: nat, p: nat)
    requires e < experts && p < 3
    ensures Place(experts, i, e, p) == 3 * i * experts + Place(experts, 0, e, p) < 3 * i * experts + 3 * experts
  {
  }

  lemma PlaceFirst(experts: nat, e: nat, p: nat)
    ensures Place(experts, 0, e, p) == 3 * e + p
  {
  }

  /** The choices of one expert. */
  method AddExpert(choices: seq<Choice>, layer: nat, expert: nat, row: seq<int>) returns (more: seq<Choice>)
    requires |row| == 3
    ensures |more| == |choices| + 3 && (forall b :: Count(more, b) == Count(choices, b) + Occurs(row, b))
    ensures choices <= more && forall p :: 0 <= p < 3 ==> more[|choices| + p] == Choice(layer, expert, p, row[p])
  {
    var c0, c1, c2 := Choice(layer, expert, 0, row[0]), Choice(layer, expert, 1, row[1]),
      Choice(layer, expert, 2, row[2]);
    more := choices + [c0] + [c1] + [c2];
    forall b ensures Count(more, b) == Count(choices, b) + Occurs(row, b) {
      CountMore(choices, c0, b);
      CountMore(choices + [c0], c1, b);
      CountMore(choices + [c0] + [c1], c2, b);
    }
  }

  lemma OneMoreExpert(start: int, e: int, k: int)
    ensures start + e * k + k == start + (e + 1) * k
  {
  }

  /** Every expert of a layer gets the layer's row. */
  method AddLayer(choices: seq<Choice>, layer: nat, experts: nat, row: seq<int>) returns (more: seq<Choice>)
    requires |row| == 3
    ensures |more| == |choices| + 3 * experts
    ensures forall b :: Count(more, b) == Count(choices, b) + experts * Occurs(row, b)
    ensures choices <= more
    ensures forall e, p :: 0 <= e < experts && 0 <= p < 3 ==>
      more[|choices| + Place(experts, 0, e, p)] == Choice(layer, e, p, row[p])
  {
    hide Count, Place, Occurs;
    forall e: nat, p: nat ensures Place(experts, 0, e, p) == 3 * e + p { PlaceFirst(experts, e, p); }
    more := choices;
    for e := 0 to experts
      invariant |more| == |choices| + 3 * e
      invariant forall b :: Count(more, b) == Count(choices, b) + e * Occurs(row, b)
      invariant choices <= more
      invariant forall x, p :: 0 <= x < e && 0 <= p < 3 ==>
        more[|choices| + Place(experts, 0, x, p)] == Choice(layer, x, p, row[p])
    {
      ghost var before := more;
      more := AddExpert(more, layer, e, row);
      forall b ensures Count(more, b) == Count(choices, b) + (e + 1) * Occurs(row, b) {
        OneMoreExpert(Count(choices, b), e, Occurs(row, b));
        assert Count(more, b) == Count(before, b) + Occurs(row, b);
      }
    }
  }

  /** Half of the units have three bits and half have four. */
  ghost predicate Half(bpw: real, m: int, layers: nat, experts: nat, units: nat)
    requires m > 0
  {
    experts * Groups(bpw, m, layers, 3) == units / 2 && experts * Groups(bpw, m, layers, 4) == units / 2
  }

  /** Every expert's projections of the first n layers, each with its layer's bits. */
  ghost predicate ChoicesUpTo(bpw: real, m: int, n: nat, experts: nat, choices: seq<Choice>)
    requires m > 0
  {
    && |choices| == 3 * n * experts
    && (forall b :: Count(choices, b) == experts * Groups(bpw, m, n, b))
    && (forall i, e, p :: 0 <= i < n && 0 <= e < experts && 0 <= p < 3 ==>
          Place(experts, i, e, p) < |choices|
            && choices[Place(experts, i, e, p)] == Choice(i, e, p, LayerAt(bpw, m, i).row[p]))
  }

  lemma PlaceOf(experts: nat, n: nat, x: nat)
    requires experts > 0 && x < 3 * n * experts
    ensures x / 3 / experts < n && x / 3 % experts < experts
      && Place(experts, x / 3 / experts, x / 3 % experts, x % 3) == x
  {
    var y := x / 3;
    var i, e := y / experts, y % experts;
    assert y == experts * i + e && y < n * experts;
    if i >= n { Ordered(experts, n, i); }
  }

  lemma ChoiceAt(bpw: real, m: int, n: nat, experts: nat, choices: seq<Choice>, i: nat, e: nat, p: nat)
    requires m > 0 && ChoicesUpTo(bpw, m, n, experts, choices) && i < n && e < experts && p < 3
    ensures |choices| == 3 * n * experts && Place(experts, i, e, p) < |choices|
    ensures choices[Place(experts, i, e, p)] == Choice(i, e, p, LayerAt(bpw, m, i).row[p])
  {
    hide LayerAt, Groups, Count, Place;
  }

  /** The order of the document: layer, then expert, then projection. */
  lemma ListedInOrder(bpw: real, m: int, n: nat, experts: nat, choices: seq<Choice>, x: nat)
    requires m > 0 && experts > 0 && ChoicesUpTo(bpw, m, n, experts, choices) && x < 3 * n * experts
    ensures x / 3 / experts < n && x < |choices| == 3 * n * experts
    ensures choices[x] ==
      Choice(x / 3 / experts, x / 3 % experts, x % 3, LayerAt(bpw, m, x / 3 / experts).row[x % 3])
  {
    hide LayerAt, ChoicesUpTo, Place;
    PlaceOf(experts, n, x);
    ChoiceAt(bpw, m, n, experts, choices, x / 3 / experts, x / 3 % experts, x % 3);
  }

  lemma Spread(m: int, x: int, y: int)
    ensures m * (x + y) == m * x + m * y
  {
  }

  method NextLayer(bpw: real, m: int, n: nat, experts: nat, choices: seq<Choice>, row: seq<int>)
      returns (more: seq<Choice>)
    requires m > 0 && ChoicesUpTo(bpw, m, n, experts, choices) && row == LayerAt(bpw, m, n).row
    ensures ChoicesUpTo(bpw, m, n + 1, experts, more)
  {
    hide LayerAt, Occurs, Count, Place;
    more := AddLayer(choices, n, experts, row);
    assert 3 * (n + 1) * experts == 3 * n * experts + 3 * experts;
    forall b ensures Count(more, b) == experts * Groups(bpw, m, n + 1, b) {
      Spread(experts, Groups(bpw, m, n, b), Occurs(row, b));
    }
    forall e, p | 0 <= e < experts && 0 <= p < 3
      ensures Place(experts, n, e, p) < |more| && more[Place(experts, n, e, p)] == Choice(n, e, p, row[p])
    {
      PlaceIs(experts, n, e, p);
      assert more[|choices| + Place(experts, 0, e, p)] == Choice(n, e, p, row[p]);
    }
  }

  lemma NoChoices(bpw: real, m: int, experts: nat)
    requires m > 0
    ensures ChoicesUpTo(bpw, m, 0, experts, [])
  {
  }

  lemma AllChosen(bpw: real, m: int, n: nat, experts: nat, choices: seq<Choice>)
    requires m > 0 && ChoicesUpTo(bpw, m, n, experts, choices)
    ensures |choices| == 3 * n * experts
    ensures Count(choices, 3) == experts * Groups(bpw, m, n, 3) && Count(choices, 4) == experts * Groups(bpw, m, n, 4)
  {
  }

  /** The document: every layer in turn, then the closing check. */
  method Build(layers: nat, experts: nat, matrixNumel: nat, bpw: real) returns (d: Document)
    requires layers >= 1 && experts >= 1 && matrixNumel >= 1
    ensures var m := matrixNumel * experts; m > 0
    ensures var m, units := matrixNumel * experts, 3 * layers * experts;
            d.NotHalf? <==> (bpw == 3.5 && layers % 2 == 0 && !Half(bpw, m, layers, experts, units))
    ensures var m := matrixNumel * experts;
            d.Document? ==>
              (&& ChoicesUpTo(bpw, m, layers, experts, d.choices)
               && |d.rows| == layers && (forall i :: 0 <= i < layers ==> d.rows[i] == LayerAt(bpw, m, i))
               && d.totalUsed == TotalUsed(bpw, m, layers) && d.surplus == Carried(bpw, m, layers)
               && d.k3 == Count(d.choices, 3) && d.k4 == Count(d.choices, 4))
  {
    hide AllocateLayer, LayerAt, Count, ChoicesUpTo, Groups;
    var m := matrixNumel * experts;
    assert m > 0;
    var surplus, choices, rows, totalUsed := 0, [], [], 0;
    NoChoices(bpw, m, experts);
    for layer := 0 to layers
      invariant surplus == Carried(bpw, m, layer) && totalUsed == TotalUsed(bpw, m, layer)
      invariant |rows| == layer && forall i :: 0 <= i < layer ==> rows[i] == LayerAt(bpw, m, i)
      invariant ChoicesUpTo(bpw, m, layer, experts, choices)
    {
      LayerIs(bpw, m, layer);
      var l := AllocateLayer(bpw, m, surplus);
      choices := NextLayer(bpw, m, layer, experts, choices, l.row);
      rows, surplus, totalUsed := rows + [l], l.surplus, totalUsed + l.used;
    }
    var k3, k4, units := Count(choices, 3), Count(choices, 4), |choices|;
    AllChosen(bpw, m, layers, experts, choices);
    if bpw == 3.5 && layers % 2 == 0 && (k3 != units / 2 || k4 != units / 2) {
      return NotHalf;
    }
    d := Document(choices, rows, totalUsed, surplus, k3, k4);
  }

  // ---------------------------------------------------------------- three and a half bits

  /** What every layer may spend of its own at 3.5 bits. */
  function Own(m: int): int { 21 * m / 2 + 1 }

  lemma BudgetAt(m: int, surplus: int)
    requires m > 0
    ensures Budget(3.5, m, surplus) == Own(m) + surplus
  {
    var x := 3.5 * ((3 * m) as real);
    var q := 21 * m / 2;
    assert q as real <= x < (q + 1) as real;
  }

  lemma BaseIs(m: int, budget: int, q: int)
    requires m > 0 && q >= 1 && budget / (3 * m) == q
    ensures Base(m, budget) == q
  {
  }

  lemma RowsOfThree()
    ensures Bits(0, 3) == [3, 3, 3] && Bits(1, 3) == [3, 3, 4] && Bits(2, 3) == [3, 4, 4] && Bits(3, 3) == [4, 4, 4]
  {
  }

  /** With three weights or more a layer spends on one or two four-bit projections and carries on between one bit and a
      projection. */
  lemma Steady(m: int, surplus: int)
    requires m >= 3 && 0 <= surplus <= m
    ensures var l := AllocateLayer(3.5, m, surplus);
            l.row == (if 11 * m < Own(m) + surplus then [3, 4, 4] else [3, 3, 4])
            && l.used == (if 11 * m < Own(m) + surplus then 11 * m else 10 * m)
            && l.used + l.surplus == Own(m) + surplus && 1 <= l.surplus <= m
  {
    hide Below, Bits, Spent, Budget, Base;
    var budget := Own(m) + surplus;
    BudgetAt(m, surplus);
    assert 9 * m < 10 * m < budget < 12 * m;
    Quotient(3 * m, 3, budget);
    assert Base(m, budget) == 3 by { BaseIs(m, budget, 3); }
    Chosen(m, 3, budget);
    RowsOfThree();
    var index := Max(0, Below(m, 3, budget, 4) - 1);
    assert Spent(Bits(index, 3), m) == (9 + index) * m == 9 * m + index * m;
  }

  /** Over n layers: what is carried stays in range, and every row is K3/K3/K4 or K3/K4/K4. */
  lemma {:induction false} SteadyRun(m: int, n: nat)
    requires m >= 3
    ensures 0 <= Carried(3.5, m, n) <= m && (n > 0 ==> 1 <= Carried(3.5, m, n))
    ensures n > 0 ==> 0 <= Carried(3.5, m, n - 1) <= m
  {
    hide AllocateLayer;
    if n > 0 {
      SteadyRun(m, n - 1);
      LayerIs(3.5, m, n - 1);
      Steady(m, Carried(3.5, m, n - 1));
    }
  }

  /** What layer i spends counts its four-bit projections. */
  lemma LayerCounts(m: int, i: nat)
    requires m >= 3
    ensures var l := LayerAt(3.5, m, i);
            l.row in {[3, 3, 4], [3, 4, 4]} && Occurs(l.row, 3) + Occurs(l.row, 4) == 3
              && l.used == 9 * m + m * Occurs(l.row, 4)
  {
    hide AllocateLayer;
    SteadyRun(m, i);
    LayerIs(3.5, m, i);
    Steady(m, Carried(3.5, m, i));
    assert Occurs([3, 3, 4], 3) == 2 && Occurs([3, 3, 4], 4) == 1 && Occurs([3, 4, 4], 3) == 1
      && Occurs([3, 4, 4], 4) == 2;
  }

  lemma {:induction false} RunCounts(m: int, n: nat)
    requires m >= 3
    ensures Groups(3.5, m, n, 3) + Groups(3.5, m, n, 4) == 3 * n
    ensures TotalUsed(3.5, m, n) == 9 * m * n + m * Groups(3.5, m, n, 4)
  {
    hide LayerAt, Occurs;
    if n > 0 {
      RunCounts(m, n - 1);
      LayerCounts(m, n - 1);
      Spread(m, Groups(3.5, m, n - 1, 4), Occurs(LayerAt(3.5, m, n - 1).row, 4));
      Spread(9 * m, n - 1, 1);
    }
  }

  /** A multiple of m strictly between -m and m is zero. */
  lemma NoMultiple(m: int, q: int)
    requires m > 0 && -m < m * q < m
    ensures q == 0
  {
    Ordered(m, 1, q);
    Ordered(m, q, -1);
  }

  /** What every two layers' own bits leave over half bits a weight. */
  function Left(m: int, p: nat): nat { if m % 2 == 0 then 2 * p else p }

  lemma OwnTimes(m: int, p: int)
    ensures 2 * p * Own(m) == 21 * m * p + if m % 2 == 0 then 2 * p else p
  {
    var h := m / 2;
    if m % 2 == 0 {
      assert Own(m) == 21 * h + 1 && m == 2 * h;
      assert 2 * p * (21 * h + 1) == 42 * (p * h) + 2 * p && 21 * (2 * h) * p == 42 * (p * h);
    } else {
      assert m == 2 * h + 1 && Own(m) == 21 * h + 11;
      assert 2 * p * (21 * h + 11) == 42 * (p * h) + 22 * p && 21 * (2 * h + 1) * p == 42 * (p * h) + 21 * p;
    }
  }

  lemma Regroup(m: int, p: int)
    ensures 9 * m * (2 * p) == 18 * m * p && m * (3 * p) == 3 * m * p
  {
  }

  lemma CarryEquation(m: int, p: nat)
    requires m >= 3
    ensures m * (Groups(3.5, m, 2 * p, 4) - 3 * p) == Left(m, p) - Carried(3.5, m, 2 * p)
  {
    hide Groups, TotalUsed, Carried;
    var n := 2 * p;
    var g, s := Groups(3.5, m, n, 4), Carried(3.5, m, n);
    RunCounts(m, n);
    Conservation(3.5, m, n);
    BudgetAt(m, 0);
    OwnTimes(m, p);
    Regroup(m, p);
    Spread(m, g - 3 * p, 3 * p);
  }

  lemma Decide(m: int, q: int, left: int, s: int)
    requires m > 0 && m * q == left - s && 1 <= s <= m && left >= 1
    ensures (q == 0 <==> s == left) && (left <= m ==> q == 0)
  {
    if left <= m || left == s { NoMultiple(m, q); }
  }

  /** Half of the projections have four bits exactly if all that was left over is still carried, which it is up to one
      projection. */
  lemma HalfByCarry(m: int, p: nat)
    requires m >= 3 && p > 0
    ensures Groups(3.5, m, 2 * p, 4) == 3 * p <==> Carried(3.5, m, 2 * p) == Left(m, p)
    ensures Left(m, p) <= m ==> Groups(3.5, m, 2 * p, 4) == 3 * p
  {
    hide Groups, Carried;
    CarryEquation(m, p);
    SteadyRun(m, 2 * p);
    Decide(m, Groups(3.5, m, 2 * p, 4) - 3 * p, Left(m, p), Carried(3.5, m, 2 * p));
  }

  lemma FourBits()
    ensures Bits(0, 4) == [4, 4, 4]
  {
  }

  lemma TinyLayers(m: int)
    requires 1 <= m <= 2
    ensures AllocateLayer(3.5, m, 0) == Layer([3, 3, 4], m, 10 * m)
    ensures AllocateLayer(3.5, m, m) == Layer([4, 4, 4], 0, 12 * m)
  {
    hide Below, Bits, Spent, Budget;
    BudgetAt(m, 0);
    BudgetAt(m, m);
    assert Own(m) == 11 * m;
    Quotient(3 * m, 3, 11 * m);
    Quotient(3 * m, 4, 12 * m);
    BaseIs(m, 11 * m, 3);
    BaseIs(m, 12 * m, 4);
    Chosen(m, 3, 11 * m);
    Chosen(m, 4, 12 * m);
    RowsOfThree();
    assert Bits(0, 4) == [4, 4, 4] by { FourBits(); }
  }

  /** With one weight or two, every second layer spends twelve bits a weight triple and nothing is carried on. */
  lemma {:induction false} Tiny(m: int, p: nat)
    requires 1 <= m <= 2
    ensures Carried(3.5, m, 2 * p) == 0 && Groups(3.5, m, 2 * p, 4) == 4 * p
  {
    hide AllocateLayer, LayerAt;
    if p > 0 {
      Tiny(m, p - 1);
      var i := 2 * p - 2;
      TinyLayers(m);
      LayerIs(3.5, m, i);
      LayerIs(3.5, m, i + 1);
      assert Carried(3.5, m, i + 1) == m;
      assert Occurs([3, 3, 4], 4) == 1 && Occurs([4, 4, 4], 4) == 3;
      assert Groups(3.5, m, i + 1, 4) == Groups(3.5, m, i, 4) + 1;
    }
  }

  /** The size up to which the carried single bits have not made up a projection. */
  function Reach(m: int): int { if m % 2 == 0 then m else 2 * m }

  lemma Halved(n: int, e: int, p: int)
    requires n == 2 * p
    ensures 3 * n * e / 2 == e * (3 * p)
  {
    assert 3 * n * e == 2 * (e * (3 * p));
  }

  lemma Same(e: int, x: int, y: int)
    requires e >= 1
    ensures e * x == e * y <==> x == y
  {
    Ordered(e, x + 1, y);
    Ordered(e, y + 1, x);
    Spread(e, x, 1);
    Spread(e, y, 1);
  }

  /** At 3.5 bits and an even number of layers the closing check passes if and only if a fused projection has at least
      three weights and there are no more layers than its reach. */
  lemma ClosingCheckIff(m: int, layers: nat, experts: nat)
    requires m > 0 && experts >= 1 && layers > 0 && layers % 2 == 0
    ensures Half(3.5, m, layers, experts, 3 * layers * experts) <==> m >= 3 && layers <= Reach(m)
  {
    hide Groups;
    var p := layers / 2;
    var g := Groups(3.5, m, layers, 4);
    assert 3 * layers * experts / 2 == experts * (3 * p) by { Halved(layers, experts, p); }
    Same(experts, g, 3 * p);
    Same(experts, Groups(3.5, m, layers, 3), 3 * p);
    if m < 3 {
      Tiny(m, p);
    } else {
      HalfByCarry(m, p);
      SteadyRun(m, layers);
      RunCounts(m, layers);
    }
  }

  /** Two layers of two weights a fused projection: one layer less than half a projection, and the check fires. */
  lemma TwoLayersOfTwoWeights()
    ensures !Half(3.5, 2, 2, 1, 6) && 2 - 1 <= 2 / 2
  {
    ClosingCheckIff(2, 2, 1);
  }

  ghost predicate PairAt(m: int, t: nat)
    requires m > 0
  {
    LayerAt(3.5, m, 2 * t).row == [3, 3, 4] && LayerAt(3.5, m, 2 * t + 1).row == [3, 4, 4]
  }

  /** Layers 2t and 2t + 1 get K3/K3/K4 and K3/K4/K4. */
  ghost predicate Alternates(m: int, layers: nat)
    requires m > 0
  {
    forall t :: 0 <= t && 2 * t + 1 < layers ==> PairAt(m, t)
  }

  lemma PairCarries(h: int, t: nat)
    requires h >= 2 && 2 * t + 1 <= h && Carried(3.5, 2 * h, 2 * t) == 2 * t
    ensures Carried(3.5, 2 * h, 2 * t + 2) == 2 * t + 2 && PairAt(2 * h, t)
  {
    hide AllocateLayer, LayerAt;
    var m := 2 * h;
    LayerIs(3.5, m, 2 * t);
    Steady(m, 2 * t);
    assert Own(m) == 21 * h + 1;
    assert Carried(3.5, m, 2 * t + 1) == h + 1 + 2 * t;
    LayerIs(3.5, m, 2 * t + 1);
    Steady(m, h + 1 + 2 * t);
  }

  /** While 2t + 1 is at most half a projection, 2t bits are carried into pair t. */
  lemma {:induction false} PairRun(h: int, t: nat)
    requires h >= 2 && (t > 0 ==> 2 * t - 1 <= h)
    ensures Carried(3.5, 2 * h, 2 * t) == 2 * t
    ensures LayerAt(3.5, 2 * h, 2 * t).row == [3, 3, 4] <==> 2 * t + 1 <= h
    ensures 2 * t + 1 <= h ==> PairAt(2 * h, t)
  {
    hide AllocateLayer, LayerAt;
    var m := 2 * h;
    if t > 0 {
      PairRun(h, t - 1);
      PairCarries(h, t - 1);
    }
    LayerIs(3.5, m, 2 * t);
    Steady(m, 2 * t);
    if 2 * t + 1 <= h { PairCarries(h, t); }
  }

  lemma PairsAlternate(h: int, layers: nat)
    requires h >= 2 && layers - 1 <= h
    ensures Alternates(2 * h, layers)
  {
    hide PairAt;
    forall t | 0 <= t && 2 * t + 1 < layers ensures PairAt(2 * h, t) { PairRun(h, t); }
  }

  lemma PairsBreak(h: int, layers: nat)
    requires h >= 2 && layers - 1 > h && layers % 2 == 0
    ensures !Alternates(2 * h, layers)
  {
    hide LayerAt, Carried;
    var t := (h + 1) / 2;
    PairRun(h, t);
    assert !PairAt(2 * h, t);
  }

  /** For an even projection of at least four weights, the rows of an even number of layers alternate if and only if
      there is at most one layer more than half a projection has weights; the check then passes. */
  lemma AlternatesIff(m: int, layers: nat, experts: nat)
    requires m >= 4 && m % 2 == 0 && experts >= 1 && layers > 0 && layers % 2 == 0
    ensures Alternates(m, layers) <==> layers - 1 <= m / 2
    ensures layers - 1 <= m / 2 ==> Half(3.5, m, layers, experts, 3 * layers * experts)
  {
    hide PairAt, Half, Alternates;
    var h := m / 2;
    if layers - 1 <= h {
      PairsAlternate(h, layers);
      ClosingCheckIff(m, layers, experts);
    } else {
      PairsBreak(h, layers);
    }
  }
}

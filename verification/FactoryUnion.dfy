/** Greedy selection of whole layers from a challenger factory, on a model whose weights are changed in place. */
module FactoryUnion {
  import opened Sums
  import opened Sorting

  // ---------------------------------------------------------------- the model

  /** The expert weights of a layer. */
  datatype Weights<P> = Weights(gateUp: seq<P>, down: seq<P>)

  class Layer<P(!new)> {
    const gateUp: array<P>
    const down: array<P>

    constructor (gateUp: array<P>, down: array<P>)
      ensures this.gateUp == gateUp && this.down == down
    {
      this.gateUp, this.down := gateUp, down;
    }

    ghost function Arrays(): set<object> { {gateUp, down} }

    ghost function Content(): Weights<P>
      reads gateUp, down
    {
      Weights(gateUp[..], down[..])
    }
  }

  ghost function Arrays<P(!new)>(model: seq<Layer<P>>): set<object> {
    (set l | l in model :: l.gateUp as object) + (set l | l in model :: l.down as object)
  }

  /** Every tensor belongs to one layer. */
  ghost predicate Separate<P(!new)>(model: seq<Layer<P>>) {
    && (forall i :: 0 <= i < |model| ==> model[i].gateUp != model[i].down)
    && (forall i, j :: 0 <= i < |model| && 0 <= j < |model| && i != j ==> model[i].Arrays() !! model[j].Arrays())
  }

  ghost function StateOf<P(!new)>(model: seq<Layer<P>>): (s: seq<Weights<P>>)
    reads Arrays(model)
    ensures |s| == |model|
    ensures forall i :: 0 <= i < |model| ==> s[i] == model[i].Content()
  {
    seq(|model|, i requires 0 <= i < |model| reads Arrays(model) => model[i].Content())
  }

  ghost predicate Fits<P(!new)>(model: seq<Layer<P>>, l: int, w: Weights<P>) {
    0 <= l < |model| && |w.gateUp| == model[l].gateUp.Length && |w.down| == model[l].down.Length
  }

  /** One set of weights for every layer. */
  ghost predicate FitsAll<P(!new)>(model: seq<Layer<P>>, all: seq<Weights<P>>) {
    |all| == |model| && forall l :: 0 <= l < |model| ==> Fits(model, l, all[l])
  }

  method Copy<P>(dst: array<P>, src: seq<P>)
    requires |src| == dst.Length
    modifies dst
    ensures dst[..] == src
  {
    forall i | 0 <= i < dst.Length { dst[i] := src[i]; }
  }

  /** Installing or restoring a layer copies into its two tensors and touches no other layer. */
  method Install<P(!new)>(model: seq<Layer<P>>, l: int, w: Weights<P>)
    requires Separate(model) && Fits(model, l, w)
    modifies model[l].gateUp, model[l].down
    ensures StateOf(model) == old(StateOf(model))[l := w]
  {
    ghost var s := StateOf(model);
    Copy(model[l].gateUp, w.gateUp);
    Copy(model[l].down, w.down);
    forall i | 0 <= i < |model| && i != l ensures model[i].Content() == s[i] {
      assert model[i].Arrays() !! model[l].Arrays();
    }
  }

  method Snapshot<P(!new)>(model: seq<Layer<P>>, l: int) returns (w: Weights<P>)
    requires 0 <= l < |model|
    ensures w == StateOf(model)[l] && Fits(model, l, w)
  {
    w := Weights(model[l].gateUp[..], model[l].down[..]);
  }

  // ---------------------------------------------------------------- scores

  /** A deterministic evaluator: the divergence of every token of the selection row, and what the validation rows
      give. */
  datatype Evaluator<!P, !V> = Evaluator(tokens: nat, token: seq<Weights<P>> -> seq<real>,
      validate: seq<Weights<P>> -> V)

  ghost predicate Lawful<P(!new), V(!new)>(E: Evaluator<P, V>) {
    E.tokens > 0 && forall s :: |E.token(s)| == E.tokens
  }

  function Minus(x: seq<real>, y: seq<real>): (d: seq<real>)
    requires |x| == |y|
    ensures |d| == |x|
  {
    seq(|x|, i requires 0 <= i < |x| => x[i] - y[i])
  }

  lemma DivideMinus(a: real, b: real, m: real)
    requires m > 0.0
    ensures (a - b) / m == a / m - b / m
  {
    var x, y := a / m, b / m;
    assert (x - y) * m == a - b;
  }

  /** The mean of differences is the difference of means. */
  lemma MeanMinus(x: seq<real>, y: seq<real>)
    requires |x| == |y| > 0
    ensures Mean(Minus(x, y)) == Mean(x) - Mean(y)
  {
    hide Sum;
    var n, d := |x|, Minus(x, y);
    var negated := i => -1.0 * AsVector(y)(i);
    SumTimes(0, n, -1.0, AsVector(y));
    SumPlus(0, n, AsVector(x), negated);
    SumExt(0, n, AsVector(d), i => AsVector(x)(i) + negated(i));
    var a, b, m := Sum(0, n, AsVector(x)), Sum(0, n, AsVector(y)), n as real;
    DivideMinus(a, b, m);
  }

  /** The baseline with the layers of sel from the challenger. */
  function Overlay<P>(base: seq<Weights<P>>, chal: seq<Weights<P>>, sel: set<int>): (s: seq<Weights<P>>)
    requires |chal| == |base|
    ensures |s| == |base|
  {
    seq(|base|, i requires 0 <= i < |base| => if i in sel then chal[i] else base[i])
  }

  function Score<P(!new), V(!new)>(E: Evaluator<P, V>, base: seq<Weights<P>>, chal: seq<Weights<P>>,
                                   sel: set<int>): real
    requires Lawful(E) && |chal| == |base|
  {
    Mean(E.token(Overlay(base, chal, sel)))
  }

  /** A score is the mean divergence of the model that has the challenger's weights in the layers of sel and the
      baseline's elsewhere. */
  lemma ScoreIsMean<P(!new), V(!new)>(E: Evaluator<P, V>, base: seq<Weights<P>>, chal: seq<Weights<P>>, sel: set<int>,
                                      state: seq<Weights<P>>)
    requires Lawful(E) && |chal| == |base| == |state|
    requires forall i :: 0 <= i < |base| ==> state[i] == if i in sel then chal[i] else base[i]
    ensures Score(E, base, chal, sel) * (E.tokens as real)
      == Sum(0, E.tokens, i => if 0 <= i < |E.token(state)| then E.token(state)[i] else 0.0)
  {
    hide Sum;
    assert state == Overlay(base, chal, sel);
    var x := E.token(state);
    SumExt(0, |x|, AsVector(x), i => if 0 <= i < |x| then x[i] else 0.0);
    var s, n := Sum(0, |x|, AsVector(x)), |x| as real;
    assert s / n * n == s;
  }

  /** One layer's swap on its own. */
  datatype Swap = Swap(layer: int, mean: real, delta: real, improves: bool)

  function SwapOf<P(!new), V(!new)>(E: Evaluator<P, V>, base: seq<Weights<P>>, chal: seq<Weights<P>>, l: int): Swap
    requires Lawful(E) && |chal| == |base|
  {
    var token := E.token(Overlay(base, chal, {l}));
    var delta := Mean(Minus(token, E.token(base)));
    Swap(l, Mean(token), delta, delta < 0.0)
  }

  /** The sort key of the greedy order. */
  predicate SwapLess(a: Swap, b: Swap) {
    a.delta < b.delta || (a.delta == b.delta && a.layer < b.layer)
  }

  function Swaps<P(!new), V(!new)>(E: Evaluator<P, V>, base: seq<Weights<P>>, chal: seq<Weights<P>>): (r: seq<Swap>)
    requires Lawful(E) && |chal| == |base|
    ensures |r| == |base|
  {
    seq(|base|, l requires 0 <= l < |base| => SwapOf(E, base, chal, l))
  }

  /** The layers accepted by the first n steps of the greedy loop, in order. */
  function Chosen<P(!new), V(!new)>(E: Evaluator<P, V>, base: seq<Weights<P>>, chal: seq<Weights<P>>, ranked: seq<Swap>,
                                    n: nat): (sel: seq<int>)
    requires Lawful(E) && |chal| == |base| && n <= |ranked|
  {
    if n == 0 then [] else
      var sel, c := Chosen(E, base, chal, ranked, n - 1), ranked[n - 1];
      if c.improves && Score(E, base, chal, Elements(sel) + {c.layer}) < Score(E, base, chal, Elements(sel))
      then sel + [c.layer] else sel
  }

  lemma OverlayNone<P>(base: seq<Weights<P>>, chal: seq<Weights<P>>)
    requires |chal| == |base|
    ensures Overlay(base, chal, {}) == base
  {
  }

  /** Putting one more layer in and taking it out again. */
  lemma OverlayStep<P>(base: seq<Weights<P>>, chal: seq<Weights<P>>, sel: set<int>, l: int)
    requires |chal| == |base| && 0 <= l < |base| && l !in sel
    ensures Overlay(base, chal, sel)[l := chal[l]] == Overlay(base, chal, sel + {l})
    ensures Overlay(base, chal, sel + {l})[l := base[l]] == Overlay(base, chal, sel)
    ensures Overlay(base, chal, sel)[l] == base[l]
  {
  }

  // ---------------------------------------------------------------- properties of the selection

  /** Every accepted layer makes the mean strictly smaller; a rejected one leaves it. */
  lemma StepsDown<P(!new), V(!new)>(E: Evaluator<P, V>, base: seq<Weights<P>>, chal: seq<Weights<P>>, ranked: seq<Swap>,
                                    n: nat)
    requires Lawful(E) && |chal| == |base| && n < |ranked|
    ensures var sel, next := Chosen(E, base, chal, ranked, n), Chosen(E, base, chal, ranked, n + 1);
            next == sel
            || (next == sel + [ranked[n].layer] && ranked[n].improves
                && Score(E, base, chal, Elements(next)) < Score(E, base, chal, Elements(sel)))
  {
    var sel := Chosen(E, base, chal, ranked, n);
    assert Elements(sel + [ranked[n].layer]) == Elements(sel) + {ranked[n].layer};
  }

  lemma {:induction false} NeverUp<P(!new), V(!new)>(E: Evaluator<P, V>, base: seq<Weights<P>>, chal: seq<Weights<P>>,
                                                     ranked: seq<Swap>, m: nat, n: nat)
    requires Lawful(E) && |chal| == |base| && m <= n <= |ranked|
    ensures Score(E, base, chal, Elements(Chosen(E, base, chal, ranked, n)))
         <= Score(E, base, chal, Elements(Chosen(E, base, chal, ranked, m)))
    decreases n
  {
    hide Chosen, Score;
    if m < n {
      NeverUp(E, base, chal, ranked, m, n - 1);
      StepsDown(E, base, chal, ranked, n - 1);
    }
  }

  /** The layers of a selection that are ranked before position n. */
  ghost function Earlier(ranked: seq<Swap>, selected: seq<int>, n: nat): set<int>
    requires n <= |ranked|
  {
    set m | 0 <= m < n && ranked[m].layer in selected :: ranked[m].layer
  }

  ghost predicate LayersOnce(ranked: seq<Swap>) {
    forall i, j :: 0 <= i < j < |ranked| ==> ranked[i].layer != ranked[j].layer
  }

  /** Step m of the loop accepts its layer. */
  ghost predicate Accepts<P(!new), V(!new)>(E: Evaluator<P, V>, base: seq<Weights<P>>, chal: seq<Weights<P>>,
                                            ranked: seq<Swap>, m: nat)
    requires Lawful(E) && |chal| == |base| && m < |ranked|
  {
    var sel := Elements(Chosen(E, base, chal, ranked, m));
    ranked[m].improves && Score(E, base, chal, sel + {ranked[m].layer}) < Score(E, base, chal, sel)
  }

  lemma NoneChosen<P(!new), V(!new)>(E: Evaluator<P, V>, base: seq<Weights<P>>, chal: seq<Weights<P>>,
                                     ranked: seq<Swap>)
    requires Lawful(E) && |chal| == |base|
    ensures Chosen(E, base, chal, ranked, 0) == []
  {
  }

  lemma ChosenStep<P(!new), V(!new)>(E: Evaluator<P, V>, base: seq<Weights<P>>, chal: seq<Weights<P>>,
                                     ranked: seq<Swap>, m: nat)
    requires Lawful(E) && |chal| == |base| && m < |ranked|
    ensures Chosen(E, base, chal, ranked, m + 1)
      == Chosen(E, base, chal, ranked, m) + if Accepts(E, base, chal, ranked, m) then [ranked[m].layer] else []
  {
    hide Score;
  }

  /** The positions, rising, of the layers chosen by the first n steps. */
  lemma {:induction false} ChosenAt<P(!new), V(!new)>(E: Evaluator<P, V>, base: seq<Weights<P>>, chal: seq<Weights<P>>,
                                                      ranked: seq<Swap>, n: nat) returns (at: seq<nat>)
    requires Lawful(E) && |chal| == |base| && n <= |ranked|
    ensures var sel := Chosen(E, base, chal, ranked, n);
            |at| == |sel| && forall i :: 0 <= i < |at| ==> at[i] < n && ranked[at[i]].layer == sel[i]
    ensures forall i, j :: 0 <= i < j < |at| ==> at[i] < at[j]
    ensures forall m: nat :: m in at <==> m < n && Accepts(E, base, chal, ranked, m)
  {
    hide Chosen, Accepts;
    if n == 0 {
      at := [];
      NoneChosen(E, base, chal, ranked);
    } else {
      at := ChosenAt(E, base, chal, ranked, n - 1);
      ChosenStep(E, base, chal, ranked, n - 1);
      if Accepts(E, base, chal, ranked, n - 1) { at := at + [n - 1]; }
    }
  }

  /** What is chosen by step n is known by the step that chose it. */
  lemma ChosenMembers<P(!new), V(!new)>(E: Evaluator<P, V>, base: seq<Weights<P>>, chal: seq<Weights<P>>,
                                        ranked: seq<Swap>, n: nat, at: seq<nat>)
    requires Lawful(E) && |chal| == |base| && n <= |ranked| && LayersOnce(ranked)
    requires var sel := Chosen(E, base, chal, ranked, n);
             |at| == |sel| && forall i :: 0 <= i < |at| ==> at[i] < n && ranked[at[i]].layer == sel[i]
    ensures forall m: nat :: m < |ranked| ==> (ranked[m].layer in Chosen(E, base, chal, ranked, n) <==> m in at)
  {
    hide Chosen;
    var sel := Chosen(E, base, chal, ranked, n);
    forall m: nat | m < |ranked| ensures ranked[m].layer in sel <==> m in at {
      if m in at { var i :| 0 <= i < |at| && at[i] == m; assert sel[i] == ranked[m].layer; }
      if ranked[m].layer in sel {
        var i :| 0 <= i < |sel| && sel[i] == ranked[m].layer;
        assert at[i] == m;
      }
    }
  }

  /** The later steps only add layers ranked later. */
  lemma ChosenBefore<P(!new), V(!new)>(E: Evaluator<P, V>, base: seq<Weights<P>>, chal: seq<Weights<P>>,
                                       ranked: seq<Swap>, n: nat)
    requires Lawful(E) && |chal| == |base| && n <= |ranked| && LayersOnce(ranked)
    ensures Elements(Chosen(E, base, chal, ranked, n))
      == Earlier(ranked, Chosen(E, base, chal, ranked, |ranked|), n)
  {
    hide Score, Chosen, Accepts, LayersOnce;
    var part, all := Chosen(E, base, chal, ranked, n), Chosen(E, base, chal, ranked, |ranked|);
    var at := ChosenAt(E, base, chal, ranked, n);
    var whole := ChosenAt(E, base, chal, ranked, |ranked|);
    ChosenMembers(E, base, chal, ranked, n, at);
    ChosenMembers(E, base, chal, ranked, |ranked|, whole);
    forall l ensures l in part <==> l in Earlier(ranked, all, n) {
      if l in part {
        var i :| 0 <= i < |part| && part[i] == l;
        assert at[i] in at && at[i] in whole;
      }
      if l in Earlier(ranked, all, n) {
        var m: nat :| m < n && ranked[m].layer in all && ranked[m].layer == l;
        assert m in whole && m in at;
      }
    }
  }

  /** A layer is selected exactly if its swap improves on its own and lowers the mean beside the layers selected before
      it; the selected layers are in ranked order. */
  lemma ChosenIff<P(!new), V(!new)>(E: Evaluator<P, V>, base: seq<Weights<P>>, chal: seq<Weights<P>>,
                                    ranked: seq<Swap>, selected: seq<int>) returns (at: seq<nat>)
    requires Lawful(E) && |chal| == |base| && LayersOnce(ranked)
    requires selected == Chosen(E, base, chal, ranked, |ranked|)
    ensures |at| == |selected|
    ensures forall i :: 0 <= i < |at| ==> at[i] < |ranked| && ranked[at[i]].layer == selected[i]
    ensures forall i, j :: 0 <= i < j < |at| ==> at[i] < at[j]
    ensures forall n: nat :: n < |ranked| ==>
      (ranked[n].layer in selected <==>
       (var sel := set m | 0 <= m < n && ranked[m].layer in selected :: ranked[m].layer;
        ranked[n].improves && Score(E, base, chal, sel + {ranked[n].layer}) < Score(E, base, chal, sel)))
  {
    hide Score, Chosen, LayersOnce;
    at := ChosenAt(E, base, chal, ranked, |ranked|);
    ChosenMembers(E, base, chal, ranked, |ranked|, at);
    forall n: nat | n < |ranked|
      ensures Elements(Chosen(E, base, chal, ranked, n)) == Earlier(ranked, selected, n)
    {
      ChosenBefore(E, base, chal, ranked, n);
    }
  }

  lemma LayerOf<P(!new), V(!new)>(E: Evaluator<P, V>, base: seq<Weights<P>>, chal: seq<Weights<P>>, l: int)
    requires Lawful(E) && |chal| == |base|
    ensures SwapOf(E, base, chal, l).layer == l
  {
  }

  lemma SwapsOrdered<P(!new), V(!new)>(E: Evaluator<P, V>, base: seq<Weights<P>>, chal: seq<Weights<P>>)
    requires Lawful(E) && |chal| == |base|
    ensures Distinct(Swaps(E, base, chal)) && Orders(SwapLess, Elements(Swaps(E, base, chal)))
  {
    hide SwapOf;
    var r := Swaps(E, base, chal);
    assert forall l :: 0 <= l < |r| ==> r[l].layer == l by {
      forall l | 0 <= l < |r| ensures r[l].layer == l { LayerOf(E, base, chal, l); }
    }
    assert forall a, b :: a in Elements(r) && b in Elements(r) && a.layer == b.layer ==> a == b;
  }

  /** A swap improves exactly if its mean is below the baseline's, and by its delta. */
  lemma SwapMeans<P(!new), V(!new)>(E: Evaluator<P, V>, base: seq<Weights<P>>, chal: seq<Weights<P>>, l: int)
    requires Lawful(E) && |chal| == |base|
    ensures var s := SwapOf(E, base, chal, l);
            s.layer == l && s.mean == Score(E, base, chal, {l}) && s.delta == s.mean - Score(E, base, chal, {})
            && (s.improves <==> s.mean < Score(E, base, chal, {}))
  {
    hide Mean, Minus;
    OverlayNone(base, chal);
    MeanMinus(E.token(Overlay(base, chal, {l})), E.token(base));
  }

  /** After one step the mean is at most that of any improving swap. */
  lemma BestFirst<P(!new), V(!new)>(E: Evaluator<P, V>, base: seq<Weights<P>>, chal: seq<Weights<P>>, ranked: seq<Swap>,
                                    s: Swap)
    requires Lawful(E) && |chal| == |base| && ranked != [] && Elements(ranked) == Elements(Swaps(E, base, chal))
    requires s in Elements(ranked) && s.improves && (s == ranked[0] || SwapLess(ranked[0], s))
    ensures Score(E, base, chal, Elements(Chosen(E, base, chal, ranked, 1))) <= s.mean
  {
    hide Score, SwapOf;
    var swaps, head := Swaps(E, base, chal), ranked[0];
    assert head in Elements(ranked);
    var i :| 0 <= i < |swaps| && swaps[i] == head;
    var j :| 0 <= j < |swaps| && swaps[j] == s;
    SwapMeans(E, base, chal, i);
    SwapMeans(E, base, chal, j);
    assert head.mean <= s.mean && head.improves;
    var none: seq<int> := [];
    assert Chosen(E, base, chal, ranked, 0) == none && Elements(none) + {head.layer} == {head.layer}
      && Elements(none) == {};
    assert Elements([head.layer]) == {head.layer};
    assert head.mean == Score(E, base, chal, {head.layer});
    assert Chosen(E, base, chal, ranked, 1) == [head.layer];
  }

  /** The final mean is at most the baseline's and at most that of every single swap, improving or not. */
  lemma AtMostEverySwap<P(!new), V(!new)>(E: Evaluator<P, V>, base: seq<Weights<P>>, chal: seq<Weights<P>>, l: int)
    requires Lawful(E) && |chal| == |base| && 0 <= l < |base|
    ensures var ranked := Sort(SwapLess, Swaps(E, base, chal));
            var final := Score(E, base, chal, Elements(Chosen(E, base, chal, ranked, |ranked|)));
            final <= Score(E, base, chal, {}) && final <= Score(E, base, chal, {l})
  {
    hide Score, SwapOf, Orders, SwapLess;
    var swaps := Swaps(E, base, chal);
    var ranked := Sort(SwapLess, swaps);
    NeverUp(E, base, chal, ranked, 0, |ranked|);
    assert Elements(Chosen(E, base, chal, ranked, 0)) == {};
    SwapMeans(E, base, chal, l);
    if swaps[l].improves {
      SwapsOrdered(E, base, chal);
      SortIsSorted(SwapLess, swaps);
      assert swaps[l] in Elements(ranked);
      HeadFirst(SwapLess, ranked, swaps[l]);
      BestFirst(E, base, chal, ranked, swaps[l]);
      NeverUp(E, base, chal, ranked, 1, |ranked|);
    }
  }

  // ---------------------------------------------------------------- the run

  method Read<P(!new)>(model: seq<Layer<P>>) returns (state: seq<Weights<P>>)
    ensures state == StateOf(model)
  {
    state := [];
    for i := 0 to |model|
      invariant |state| == i && forall j :: 0 <= j < i ==> state[j] == model[j].Content()
    {
      state := state + [Weights(model[i].gateUp[..], model[i].down[..])];
    }
  }

  /** A read-only pass over the model. */
  method Evaluate<P(!new), V(!new)>(model: seq<Layer<P>>, E: Evaluator<P, V>) returns (token: seq<real>)
    ensures token == E.token(StateOf(model))
  {
    var state := Read(model);
    token := E.token(state);
  }

  method InstallAll<P(!new)>(model: seq<Layer<P>>, all: seq<Weights<P>>)
    requires Separate(model) && FitsAll(model, all)
    modifies Arrays(model)
    ensures StateOf(model) == all
  {
    hide StateOf, Separate;
    for l := 0 to |model|
      invariant forall i :: 0 <= i < l ==> StateOf(model)[i] == all[i]
    {
      assert model[l] in model;
      Install(model, l, all[l]);
    }
  }

  /** Every layer on its own: snapshot, install the challenger, score, restore. The model is the baseline again. */
  method SingleSwaps<P(!new), V(!new)>(model: seq<Layer<P>>, base: seq<Weights<P>>, chal: seq<Weights<P>>,
                                       E: Evaluator<P, V>, baselineToken: seq<real>)
      returns (rows: seq<Swap>)
    requires Separate(model) && FitsAll(model, base) && FitsAll(model, chal) && Lawful(E)
    requires StateOf(model) == base && baselineToken == E.token(base)
    modifies Arrays(model)
    ensures StateOf(model) == base && rows == Swaps(E, base, chal)
  {
    hide StateOf, Separate, Mean, Minus;
    rows := [];
    for l := 0 to |model|
      invariant StateOf(model) == base
      invariant |rows| == l && forall i :: 0 <= i < l ==> rows[i] == SwapOf(E, base, chal, i)
    {
      assert model[l] in model;
      OverlayNone(base, chal);
      OverlayStep(base, chal, {}, l);
      var snapshot := Snapshot(model, l);
      Install(model, l, chal[l]);
      var token := Evaluate(model, E);
      assert {} + {l} == {l};
      var delta := Mean(Minus(token, baselineToken));
      rows := rows + [Swap(l, Mean(token), delta, delta < 0.0)];
      Install(model, l, snapshot);
    }
  }

  /** Means that go strictly down. */
  ghost predicate Falling(x: seq<real>) { forall i :: 0 < i < |x| ==> x[i] < x[i - 1] }

  datatype Union<P> = Union(selected: seq<int>, snapshots: map<int, Weights<P>>, token: seq<real>, mean: real,
      means: seq<real>)

  /** The state of the greedy loop: the model is the baseline with exactly the selected layers replaced, the current
      token values and mean are its score, the accepted means fall, and there is a baseline snapshot of every selected
      layer. */
  ghost predicate Current<P(!new), V(!new)>(E: Evaluator<P, V>, base: seq<Weights<P>>, chal: seq<Weights<P>>,
                                            state: seq<Weights<P>>, u: Union<P>) {
    && Lawful(E) && |chal| == |base|
    && state == Overlay(base, chal, Elements(u.selected)) && Distinct(u.selected)
    && u.token == E.token(state) && u.mean == Mean(u.token)
    && (forall l :: l in u.selected ==> 0 <= l < |base| && l in u.snapshots && u.snapshots[l] == base[l])
    && |u.means| == |u.selected| + 1 && u.means[0] == Score(E, base, chal, {}) && u.means[|u.selected|] == u.mean
      && Falling(u.means)
  }

  lemma ScoreIs<P(!new), V(!new)>(E: Evaluator<P, V>, base: seq<Weights<P>>, chal: seq<Weights<P>>, sel: set<int>)
    requires Lawful(E) && |chal| == |base|
    ensures Score(E, base, chal, sel) == Mean(E.token(Overlay(base, chal, sel)))
  {
  }

  lemma CurrentParts<P(!new), V(!new)>(E: Evaluator<P, V>, base: seq<Weights<P>>, chal: seq<Weights<P>>,
                                       state: seq<Weights<P>>, u: Union<P>)
    requires Current(E, base, chal, state, u)
    ensures Lawful(E) && |chal| == |base|
    ensures state == Overlay(base, chal, Elements(u.selected)) && u.mean == Score(E, base, chal, Elements(u.selected))
  {
  }

  lemma Accepted<P(!new), V(!new)>(E: Evaluator<P, V>, base: seq<Weights<P>>, chal: seq<Weights<P>>, u: Union<P>,
                                   layer: int, v: Union<P>)
    requires Lawful(E) && |chal| == |base| && 0 <= layer < |base| && layer !in u.selected
    requires Current(E, base, chal, Overlay(base, chal, Elements(u.selected)), u)
    requires v.token == E.token(Overlay(base, chal, Elements(u.selected) + {layer})) && v.mean == Mean(v.token) < u.mean
    requires v.selected == u.selected + [layer] && v.snapshots == u.snapshots[layer := base[layer]]
      && v.means == u.means + [v.mean]
    ensures Current(E, base, chal, Overlay(base, chal, Elements(u.selected) + {layer}), v)
    ensures Elements(v.selected) == Elements(u.selected) + {layer}
  {
    hide Mean, Score;
  }

  /** One trial: snapshot, install, score; keep if the mean falls, else restore. */
  method Try<P(!new), V(!new)>(model: seq<Layer<P>>, ghost base: seq<Weights<P>>, chal: seq<Weights<P>>,
                               E: Evaluator<P, V>, layer: int, u: Union<P>)
      returns (v: Union<P>)
    requires Separate(model) && FitsAll(model, base) && FitsAll(model, chal)
      && Current(E, base, chal, StateOf(model), u)
    requires 0 <= layer < |model| && layer !in u.selected
    modifies model[layer].gateUp, model[layer].down
    ensures Current(E, base, chal, StateOf(model), v)
    ensures v.selected
      == if Score(E, base, chal, Elements(u.selected) + {layer}) < Score(E, base, chal, Elements(u.selected))
                          then u.selected + [layer] else u.selected
  {
    hide StateOf, Separate, Mean, Score, Current;
    CurrentParts(E, base, chal, StateOf(model), u);
    var sel := u.selected;
    OverlayStep(base, chal, Elements(sel), layer);
    var snapshot := Snapshot(model, layer);
    Install(model, layer, chal[layer]);
    assert StateOf(model) == Overlay(base, chal, Elements(sel) + {layer});
    var token := Evaluate(model, E);
    assert StateOf(model) == Overlay(base, chal, Elements(sel) + {layer});
    assert token == E.token(Overlay(base, chal, Elements(sel) + {layer}));
    var mean := Mean(token);
    ScoreIs(E, base, chal, Elements(sel) + {layer});
    if mean < u.mean {
      v := Union(sel + [layer], u.snapshots[layer := snapshot], token, mean, u.means + [mean]);
      Accepted(E, base, chal, u, layer, v);
    } else {
      v := u;
      Install(model, layer, snapshot);
      assert StateOf(model) == Overlay(base, chal, Elements(sel));
    }
  }

  lemma StartCurrent<P(!new), V(!new)>(E: Evaluator<P, V>, base: seq<Weights<P>>, chal: seq<Weights<P>>, u: Union<P>)
    requires Lawful(E) && |chal| == |base|
    requires u == Union([], map[], E.token(base), Mean(E.token(base)), [Mean(E.token(base))])
    ensures Current(E, base, chal, base, u)
  {
    OverlayNone(base, chal);
    assert Elements(u.selected) == {};
  }

  /** The greedy loop over the swaps, best first. */
  method Greedy<P(!new), V(!new)>(model: seq<Layer<P>>, ghost base: seq<Weights<P>>, chal: seq<Weights<P>>,
                                  E: Evaluator<P, V>, ranked: seq<Swap>, baselineToken: seq<real>)
      returns (u: Union<P>)
    requires Separate(model) && FitsAll(model, base) && FitsAll(model, chal) && Lawful(E)
    requires StateOf(model) == base && baselineToken == E.token(base)
    requires forall i :: 0 <= i < |ranked| ==> 0 <= ranked[i].layer < |model|
    requires forall i, j :: 0 <= i < j < |ranked| ==> ranked[i].layer != ranked[j].layer
    modifies Arrays(model)
    ensures Current(E, base, chal, StateOf(model), u) && u.selected == Chosen(E, base, chal, ranked, |ranked|)
  {
    hide StateOf, Separate, Mean, Score;
    OverlayNone(base, chal);
    u := Union([], map[], baselineToken, Mean(baselineToken), [Mean(baselineToken)]);
    assert Current(E, base, chal, StateOf(model), u) by { StartCurrent(E, base, chal, u); }
    for n := 0 to |ranked|
      invariant Current(E, base, chal, StateOf(model), u) && u.selected == Chosen(E, base, chal, ranked, n)
      invariant forall l :: l in u.selected ==> exists i :: 0 <= i < n && ranked[i].layer == l
    {
      if ranked[n].improves {
        assert model[ranked[n].layer] in model;
        u := Try(model, base, chal, E, ranked[n].layer, u);
      }
    }
  }

  /** The selected layers get their snapshots back, and the model is exactly the baseline. */
  method RestoreAll<P(!new), V(!new)>(model: seq<Layer<P>>, ghost base: seq<Weights<P>>, ghost chal: seq<Weights<P>>,
                                      ghost E: Evaluator<P, V>, u: Union<P>)
    requires Separate(model) && FitsAll(model, base) && FitsAll(model, chal)
      && Current(E, base, chal, StateOf(model), u)
    modifies Arrays(model)
    ensures StateOf(model) == base
  {
    hide StateOf, Separate, Mean, Score;
    var selected := u.selected;
    for i := 0 to |selected|
      invariant StateOf(model) == Overlay(base, chal, Elements(selected[i..]))
    {
      var l := selected[i];
      assert l in u.selected && model[l] in model;
      assert forall j :: i + 1 <= j < |selected| ==> selected[j] != l;
      assert selected[i..] == [l] + selected[i + 1..];
      assert Elements(selected[i..]) == Elements(selected[i + 1..]) + {l};
      OverlayStep(base, chal, Elements(selected[i + 1..]), l);
      Install(model, l, u.snapshots[l]);
    }
    assert Elements(selected[|selected|..]) == {};
    OverlayNone(base, chal);
  }

  datatype Report<V> = Report(selected: seq<int>, baselineMean: real, unionMean: real, union: V, baseline: V)
      | RecaptureDiffers

  lemma RankedLayers<P(!new), V(!new)>(E: Evaluator<P, V>, base: seq<Weights<P>>, chal: seq<Weights<P>>,
                                       ranked: seq<Swap>)
    requires Lawful(E) && |chal| == |base| && ranked == Sort(SwapLess, Swaps(E, base, chal))
    ensures forall i :: 0 <= i < |ranked| ==> 0 <= ranked[i].layer < |base|
    ensures forall i, j :: 0 <= i < j < |ranked| ==> ranked[i].layer != ranked[j].layer
  {
    hide SwapOf, Sort, Orders;
    var swaps := Swaps(E, base, chal);
    SwapsOrdered(E, base, chal);
    SortIsSorted(SwapLess, swaps);
    forall i | 0 <= i < |ranked|
      ensures 0 <= ranked[i].layer < |base| && ranked[i] == SwapOf(E, base, chal, ranked[i].layer)
    {
      assert ranked[i] in Elements(ranked);
      var l :| 0 <= l < |swaps| && swaps[l] == ranked[i];
      LayerOf(E, base, chal, l);
    }
    forall i, j | 0 <= i < j < |ranked| ensures ranked[i].layer != ranked[j].layer {
      assert SwapLess(ranked[i], ranked[j]);
    }
  }

  /** The ranking: every layer once, by the mean of its swap and then by its index. */
  lemma RankedByScore<P(!new), V(!new)>(E: Evaluator<P, V>, base: seq<Weights<P>>, chal: seq<Weights<P>>,
                                        ranked: seq<Swap>)
    requires Lawful(E) && |chal| == |base| && ranked == Sort(SwapLess, Swaps(E, base, chal))
    ensures |ranked| == |base| && LayersOnce(ranked)
    ensures forall n :: 0 <= n < |ranked| ==>
      0 <= ranked[n].layer < |base|
      && (ranked[n].improves <==> Score(E, base, chal, {ranked[n].layer}) < Score(E, base, chal, {}))
    ensures forall m, n :: 0 <= m < n < |ranked| ==>
      (var x, y := Score(E, base, chal, {ranked[m].layer}), Score(E, base, chal, {ranked[n].layer});
       x < y || (x == y && ranked[m].layer < ranked[n].layer))
  {
    hide SwapOf, Sort, Orders, Score;
    var swaps := Swaps(E, base, chal);
    RankedLayers(E, base, chal, ranked);
    SwapsOrdered(E, base, chal);
    SortIsSorted(SwapLess, swaps);
    forall n | 0 <= n < |ranked|
      ensures ranked[n].delta == Score(E, base, chal, {ranked[n].layer}) - Score(E, base, chal, {})
      ensures ranked[n].improves <==> Score(E, base, chal, {ranked[n].layer}) < Score(E, base, chal, {})
    {
      assert ranked[n] in Elements(ranked);
      var l :| 0 <= l < |swaps| && swaps[l] == ranked[n];
      SwapMeans(E, base, chal, l);
    }
    forall m, n | 0 <= m < n < |ranked|
      ensures var x, y := Score(E, base, chal, {ranked[m].layer}), Score(E, base, chal, {ranked[n].layer});
              x < y || (x == y && ranked[m].layer < ranked[n].layer)
    {
      assert SwapLess(ranked[m], ranked[n]);
    }
  }

  /** The union's mean is at most the baseline's and that of every single swap. */
  lemma UnionIsBest<P(!new), V(!new)>(E: Evaluator<P, V>, base: seq<Weights<P>>, chal: seq<Weights<P>>,
                                      ranked: seq<Swap>, selected: seq<int>)
    requires Lawful(E) && |chal| == |base| && ranked == Sort(SwapLess, Swaps(E, base, chal))
    requires selected == Chosen(E, base, chal, ranked, |ranked|)
    ensures Score(E, base, chal, Elements(selected)) <= Score(E, base, chal, {})
    ensures forall l :: 0 <= l < |base| ==> Score(E, base, chal, Elements(selected)) <= Score(E, base, chal, {l})
  {
    hide SwapOf, Sort, Orders, Score, SwapLess;
    forall l | 0 <= l < |base| ensures Score(E, base, chal, Elements(selected)) <= Score(E, base, chal, {l}) {
      AtMostEverySwap(E, base, chal, l);
    }
    NeverUp(E, base, chal, ranked, 0, |ranked|);
    assert Elements(Chosen(E, base, chal, ranked, 0)) == {};
  }

  /** The baseline is installed, every layer is tried on its own, and the greedy loop goes over the ranked swaps. */
  method Select<P(!new), V(!new)>(model: seq<Layer<P>>, base: seq<Weights<P>>, chal: seq<Weights<P>>,
                                  E: Evaluator<P, V>)
      returns (u: Union<P>, baselineMean: real, ghost ranked: seq<Swap>)
    requires Separate(model) && FitsAll(model, base) && FitsAll(model, chal) && Lawful(E)
    modifies Arrays(model)
    ensures Current(E, base, chal, StateOf(model), u) && baselineMean == Score(E, base, chal, {})
    ensures |chal| == |base| && ranked == Sort(SwapLess, Swaps(E, base, chal))
    ensures u.selected == Chosen(E, base, chal, ranked, |ranked|)
  {
    hide StateOf, Separate, Mean, SwapOf, Sort, SwapLess, Orders, Chosen, Score, Current;
    InstallAll(model, base);
    OverlayNone(base, chal);
    var baselineToken := Evaluate(model, E);
    baselineMean := Mean(baselineToken);
    var rows := SingleSwaps(model, base, chal, E, baselineToken);
    var order := Sort(SwapLess, rows);
    ranked := order;
    RankedLayers(E, base, chal, ranked);
    ScoreIs(E, base, chal, {});
    u := Greedy(model, base, chal, E, order, baselineToken);
  }

  /** The whole run. The recapture of the union gives the accepted values, the validation of the union is that of the
      baseline with exactly the selected layers replaced, and the validation of the baseline and the model left behind
      are exactly the baseline. */
  method Run<P(!new), V(!new)>(model: seq<Layer<P>>, base: seq<Weights<P>>, chal: seq<Weights<P>>, E: Evaluator<P, V>)
      returns (r: Report<V>, ghost ranked: seq<Swap>, ghost at: seq<nat>)
    requires Separate(model) && FitsAll(model, base) && FitsAll(model, chal) && Lawful(E)
    modifies Arrays(model)
    ensures StateOf(model) == base && r.Report?
    ensures r.baselineMean == Score(E, base, chal, {}) && r.unionMean == Score(E, base, chal, Elements(r.selected))
    ensures r.unionMean <= r.baselineMean
    ensures forall l :: 0 <= l < |base| ==> r.unionMean <= Score(E, base, chal, {l})
    ensures r.union == E.validate(Overlay(base, chal, Elements(r.selected))) && r.baseline == E.validate(base)
    ensures ranked == Sort(SwapLess, Swaps(E, base, chal)) && r.selected == Chosen(E, base, chal, ranked, |ranked|)
    ensures |ranked| == |base| && forall n :: 0 <= n < |ranked| ==> 0 <= ranked[n].layer < |base|
    ensures forall n :: 0 <= n < |ranked| ==>
      (ranked[n].improves <==> Score(E, base, chal, {ranked[n].layer}) < Score(E, base, chal, {}))
    ensures forall m, n :: 0 <= m < n < |ranked| ==>
      (var x, y := Score(E, base, chal, {ranked[m].layer}), Score(E, base, chal, {ranked[n].layer});
       x < y || (x == y && ranked[m].layer < ranked[n].layer))
    ensures |at| == |r.selected| && forall i, j :: 0 <= i < j < |at| ==> at[i] < at[j]
    ensures forall i :: 0 <= i < |at| ==> at[i] < |ranked| && ranked[at[i]].layer == r.selected[i]
    ensures forall n: nat :: n < |ranked| ==>
      (ranked[n].layer in r.selected <==>
       (var sel := set m | 0 <= m < n && ranked[m].layer in r.selected :: ranked[m].layer;
        ranked[n].improves && Score(E, base, chal, sel + {ranked[n].layer}) < Score(E, base, chal, sel)))
  {
    hide StateOf, Separate, Mean, SwapOf, Sort, SwapLess, Orders, Chosen, Score, Swaps;
    var u, baselineMean;
    u, baselineMean, ranked := Select(model, base, chal, E);
    CurrentParts(E, base, chal, StateOf(model), u);
    var recapture := Evaluate(model, E);
    if recapture != u.token {
      assert false;
      return RecaptureDiffers, ranked, [];
    }
    var state := Read(model);
    var union := E.validate(state);
    RestoreAll(model, base, chal, E, u);
    state := Read(model);
    OverlayNone(base, chal);
    r := Report(u.selected, baselineMean, u.mean, union, E.validate(state));
    RankedByScore(E, base, chal, ranked);
    at := ChosenIff(E, base, chal, ranked, r.selected);
    UnionIsBest(E, base, chal, ranked, r.selected);
  }
}

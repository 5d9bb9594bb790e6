/** The density allocator on calibrated damages: every unit's damage is weighed by the signed scale of its expert, and
    all byte increments must be equal. */
module CalibratedDensity {
  import opened Density
  import opened Options
  import opened Sorting

  const PROJECTIONS: seq<string> := ["gate_proj", "up_proj", "down_proj"]

  type Expert = (int, int)

  /** A layer of the attribution: its index and, unless the field is missing, a score for each of its experts. */
  datatype LayerRow = LayerRow(layer: int, scores: Option<seq<real>>)

  /** Row i scores expert x of layer l. */
  predicate Gives(layerRows: seq<LayerRow>, i: int, l: int, x: int) {
    0 <= i < |layerRows| && layerRows[i].layer == l && layerRows[i].scores.Some? && 0 <= x < |layerRows[i].scores.value|
  }

  /** One of the first n rows scores expert x of layer l. */
  ghost predicate ScoredBy(layerRows: seq<LayerRow>, n: nat, l: int, x: int) {
    exists i :: i < n && Gives(layerRows, i, l, x)
  }

  /** The last of the first n rows for layer l gives its expert x the score v. */
  ghost predicate LastScore(layerRows: seq<LayerRow>, n: nat, l: int, x: int, v: real)
    requires n <= |layerRows|
  {
    exists i :: i < n && Gives(layerRows, i, l, x) && v == layerRows[i].scores.value[x]
                && forall j :: i < j < n ==> layerRows[j].layer != l
  }

  /** Every listed layer has a score for each expert, and exactly the wanted experts are scored. */
  ghost predicate Scored(layerRows: seq<LayerRow>, layers: nat, experts: nat) {
    && (forall i :: 0 <= i < |layerRows| ==> layerRows[i].scores.Some? && |layerRows[i].scores.value| == experts)
    && forall l, x :: (0 <= l < layers && 0 <= x < experts) <==> ScoredBy(layerRows, |layerRows|, l, x)
  }

  /** Every wanted expert and no other has a score, that of the last row for its layer. */
  ghost predicate Direct(layerRows: seq<LayerRow>, layers: nat, experts: nat, direct: map<Expert, real>) {
    && (forall l, x :: (0 <= l < layers && 0 <= x < experts) <==> (l, x) in direct)
    && forall l, x :: (l, x) in direct ==> LastScore(layerRows, |layerRows|, l, x, direct[(l, x)])
  }

  lemma LastScoreUnique(layerRows: seq<LayerRow>, l: int, x: int, v: real, v': real)
    requires LastScore(layerRows, |layerRows|, l, x, v) && LastScore(layerRows, |layerRows|, l, x, v')
    ensures v == v'
  {
    var i :| i < |layerRows| && Gives(layerRows, i, l, x) && v == layerRows[i].scores.value[x]
             && forall j :: i < j < |layerRows| ==> layerRows[j].layer != l;
    var i' :| i' < |layerRows| && Gives(layerRows, i', l, x) && v' == layerRows[i'].scores.value[x]
              && forall j :: i' < j < |layerRows| ==> layerRows[j].layer != l;
    assert i == i';
  }

  /** There is at most one such table of scores. */
  lemma DirectUnique(layerRows: seq<LayerRow>, layers: nat, experts: nat, d: map<Expert, real>, d': map<Expert, real>)
    requires Direct(layerRows, layers, experts, d) && Direct(layerRows, layers, experts, d')
    ensures d == d'
  {
    hide LastScore;
    forall p: Expert ensures (p in d <==> p in d') && (p in d ==> d[p] == d'[p]) {
      var l, x := p.0, p.1;
      assert p == (l, x);
      assert (l, x) in d <==> 0 <= l < layers && 0 <= x < experts;
      assert (l, x) in d' <==> 0 <= l < layers && 0 <= x < experts;
      if (l, x) in d { LastScoreUnique(layerRows, l, x, d[(l, x)], d'[(l, x)]); }
    }
  }

  /** Of several rows for a layer the last one counts. */
  lemma LastLayerRow(layerRows: seq<LayerRow>, layers: nat, experts: nat, direct: map<Expert, real>, i: nat, x: nat)
    requires Direct(layerRows, layers, experts, direct) && i < |layerRows|
    requires layerRows[i].scores.Some? && x < |layerRows[i].scores.value|
    requires forall j :: i < j < |layerRows| ==> layerRows[j].layer != layerRows[i].layer
    ensures (layerRows[i].layer, x) in direct ==> direct[(layerRows[i].layer, x)] == layerRows[i].scores.value[x]
  {
    var l := layerRows[i].layer;
    if (l, x) in direct {
      assert Gives(layerRows, i, l, x);
      assert LastScore(layerRows, |layerRows|, l, x, layerRows[i].scores.value[x]);
      LastScoreUnique(layerRows, l, x, direct[(l, x)], layerRows[i].scores.value[x]);
    }
  }

  /** The inner loop: the scores of one layer, over what was there. */
  method AddScores(before: map<Expert, real>, layer: int, values: seq<real>) returns (direct: map<Expert, real>)
    ensures forall l, x :: (l, x) in direct <==> (l, x) in before || (l == layer && 0 <= x < |values|)
    ensures forall x :: 0 <= x < |values| ==> direct[(layer, x)] == values[x]
    ensures forall l, x :: (l, x) in before && !(l == layer && 0 <= x < |values|) ==> direct[(l, x)] == before[(l, x)]
  {
    direct := before;
    for e := 0 to |values|
      invariant forall l, x :: (l, x) in direct <==> (l, x) in before || (l == layer && 0 <= x < e)
      invariant forall x :: 0 <= x < e ==> direct[(layer, x)] == values[x]
      invariant forall l, x :: (l, x) in before && !(l == layer && 0 <= x < e) ==> direct[(l, x)] == before[(l, x)]
    {
      direct := direct[(layer, e) := values[e]];
    }
  }

  lemma ScoredStep(layerRows: seq<LayerRow>, n: nat, l: int, x: int)
    requires n < |layerRows|
    ensures ScoredBy(layerRows, n + 1, l, x) <==> ScoredBy(layerRows, n, l, x) || Gives(layerRows, n, l, x)
  {
    if ScoredBy(layerRows, n + 1, l, x) {
      var i :| i < n + 1 && Gives(layerRows, i, l, x);
      assert i == n || ScoredBy(layerRows, n, l, x);
    }
  }

  /** One score for every expert of every layer, or none. */
  method DirectScores(layerRows: seq<LayerRow>, layers: nat, experts: nat) returns (ok: bool, direct: map<Expert, real>)
    ensures ok <==> Scored(layerRows, layers, experts)
    ensures ok ==> Direct(layerRows, layers, experts, direct)
  {
    direct := map[];
    for i := 0 to |layerRows|
      invariant forall j :: 0 <= j < i ==> layerRows[j].scores.Some? && |layerRows[j].scores.value| == experts
      invariant forall l, x :: (l, x) in direct <==> ScoredBy(layerRows, i, l, x)
      invariant forall l, x :: (l, x) in direct ==> LastScore(layerRows, i, l, x, direct[(l, x)])
    {
      if layerRows[i].scores.None? || |layerRows[i].scores.value| != experts {
        return false, direct;
      }
      ghost var before := direct;
      direct := AddScores(direct, layerRows[i].layer, layerRows[i].scores.value);
      forall l, x ensures (l, x) in direct <==> ScoredBy(layerRows, i + 1, l, x) {
        ScoredStep(layerRows, i, l, x);
      }
      forall l, x | (l, x) in direct ensures LastScore(layerRows, i + 1, l, x, direct[(l, x)]) {
        if l == layerRows[i].layer {
          assert Gives(layerRows, i, l, x);
        } else {
          assert LastScore(layerRows, i, l, x, before[(l, x)]);
        }
      }
    }
    var wanted := set l, x | 0 <= l < layers && 0 <= x < experts :: (l, x);
    ok := direct.Keys == wanted;
    assert ok ==> forall l, x :: (l, x) in direct <==> (l, x) in wanted;
    if !ok {
      ghost var p: Expert :| p in direct.Keys <==> p !in wanted;
      assert p == (p.0, p.1);
      assert ScoredBy(layerRows, |layerRows|, p.0, p.1) <==> !(0 <= p.0 < layers && 0 <= p.1 < experts);
    }
  }

  /** The uniform four-bit damage of an expert. */
  function Anchor(table: Table, x: Expert, n: nat): real
    requires n <= |PROJECTIONS| && forall id :: id in table ==> table[id].Keys == {3, 4}
    requires forall p :: p in PROJECTIONS ==> Id(x.0, x.1, p) in table
  {
    if n == 0 then 0.0 else Anchor(table, x, n - 1) + table[Id(x.0, x.1, PROJECTIONS[n - 1])][4].damage
  }

  ghost predicate Anchored(table: Table, x: Expert)
    requires forall id :: id in table ==> table[id].Keys == {3, 4}
  {
    (forall p :: p in PROJECTIONS ==> Id(x.0, x.1, p) in table) && Anchor(table, x, 3) > 0.0
  }

  /** What the experts' damages are multiplied with. */
  function ScaleBy(scales: map<Expert, real>): Id -> real {
    (id: Id) => if (id.layer, id.expert) in scales then scales[(id.layer, id.expert)] else 0.0
  }

  ghost function ScaleMap(table: Table, direct: map<Expert, real>): map<Expert, real>
    requires forall id :: id in table ==> table[id].Keys == {3, 4}
    requires forall x :: x in direct ==> Anchored(table, x)
  {
    map x | x in direct && Anchored(table, x) :: direct[x] / Anchor(table, x, 3)
  }

  /** The anchor of one expert, if its units are there and it is positive. */
  method AnchorOne(table: Table, x: Expert) returns (ok: bool, anchor: real)
    requires forall id :: id in table ==> table[id].Keys == {3, 4}
    ensures ok <==> Anchored(table, x)
    ensures ok ==> anchor == Anchor(table, x, 3) > 0.0
  {
    if exists p :: p in PROJECTIONS && Id(x.0, x.1, p) !in table {
      return false, 0.0;
    }
    anchor := 0.0;
    for n := 0 to |PROJECTIONS|
      invariant anchor == Anchor(table, x, n)
    {
      anchor := anchor + table[Id(x.0, x.1, PROJECTIONS[n])][4].damage;
    }
    ok := anchor > 0.0;
  }

  /** The loop over the experts. */
  method Scales(table: Table, direct: map<Expert, real>, order: seq<Expert>)
      returns (ok: bool, scales: map<Expert, real>)
    requires forall id :: id in table ==> table[id].Keys == {3, 4}
    requires forall x :: x in order <==> x in direct
    ensures ok <==> forall x :: x in direct ==> Anchored(table, x)
    ensures ok ==> scales == ScaleMap(table, direct)
  {
    hide Anchor;
    scales := map[];
    for i := 0 to |order|
      invariant forall j :: 0 <= j < i ==> Anchored(table, order[j])
      invariant forall x :: x in scales <==> x in order[..i]
      invariant forall x :: x in scales ==>
        x in direct && Anchored(table, x) && scales[x] == direct[x] / Anchor(table, x, 3)
    {
      var x := order[i];
      assert order[..i + 1] == order[..i] + [x];
      var anchored, anchor := AnchorOne(table, x);
      if !anchored {
        return false, scales;
      }
      scales := scales[x := direct[x] / anchor];
    }
    assert order[..|order|] == order;
    ok := true;
  }

  lemma AnchorIs(table: Table, x: Expert)
    requires forall id :: id in table ==> table[id].Keys == {3, 4}
    requires forall p :: p in PROJECTIONS ==> Id(x.0, x.1, p) in table
    ensures Id(x.0, x.1, "gate_proj") in table && Id(x.0, x.1, "up_proj") in table && Id(x.0, x.1, "down_proj") in table
    ensures Anchor(table, x, 3) == table[Id(x.0, x.1, "gate_proj")][4].damage
      + table[Id(x.0, x.1, "up_proj")][4].damage + table[Id(x.0, x.1, "down_proj")][4].damage
  {
    assert PROJECTIONS[0] == "gate_proj" && PROJECTIONS[1] == "up_proj" && PROJECTIONS[2] == "down_proj";
    assert Anchor(table, x, 2) == Anchor(table, x, 1) + table[Id(x.0, x.1, PROJECTIONS[1])][4].damage;
    assert Anchor(table, x, 1) == Anchor(table, x, 0) + table[Id(x.0, x.1, PROJECTIONS[0])][4].damage;
  }

  lemma Shares(d: real, a: real, x: real, y: real, z: real)
    requires a > 0.0 && a == x + y + z
    ensures d / a * x + d / a * y + d / a * z == d
  {
    var q := d / a;
    assert q * (x + y + z) == q * x + q * y + q * z;
  }

  /** An expert can be scaled exactly if its three units are in the table and their four-bit damages add up to more than
      nothing. */
  lemma AnchoredIff(table: Table, x: Expert)
    requires forall id :: id in table ==> table[id].Keys == {3, 4}
    ensures Anchored(table, x) <==>
            (var g, u, d := Id(x.0, x.1, "gate_proj"), Id(x.0, x.1, "up_proj"), Id(x.0, x.1, "down_proj");
             g in table && u in table && d in table
               && table[g][4].damage + table[u][4].damage + table[d][4].damage > 0.0)
  {
    hide Anchor;
    var g, u, d := Id(x.0, x.1, "gate_proj"), Id(x.0, x.1, "up_proj"), Id(x.0, x.1, "down_proj");
    assert PROJECTIONS[0] == "gate_proj" && PROJECTIONS[1] == "up_proj" && PROJECTIONS[2] == "down_proj";
    if g in table && u in table && d in table {
      assert forall p :: p in PROJECTIONS ==> Id(x.0, x.1, p) in table;
      AnchorIs(table, x);
    }
  }

  /** The scaled four-bit damages of an expert's three units add up to its score. */
  lemma ScaledDamagesAreScore(table: Table, direct: map<Expert, real>, x: Expert)
    requires forall id :: id in table ==> table[id].Keys == {3, 4}
    requires (forall y :: y in direct ==> Anchored(table, y)) && x in direct
    ensures var scale := ScaleBy(ScaleMap(table, direct));
            var g, u, d := Id(x.0, x.1, "gate_proj"), Id(x.0, x.1, "up_proj"), Id(x.0, x.1, "down_proj");
            g in table && u in table && d in table
            && scale(g) == scale(u) == scale(d)
            && scale(g) * table[g][4].damage + scale(u) * table[u][4].damage + scale(d) * table[d][4].damage
              == direct[x]
  {
    hide Anchor;
    AnchorIs(table, x);
    var g, u, d := Id(x.0, x.1, "gate_proj"), Id(x.0, x.1, "up_proj"), Id(x.0, x.1, "down_proj");
    assert (g.layer, g.expert) == x && (u.layer, u.expert) == x && (d.layer, d.expert) == x;
    Shares(direct[x], Anchor(table, x, 3), table[g][4].damage, table[u][4].damage, table[d][4].damage);
  }

  /** The increments all equal. */
  ghost predicate Uniform(table: Table)
    requires Priced(table)
  {
    table != map[] && forall a, b :: a in table && b in table ==> Extra(table, a) == Extra(table, b)
  }

  /** The set of increments the loop gathers. */
  function Increments(upgrades: seq<Upgrade>): set<int> {
    set u | u in upgrades :: u.extra
  }

  ghost function Extras(table: Table): set<int>
    requires Priced(table)
  {
    set id | id in table :: Extra(table, id)
  }

  lemma IncrementAt(table: Table, scale: Id -> real, order: seq<Id>, i: nat)
    requires Priced(table) && (forall id :: id in order ==> id in table) && i < |order|
    ensures var u := Upgrades(table, scale, order)[i];
            u in Upgrades(table, scale, order) && u.extra == Extra(table, order[i])
  {
    hide Extra, Benefit;
  }

  lemma IncrementsOf(table: Table, scale: Id -> real, order: seq<Id>)
    requires Priced(table) && forall id :: id in order <==> id in table
    ensures Increments(Upgrades(table, scale, order)) == Extras(table)
  {
    hide Upgrades, UpgradeOf, Extra, Priced;
    var us := Upgrades(table, scale, order);
    forall u | u in us ensures u.extra in Extras(table) {
      var i :| 0 <= i < |us| && us[i] == u;
      IncrementAt(table, scale, order, i);
      assert order[i] in table;
    }
    forall id | id in table ensures Extra(table, id) in Increments(us) {
      var i :| 0 <= i < |order| && order[i] == id;
      IncrementAt(table, scale, order, i);
    }
  }

  /** That set has one element exactly if all increments are equal. */
  lemma OneIncrement(table: Table, scale: Id -> real, order: seq<Id>)
    requires Priced(table) && forall id :: id in order <==> id in table
    ensures |Increments(Upgrades(table, scale, order))| == 1 <==> Uniform(table)
  {
    hide Upgrades, Increments;
    IncrementsOf(table, scale, order);
    var extras := Extras(table);
    if |extras| == 1 {
      var e :| e in extras;
      assert |extras - {e}| == 0;
      forall id | id in table ensures Extra(table, id) == e { assert Extra(table, id) in extras; }
    }
    if Uniform(table) {
      var id :| id in table;
      assert extras == {Extra(table, id)};
    }
  }

  /** The experts of a complete table of direct scores, layer by layer. */
  method SortedExperts(layers: nat, experts: nat) returns (order: seq<Expert>)
    ensures forall l, x :: (l, x) in order <==> 0 <= l < layers && 0 <= x < experts
  {
    order := [];
    for l := 0 to layers
      invariant forall a, x :: (a, x) in order <==> 0 <= a < l && 0 <= x < experts
    {
      ghost var before := order;
      for e := 0 to experts
        invariant forall a, x :: (a, x) in order <==> (a, x) in before || (a == l && 0 <= x < e)
      {
        order := order + [(l, e)];
      }
    }
  }

  /** The inventory is complete, every expert with a direct score has a positive anchor, and every unit has such an
      expert. */
  ghost predicate Weighable(table: Table, direct: map<Expert, real>, layers: nat, experts: nat) {
    && Complete(table, layers * experts * |PROJECTIONS|)
    && (forall x :: x in direct ==> Anchored(table, x))
    && (forall id :: id in table ==> (id.layer, id.expert) in direct)
  }

  /** What the calibrated allocator asks of its inputs, besides the payload check at the end. */
  ghost predicate Calibratable(table: Table, direct: map<Expert, real>, layers: nat, experts: nat) {
    Weighable(table, direct, layers, experts) && Priced(table) && Uniform(table)
  }

  ghost predicate Pays(table: Table, scale: Id -> real, bytes: int) {
    exists a :: Allotted(table, scale, a) && a.bytes == bytes
  }

  /** The table and the scales of its experts. */
  method Weigh(rows: seq<Row>, direct: map<Expert, real>, layers: nat, experts: nat)
      returns (ok: bool, table: Table, units: seq<Id>, scales: map<Expert, real>)
    requires forall l, x :: (0 <= l < layers && 0 <= x < experts) <==> (l, x) in direct
    ensures table == TableOf(rows) && Distinct(units) && Elements(units) == table.Keys
      && (forall id :: id in units <==> id in table)
    ensures ok <==> Weighable(table, direct, layers, experts)
    ensures ok ==> scales == ScaleMap(table, direct)
  {
    hide TableOf, Anchored, ScaleMap;
    table, units := Collect(rows);
    scales := map[];
    assert forall id :: id in units <==> id in table by { assert forall id :: id in units <==> id in Elements(units); }
    if !Complete(table, layers * experts * |PROJECTIONS|) {
      return false, table, units, scales;
    }
    var order := SortedExperts(layers, experts);
    assert forall x: Expert :: x in order <==> x in direct by {
      forall x: Expert ensures x in order <==> x in direct {
        var l, e := x.0, x.1;
        assert x == (l, e);
        assert (l, e) in order <==> 0 <= l < layers && 0 <= e < experts;
      }
    }
    ok, scales := Scales(table, direct, order);
    ok := ok && forall id :: id in table ==> (id.layer, id.expert) in direct;
  }

  /** The control allocation: the bits of its units and the payload it stores. */
  datatype Control = Control(bits: map<Id, int>, bytes: int)

  /** The inputs are in order, the control has every unit, and the selection stores the payload of the control. */
  ghost predicate Allocatable(rows: seq<Row>, direct: map<Expert, real>, layers: nat, experts: nat, control: Control) {
    && Calibratable(TableOf(rows), direct, layers, experts)
    && (forall id :: id in TableOf(rows) ==> id in control.bits)
    && Pays(TableOf(rows), ScaleBy(ScaleMap(TableOf(rows), direct)), control.bytes)
  }

  lemma CalibratableIff(table: Table, direct: map<Expert, real>, layers: nat, experts: nat)
    ensures Calibratable(table, direct, layers, experts) <==>
            (&& |table| == layers * experts * 3
             && (forall id :: id in table ==> table[id].Keys == {3, 4} && table[id][4].bytes > table[id][3].bytes)
             && table != map[]
             && (forall a, b :: a in table && b in table ==>
                   table[a][4].bytes - table[a][3].bytes == table[b][4].bytes - table[b][3].bytes)
             && (forall x :: x in direct ==> Anchored(table, x))
             && forall id :: id in table ==> (id.layer, id.expert) in direct)
  {
    hide Anchored;
  }

  /** What that asks of the inputs, item by item: three units for every expert and no more, each with both candidates
      and a fourth bit that costs the same for all; a positive sum of four-bit damages for every scored expert; a score
      for the expert of every unit; every unit in the control; and a selection that stores the control's bytes. */
  lemma AllocatableIff(rows: seq<Row>, direct: map<Expert, real>, layers: nat, experts: nat, control: Control)
    ensures Allocatable(rows, direct, layers, experts, control) <==>
            (var table := TableOf(rows);
             && |table| == layers * experts * 3
             && (forall id :: id in table ==> table[id].Keys == {3, 4} && table[id][4].bytes > table[id][3].bytes)
             && table != map[]
             && (forall a, b :: a in table && b in table ==>
                   table[a][4].bytes - table[a][3].bytes == table[b][4].bytes - table[b][3].bytes)
             && (forall x :: x in direct ==> Anchored(table, x))
             && (forall id :: id in table ==> (id.layer, id.expert) in direct && id in control.bits)
             && exists a :: Allotted(table, ScaleBy(ScaleMap(table, direct)), a) && a.bytes == control.bytes)
  {
    hide TableOf, Allotted, ScaleMap, Anchored, Calibratable;
    CalibratableIff(TableOf(rows), direct, layers, experts);
  }

  /** What is returned for these scores. */
  ghost predicate AllottedFor(rows: seq<Row>, direct: map<Expert, real>, layers: nat, experts: nat, control: Control,
                              o: Outcome)
  {
    && Calibratable(TableOf(rows), direct, layers, experts)
    && Allotted(TableOf(rows), ScaleBy(ScaleMap(TableOf(rows), direct)), o) && o.bytes == control.bytes
  }

  /** The allocator once the experts are scored. */
  method AllocateScored(rows: seq<Row>, direct: map<Expert, real>, layers: nat, experts: nat, control: Control)
      returns (o: Outcome)
    requires forall l, x :: (0 <= l < layers && 0 <= x < experts) <==> (l, x) in direct
    ensures o.Done? <==> Allocatable(rows, direct, layers, experts, control)
    ensures o.Done? ==> AllottedFor(rows, direct, layers, experts, control, o)
  {
    hide TableOf, Allotted, Anchored, Upgrades, ScaleMap;
    var ok, table, units, scales := Weigh(rows, direct, layers, experts);
    if !ok {
      return Failed;
    }
    var upgrades;
    ok, upgrades := CollectUpgrades(table, ScaleBy(scales), units);
    if !ok {
      return Failed;
    }
    OneIncrement(table, ScaleBy(scales), units);
    if |Increments(upgrades)| != 1 {
      return Failed;
    }
    var chosen := Choose(table, ScaleBy(scales), units, upgrades, layers * experts * |PROJECTIONS|);
    forall a | Allotted(table, ScaleBy(scales), a) ensures a == chosen {
      AllottedOnce(table, ScaleBy(scales), a, chosen);
    }
    if exists id :: id in units && id !in control.bits {
      return Failed;
    }
    o := if chosen.bytes != control.bytes then Failed else chosen;
  }

  lemma DirectWanted(layerRows: seq<LayerRow>, layers: nat, experts: nat, direct: map<Expert, real>)
    requires Direct(layerRows, layers, experts, direct)
    ensures forall l, x :: (0 <= l < layers && 0 <= x < experts) <==> (l, x) in direct
  {
  }

  /** The allocator on calibrated damages: it succeeds exactly if every expert is scored, the other inputs are in order,
      the control has every unit and the selection stores the payload of the control. */
  method Allocate(rows: seq<Row>, layerRows: seq<LayerRow>, layers: nat, experts: nat, control: Control)
      returns (o: Outcome)
    ensures o.Done? <==>
            (&& Scored(layerRows, layers, experts)
             && forall d :: Direct(layerRows, layers, experts, d) ==>
               Allocatable(rows, d, layers, experts, control))
    ensures o.Done? ==> exists d :: Direct(layerRows, layers, experts, d)
    ensures o.Done? ==> forall d :: Direct(layerRows, layers, experts, d) ==>
      AllottedFor(rows, d, layers, experts, control, o)
  {
    hide Scored, Direct, Allocatable, AllottedFor;
    var ok, direct := DirectScores(layerRows, layers, experts);
    if !ok {
      return Failed;
    }
    DirectWanted(layerRows, layers, experts, direct);
    o := AllocateScored(rows, direct, layers, experts, control);
    forall d | Direct(layerRows, layers, experts, d) ensures d == direct {
      DirectUnique(layerRows, layers, experts, d, direct);
    }
  }

  /** The calibrated allocation does the least calibrated damage among all choices that give half of the units the
      fourth bit, even where benefits are negative, and all of those store the same bytes: a control allocation of half
      of the same units passes the payload check. */
  lemma CalibratedIsOptimal(table: Table, scale: Id -> real, o: Outcome, ids: seq<Id>, T: set<Id>)
    requires Allotted(table, scale, o) && Uniform(table) && Inventory(table, ids)
    requires |T| == |ids| / 2 && forall id :: id in T ==> id in ids
    ensures o.damage <= Damage(table, scale, ids, T) && Bytes(table, ids, T) == o.bytes
  {
    hide Selected, Bytes, Damage, ChoicesOf;
    var ids' :| Inventory(table, ids') && AllottedOver(table, scale, ids', o);
    InventoryUnique(table, ids, ids');
    var id :| id in table;
    LeastDamageAtSameCount(table, scale, ids, |ids| / 2, Extra(table, id), T);
  }
}

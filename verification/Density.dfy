/** Half of the matrices get a fourth bit: those with the most benefit for each byte it costs. Byte increments may be
    unequal, and damages may be weighed by a scale for each unit. */
module Density {
  import opened Sorting
  import opened Sums

  datatype Id = Id(layer: int, expert: int, projection: string)

  datatype Row = Row(id: Id, bits: int, bytes: int, damage: real)

  type Table = map<Id, map<int, Row>>

  // ---------------------------------------------------------------- the candidate table

  function Put(table: Table, row: Row): Table {
    table[row.id := (if row.id in table then table[row.id] else map[])[row.bits := row]]
  }

  function TableOf(rows: seq<Row>): Table {
    if rows == [] then map[] else Put(TableOf(rows[..|rows| - 1]), rows[|rows| - 1])
  }

  /** The table and its units in the order they are first met. */
  method Collect(rows: seq<Row>) returns (table: Table, order: seq<Id>)
    ensures table == TableOf(rows) && Distinct(order) && Elements(order) == table.Keys
  {
    table, order := map[], [];
    for i := 0 to |rows|
      invariant table == TableOf(rows[..i]) && Distinct(order) && Elements(order) == table.Keys
    {
      assert rows[..i + 1][..i] == rows[..i];
      if rows[i].id !in table {
        assert rows[i].id !in Elements(order);
        order := order + [rows[i].id];
      }
      table := Put(table, rows[i]);
    }
    assert rows[..|rows|] == rows;
  }

  /** Of several rows for a unit and a bit width the last one counts. */
  lemma {:induction false} LastRowWins(rows: seq<Row>, i: int)
    requires 0 <= i < |rows| && forall j :: i < j < |rows| ==> (rows[j].id, rows[j].bits) != (rows[i].id, rows[i].bits)
    ensures rows[i].id in TableOf(rows) && rows[i].bits in TableOf(rows)[rows[i].id]
    ensures TableOf(rows)[rows[i].id][rows[i].bits] == rows[i]
    decreases |rows|
  {
    if i < |rows| - 1 { LastRowWins(rows[..|rows| - 1], i); }
  }

  /** The table holds nothing but rows. */
  lemma {:induction false} OnlyRows(rows: seq<Row>, id: Id, bits: int)
    requires id in TableOf(rows) && bits in TableOf(rows)[id]
    ensures var row := TableOf(rows)[id][bits]; row in rows && row.id == id && row.bits == bits
    decreases |rows|
  {
    var front, last := rows[..|rows| - 1], rows[|rows| - 1];
    if (last.id, last.bits) != (id, bits) { OnlyRows(front, id, bits); }
  }

  lemma {:induction false} OnlyUnits(rows: seq<Row>, id: Id)
    requires id in TableOf(rows)
    ensures exists row :: row in rows && row.id == id
    decreases |rows|
  {
    var front, last := rows[..|rows| - 1], rows[|rows| - 1];
    if last.id == id {
      assert last in rows;
    } else {
      OnlyUnits(front, id);
      var row :| row in front && row.id == id;
      assert row in rows;
    }
  }

  lemma {:induction false} Present(rows: seq<Row>, row: Row)
    requires row in rows
    ensures row.id in TableOf(rows) && row.bits in TableOf(rows)[row.id]
    decreases |rows|
  {
    var front, last := rows[..|rows| - 1], rows[|rows| - 1];
    if row != last {
      assert row in front;
      Present(front, row);
    }
  }

  lemma UnitWithin(rows: seq<Row>, rows': seq<Row>, id: Id)
    requires forall r :: r in rows <==> r in rows'
    requires forall r, r' :: r in rows && r' in rows && r.id == r'.id && r.bits == r'.bits ==> r == r'
    requires id in TableOf(rows)
    ensures id in TableOf(rows')
    ensures forall bits :: bits in TableOf(rows)[id] ==>
      bits in TableOf(rows')[id] && TableOf(rows')[id][bits] == TableOf(rows)[id][bits]
  {
    hide TableOf;
    OnlyUnits(rows, id);
    var row :| row in rows && row.id == id;
    Present(rows', row);
    forall bits | bits in TableOf(rows)[id]
      ensures bits in TableOf(rows')[id] && TableOf(rows')[id][bits] == TableOf(rows)[id][bits]
    {
      OnlyRows(rows, id, bits);
      Present(rows', TableOf(rows)[id][bits]);
      OnlyRows(rows', id, bits);
    }
  }

  /** Without two rows for the same unit and bit width, the order of the rows does not matter. */
  lemma TableIgnoresOrder(rows: seq<Row>, rows': seq<Row>)
    requires forall r :: r in rows <==> r in rows'
    requires forall r, r' :: r in rows && r' in rows && r.id == r'.id && r.bits == r'.bits ==> r == r'
    ensures TableOf(rows) == TableOf(rows')
  {
    hide TableOf;
    var t, t' := TableOf(rows), TableOf(rows');
    forall id | id in t || id in t' ensures id in t && id in t' && t[id] == t'[id] {
      if id in t { UnitWithin(rows, rows', id); }
      UnitWithin(rows', rows, id);
      UnitWithin(rows, rows', id);
      assert forall bits :: bits in t[id] <==> bits in t'[id];
      assert forall bits :: bits in t[id] ==> t[id][bits] == t'[id][bits];
      assert t[id].Keys == t'[id].Keys;
    }
  }

  // ---------------------------------------------------------------- the ranking

  predicate TextLess(a: string, b: string) {
    b != [] && (a == [] || a[0] < b[0] || (a[0] == b[0] && TextLess(a[1..], b[1..])))
  }

  lemma {:induction false} TextTotal(a: string, b: string)
    ensures a == b || TextLess(a, b) || TextLess(b, a)
    ensures !TextLess(a, a)
    decreases |a|
  {
    if a != [] && b != [] {
      TextTotal(a[1..], b[1..]);
      assert a == [a[0]] + a[1..] && b == [b[0]] + b[1..];
    } else if a != [] {
      TextTotal(a[1..], a[1..]);
    }
  }

  lemma {:induction false} TextTransitive(a: string, b: string, c: string)
    requires TextLess(a, b) && TextLess(b, c)
    ensures TextLess(a, c)
    decreases |a|
  {
    if a != [] && a[0] == b[0] == c[0] { TextTransitive(a[1..], b[1..], c[1..]); }
  }

  predicate IdLess(a: Id, b: Id) {
    a.layer < b.layer
      || (a.layer == b.layer && (a.expert < b.expert || (a.expert == b.expert && TextLess(a.projection, b.projection))))
  }

  /** a is a prefix of b, or the first character after n equal ones is smaller. */
  predicate LessAt(a: string, b: string, n: nat) {
    n <= |a| && n < |b| && a[..n] == b[..n] && (n == |a| || a[n] < b[n])
  }

  lemma LessAtTail(a: string, b: string, n: nat)
    requires a != [] && b != [] && a[0] == b[0]
    ensures LessAt(a, b, n + 1) <==> LessAt(a[1..], b[1..], n)
    ensures !LessAt(a, b, 0)
  {
    if n < |a| && n < |b| {
      assert a[..n + 1] == [a[0]] + a[1..][..n] && b[..n + 1] == [b[0]] + b[1..][..n];
      assert a[1..][..n] == a[..n + 1][1..] && b[1..][..n] == b[..n + 1][1..];
    }
  }

  lemma AtStart(a: string, b: string)
    ensures LessAt(a, b, 0) <==> b != [] && (a == [] || a[0] < b[0])
  {
    assert a[..0] == [] == b[..0];
  }

  lemma SameHead(a: string, b: string, n: nat)
    requires 0 < n <= |a| && n < |b| && a[..n] == b[..n]
    ensures a[0] == b[0]
  {
    assert a[..n][0] == b[..n][0];
  }

  lemma LessAtHead(a: string, b: string, n: nat)
    requires LessAt(a, b, n) && (a == [] || b == [] || a[0] != b[0])
    ensures n == 0
  {
    if n > 0 { SameHead(a, b, n); }
  }

  /** Texts are compared at the first place where they differ; a prefix comes first. */
  lemma {:induction false} TextLessIff(a: string, b: string)
    ensures TextLess(a, b) <==> exists n: nat :: LessAt(a, b, n)
    decreases |a|
  {
    hide LessAt;
    if a != [] && b != [] && a[0] == b[0] {
      TextLessIff(a[1..], b[1..]);
      if n: nat :| LessAt(a[1..], b[1..], n) { LessAtTail(a, b, n); }
      if n: nat :| LessAt(a, b, n) { LessAtTail(a, b, if n == 0 then 0 else n - 1); }
    } else {
      if n: nat :| LessAt(a, b, n) {
        LessAtHead(a, b, n);
        AtStart(a, b);
      }
      AtStart(a, b);
    }
  }

  lemma IdTotal(a: Id, b: Id)
    ensures (a == b || IdLess(a, b) || IdLess(b, a)) && !IdLess(a, a)
  {
    TextTotal(a.projection, b.projection);
  }

  lemma IdTransitive(a: Id, b: Id, c: Id)
    requires IdLess(a, b) && IdLess(b, c)
    ensures IdLess(a, c)
  {
    if a.layer == c.layer && a.expert == c.expert { TextTransitive(a.projection, b.projection, c.projection); }
  }

  lemma IdsOrdered(S: set<Id>)
    ensures Orders(IdLess, S)
  {
    forall a, b | a in S && b in S ensures (a == b || IdLess(a, b) || IdLess(b, a)) && !IdLess(a, a) { IdTotal(a, b); }
    forall a, b, c | a in S && b in S && c in S && IdLess(a, b) && IdLess(b, c) ensures IdLess(a, c) {
      IdTransitive(a, b, c);
    }
  }

  datatype Upgrade = Upgrade(density: real, benefit: real, id: Id, extra: int)

  /** The sort key: density falling, benefit falling, identity rising. */
  predicate Before(a: Upgrade, b: Upgrade) {
    a.density > b.density
      || (a.density == b.density && (a.benefit > b.benefit || (a.benefit == b.benefit && IdLess(a.id, b.id))))
  }

  lemma UpgradesOrdered(S: set<Upgrade>)
    requires forall a, b :: a in S && b in S && a.id == b.id ==> a == b
    ensures Orders(Before, S)
  {
    forall a, b | a in S && b in S ensures (a == b || Before(a, b) || Before(b, a)) && !Before(a, a) {
      IdTotal(a.id, b.id);
    }
    forall a, b, c | a in S && b in S && c in S && Before(a, b) && Before(b, c) ensures Before(a, c) {
      if a.density == c.density && a.benefit == c.benefit { IdTransitive(a.id, b.id, c.id); }
    }
  }

  /** Every unit has its two candidates. */
  predicate Complete(table: Table, expected: nat) {
    |table| == expected && forall id :: id in table ==> table[id].Keys == {3, 4}
  }

  /** Every fourth bit costs something. */
  predicate Priced(table: Table) {
    forall id :: id in table ==> table[id].Keys == {3, 4} && table[id][4].bytes > table[id][3].bytes
  }

  function Extra(table: Table, id: Id): (e: int)
    requires Priced(table) && id in table
    ensures e > 0
  {
    table[id][4].bytes - table[id][3].bytes
  }

  /** How much the scaled damage of a unit goes down. */
  function Benefit(table: Table, scale: Id -> real, id: Id): real
    requires Priced(table) && id in table
  {
    scale(id) * (table[id][3].damage - table[id][4].damage)
  }

  function UpgradeOf(table: Table, scale: Id -> real, id: Id): Upgrade
    requires Priced(table) && id in table
  {
    var b := Benefit(table, scale, id);
    Upgrade(b / (Extra(table, id) as real), b, id, Extra(table, id))
  }

  function Upgrades(table: Table, scale: Id -> real, ids: seq<Id>): (u: seq<Upgrade>)
    requires Priced(table) && forall id :: id in ids ==> id in table
    ensures |u| == |ids|
  {
    seq(|ids|, i requires 0 <= i < |ids| => UpgradeOf(table, scale, ids[i]))
  }

  function Ranked(table: Table, scale: Id -> real, ids: seq<Id>): (u: seq<Upgrade>)
    requires Priced(table) && forall id :: id in ids ==> id in table
    ensures |u| == |ids|
  {
    Sort(Before, Upgrades(table, scale, ids))
  }

  /** The units of the first k upgrades. */
  function Selected(table: Table, scale: Id -> real, ids: seq<Id>, k: nat): set<Id>
    requires Priced(table) && k <= |ids| && forall id :: id in ids ==> id in table
  {
    set u | u in Ranked(table, scale, ids)[..k] :: u.id
  }

  lemma UpgradesDistinct(table: Table, scale: Id -> real, ids: seq<Id>)
    requires Priced(table) && Distinct(ids) && forall id :: id in ids ==> id in table
    ensures var u := Upgrades(table, scale, ids);
            Distinct(u) && Orders(Before, Elements(u))
            && Elements(u) == set id | id in ids :: UpgradeOf(table, scale, id)
  {
    var u := Upgrades(table, scale, ids);
    forall i, j | 0 <= i < j < |u| ensures u[i] != u[j] { assert u[i].id == ids[i] && u[j].id == ids[j]; }
    assert forall a :: a in Elements(u) ==> a.id in ids && a == UpgradeOf(table, scale, a.id);
    forall id | id in ids ensures UpgradeOf(table, scale, id) in Elements(u) {
      var i :| 0 <= i < |ids| && ids[i] == id;
      assert u[i] in u;
    }
    UpgradesOrdered(Elements(u));
  }

  /** The ranking does not depend on the order in which the units are met. */
  lemma RankingIgnoresOrder(table: Table, scale: Id -> real, ids: seq<Id>, ids': seq<Id>)
    requires Priced(table) && Distinct(ids) && Distinct(ids') && Elements(ids) == Elements(ids') == table.Keys
    ensures forall id :: (id in ids <==> id in table) && (id in ids' <==> id in table)
    ensures Ranked(table, scale, ids) == Ranked(table, scale, ids')
  {
    assert forall id :: id in ids <==> id in Elements(ids);
    assert forall id :: id in ids' <==> id in Elements(ids');
    UpgradesDistinct(table, scale, ids);
    UpgradesDistinct(table, scale, ids');
    SortIgnoresOrder(Before, Upgrades(table, scale, ids), Upgrades(table, scale, ids'));
  }

  // ---------------------------------------------------------------- optimality

  /** What the units of S are worth together. */
  function Gain(ids: seq<Id>, f: Id -> real, S: set<Id>): real {
    if ids == [] then 0.0
    else Gain(ids[..|ids| - 1], f, S) + if ids[|ids| - 1] in S then f(ids[|ids| - 1]) else 0.0
  }

  lemma TakeOne(g: real, d: real, f: real, e: real, tau: real, s: bool, t: bool)
    requires g >= tau * d && if s then f >= tau * e else f <= tau * e
    ensures g + (if s then f else 0.0) - (if t then f else 0.0)
      >= tau * (d + (if s then e else 0.0) - (if t then e else 0.0))
  {
    assert tau * (d + e) == tau * d + tau * e;
    assert tau * (d - e) == tau * d - tau * e;
  }

  lemma GainUnfolds(ids: seq<Id>, f: Id -> real, S: set<Id>)
    ensures ids == [] ==> Gain(ids, f, S) == 0.0
    ensures ids != [] ==>
      Gain(ids, f, S) == Gain(ids[..|ids| - 1], f, S) + if ids[|ids| - 1] in S then f(ids[|ids| - 1]) else 0.0
  {
  }

  /** If every unit in S is worth at least tau times its cost and every other unit at most that, then no other set is
      worth more than S by more than tau times what it costs more. */
  lemma {:induction false} Lagrange(ids: seq<Id>, f: Id -> real, e: Id -> real, S: set<Id>, T: set<Id>, tau: real)
    requires forall id :: id in ids ==> if id in S then f(id) >= tau * e(id) else f(id) <= tau * e(id)
    ensures Gain(ids, f, S) - Gain(ids, f, T) >= tau * (Gain(ids, e, S) - Gain(ids, e, T))
  {
    hide Gain;
    GainUnfolds(ids, f, S);
    GainUnfolds(ids, f, T);
    GainUnfolds(ids, e, S);
    GainUnfolds(ids, e, T);
    if ids != [] {
      var front, id := ids[..|ids| - 1], ids[|ids| - 1];
      Lagrange(front, f, e, S, T, tau);
      TakeOne(Gain(front, f, S) - Gain(front, f, T), Gain(front, e, S) - Gain(front, e, T), f(id), e(id), tau, id in S,
        id in T);
    }
  }

  /** Stored bytes when the units of S get the fourth bit. */
  function Bytes(table: Table, ids: seq<Id>, S: set<Id>): int
    requires Priced(table) && forall id :: id in ids ==> id in table
  {
    if ids == [] then 0
    else var id := ids[|ids| - 1]; Bytes(table, ids[..|ids| - 1], S) + table[id][if id in S then 4 else 3].bytes
  }

  /** Scaled damage when the units of S get the fourth bit. */
  function Damage(table: Table, scale: Id -> real, ids: seq<Id>, S: set<Id>): real
    requires Priced(table) && forall id :: id in ids ==> id in table
  {
    if ids == [] then 0.0
    else var id := ids[|ids| - 1];
         Damage(table, scale, ids[..|ids| - 1], S) + scale(id) * table[id][if id in S then 4 else 3].damage
  }

  function Cost(table: Table): Id -> real
    requires Priced(table)
  {
    id => if id in table then Extra(table, id) as real else 0.0
  }

  function Worth(table: Table, scale: Id -> real): Id -> real
    requires Priced(table)
  {
    id => if id in table then Benefit(table, scale, id) else 0.0
  }

  lemma {:induction false} BytesAreCosts(table: Table, ids: seq<Id>, S: set<Id>)
    requires Priced(table) && forall id :: id in ids ==> id in table
    ensures (Bytes(table, ids, S) - Bytes(table, ids, {})) as real == Gain(ids, Cost(table), S)
  {
    if ids != [] { BytesAreCosts(table, ids[..|ids| - 1], S); }
  }

  lemma {:induction false} DamageIsWorth(table: Table, scale: Id -> real, ids: seq<Id>, S: set<Id>)
    requires Priced(table) && forall id :: id in ids ==> id in table
    ensures Damage(table, scale, ids, S) == Damage(table, scale, ids, {}) - Gain(ids, Worth(table, scale), S)
  {
    if ids != [] {
      DamageIsWorth(table, scale, ids[..|ids| - 1], S);
      var id := ids[|ids| - 1];
      var s, a, b := scale(id), table[id][3].damage, table[id][4].damage;
      assert s * (a - b) == s * a - s * b;
    }
  }

  /** The density at which the selection ends. */
  function Threshold(table: Table, scale: Id -> real, ids: seq<Id>, k: nat): real
    requires Priced(table) && k <= |ids| && forall id :: id in ids ==> id in table
  {
    if ids == [] then 0.0 else Ranked(table, scale, ids)[if k == 0 then 0 else k - 1].density
  }

  lemma RankedIsAscending(table: Table, scale: Id -> real, ids: seq<Id>)
    requires Priced(table) && Distinct(ids) && forall id :: id in ids ==> id in table
    ensures var r := Ranked(table, scale, ids);
            Ascending(Before, r) && (forall u :: u in r ==> u.id in ids && u == UpgradeOf(table, scale, u.id))
            && forall id :: id in ids ==> UpgradeOf(table, scale, id) in r
  {
    UpgradesDistinct(table, scale, ids);
    SortIsSorted(Before, Upgrades(table, scale, ids));
    var r := Ranked(table, scale, ids);
    assert forall u :: u in r <==> u in Elements(r);
  }

  /** Unit j of the ranking is selected exactly if j < k. */
  lemma SelectedAt(table: Table, scale: Id -> real, ids: seq<Id>, k: nat, j: nat)
    requires Priced(table) && Distinct(ids) && k <= |ids| && j < |ids| && forall id :: id in ids ==> id in table
    ensures Ranked(table, scale, ids)[j].id in Selected(table, scale, ids, k) <==> j < k
  {
    RankedIsAscending(table, scale, ids);
    var r := Ranked(table, scale, ids);
    if j < k {
      assert r[j] == r[..k][j];
    } else {
      forall u | u in r[..k] ensures u.id != r[j].id {
        var i :| 0 <= i < k && r[i] == u;
        assert Before(r[i], r[j]) && r[i] in r && r[j] in r;
        IdTotal(u.id, u.id);
      }
    }
  }

  /** The densities of the ranking fall through the threshold at k. */
  lemma AcrossThreshold(table: Table, scale: Id -> real, ids: seq<Id>, k: nat, j: nat)
    requires Priced(table) && Distinct(ids) && k <= |ids| && j < |ids| && forall x :: x in ids ==> x in table
    ensures var tau, d := Threshold(table, scale, ids, k), Ranked(table, scale, ids)[j].density;
            if j < k then d >= tau else d <= tau
  {
    hide Ranked;
    RankedIsAscending(table, scale, ids);
    var r := Ranked(table, scale, ids);
    var at := if k == 0 then 0 else k - 1;
    assert j < at ==> Before(r[j], r[at]);
    assert at < j ==> Before(r[at], r[j]);
  }

  lemma Compare(b: real, e: real, tau: real)
    requires e > 0.0
    ensures (b / e >= tau ==> b >= tau * e) && (b / e <= tau ==> b <= tau * e)
  {
    var q := b / e;
    assert q * e == b;
    if q >= tau { assert q * e >= tau * e; }
    if q <= tau { assert q * e <= tau * e; }
  }

  lemma DensityIs(table: Table, scale: Id -> real, id: Id)
    requires Priced(table) && id in table
    ensures var e, u := Extra(table, id) as real, UpgradeOf(table, scale, id);
            e > 0.0 && u.density == Benefit(table, scale, id) / e && u.id == id
  {
    hide Benefit;
  }

  lemma Sides(table: Table, scale: Id -> real, ids: seq<Id>, k: nat, id: Id)
    requires Priced(table) && Distinct(ids) && k <= |ids| && id in ids && forall x :: x in ids ==> x in table
    ensures var tau, b, e := Threshold(table, scale, ids, k), Benefit(table, scale, id), Extra(table, id) as real;
            if id in Selected(table, scale, ids, k) then b >= tau * e else b <= tau * e
  {
    hide Selected, Ranked, Threshold, Benefit, Extra, UpgradeOf, Priced, Before, Distinct;
    RankedIsAscending(table, scale, ids);
    var r, u := Ranked(table, scale, ids), UpgradeOf(table, scale, id);
    var j :| 0 <= j < |r| && r[j] == u;
    DensityIs(table, scale, id);
    SelectedAt(table, scale, ids, k, j);
    AcrossThreshold(table, scale, ids, k, j);
    Compare(Benefit(table, scale, id), Extra(table, id) as real, Threshold(table, scale, ids, k));
  }

  /** The selection against any other set of units. */
  lemma Exchange(table: Table, scale: Id -> real, ids: seq<Id>, k: nat, T: set<Id>)
    requires Priced(table) && Distinct(ids) && k <= |ids| && forall id :: id in ids ==> id in table
    ensures var S := Selected(table, scale, ids, k);
            Damage(table, scale, ids, T) - Damage(table, scale, ids, S)
            >= Threshold(table, scale, ids, k) * ((Bytes(table, ids, S) - Bytes(table, ids, T)) as real)
  {
    hide Selected, Threshold, Gain, Bytes, Damage;
    var S, tau := Selected(table, scale, ids, k), Threshold(table, scale, ids, k);
    forall id | id in ids
      ensures var f, e := Worth(table, scale)(id), Cost(table)(id); if id in S then f >= tau * e else f <= tau * e
    {
      Sides(table, scale, ids, k, id);
    }
    Lagrange(ids, Worth(table, scale), Cost(table), S, T, tau);
    BytesAreCosts(table, ids, S);
    BytesAreCosts(table, ids, T);
    DamageIsWorth(table, scale, ids, S);
    DamageIsWorth(table, scale, ids, T);
    assert Gain(ids, Cost(table), S) - Gain(ids, Cost(table), T)
      == (Bytes(table, ids, S) - Bytes(table, ids, T)) as real;
  }

  /** Among all choices that store exactly as many bytes, whatever their number of upgrades, the selection does the
      least damage. */
  lemma LeastDamageAtSameBytes(table: Table, scale: Id -> real, ids: seq<Id>, k: nat, T: set<Id>)
    requires Priced(table) && Distinct(ids) && k <= |ids| && forall id :: id in ids ==> id in table
    requires Bytes(table, ids, T) == Bytes(table, ids, Selected(table, scale, ids, k))
    ensures Damage(table, scale, ids, Selected(table, scale, ids, k)) <= Damage(table, scale, ids, T)
  {
    Exchange(table, scale, ids, k, T);
  }

  lemma {:induction false} GainDrop(ids: seq<Id>, f: Id -> real, S: set<Id>, x: Id)
    requires Distinct(ids) && x in S
    ensures Gain(ids, f, S) == Gain(ids, f, S - {x}) + if x in ids then f(x) else 0.0
  {
    if ids != [] {
      var front := ids[..|ids| - 1];
      assert ids == front + [ids[|ids| - 1]];
      GainDrop(front, f, S, x);
    }
  }

  lemma {:induction false} CostsNothingLess(table: Table, ids: seq<Id>, T: set<Id>)
    requires Priced(table) && forall id :: id in ids ==> id in table
    ensures Bytes(table, ids, {}) <= Bytes(table, ids, T)
  {
    if ids != [] { CostsNothingLess(table, ids[..|ids| - 1], T); }
  }

  lemma NegativeDensity(b: real, e: real)
    requires e > 0.0 && b / e < 0.0
    ensures b < 0.0
  {
  }

  /** Without its last unit the selection stores less, and by a negative threshold it does less damage. */
  lemma DropLast(table: Table, scale: Id -> real, ids: seq<Id>, k: nat)
    requires Priced(table) && Distinct(ids) && 0 < k <= |ids| && forall id :: id in ids ==> id in table
    requires Threshold(table, scale, ids, k) < 0.0
    ensures var S := Selected(table, scale, ids, k); var T := S - {Ranked(table, scale, ids)[k - 1].id};
            Bytes(table, ids, T) < Bytes(table, ids, S) && Damage(table, scale, ids, T) < Damage(table, scale, ids, S)
  {
    hide Ranked, Selected, Bytes, Damage, Gain;
    var S, last := Selected(table, scale, ids, k), Ranked(table, scale, ids)[k - 1];
    var T := S - {last.id};
    RankedIsAscending(table, scale, ids);
    SelectedAt(table, scale, ids, k, k - 1);
    assert last in Ranked(table, scale, ids);
    GainDrop(ids, Cost(table), S, last.id);
    GainDrop(ids, Worth(table, scale), S, last.id);
    BytesAreCosts(table, ids, S);
    BytesAreCosts(table, ids, T);
    DamageIsWorth(table, scale, ids, S);
    DamageIsWorth(table, scale, ids, T);
    NegativeDensity(last.benefit, last.extra as real);
  }

  lemma NotNegative(x: real, y: real)
    requires x >= 0.0 && y >= 0.0
    ensures x * y >= 0.0
  {
  }

  lemma NoneSelected(table: Table, scale: Id -> real, ids: seq<Id>)
    requires Priced(table) && forall id :: id in ids ==> id in table
    ensures Selected(table, scale, ids, 0) == {}
  {
  }

  lemma LeastDamageWithinBytes(table: Table, scale: Id -> real, ids: seq<Id>, k: nat, T: set<Id>)
    requires Priced(table) && Distinct(ids) && k <= |ids| && forall id :: id in ids ==> id in table
    requires k == 0 || Threshold(table, scale, ids, k) >= 0.0
    requires Bytes(table, ids, T) <= Bytes(table, ids, Selected(table, scale, ids, k))
    ensures Damage(table, scale, ids, Selected(table, scale, ids, k)) <= Damage(table, scale, ids, T)
  {
    hide Selected, Threshold, Bytes, Damage;
    var S, tau := Selected(table, scale, ids, k), Threshold(table, scale, ids, k);
    var saved := (Bytes(table, ids, S) - Bytes(table, ids, T)) as real;
    Exchange(table, scale, ids, k, T);
    if k == 0 {
      NoneSelected(table, scale, ids);
      CostsNothingLess(table, ids, T);
      assert saved == 0.0;
    } else {
      NotNegative(tau, saved);
    }
  }

  /** The selection does the least damage among all choices that store no more bytes if and only if it is empty or the
      threshold is not negative. */
  lemma LeastDamageWithinBytesIff(table: Table, scale: Id -> real, ids: seq<Id>, k: nat)
    requires Priced(table) && Distinct(ids) && k <= |ids| && forall id :: id in ids ==> id in table
    ensures var S := Selected(table, scale, ids, k);
            (forall T: set<Id> :: Bytes(table, ids, T) <= Bytes(table, ids, S) ==>
               Damage(table, scale, ids, S) <= Damage(table, scale, ids, T))
            <==> k == 0 || Threshold(table, scale, ids, k) >= 0.0
  {
    hide Selected, Threshold, Bytes, Damage;
    var S, tau := Selected(table, scale, ids, k), Threshold(table, scale, ids, k);
    if k > 0 && tau < 0.0 {
      DropLast(table, scale, ids, k);
    } else {
      forall T: set<Id> | Bytes(table, ids, T) <= Bytes(table, ids, S)
        ensures Damage(table, scale, ids, S) <= Damage(table, scale, ids, T)
      {
        LeastDamageWithinBytes(table, scale, ids, k, T);
      }
    }
  }

  // ---------------------------------------------------------------- equal increments

  lemma OneMore(e: real, n: nat)
    ensures e * ((n + 1) as real) == e * (n as real) + e
  {
  }

  lemma {:induction false} GainConstant(ids: seq<Id>, f: Id -> real, S: set<Id>, e: real)
    requires Distinct(ids) && (forall id :: id in ids ==> f(id) == e) && forall id :: id in S ==> id in ids
    ensures Gain(ids, f, S) == e * (|S| as real)
    decreases |ids|
  {
    hide Gain;
    GainUnfolds(ids, f, S);
    if ids == [] {
      assert S == {};
    } else {
      var front, id := ids[..|ids| - 1], ids[|ids| - 1];
      assert ids == front + [id];
      if id in S {
        var R := S - {id};
        GainConstant(front, f, R, e);
        GainDrop(front, f, S, id);
        OneMore(e, |R|);
        assert |S| == |R| + 1;
      } else {
        GainConstant(front, f, S, e);
      }
    }
  }

  lemma SelectedStep(table: Table, scale: Id -> real, ids: seq<Id>, k: nat)
    requires Priced(table) && 0 < k <= |ids| && forall id :: id in ids ==> id in table
    ensures Selected(table, scale, ids, k) == Selected(table, scale, ids, k - 1) + {Ranked(table, scale, ids)[k - 1].id}
  {
    hide Ranked;
    var r := Ranked(table, scale, ids);
    assert r[..k] == r[..k - 1] + [r[k - 1]];
  }

  lemma {:induction false} SelectedCount(table: Table, scale: Id -> real, ids: seq<Id>, k: nat)
    requires Priced(table) && Distinct(ids) && k <= |ids| && forall id :: id in ids ==> id in table
    ensures |Selected(table, scale, ids, k)| == k && forall id :: id in Selected(table, scale, ids, k) ==> id in ids
    decreases k
  {
    hide Ranked, Selected, Threshold;
    if k == 0 {
      NoneSelected(table, scale, ids);
    } else {
      SelectedCount(table, scale, ids, k - 1);
      SelectedAt(table, scale, ids, k - 1, k - 1);
      SelectedStep(table, scale, ids, k);
      RankedIsAscending(table, scale, ids);
      assert Ranked(table, scale, ids)[k - 1] in Ranked(table, scale, ids);
    }
  }

  /** No weighing. */
  function One(): Id -> real { _ => 1.0 }

  lemma HarmIsSelected(table: Table, ids: seq<Id>)
    requires Priced(table) && Distinct(ids) && |ids| >= 2 && forall id :: id in ids ==> id in table
    requires forall id :: id in ids ==> Extra(table, id) == 1 && Benefit(table, One(), id) == -1.0
    ensures var S := Selected(table, One(), ids, |ids| / 2);
            Bytes(table, ids, {}) < Bytes(table, ids, S) && Damage(table, One(), ids, {}) < Damage(table, One(), ids, S)
  {
    hide Selected, Bytes, Damage, Gain, Extra, Benefit;
    var S := Selected(table, One(), ids, |ids| / 2);
    SelectedCount(table, One(), ids, |ids| / 2);
    GainConstant(ids, Cost(table), S, 1.0);
    GainConstant(ids, Worth(table, One()), S, -1.0);
    BytesAreCosts(table, ids, S);
    DamageIsWorth(table, One(), ids, S);
  }

  /** Two units that a fourth bit makes worse: upgrading none stores less and does less damage than the selection. */
  lemma HarmfulUpgrades() returns (table: Table, ids: seq<Id>)
    ensures Complete(table, 2) && Priced(table) && Distinct(ids) && forall id :: id in ids <==> id in table
    ensures var S := Selected(table, One(), ids, |ids| / 2);
            Bytes(table, ids, {}) < Bytes(table, ids, S) && Damage(table, One(), ids, {}) < Damage(table, One(), ids, S)
  {
    var a, b := Id(0, 0, "gate_proj"), Id(0, 0, "up_proj");
    var worse := (id: Id) => map[3 := Row(id, 3, 1, 0.0), 4 := Row(id, 4, 2, 1.0)];
    table, ids := map[a := worse(a), b := worse(b)], [a, b];
    assert a.projection[0] != b.projection[0];
    assert table.Keys == {a, b};
    HarmIsSelected(table, ids);
  }

  lemma ProductAsReal(e: int, k: nat)
    ensures (e as real) * (k as real) == (e * k) as real
  {
  }

  /** With equal increments all choices of as many units store the same bytes, and the selection does the least scaled
      damage among them, whatever the signs of the benefits. */
  lemma LeastDamageAtSameCount(table: Table, scale: Id -> real, ids: seq<Id>, k: nat, e: int, T: set<Id>)
    requires Priced(table) && Distinct(ids) && k <= |ids| && forall id :: id in ids ==>
      id in table && Extra(table, id) == e
    requires |T| == k && forall id :: id in T ==> id in ids
    ensures var S := Selected(table, scale, ids, k);
            |S| == k && Bytes(table, ids, T) == Bytes(table, ids, S) == Bytes(table, ids, {}) + e * k
            && Damage(table, scale, ids, S) <= Damage(table, scale, ids, T)
  {
    hide Selected, Bytes, Damage, Gain;
    var S := Selected(table, scale, ids, k);
    SelectedCount(table, scale, ids, k);
    GainConstant(ids, Cost(table), S, e as real);
    GainConstant(ids, Cost(table), T, e as real);
    BytesAreCosts(table, ids, S);
    BytesAreCosts(table, ids, T);
    ProductAsReal(e, k);
    LeastDamageAtSameBytes(table, scale, ids, k, T);
  }

  // ---------------------------------------------------------------- the plain allocator

  datatype Choice = Choice(id: Id, bits: int)

  datatype Outcome = Done(choices: seq<Choice>, bytes: int, damage: real) | Failed

  /** Every unit once, in rising order. */
  ghost predicate Inventory(table: Table, ids: seq<Id>) {
    Distinct(ids) && Ascending(IdLess, ids) && Elements(ids) == table.Keys && forall id :: id in ids <==> id in table
  }

  /** The units of S get four bits, the others three. */
  function ChoicesOf(ids: seq<Id>, S: set<Id>): seq<Choice> {
    seq(|ids|, i requires 0 <= i < |ids| => Choice(ids[i], if ids[i] in S then 4 else 3))
  }

  ghost predicate AllottedOver(table: Table, scale: Id -> real, ids: seq<Id>, o: Outcome)
    requires Priced(table) && o.Done? && forall id :: id in ids ==> id in table
  {
    var S := Selected(table, scale, ids, |ids| / 2);
    o.choices == ChoicesOf(ids, S) && o.bytes == Bytes(table, ids, S) && o.damage == Damage(table, scale, ids, S)
  }

  /** What an allocation of the table is: in rising order of the units, with the selection's bytes and damage. */
  ghost predicate Allotted(table: Table, scale: Id -> real, o: Outcome)
    ensures Allotted(table, scale, o) ==> Priced(table) && o.Done?
  {
    && Priced(table) && o.Done?
    && exists ids :: Inventory(table, ids) && AllottedOver(table, scale, ids, o)
  }

  /** The loop over the table: an upgrade for every unit, unless one costs nothing more. */
  method CollectUpgrades(table: Table, scale: Id -> real, order: seq<Id>) returns (ok: bool, upgrades: seq<Upgrade>)
    requires (forall id :: id in order <==> id in table) && forall id :: id in table ==> table[id].Keys == {3, 4}
    ensures ok <==> Priced(table)
    ensures ok ==> upgrades == Upgrades(table, scale, order)
  {
    upgrades := [];
    for i := 0 to |order|
      invariant |upgrades| == i
      invariant forall j :: 0 <= j < i ==> table[order[j]][4].bytes > table[order[j]][3].bytes
      invariant Priced(table) ==> forall j :: 0 <= j < i ==> upgrades[j] == UpgradeOf(table, scale, order[j])
    {
      var id := order[i];
      var extra := table[id][4].bytes - table[id][3].bytes;
      if extra <= 0 {
        return false, [];
      }
      var benefit := scale(id) * (table[id][3].damage - table[id][4].damage);
      upgrades := upgrades + [Upgrade(benefit / (extra as real), benefit, id, extra)];
    }
    ok := true;
    forall id | id in table ensures table[id][4].bytes > table[id][3].bytes {
      var j :| 0 <= j < |order| && order[j] == id;
    }
  }

  lemma RankedIs(table: Table, scale: Id -> real, ids: seq<Id>)
    requires Priced(table) && forall id :: id in ids ==> id in table
    ensures Ranked(table, scale, ids) == Sort(Before, Upgrades(table, scale, ids))
  {
  }

  lemma SortedInventory(table: Table, order: seq<Id>)
    requires Distinct(order) && Elements(order) == table.Keys
    ensures Inventory(table, Sort(IdLess, order))
  {
    IdsOrdered(Elements(order));
    SortIsSorted(IdLess, order);
    var ids := Sort(IdLess, order);
    forall i, j | 0 <= i < j < |ids| ensures ids[i] != ids[j] { IdTotal(ids[i], ids[i]); }
    assert forall id :: id in ids <==> id in Elements(ids);
  }

  lemma SelectedIs(table: Table, scale: Id -> real, ids: seq<Id>, k: nat, ranked: seq<Upgrade>)
    requires Priced(table) && k <= |ids| && forall id :: id in ids ==> id in table
    requires ranked == Ranked(table, scale, ids)
    ensures (set u | u in ranked[..k] :: u.id) == Selected(table, scale, ids, k)
  {
  }

  lemma NoTotals(table: Table, scale: Id -> real, ids: seq<Id>, S: set<Id>)
    requires Priced(table)
    ensures Bytes(table, ids[..0], S) == 0 && Damage(table, scale, ids[..0], S) == 0.0 && ChoicesOf(ids[..0], S) == []
  {
  }

  lemma TotalsStep(table: Table, scale: Id -> real, ids: seq<Id>, S: set<Id>, i: nat)
    requires Priced(table) && i < |ids| && forall id :: id in ids ==> id in table
    ensures forall id :: id in ids[..i + 1] ==> id in table
    ensures var bits := if ids[i] in S then 4 else 3;
            && bits in table[ids[i]]
            && var row := table[ids[i]][bits];
               Bytes(table, ids[..i + 1], S) == Bytes(table, ids[..i], S) + row.bytes
               && Damage(table, scale, ids[..i + 1], S)
                 == Damage(table, scale, ids[..i], S) + scale(ids[i]) * row.damage
               && ChoicesOf(ids[..i + 1], S) == ChoicesOf(ids[..i], S) + [Choice(ids[i], bits)]
  {
    assert ids[..i + 1][..i] == ids[..i];
  }

  /** The loop over the sorted units. */
  method Account(table: Table, scale: Id -> real, ids: seq<Id>, selected: set<Id>) returns (o: Outcome)
    requires Priced(table) && forall id :: id in ids ==> id in table
    ensures o == Done(ChoicesOf(ids, selected), Bytes(table, ids, selected), Damage(table, scale, ids, selected))
  {
    hide Bytes, Damage, ChoicesOf, Priced;
    var choices, bytes, damage := [], 0, 0.0;
    NoTotals(table, scale, ids, selected);
    for i := 0 to |ids|
      invariant choices == ChoicesOf(ids[..i], selected)
      invariant bytes == Bytes(table, ids[..i], selected) && damage == Damage(table, scale, ids[..i], selected)
    {
      var id := ids[i];
      var bits := if id in selected then 4 else 3;
      TotalsStep(table, scale, ids, selected, i);
      var row := table[id][bits];
      var term := scale(id) * row.damage;
      assert Damage(table, scale, ids[..i + 1], selected) == damage + term;
      bytes, damage := bytes + row.bytes, damage + term;
      choices := choices + [Choice(id, bits)];
    }
    assert ids[..|ids|] == ids;
    o := Done(choices, bytes, damage);
  }

  /** Ranking, selection and accounting. */
  method Choose(table: Table, scale: Id -> real, order: seq<Id>, upgrades: seq<Upgrade>, expected: nat)
      returns (o: Outcome)
    requires Priced(table) && Distinct(order) && Elements(order) == table.Keys && |table| == expected
    requires forall id :: id in order <==> id in table
    requires upgrades == Upgrades(table, scale, order)
    ensures Allotted(table, scale, o)
  {
    hide Ranked, Upgrades, Sort, Bytes, Damage, Orders, Selected, Before, IdLess;
    Sizes(order);
    var k := expected / 2;
    var ranked := Sort(Before, upgrades);
    RankedIs(table, scale, order);
    var selected := set u | u in ranked[..k] :: u.id;
    var ids := Sort(IdLess, order);
    SortedInventory(table, order);
    RankingIgnoresOrder(table, scale, order, ids);
    SelectedIs(table, scale, ids, k, ranked);
    o := Account(table, scale, ids, selected);
    assert AllottedOver(table, scale, ids, o);
  }

  /** The allocator on raw candidate rows. */
  method Allocate(rows: seq<Row>, expected: nat) returns (o: Outcome)
    ensures o.Done? <==>
            (&& |TableOf(rows)| == expected
             && forall id :: id in TableOf(rows) ==>
                  TableOf(rows)[id].Keys == {3, 4} && TableOf(rows)[id][4].bytes > TableOf(rows)[id][3].bytes)
    ensures o.Done? ==> Allotted(TableOf(rows), One(), o)
  {
    var table, order := Collect(rows);
    if !Complete(table, expected) {
      return Failed;
    }
    assert forall id :: id in order <==> id in table by { assert forall id :: id in order <==> id in Elements(order); }
    var ok, upgrades := CollectUpgrades(table, One(), order);
    if !ok {
      return Failed;
    }
    o := Choose(table, One(), order, upgrades, expected);
  }

  lemma InventoryUnique(table: Table, ids: seq<Id>, ids': seq<Id>)
    requires Inventory(table, ids) && Inventory(table, ids')
    ensures ids == ids'
  {
    IdsOrdered(table.Keys);
    AscendingUnique(IdLess, ids, ids');
  }

  lemma AllottedOnce(table: Table, scale: Id -> real, o: Outcome, o': Outcome)
    requires Allotted(table, scale, o) && Allotted(table, scale, o')
    ensures o == o'
  {
    hide Selected, Bytes, Damage, ChoicesOf;
    var ids :| Inventory(table, ids) && AllottedOver(table, scale, ids, o);
    var ids' :| Inventory(table, ids') && AllottedOver(table, scale, ids', o');
    InventoryUnique(table, ids, ids');
  }

  /** An allocation does the least scaled damage among all choices that store exactly its bytes. */
  lemma AllocationIsOptimal(table: Table, scale: Id -> real, o: Outcome, ids: seq<Id>, T: set<Id>)
    requires Allotted(table, scale, o) && Inventory(table, ids) && Bytes(table, ids, T) == o.bytes
    ensures o.damage <= Damage(table, scale, ids, T)
  {
    hide Selected, Bytes, Damage, ChoicesOf;
    var ids' :| Inventory(table, ids') && AllottedOver(table, scale, ids', o);
    InventoryUnique(table, ids, ids');
    LeastDamageAtSameBytes(table, scale, ids, |ids| / 2, T);
  }

  // ---------------------------------------------------------------- what a list of choices is worth

  /** The list gives every unit of the table three or four bits, once. */
  ghost predicate NamesAll(table: Table, choices: seq<Choice>) {
    && (forall i, j :: 0 <= i < j < |choices| ==> choices[i].id != choices[j].id)
    && (forall c :: c in choices ==> c.id in table && c.bits in {3, 4})
    && forall id :: id in table ==> exists c :: c in choices && c.id == id
  }

  /** The candidate that choice i takes, where there is one. */
  function Taken(table: Table, choices: seq<Choice>, i: int): Row {
    if 0 <= i < |choices| && choices[i].id in table && choices[i].bits in table[choices[i].id]
    then table[choices[i].id][choices[i].bits]
    else Row(Id(0, 0, ""), 0, 0, 0.0)
  }

  /** The bytes of all candidates taken. */
  function ListBytes(table: Table, choices: seq<Choice>): real {
    Sum(0, |choices|, i => Taken(table, choices, i).bytes as real)
  }

  /** Their damages, each times the scale of its unit. */
  function ListDamage(table: Table, scale: Id -> real, choices: seq<Choice>): real {
    Sum(0, |choices|, i => if 0 <= i < |choices| then scale(choices[i].id) * Taken(table, choices, i).damage else 0.0)
  }

  /** The units that a list gives four bits. */
  function FourBits(choices: seq<Choice>): set<Id> { set c | c in choices && c.bits == 4 :: c.id }

  function IdsOf(choices: seq<Choice>): (ids: seq<Id>)
    ensures |ids| == |choices| && forall i :: 0 <= i < |ids| ==> ids[i] == choices[i].id
  {
    seq(|choices|, i requires 0 <= i < |choices| => choices[i].id)
  }

  lemma {:induction false} GainOfNone(ids: seq<Id>, f: Id -> real)
    ensures Gain(ids, f, {}) == 0.0
  {
    if ids != [] { GainOfNone(ids[..|ids| - 1], f); }
  }

  /** What the units of S are worth does not depend on the order in which the units are listed. */
  lemma {:induction false} GainPermuted(ids: seq<Id>, ids': seq<Id>, f: Id -> real, S: set<Id>)
    requires Distinct(ids) && Distinct(ids') && forall id :: id in ids <==> id in ids'
    ensures Gain(ids, f, S) == Gain(ids', f, S)
    decreases S
  {
    if S == {} {
      GainOfNone(ids, f);
      GainOfNone(ids', f);
    } else {
      var x :| x in S;
      GainDrop(ids, f, S, x);
      GainDrop(ids', f, S, x);
      GainPermuted(ids, ids', f, S - {x});
    }
  }

  function BytesAt(table: Table, T: set<Id>): Id -> real
    requires Priced(table)
  {
    id => if id in table then table[id][if id in T then 4 else 3].bytes as real else 0.0
  }

  function DamageAt(table: Table, scale: Id -> real, T: set<Id>): Id -> real
    requires Priced(table)
  {
    id => if id in table then scale(id) * table[id][if id in T then 4 else 3].damage else 0.0
  }

  lemma {:induction false} TotalsAreGains(table: Table, scale: Id -> real, ids: seq<Id>, T: set<Id>, all: set<Id>)
    requires Priced(table) && forall id :: id in ids ==> id in table && id in all
    ensures Bytes(table, ids, T) as real == Gain(ids, BytesAt(table, T), all)
    ensures Damage(table, scale, ids, T) == Gain(ids, DamageAt(table, scale, T), all)
  {
    if ids != [] { TotalsAreGains(table, scale, ids[..|ids| - 1], T, all); }
  }

  lemma {:induction false} SumIsGain(ids: seq<Id>, f: int -> real, g: Id -> real, all: set<Id>)
    requires forall i :: 0 <= i < |ids| ==> f(i) == g(ids[i]) && ids[i] in all
    ensures Sum(0, |ids|, f) == Gain(ids, g, all)
  {
    if ids != [] { SumIsGain(ids[..|ids| - 1], f, g, all); }
  }

  lemma TakenAt(table: Table, choices: seq<Choice>, i: int)
    requires Priced(table) && NamesAll(table, choices) && 0 <= i < |choices|
    ensures choices[i].id in table && (choices[i].id in FourBits(choices) <==> choices[i].bits == 4)
    ensures Taken(table, choices, i) == table[choices[i].id][if choices[i].id in FourBits(choices) then 4 else 3]
  {
    assert choices[i] in choices;
    if choices[i].id in FourBits(choices) {
      var c :| c in choices && c.bits == 4 && c.id == choices[i].id;
      var j :| 0 <= j < |choices| && choices[j] == c;
      assert i == j;
    }
  }

  lemma SameUnits(table: Table, choices: seq<Choice>)
    requires NamesAll(table, choices)
    ensures Distinct(IdsOf(choices)) && forall id :: id in IdsOf(choices) <==> id in table
  {
    var own := IdsOf(choices);
    forall id | id in table ensures id in own {
      var c :| c in choices && c.id == id;
      var i :| 0 <= i < |choices| && choices[i] == c;
      assert own[i] == id;
    }
    forall id | id in own ensures id in table {
      var i :| 0 <= i < |own| && own[i] == id;
      assert choices[i] in choices;
    }
  }

  lemma ListGains(table: Table, scale: Id -> real, choices: seq<Choice>)
    requires Priced(table) && NamesAll(table, choices)
    ensures var T := FourBits(choices);
            ListBytes(table, choices) == Gain(IdsOf(choices), BytesAt(table, T), table.Keys)
            && ListDamage(table, scale, choices) == Gain(IdsOf(choices), DamageAt(table, scale, T), table.Keys)
  {
    hide Gain, Sum, FourBits, Taken, NamesAll;
    var T, own := FourBits(choices), IdsOf(choices);
    forall i | 0 <= i < |choices|
      ensures own[i] in table && Taken(table, choices, i) == table[own[i]][if own[i] in T then 4 else 3]
    {
      TakenAt(table, choices, i);
    }
    SumIsGain(own, i => Taken(table, choices, i).bytes as real, BytesAt(table, T), table.Keys);
    SumIsGain(own, i => if 0 <= i < |choices| then scale(choices[i].id) * Taken(table, choices, i).damage else 0.0,
      DamageAt(table, scale, T), table.Keys);
  }

  /** The totals of a list are those of the set of its four-bit units. */
  lemma ListTotals(table: Table, scale: Id -> real, choices: seq<Choice>, ids: seq<Id>)
    requires Priced(table) && NamesAll(table, choices) && Distinct(ids) && forall id :: id in ids <==> id in table
    ensures ListBytes(table, choices) == Bytes(table, ids, FourBits(choices)) as real
    ensures ListDamage(table, scale, choices) == Damage(table, scale, ids, FourBits(choices))
  {
    hide Gain, Bytes, Damage, FourBits, NamesAll, ListBytes, ListDamage, BytesAt, DamageAt, Priced;
    var own, T := IdsOf(choices), FourBits(choices);
    SameUnits(table, choices);
    ListGains(table, scale, choices);
    GainPermuted(own, ids, BytesAt(table, T), table.Keys);
    GainPermuted(own, ids, DamageAt(table, scale, T), table.Keys);
    TotalsAreGains(table, scale, ids, T, table.Keys);
  }

  lemma ChoicesNameAll(table: Table, ids: seq<Id>, S: set<Id>)
    requires Distinct(ids) && (forall id :: id in ids <==> id in table) && forall id :: id in S ==> id in ids
    ensures NamesAll(table, ChoicesOf(ids, S)) && FourBits(ChoicesOf(ids, S)) == S
  {
    var cs := ChoicesOf(ids, S);
    forall id | id in table ensures Choice(id, if id in S then 4 else 3) in cs {
      var i :| 0 <= i < |ids| && ids[i] == id;
      assert cs[i] == Choice(id, if id in S then 4 else 3);
    }
    forall id | id in S ensures id in FourBits(cs) { assert Choice(id, 4) in cs; }
  }

  /** The list that an allocation returns: every unit of the table once, in rising order, half of them with four bits
      and the others with three; the bytes and the damage beside it are the totals of the candidates it takes. */
  lemma ChoicesAre(table: Table, scale: Id -> real, o: Outcome)
    requires Allotted(table, scale, o)
    ensures NamesAll(table, o.choices) && |o.choices| == |table| && |FourBits(o.choices)| == |o.choices| / 2
    ensures forall i, j :: 0 <= i < j < |o.choices| ==> IdLess(o.choices[i].id, o.choices[j].id)
    ensures o.bytes as real == ListBytes(table, o.choices) && o.damage == ListDamage(table, scale, o.choices)
  {
    hide Selected, Bytes, Damage, IdLess, NamesAll, FourBits, ListBytes, ListDamage;
    var ids :| Inventory(table, ids) && AllottedOver(table, scale, ids, o);
    Sizes(ids);
    SelectedCount(table, scale, ids, |ids| / 2);
    ChoicesNameAll(table, ids, Selected(table, scale, ids, |ids| / 2));
    ListTotals(table, scale, o.choices, ids);
  }

  /** No list that names every unit once and stores as many bytes does less damage. */
  lemma NoBetterList(table: Table, scale: Id -> real, o: Outcome, choices: seq<Choice>)
    requires Allotted(table, scale, o) && NamesAll(table, choices) && ListBytes(table, choices) == o.bytes as real
    ensures o.damage <= ListDamage(table, scale, choices)
  {
    hide Selected, Bytes, Damage, NamesAll, FourBits, ListBytes, ListDamage;
    var ids :| Inventory(table, ids) && AllottedOver(table, scale, ids, o);
    ListTotals(table, scale, choices, ids);
    LeastDamageAtSameBytes(table, scale, ids, |ids| / 2, FourBits(choices));
  }

  lemma UnitOf(table: Table, scale: Id -> real, id: Id)
    requires Priced(table) && id in table
    ensures UpgradeOf(table, scale, id).id == id
  {
  }

  lemma UpgradeIs(table: Table, scale: Id -> real, id: Id)
    requires Priced(table) && id in table
    ensures var e, b := (table[id][4].bytes - table[id][3].bytes) as real,
                        scale(id) * (table[id][3].damage - table[id][4].damage);
            var u := UpgradeOf(table, scale, id); e > 0.0 && u.density == b / e && u.benefit == b && u.id == id
  {
  }

  lemma SelectedFirst(table: Table, scale: Id -> real, ids: seq<Id>, k: nat, a: Id, b: Id)
    requires Priced(table) && Distinct(ids) && k <= |ids| && forall id :: id in ids ==> id in table
    requires a in ids && b in ids && a in Selected(table, scale, ids, k) && b !in Selected(table, scale, ids, k)
    ensures Before(UpgradeOf(table, scale, a), UpgradeOf(table, scale, b))
  {
    hide Selected, Ranked, Before, UpgradeOf, Priced;
    RankedIsAscending(table, scale, ids);
    var r := Ranked(table, scale, ids);
    var i :| 0 <= i < |r| && r[i] == UpgradeOf(table, scale, a);
    var j :| 0 <= j < |r| && r[j] == UpgradeOf(table, scale, b);
    UnitOf(table, scale, a);
    UnitOf(table, scale, b);
    SelectedAt(table, scale, ids, k, i);
    SelectedAt(table, scale, ids, k, j);
  }

  lemma ChosenAre(ids: seq<Id>, S: set<Id>, id: Id, bits: int)
    requires Choice(id, bits) in ChoicesOf(ids, S)
    ensures id in ids && (bits == 4 <==> id in S)
  {
  }

  /** A four-bit unit saves more scaled damage for each byte than a three-bit unit; if both save as much for a byte,
      more in all; if that is equal too, it comes first by layer, expert and projection. */
  lemma FourBeforeThree(table: Table, scale: Id -> real, o: Outcome, a: Id, b: Id)
    requires Allotted(table, scale, o) && Choice(a, 4) in o.choices && Choice(b, 3) in o.choices
    ensures a in table && b in table && table[a].Keys == table[b].Keys == {3, 4}
    ensures var x, y := scale(a) * (table[a][3].damage - table[a][4].damage),
                       scale(b) * (table[b][3].damage - table[b][4].damage);
            var p, q := (table[a][4].bytes - table[a][3].bytes) as real,
              (table[b][4].bytes - table[b][3].bytes) as real;
            && p > 0.0 && q > 0.0
            && (x / p > y / q
                || (x / p == y / q
                    && (x > y
                        || (x == y
                            && (a.layer < b.layer
                                || (a.layer == b.layer
                                    && (a.expert < b.expert
                                        || (a.expert == b.expert && TextLess(a.projection, b.projection)))))))))
  {
    hide Selected, Bytes, Damage, TextLess, ChoicesOf, Extra, Benefit;
    var ids :| Inventory(table, ids) && AllottedOver(table, scale, ids, o);
    var k := |ids| / 2;
    ChosenAre(ids, Selected(table, scale, ids, k), a, 4);
    ChosenAre(ids, Selected(table, scale, ids, k), b, 3);
    SelectedFirst(table, scale, ids, k, a, b);
    UpgradeIs(table, scale, a);
    UpgradeIs(table, scale, b);
  }

  /** Without scales the damage is the sum of the damages of the candidates taken. */
  lemma PlainDamage(table: Table, o: Outcome)
    requires Allotted(table, One(), o)
    ensures o.damage == Sum(0, |o.choices|, i => Taken(table, o.choices, i).damage)
  {
    hide Sum, Allotted, Taken, NamesAll;
    ChoicesAre(table, One(), o);
    SumExt(0, |o.choices|,
      i => if 0 <= i < |o.choices| then One()(o.choices[i].id) * Taken(table, o.choices, i).damage else 0.0,
      i => Taken(table, o.choices, i).damage);
  }
}

/** Row blocks of a matrix as 16x16 tiles of 256 entries in tensor-core order: the gather that feeds
    the tile quantizer and the scatter that undoes it. */
module Tiles {

  /** A row-major tensor of rank two, as the value of its rows. */
  type Mat<S> = seq<seq<S>>

  ghost predicate Shape<S>(m: Mat<S>, rows: int, cols: int) {
    && |m| == rows
    && forall r :: 0 <= r < |m| ==> |m[r]| == cols
  }

  // ---------------------------------------------------------------- the permutation

  /** Entry s of lane t of the permutation table: four rows of one column, then of the column 8 further right. */
  function Lane(t: int, s: int): int {
    (t % 4 * 2 + s % 2 + 8 * (s / 2 % 2)) * 16 + t / 4 + 8 * (s / 4)
  }

  /** Where entry x of a permuted tile comes from in the row-major tile. */
  function PermAt(x: int): (y: int)
    requires 0 <= x < 256
    ensures 0 <= y < 256
  {
    Lane(x / 8, x % 8)
  }

  /** Where entry y of a row-major tile sits in the permuted tile. */
  function PermInvAt(y: int): (x: int)
    requires 0 <= y < 256
    ensures 0 <= x < 256
  {
    var r, c := y / 16, y % 16;
    8 * ((c % 8) * 4 + r % 8 / 2) + r % 2 + 2 * (r / 8) + 4 * (c / 8)
  }

  lemma PermAtDigits(t0: int, t1: int, s0: int, s1: int, s2: int)
    requires 0 <= t0 < 4 && 0 <= t1 < 8 && 0 <= s0 < 2 && 0 <= s1 < 2 && 0 <= s2 < 2
    ensures PermAt(t1 * 32 + t0 * 8 + s2 * 4 + s1 * 2 + s0) == s1 * 128 + t0 * 32 + s0 * 16 + s2 * 8 + t1
  {
    var s, t := s2 * 4 + s1 * 2 + s0, t1 * 4 + t0;
    assert (t * 8 + s) / 8 == t && (t * 8 + s) % 8 == s;
    assert t % 4 == t0 && t / 4 == t1;
    assert s % 2 == s0 && s / 2 == s2 * 2 + s1 && s / 4 == s2;
    assert (s2 * 2 + s1) % 2 == s1;
  }

  lemma PermInvAtDigits(t0: int, t1: int, s0: int, s1: int, s2: int)
    requires 0 <= t0 < 4 && 0 <= t1 < 8 && 0 <= s0 < 2 && 0 <= s1 < 2 && 0 <= s2 < 2
    ensures PermInvAt(s1 * 128 + t0 * 32 + s0 * 16 + s2 * 8 + t1) == t1 * 32 + t0 * 8 + s2 * 4 + s1 * 2 + s0
  {
    var r, c := s1 * 8 + t0 * 2 + s0, s2 * 8 + t1;
    assert (r * 16 + c) / 16 == r && (r * 16 + c) % 16 == c;
    assert c % 8 == t1 && c / 8 == s2;
    assert r % 8 == t0 * 2 + s0 && r % 2 == s0 && r / 8 == s1;
    assert (t0 * 2 + s0) / 2 == t0;
  }

  lemma PermForward(x: int)
    requires 0 <= x < 256
    ensures PermInvAt(PermAt(x)) == x
  {
    hide PermAt, PermInvAt;
    var t, s := x / 8, x % 8;
    var t0, t1, s0, s1, s2 := t % 4, t / 4, s % 2, s / 2 % 2, s / 4;
    assert x == t1 * 32 + t0 * 8 + s2 * 4 + s1 * 2 + s0;
    PermAtDigits(t0, t1, s0, s1, s2);
    PermInvAtDigits(t0, t1, s0, s1, s2);
  }

  lemma PermBackward(y: int)
    requires 0 <= y < 256
    ensures PermAt(PermInvAt(y)) == y
  {
    hide PermAt, PermInvAt;
    var r, c := y / 16, y % 16;
    var s1, t0, s0, s2, t1 := r / 8, r / 2 % 4, r % 2, c / 8, c % 8;
    assert y == s1 * 128 + t0 * 32 + s0 * 16 + s2 * 8 + t1;
    PermAtDigits(t0, t1, s0, s1, s2);
    PermInvAtDigits(t0, t1, s0, s1, s2);
  }

  function Perm(): (p: seq<int>)
    ensures |p| == 256 && forall x :: 0 <= x < 256 ==> p[x] == PermAt(x)
  {
    hide PermAt;
    seq(256, x requires 0 <= x < 256 => PermAt(x))
  }

  function PermInv(): (p: seq<int>)
    ensures |p| == 256 && forall y :: 0 <= y < 256 ==> p[y] == PermInvAt(y)
  {
    hide PermInvAt;
    seq(256, y requires 0 <= y < 256 => PermInvAt(y))
  }

  lemma LaneIs(t: int, r0: int, c0: int)
    requires 0 <= t && r0 == t % 4 * 2 && c0 == t / 4
    ensures Lane(t, 0) == r0 * 16 + c0 && Lane(t, 1) == (r0 + 1) * 16 + c0
    ensures Lane(t, 2) == (r0 + 8) * 16 + c0 && Lane(t, 3) == (r0 + 9) * 16 + c0
    ensures Lane(t, 4) == r0 * 16 + (c0 + 8) && Lane(t, 5) == (r0 + 1) * 16 + (c0 + 8)
    ensures Lane(t, 6) == (r0 + 8) * 16 + (c0 + 8) && Lane(t, 7) == (r0 + 9) * 16 + (c0 + 8)
  {
  }

  /** One pass of the fill loop: the eight entries of a lane. */
  method FillLane(perm: array<int>, t: int)
    requires perm.Length == 256 && 0 <= t < 32
    modifies perm
    ensures forall x :: 0 <= x < t * 8 ==> perm[x] == old(perm[x])
    ensures forall s :: 0 <= s < 8 ==> perm[t * 8 + s] == Lane(t, s)
  {
    hide Lane;
    var r0 := t % 4 * 2;
    var r1, r2, r3 := r0 + 1, r0 + 8, r0 + 9;
    var c0 := t / 4;
    var c1 := c0 + 8;
    LaneIs(t, r0, c0);
    perm[t * 8 + 0] := r0 * 16 + c0;
    perm[t * 8 + 1] := r1 * 16 + c0;
    perm[t * 8 + 2] := r2 * 16 + c0;
    perm[t * 8 + 3] := r3 * 16 + c0;
    perm[t * 8 + 4] := r0 * 16 + c1;
    perm[t * 8 + 5] := r1 * 16 + c1;
    perm[t * 8 + 6] := r2 * 16 + c1;
    perm[t * 8 + 7] := r3 * 16 + c1;
  }

  /** The permutation table, filled lane by lane. */
  method TensorCorePerm() returns (perm: seq<int>)
    ensures perm == Perm()
  {
    var a := new int[256](_ => 0);
    for t := 0 to 32
      invariant forall x :: 0 <= x < t * 8 ==> a[x] == PermAt(x)
    {
      FillLane(a, t);
      forall x | t * 8 <= x < t * 8 + 8 ensures a[x] == PermAt(x) {
        assert a[t * 8 + (x - t * 8)] == Lane(t, x - t * 8);
        assert x / 8 == t && x % 8 == x - t * 8;
      }
    }
    perm := a[..];
  }

  /** order sorts keys: the contract of argsort. */
  ghost predicate IsArgsort(keys: seq<int>, order: seq<int>) {
    && |order| == |keys|
    && (forall k :: 0 <= k < |order| ==> 0 <= order[k] < |keys|)
    && (forall j, k :: 0 <= j < k < |order| ==> order[j] != order[k] && keys[order[j]] <= keys[order[k]])
  }

  /** A strictly increasing sequence of n numbers below n is 0, 1, ..., n-1. */
  lemma {:induction false} SqueezedAt(v: seq<int>, k: int)
    requires forall i :: 0 <= i < |v| ==> 0 <= v[i] < |v|
    requires forall i, j :: 0 <= i < j < |v| ==> v[i] < v[j]
    requires 0 <= k < |v|
    ensures v[k] == k
  {
    var i := 0;
    while i < k
      invariant 0 <= i <= k && i <= v[i]
    {
      i := i + 1;
    }
    i := |v| - 1;
    while i > k
      invariant k <= i < |v| && v[i] <= i
    {
      i := i - 1;
    }
  }

  /** However argsort breaks ties, argsort of the permutation table is its inverse. */
  lemma ArgsortOfPerm(order: seq<int>)
    requires IsArgsort(Perm(), order)
    ensures order == PermInv()
  {
    var keys := Perm();
    forall x, y | 0 <= x < y < 256 ensures keys[x] != keys[y] {
      PermForward(x);
      PermForward(y);
    }
    var v := seq(256, k requires 0 <= k < 256 => keys[order[k]]);
    forall y | 0 <= y < 256 ensures order[y] == PermInv()[y] {
      SqueezedAt(v, y);
      PermForward(order[y]);
    }
  }

  // ---------------------------------------------------------------- gather and scatter

  function Take<S>(tile: seq<S>, perm: seq<int>): (r: seq<S>)
    requires |perm| == 256 && |tile| == 256 && forall x :: 0 <= x < 256 ==> 0 <= perm[x] < 256
    ensures |r| == 256 && forall x :: 0 <= x < 256 ==> r[x] == tile[perm[x]]
  {
    seq(256, x requires 0 <= x < 256 => tile[perm[x]])
  }

  lemma TakePermThenInverse<S>(tile: seq<S>)
    requires |tile| == 256
    ensures Take(Take(tile, Perm()), PermInv()) == tile
    ensures Take(Take(tile, PermInv()), Perm()) == tile
  {
    forall y | 0 <= y < 256
      ensures Take(Take(tile, Perm()), PermInv())[y] == tile[y] && Take(Take(tile, PermInv()), Perm())[y] == tile[y]
    {
      PermForward(y);
      PermBackward(y);
    }
  }

  /** Tile t of a 16-row block, entries row-major: reshape(16, tn, 16).permute(1, 0, 2).reshape(tn, 256). */
  function RawTile<S>(rows: Mat<S>, tn: nat, t: int): (tile: seq<S>)
    requires Shape(rows, 16, 16 * tn) && 0 <= t < tn
    ensures |tile| == 256
  {
    seq(256, x requires 0 <= x < 256 => rows[x / 16][t * 16 + x % 16])
  }

  /** The tiles a 16-row block sends to the quantizer. */
  function TilesOf<S>(rows: Mat<S>, tn: nat): (tiles: Mat<S>)
    requires Shape(rows, 16, 16 * tn)
    ensures Shape(tiles, tn, 256)
  {
    seq(tn, t requires 0 <= t < tn => Take(RawTile(rows, tn, t), Perm()))
  }

  /** The 16-row block that quantized tiles are written back to. */
  function RowsOf<S>(tiles: Mat<S>, tn: nat): (rows: Mat<S>)
    requires Shape(tiles, tn, 256)
    ensures Shape(rows, 16, 16 * tn)
  {
    seq(16, a requires 0 <= a < 16 =>
      seq(16 * tn, c requires 0 <= c < 16 * tn => Take(tiles[c / 16], PermInv())[a * 16 + c % 16]))
  }

  lemma RawTileAt<S>(rows: Mat<S>, tn: nat, t: int, a: int, z: int)
    requires Shape(rows, 16, 16 * tn) && 0 <= t < tn && 0 <= a < 16 && 0 <= z < 16
    ensures RawTile(rows, tn, t)[a * 16 + z] == rows[a][t * 16 + z]
  {
    assert (a * 16 + z) / 16 == a && (a * 16 + z) % 16 == z;
  }

  lemma RowsOfAt<S>(tiles: Mat<S>, tn: nat, t: int, a: int, z: int)
    requires Shape(tiles, tn, 256) && 0 <= t < tn && 0 <= a < 16 && 0 <= z < 16
    ensures RowsOf(tiles, tn)[a][t * 16 + z] == Take(tiles[t], PermInv())[a * 16 + z]
  {
    hide Perm, PermInv, Take;
    assert (t * 16 + z) / 16 == t && (t * 16 + z) % 16 == z;
  }

  /** Gather, permute, inverse permute and scatter are the identity on every row block. */
  lemma RowsOfTilesOf<S>(rows: Mat<S>, tn: nat)
    requires Shape(rows, 16, 16 * tn)
    ensures RowsOf(TilesOf(rows, tn), tn) == rows
  {
    hide PermAt, PermInvAt, Perm, PermInv, Take, RowsOf, RawTile;
    var back := RowsOf(TilesOf(rows, tn), tn);
    forall a | 0 <= a < 16 ensures back[a] == rows[a] {
      forall c | 0 <= c < 16 * tn ensures back[a][c] == rows[a][c] {
        var t, z := c / 16, c % 16;
        var raw := RawTile(rows, tn, t);
        RowsOfAt(TilesOf(rows, tn), tn, t, a, z);
        assert c == t * 16 + z;
        assert back[a][c] == Take(TilesOf(rows, tn)[t], PermInv())[a * 16 + z];
        assert TilesOf(rows, tn)[t] == Take(raw, Perm());
        TakePermThenInverse(raw);
        assert back[a][c] == raw[a * 16 + z];
        RawTileAt(rows, tn, t, a, z);
        assert back[a][c] == rows[a][t * 16 + z];
      }
    }
  }

  /** Scatter then gather is the identity on tiles, so no two tile entries share a place in the rows. */
  lemma TilesOfRowsOf<S>(tiles: Mat<S>, tn: nat)
    requires Shape(tiles, tn, 256)
    ensures TilesOf(RowsOf(tiles, tn), tn) == tiles
  {
    hide PermAt, PermInvAt, Perm, PermInv, Take, RowsOf, RawTile;
    var rows := RowsOf(tiles, tn);
    forall t | 0 <= t < tn ensures TilesOf(rows, tn)[t] == tiles[t] {
      var plain := Take(tiles[t], PermInv());
      forall x | 0 <= x < 256 ensures RawTile(rows, tn, t)[x] == plain[x] {
        RowsOfAt(tiles, tn, t, x / 16, x % 16);
        RawTileAt(rows, tn, t, x / 16, x % 16);
      }
      assert RawTile(rows, tn, t) == plain;
      TakePermThenInverse(tiles[t]);
    }
  }

  lemma LaneEntry<S>(rows: Mat<S>, tn: nat, t: int, lane: int, e: int, r: int, z: int)
    requires Shape(rows, 16, 16 * tn) && 0 <= t < tn && 0 <= lane < 32 && 0 <= e < 8 && 0 <= r < 16 && 0 <= z < 16
    requires Lane(lane, e) == r * 16 + z
    ensures TilesOf(rows, tn)[t][8 * lane + e] == rows[r][16 * t + z]
  {
    hide RawTile, Lane;
    assert (8 * lane + e) / 8 == lane && (8 * lane + e) % 8 == e;
    RawTileAt(rows, tn, t, r, z);
  }

  /** Eight neighbouring entries of a tile sent to the quantizer belong to one lane: rows 2q, 2q + 1, 2q + 8 and 2q + 9
      of column c, then the same rows of column c + 8, for lane 4c + q. */
  lemma TensorCoreLane<S>(rows: Mat<S>, tn: nat, t: int, c: int, q: int)
    requires Shape(rows, 16, 16 * tn) && 0 <= t < tn && 0 <= c < 8 && 0 <= q < 4
    ensures var at, r, z := 8 * (4 * c + q), 2 * q, 16 * t + c;
            TilesOf(rows, tn)[t][at..at + 8]
            == [rows[r][z], rows[r + 1][z], rows[r + 8][z], rows[r + 9][z],
                rows[r][z + 8], rows[r + 1][z + 8], rows[r + 8][z + 8], rows[r + 9][z + 8]]
  {
    hide TilesOf, Lane;
    var lane, r := 4 * c + q, 2 * q;
    assert lane % 4 == q && lane / 4 == c;
    LaneIs(lane, r, c);
    LaneEntry(rows, tn, t, lane, 0, r, c);
    LaneEntry(rows, tn, t, lane, 1, r + 1, c);
    LaneEntry(rows, tn, t, lane, 2, r + 8, c);
    LaneEntry(rows, tn, t, lane, 3, r + 9, c);
    LaneEntry(rows, tn, t, lane, 4, r, c + 8);
    LaneEntry(rows, tn, t, lane, 5, r + 1, c + 8);
    LaneEntry(rows, tn, t, lane, 6, r + 8, c + 8);
    LaneEntry(rows, tn, t, lane, 7, r + 9, c + 8);
  }
}

/** The resumable encode: workers write a layer's shard and then its record, each under a temporary name and by a
    rename; any of them may crash between any two writes or renames, and a later run takes up where the files are. */
module LayerCommit {
  import opened Arithmetic
  import opened ByteStrings
  import opened Options

  /** The layers asked for, the deterministic encoding of each, the file hash, the record with its reader, and the
      length no record exceeds. */
  datatype Setting<!H> = Setting(
    layers: seq<int>,
    encoding: int -> Bytes,
    hash: Bytes -> H,
    record: (H, int) -> Bytes,
    parse: Bytes -> Option<H>,
    limit: nat)

  ghost predicate RecordLaw<H(!new)>(P: Setting<H>, h: H, stamp: int) {
    P.parse(P.record(h, stamp)) == Some(h) && |P.record(h, stamp)| <= P.limit
  }

  /** The layers are sorted without repetition, and a record for the encoding of a layer gives its hash back. */
  ghost predicate Laws<H(!new)>(P: Setting<H>) {
    && (forall i, j :: 0 <= i < j < |P.layers| ==> P.layers[i] < P.layers[j])
    && (forall L, stamp :: L in P.layers ==> RecordLaw(P, P.hash(P.encoding(L)), stamp))
  }

  /** The files of one layer. */
  datatype Files = Files(shard: Option<Bytes>, shardTmp: Option<Bytes>, done: Option<Bytes>, doneTmp: Option<Bytes>)

  /** layer_done: both files are there and the record's hash is that of the shard. */
  ghost predicate LayerDone<H(!new)>(P: Setting<H>, f: Files) {
    f.shard.Some? && f.done.Some? && P.parse(f.done.value) == Some(P.hash(f.shard.value))
  }

  /** Where a worker is with its layer: before the check, with k bytes of the shard written, with the shard in place, or
      with k bytes of the record written. */
  datatype Stage = Check | Shard(k: nat) | InPlace | Record(stamp: int, n: nat)

  /** A live worker is at an index of the layers; rank r of w workers visits r, r + w, r + 2w and so on. */
  datatype Worker = Live(at: nat, stage: Stage) | Dead

  datatype State = State(files: map<int, Files>, workers: seq<Worker>)

  /** One step of a worker on its layer. */
  ghost predicate Move<H(!new)>(P: Setting<H>, L: int, count: nat, f: Files, w: Worker, f': Files, w': Worker)
    requires w.Live?
  {
    var enc := P.encoding(L);
    match w.stage
    case Check =>
      if LayerDone(P, f) then f' == f && w' == Live(w.at + count, Check)
      else f' == f.(shardTmp := Some([])) && w' == Live(w.at, Shard(0))
    case Shard(k) =>
      if k < |enc| then
        && w'.Live? && w'.at == w.at && w'.stage.Shard? && k < w'.stage.k <= |enc|
        && f.shardTmp.Some? && f' == f.(shardTmp := Some(f.shardTmp.value + enc[k..w'.stage.k]))
      else
        f' == f.(shard := f.shardTmp, shardTmp := None) && w' == Live(w.at, InPlace)
    case InPlace =>
      w'.Live? && w'.at == w.at && w'.stage.Record? && w'.stage.n == 0 && f' == f.(doneTmp := Some([]))
    case Record(stamp, n) =>
      var text := P.record(P.hash(enc), stamp);
      if n < |text| then
        && w'.Live? && w'.at == w.at && w'.stage.Record? && w'.stage.stamp == stamp && n < w'.stage.n <= |text|
        && f.doneTmp.Some? && f' == f.(doneTmp := Some(f.doneTmp.value + text[n..w'.stage.n]))
      else
        f' == f.(done := f.doneTmp, doneTmp := None) && w' == Live(w.at + count, Check)
  }

  ghost predicate Covers<H(!new)>(P: Setting<H>, s: State)
  {
    forall i :: 0 <= i < |P.layers| ==> P.layers[i] in s.files
  }

  /** Worker r takes a step. */
  ghost predicate Step<H(!new)>(P: Setting<H>, s: State, s': State, r: nat) {
    && Covers(P, s) && r < |s.workers| == |s'.workers| && s.workers[r].Live? && s.workers[r].at < |P.layers|
    && var L := P.layers[s.workers[r].at];
       L in s'.files && s' == State(s.files[L := s'.files[L]], s.workers[r := s'.workers[r]])
       && Move(P, L, |s.workers|, s.files[L], s.workers[r], s'.files[L], s'.workers[r])
  }

  /** Worker r dies where it is; the files stay as they are. */
  ghost predicate Crash(s: State, s': State, r: nat) {
    r < |s.workers| && s' == s.(workers := s.workers[r := Dead])
  }

  /** A new run with any number of workers takes the place of the old one. */
  ghost predicate Restart(s: State, s': State) {
    s'.files == s.files && |s'.workers| >= 1 && forall r :: 0 <= r < |s'.workers| ==> s'.workers[r] == Live(r, Check)
  }

  ghost predicate Next<H(!new)>(P: Setting<H>, s: State, s': State) {
    (exists r :: Step(P, s, s', r)) || (exists r :: Crash(s, s', r)) || Restart(s, s')
  }

  /** The start: no worker, and any files whatever. */
  ghost predicate Init<H(!new)>(P: Setting<H>, s: State) {
    Laws(P) && Covers(P, s) && s.workers == []
  }

  // ---------------------------------------------------------------- what every step keeps

  /** What a live worker has done to its layer. */
  ghost predicate Underway<H(!new)>(P: Setting<H>, L: int, f: Files, stage: Stage) {
    var enc := P.encoding(L);
    match stage
    case Check => true
    case Shard(k) => k <= |enc| && f.shardTmp == Some(enc[..k]) && !LayerDone(P, f)
    case InPlace => f.shard == Some(enc)
    case Record(stamp, n) =>
      var text := P.record(P.hash(enc), stamp);
      f.shard == Some(enc) && n <= |text| && f.doneTmp == Some(text[..n])
  }

  /** Index i belongs to rank r of count: the slice that starts at r in strides of count. */
  ghost predicate Owns(count: nat, r: nat, i: nat) {
    i == r || (count >= 1 && i >= count && Owns(count, r, i - count))
  }

  /** A live worker is on its own indices, its layer is underway, and the layers it has passed are done. */
  ghost predicate WorkerOk<H(!new)>(P: Setting<H>, s: State, r: nat)
    requires Covers(P, s) && r < |s.workers|
  {
    var w := s.workers[r];
    w.Live? ==>
      && Owns(|s.workers|, r, w.at)
      && (w.at < |P.layers| ==> Underway(P, P.layers[w.at], s.files[P.layers[w.at]], w.stage))
      && forall i :: 0 <= i < w.at && i < |P.layers| && Owns(|s.workers|, r, i) ==> LayerDone(P, s.files[P.layers[i]])
  }

  ghost predicate Inv<H(!new)>(P: Setting<H>, s: State) {
    && Laws(P) && Covers(P, s)
    && (forall r :: 0 <= r < |s.workers| ==> WorkerOk(P, s, r))
  }

  lemma Stride(i: nat, count: nat)
    requires 1 <= count <= i
    ensures (i - count) % count == i % count
  {
    var q, x := i / count, i % count;
    assert i - count == count * (q - 1) + x;
    DivMod(count, q - 1, x);
  }

  /** Every index belongs to the rank that is its remainder, and to no other. */
  lemma {:induction false} OwnedOnce(count: nat, r: nat, i: nat)
    requires r < count
    ensures Owns(count, r, i) <==> i % count == r
    decreases i
  {
    if i >= count {
      OwnedOnce(count, r, i - count);
      assert (i - count) % count == i % count by { Stride(i, count); }
    }
  }

  /** A worker's move keeps its own account of the layer; a done layer stays done with the same shard, and a layer that
      is done after the move has the encoding for its shard or was left as it is. */
  lemma MoveKeeps<H(!new)>(P: Setting<H>, L: int, count: nat, f: Files, w: Worker, f': Files, w': Worker)
    requires Laws(P) && L in P.layers && w.Live? && Underway(P, L, f, w.stage)
      && Move(P, L, count, f, w, f', w')
    ensures w'.Live?
    ensures w'.at == w.at ==> count == 0 || Underway(P, L, f', w'.stage)
    ensures w'.at != w.at ==> w'.at == w.at + count && w'.stage == Check && LayerDone(P, f')
    ensures LayerDone(P, f) ==> LayerDone(P, f') && f'.shard == f.shard
    ensures LayerDone(P, f') ==> f'.shard == Some(P.encoding(L)) || f' == f
  {
    var enc := P.encoding(L);
    match w.stage
    case Check =>
    case Shard(k) =>
      if k < |enc| {
        assert enc[..k] + enc[k..w'.stage.k] == enc[..w'.stage.k];
      } else {
        assert enc[..k] == enc;
      }
    case InPlace =>
    case Record(stamp, n) =>
      var text := P.record(P.hash(enc), stamp);
      assert RecordLaw(P, P.hash(enc), stamp);
      if n < |text| {
        assert text[..n] + text[n..w'.stage.n] == text[..w'.stage.n];
      } else {
        assert text[..n] == text;
      }
  }

  lemma OwnsNext(count: nat, r: nat, at: nat)
    requires 1 <= count && Owns(count, r, at)
    ensures Owns(count, r, at + count)
  {
  }

  lemma {:induction false} OwnedAbove(count: nat, r: nat, i: nat)
    requires r < count && Owns(count, r, i)
    ensures i == r || i >= r + count
    decreases i
  {
    if i != r { OwnedAbove(count, r, i - count); }
  }

  /** Between its index and the next one, a rank owns no other index. */
  lemma {:induction false} OwnsBetween(count: nat, r: nat, at: nat, i: nat)
    requires r < count && Owns(count, r, at) && Owns(count, r, i) && at <= i < at + count
    ensures i == at
    decreases i
  {
    if at != r && i != r {
      OwnsBetween(count, r, at - count, i - count);
    } else {
      OwnedAbove(count, r, at);
      OwnedAbove(count, r, i);
    }
  }

  /** Two workers are never on the same layer. */
  lemma {:induction false} Apart(count: nat, r: nat, r': nat, at: nat)
    requires r < count && r' < count && r != r' && Owns(count, r, at)
    ensures !Owns(count, r', at)
    decreases at
  {
    OwnedOnce(count, r, at);
    OwnedOnce(count, r', at);
  }

  lemma LayersDiffer<H(!new)>(P: Setting<H>, i: nat, j: nat)
    requires Laws(P) && i < |P.layers| && j < |P.layers| && i != j
    ensures P.layers[i] != P.layers[j]
  {
    assert i < j ==> P.layers[i] < P.layers[j];
    assert j < i ==> P.layers[j] < P.layers[i];
  }

  /** A step changes one layer's files, and a done layer stays done with the same shard. */
  lemma StepLayer<H(!new)>(P: Setting<H>, s: State, s': State, r: nat)
    requires Inv(P, s) && Step(P, s, s', r)
    ensures Covers(P, s')
    ensures forall i :: 0 <= i < |P.layers| && LayerDone(P, s'.files[P.layers[i]]) ==>
      s'.files[P.layers[i]].shard == Some(P.encoding(P.layers[i])) || s'.files[P.layers[i]] == s.files[P.layers[i]]
    ensures forall i :: 0 <= i < |P.layers| && i != s.workers[r].at ==> s'.files[P.layers[i]] == s.files[P.layers[i]]
    ensures forall i :: 0 <= i < |P.layers| && LayerDone(P, s.files[P.layers[i]]) ==>
      LayerDone(P, s'.files[P.layers[i]]) && s'.files[P.layers[i]].shard == s.files[P.layers[i]].shard
  {
    hide Move, Underway, LayerDone, Owns;
    assert WorkerOk(P, s, r);
    var at := s.workers[r].at;
    var L := P.layers[at];
    MoveKeeps(P, L, |s.workers|, s.files[L], s.workers[r], s'.files[L], s'.workers[r]);
    forall i | 0 <= i < |P.layers| && i != at ensures P.layers[i] != L { LayersDiffer(P, i, at); }
  }

  /** A step of one worker keeps what another has done. */
  lemma OtherKept<H(!new)>(P: Setting<H>, s: State, s': State, r: nat, x: nat)
    requires Inv(P, s) && Step(P, s, s', r) && x < |s.workers| && x != r
    ensures Covers(P, s') && WorkerOk(P, s', x)
  {
    hide Move, Underway, LayerDone, Owns;
    assert WorkerOk(P, s, x) && WorkerOk(P, s, r);
    var w, at := s.workers[x], s.workers[r].at;
    var L := P.layers[at];
    StepLayer(P, s, s', r);
    if w.Live? {
      if w.at < |P.layers| {
        Apart(|s.workers|, x, r, w.at);
        assert P.layers[w.at] != L by { LayersDiffer(P, w.at, at); }
      }
      forall i | 0 <= i < w.at && i < |P.layers| && Owns(|s.workers|, x, i)
        ensures LayerDone(P, s'.files[P.layers[i]])
      {
        assert LayerDone(P, s.files[P.layers[i]]);
      }
    }
  }

  /** The worker that stepped is in order again. */
  lemma MoverKept<H(!new)>(P: Setting<H>, s: State, s': State, r: nat)
    requires Inv(P, s) && Step(P, s, s', r)
    ensures Covers(P, s') && WorkerOk(P, s', r)
  {
    hide Move, LayerDone, Owns;
    assert WorkerOk(P, s, r);
    var w, w', count := s.workers[r], s'.workers[r], |s.workers|;
    var L := P.layers[w.at];
    StepLayer(P, s, s', r);
    MoveKeeps(P, L, count, s.files[L], w, s'.files[L], w');
    if w'.at != w.at { OwnsNext(count, r, w.at); }
    forall i | 0 <= i < w'.at && i < |P.layers| && Owns(count, r, i) ensures LayerDone(P, s'.files[P.layers[i]]) {
      if i >= w.at { OwnsBetween(count, r, w.at, i); } else { assert LayerDone(P, s.files[P.layers[i]]); }
    }
  }

  lemma Fresh<H(!new)>(P: Setting<H>, s: State, r: nat)
    requires Covers(P, s) && r < |s.workers| && s.workers[r] == Live(r, Check)
    ensures WorkerOk(P, s, r)
  {
    forall i | 0 <= i < r ensures !Owns(|s.workers|, r, i) {
      OwnedOnce(|s.workers|, r, i);
      OwnedOnce(|s.workers|, r, r);
    }
  }

  /** Every step, crash and restart keeps the invariant. */
  lemma NextKeeps<H(!new)>(P: Setting<H>, s: State, s': State)
    requires Inv(P, s) && Next(P, s, s')
    ensures Inv(P, s')
  {
    hide Move, Underway, LayerDone;
    if r :| Step(P, s, s', r) {
      StepLayer(P, s, s', r);
      forall x | 0 <= x < |s'.workers| ensures WorkerOk(P, s', x) {
        if x == r { MoverKept(P, s, s', r); } else { OtherKept(P, s, s', r, x); }
      }
    } else if r :| Crash(s, s', r) {
      forall x | 0 <= x < |s'.workers| ensures WorkerOk(P, s', x) { assert WorkerOk(P, s, x); }
    } else {
      forall x | 0 <= x < |s'.workers| ensures WorkerOk(P, s', x) { Fresh(P, s', x); }
    }
  }

  // ---------------------------------------------------------------- whole runs

  ghost predicate Run<H(!new)>(P: Setting<H>, run: seq<State>) {
    run != [] && Init(P, run[0]) && forall t :: 0 <= t < |run| - 1 ==> Next(P, run[t], run[t + 1])
  }

  lemma {:induction false} RunKeeps<H(!new)>(P: Setting<H>, run: seq<State>, t: nat)
    requires Run(P, run) && t < |run|
    ensures Inv(P, run[t])
  {
    hide Next;
    if t == 0 {
    } else {
      RunKeeps(P, run, t - 1);
      assert Next(P, run[t - 1], run[t - 1 + 1]);
      NextKeeps(P, run[t - 1], run[t]);
    }
  }

  /** A layer reported done has exactly the bytes of its encoding. */
  ghost predicate Right<H(!new)>(P: Setting<H>, L: int, f: Files) {
    LayerDone(P, f) ==> f.shard == Some(P.encoding(L))
  }

  /** At any moment of any run, whatever crashed and however the workers' steps interleave, a layer reported done has
      exactly the bytes of its encoding, or else its files are those of the start. */
  lemma {:induction false} NeverWrong<H(!new)>(P: Setting<H>, run: seq<State>, t: nat, i: nat)
    requires Run(P, run) && t < |run| && i < |P.layers|
    ensures P.layers[i] in run[0].files && P.layers[i] in run[t].files
    ensures Right(P, P.layers[i], run[t].files[P.layers[i]])
         || run[t].files[P.layers[i]] == run[0].files[P.layers[i]]
  {
    hide Move, LayerDone, WorkerOk;
    RunKeeps(P, run, t);
    if t > 0 {
      NeverWrong(P, run, t - 1, i);
      var s, s' := run[t - 1], run[t - 1 + 1];
      RunKeeps(P, run, t - 1);
      assert Next(P, s, s');
      if r :| Step(P, s, s', r) { StepLayer(P, s, s', r); }
    }
  }

  ghost predicate RightAt<H(!new)>(P: Setting<H>, s: State, i: nat)
    requires i < |P.layers|
  {
    P.layers[i] in s.files && Right(P, P.layers[i], s.files[P.layers[i]])
  }

  /** Every done layer is right at every moment of every run from a start. */
  ghost predicate AlwaysRight<H(!new)>(P: Setting<H>, s: State) {
    forall run: seq<State>, t: nat, i: nat :: Run(P, run) && run[0] == s && t < |run| && i < |P.layers| ==>
      RightAt(P, run[t], i)
  }

  /** No run from a start is ever wrong if and only if no layer is wrong at the start: done by a shard and a matching
      record of something else than its encoding, such as a run with other settings leaves. */
  lemma NeverWrongIff<H(!new)>(P: Setting<H>, s: State)
    requires Init(P, s)
    ensures AlwaysRight(P, s) <==> forall i: nat :: i < |P.layers| ==> RightAt(P, s, i)
  {
    hide Next, Right;
    if AlwaysRight(P, s) {
      assert Run(P, [s]) && [s][0] == s;
      forall i: nat | i < |P.layers| ensures RightAt(P, s, i) { assert RightAt(P, [s][0], i); }
    }
    if forall i: nat :: i < |P.layers| ==> RightAt(P, s, i) {
      forall run: seq<State>, t: nat, i: nat | Run(P, run) && run[0] == s && t < |run| && i < |P.layers|
        ensures RightAt(P, run[t], i)
      {
        NeverWrong(P, run, t, i);
        assert RightAt(P, s, i);
      }
    }
  }

  /** Once done, a layer is done for the rest of the run, with the same shard. */
  lemma {:induction false} StaysDone<H(!new)>(P: Setting<H>, run: seq<State>, t: nat, u: nat, i: nat)
    requires Run(P, run) && t <= u < |run| && i < |P.layers| && P.layers[i] in run[t].files
    requires LayerDone(P, run[t].files[P.layers[i]])
    ensures P.layers[i] in run[u].files && LayerDone(P, run[u].files[P.layers[i]])
    ensures run[u].files[P.layers[i]].shard == run[t].files[P.layers[i]].shard
    decreases u - t
  {
    hide LayerDone, Move, WorkerOk;
    if t < u {
      StaysDone(P, run, t, u - 1, i);
      var s, s' := run[u - 1], run[u - 1 + 1];
      RunKeeps(P, run, u - 1);
      assert Next(P, s, s');
      if r :| Step(P, s, s', r) { StepLayer(P, s, s', r); }
    }
  }

  /** A layer that is wrong at the start is wrong for good: every run skips it. */
  lemma WrongStays<H(!new)>(P: Setting<H>, run: seq<State>, t: nat, i: nat)
    requires Run(P, run) && t < |run| && i < |P.layers| && !RightAt(P, run[0], i)
    ensures !RightAt(P, run[t], i)
  {
    hide Next, LayerDone;
    StaysDone(P, run, 0, t, i);
  }

  /** A setting over bytes and a start that is wrong: shard and record of another encoding. */
  lemma ForeignEncoding() returns (P: Setting<Bytes>, s: State)
    ensures Init(P, s) && |P.layers| == 1 && !RightAt(P, s, 0)
  {
    P := Setting([0], _ => [7], x => x, (h, _) => h, x => Some(x), 1);
    s := State(map[0 := Files(Some([8]), None, Some([8]), None)], []);
  }

  /** Where all workers have come to the end of their slices, every layer is done. */
  lemma EndedIsDone<H(!new)>(P: Setting<H>, s: State, i: nat)
    requires Inv(P, s) && i < |P.layers| && |s.workers| >= 1
    requires forall r :: 0 <= r < |s.workers| ==> s.workers[r].Live? && s.workers[r].at >= |P.layers|
    ensures P.layers[i] in s.files && LayerDone(P, s.files[P.layers[i]])
  {
    hide LayerDone;
    var count := |s.workers|;
    var r := i % count;
    OwnedOnce(count, r, i);
    assert WorkerOk(P, s, r);
  }

  /** When all workers of a run without a crash have come to the end of their slices, every layer is done, however many
      runs before it were cut short. */
  lemma PassCompletes<H(!new)>(P: Setting<H>, run: seq<State>, t: nat, i: nat)
    requires Run(P, run) && t < |run| && i < |P.layers| && |run[t].workers| >= 1
    requires forall w :: w in run[t].workers ==> w.Live? && w.at >= |P.layers|
    ensures P.layers[i] in run[t].files && LayerDone(P, run[t].files[P.layers[i]])
  {
    hide Next, LayerDone, Inv;
    RunKeeps(P, run, t);
    assert forall r :: 0 <= r < |run[t].workers| ==> run[t].workers[r] in run[t].workers;
    EndedIsDone(P, run[t], i);
  }

  // ---------------------------------------------------------------- done layers are left alone

  /** A record of the layer's own encoding stands beside its shard. */
  ghost predicate Beside<H(!new)>(P: Setting<H>, L: int, f: Files) {
    f.done.Some? && P.parse(f.done.value) == Some(P.hash(P.encoding(L))) ==> LayerDone(P, f)
  }

  ghost predicate Busy<H(!new)>(P: Setting<H>, s: State, w: Worker)
    requires Covers(P, s)
  {
    w.Live? && w.stage != Check && w.at < |P.layers| ==> !LayerDone(P, s.files[P.layers[w.at]])
  }

  /** Every record of an own encoding stands beside its shard, and no worker is past the check on a done layer. */
  ghost predicate Clean<H(!new)>(P: Setting<H>, s: State)
    requires Covers(P, s)
  {
    && (forall i :: 0 <= i < |P.layers| ==> Beside(P, P.layers[i], s.files[P.layers[i]]))
    && (forall r :: 0 <= r < |s.workers| ==> Busy(P, s, s.workers[r]))
  }

  /** A move from a clean state stays clean and does not touch a done layer. */
  lemma MoveClean<H(!new)>(P: Setting<H>, L: int, count: nat, f: Files, w: Worker, f': Files, w': Worker)
    requires Laws(P) && L in P.layers && w.Live? && Underway(P, L, f, w.stage)
      && Move(P, L, count, f, w, f', w')
    requires Beside(P, L, f) && (w.stage != Check ==> !LayerDone(P, f))
    ensures Beside(P, L, f') && (w'.Live? && w'.at == w.at && w'.stage != Check ==> !LayerDone(P, f'))
    ensures LayerDone(P, f) ==> f' == f
  {
    var enc := P.encoding(L);
    match w.stage
    case Check =>
    case Shard(k) => if k >= |enc| { assert enc[..k] == enc; }
    case InPlace =>
    case Record(stamp, n) =>
  }

  lemma StepClean<H(!new)>(P: Setting<H>, s: State, s': State, r: nat)
    requires Inv(P, s) && Clean(P, s) && Step(P, s, s', r)
    ensures Covers(P, s') && Clean(P, s')
    ensures forall i :: 0 <= i < |P.layers| && LayerDone(P, s.files[P.layers[i]]) ==>
      s'.files[P.layers[i]] == s.files[P.layers[i]]
  {
    hide Move, Underway, LayerDone, Beside, Owns;
    var w, w' := s.workers[r], s'.workers[r];
    var L := P.layers[w.at];
    assert WorkerOk(P, s, r) && Busy(P, s, w);
    StepLayer(P, s, s', r);
    MoveClean(P, L, |s.workers|, s.files[L], w, s'.files[L], w');
    forall x | 0 <= x < |s'.workers| ensures Busy(P, s', s'.workers[x]) {
      assert Busy(P, s, s.workers[x]);
      if x == r {
        MoveKeeps(P, L, |s.workers|, s.files[L], w, s'.files[L], w');
      } else if s.workers[x].Live? {
        assert WorkerOk(P, s, x);
        Apart(|s.workers|, x, r, s.workers[x].at);
      }
    }
  }

  lemma NextClean<H(!new)>(P: Setting<H>, s: State, s': State)
    requires Inv(P, s) && Clean(P, s) && Next(P, s, s')
    ensures Covers(P, s') && Clean(P, s')
    ensures forall i :: 0 <= i < |P.layers| && LayerDone(P, s.files[P.layers[i]]) ==>
      s'.files[P.layers[i]] == s.files[P.layers[i]]
  {
    hide LayerDone, Move, WorkerOk, Beside;
    if r :| Step(P, s, s', r) {
      StepClean(P, s, s', r);
    } else if r :| Crash(s, s', r) {
      forall x | 0 <= x < |s'.workers| ensures Busy(P, s', s'.workers[x]) { assert Busy(P, s, s.workers[x]); }
    }
  }

  /** In a run that starts beside its records, a layer once done is never written again: neither its shard, nor its
      record, nor a temporary file. */
  lemma {:induction false} NeverRewritten<H(!new)>(P: Setting<H>, run: seq<State>, t: nat, u: nat)
    requires Run(P, run) && t <= u < |run| && Clean(P, run[0])
    ensures Covers(P, run[u]) && Clean(P, run[u]) && Covers(P, run[t])
    ensures forall i :: 0 <= i < |P.layers| && LayerDone(P, run[t].files[P.layers[i]]) ==>
      run[u].files[P.layers[i]] == run[t].files[P.layers[i]]
    decreases u
  {
    hide LayerDone, Move, WorkerOk, Beside, Next, Busy;
    RunKeeps(P, run, t);
    RunKeeps(P, run, u);
    if u > 0 {
      RunKeeps(P, run, u - 1);
      NeverRewritten(P, run, if t < u then t else u - 1, u - 1);
      assert Next(P, run[u - 1], run[u - 1 + 1]);
      NextClean(P, run[u - 1], run[u]);
    }
  }

  /** No file of a layer that is done at t has changed at u. */
  ghost predicate LeftAlone<H(!new)>(P: Setting<H>, run: seq<State>, t: nat, u: nat)
    requires t < |run| && u < |run|
  {
    forall i :: 0 <= i < |P.layers| && P.layers[i] in run[t].files && LayerDone(P, run[t].files[P.layers[i]]) ==>
      P.layers[i] in run[u].files && run[u].files[P.layers[i]] == run[t].files[P.layers[i]]
  }

  lemma RestartNext<H(!new)>(P: Setting<H>, s: State, s': State)
    requires Restart(s, s')
    ensures Next(P, s, s')
  {
  }

  /** Worker r moves on, whatever the others do. */
  lemma MoveNext<H(!new)>(P: Setting<H>, s: State, r: nat, f': Files, w': Worker) returns (s': State)
    requires Covers(P, s) && r < |s.workers| && s.workers[r].Live? && s.workers[r].at < |P.layers|
    requires var L := P.layers[s.workers[r].at]; Move(P, L, |s.workers|, s.files[L], s.workers[r], f', w')
    ensures Next(P, s, s') && Covers(P, s')
    ensures s' == State(s.files[P.layers[s.workers[r].at] := f'], s.workers[r := w'])
  {
    hide Move;
    s' := State(s.files[P.layers[s.workers[r].at] := f'], s.workers[r := w']);
    assert Step(P, s, s', r);
  }

  /** The files of a layer whose encoding has been renamed into place while the record was there before. */
  function Renewed<H>(P: Setting<H>, L: int, f: Files): Files {
    f.(shard := Some(P.encoding(L)), shardTmp := None)
  }

  /** A record of the own encoding without its shard: the layer is not done, and it is as soon as the shard is in
      place. */
  lemma OrphanDone<H(!new)>(P: Setting<H>, L: int, f: Files)
    requires !Beside(P, L, f)
    ensures !LayerDone(P, f) && LayerDone(P, Renewed(P, L, f))
    ensures LayerDone(P, Renewed(P, L, f).(doneTmp := Some([])))
  {
  }

  ghost predicate Chain<H(!new)>(P: Setting<H>, run: seq<State>) {
    forall t :: 0 <= t < |run| - 1 ==> Next(P, run[t], run[t + 1])
  }

  /** Writing the shard of such a layer and putting it in place. */
  lemma ShardMoves<H(!new)>(P: Setting<H>, s: State, r: nat) returns (run: seq<State>)
    requires Covers(P, s) && r < |s.workers| && s.workers[r] == Live(r, Check) && r < |P.layers|
    requires !Beside(P, P.layers[r], s.files[P.layers[r]])
    ensures Chain(P, [s] + run) && run != []
    ensures var s', f := run[|run| - 1], Renewed(P, P.layers[r], s.files[P.layers[r]]).(doneTmp := Some([]));
            Covers(P, s') && |s'.workers| == |s.workers| && s'.workers[r] == Live(r, Record(0, 0))
              && s'.files[P.layers[r]] == f
  {
    hide LayerDone, Next, Beside;
    var L := P.layers[r];
    var f, enc := s.files[L], P.encoding(L);
    OrphanDone(P, L, f);
    var s2 := MoveNext(P, s, r, f.(shardTmp := Some([])), Live(r, Shard(0)));
    run := [s2];
    if enc != [] {
      assert [] + enc[0..|enc|] == enc;
      s2 := MoveNext(P, s2, r, f.(shardTmp := Some(enc)), Live(r, Shard(|enc|)));
      run := run + [s2];
    }
    var s4 := MoveNext(P, s2, r, Renewed(P, L, f), Live(r, InPlace));
    var s5 := MoveNext(P, s4, r, Renewed(P, L, f).(doneTmp := Some([])), Live(r, Record(0, 0)));
    run := run + [s4, s5];
  }

  /** Writing the record and putting it in place: the temporary record is gone. */
  lemma RecordMoves<H(!new)>(P: Setting<H>, s: State, r: nat) returns (run: seq<State>)
    requires Covers(P, s) && r < |s.workers| && s.workers[r] == Live(r, Record(0, 0)) && r < |P.layers|
    requires s.files[P.layers[r]].doneTmp == Some([])
    ensures Chain(P, [s] + run) && run != []
    ensures Covers(P, run[|run| - 1]) && run[|run| - 1].files[P.layers[r]].doneTmp == None
  {
    hide LayerDone, Next;
    var L := P.layers[r];
    var f, text := s.files[L], P.record(P.hash(P.encoding(L)), 0);
    var s2 := s;
    run := [];
    if text != [] {
      assert [] + text[0..|text|] == text;
      s2 := MoveNext(P, s, r, f.(doneTmp := Some(text)), Live(r, Record(0, |text|)));
      run := [s2];
    }
    var s3 := MoveNext(P, s2, r, f.(done := Some(text), doneTmp := None), Live(r + |s.workers|, Check));
    run := run + [s3];
  }

  lemma Chained<H(!new)>(P: Setting<H>, a: seq<State>, b: seq<State>)
    requires a != [] && Chain(P, a) && Chain(P, [a[|a| - 1]] + b)
    ensures Chain(P, a + b)
  {
    hide Next;
    var c, n := [a[|a| - 1]] + b, |a| - 1;
    forall t | 0 <= t < |a + b| - 1 ensures Next(P, (a + b)[t], (a + b)[t + 1]) {
      if t < n { assert Next(P, a[t], a[t + 1]); } else { assert Next(P, c[t - n], c[t - n + 1]); }
    }
  }

  /** From a record of the own encoding that does not stand beside its shard there is a run that makes the layer done,
      by renaming the new shard, and then writes its record again. */
  lemma Rewritten<H(!new)>(P: Setting<H>, s: State) returns (run: seq<State>, t: nat)
    requires Init(P, s) && !Clean(P, s)
    ensures Run(P, run) && run[0] == s && t < |run| && !LeftAlone(P, run, t, |run| - 1)
  {
    hide Laws, Next, LayerDone, Beside;
    var i: nat :| i < |P.layers| && !Beside(P, P.layers[i], s.files[P.layers[i]]);
    var all := seq(|P.layers|, r requires 0 <= r < |P.layers| => Live(r, Check));
    var s1 := State(s.files, all);
    RestartNext(P, s, s1);
    OrphanDone(P, P.layers[i], s.files[P.layers[i]]);
    var a := ShardMoves(P, s1, i);
    Chained(P, [s, s1], a);
    var b := RecordMoves(P, a[|a| - 1], i);
    var front := [s, s1] + a;
    Chained(P, front, b);
    run, t := front + b, |front| - 1;
    assert P.layers[i] in run[t].files && LayerDone(P, run[t].files[P.layers[i]]);
    assert run[|run| - 1] == b[|b| - 1];
  }

  lemma CleanLeavesAlone<H(!new)>(P: Setting<H>, run: seq<State>, t: nat, u: nat)
    requires Run(P, run) && t <= u < |run| && Covers(P, run[0]) && Clean(P, run[0])
    ensures LeftAlone(P, run, t, u)
  {
    hide Next, LayerDone, Clean;
    NeverRewritten(P, run, t, u);
  }

  /** No run from a start ever touches a done layer if and only if every record of an own encoding stands
      beside its shard. */
  lemma NeverRewrittenIff<H(!new)>(P: Setting<H>, s: State)
    requires Init(P, s)
    ensures Clean(P, s) <==>
      forall run: seq<State>, t: nat, u: nat :: Run(P, run) && run[0] == s && t <= u < |run| ==> LeftAlone(P, run, t, u)
  {
    hide Clean, LeftAlone, Next, Laws;
    if Clean(P, s) {
      forall run: seq<State>, t: nat, u: nat | Run(P, run) && run[0] == s && t <= u < |run|
        ensures LeftAlone(P, run, t, u)
      {
        CleanLeavesAlone(P, run, t, u);
      }
    } else {
      var run, t := Rewritten(P, s);
    }
  }

  /** A setting over bytes and a start with a record of the own encoding whose shard is missing. */
  lemma OrphanRecord() returns (P: Setting<Bytes>, s: State)
    ensures Init(P, s) && !Clean(P, s)
  {
    P := Setting([0], _ => [7], x => x, (h, _) => h, x => Some(x), 1);
    s := State(map[0 := Files(None, None, Some([7]), None)], []);
    assert !Beside(P, P.layers[0], s.files[P.layers[0]]);
  }

  // ---------------------------------------------------------------- a run without a crash ends

  /** The moves a layer may take. */
  function LayerCost<H>(P: Setting<H>, i: nat): nat
    requires i < |P.layers|
  {
    |P.encoding(P.layers[i])| + P.limit + 4
  }

  /** The moves ahead from an index on. */
  function Ahead<H>(P: Setting<H>, count: nat, at: nat): nat
    requires count >= 1
    decreases |P.layers| - at
  {
    if at >= |P.layers| then 0 else LayerCost(P, at) + Ahead(P, count, at + count)
  }

  /** At most so many moves are left to a worker. */
  function MovesLeft<H>(P: Setting<H>, count: nat, w: Worker): int
    requires count >= 1
  {
    if w.Dead? || w.at >= |P.layers| then 0 else
      var enc := P.encoding(P.layers[w.at]);
      Ahead(P, count, w.at + count) +
      match w.stage
      case Check => |enc| + P.limit + 4
      case Shard(k) => |enc| - k + P.limit + 3
      case InPlace => P.limit + 2
      case Record(stamp, n) => |P.record(P.hash(enc), stamp)| - n + 1
  }

  function AllLeft<H>(P: Setting<H>, count: nat, workers: seq<Worker>): int
    requires count >= 1
  {
    if workers == [] then 0
      else AllLeft(P, count, workers[..|workers| - 1]) + MovesLeft(P, count, workers[|workers| - 1])
  }

  lemma AheadStep<H>(P: Setting<H>, count: nat, at: nat)
    requires count >= 1
    ensures at < |P.layers| ==> Ahead(P, count, at) == LayerCost(P, at) + Ahead(P, count, at + count)
    ensures at >= |P.layers| ==> Ahead(P, count, at) == 0
  {
  }

  lemma MoveGoesDown<H(!new)>(P: Setting<H>, count: nat, f: Files, w: Worker, f': Files, w': Worker)
    requires Laws(P) && count >= 1 && w.Live? && w.at < |P.layers| && Underway(P, P.layers[w.at], f, w.stage)
    requires Move(P, P.layers[w.at], count, f, w, f', w')
    ensures 0 <= MovesLeft(P, count, w') < MovesLeft(P, count, w)
  {
    hide Ahead;
    if w'.Live? && w'.stage.Record? { assert RecordLaw(P, P.hash(P.encoding(P.layers[w.at])), w'.stage.stamp); }
    assert w.at + count < |P.layers| ==>
      Ahead(P, count, w.at + count) == LayerCost(P, w.at + count) + Ahead(P, count, w.at + count + count)
      by { AheadStep(P, count, w.at + count); }
    AheadStep(P, count, w.at + count);
  }

  lemma {:induction false} LeftReplaced<H>(P: Setting<H>, count: nat, workers: seq<Worker>, r: nat, w: Worker)
    requires count >= 1 && r < |workers|
    ensures AllLeft(P, count, workers[r := w]) - AllLeft(P, count, workers)
      == MovesLeft(P, count, w) - MovesLeft(P, count, workers[r])
    decreases |workers|
  {
    hide MovesLeft;
    var n := |workers| - 1;
    if r < n {
      LeftReplaced(P, count, workers[..n], r, w);
      assert workers[r := w][..n] == workers[..n][r := w];
    } else {
      assert workers[r := w][..n] == workers[..n];
    }
  }

  /** Every step of a worker leaves fewer moves for all together. */
  lemma StepGoesDown<H(!new)>(P: Setting<H>, s: State, s': State, r: nat)
    requires Inv(P, s) && Step(P, s, s', r)
    ensures AllLeft(P, |s.workers|, s'.workers) < AllLeft(P, |s.workers|, s.workers)
  {
    hide Move, Underway, LayerDone, Owns, MovesLeft;
    assert WorkerOk(P, s, r);
    var w := s.workers[r];
    var L := P.layers[w.at];
    MoveGoesDown(P, |s.workers|, s.files[L], w, s'.files[L], s'.workers[r]);
    LeftReplaced(P, |s.workers|, s.workers, r, s'.workers[r]);
  }

  /** A live worker that has not come to its end can take a step: a run without a crash ends only where all are done. */
  lemma CanStep<H(!new)>(P: Setting<H>, s: State, r: nat) returns (s': State)
    requires Inv(P, s) && r < |s.workers| && s.workers[r].Live? && s.workers[r].at < |P.layers|
    ensures Step(P, s, s', r)
  {
    hide Owns;
    assert WorkerOk(P, s, r);
    var w, count := s.workers[r], |s.workers|;
    var L := P.layers[w.at];
    var f, enc := s.files[L], P.encoding(L);
    var f', w' := f, w;
    match w.stage {
    case Check =>
      if LayerDone(P, f) {
        w' := Live(w.at + count, Check);
      } else {
        f', w' := f.(shardTmp := Some([])), Live(w.at, Shard(0));
      }
    case Shard(k) =>
      if k < |enc| { f', w' := f.(shardTmp := Some(f.shardTmp.value + enc[k..|enc|])), Live(w.at, Shard(|enc|)); }
      else { f', w' := f.(shard := f.shardTmp, shardTmp := None), Live(w.at, InPlace); }
    case InPlace => f', w' := f.(doneTmp := Some([])), Live(w.at, Record(0, 0));
    case Record(stamp, n) =>
      var text := P.record(P.hash(enc), stamp);
      if n < |text| {
        f', w' := f.(doneTmp := Some(f.doneTmp.value + text[n..|text|])), Live(w.at, Record(stamp, |text|));
      }
      else { f', w' := f.(done := f.doneTmp, doneTmp := None), Live(w.at + count, Check); }
    }
    s' := State(s.files[L := f'], s.workers[r := w']);
    assert Move(P, L, count, f, w, f', w');
  }

  /** What is left is never negative. */
  lemma WorkerLeft<H(!new)>(P: Setting<H>, s: State, r: nat)
    requires Inv(P, s) && r < |s.workers|
    ensures MovesLeft(P, |s.workers|, s.workers[r]) >= 0
  {
    assert WorkerOk(P, s, r);
  }

  lemma {:induction false} AllLeftNonneg<H>(P: Setting<H>, count: nat, workers: seq<Worker>)
    requires count >= 1 && forall r :: 0 <= r < |workers| ==> MovesLeft(P, count, workers[r]) >= 0
    ensures AllLeft(P, count, workers) >= 0
  {
    hide MovesLeft;
    if workers != [] { AllLeftNonneg(P, count, workers[..|workers| - 1]); }
  }

  lemma LeftNonneg<H(!new)>(P: Setting<H>, s: State)
    requires Inv(P, s) && |s.workers| >= 1
    ensures AllLeft(P, |s.workers|, s.workers) >= 0
  {
    hide Inv, MovesLeft;
    forall r | 0 <= r < |s.workers| ensures MovesLeft(P, |s.workers|, s.workers[r]) >= 0 { WorkerLeft(P, s, r); }
    AllLeftNonneg(P, |s.workers|, s.workers);
  }

  ghost predicate Stepped<H(!new)>(P: Setting<H>, s: State, s': State) { exists r :: Step(P, s, s', r) }

  /** A stretch of a run in which nothing crashes, from any reachable state with a worker. */
  ghost predicate Pass<H(!new)>(P: Setting<H>, pass: seq<State>) {
    && pass != [] && Inv(P, pass[0]) && |pass[0].workers| >= 1
    && forall t :: 0 <= t < |pass| - 1 ==> Stepped(P, pass[t], pass[t + 1])
  }

  ghost predicate AllLive(s: State) { forall w :: w in s.workers ==> w.Live? }

  lemma StepStaysLive<H(!new)>(P: Setting<H>, s: State, s': State, r: nat)
    requires Inv(P, s) && Step(P, s, s', r)
    ensures s'.workers[r].Live?
  {
    hide Underway, LayerDone, Owns;
    assert WorkerOk(P, s, r);
  }

  lemma SteppedKeeps<H(!new)>(P: Setting<H>, s: State, s': State)
    requires Inv(P, s) && Stepped(P, s, s')
    ensures Inv(P, s') && |s'.workers| == |s.workers| >= 1 && (AllLive(s) ==> AllLive(s'))
    ensures AllLeft(P, |s.workers|, s'.workers) < AllLeft(P, |s.workers|, s.workers)
  {
    hide Move, AllLeft, WorkerOk;
    var r :| Step(P, s, s', r);
    NextKeeps(P, s, s');
    StepGoesDown(P, s, s', r);
    StepStaysLive(P, s, s', r);
  }

  /** Along a pass the moves left pay for the steps taken. */
  lemma {:induction false} PassKeeps<H(!new)>(P: Setting<H>, pass: seq<State>)
    requires Pass(P, pass)
    ensures var s, s' := pass[0], pass[|pass| - 1];
            && Inv(P, s') && |s'.workers| == |s.workers| && (AllLive(s) ==> AllLive(s'))
            && |pass| - 1 + AllLeft(P, |s.workers|, s'.workers) <= AllLeft(P, |s.workers|, s.workers)
  {
    hide Inv, Stepped, AllLive, AllLeft;
    if |pass| > 1 {
      var n := |pass| - 2;
      PassKeeps(P, pass[..n + 1]);
      assert Stepped(P, pass[n], pass[n + 1]);
      SteppedKeeps(P, pass[n], pass[n + 1]);
    }
  }

  /** Nothing can step. */
  ghost predicate Stuck<H(!new)>(P: Setting<H>, s: State) { forall s' :: !Stepped(P, s, s') }

  ghost predicate AllDone<H(!new)>(P: Setting<H>, s: State) {
    forall i :: 0 <= i < |P.layers| ==> P.layers[i] in s.files && LayerDone(P, s.files[P.layers[i]])
  }

  lemma NotStuck<H(!new)>(P: Setting<H>, s: State, r: nat)
    requires Inv(P, s) && r < |s.workers| && s.workers[r].Live? && s.workers[r].at < |P.layers|
    ensures !Stuck(P, s)
  {
    hide Inv, Step;
    var s' := CanStep(P, s, r);
    assert Stepped(P, s, s');
  }

  lemma StuckIsDone<H(!new)>(P: Setting<H>, s: State)
    requires Inv(P, s) && |s.workers| >= 1 && AllLive(s) && Stuck(P, s)
    ensures AllDone(P, s)
  {
    hide Step, WorkerOk;
    forall r | 0 <= r < |s.workers| ensures s.workers[r].at >= |P.layers| {
      assert s.workers[r] in s.workers;
      if s.workers[r].at < |P.layers| { NotStuck(P, s, r); }
    }
    forall i | 0 <= i < |P.layers| ensures LayerDone(P, s.files[P.layers[i]]) { EndedIsDone(P, s, i); }
  }

  /** A pass takes at most as many steps as there are moves left at its start, and one that started with no dead worker
      and cannot go on has made every layer done. */
  lemma PassEnds<H(!new)>(P: Setting<H>, pass: seq<State>)
    requires Pass(P, pass)
    ensures |pass| - 1 <= AllLeft(P, |pass[0].workers|, pass[0].workers)
    ensures AllLive(pass[0]) && Stuck(P, pass[|pass| - 1]) ==> AllDone(P, pass[|pass| - 1])
  {
    hide Inv, AllLeft, Step, LayerDone;
    var s, s' := pass[0], pass[|pass| - 1];
    PassKeeps(P, pass);
    LeftNonneg(P, s');
    if AllLive(s) && Stuck(P, s') { StuckIsDone(P, s'); }
  }

  /** There is such a pass from every reachable state with a worker: a run that is left alone comes to its end. */
  lemma {:induction false} PassExists<H(!new)>(P: Setting<H>, s: State) returns (pass: seq<State>)
    requires Inv(P, s) && |s.workers| >= 1
    ensures Pass(P, pass) && pass[0] == s && Stuck(P, pass[|pass| - 1])
    decreases AllLeft(P, |s.workers|, s.workers)
  {
    hide Inv, Stepped, AllLive, AllLeft;
    if s' :| Stepped(P, s, s') {
      SteppedKeeps(P, s, s');
      LeftNonneg(P, s);
      LeftNonneg(P, s');
      var rest := PassExists(P, s');
      pass := [s] + rest;
      forall t | 0 <= t < |pass| - 1 ensures Stepped(P, pass[t], pass[t + 1]) {
        if t > 0 { assert Stepped(P, rest[t - 1], rest[t - 1 + 1]); }
      }
    } else {
      pass := [s];
    }
  }
}

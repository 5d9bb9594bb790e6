/** Writing a safetensors file, reading its tensors back, and telling a complete file from a truncated one. */
module SafeTensors {
  import opened ByteStrings
  import opened Options
  import opened Sorting

  const SPACE: Byte := 32
  const META: string := "__metadata__"
  const HEADER_LIMIT: nat := 104857600
  const LENGTH_LIMIT: nat := 0x1_0000_0000_0000_0000

  const DTYPE_SIZE: map<string, nat> := map[
    "BOOL" := 1, "U8" := 1, "I8" := 1, "F8_E4M3" := 1, "F8_E5M2" := 1,
    "I16" := 2, "U16" := 2, "F16" := 2, "BF16" := 2,
    "I32" := 4, "U32" := 4, "F32" := 4,
    "I64" := 8, "U64" := 8, "F64" := 8]

  // ---------------------------------------------------------------- the length field

  /** n little-endian in k bytes. */
  function Pack(n: nat, k: nat): (b: Bytes)
    ensures |b| == k
  {
    if k == 0 then [] else [n % 256] + Pack(n / 256, k - 1)
  }

  function Unpack(b: Bytes): nat {
    if b == [] then 0 else b[0] + 256 * Unpack(b[1..])
  }

  /** How many numbers fit into k bytes. */
  function ByteRange(k: nat): (p: nat)
    ensures p >= 1
  {
    if k == 0 then 1 else 256 * ByteRange(k - 1)
  }

  lemma {:induction false} PackUnpack(n: nat, k: nat)
    requires n < ByteRange(k)
    ensures Unpack(Pack(n, k)) == n
  {
    if k > 0 {
      PackUnpack(n / 256, k - 1);
      assert Pack(n, k)[1..] == Pack(n / 256, k - 1);
    }
  }

  lemma UnpackStep(b: Bytes, x: Byte)
    ensures Unpack([]) == 0 && Unpack([x]) == x && Unpack([x] + b) == x + 256 * Unpack(b)
  {
    assert ([x] + b)[1..] == b;
  }

  /** The first byte is the lowest: a byte more at the end counts 256 times as much as one at its place before it. */
  lemma {:induction false} LittleEndian(b: Bytes, x: Byte)
    ensures ByteRange(0) == 1 && ByteRange(|b| + 1) == 256 * ByteRange(|b|)
    ensures Unpack(b + [x]) == Unpack(b) + x * ByteRange(|b|)
  {
    if b == [] {
      assert b + [x] == [x];
      UnpackStep(b, x);
    } else {
      var tail, p := b[1..], ByteRange(|b| - 1);
      LittleEndian(tail, x);
      assert b == [b[0]] + tail && b + [x] == [b[0]] + (tail + [x]);
      UnpackStep(tail, b[0]);
      UnpackStep(tail + [x], b[0]);
      assert 256 * (x * p) == x * (256 * p);
    }
  }

  /** Every row of bytes is the packing of its number. */
  lemma {:induction false} UnpackPack(b: Bytes)
    ensures Pack(Unpack(b), |b|) == b
  {
    if b != [] {
      UnpackPack(b[1..]);
      var n := Unpack(b);
      assert n % 256 == b[0] && n / 256 == Unpack(b[1..]);
      assert b == [b[0]] + b[1..];
    }
  }

  // ---------------------------------------------------------------- headers

  /** A header value: metadata, or a tensor with its place in the data area. */
  datatype Value<M> = Meta(meta: M) | Tensor(dtype: string, shape: seq<nat>, lo: nat, hi: nat)

  type Header<M> = map<string, Value<M>>

  /** Writing and reading a header as JSON; order is the order in which the keys were first set. */
  datatype Json<!M> = Json(encode: (seq<string>, Header<M>) -> Bytes, decode: Bytes -> Option<Header<M>>)

  function Spaces(k: nat): (b: Bytes)
    ensures |b| == k
  {
    seq(k, _ => SPACE)
  }

  /** Reading tolerates trailing spaces, and no header is written with less than two characters. */
  ghost predicate Laws<M(!new)>(J: Json<M>) {
    forall order: seq<string>, header: Header<M>, k: nat :: Elements(order) == header.Keys ==>
      J.decode(J.encode(order, header) + Spaces(k)) == Some(header) && |J.encode(order, header)| >= 2
  }

  datatype Entry = Entry(name: string, dtype: string, shape: seq<nat>, payload: Bytes)

  function Product(shape: seq<nat>, n: nat): nat {
    if shape == [] then n else Product(shape[..|shape| - 1], n) * shape[|shape| - 1]
  }

  /** The bytes a tensor takes. */
  function Size(e: Entry): nat
    requires e.dtype in DTYPE_SIZE
  {
    Product(e.shape, DTYPE_SIZE[e.dtype])
  }

  /** Every dimension counts: one more multiplies, in whatever place, and none leaves the bytes of one element. */
  lemma {:induction false} EveryDimension(shape: seq<nat>, rest: seq<nat>, d: nat, n: nat)
    ensures Product([], n) == n && Product(shape + [d] + rest, n) == d * Product(shape + rest, n)
  {
    if rest == [] {
      assert (shape + [d] + rest)[..|shape|] == shape && shape + rest == shape;
    } else {
      var front, x := rest[..|rest| - 1], rest[|rest| - 1];
      EveryDimension(shape, front, d, n);
      assert (shape + [d] + rest)[..|shape| + |rest|] == shape + [d] + front;
      assert (shape + rest)[..|shape| + |rest| - 1] == shape + front;
      var p := Product(shape + front, n);
      assert (d * p) * x == d * (p * x);
    }
  }

  ghost predicate Known(entries: seq<Entry>) {
    forall i :: 0 <= i < |entries| ==> entries[i].dtype in DTYPE_SIZE
  }

  /** Where the first i tensors end. */
  function Offset(entries: seq<Entry>, i: nat): nat
    requires i <= |entries| && Known(entries)
  {
    if i == 0 then 0 else Offset(entries, i - 1) + Size(entries[i - 1])
  }

  /** The header after the first i entries. */
  function HeaderOf<M>(entries: seq<Entry>, meta: Option<M>, i: nat): Header<M>
    requires i <= |entries| && Known(entries)
  {
    if i == 0 then (if meta.Some? then map[META := Meta(meta.value)] else map[])
    else
      var e := entries[i - 1];
      HeaderOf(entries, meta, i - 1)[e.name := Tensor(e.dtype, e.shape, Offset(entries, i - 1), Offset(entries, i))]
  }

  /** The keys in the order they are first set. */
  function OrderOf<M>(entries: seq<Entry>, meta: Option<M>, i: nat): seq<string>
    requires i <= |entries|
  {
    if i == 0 then (if meta.Some? then [META] else [])
    else
      var before, name := OrderOf(entries, meta, i - 1), entries[i - 1].name;
      if name in before then before else before + [name]
  }

  /** The header as it is written: JSON padded with spaces to a multiple of eight. */
  function Padded(b: Bytes): (p: Bytes)
    ensures |p| % 8 == 0 && |b| <= |p|
  {
    b + Spaces((8 - |b| % 8) % 8)
  }

  function HeaderBytes<M(!new)>(J: Json<M>, entries: seq<Entry>, meta: Option<M>): Bytes
    requires Known(entries)
  {
    Padded(J.encode(OrderOf(entries, meta, |entries|), HeaderOf(entries, meta, |entries|)))
  }

  /** With different names the keys are the metadata key, where there is metadata, and the names in their order. */
  lemma {:induction false} OrderIs<M>(entries: seq<Entry>, meta: Option<M>, n: nat)
    requires n <= |entries| && forall i, j :: 0 <= i < j < n ==> entries[i].name != entries[j].name
    requires meta.Some? ==> forall i :: 0 <= i < n ==> entries[i].name != META
    ensures OrderOf(entries, meta, n) == (if meta.Some? then ["__metadata__"] else [])
      + seq(n, i requires 0 <= i < n => entries[i].name)
  {
    if n > 0 {
      OrderIs(entries, meta, n - 1);
      var names := seq(n - 1, i requires 0 <= i < n - 1 => entries[i].name);
      assert entries[n - 1].name !in names;
      assert seq(n, i requires 0 <= i < n => entries[i].name) == names + [entries[n - 1].name];
    }
  }

  /** Fewer than eight spaces are added at the end. */
  lemma PaddedIs(b: Bytes)
    ensures b <= Padded(b) && |Padded(b)| % 8 == 0 && |Padded(b)| < |b| + 8
    ensures forall i :: |b| <= i < |Padded(b)| ==> Padded(b)[i] == 32
  {
  }

  function Payloads(entries: seq<Entry>, i: nat): Bytes
    requires i <= |entries|
  {
    if i == 0 then [] else Payloads(entries, i - 1) + entries[i - 1].payload
  }

  /** The whole file. */
  function FileOf<M(!new)>(J: Json<M>, entries: seq<Entry>, meta: Option<M>): Bytes
    requires Known(entries)
  {
    var h := HeaderBytes(J, entries, meta);
    Pack(|h|, 8) + h + Payloads(entries, |entries|)
  }

  /** What a list of tensors must meet to be written: known types, distinct names, none of them the metadata key beside
      metadata, a header whose length fits its field, and payloads as long as their shapes say. */
  ghost predicate Writable<M(!new)>(J: Json<M>, entries: seq<Entry>, meta: Option<M>) {
    && Known(entries)
    && (forall i, j :: 0 <= i < j < |entries| ==> entries[i].name != entries[j].name)
    && (meta.Some? ==> forall i :: 0 <= i < |entries| ==> entries[i].name != META)
    && |HeaderBytes(J, entries, meta)| < LENGTH_LIMIT
    && (forall i :: 0 <= i < |entries| ==> |entries[i].payload| == Size(entries[i]))
  }

  lemma {:induction false} HeaderKeys<M>(entries: seq<Entry>, meta: Option<M>, i: nat)
    requires i <= |entries| && Known(entries)
    ensures HeaderOf(entries, meta, i).Keys == Elements(OrderOf(entries, meta, i))
  {
    if i > 0 {
      HeaderKeys(entries, meta, i - 1);
      var before, name := OrderOf(entries, meta, i - 1), entries[i - 1].name;
      assert Elements(before + [name]) == Elements(before) + {name};
    }
  }

  /** A name is the metadata key, where there is metadata, or that of one of the first n entries. */
  predicate Taken<M>(entries: seq<Entry>, meta: Option<M>, n: nat, name: string)
    requires n <= |entries|
  {
    if n == 0 then meta.Some? && name == META else entries[n - 1].name == name || Taken(entries, meta, n - 1, name)
  }

  /** The first n names and the metadata key are all different. */
  predicate Different<M>(entries: seq<Entry>, meta: Option<M>, n: nat)
    requires n <= |entries|
  {
    n == 0 || (Different(entries, meta, n - 1) && !Taken(entries, meta, n - 1, entries[n - 1].name))
  }

  lemma {:induction false} TakenIff<M>(entries: seq<Entry>, meta: Option<M>, n: nat, name: string)
    requires n <= |entries|
    ensures Taken(entries, meta, n, name)
      <==> (meta.Some? && name == META) || exists i :: 0 <= i < n && entries[i].name == name
  {
    if n > 0 { TakenIff(entries, meta, n - 1, name); }
  }

  lemma {:induction false} DifferentIff<M>(entries: seq<Entry>, meta: Option<M>, n: nat)
    requires n <= |entries|
    ensures Different(entries, meta, n)
       <==> (forall i, j :: 0 <= i < j < n ==> entries[i].name != entries[j].name)
            && (meta.Some? ==> forall i :: 0 <= i < n ==> entries[i].name != META)
  {
    if n > 0 {
      DifferentIff(entries, meta, n - 1);
      TakenIff(entries, meta, n - 1, entries[n - 1].name);
    }
  }

  /** The keys of the header are the names taken. */
  lemma {:induction false} HeaderHas<M>(entries: seq<Entry>, meta: Option<M>, n: nat, name: string)
    requires n <= |entries| && Known(entries)
    ensures name in HeaderOf(entries, meta, n) <==> Taken(entries, meta, n, name)
  {
    if n > 0 { HeaderHas(entries, meta, n - 1, name); }
  }

  /** What the header says of entry i. */
  function TensorOf<M>(entries: seq<Entry>, i: nat): Value<M>
    requires i < |entries| && Known(entries)
  {
    Tensor(entries[i].dtype, entries[i].shape, Offset(entries, i), Offset(entries, i + 1))
  }

  lemma HeaderStep<M>(entries: seq<Entry>, meta: Option<M>, n: nat)
    requires 0 < n <= |entries| && Known(entries)
    ensures HeaderOf(entries, meta, n)
      == HeaderOf(entries, meta, n - 1)[entries[n - 1].name := TensorOf(entries, n - 1)]
  {
    hide Offset;
  }

  lemma Counted<M>(header: Header<M>, name: string, v: Value<M>)
    ensures |header[name := v]| == |header| + if name in header then 0 else 1
  {
    if name in header {
      assert header[name := v].Keys == header.Keys;
    } else {
      assert header[name := v].Keys == header.Keys + {name};
    }
  }

  lemma HeaderGrows<M>(entries: seq<Entry>, meta: Option<M>, n: nat)
    requires 0 < n <= |entries| && Known(entries)
    ensures |HeaderOf(entries, meta, n)|
      == |HeaderOf(entries, meta, n - 1)| + if entries[n - 1].name in HeaderOf(entries, meta, n - 1) then 0 else 1
  {
    hide HeaderOf;
    HeaderStep(entries, meta, n);
    Counted(HeaderOf(entries, meta, n - 1), entries[n - 1].name, TensorOf(entries, n - 1));
  }

  lemma NoEntries<M>(entries: seq<Entry>, meta: Option<M>)
    requires Known(entries)
    ensures |HeaderOf(entries, meta, 0)| == if meta.Some? then 1 else 0
  {
  }

  /** The duplicate check counts keys: it passes exactly if all names are different, also from the metadata key. */
  lemma {:induction false} KeyCount<M>(entries: seq<Entry>, meta: Option<M>, n: nat)
    requires n <= |entries| && Known(entries)
    ensures |HeaderOf(entries, meta, n)| <= n + if meta.Some? then 1 else 0
    ensures |HeaderOf(entries, meta, n)| == n + (if meta.Some? then 1 else 0) <==> Different(entries, meta, n)
  {
    hide HeaderOf, Taken;
    if n == 0 {
      NoEntries(entries, meta);
    } else {
      KeyCount(entries, meta, n - 1);
      HeaderHas(entries, meta, n - 1, entries[n - 1].name);
      HeaderGrows(entries, meta, n);
    }
  }

  // ---------------------------------------------------------------- the writer

  /** A folder of files. */
  class Folder {
    var files: map<string, Bytes>

    constructor ()
      ensures files == map[]
    {
      files := map[];
    }
  }

  const SUFFIX: string := ".tmp"

  method SizeLoop(e: Entry) returns (n: nat)
    requires e.dtype in DTYPE_SIZE
    ensures n == Size(e)
  {
    n := DTYPE_SIZE[e.dtype];
    for i := 0 to |e.shape|
      invariant n == Product(e.shape[..i], DTYPE_SIZE[e.dtype])
    {
      assert e.shape[..i + 1][..i] == e.shape[..i];
      n := n * e.shape[i];
    }
    assert e.shape[..|e.shape|] == e.shape;
  }

  /** The header and the sizes, unless a type is unknown. */
  method BuildHeader<M>(entries: seq<Entry>, meta: Option<M>)
      returns (ok: bool, order: seq<string>, header: Header<M>, sizes: seq<nat>)
    ensures ok <==> Known(entries)
    ensures ok ==> order == OrderOf(entries, meta, |entries|) && header == HeaderOf(entries, meta, |entries|)
    ensures ok ==> |sizes| == |entries| && forall i :: 0 <= i < |entries| ==> sizes[i] == Size(entries[i])
  {
    header, order, sizes := map[], [], [];
    if meta.Some? { header, order := map[META := Meta(meta.value)], [META]; }
    var off := 0;
    for i := 0 to |entries|
      invariant |sizes| == i && forall j :: 0 <= j < i ==>
        entries[j].dtype in DTYPE_SIZE && sizes[j] == Size(entries[j])
      invariant order == OrderOf(entries, meta, i)
      invariant Known(entries) ==> header == HeaderOf(entries, meta, i) && off == Offset(entries, i)
    {
      var e := entries[i];
      if e.dtype !in DTYPE_SIZE {
        return false, order, header, sizes;
      }
      var n := SizeLoop(e);
      if e.name !in order { order := order + [e.name]; }
      header := header[e.name := Tensor(e.dtype, e.shape, off, off + n)];
      sizes, off := sizes + [n], off + n;
    }
    ok := true;
  }

  /** A hash that takes its bytes in pieces. */
  datatype Hasher<!T, !D> = Hasher(start: T, feed: (T, Bytes) -> T, digest: T -> D)

  ghost predicate Streams<T(!new), D(!new)>(h: Hasher<T, D>) {
    forall t, a, b :: h.feed(h.feed(t, a), b) == h.feed(t, a + b)
  }

  /** The hash of bytes taken in one piece. */
  function HashOf<T, D>(h: Hasher<T, D>, b: Bytes): D {
    h.digest(h.feed(h.start, b))
  }

  /** The hashes of all tensors and of the file. */
  datatype Hashes<D> = Hashes(tensors: map<string, D>, file: D)

  /** The first n tensors have the hashes of their payloads. */
  ghost predicate TensorsHashed<T(!new), D(!new)>(h: Hasher<T, D>, entries: seq<Entry>, n: nat, tensors: map<string, D>)
    requires n <= |entries|
  {
    && tensors.Keys == (set i | 0 <= i < n :: entries[i].name)
    && forall i :: 0 <= i < n && entries[i].name in tensors ==>
      tensors[entries[i].name] == HashOf(h, entries[i].payload)
  }

  lemma NoneHashed<T(!new), D(!new)>(h: Hasher<T, D>, entries: seq<Entry>)
    ensures TensorsHashed(h, entries, 0, map[])
  {
  }

  lemma HashedMore<T(!new), D(!new)>(h: Hasher<T, D>, entries: seq<Entry>, n: nat, tensors: map<string, D>)
    requires n < |entries| && TensorsHashed(h, entries, n, tensors)
    requires forall i :: 0 <= i < n ==> entries[i].name != entries[n].name
    ensures TensorsHashed(h, entries, n + 1, tensors[entries[n].name := HashOf(h, entries[n].payload)])
  {
  }

  /** Every tensor's hash is that of its payload, and the file's hash is that of all its bytes. */
  ghost predicate Hashed<T(!new), D(!new)>(h: Hasher<T, D>, entries: seq<Entry>, file: Bytes, r: Hashes<D>) {
    r.file == HashOf(h, file) && TensorsHashed(h, entries, |entries|, r.tensors)
  }

  lemma HashedMeans<T(!new), D(!new)>(h: Hasher<T, D>, entries: seq<Entry>, file: Bytes, r: Hashes<D>)
    requires Hashed(h, entries, file, r)
    ensures r.file == h.digest(h.feed(h.start, file))
    ensures forall i :: 0 <= i < |entries| ==>
      entries[i].name in r.tensors && r.tensors[entries[i].name] == h.digest(h.feed(h.start, entries[i].payload))
  {
  }

  lemma FedOn<T(!new), D(!new)>(h: Hasher<T, D>, a: Bytes, b: Bytes)
    requires Streams(h)
    ensures h.feed(h.feed(h.start, a), b) == h.feed(h.start, a + b)
  {
  }

  lemma NoPayloads(entries: seq<Entry>)
    ensures Payloads(entries, 0) == []
  {
  }

  lemma PayloadsStep(entries: seq<Entry>, i: nat)
    requires i < |entries|
    ensures Payloads(entries, i + 1) == Payloads(entries, i) + entries[i].payload
  {
  }

  /** The head, then every payload, as long as they have the lengths of the header; what is written is hashed as it
      goes. */
  method StreamPayloads<T(!new), D(!new)>(h: Hasher<T, D>, folder: Folder, tmp: string, head: Bytes,
                                          entries: seq<Entry>, sizes: seq<nat>)
      returns (r: Option<Hashes<D>>)
    requires Streams(h) && tmp in folder.files && folder.files[tmp] == [] && |sizes| == |entries|
    requires forall i, j :: 0 <= i < j < |entries| ==> entries[i].name != entries[j].name
    modifies folder
    ensures tmp in folder.files && folder.files == old(folder.files)[tmp := folder.files[tmp]]
    ensures r.Some? <==> forall i :: 0 <= i < |entries| ==> |entries[i].payload| == sizes[i]
    ensures r.Some? ==> folder.files[tmp] == head + Payloads(entries, |entries|)
    ensures r.Some? ==> Hashed(h, entries, folder.files[tmp], r.value)
  {
    hide Streams, TensorsHashed, Payloads;
    folder.files := folder.files[tmp := folder.files[tmp] + head];
    assert folder.files[tmp] == head == head + Payloads(entries, 0) by { NoPayloads(entries); }
    var state, tensors: map<string, D> := h.feed(h.start, head), map[];
    assert TensorsHashed(h, entries, 0, tensors) by { NoneHashed(h, entries); }
    for i := 0 to |entries|
      invariant tmp in folder.files && folder.files == old(folder.files)[tmp := folder.files[tmp]]
      invariant folder.files[tmp] == head + Payloads(entries, i) && state == h.feed(h.start, folder.files[tmp])
      invariant TensorsHashed(h, entries, i, tensors)
      invariant forall j :: 0 <= j < i ==> |entries[j].payload| == sizes[j]
    {
      var b := entries[i].payload;
      if |b| != sizes[i] {
        return None;
      }
      PayloadsStep(entries, i);
      FedOn(h, folder.files[tmp], b);
      HashedMore(h, entries, i, tensors);
      folder.files := folder.files[tmp := folder.files[tmp] + b];
      state, tensors := h.feed(state, b), tensors[entries[i].name := HashOf(h, b)];
    }
    r := Some(Hashes(tensors, h.digest(state)));
  }

  lemma LongerName(path: string)
    ensures path + SUFFIX != path
  {
    assert |path + SUFFIX| == |path| + 4;
  }

  /** os.replace. */
  method Rename(folder: Folder, tmp: string, path: string)
    requires tmp in folder.files && tmp != path
    modifies folder
    ensures folder.files == old(folder.files)[path := old(folder.files[tmp])] - {tmp}
  {
    folder.files := folder.files[path := folder.files[tmp]] - {tmp};
  }

  /** The temporary file is opened, filled and renamed. */
  method Publish<T(!new), D(!new)>(h: Hasher<T, D>, folder: Folder, path: string, hjson: Bytes, entries: seq<Entry>,
                                   sizes: seq<nat>) returns (r: Option<Hashes<D>>)
    requires Streams(h) && |sizes| == |entries|
    requires forall i, j :: 0 <= i < j < |entries| ==> entries[i].name != entries[j].name
    modifies folder
    ensures r.Some? <==> (|hjson| < LENGTH_LIMIT && forall i :: 0 <= i < |entries| ==> |entries[i].payload| == sizes[i])
    ensures r.Some? ==>
      (var whole := Pack(|hjson|, 8) + hjson + Payloads(entries, |entries|);
       folder.files == old(folder.files)[path := whole] - {path + SUFFIX} && Hashed(h, entries, whole, r.value))
    ensures r.None? ==> folder.files - {path + SUFFIX} == old(folder.files) - {path + SUFFIX}
  {
    hide Payloads, Pack, Streams, Hashed;
    var tmp := path + SUFFIX;
    LongerName(path);
    folder.files := folder.files[tmp := []];
    if |hjson| >= LENGTH_LIMIT {
      return None;
    }
    r := StreamPayloads(h, folder, tmp, Pack(|hjson|, 8) + hjson, entries, sizes);
    if r.Some? {
      Rename(folder, tmp, path);
    }
  }

  lemma FileIs<M(!new)>(J: Json<M>, entries: seq<Entry>, meta: Option<M>)
    requires Known(entries)
    ensures var h := HeaderBytes(J, entries, meta);
            FileOf(J, entries, meta) == Pack(|h|, 8) + h + Payloads(entries, |entries|)
  {
  }

  lemma KnownFirst<M(!new)>(J: Json<M>, entries: seq<Entry>, meta: Option<M>)
    ensures Writable(J, entries, meta) ==> Known(entries)
  {
  }

  lemma WritableIs<M(!new)>(J: Json<M>, entries: seq<Entry>, meta: Option<M>, sizes: seq<nat>)
    requires Known(entries) && |sizes| == |entries| && forall i :: 0 <= i < |entries| ==> sizes[i] == Size(entries[i])
    ensures Writable(J, entries, meta)
       <==> (Different(entries, meta, |entries|) && |HeaderBytes(J, entries, meta)| < LENGTH_LIMIT
            && forall i :: 0 <= i < |entries| ==> |entries[i].payload| == sizes[i])
  {
    hide HeaderBytes, Size, Different;
    DifferentIff(entries, meta, |entries|);
  }

  lemma HeaderBytesIs<M(!new)>(J: Json<M>, entries: seq<Entry>, meta: Option<M>)
    requires Known(entries)
    ensures HeaderBytes(J, entries, meta)
         == Padded(J.encode(OrderOf(entries, meta, |entries|), HeaderOf(entries, meta, |entries|)))
  {
  }

  /** The writer streams into a temporary file and renames it: either the whole file appears under its name and its
      hashes are returned, or no file but the temporary one is touched. */
  method WriteSafetensors<M(!new), T(!new), D(!new)>(J: Json<M>, h: Hasher<T, D>, folder: Folder, path: string,
                                                     entries: seq<Entry>, meta: Option<M>)
                                                         returns (r: Option<Hashes<D>>)
    requires Streams(h)
    modifies folder
    ensures r.Some? <==> Writable(J, entries, meta)
    ensures r.Some? ==> folder.files == old(folder.files)[path := FileOf(J, entries, meta)] - {path + SUFFIX}
    ensures r.Some? ==> Hashed(h, entries, FileOf(J, entries, meta), r.value)
    ensures r.Some? ==> r.value.file == h.digest(h.feed(h.start, FileOf(J, entries, meta)))
    ensures r.Some? ==> forall i :: 0 <= i < |entries| ==>
      entries[i].name in r.value.tensors
      && r.value.tensors[entries[i].name] == h.digest(h.feed(h.start, entries[i].payload))
    ensures r.None? ==> folder.files - {path + SUFFIX} == old(folder.files) - {path + SUFFIX}
  {
    hide HeaderOf, OrderOf, Offset, Size, Payloads, Pack, HeaderBytes, Writable, Different, Padded, Streams, Hashed,
      FileOf;
    var ok, order, header, sizes := BuildHeader(entries, meta);
    KnownFirst(J, entries, meta);
    if !ok {
      return None;
    }
    KeyCount(entries, meta, |entries|);
    var hjson := Padded(J.encode(order, header));
    HeaderBytesIs(J, entries, meta);
    WritableIs(J, entries, meta, sizes);
    if |header| != |entries| + (if meta.Some? then 1 else 0) {
      return None;
    }
    DifferentIff(entries, meta, |entries|);
    r := Publish(h, folder, path, hjson, entries, sizes);
    FileIs(J, entries, meta);
    if r.Some? { HashedMeans(h, entries, FileOf(J, entries, meta), r.value); }
  }

  // ---------------------------------------------------------------- the reader

  lemma {:induction false} ByteRangeEight()
    ensures ByteRange(8) == LENGTH_LIMIT
  {
    assert ByteRange(2) == 65536;
    assert ByteRange(4) == 0x1_0000_0000;
    assert ByteRange(6) == 0x1_0000_0000_0000;
  }

  /** A tensor's place in the file. */
  datatype Place = Place(dtype: string, shape: seq<nat>, lo: nat, hi: nat)

  /** The length field and the header, if they are there and the header is well formed. */
  function Parsed<M(!new)>(J: Json<M>, file: Bytes): Option<(nat, Header<M>)> {
    if |file| < 8 then None else
      var hlen := Unpack(file[..8]);
      var header := J.decode(if 8 + hlen <= |file| then file[8..8 + hlen] else file[8..]);
      if header.None? || exists name :: name in header.value && name != META && header.value[name].Meta? then None
      else Some((8 + hlen, header.value))
  }

  function PlaceOf<M>(v: Value<M>, start: nat): Place
    requires v.Tensor?
  {
    Place(v.dtype, v.shape, start + v.lo, start + v.hi)
  }

  function PlacesOf<M>(header: Header<M>, start: nat): map<string, Place> {
    map name | name in header && name != META && header[name].Tensor? :: PlaceOf(header[name], start)
  }

  /** STReader: the places of all tensors, the metadata key left out; nothing if the header cannot be read. */
  method OpenReader<M(!new)>(J: Json<M>, file: Bytes) returns (r: Option<map<string, Place>>)
    ensures match Parsed(J, file)
            case None => r == None
            case Some(p) => r == Some(PlacesOf(p.1, p.0))
  {
    if |file| < 8 {
      return None;
    }
    var hlen := Unpack(file[..8]);
    var header := J.decode(if 8 + hlen <= |file| then file[8..8 + hlen] else file[8..]);
    if header.None? || exists name :: name in header.value && name != META && header.value[name].Meta? {
      return None;
    }
    var tensors: map<string, Place> := map[];
    var left := header.value.Keys;
    while left != {}
      invariant left <= header.value.Keys
      invariant forall name :: name in tensors <==> name in header.value && name !in left && name != META
      invariant forall name :: name in tensors ==> tensors[name] == PlaceOf(header.value[name], 8 + hlen)
      decreases |left|
    {
      var name :| name in left;
      left := left - {name};
      if name != META {
        tensors := tensors[name := PlaceOf(header.value[name], 8 + hlen)];
      }
    }
    assert tensors == PlacesOf(header.value, 8 + hlen);
    r := Some(tensors);
  }

  /** read_bytes: what is there of the range. */
  function ReadBytes(file: Bytes, p: Place): Bytes {
    if p.lo <= p.hi <= |file| then file[p.lo..p.hi] else if p.lo <= |file| && p.lo <= p.hi then file[p.lo..] else []
  }

  /** The streamed hash reads the same bytes a chunk at a time, or reports a short file. */
  method StreamBytes(file: Bytes, p: Place, chunk: nat) returns (r: Option<Bytes>)
    requires chunk >= 1 && p.lo <= p.hi
    ensures r == if p.hi <= |file| || p.lo == p.hi then Some(ReadBytes(file, p)) else None
  {
    var got: Bytes, left := [], p.hi - p.lo;
    while left > 0
      invariant 0 <= left <= p.hi - p.lo && |got| == p.hi - p.lo - left
      invariant got == [] || (p.lo + |got| <= |file| && got == file[p.lo..p.lo + |got|])
    {
      var want, at := if chunk < left then chunk else left, p.lo + |got|;
      var b := if at >= |file| then [] else if at + want <= |file| then file[at..at + want] else file[at..];
      if b == [] {
        return None;
      }
      got, left := got + b, left - |b|;
    }
    r := Some(got);
  }

  // ---------------------------------------------------------------- the round trip

  /** The offsets tile the data area: tensor i ends where tensor i + 1 begins, and the last ends with the file. */
  lemma {:induction false} Tiles<M(!new)>(J: Json<M>, entries: seq<Entry>, meta: Option<M>, i: nat)
    requires Writable(J, entries, meta) && i <= |entries|
    ensures |Payloads(entries, i)| == Offset(entries, i)
    ensures forall j :: 0 <= j <= i ==> Offset(entries, j) <= Offset(entries, i)
  {
    hide Size;
    if i > 0 { Tiles(J, entries, meta, i - 1); }
  }

  lemma Within(a: Bytes, b: Bytes, lo: nat, hi: nat)
    requires lo <= hi <= |a|
    ensures (a + b)[lo..hi] == a[lo..hi]
  {
  }

  lemma {:induction false} PayloadAt<M(!new)>(J: Json<M>, entries: seq<Entry>, meta: Option<M>, i: nat, n: nat)
    requires Writable(J, entries, meta) && i < n <= |entries|
    ensures 0 <= Offset(entries, i) <= Offset(entries, i + 1) <= |Payloads(entries, n)|
    ensures Payloads(entries, n)[Offset(entries, i)..Offset(entries, i + 1)] == entries[i].payload
    decreases n
  {
    hide Size, HeaderBytes;
    Tiles(J, entries, meta, n - 1);
    if i < n - 1 {
      PayloadAt(J, entries, meta, i, n - 1);
      Within(Payloads(entries, n - 1), entries[n - 1].payload, Offset(entries, i), Offset(entries, i + 1));
    } else {
      assert Payloads(entries, n) == Payloads(entries, i) + entries[i].payload;
    }
  }

  lemma {:induction false} HeaderAt<M(!new)>(J: Json<M>, entries: seq<Entry>, meta: Option<M>, i: nat, n: nat)
    requires Writable(J, entries, meta) && i < n <= |entries|
    ensures entries[i].name in HeaderOf(entries, meta, n)
      && HeaderOf(entries, meta, n)[entries[i].name] == TensorOf(entries, i)
    decreases n
  {
    hide HeaderOf, TensorOf, HeaderBytes, Size;
    HeaderStep(entries, meta, n);
    if i < n - 1 { HeaderAt(J, entries, meta, i, n - 1); }
  }

  /** The metadata sits under its key, and nothing else is in the header. */
  lemma {:induction false} HeaderRest<M(!new)>(J: Json<M>, entries: seq<Entry>, meta: Option<M>, n: nat, name: string)
    requires Known(entries) && n <= |entries| && name in HeaderOf(entries, meta, n)
    ensures (meta.Some? && name == META) || exists i :: 0 <= i < n && entries[i].name == name
    ensures name != META ==> HeaderOf(entries, meta, n)[name].Tensor?
  {
    hide Offset, Size;
    if n > 0 && name != entries[n - 1].name { HeaderRest(J, entries, meta, n - 1, name); }
  }

  lemma HeaderDecodes<M(!new)>(J: Json<M>, entries: seq<Entry>, meta: Option<M>)
    requires Laws(J) && Known(entries)
    ensures J.decode(HeaderBytes(J, entries, meta)) == Some(HeaderOf(entries, meta, |entries|))
  {
    hide HeaderOf, OrderOf;
    HeaderKeys(entries, meta, |entries|);
  }

  lemma Sections(a: Bytes, b: Bytes, c: Bytes)
    ensures (a + b + c)[..|a|] == a && (a + b + c)[|a|..|a| + |b|] == b && (a + b + c)[|a| + |b|..] == c
  {
  }

  lemma WritableParts<M(!new)>(J: Json<M>, entries: seq<Entry>, meta: Option<M>)
    requires Writable(J, entries, meta)
    ensures Known(entries) && |HeaderBytes(J, entries, meta)| < LENGTH_LIMIT
  {
  }

  /** The file parses to the header that was written. */
  lemma FileParses<M(!new)>(J: Json<M>, entries: seq<Entry>, meta: Option<M>)
    requires Laws(J) && Writable(J, entries, meta)
    ensures var h := HeaderBytes(J, entries, meta);
            Parsed(J, FileOf(J, entries, meta)) == Some((8 + |h|, HeaderOf(entries, meta, |entries|)))
  {
    hide HeaderOf, OrderOf, Payloads, Pack, Unpack, Writable, HeaderBytes, FileOf;
    WritableParts(J, entries, meta);
    var h, header, data := HeaderBytes(J, entries, meta), HeaderOf(entries, meta, |entries|),
      Payloads(entries, |entries|);
    FileIs(J, entries, meta);
    ByteRangeEight();
    PackUnpack(|h|, 8);
    HeaderDecodes(J, entries, meta);
    Sections(Pack(|h|, 8), h, data);
    forall name | name in header && name != META ensures header[name].Tensor? {
      HeaderRest(J, entries, meta, |entries|, name);
    }
  }

  /** The reader of a written file finds every tensor whose name is not the metadata key, with its type, its shape and
      exactly its payload, and no other name. */
  lemma RoundTrip<M(!new)>(J: Json<M>, entries: seq<Entry>, meta: Option<M>, i: nat)
    requires Laws(J) && Writable(J, entries, meta) && i < |entries|
    ensures var file := FileOf(J, entries, meta);
            Parsed(J, file).Some? && var places := PlacesOf(Parsed(J, file).value.1, Parsed(J, file).value.0);
            (entries[i].name in places <==> entries[i].name != META)
            && (entries[i].name in places ==>
                  var p := places[entries[i].name];
                  p.dtype == entries[i].dtype && p.shape == entries[i].shape
                    && ReadBytes(file, p) == entries[i].payload)
  {
    hide HeaderOf, OrderOf, Payloads, Pack, Unpack, Writable, Offset, Parsed, HeaderBytes;
    WritableParts(J, entries, meta);
    FileParses(J, entries, meta);
    HeaderAt(J, entries, meta, i, |entries|);
    PayloadAt(J, entries, meta, i, |entries|);
    var h, data := HeaderBytes(J, entries, meta), Payloads(entries, |entries|);
    var lo, hi := Offset(entries, i), Offset(entries, i + 1);
    assert FileOf(J, entries, meta)[8 + |h| + lo..8 + |h| + hi] == data[lo..hi];
  }

  lemma NoOtherName<M(!new)>(J: Json<M>, entries: seq<Entry>, meta: Option<M>, name: string)
    requires Laws(J) && Writable(J, entries, meta)
    ensures var file := FileOf(J, entries, meta);
            Parsed(J, file).Some? && (name in PlacesOf(Parsed(J, file).value.1, Parsed(J, file).value.0) ==>
              exists i :: 0 <= i < |entries| && entries[i].name == name)
  {
    hide HeaderOf, Writable, Parsed;
    FileParses(J, entries, meta);
    WritableParts(J, entries, meta);
    if name in HeaderOf(entries, meta, |entries|) { HeaderRest(J, entries, meta, |entries|, name); }
  }

  // ---------------------------------------------------------------- complete and truncated files

  function EndOf<M>(v: Value<M>): nat { if v.Tensor? then v.hi else 0 }

  /** Every tensor of the header ends within n bytes. */
  ghost predicate EndsBy<M(!new)>(header: Header<M>, start: nat, n: nat) {
    forall name :: name in header && name != META ==> start + EndOf(header[name]) <= n
  }

  /** What st_file_complete asks of a file. */
  ghost predicate Complete<M(!new)>(J: Json<M>, file: Bytes) {
    && |file| >= 16 && Unpack(file[..8]) <= HEADER_LIMIT && Parsed(J, file).Some?
    && Parsed(J, file).value.0 <= |file| && EndsBy(Parsed(J, file).value.1, Parsed(J, file).value.0, |file|)
  }

  /** The check: the size against the largest end in the header. */
  method StFileComplete<M(!new)>(J: Json<M>, file: Bytes) returns (ok: bool)
    ensures ok <==> Complete(J, file)
  {
    hide Unpack;
    if |file| < 16 || Unpack(file[..8]) > HEADER_LIMIT {
      return false;
    }
    var parsed := Parsed(J, file);
    if parsed.None? {
      return false;
    }
    var start, header := parsed.value.0, parsed.value.1;
    var end := 0;
    var left := header.Keys;
    while left != {}
      invariant left <= header.Keys && end >= 0
      invariant forall name :: name in header && name !in left && name != META ==> EndOf(header[name]) <= end
      invariant end == 0 || exists name :: name in header && name != META && EndOf(header[name]) == end
      decreases |left|
    {
      var name :| name in left;
      left := left - {name};
      if name != META && EndOf(header[name]) > end { end := EndOf(header[name]); }
    }
    ok := |file| >= start + end;
  }

  /** What a complete file is: at least sixteen bytes, a length field of at most 100 MiB, a header of that length that
      can be read and holds nothing but tensors beside the metadata key, and all their bytes. */
  lemma CompleteIff<M(!new)>(J: Json<M>, file: Bytes)
    ensures Complete(J, file) <==>
            (&& |file| >= 16
             && var n := Unpack(file[..8]);
                n <= 104857600 && 8 + n <= |file| && J.decode(file[8..8 + n]).Some?
                && var header := J.decode(file[8..8 + n]).value;
                   forall name :: name in header && name != "__metadata__" ==>
                     header[name].Tensor? && 8 + n + header[name].hi <= |file|)
  {
    hide Unpack;
  }

  lemma HeaderLength<M(!new)>(J: Json<M>, entries: seq<Entry>, meta: Option<M>)
    requires Laws(J) && Writable(J, entries, meta)
    ensures |HeaderBytes(J, entries, meta)| >= 8
  {
    hide HeaderOf, OrderOf;
    HeaderKeys(entries, meta, |entries|);
    assert |J.encode(OrderOf(entries, meta, |entries|), HeaderOf(entries, meta, |entries|))| >= 2 by {
      assert J.decode(J.encode(OrderOf(entries, meta, |entries|), HeaderOf(entries, meta, |entries|))
        + Spaces(0)).Some?;
    }
  }

  /** A prefix that holds the whole header parses to the same header. */
  lemma PrefixParses<M(!new)>(J: Json<M>, entries: seq<Entry>, meta: Option<M>, n: nat)
    requires Laws(J) && Writable(J, entries, meta) && 16 <= n <= |FileOf(J, entries, meta)|
    ensures var h, file := HeaderBytes(J, entries, meta), FileOf(J, entries, meta);
            Unpack(file[..n][..8]) == |h|
            && (n >= 8 + |h| ==> Parsed(J, file[..n]) == Some((8 + |h|, HeaderOf(entries, meta, |entries|))))
            && (Parsed(J, file[..n]).Some? ==> Parsed(J, file[..n]).value.0 == 8 + |h|)
  {
    hide HeaderOf, Payloads, Pack, Unpack, Writable, HeaderBytes;
    WritableParts(J, entries, meta);
    FileIs(J, entries, meta);
    FileParses(J, entries, meta);
    var h, file := HeaderBytes(J, entries, meta), FileOf(J, entries, meta);
    Sections(Pack(|h|, 8), h, Payloads(entries, |entries|));
    assert file[..n][..8] == file[..8];
    ByteRangeEight();
    PackUnpack(|h|, 8);
    if n >= 8 + |h| { assert file[..n][8..8 + |h|] == file[8..8 + |h|]; }
  }

  /** n bytes of a file hold entry i, unless it is named like the metadata key. */
  ghost predicate Holds(entries: seq<Entry>, i: nat, start: nat, n: nat)
    requires i < |entries| && Known(entries)
  {
    entries[i].name != META ==> start + Offset(entries, i + 1) <= n
  }

  ghost predicate HoldsAll(entries: seq<Entry>, start: nat, n: nat)
    requires Known(entries)
  {
    forall i :: 0 <= i < |entries| ==> Holds(entries, i, start, n)
  }

  lemma EndsAre<M(!new)>(J: Json<M>, entries: seq<Entry>, meta: Option<M>, start: nat, n: nat)
    requires Writable(J, entries, meta)
    ensures EndsBy(HeaderOf(entries, meta, |entries|), start, n) <==> HoldsAll(entries, start, n)
  {
    hide HeaderOf, HeaderBytes, Offset, Writable;
    WritableParts(J, entries, meta);
    var header := HeaderOf(entries, meta, |entries|);
    if EndsBy(header, start, n) {
      forall i | 0 <= i < |entries| ensures Holds(entries, i, start, n) { HeaderAt(J, entries, meta, i, |entries|); }
    }
    if HoldsAll(entries, start, n) {
      forall name | name in header && name != META ensures start + EndOf(header[name]) <= n {
        HeaderRest(J, entries, meta, |entries|, name);
        var i :| 0 <= i < |entries| && entries[i].name == name;
        HeaderAt(J, entries, meta, i, |entries|);
        assert Holds(entries, i, start, n);
      }
      assert EndsBy(header, start, n);
    }
  }

  /** A prefix of a written file passes the check exactly if the header is within its limit, the prefix holds all of it,
      and it holds every tensor that is not named like the metadata key. */
  lemma PrefixCompleteIff<M(!new)>(J: Json<M>, entries: seq<Entry>, meta: Option<M>, n: nat)
    requires Laws(J) && Writable(J, entries, meta) && n <= |FileOf(J, entries, meta)|
    ensures Complete(J, FileOf(J, entries, meta)[..n])
       <==> |HeaderBytes(J, entries, meta)| <= HEADER_LIMIT && 8 + |HeaderBytes(J, entries, meta)| <= n
            && HoldsAll(entries, 8 + |HeaderBytes(J, entries, meta)|, n)
  {
    hide HeaderOf, Payloads, Pack, Unpack, Writable, HeaderBytes, Parsed, FileOf, HoldsAll;
    WritableParts(J, entries, meta);
    HeaderLength(J, entries, meta);
    var h, cut := HeaderBytes(J, entries, meta), FileOf(J, entries, meta)[..n];
    if n >= 16 {
      PrefixParses(J, entries, meta, n);
      if n >= 8 + |h| {
        EndsAre(J, entries, meta, 8 + |h|, n);
      }
    }
  }

  /** The written file is accepted exactly if its header is within the limit. */
  lemma AcceptedIff<M(!new)>(J: Json<M>, entries: seq<Entry>, meta: Option<M>)
    requires Laws(J) && Writable(J, entries, meta)
    ensures Complete(J, FileOf(J, entries, meta)) <==> |HeaderBytes(J, entries, meta)| <= HEADER_LIMIT
  {
    hide Complete, HeaderBytes, Payloads, Pack, Writable;
    WritableParts(J, entries, meta);
    var file, h := FileOf(J, entries, meta), HeaderBytes(J, entries, meta);
    FileIs(J, entries, meta);
    PrefixCompleteIff(J, entries, meta, |file|);
    assert file[..|file|] == file;
    var start, size := 8 + |h|, |file|;
    forall i | 0 <= i < |entries| ensures Holds(entries, i, start, size) {
      PayloadAt(J, entries, meta, i, |entries|);
    }
  }

  lemma NoBytes(entries: seq<Entry>)
    requires entries == []
    ensures Payloads(entries, 0) == []
  {
  }

  /** Without a tensor named like the metadata key, every proper prefix is rejected. */
  lemma TruncatedIsRejected<M(!new)>(J: Json<M>, entries: seq<Entry>, meta: Option<M>, n: nat)
    requires Laws(J) && Writable(J, entries, meta) && n < |FileOf(J, entries, meta)|
    requires forall i :: 0 <= i < |entries| ==> entries[i].name != META
    ensures !Complete(J, FileOf(J, entries, meta)[..n])
  {
    hide Complete, HeaderBytes, Payloads, Pack, Writable, Offset;
    WritableParts(J, entries, meta);
    FileIs(J, entries, meta);
    PrefixCompleteIff(J, entries, meta, n);
    Tiles(J, entries, meta, |entries|);
    if entries == [] {
      NoBytes(entries);
    } else {
      assert !Holds(entries, |entries| - 1, 8 + |HeaderBytes(J, entries, meta)|, n);
    }
  }

  /** One byte under the metadata key. */
  const STRAY: seq<Entry> := [Entry(META, "U8", [1], [0])]

  /** It is written, but the reader does not find it, and the file without it passes the check. */
  lemma StrayTensorIsLost<M(!new)>(J: Json<M>)
    requires Laws(J) && |HeaderBytes(J, STRAY, None)| <= HEADER_LIMIT
    ensures Writable(J, STRAY, None)
    ensures var file := FileOf(J, STRAY, None);
            Parsed(J, file).Some? && META !in PlacesOf(Parsed(J, file).value.1, Parsed(J, file).value.0)
            && |file| > 0 && Complete(J, file[..|file| - 1])
  {
    hide HeaderBytes, Complete, Parsed, PlacesOf;
    assert Product([1], 1) == 1 by { assert [1][..0] == []; }
    assert Size(STRAY[0]) == 1;
    RoundTrip(J, STRAY, None, 0);
    var file := FileOf(J, STRAY, None);
    FileIs(J, STRAY, None);
    assert Payloads(STRAY, 1) == [0];
    PrefixCompleteIff(J, STRAY, None, |file| - 1);
  }
}

/**
 The two-pass writer of windows/tools/repack_mlx_to_gguf.py (`GgufWriter`): pass A registers
 key-values and tensors, `finalize` writes the header, pass B appends tensor data and padding.
 */
module GgufWriter {
  import opened Common
  import opened Indexing
  import opened GgufFormat

  const ALIGN: nat := 32

  function Zeros(n: nat): (r: Bytes)
    ensures |r| == n
  {
    seq(n, i requires 0 <= i < n => 0)
  }

  /** `size + (-size) % ALIGN` */
  function Padded(size: nat): (r: nat)
    ensures size <= r < size + ALIGN && r % ALIGN == 0
  {
    size + (ALIGN - size % ALIGN) % ALIGN
  }

  /** Where the tensor after `sizes` starts in the data section. */
  function Total(sizes: seq<nat>): (r: nat)
    ensures r % ALIGN == 0
  {
    if sizes == [] then 0 else Total(sizes[..|sizes| - 1]) + Padded(sizes[|sizes| - 1])
  }

  /** The data section: every tensor's bytes, then zeros up to the next multiple of 32. */
  function Placed(datas: seq<Bytes>): Bytes {
    if datas == [] then []
    else
      var last := datas[|datas| - 1];
      Placed(datas[..|datas| - 1]) + last + Zeros(Padded(|last|) - |last|)
  }

  function Sizes(datas: seq<Bytes>): (r: seq<nat>)
    ensures |r| == |datas|
  {
    seq(|datas|, i requires 0 <= i < |datas| => |datas[i]|)
  }

  lemma {:induction false} PlacedLength(datas: seq<Bytes>)
    ensures |Placed(datas)| == Total(Sizes(datas))
  {
    if datas != [] {
      PlacedLength(datas[..|datas| - 1]);
      assert Sizes(datas)[..|datas| - 1] == Sizes(datas[..|datas| - 1]);
    }
  }

  lemma Before(front: Bytes, back: Bytes, at: nat, n: nat)
    requires at + n <= |front|
    ensures (front + back)[at..at + n] == front[at..at + n]
  {
  }

  lemma Between(front: Bytes, middle: Bytes, back: Bytes)
    ensures (front + middle + back)[|front|..|front| + |middle|] == middle
  {
  }

  /** Tensor `i` stands, byte for byte, at its own offset. */
  lemma {:induction false} PlacedAt(datas: seq<Bytes>, i: nat)
    requires i < |datas|
    ensures var at := Total(Sizes(datas)[..i]);
            at + |datas[i]| <= |Placed(datas)| && Placed(datas)[at..at + |datas[i]|] == datas[i]
  {
    var n := |datas| - 1;
    var front := datas[..n];
    assert Sizes(datas)[..i] == if i < n then Sizes(front)[..i] else Sizes(front);
    var pad := Zeros(Padded(|datas[n]|) - |datas[n]|);
    if i < n {
      PlacedAt(front, i);
      Assoc(Placed(front), datas[n], pad);
      Before(Placed(front), datas[n] + pad, Total(Sizes(front)[..i]), |datas[i]|);
    } else {
      PlacedLength(front);
      Between(Placed(front), datas[n], pad);
    }
  }

  /** Tensors do not overlap, and each starts at a multiple of 32. */
  lemma {:induction false} Apart(sizes: seq<nat>, i: nat, j: nat)
    requires i < j <= |sizes|
    ensures Total(sizes[..i]) + sizes[i] <= Total(sizes[..j])
    ensures Total(sizes[..j]) % ALIGN == 0
  {
    assert sizes[..j][..j - 1] == sizes[..j - 1];
    if i < j - 1 {
      Apart(sizes, i, j - 1);
    }
  }

  datatype Registered = Registered(name: Bytes, ty: nat, dims: seq<nat>, off: nat, size: nat)

  function Info(r: Registered): Record {
    Record(r.name, r.ty, r.dims, r.off)
  }

  function Infos(recs: seq<Registered>): (r: seq<Record>)
    ensures |r| == |recs|
  {
    seq(|recs|, i requires 0 <= i < |recs| => Info(recs[i]))
  }

  function RegisteredSizes(recs: seq<Registered>): (r: seq<nat>)
    ensures |r| == |recs|
  {
    seq(|recs|, i requires 0 <= i < |recs| => recs[i].size)
  }

  function JoinedBytes(parts: seq<Bytes>): Bytes {
    if parts == [] then [] else parts[0] + JoinedBytes(parts[1..])
  }

  lemma {:induction false} JoinedKvs(parts: seq<Bytes>, kvs: seq<Kv>)
    requires |parts| == |kvs| && forall i :: 0 <= i < |kvs| ==> parts[i] == KvBytes(kvs[i])
    ensures JoinedBytes(parts) == KvsBytes(kvs)
  {
    if kvs != [] {
      JoinedKvs(parts[1..], kvs[1..]);
    }
  }

  lemma {:induction false} JoinedRecords(parts: seq<Bytes>, rs: seq<Record>)
    requires |parts| == |rs| && forall i :: 0 <= i < |rs| ==> parts[i] == RecordBytes(rs[i])
    ensures JoinedBytes(parts) == RecordsBytes(rs)
  {
    if rs != [] {
      JoinedRecords(parts[1..], rs[1..]);
    }
  }

  predicate OffsetsRight(recs: seq<Registered>) {
    forall i :: 0 <= i < |recs| ==> recs[i].off == Total(RegisteredSizes(recs)[..i])
  }

  lemma OneMore(recs: seq<Registered>, r: Registered)
    requires OffsetsRight(recs) && r.off == Total(RegisteredSizes(recs))
    ensures OffsetsRight(recs + [r])
    ensures Total(RegisteredSizes(recs + [r])) == r.off + Padded(r.size)
  {
    var sizes, more := RegisteredSizes(recs), RegisteredSizes(recs + [r]);
    assert more == sizes + [r.size] && more[..|sizes|] == sizes;
    forall i | 0 <= i <= |recs| ensures (recs + [r])[i].off == Total(more[..i]) {
      if i < |recs| {
        assert more[..i] == sizes[..i];
      }
    }
  }

  function InfoParts(recs: seq<Registered>): (r: seq<Bytes>)
    ensures |r| == |recs|
  {
    seq(|recs|, i requires 0 <= i < |recs| => RecordBytes(Info(recs[i])))
  }

  lemma HeaderParts(kvs: seq<Bytes>, values: seq<Kv>, recs: seq<Registered>)
    requires |values| == |kvs| && forall i :: 0 <= i < |kvs| ==> kvs[i] == KvBytes(values[i])
    ensures (MAGIC + LE(VERSION, 4) + LE(|recs|, 8) + LE(|kvs|, 8)) + JoinedBytes(kvs) + JoinedBytes(InfoParts(recs))
         == HeaderBytes(values, Infos(recs))
  {
    JoinedRecords(InfoParts(recs), Infos(recs));
    JoinedKvs(kvs, values);
  }

  lemma PlacedNext(datas: seq<Bytes>, i: nat)
    requires i < |datas|
    ensures Placed(datas[..i + 1]) == Placed(datas[..i]) + datas[i] + Zeros(Padded(|datas[i]|) - |datas[i]|)
  {
    assert datas[..i + 1][..i] == datas[..i];
  }

  lemma PlacedBehind(header: Bytes, datas: seq<Bytes>, i: nat)
    requires i < |datas|
    ensures ((header + Placed(datas[..i])) + datas[i]) + Zeros(Padded(|datas[i]|) - |datas[i]|)
         == header + Placed(datas[..i + 1])
  {
    var zeros := Zeros(Padded(|datas[i]|) - |datas[i]|);
    PlacedNext(datas, i);
    Assoc(header, Placed(datas[..i]), datas[i]);
    Assoc(header, Placed(datas[..i]) + datas[i], zeros);
  }

  /** Padding the file pads the tensor just written. */
  lemma SamePadding(before: nat, size: nat)
    requires before % ALIGN == 0
    ensures Padded(before + size) - (before + size) == Padded(size) - size
  {
  }

  class Writer {
    var kvs: seq<Bytes>
    var recs: seq<Registered>
    var dlen: nat
    var headerDone: bool
    var file: Bytes

    /** The key-values behind the payloads. */
    ghost var values: seq<Kv>

    /** Every payload is that of its key-value, and every offset the total of the sizes before it. */
    ghost predicate Valid()
      reads this
    {
      && |values| == |kvs| && (forall i :: 0 <= i < |kvs| ==> kvs[i] == KvBytes(values[i]))
      && OffsetsRight(recs)
      && dlen == Total(RegisteredSizes(recs))
    }

    /** Where tensor data starts. */
    ghost function DataStart(): nat
      reads this
    {
      AlignUp(|HeaderBytes(values, Infos(recs))|, ALIGN)
    }

    ghost function PaddedHeader(): (r: Bytes)
      reads this
      ensures |r| == DataStart()
    {
      var header := HeaderBytes(values, Infos(recs));
      header + Zeros(DataStart() - |header|)
    }

    constructor ()
      ensures Valid() && !headerDone && values == [] && recs == [] && file == []
    {
      kvs, recs, dlen, headerDone, file, values := [], [], 0, false, [], [];
    }

    /** `kv`: the payload is the encoding of some value. */
    method AddKv(key: Bytes, ty: nat, payload: Bytes, ghost value: Val)
      requires Valid() && !headerDone && payload == Encoded(value)
      modifies this
      ensures Valid() && !headerDone && recs == old(recs) && file == old(file)
      ensures values == old(values) + [Kv(key, ty, value)]
    {
      kvs := kvs + [LE(|key|, 8) + key + LE(ty, 4) + payload];
      values := values + [Kv(key, ty, value)];
    }

    /** `register` */
    method Register(name: Bytes, ty: nat, dims: seq<nat>, size: nat)
      requires Valid() && !headerDone
      modifies this
      ensures Valid() && !headerDone && values == old(values) && file == old(file)
      ensures recs == old(recs) + [Registered(name, ty, dims, Total(RegisteredSizes(old(recs))), size)]
    {
      OneMore(recs, Registered(name, ty, dims, dlen, size));
      recs := recs + [Registered(name, ty, dims, dlen, size)];
      dlen := dlen + size + (ALIGN - size % ALIGN) % ALIGN;
    }

    /** `finalize`: the header with everything registered, padded to the data start it returns. */
    method Finalize() returns (dataStart: nat)
      requires Valid() && !headerDone
      modifies this
      ensures Valid() && headerDone && values == old(values) && recs == old(recs)
      ensures dataStart == DataStart() && dataStart % ALIGN == 0 && file == PaddedHeader()
    {
      var infos, body := JoinedBytes(InfoParts(recs)), JoinedBytes(kvs);
      var head := MAGIC + LE(VERSION, 4) + LE(|recs|, 8) + LE(|kvs|, 8);
      HeaderParts(kvs, values, recs);
      Aligned(|head + body + infos|, ALIGN);
      dataStart := (|head| + |body| + |infos| + ALIGN - 1) / ALIGN * ALIGN;
      file := head + body + infos + Zeros(dataStart - |head| - |body| - |infos|);
      headerDone := true;
    }

    method Write(data: Bytes)
      requires headerDone
      modifies `file
      ensures file == old(file) + data
    {
      file := file + data;
    }

    /** `align_pad` */
    method AlignPad()
      modifies `file
      ensures file == old(file) + Zeros(Padded(|old(file)|) - |old(file)|)
    {
      var p := |file| % ALIGN;
      if p != 0 {
        file := file + Zeros(ALIGN - p);
      } else {
        assert file == file + Zeros(0);
      }
    }

    /** Pass B: every registered tensor's bytes, each followed by padding. */
    method WriteAll(datas: seq<Bytes>)
      requires Valid() && headerDone && file == PaddedHeader()
      requires Sizes(datas) == RegisteredSizes(recs)
      modifies `file
      ensures Valid() && file == PaddedHeader() + Placed(datas)
    {
      ghost var header := file;
      for i := 0 to |datas|
        invariant file == header + Placed(datas[..i])
      {
        WriteOne(header, datas, i);
      }
      assert datas[..|datas|] == datas;
    }

    method WriteOne(ghost header: Bytes, datas: seq<Bytes>, i: nat)
      requires headerDone && i < |datas| && |header| % ALIGN == 0 && file == header + Placed(datas[..i])
      modifies `file
      ensures file == header + Placed(datas[..i + 1])
    {
      ghost var before := file;
      PlacedLength(datas[..i]);
      SamePadding(|before|, |datas[i]|);
      Write(datas[i]);
      AlignPad();
      PlacedBehind(header, datas, i);
    }
  }
}

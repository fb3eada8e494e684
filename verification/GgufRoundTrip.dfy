/**
 A finished file against its two readers: what the C++ parser finds where, and what the Python check
 accepts.
 */
module GgufRoundTrip {
  import opened Common
  import opened Indexing
  import opened GgufFormat
  import opened GgufWriter
  import Cpp = GgufCppReader
  import Py = GgufPyReader
  import GgufCut

  /** The bytes `finalize` and pass B leave (`Writer.PaddedHeader` and `Writer.WriteAll`). */
  function Finished(kvs: seq<Kv>, recs: seq<Registered>, datas: seq<Bytes>): Bytes {
    var header := HeaderBytes(kvs, Infos(recs));
    header + (Zeros(Start(kvs, recs) - |header|) + Placed(datas))
  }

  /** The data start `finalize` returns. */
  function Start(kvs: seq<Kv>, recs: seq<Registered>): (r: nat)
    ensures |HeaderBytes(kvs, Infos(recs))| <= r && r % ALIGN == 0
  {
    AlignUp(|HeaderBytes(kvs, Infos(recs))|, ALIGN)
  }

  ghost predicate DistinctNames(recs: seq<Registered>) {
    forall i, j :: 0 <= i < j < |recs| ==> recs[i].name != recs[j].name
  }

  /** The writer's offsets, over exactly the bytes registered. */
  ghost predicate Laid(recs: seq<Registered>, datas: seq<Bytes>) {
    OffsetsRight(recs) && Sizes(datas) == RegisteredSizes(recs)
  }

  /** A tensor as pass A and pass B see it. */
  datatype Source = Source(name: Bytes, ty: nat, dims: seq<nat>, data: Bytes)

  predicate Records(recs: seq<Registered>, tensors: seq<Source>) {
    && |recs| == |tensors|
    && forall i :: 0 <= i < |recs| ==>
         recs[i].name == tensors[i].name && recs[i].ty == tensors[i].ty && recs[i].dims == tensors[i].dims &&
         recs[i].size == |tensors[i].data|
  }

  function Datas(tensors: seq<Source>): (r: seq<Bytes>)
    ensures |r| == |tensors|
  {
    seq(|tensors|, i requires 0 <= i < |tensors| => tensors[i].data)
  }

  /** Pass A's key-values. */
  method AddKvs(w: Writer, kvs: seq<Kv>)
    requires w.Valid() && !w.headerDone && w.values == []
    modifies w
    ensures w.Valid() && !w.headerDone && w.values == kvs && w.recs == old(w.recs)
  {
    for i := 0 to |kvs|
      invariant w.Valid() && !w.headerDone && w.recs == old(w.recs) && w.values == kvs[..i]
    {
      w.AddKv(kvs[i].key, kvs[i].ty, Encoded(kvs[i].value), kvs[i].value);
    }
    assert kvs[..|kvs|] == kvs;
  }

  lemma RecordsMore(recs: seq<Registered>, tensors: seq<Source>, i: nat, off: nat)
    requires i < |tensors| && Records(recs, tensors[..i])
    ensures var t := tensors[i];
            Records(recs + [Registered(t.name, t.ty, t.dims, off, |t.data|)], tensors[..i + 1])
  {
    assert tensors[..i + 1] == tensors[..i] + [tensors[i]];
  }

  /** Pass A's tensors. */
  method RegisterAll(w: Writer, tensors: seq<Source>)
    requires w.Valid() && !w.headerDone && w.recs == []
    modifies w
    ensures w.Valid() && !w.headerDone && w.values == old(w.values) && Records(w.recs, tensors)
  {
    for i := 0 to |tensors|
      invariant w.Valid() && !w.headerDone && w.values == old(w.values) && Records(w.recs, tensors[..i])
    {
      RecordsMore(w.recs, tensors, i, Total(RegisteredSizes(w.recs)));
      w.Register(tensors[i].name, tensors[i].ty, tensors[i].dims, |tensors[i].data|);
    }
    assert tensors[..|tensors|] == tensors;
  }

  /** The header with its padding. */
  function Front(kvs: seq<Kv>, recs: seq<Registered>): (r: Bytes)
    ensures |r| == Start(kvs, recs)
  {
    var header := HeaderBytes(kvs, Infos(recs));
    header + Zeros(Start(kvs, recs) - |header|)
  }

  lemma FinishedIs(kvs: seq<Kv>, recs: seq<Registered>, datas: seq<Bytes>)
    ensures Finished(kvs, recs, datas) == Front(kvs, recs) + Placed(datas)
  {
    var header := HeaderBytes(kvs, Infos(recs));
    Assoc(header, Zeros(Start(kvs, recs) - |header|), Placed(datas));
  }

  lemma SameSizes(recs: seq<Registered>, tensors: seq<Source>)
    requires Records(recs, tensors)
    ensures Sizes(Datas(tensors)) == RegisteredSizes(recs)
  {
  }

  /** Both passes: register everything, write the header, stream the data. */
  method WriteFile(kvs: seq<Kv>, tensors: seq<Source>) returns (file: Bytes, recs: seq<Registered>, start: nat)
    ensures Records(recs, tensors) && Laid(recs, Datas(tensors))
    ensures file == Finished(kvs, recs, Datas(tensors)) && start == Start(kvs, recs)
  {
    var w := new Writer();
    AddKvs(w, kvs);
    RegisterAll(w, tensors);
    recs := w.recs;
    start := w.Finalize();
    SameSizes(recs, tensors);
    w.WriteAll(Datas(tensors));
    FinishedIs(kvs, recs, Datas(tensors));
    file := w.file;
  }

  lemma Behind(front: Bytes, back: Bytes, at: nat, n: nat)
    requires at + n <= |back|
    ensures (front + back)[|front| + at..|front| + at + n] == back[at..at + n]
  {
  }

  lemma OffsetAligned(recs: seq<Registered>, i: nat)
    requires OffsetsRight(recs) && i < |recs|
    ensures recs[i].off % ALIGN == 0
  {
    var sizes := RegisteredSizes(recs);
    if i == 0 {
      assert sizes[..0] == [];
    } else {
      Apart(sizes, 0, i);
    }
  }

  lemma AlignedSum(a: nat, b: nat)
    requires a % ALIGN == 0 && b % ALIGN == 0
    ensures (a + b) % ALIGN == 0
  {
  }

  /** Behind whatever front, every tensor stands at its own offset. */
  lemma DataBehind(front: Bytes, recs: seq<Registered>, datas: seq<Bytes>, i: nat)
    requires Laid(recs, datas) && i < |recs| == |datas|
    ensures var at := |front| + recs[i].off;
            at + recs[i].size <= |front + Placed(datas)| && (front + Placed(datas))[at..at + recs[i].size] == datas[i]
  {
    PlacedAt(datas, i);
    assert RegisteredSizes(recs)[i] == Sizes(datas)[i];
    Behind(front, Placed(datas), recs[i].off, recs[i].size);
  }

  /** Every tensor stands at the data start plus its own offset. */
  lemma DataStands(kvs: seq<Kv>, recs: seq<Registered>, datas: seq<Bytes>, i: nat)
    requires Laid(recs, datas) && i < |recs| == |datas|
    ensures var at := Start(kvs, recs) + recs[i].off;
            at + recs[i].size <= |Finished(kvs, recs, datas)| &&
            Finished(kvs, recs, datas)[at..at + recs[i].size] == datas[i]
  {
    FinishedIs(kvs, recs, datas);
    DataBehind(Front(kvs, recs), recs, datas, i);
  }

  /** The C++ parser finds every record by name, where the header ends, and the alignment asked for. */
  lemma CppFindsRecord(kvs: seq<Kv>, recs: seq<Registered>, datas: seq<Bytes>, i: nat)
    requires GoodHeader(kvs, Infos(recs)) && DistinctNames(recs) && i < |recs|
    ensures var parsed := Cpp.Parse(Finished(kvs, recs, datas));
            && parsed.Some? && parsed.value.alignment == Cpp.Alignment(kvs, 32)
            && parsed.value.headerEnd == |HeaderBytes(kvs, Infos(recs))|
            && recs[i].name in parsed.value.tensors
            && parsed.value.tensors[recs[i].name] == Cpp.Tensor(recs[i].ty, Cpp.FourDims(recs[i].dims), recs[i].off)
  {
    var header, rs := HeaderBytes(kvs, Infos(recs)), Infos(recs);
    Cpp.ParsesHeader(kvs, rs, Zeros(Start(kvs, recs) - |header|) + Placed(datas));
    assert rs[i] == Info(recs[i]);
    Cpp.TableFinds(rs, map[], i);
  }

  /**
   The C++ parser finds every tensor: its type, dimensions and offset by name, and, from its own data
   start, exactly the tensor's bytes.
   */
  lemma CppFindsTensor(kvs: seq<Kv>, recs: seq<Registered>, datas: seq<Bytes>, i: nat)
    requires GoodHeader(kvs, Infos(recs)) && DistinctNames(recs) && Laid(recs, datas) && i < |recs| == |datas|
    requires Cpp.Alignment(kvs, 32) == ALIGN
    ensures var file := Finished(kvs, recs, datas);
            var parsed := Cpp.Parse(file);
            && parsed.Some? && parsed.value.alignment > 0 && recs[i].name in parsed.value.tensors
            && var base := AlignUp(parsed.value.headerEnd, parsed.value.alignment);
               var t := parsed.value.tensors[recs[i].name];
               && t == Cpp.Tensor(recs[i].ty, Cpp.FourDims(recs[i].dims), recs[i].off)
               && base == Start(kvs, recs) && base % 32 == 0
               && base + t.off + recs[i].size <= |file|
               && file[base + t.off..base + t.off + recs[i].size] == datas[i]
  {
    CppFindsRecord(kvs, recs, datas, i);
    DataStands(kvs, recs, datas, i);
  }

  /** Where a parsed header puts a tensor's data: behind the header's end, aligned, at the tensor's offset. */
  function FoundIn(parsed: Option<Cpp.Parsed>, name: Bytes): Option<nat> {
    if parsed.None? || parsed.value.alignment == 0 || name !in parsed.value.tensors then None
    else Some(AlignUp(parsed.value.headerEnd, parsed.value.alignment) + parsed.value.tensors[name].off)
  }

  lemma FoundOf(parsed: Option<Cpp.Parsed>, name: Bytes, base: nat, off: nat)
    requires parsed.Some? && parsed.value.alignment == ALIGN && AlignUp(parsed.value.headerEnd, ALIGN) == base
    requires name in parsed.value.tensors && parsed.value.tensors[name].off == off
    ensures FoundIn(parsed, name) == Some(base + off)
  {
  }

  /** The parser's data start is the writer's. */
  lemma CppStart(kvs: seq<Kv>, recs: seq<Registered>, datas: seq<Bytes>) returns (parsed: Cpp.Parsed, base: nat)
    requires GoodHeader(kvs, Infos(recs)) && Cpp.Alignment(kvs, 32) == ALIGN
    ensures Cpp.Parse(Finished(kvs, recs, datas)) == Some(parsed) && parsed.alignment == ALIGN
    ensures parsed.tensors == Cpp.Table(Infos(recs), map[])
    ensures base == Start(kvs, recs) == AlignUp(parsed.headerEnd, ALIGN)
  {
    var header := HeaderBytes(kvs, Infos(recs));
    Cpp.ParsesHeader(kvs, Infos(recs), Zeros(Start(kvs, recs) - |header|) + Placed(datas));
    parsed, base := Cpp.Parse(Finished(kvs, recs, datas)).value, Start(kvs, recs);
  }

  lemma TableOffset(recs: seq<Registered>, i: nat)
    requires DistinctNames(recs) && i < |recs|
    ensures recs[i].name in Cpp.Table(Infos(recs), map[])
    ensures Cpp.Table(Infos(recs), map[])[recs[i].name].off == recs[i].off
  {
    assert Infos(recs)[i] == Info(recs[i]);
    Cpp.TableFinds(Infos(recs), map[], i);
  }

  /** Offsets behind an aligned start: aligned, one after the other. */
  lemma PlacesApart(recs: seq<Registered>, base: nat, i: nat, j: nat)
    requires OffsetsRight(recs) && base % ALIGN == 0 && i < j < |recs|
    ensures (base + recs[i].off) % ALIGN == 0 && (base + recs[j].off) % ALIGN == 0
    ensures recs[i].off + recs[i].size <= recs[j].off
  {
    OffsetAligned(recs, i);
    OffsetAligned(recs, j);
    AlignedSum(base, recs[i].off);
    AlignedSum(base, recs[j].off);
    Apart(RegisteredSizes(recs), i, j);
  }

  /** Two tensors a parsed header places in a file of length `end`: aligned, apart, inside. */
  ghost predicate OneAfterOther(parsed: Option<Cpp.Parsed>, a: Registered, b: Registered, end: nat) {
    var at, next := FoundIn(parsed, a.name), FoundIn(parsed, b.name);
    && at.Some? && next.Some? && at.value % ALIGN == 0 && next.value % ALIGN == 0
    && parsed.value.headerEnd <= at.value && at.value + a.size <= next.value && next.value + b.size <= end
  }

  lemma PairFound(parsed: Cpp.Parsed, a: Registered, b: Registered, end: nat, base: nat, at: nat, next: nat)
    requires FoundIn(Some(parsed), a.name) == Some(at) && FoundIn(Some(parsed), b.name) == Some(next)
    requires at % ALIGN == 0 && next % ALIGN == 0
    requires parsed.headerEnd <= base <= at && at + a.size <= next && next + b.size <= end
    ensures OneAfterOther(Some(parsed), a, b, end)
  {
  }

  lemma ParsedApart(parsed: Cpp.Parsed, recs: seq<Registered>, base: nat, end: nat, i: nat, j: nat)
    requires OffsetsRight(recs) && DistinctNames(recs) && i < j < |recs|
    requires parsed.alignment == ALIGN && parsed.tensors == Cpp.Table(Infos(recs), map[])
    requires base == AlignUp(parsed.headerEnd, ALIGN) && base + recs[j].off + recs[j].size <= end
    ensures OneAfterOther(Some(parsed), recs[i], recs[j], end)
  {
    TableOffset(recs, i);
    TableOffset(recs, j);
    FoundOf(Some(parsed), recs[i].name, base, recs[i].off);
    FoundOf(Some(parsed), recs[j].name, base, recs[j].off);
    PlacesApart(recs, base, i, j);
    PairFound(parsed, recs[i], recs[j], end, base, base + recs[i].off, base + recs[j].off);
  }

  /**
   The C++ parser finds every tensor of a finished file at a multiple of 32 behind the header, and of two
   tensors the earlier ends where the later begins, or before.
   */
  lemma FoundApart(kvs: seq<Kv>, recs: seq<Registered>, datas: seq<Bytes>, i: nat, j: nat)
    requires GoodHeader(kvs, Infos(recs)) && DistinctNames(recs) && Laid(recs, datas) && i < j < |recs| == |datas|
    requires Cpp.Alignment(kvs, 32) == ALIGN
    ensures OneAfterOther(Cpp.Parse(Finished(kvs, recs, datas)), recs[i], recs[j], |Finished(kvs, recs, datas)|)
  {
    var parsed, base := CppStart(kvs, recs, datas);
    DataStands(kvs, recs, datas, j);
    ParsedApart(parsed, recs, base, |Finished(kvs, recs, datas)|, i, j);
  }

  /** The alignment the repack registers last is the writer's own. */
  lemma {:induction false} RegisteredAlignment(kvs: seq<Kv>, before: nat)
    ensures Cpp.Alignment(kvs + [Kv(Cpp.ALIGNMENT_KEY, TYPE_U32, Scalar(LE(ALIGN, 4)))], before) == ALIGN
    decreases kvs
  {
    var own := Kv(Cpp.ALIGNMENT_KEY, TYPE_U32, Scalar(LE(ALIGN, 4)));
    if kvs == [] {
      Widths();
      NumLE(ALIGN, 4);
      assert [own][1..] == [] && [] + [own] == [own];
    } else {
      assert (kvs + [own])[1..] == kvs[1..] + [own];
      RegisteredAlignment(kvs[1..], Cpp.AlignmentAfter(kvs[0], before));
    }
  }

  /**
   Where the parser puts the data of a finished file. An alignment of zero is a division by zero; any other is
   right exactly when the writer's data start is its least multiple from the header's end on.
   */
  lemma CppDataStart(kvs: seq<Kv>, recs: seq<Registered>, datas: seq<Bytes>, a: nat)
    requires GoodHeader(kvs, Infos(recs)) && Cpp.Alignment(kvs, 32) == a
    ensures var parsed, end := Cpp.Parse(Finished(kvs, recs, datas)), |HeaderBytes(kvs, Infos(recs))|;
            && parsed.Some? && parsed.value.alignment == a && parsed.value.headerEnd == end
            && (a > 0 && AlignUp(end, a) == Start(kvs, recs) <==>
                a > 0 && Start(kvs, recs) % a == 0 && Start(kvs, recs) < end + a)
  {
    Cpp.ParsesHeader(kvs, Infos(recs), Zeros(Start(kvs, recs) - |HeaderBytes(kvs, Infos(recs))|) + Placed(datas));
    if a > 0 {
      OtherAlignment(|HeaderBytes(kvs, Infos(recs))|, a);
    }
  }

  /** Another alignment agrees with the writer exactly when the writer's data start is its least multiple there. */
  lemma OtherAlignment(end: nat, a: nat)
    requires a > 0
    ensures AlignUp(end, a) == AlignUp(end, ALIGN) <==>
            AlignUp(end, ALIGN) % a == 0 && AlignUp(end, ALIGN) < end + a
  {
    var s, r := AlignUp(end, ALIGN), AlignUp(end, a);
    if s % a == 0 && s < end + a {
      OnlyMultiple(end, a, s, r);
    }
  }

  /** At most one multiple of `a` lies in a window of `a` numbers. */
  lemma OnlyMultiple(end: nat, a: nat, s: nat, r: nat)
    requires a > 0 && s % a == 0 && r % a == 0 && end <= s < end + a && end <= r < end + a
    ensures s == r
  {
    var d := s / a - r / a;
    assert s == (s / a) * a && r == (r / a) * a;
    assert s - r == d * a;
    SmallMultiple(d, a);
  }

  /**
   The Python check passes a file of header and padding alone, without any tensor data, exactly when no
   reach goes past the data start.
   */
  lemma EmptyFilePasses(kvs: seq<Kv>, recs: seq<Registered>, isText: Bytes -> bool)
    requires GoodHeader(kvs, Infos(recs)) && Py.TextHeader(kvs, Infos(recs), isText)
    requires Py.Wanted(Infos(recs), 0).Some?
    ensures Py.Check(Finished(kvs, recs, []), 0, isText).Some? <==>
            Py.Wanted(Infos(recs), 0).value <= Start(kvs, recs)
  {
    var rs, header := Infos(recs), HeaderBytes(kvs, Infos(recs));
    var rest := Zeros(Start(kvs, recs) - |header|) + Placed([]);
    assert |header| + |rest| == Start(kvs, recs) && Finished(kvs, recs, []) == header + rest;
    Py.ChecksHeader(kvs, rs, rest, 0, isText);
  }

  // ---- what the check lets through ---------------------------------------------------------------

  /** The size registered is that of the type: four or two bytes an element, 20 bytes for 32 Q4_1 elements. */
  predicate Sized(r: Registered) {
    if r.ty == 0 then r.size == 4 * Py.Product(r.dims)
    else if r.ty == 1 || r.ty == 2 then r.size == 2 * Py.Product(r.dims)
    else r.ty == 3 && r.dims != [] && r.dims[0] % 32 == 0 && r.size == Py.Product(r.dims) / 32 * 20
  }

  lemma {:induction false} WantedWithin(recs: seq<Registered>, total: nat, bound: nat)
    requires total <= bound
    requires forall i :: 0 <= i < |recs| ==> Sized(recs[i]) && recs[i].off + recs[i].size <= bound
    ensures Py.Wanted(Infos(recs), total).Some? && Py.Wanted(Infos(recs), total).value <= bound
    decreases recs
  {
    if recs != [] {
      var r := recs[0];
      assert Infos(recs)[0] == Info(r) && Infos(recs)[1..] == Infos(recs[1..]);
      var reach := Py.Reach(r.ty, r.dims, r.off);
      assert reach.Some? && reach.value <= r.off + r.size;
      WantedWithin(recs[1..], Py.Max(total, reach.value), bound);
    }
  }

  /** What the check asks for never exceeds the tensor data alone. */
  lemma WantedIsData(recs: seq<Registered>, datas: seq<Bytes>)
    requires Laid(recs, datas) && forall i :: 0 <= i < |recs| ==> Sized(recs[i])
    ensures Py.Wanted(Infos(recs), 0).Some? && Py.Wanted(Infos(recs), 0).value <= Total(Sizes(datas))
  {
    var sizes := RegisteredSizes(recs);
    forall i | 0 <= i < |recs| ensures recs[i].off + recs[i].size <= Total(sizes) {
      Apart(sizes, i, |sizes|);
      assert sizes[..|sizes|] == sizes;
    }
    WantedWithin(recs, 0, Total(sizes));
  }

  lemma CutHeader(header: Bytes, rest: Bytes, n: nat)
    requires |header| <= n <= |header + rest|
    ensures (header + rest)[..n] == header + rest[..n - |header|]
  {
  }

  /**
   What the check makes of a finished file cut anywhere, its header included: it passes exactly when the version
   is left, the count as it reads is enough, every string as it reads decodes, and the records as they read ask
   for no more than what is left.
   */
  lemma CutPasses(kvs: seq<Kv>, recs: seq<Registered>, datas: seq<Bytes>, n: nat, minTensors: nat, isText: Bytes -> bool)
    requires GoodHeader(kvs, Infos(recs)) && isText([]) && n <= |Finished(kvs, recs, datas)|
    ensures Py.Check(Finished(kvs, recs, datas)[..n], minTensors, isText) ==
            if GgufCut.CutChecks(kvs, Infos(recs), n, minTensors, isText)
            then Some((GgufCut.CutNum(|recs|, 8, n - 8), GgufCut.CutNum(|kvs|, 8, n - 16))) else None
  {
    var rest := Zeros(Start(kvs, recs) - |HeaderBytes(kvs, Infos(recs))|) + Placed(datas);
    GgufCut.ChecksCut(kvs, Infos(recs), rest, n, minTensors, isText);
  }

  /** Cut anywhere behind its header, a finished file passes the check exactly when what is left has the length asked for. */
  lemma DataCut(kvs: seq<Kv>, recs: seq<Registered>, datas: seq<Bytes>, n: nat, minTensors: nat, isText: Bytes -> bool)
    requires GoodHeader(kvs, Infos(recs)) && Py.TextHeader(kvs, Infos(recs), isText)
    requires |HeaderBytes(kvs, Infos(recs))| <= n <= |Finished(kvs, recs, datas)|
    requires minTensors <= |recs| && Py.Wanted(Infos(recs), 0).Some?
    ensures Py.Check(Finished(kvs, recs, datas)[..n], minTensors, isText).Some? <==> Py.Wanted(Infos(recs), 0).value <= n
  {
    var header := HeaderBytes(kvs, Infos(recs));
    var rest := Zeros(Start(kvs, recs) - |header|) + Placed(datas);
    CutHeader(header, rest, n);
    Py.ChecksHeader(kvs, Infos(recs), rest[..n - |header|], minTensors, isText);
  }

  lemma FinishedLength(kvs: seq<Kv>, recs: seq<Registered>, datas: seq<Bytes>)
    ensures |Finished(kvs, recs, datas)| == Start(kvs, recs) + Total(Sizes(datas))
  {
    PlacedLength(datas);
  }

  /** The check passes every finished file. */
  lemma FinishedPasses(kvs: seq<Kv>, recs: seq<Registered>, datas: seq<Bytes>, minTensors: nat, isText: Bytes -> bool)
    requires GoodHeader(kvs, Infos(recs)) && Py.TextHeader(kvs, Infos(recs), isText)
    requires Laid(recs, datas) && minTensors <= |recs| && forall i :: 0 <= i < |recs| ==> Sized(recs[i])
    ensures Py.Check(Finished(kvs, recs, datas), minTensors, isText) == Some((|recs|, |kvs|))
  {
    WantedIsData(recs, datas);
    FinishedLength(kvs, recs, datas);
    Py.ChecksHeader(kvs, Infos(recs), Zeros(Start(kvs, recs) - |HeaderBytes(kvs, Infos(recs))|) + Placed(datas),
                    minTensors, isText);
  }

  /**
   It passes every finished file also when the end is missing, as long as what is left holds the header and is
   no shorter than the tensor data: as many bytes as the data start can be gone.
   */
  lemma TailUnseen(kvs: seq<Kv>, recs: seq<Registered>, datas: seq<Bytes>, n: nat, minTensors: nat, isText: Bytes -> bool)
    requires GoodHeader(kvs, Infos(recs)) && Py.TextHeader(kvs, Infos(recs), isText)
    requires Laid(recs, datas) && minTensors <= |recs| && forall i :: 0 <= i < |recs| ==> Sized(recs[i])
    requires |HeaderBytes(kvs, Infos(recs))| <= n && Total(Sizes(datas)) <= n <= |Finished(kvs, recs, datas)|
    ensures |Finished(kvs, recs, datas)| == Start(kvs, recs) + Total(Sizes(datas))
    ensures Py.Check(Finished(kvs, recs, datas)[..n], minTensors, isText).Some?
  {
    WantedIsData(recs, datas);
    FinishedLength(kvs, recs, datas);
    DataCut(kvs, recs, datas, n, minTensors, isText);
  }

  const ONE_TENSOR: seq<Registered> := [Registered([116], 0, [8], 0, 32)]

  lemma OneTensor()
    ensures Laid(ONE_TENSOR, [Zeros(32)]) && Py.Wanted(Infos(ONE_TENSOR), 0) == Some(8)
    ensures GoodHeader([], Infos(ONE_TENSOR)) && Py.TextHeader([], Infos(ONE_TENSOR), t => true)
  {
    var rs := Infos(ONE_TENSOR);
    assert rs == [Record([116], 0, [8], 0)] && rs[1..] == [];
    assert RegisteredSizes(ONE_TENSOR) == [32] == Sizes([Zeros(32)]);
    assert RegisteredSizes(ONE_TENSOR)[..0] == [];
    assert [8][1..] == [];
    assert Py.Product([8]) == 8;
  }

  /** One f32 tensor of eight elements: its header alone passes, with all 32 bytes of data missing. */
  lemma TruncationUnseen()
    ensures Laid(ONE_TENSOR, [Zeros(32)])
    ensures |Finished([], ONE_TENSOR, [])| + 32 <= |Finished([], ONE_TENSOR, [Zeros(32)])|
    ensures Py.Check(Finished([], ONE_TENSOR, []), 1, t => true) == Some((1, 0))
  {
    OneTensor();
    var header := HeaderBytes([], Infos(ONE_TENSOR));
    Py.ChecksHeader([], Infos(ONE_TENSOR), Zeros(Start([], ONE_TENSOR) - |header|) + Placed([]), 1, t => true);
    PlacedLength([Zeros(32)]);
    assert Sizes([Zeros(32)])[..0] == [];
    assert |header| >= 24;
  }

  /** Less can pass where more does not: cut at the end of the header against cut at the end of the preamble. */
  lemma ShorterPasses(kvs: seq<Kv>, recs: seq<Registered>, datas: seq<Bytes>, minTensors: nat, isText: Bytes -> bool)
    requires GoodHeader(kvs, Infos(recs)) && Py.TextHeader(kvs, Infos(recs), isText) && isText([])
    requires minTensors <= |recs| && Py.Wanted(Infos(recs), 0).Some?
    requires Py.Wanted(Infos(recs), 0).value > |HeaderBytes(kvs, Infos(recs))|
    ensures 24 <= |HeaderBytes(kvs, Infos(recs))| <= |Finished(kvs, recs, datas)|
    ensures Py.Check(Finished(kvs, recs, datas)[..|HeaderBytes(kvs, Infos(recs))|], minTensors, isText) == None
    ensures Py.Check(Finished(kvs, recs, datas)[..24], minTensors, isText) == Some((|recs|, |kvs|))
  {
    var rest := Zeros(Start(kvs, recs) - |HeaderBytes(kvs, Infos(recs))|) + Placed(datas);
    DataCut(kvs, recs, datas, |HeaderBytes(kvs, Infos(recs))|, minTensors, isText);
    GgufCut.PreambleAlone(kvs, Infos(recs), rest, minTensors, isText);
  }

  const THOUSAND: seq<Registered> := [Registered([116], 0, [1000], 0, 4000)]

  lemma ThousandLaid(data: Bytes)
    requires |data| == 4000
    ensures Laid(THOUSAND, [data])
  {
    assert RegisteredSizes(THOUSAND) == [4000] == Sizes([data]);
    assert RegisteredSizes(THOUSAND)[..0] == [];
  }

  lemma ThousandHeader()
    ensures GoodHeader([], Infos(THOUSAND)) && |HeaderBytes([], Infos(THOUSAND))| == 57
    ensures Py.Wanted(Infos(THOUSAND), 0) == Some(1000)
  {
    var rs := Infos(THOUSAND);
    assert rs == [Record([116], 0, [1000], 0)] && rs[1..] == [] && [1000][1..] == [];
    assert Py.Product([1000]) == 1000;
    assert RecordsBytes(rs) == RecordBytes(rs[0]) + [];
  }

  /** One f32 tensor of a thousand elements: with its whole header, 57 bytes, the file is refused, with 24 bytes it passes. */
  lemma LessPasses(data: Bytes)
    requires |data| == 4000
    ensures Laid(THOUSAND, [data]) && |Finished([], THOUSAND, [data])| >= 57
    ensures Py.Check(Finished([], THOUSAND, [data])[..57], 1, t => true) == None
    ensures Py.Check(Finished([], THOUSAND, [data])[..24], 1, t => true) == Some((1, 0))
  {
    ThousandLaid(data);
    ThousandHeader();
    ShorterPasses([], THOUSAND, [data], 1, t => true);
  }
}

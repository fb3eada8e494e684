/**
 The hand-written header parser of windows/serve/prefetch.cc (`rd_str`, `skip_val` and the header loop
 of `edge0_pref_init`), on what is left of the file. A read or skip past the end ends the parse here.
 */
module GgufCppReader {
  import opened Common
  import opened GgufFormat

  /** `fread` of a little-endian number. */
  function ReadNum(rest: Bytes, n: nat): (r: Option<(nat, Bytes)>)
    ensures r.Some? ==> |r.value.1| == |rest| - n
  {
    if n <= |rest| then Some((Num(rest[..n]), rest[n..])) else None
  }

  /** `rd_str` */
  function ReadStr(rest: Bytes): (r: Option<(Bytes, Bytes)>)
    ensures r.Some? ==> |r.value.1| + 8 <= |rest|
  {
    match ReadNum(rest, 8)
    case None => None
    case Some(n) => if n.0 <= |n.1| then Some((n.1[..n.0], n.1[n.0..])) else None
  }

  /** `scalar_size`, zero for every type without one. */
  function ScalarSkip(t: nat): nat {
    match ScalarSize(t) case Some(n) => n case None => 0
  }

  /** `skip_val` */
  function SkipVal(rest: Bytes, t: nat): (r: Option<Bytes>)
    ensures r.Some? ==> |r.value| <= |rest|
    decreases |rest|, 0, 0
  {
    if t == TYPE_STRING then
      match ReadStr(rest) case None => None case Some(s) => Some(s.1)
    else if t == TYPE_ARRAY then
      match ReadNum(rest, 4)
      case None => None
      case Some(elem) =>
        match ReadNum(elem.1, 8)
        case None => None
        case Some(n) => SkipVals(n.1, elem.0, n.0)
    else if ScalarSkip(t) <= |rest| then Some(rest[ScalarSkip(t)..])
    else None
  }

  function SkipVals(rest: Bytes, t: nat, n: nat): (r: Option<Bytes>)
    ensures r.Some? ==> |r.value| <= |rest|
    decreases |rest|, 1, n
  {
    if n == 0 then Some(rest)
    else
      match SkipVal(rest, t)
      case None => None
      case Some(next) => SkipVals(next, t, n - 1)
  }

  // ---- skipping steps over exactly one encoded value --------------------------------------------

  lemma NumFirst(x: nat, n: nat, rest: Bytes)
    requires (n == 4 || n == 8) && x < if n == 4 then U32 else U64
    ensures ReadNum(LE(x, n) + rest, n) == Some((x, rest))
  {
    Widths();
    NumLE(x, n);
    assert (LE(x, n) + rest)[..n] == LE(x, n) && (LE(x, n) + rest)[n..] == rest;
  }

  lemma StrFirst(text: Bytes, rest: Bytes)
    requires |text| < U64
    ensures ReadStr(PutStr(text, rest)) == Some((text, rest))
  {
    NumFirst(|text|, 8, text + rest);
    assert (text + rest)[..|text|] == text && (text + rest)[|text|..] == rest;
  }

  lemma {:induction false} Skips(v: Val, t: nat, rest: Bytes)
    requires Typed(v, t)
    ensures SkipVal(Put(v, rest), t) == Some(rest)
    decreases v
  {
    match v
    case Scalar(raw) => assert (raw + rest)[|raw|..] == rest;
    case Str(text) => StrFirst(text, rest);
    case Arr(elem, items) =>
      NumFirst(elem, 4, LE(|items|, 8) + PutAll(items, rest));
      NumFirst(|items|, 8, PutAll(items, rest));
      SkipsAll(items, elem, rest);
  }

  lemma {:induction false} SkipsAll(items: seq<Val>, t: nat, rest: Bytes)
    requires AllTyped(items, t)
    ensures SkipVals(PutAll(items, rest), t, |items|) == Some(rest)
    decreases items
  {
    if items != [] {
      Skips(items[0], t, PutAll(items[1..], rest));
      SkipsAll(items[1..], t, rest);
    }
  }

  // ---- the key-value loop ---------------------------------------------------------------------------

  /** "general.alignment" */
  const ALIGNMENT_KEY: Bytes := [103, 101, 110, 101, 114, 97, 108, 46, 97, 108, 105, 103, 110, 109, 101, 110, 116]

  predicate SetsAlignment(key: Bytes, t: nat) {
    key == ALIGNMENT_KEY && t == TYPE_U32
  }

  /** One turn: the alignment the pair leaves, and the rest of the file. */
  function ReadKv(rest: Bytes, alignment: nat): Option<(nat, Bytes)> {
    match ReadStr(rest)
    case None => None
    case Some(key) =>
      match ReadNum(key.1, 4)
      case None => None
      case Some(t) =>
        if SetsAlignment(key.0, t.0) then ReadNum(t.1, 4)
        else
          match SkipVal(t.1, t.0) case None => None case Some(next) => Some((alignment, next))
  }

  function ReadKvs(rest: Bytes, n: nat, alignment: nat): Option<(nat, Bytes)>
    decreases n
  {
    if n == 0 then Some((alignment, rest))
    else
      match ReadKv(rest, alignment)
      case None => None
      case Some(next) => ReadKvs(next.1, n - 1, next.0)
  }

  /** The alignment after a registered pair. */
  function AlignmentAfter(kv: Kv, before: nat): nat {
    if SetsAlignment(kv.key, kv.ty) && kv.value.Scalar? then Num(kv.value.raw) else before
  }

  /** The alignment the registered pairs ask for: the last u32 `general.alignment`, else the one before. */
  function Alignment(kvs: seq<Kv>, before: nat): nat {
    if kvs == [] then before else Alignment(kvs[1..], AlignmentAfter(kvs[0], before))
  }

  lemma KvFirst(kv: Kv, rest: Bytes, alignment: nat)
    requires GoodKv(kv)
    ensures ReadKv(PutKv(kv, rest), alignment) == Some((AlignmentAfter(kv, alignment), rest))
  {
    StrFirst(kv.key, LE(kv.ty, 4) + Put(kv.value, rest));
    NumFirst(kv.ty, 4, Put(kv.value, rest));
    Skips(kv.value, kv.ty, rest);
    if SetsAlignment(kv.key, kv.ty) {
      var raw := kv.value.raw;
      assert (raw + rest)[..4] == raw && (raw + rest)[4..] == rest;
    }
  }

  lemma {:induction false} KvsFirst(kvs: seq<Kv>, rest: Bytes, alignment: nat)
    requires forall i :: 0 <= i < |kvs| ==> GoodKv(kvs[i])
    ensures ReadKvs(PutKvs(kvs, rest), |kvs|, alignment) == Some((Alignment(kvs, alignment), rest))
    decreases kvs
  {
    if kvs != [] {
      KvFirst(kvs[0], PutKvs(kvs[1..], rest), alignment);
      KvsFirst(kvs[1..], rest, AlignmentAfter(kvs[0], alignment));
    }
  }

  // ---- the tensor loop ------------------------------------------------------------------------------

  /** `TT`: four dimensions, those not stored being one. */
  datatype Tensor = Tensor(ty: nat, dims: seq<nat>, off: nat)

  /** The first `n` dimensions, and only four of them. */
  function ReadDims(rest: Bytes, n: nat, dims: seq<nat>): Option<(seq<nat>, Bytes)>
    decreases n
  {
    if n == 0 || |dims| >= 4 then Some((dims, rest))
    else
      match ReadNum(rest, 8) case None => None case Some(d) => ReadDims(d.1, n - 1, dims + [d.0])
  }

  function FourDims(dims: seq<nat>): seq<nat> {
    if |dims| >= 4 then dims[..4] else dims + seq(4 - |dims|, i requires 0 <= i < 4 - |dims| => 1)
  }

  /** Type and offset of a record whose name and dimensions have been read. */
  function ReadTail(rest: Bytes, dims: seq<nat>): Option<(Tensor, Bytes)> {
    match ReadNum(rest, 4)
    case None => None
    case Some(ty) =>
      match ReadNum(ty.1, 8)
      case None => None
      case Some(off) => Some((Tensor(ty.0, FourDims(dims), off.0), off.1))
  }

  function ReadTensor(rest: Bytes): Option<((Bytes, Tensor), Bytes)> {
    match ReadStr(rest)
    case None => None
    case Some(name) =>
      match ReadNum(name.1, 4)
      case None => None
      case Some(nd) =>
        match ReadDims(nd.1, nd.0, [])
        case None => None
        case Some(dims) =>
          match ReadTail(dims.1, dims.0) case None => None case Some(x) => Some(((name.0, x.0), x.1))
  }

  function ReadTensors(rest: Bytes, n: nat, table: map<Bytes, Tensor>): Option<(map<Bytes, Tensor>, Bytes)>
    decreases n
  {
    if n == 0 then Some((table, rest))
    else
      match ReadTensor(rest)
      case None => None
      case Some(x) => ReadTensors(x.1, n - 1, table[x.0.0 := x.0.1])
  }

  /** How the parser's table holds a record. */
  function Held(r: Record): Tensor {
    Tensor(r.ty, FourDims(r.dims), r.off)
  }

  /** What the table should hold for the registered records. */
  function Table(rs: seq<Record>, before: map<Bytes, Tensor>): map<Bytes, Tensor> {
    if rs == [] then before else Table(rs[1..], before[rs[0].name := Held(rs[0])])
  }

  lemma {:induction false} DimsFirst(dims: seq<nat>, rest: Bytes, before: seq<nat>)
    requires |before| + |dims| <= 4 && forall i :: 0 <= i < |dims| ==> dims[i] < U64
    ensures ReadDims(PutDims(dims, rest), |dims|, before) == Some((before + dims, rest))
    decreases dims
  {
    if dims == [] {
      assert before + dims == before;
    } else {
      NumFirst(dims[0], 8, PutDims(dims[1..], rest));
      DimsFirst(dims[1..], rest, before + [dims[0]]);
      assert (before + [dims[0]]) + dims[1..] == before + dims;
    }
  }

  lemma TailFirst(ty: nat, off: nat, dims: seq<nat>, rest: Bytes)
    requires ty < U32 && off < U64
    ensures ReadTail(LE(ty, 4) + (LE(off, 8) + rest), dims) == Some((Tensor(ty, FourDims(dims), off), rest))
  {
    NumFirst(ty, 4, LE(off, 8) + rest);
    NumFirst(off, 8, rest);
  }

  lemma TensorFirst(r: Record, rest: Bytes)
    requires GoodRecord(r)
    ensures ReadTensor(PutRecord(r, rest)) == Some(((r.name, Held(r)), rest))
  {
    var tail := LE(r.ty, 4) + (LE(r.off, 8) + rest);
    StrFirst(r.name, LE(|r.dims|, 4) + PutDims(r.dims, tail));
    NumFirst(|r.dims|, 4, PutDims(r.dims, tail));
    DimsFirst(r.dims, tail, []);
    assert [] + r.dims == r.dims;
    TailFirst(r.ty, r.off, r.dims, rest);
  }

  lemma {:induction false} TensorsFirst(rs: seq<Record>, rest: Bytes, table: map<Bytes, Tensor>)
    requires forall i :: 0 <= i < |rs| ==> GoodRecord(rs[i])
    ensures ReadTensors(PutRecords(rs, rest), |rs|, table) == Some((Table(rs, table), rest))
    decreases rs
  {
    if rs != [] {
      TensorFirst(rs[0], PutRecords(rs[1..], rest));
      TensorsFirst(rs[1..], rest, table[rs[0].name := Held(rs[0])]);
    }
  }

  /** Under distinct names the table finds every record. */
  lemma {:induction false} TableFinds(rs: seq<Record>, before: map<Bytes, Tensor>, i: nat)
    requires i < |rs| && forall j, k :: 0 <= j < k < |rs| ==> rs[j].name != rs[k].name
    ensures rs[i].name in Table(rs, before) && Table(rs, before)[rs[i].name] == Held(rs[i])
    decreases rs
  {
    var next := before[rs[0].name := Held(rs[0])];
    if i == 0 {
      TableKeeps(rs[1..], next, rs[0].name);
    } else {
      TableFinds(rs[1..], next, i - 1);
    }
  }

  lemma {:induction false} TableKeeps(rs: seq<Record>, before: map<Bytes, Tensor>, name: Bytes)
    requires name in before && forall j :: 0 <= j < |rs| ==> rs[j].name != name
    ensures name in Table(rs, before) && Table(rs, before)[name] == before[name]
    decreases rs
  {
    if rs != [] {
      TableKeeps(rs[1..], before[rs[0].name := Held(rs[0])], name);
    }
  }

  // ---- the whole parse ------------------------------------------------------------------------------

  datatype Parsed = Parsed(tensors: map<Bytes, Tensor>, headerEnd: nat, alignment: nat)

  /** Magic, version, counts; the version is read but not looked at. */
  function ReadPreamble(b: Bytes): Option<((nat, nat), Bytes)> {
    if |b| < 24 || b[..4] != MAGIC then None
    else
      match ReadNum(b[8..], 8)
      case None => None
      case Some(tensors) =>
        match ReadNum(tensors.1, 8) case None => None case Some(kvs) => Some(((tensors.0, kvs.0), kvs.1))
  }

  /** Both loops: the table and the alignment. */
  function ReadBody(rest: Bytes, tensors: nat, kvs: nat): Option<((map<Bytes, Tensor>, nat), Bytes)> {
    match ReadKvs(rest, kvs, 32)
    case None => None
    case Some(k) =>
      match ReadTensors(k.1, tensors, map[])
      case None => None
      case Some(t) => Some(((t.0, k.0), t.1))
  }

  function Parse(b: Bytes): Option<Parsed> {
    match ReadPreamble(b)
    case None => None
    case Some(h) =>
      match ReadBody(h.1, h.0.0, h.0.1)
      case None => None
      case Some(t) => if |t.1| <= |b| then Some(Parsed(t.0.0, |b| - |t.1|, t.0.1)) else None
  }

  lemma PreambleFirst(tensors: nat, kvs: nat, rest: Bytes)
    requires tensors < U64 && kvs < U64
    ensures ReadPreamble(PutPreamble(tensors, kvs, rest)) == Some(((tensors, kvs), rest))
  {
    var b, counts := PutPreamble(tensors, kvs, rest), LE(tensors, 8) + (LE(kvs, 8) + rest);
    assert b[..4] == MAGIC && b[8..] == counts;
    NumFirst(tensors, 8, LE(kvs, 8) + rest);
    NumFirst(kvs, 8, rest);
  }

  lemma BodyFirst(kvs: seq<Kv>, rs: seq<Record>, rest: Bytes)
    requires forall i :: 0 <= i < |kvs| ==> GoodKv(kvs[i])
    requires forall i :: 0 <= i < |rs| ==> GoodRecord(rs[i])
    ensures ReadBody(PutKvs(kvs, PutRecords(rs, rest)), |rs|, |kvs|) ==
            Some(((Table(rs, map[]), Alignment(kvs, 32)), rest))
  {
    KvsFirst(kvs, PutRecords(rs, rest), 32);
    TensorsFirst(rs, rest, map[]);
  }

  lemma ParseIs(b: Bytes, tensors: nat, kvs: nat, rest: Bytes, table: map<Bytes, Tensor>, alignment: nat, left: Bytes)
    requires ReadPreamble(b) == Some(((tensors, kvs), rest))
    requires ReadBody(rest, tensors, kvs) == Some(((table, alignment), left)) && |left| <= |b|
    ensures Parse(b) == Some(Parsed(table, |b| - |left|, alignment))
  {
  }

  lemma ParsesPut(kvs: seq<Kv>, rs: seq<Record>, rest: Bytes, b: Bytes)
    requires GoodHeader(kvs, rs) && b == PutHeader(kvs, rs, rest) && |rest| <= |b|
    ensures Parse(b) == Some(Parsed(Table(rs, map[]), |b| - |rest|, Alignment(kvs, 32)))
  {
    var body := PutKvs(kvs, PutRecords(rs, rest));
    PreambleFirst(|rs|, |kvs|, body);
    BodyFirst(kvs, rs, rest);
    ParseIs(b, |rs|, |kvs|, body, Table(rs, map[]), Alignment(kvs, 32), rest);
  }

  /** The parser recovers every record and the alignment, whatever follows the header. */
  lemma ParsesHeader(kvs: seq<Kv>, rs: seq<Record>, rest: Bytes)
    requires GoodHeader(kvs, rs)
    ensures Parse(HeaderBytes(kvs, rs) + rest) ==
            Some(Parsed(Table(rs, map[]), |HeaderBytes(kvs, rs)|, Alignment(kvs, 32)))
  {
    PutHeaderIs(kvs, rs, rest);
    ParsesPut(kvs, rs, rest, HeaderBytes(kvs, rs) + rest);
  }

  /** The key-value loop of `edge0_pref_init`. */
  method KvLoop(start: Bytes, nkv: nat) returns (r: Option<(nat, Bytes)>)
    ensures r == ReadKvs(start, nkv, 32)
  {
    var rest, alignment := start, 32;
    for i := 0 to nkv
      invariant ReadKvs(rest, nkv - i, alignment) == ReadKvs(start, nkv, 32)
    {
      var next := ReadKv(rest, alignment);
      if next.None? { return None; }
      alignment, rest := next.value.0, next.value.1;
    }
    r := Some((alignment, rest));
  }

  /** The tensor loop of `edge0_pref_init`. */
  method TensorLoop(start: Bytes, nt: nat) returns (r: Option<(map<Bytes, Tensor>, Bytes)>)
    ensures r == ReadTensors(start, nt, map[])
  {
    var rest: Bytes, table: map<Bytes, Tensor> := start, map[];
    for i := 0 to nt
      invariant ReadTensors(rest, nt - i, table) == ReadTensors(start, nt, map[])
    {
      var x := ReadTensor(rest);
      if x.None? { return None; }
      table := table[x.value.0.0 := x.value.0.1];
      rest := x.value.1;
    }
    r := Some((table, rest));
  }

  /** The header part of `edge0_pref_init`: the tensor table, where the header ends, and the alignment. */
  method ParseFile(b: Bytes) returns (parsed: Option<Parsed>)
    ensures parsed == Parse(b)
  {
    var h := ReadPreamble(b);
    if h.None? { return None; }
    var k := KvLoop(h.value.1, h.value.0.1);
    if k.None? { return None; }
    var t := TensorLoop(k.value.1, h.value.0.0);
    if t.None? || |t.value.1| > |b| { return None; }
    parsed := Some(Parsed(t.value.0, |b| - |t.value.1|, k.value.0));
  }
}

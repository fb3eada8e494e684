/**
 The header revalidation of windows/tools/convert_mlx_to_gguf.py (`check_gguf_head`). Python's `read`
 returns what is left when it is asked for more, and a number of no bytes is zero.
 */
module GgufPyReader {
  import opened Common
  import opened GgufFormat

  /** `f.read(n)` and what is left. */
  function Rd(rest: Bytes, n: nat): (r: (Bytes, Bytes))
    ensures |r.1| == if n <= |rest| then |rest| - n else 0
  {
    if n <= |rest| then (rest[..n], rest[n..]) else (rest, [])
  }

  function RdNum(rest: Bytes, n: nat): (r: (nat, Bytes))
    ensures |r.1| == if n <= |rest| then |rest| - n else 0
    ensures rest == [] ==> r.0 == 0
  {
    (Num(Rd(rest, n).0), Rd(rest, n).1)
  }

  /** `rd_s` before decoding. */
  function RdStr(rest: Bytes): (r: (Bytes, Bytes))
    ensures |r.1| <= |rest|
  {
    var n := RdNum(rest, 8);
    Rd(n.1, n.0)
  }

  /** `skip`; a type without a size is a KeyError, text that does not decode an error too. */
  function Skip(rest: Bytes, t: nat, isText: Bytes -> bool): (r: Option<Bytes>)
    ensures r.Some? ==> |r.value| <= |rest|
    decreases |rest|, 0, 0
  {
    if t == TYPE_STRING then
      if isText(RdStr(rest).0) then Some(RdStr(rest).1) else None
    else if t == TYPE_ARRAY then
      var elem := RdNum(rest, 4);
      var n := RdNum(elem.1, 8);
      if n.0 == 0 then Some(n.1) else SkipMany(n.1, elem.0, n.0, isText)
    else
      match ScalarSize(t) case None => None case Some(size) => Some(Rd(rest, size).1)
  }

  function SkipMany(rest: Bytes, t: nat, n: nat, isText: Bytes -> bool): (r: Option<Bytes>)
    ensures r.Some? ==> |r.value| <= |rest|
    decreases |rest|, 1, n
  {
    if n == 0 then Some(rest)
    else
      match Skip(rest, t, isText)
      case None => None
      case Some(next) => SkipMany(next, t, n - 1, isText)
  }

  function SkipKvs(rest: Bytes, n: nat, isText: Bytes -> bool): Option<Bytes>
    decreases n
  {
    if n == 0 then Some(rest)
    else
      var key := RdStr(rest);
      var t := RdNum(key.1, 4);
      if !isText(key.0) then None
      else
        match Skip(t.1, t.0, isText)
        case None => None
        case Some(next) => SkipKvs(next, n - 1, isText)
  }

  function Product(dims: seq<nat>): nat {
    if dims == [] then 1 else dims[0] * Product(dims[1..])
  }

  /** How far the check thinks a tensor reaches: elements for plain types, bytes for Q4_1 blocks. */
  function Reach(ty: nat, dims: seq<nat>, off: nat): Option<nat> {
    if ty == 0 || ty == 1 || ty == 2 then Some(off + Product(dims))
    else if ty == 3 && dims != [] && dims[0] % 32 == 0 then Some(off + Product(dims) / 32 * 20)
    else None
  }

  function RdDims(rest: Bytes, n: nat): (seq<nat>, Bytes)
    decreases n
  {
    if n == 0 then ([], rest)
    else
      var d := RdNum(rest, 8);
      var more := RdDims(d.1, n - 1);
      ([d.0] + more.0, more.1)
  }

  /** One tensor record: its reach, unless it raises. */
  function RdTensor(rest: Bytes, isText: Bytes -> bool): Option<(nat, Bytes)> {
    var name := RdStr(rest);
    var nd := RdNum(name.1, 4);
    var dims := RdDims(nd.1, nd.0);
    var ty := RdNum(dims.1, 4);
    var off := RdNum(ty.1, 8);
    if !isText(name.0) then None
    else
      match Reach(ty.0, dims.0, off.0) case None => None case Some(reach) => Some((reach, off.1))
  }

  function Max(a: nat, b: nat): nat {
    if a > b then a else b
  }

  function RdTensors(rest: Bytes, n: nat, total: nat, isText: Bytes -> bool): Option<nat>
    decreases n
  {
    if n == 0 then Some(total)
    else
      match RdTensor(rest, isText)
      case None => None
      case Some(x) => RdTensors(x.1, n - 1, Max(total, x.0), isText)
  }

  /** `Some(n_tensors, n_kv)` when the check passes. */
  function Check(b: Bytes, minTensors: nat, isText: Bytes -> bool): Option<(nat, nat)> {
    var magic := Rd(b, 4);
    var version := RdNum(magic.1, 4);
    var tensors := RdNum(version.1, 8);
    var kvs := RdNum(tensors.1, 8);
    if magic.0 != MAGIC || version.0 < 2 || tensors.0 < minTensors then None
    else
      match SkipKvs(kvs.1, kvs.0, isText)
      case None => None
      case Some(rest) =>
        match RdTensors(rest, tensors.0, 0, isText)
        case None => None
        case Some(total) => if |b| < total then None else Some((tensors.0, kvs.0))
  }

  // ---- on registered headers ------------------------------------------------------------------------

  lemma NumFirst(x: nat, n: nat, rest: Bytes)
    requires (n == 4 || n == 8) && x < if n == 4 then U32 else U64
    ensures RdNum(LE(x, n) + rest, n) == (x, rest)
  {
    Widths();
    NumLE(x, n);
    assert (LE(x, n) + rest)[..n] == LE(x, n) && (LE(x, n) + rest)[n..] == rest;
  }

  lemma StrFirst(text: Bytes, rest: Bytes)
    requires |text| < U64
    ensures RdStr(PutStr(text, rest)) == (text, rest)
  {
    NumFirst(|text|, 8, text + rest);
    assert (text + rest)[..|text|] == text && (text + rest)[|text|..] == rest;
  }

  /** Every string in the value decodes. */
  predicate TextIn(v: Val, isText: Bytes -> bool) {
    match v
    case Scalar(_) => true
    case Str(text) => isText(text)
    case Arr(_, items) => TextInAll(items, isText)
  }

  predicate TextInAll(items: seq<Val>, isText: Bytes -> bool) {
    items == [] || (TextIn(items[0], isText) && TextInAll(items[1..], isText))
  }

  lemma {:induction false} Skips(v: Val, t: nat, rest: Bytes, isText: Bytes -> bool)
    requires Typed(v, t) && TextIn(v, isText)
    ensures Skip(Put(v, rest), t, isText) == Some(rest)
    decreases v
  {
    match v
    case Scalar(raw) => assert (raw + rest)[|raw|..] == rest;
    case Str(text) => StrFirst(text, rest);
    case Arr(elem, items) =>
      NumFirst(elem, 4, LE(|items|, 8) + PutAll(items, rest));
      NumFirst(|items|, 8, PutAll(items, rest));
      SkipsAll(items, elem, rest, isText);
  }

  lemma {:induction false} SkipsAll(items: seq<Val>, t: nat, rest: Bytes, isText: Bytes -> bool)
    requires AllTyped(items, t) && TextInAll(items, isText)
    ensures SkipMany(PutAll(items, rest), t, |items|, isText) == Some(rest)
    decreases items
  {
    if items != [] {
      Skips(items[0], t, PutAll(items[1..], rest), isText);
      SkipsAll(items[1..], t, rest, isText);
    }
  }

  predicate TextKv(kv: Kv, isText: Bytes -> bool) {
    isText(kv.key) && TextIn(kv.value, isText)
  }

  lemma {:induction false} KvsFirst(kvs: seq<Kv>, rest: Bytes, isText: Bytes -> bool)
    requires forall i :: 0 <= i < |kvs| ==> GoodKv(kvs[i]) && TextKv(kvs[i], isText)
    ensures SkipKvs(PutKvs(kvs, rest), |kvs|, isText) == Some(rest)
    decreases kvs
  {
    if kvs != [] {
      var kv, more := kvs[0], PutKvs(kvs[1..], rest);
      StrFirst(kv.key, LE(kv.ty, 4) + Put(kv.value, more));
      NumFirst(kv.ty, 4, Put(kv.value, more));
      Skips(kv.value, kv.ty, more, isText);
      KvsFirst(kvs[1..], rest, isText);
    }
  }

  lemma {:induction false} DimsFirst(dims: seq<nat>, rest: Bytes)
    requires forall i :: 0 <= i < |dims| ==> dims[i] < U64
    ensures RdDims(PutDims(dims, rest), |dims|) == (dims, rest)
    decreases dims
  {
    if dims != [] {
      NumFirst(dims[0], 8, PutDims(dims[1..], rest));
      DimsFirst(dims[1..], rest);
      assert [dims[0]] + dims[1..] == dims;
    }
  }

  lemma TensorFirst(r: Record, rest: Bytes, isText: Bytes -> bool)
    requires GoodRecord(r) && isText(r.name)
    ensures RdTensor(PutRecord(r, rest), isText) ==
            match Reach(r.ty, r.dims, r.off) case None => None case Some(reach) => Some((reach, rest))
  {
    var tail := LE(r.ty, 4) + (LE(r.off, 8) + rest);
    StrFirst(r.name, LE(|r.dims|, 4) + PutDims(r.dims, tail));
    NumFirst(|r.dims|, 4, PutDims(r.dims, tail));
    DimsFirst(r.dims, tail);
    NumFirst(r.ty, 4, LE(r.off, 8) + rest);
    NumFirst(r.off, 8, rest);
  }

  /** The file length the check asks for, unless some record raises. */
  function Wanted(rs: seq<Record>, total: nat): Option<nat> {
    if rs == [] then Some(total)
    else
      match Reach(rs[0].ty, rs[0].dims, rs[0].off)
      case None => None
      case Some(reach) => Wanted(rs[1..], Max(total, reach))
  }

  lemma {:induction false} TensorsFirst(rs: seq<Record>, rest: Bytes, total: nat, isText: Bytes -> bool)
    requires forall i :: 0 <= i < |rs| ==> GoodRecord(rs[i]) && isText(rs[i].name)
    ensures RdTensors(PutRecords(rs, rest), |rs|, total, isText) == Wanted(rs, total)
    decreases rs
  {
    if rs != [] {
      TensorFirst(rs[0], PutRecords(rs[1..], rest), isText);
      match Reach(rs[0].ty, rs[0].dims, rs[0].off)
      case None =>
      case Some(reach) => TensorsFirst(rs[1..], rest, Max(total, reach), isText);
    }
  }

  lemma PreambleFirst(tensors: nat, kvs: nat, rest: Bytes)
    requires tensors < U64 && kvs < U64
    ensures var b := PutPreamble(tensors, kvs, rest);
            var magic := Rd(b, 4);
            var version := RdNum(magic.1, 4);
            var t := RdNum(version.1, 8);
            magic.0 == MAGIC && version.0 == VERSION && t.0 == tensors && RdNum(t.1, 8) == (kvs, rest)
  {
    var counts := LE(tensors, 8) + (LE(kvs, 8) + rest);
    var b := PutPreamble(tensors, kvs, rest);
    assert b[..4] == MAGIC && b[4..] == LE(VERSION, 4) + counts;
    NumFirst(VERSION, 4, counts);
    NumFirst(tensors, 8, LE(kvs, 8) + rest);
    NumFirst(kvs, 8, rest);
  }

  predicate TextHeader(kvs: seq<Kv>, rs: seq<Record>, isText: Bytes -> bool) {
    && (forall i :: 0 <= i < |kvs| ==> TextKv(kvs[i], isText))
    && (forall i :: 0 <= i < |rs| ==> isText(rs[i].name))
  }

  lemma ChecksPut(kvs: seq<Kv>, rs: seq<Record>, rest: Bytes, b: Bytes, minTensors: nat, isText: Bytes -> bool)
    requires GoodHeader(kvs, rs) && TextHeader(kvs, rs, isText) && b == PutHeader(kvs, rs, rest)
    ensures Check(b, minTensors, isText) ==
            match Wanted(rs, 0)
            case None => None
            case Some(total) => if |rs| < minTensors || |b| < total then None else Some((|rs|, |kvs|))
  {
    PreambleFirst(|rs|, |kvs|, PutKvs(kvs, PutRecords(rs, rest)));
    KvsFirst(kvs, PutRecords(rs, rest), isText);
    TensorsFirst(rs, rest, 0, isText);
  }

  /**
   The check recovers both counts of every registered header, and passes exactly when there are enough
   tensors, none of an unknown type, and the whole file is as long as the furthest reach.
   */
  lemma ChecksHeader(kvs: seq<Kv>, rs: seq<Record>, rest: Bytes, minTensors: nat, isText: Bytes -> bool)
    requires GoodHeader(kvs, rs) && TextHeader(kvs, rs, isText)
    ensures Check(HeaderBytes(kvs, rs) + rest, minTensors, isText) ==
            match Wanted(rs, 0)
            case None => None
            case Some(total) =>
              if |rs| < minTensors || |HeaderBytes(kvs, rs)| + |rest| < total then None else Some((|rs|, |kvs|))
  {
    PutHeaderIs(kvs, rs, rest);
    ChecksPut(kvs, rs, rest, HeaderBytes(kvs, rs) + rest, minTensors, isText);
  }

  method KvLoop(start: Bytes, n: nat, isText: Bytes -> bool) returns (r: Option<Bytes>)
    ensures r == SkipKvs(start, n, isText)
  {
    var rest := start;
    for i := 0 to n
      invariant SkipKvs(rest, n - i, isText) == SkipKvs(start, n, isText)
    {
      var key := RdStr(rest);
      if !isText(key.0) { return None; }
      var t := RdNum(key.1, 4);
      var next := Skip(t.1, t.0, isText);
      if next.None? { return None; }
      rest := next.value;
    }
    r := Some(rest);
  }

  method TensorLoop(start: Bytes, n: nat, isText: Bytes -> bool) returns (r: Option<nat>)
    ensures r == RdTensors(start, n, 0, isText)
  {
    var rest: Bytes, total := start, 0;
    for i := 0 to n
      invariant RdTensors(rest, n - i, total, isText) == RdTensors(start, n, 0, isText)
    {
      var x := RdTensor(rest, isText);
      if x.None? { return None; }
      total := Max(total, x.value.0);
      rest := x.value.1;
    }
    r := Some(total);
  }

  /** `check_gguf_head` */
  method CheckGgufHead(b: Bytes, minTensors: nat, isText: Bytes -> bool) returns (r: Option<(nat, nat)>)
    ensures r == Check(b, minTensors, isText)
  {
    var magic := Rd(b, 4);
    if magic.0 != MAGIC { return None; }
    var version := RdNum(magic.1, 4);
    var tensors := RdNum(version.1, 8);
    var kvs := RdNum(tensors.1, 8);
    if version.0 < 2 || tensors.0 < minTensors { return None; }
    var rest := KvLoop(kvs.1, kvs.0, isText);
    if rest.None? { return None; }
    var total := TensorLoop(rest.value, tensors.0, isText);
    if total.None? || |b| < total.value { return None; }
    r := Some((tensors.0, kvs.0));
  }
}

/**
 Bytes of a GGUF header: little-endian numbers, strings, key-values of any nesting, tensor records.
 (GGUF specification v3, ggml docs/gguf.md, section "File Structure".)
 */
module GgufFormat {
  import opened Common
  import opened Indexing

  type Bytes = seq<byte>

  const U32: nat := 0x1_0000_0000
  const U64: nat := 0x1_0000_0000_0000_0000

  const TYPE_U32: nat := 4
  const TYPE_STRING: nat := 8
  const TYPE_ARRAY: nat := 9

  // ---- numbers ------------------------------------------------------------------------------

  function LE(x: nat, n: nat): (r: Bytes)
    ensures |r| == n
  {
    if n == 0 then [] else [x % 256] + LE(x / 256, n - 1)
  }

  function Num(s: Bytes): nat {
    if s == [] then 0 else s[0] + 256 * Num(s[1..])
  }

  function Pow256(n: nat): nat {
    if n == 0 then 1 else 256 * Pow256(n - 1)
  }

  lemma {:induction false} NumLE(x: nat, n: nat)
    requires x < Pow256(n)
    ensures Num(LE(x, n)) == x
  {
    if n > 0 {
      NumLE(x / 256, n - 1);
      assert LE(x, n)[1..] == LE(x / 256, n - 1);
    }
  }

  lemma Regrouped(t: nat, a: nat, r: nat)
    ensures 256 * (t * a + r) == t * (256 * a) + 256 * r
  {
  }

  lemma ShiftedTwice(x: nat, a: nat)
    requires a > 0
    ensures x / 256 / a == x / (256 * a)
  {
    var high, low := x / 256, x % 256;
    var t, r := high / a, high % a;
    var width := 256 * a;
    assert high == t * a + r;
    Regrouped(t, a, r);
    Split(t, 256 * r + low, width);
  }

  /** Byte `i` holds the digit of weight 256^i: the least significant byte comes first. */
  lemma {:induction false} LEAt(x: nat, n: nat, i: nat, weight: nat)
    requires i < n && weight == Pow256(i)
    ensures weight > 0 && LE(x, n)[i] == x / weight % 256
  {
    if i > 0 {
      var less := Pow256(i - 1);
      LEAt(x / 256, n - 1, i - 1, less);
      ShiftedTwice(x, less);
    }
  }

  lemma Widths()
    ensures Pow256(4) == U32 && Pow256(8) == U64
  {
    assert Pow256(2) == 0x1_0000 && Pow256(3) == 0x100_0000 && Pow256(4) == U32;
    assert Pow256(5) == 256 * U32 && Pow256(6) == 0x1_0000 * U32 && Pow256(7) == 0x100_0000 * U32;
  }

  // ---- key-values -------------------------------------------------------------------------------

  datatype Val = Scalar(raw: Bytes) | Str(text: Bytes) | Arr(elem: nat, items: seq<Val>)

  /** 0 u8, 1 i8, 2 u16, 3 i16, 4 u32, 5 i32, 6 f32, 7 bool, 10 u64, 11 i64, 12 f64. */
  function ScalarSize(t: nat): Option<nat> {
    if t == 0 || t == 1 || t == 7 then Some(1)
    else if t == 2 || t == 3 then Some(2)
    else if t == 4 || t == 5 || t == 6 then Some(4)
    else if t == 10 || t == 11 || t == 12 then Some(8)
    else None
  }

  /** The value is one of type `t`, and its counts fit their fields. */
  predicate Typed(v: Val, t: nat) {
    match v
    case Scalar(raw) => ScalarSize(t) == Some(|raw|)
    case Str(text) => t == TYPE_STRING && |text| < U64
    case Arr(elem, items) => t == TYPE_ARRAY && elem < U32 && |items| < U64 && AllTyped(items, elem)
  }

  predicate AllTyped(items: seq<Val>, t: nat) {
    items == [] || (Typed(items[0], t) && AllTyped(items[1..], t))
  }

  function Encoded(v: Val): Bytes {
    match v
    case Scalar(raw) => raw
    case Str(text) => LE(|text|, 8) + text
    case Arr(elem, items) => LE(elem, 4) + LE(|items|, 8) + EncodedAll(items)
  }

  function EncodedAll(items: seq<Val>): Bytes {
    if items == [] then [] else Encoded(items[0]) + EncodedAll(items[1..])
  }

  /** The encoding with what follows it in the file. */
  function Put(v: Val, rest: Bytes): Bytes {
    match v
    case Scalar(raw) => raw + rest
    case Str(text) => PutStr(text, rest)
    case Arr(elem, items) => LE(elem, 4) + (LE(|items|, 8) + PutAll(items, rest))
  }

  function PutAll(items: seq<Val>, rest: Bytes): Bytes {
    if items == [] then rest else Put(items[0], PutAll(items[1..], rest))
  }

  function PutStr(text: Bytes, rest: Bytes): Bytes {
    LE(|text|, 8) + (text + rest)
  }

  lemma Assoc(a: Bytes, b: Bytes, c: Bytes)
    ensures (a + b) + c == a + (b + c)
  {
  }

  lemma {:induction false} PutIs(v: Val, rest: Bytes)
    ensures Put(v, rest) == Encoded(v) + rest
  {
    match v
    case Scalar(raw) =>
    case Str(text) => Assoc(LE(|text|, 8), text, rest);
    case Arr(elem, items) =>
      PutAllIs(items, rest);
      Assoc(LE(elem, 4) + LE(|items|, 8), EncodedAll(items), rest);
      Assoc(LE(elem, 4), LE(|items|, 8), EncodedAll(items) + rest);
  }

  lemma {:induction false} PutAllIs(items: seq<Val>, rest: Bytes)
    ensures PutAll(items, rest) == EncodedAll(items) + rest
  {
    if items == [] {
      assert EncodedAll(items) + rest == rest;
    } else {
      PutAllIs(items[1..], rest);
      PutIs(items[0], PutAll(items[1..], rest));
      Assoc(Encoded(items[0]), EncodedAll(items[1..]), rest);
    }
  }

  /** A registered key-value: its type and the value its payload encodes. */
  datatype Kv = Kv(key: Bytes, ty: nat, value: Val)

  predicate GoodKv(kv: Kv) {
    |kv.key| < U64 && kv.ty < U32 && Typed(kv.value, kv.ty)
  }

  function KvBytes(kv: Kv): Bytes {
    LE(|kv.key|, 8) + kv.key + LE(kv.ty, 4) + Encoded(kv.value)
  }

  function PutKv(kv: Kv, rest: Bytes): Bytes {
    PutStr(kv.key, LE(kv.ty, 4) + Put(kv.value, rest))
  }

  function PutKvs(kvs: seq<Kv>, rest: Bytes): Bytes {
    if kvs == [] then rest else PutKv(kvs[0], PutKvs(kvs[1..], rest))
  }

  lemma PutKvIs(kv: Kv, rest: Bytes)
    ensures PutKv(kv, rest) == KvBytes(kv) + rest
  {
    PutIs(kv.value, rest);
    var key := LE(|kv.key|, 8) + kv.key;
    Assoc(key + LE(kv.ty, 4), Encoded(kv.value), rest);
    Assoc(key, LE(kv.ty, 4), Encoded(kv.value) + rest);
    Assoc(LE(|kv.key|, 8), kv.key, LE(kv.ty, 4) + (Encoded(kv.value) + rest));
  }

  lemma {:induction false} PutKvsIs(kvs: seq<Kv>, rest: Bytes)
    ensures PutKvs(kvs, rest) == KvsBytes(kvs) + rest
  {
    if kvs == [] {
      assert KvsBytes(kvs) + rest == rest;
    } else {
      PutKvsIs(kvs[1..], rest);
      PutKvIs(kvs[0], PutKvs(kvs[1..], rest));
      Assoc(KvBytes(kvs[0]), KvsBytes(kvs[1..]), rest);
    }
  }

  function KvsBytes(kvs: seq<Kv>): Bytes {
    if kvs == [] then [] else KvBytes(kvs[0]) + KvsBytes(kvs[1..])
  }

  // ---- tensor records ---------------------------------------------------------------------------

  datatype Record = Record(name: Bytes, ty: nat, dims: seq<nat>, off: nat)

  predicate GoodRecord(r: Record) {
    && |r.name| < U64 && r.ty < U32 && |r.dims| <= 4 && r.off < U64
    && forall i :: 0 <= i < |r.dims| ==> r.dims[i] < U64
  }

  function DimsBytes(dims: seq<nat>): (r: Bytes)
    ensures |r| == 8 * |dims|
  {
    if dims == [] then [] else LE(dims[0], 8) + DimsBytes(dims[1..])
  }

  function RecordBytes(r: Record): Bytes {
    LE(|r.name|, 8) + r.name + LE(|r.dims|, 4) + DimsBytes(r.dims) + LE(r.ty, 4) + LE(r.off, 8)
  }

  function PutDims(dims: seq<nat>, rest: Bytes): Bytes {
    if dims == [] then rest else LE(dims[0], 8) + PutDims(dims[1..], rest)
  }

  function PutRecord(r: Record, rest: Bytes): Bytes {
    PutStr(r.name, LE(|r.dims|, 4) + PutDims(r.dims, LE(r.ty, 4) + (LE(r.off, 8) + rest)))
  }

  function PutRecords(rs: seq<Record>, rest: Bytes): Bytes {
    if rs == [] then rest else PutRecord(rs[0], PutRecords(rs[1..], rest))
  }

  lemma {:induction false} PutDimsIs(dims: seq<nat>, rest: Bytes)
    ensures PutDims(dims, rest) == DimsBytes(dims) + rest
  {
    if dims == [] {
      assert DimsBytes(dims) + rest == rest;
    } else {
      PutDimsIs(dims[1..], rest);
      Assoc(LE(dims[0], 8), DimsBytes(dims[1..]), rest);
    }
  }

  lemma PutRecordIs(r: Record, rest: Bytes)
    ensures PutRecord(r, rest) == RecordBytes(r) + rest
  {
    var name, count, dims := LE(|r.name|, 8) + r.name, LE(|r.dims|, 4), DimsBytes(r.dims);
    var ty, off := LE(r.ty, 4), LE(r.off, 8);
    PutDimsIs(r.dims, ty + (off + rest));
    Assoc(name + count + dims + ty, off, rest);
    Assoc(name + count + dims, ty, off + rest);
    Assoc(name + count, dims, ty + (off + rest));
    Assoc(name, count, dims + (ty + (off + rest)));
    Assoc(LE(|r.name|, 8), r.name, count + (dims + (ty + (off + rest))));
  }

  lemma {:induction false} PutRecordsIs(rs: seq<Record>, rest: Bytes)
    ensures PutRecords(rs, rest) == RecordsBytes(rs) + rest
  {
    if rs == [] {
      assert RecordsBytes(rs) + rest == rest;
    } else {
      PutRecordsIs(rs[1..], rest);
      PutRecordIs(rs[0], PutRecords(rs[1..], rest));
      Assoc(RecordBytes(rs[0]), RecordsBytes(rs[1..]), rest);
    }
  }

  function RecordsBytes(rs: seq<Record>): Bytes {
    if rs == [] then [] else RecordBytes(rs[0]) + RecordsBytes(rs[1..])
  }

  // ---- the header -----------------------------------------------------------------------------------

  const MAGIC: Bytes := [0x47, 0x47, 0x55, 0x46]
  const VERSION: nat := 3

  function Preamble(tensors: nat, kvs: nat): (r: Bytes)
    ensures |r| == 24
  {
    MAGIC + LE(VERSION, 4) + LE(tensors, 8) + LE(kvs, 8)
  }

  function HeaderBytes(kvs: seq<Kv>, rs: seq<Record>): Bytes {
    Preamble(|rs|, |kvs|) + KvsBytes(kvs) + RecordsBytes(rs)
  }

  function PutPreamble(tensors: nat, kvs: nat, rest: Bytes): Bytes {
    MAGIC + (LE(VERSION, 4) + (LE(tensors, 8) + (LE(kvs, 8) + rest)))
  }

  function PutHeader(kvs: seq<Kv>, rs: seq<Record>, rest: Bytes): Bytes {
    PutPreamble(|rs|, |kvs|, PutKvs(kvs, PutRecords(rs, rest)))
  }

  lemma PutPreambleIs(tensors: nat, kvs: nat, rest: Bytes)
    ensures PutPreamble(tensors, kvs, rest) == Preamble(tensors, kvs) + rest
  {
    Assoc(MAGIC + LE(VERSION, 4) + LE(tensors, 8), LE(kvs, 8), rest);
    Assoc(MAGIC + LE(VERSION, 4), LE(tensors, 8), LE(kvs, 8) + rest);
    Assoc(MAGIC, LE(VERSION, 4), LE(tensors, 8) + (LE(kvs, 8) + rest));
  }

  lemma PutHeaderIs(kvs: seq<Kv>, rs: seq<Record>, rest: Bytes)
    ensures PutHeader(kvs, rs, rest) == HeaderBytes(kvs, rs) + rest
  {
    PutRecordsIs(rs, rest);
    PutKvsIs(kvs, RecordsBytes(rs) + rest);
    PutPreambleIs(|rs|, |kvs|, KvsBytes(kvs) + (RecordsBytes(rs) + rest));
    Assoc(Preamble(|rs|, |kvs|) + KvsBytes(kvs), RecordsBytes(rs), rest);
    Assoc(Preamble(|rs|, |kvs|), KvsBytes(kvs), RecordsBytes(rs) + rest);
  }

  predicate GoodHeader(kvs: seq<Kv>, rs: seq<Record>) {
    && |kvs| < U64 && |rs| < U64
    && (forall i :: 0 <= i < |kvs| ==> GoodKv(kvs[i]))
    && (forall i :: 0 <= i < |rs| ==> GoodRecord(rs[i]))
  }

  lemma Aligned(x: nat, a: nat)
    requires a > 0
    ensures var r := (x + a - 1) / a * a; x <= r < x + a && r % a == 0
  {
    var k := (x + a - 1) / a;
    assert x + a - 1 == k * a + (x + a - 1) % a;
    Split(k, 0, a);
  }

  /** `align_up` */
  function AlignUp(x: nat, a: nat): (r: nat)
    requires a > 0
    ensures x <= r < x + a && r % a == 0
  {
    Aligned(x, a);
    (x + a - 1) / a * a
  }
}

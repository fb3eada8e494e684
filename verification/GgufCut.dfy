/**
 `check_gguf_head` on a file cut anywhere, its header included. What is missing reads as nothing: a number
 short of bytes as a smaller number, a string as its first part, a whole record as one without a name or
 dimensions, of type and offset zero.
 */
module GgufCut {
  import opened Common
  import opened GgufFormat
  import opened GgufPyReader
  import opened Indexing

  // ---- cut fields -----------------------------------------------------------------------------

  /** So many bytes of a field of `w` bytes are there when `m` are left from its start on. */
  function Left(m: int, w: nat): (r: nat)
    ensures r <= w
  {
    if m < 0 then 0 else if m > w then w else m
  }

  function Cut(s: Bytes, m: int): Bytes {
    s[..Left(m, |s|)]
  }

  /** The number read from what is left of a field of `w` bytes. */
  function CutNum(x: nat, w: nat, m: int): nat {
    PowPositive(Left(m, w));
    x % Pow256(Left(m, w))
  }

  lemma {:induction false} PowPositive(n: nat)
    ensures Pow256(n) > 0
  {
    if n > 0 {
      PowPositive(n - 1);
    }
  }

  lemma CutFront(a: Bytes, b: Bytes, m: int)
    ensures Rd(Cut(a + b, m), |a|) == (Cut(a, m), Cut(b, m - |a|))
  {
    if m < |a| {
      assert Cut(a + b, m) == Cut(a, m);
    } else {
      assert Cut(a + b, m) == a + Cut(b, m - |a|);
      assert (a + Cut(b, m - |a|))[|a|..] == Cut(b, m - |a|) && Cut(a, m) == a;
    }
  }

  lemma {:induction false} LEFront(x: nat, n: nat, j: nat)
    requires j <= n
    ensures LE(x, n)[..j] == LE(x, j)
  {
    if j > 0 {
      LEFront(x / 256, n - 1, j - 1);
      assert LE(x, n)[..j] == [x % 256] + LE(x / 256, n - 1)[..j - 1];
    }
  }

  /** A number's lowest byte and the rest of it, taken apart. */
  lemma ModApart(x: nat, p: nat)
    requires p > 0
    ensures x % (256 * p) == x % 256 + 256 * (x / 256 % p)
  {
    var q, r := x / 256 / p, x / 256 % p;
    assert x / 256 == q * p + r;
    assert x == q * (256 * p) + (256 * r + x % 256);
    Split(q, 256 * r + x % 256, 256 * p);
  }

  lemma {:induction false} NumMod(x: nat, n: nat)
    ensures Pow256(n) > 0 && Num(LE(x, n)) == x % Pow256(n)
  {
    if n > 0 {
      NumMod(x / 256, n - 1);
      assert LE(x, n)[1..] == LE(x / 256, n - 1);
      ModApart(x, Pow256(n - 1));
    }
  }

  lemma NumLeft(x: nat, w: nat, rest: Bytes, m: int)
    ensures RdNum(Cut(LE(x, w) + rest, m), w) == (CutNum(x, w, m), Cut(rest, m - w))
  {
    CutFront(LE(x, w), rest, m);
    LEFront(x, w, Left(m, w));
    NumMod(x, Left(m, w));
  }

  lemma ModSmall(x: nat, p: nat)
    requires x < p
    ensures x % p == x
  {
  }

  /** Enough bytes of a number are left when it needs no more. */
  lemma NumWhole(x: nat, w: nat, m: int)
    requires x < Pow256(Left(m, w))
    ensures CutNum(x, w, m) == x
  {
    ModSmall(x, Pow256(Left(m, w)));
  }

  lemma ByteWhole(x: nat, w: nat, m: int)
    requires x < 256 && m > 0 && w > 0
    ensures CutNum(x, w, m) == x
  {
    PowPositive(Left(m, w) - 1);
    NumWhole(x, w, m);
  }

  lemma CutZero(w: nat, m: int)
    ensures CutNum(0, w, m) == 0
  {
    PowPositive(Left(m, w));
    NumWhole(0, w, m);
  }

  lemma NumNone(x: nat, w: nat, m: int)
    requires m <= 0
    ensures CutNum(x, w, m) == 0
  {
    assert Left(m, w) == 0 && Pow256(0) == 1;
  }

  lemma StrLeft(text: Bytes, rest: Bytes, m: int)
    requires |text| < U64
    ensures RdStr(Cut(PutStr(text, rest), m)) == (Cut(text, m - 8), Cut(rest, m - 8 - |text|))
  {
    NumLeft(|text|, 8, text + rest, m);
    if m >= 8 {
      Widths();
      NumWhole(|text|, 8, m);
      CutFront(text, rest, m - 8);
    }
  }

  // ---- cut key-values -----------------------------------------------------------------------------

  /** With `m` bytes left, what is read of every string in the value decodes. */
  predicate TextLeft(v: Val, m: int, isText: Bytes -> bool) {
    match v
    case Scalar(_) => true
    case Str(text) => isText(Cut(text, m - 8))
    case Arr(_, items) => TextLeftAll(items, m - 12, isText)
  }

  predicate TextLeftAll(items: seq<Val>, m: int, isText: Bytes -> bool) {
    items == [] || (TextLeft(items[0], m, isText) && TextLeftAll(items[1..], m - |Encoded(items[0])|, isText))
  }

  /** Nothing left is the empty text. */
  lemma {:induction false} TextGone(v: Val, m: int, isText: Bytes -> bool)
    requires m <= 0 && isText([])
    ensures TextLeft(v, m, isText)
    decreases v
  {
    if v.Arr? {
      TextGoneAll(v.items, m - 12, isText);
    }
  }

  lemma {:induction false} TextGoneAll(items: seq<Val>, m: int, isText: Bytes -> bool)
    requires m <= 0 && isText([])
    ensures TextLeftAll(items, m, isText)
    decreases items
  {
    if items != [] {
      TextGone(items[0], m, isText);
      TextGoneAll(items[1..], m - |Encoded(items[0])|, isText);
    }
  }

  /** A type some value has is skipped also where nothing is left. */
  lemma SkipsNothing(v: Val, t: nat, isText: Bytes -> bool)
    requires Typed(v, t) && isText([])
    ensures Skip([], t, isText) == Some([])
  {
  }

  lemma {:induction false} SkipsNothings(v: Val, t: nat, n: nat, isText: Bytes -> bool)
    requires Typed(v, t) && isText([])
    ensures SkipMany([], t, n, isText) == Some([])
    decreases n
  {
    if n > 0 {
      SkipsNothing(v, t, isText);
      SkipsNothings(v, t, n - 1, isText);
    }
  }

  /** What skipping gives on what is left. */
  function After(texts: bool, rest: Bytes): Option<Bytes> {
    if texts then Some(rest) else None
  }

  lemma {:induction false} SkipsLeft(v: Val, t: nat, rest: Bytes, m: int, end: int, isText: Bytes -> bool)
    requires Typed(v, t) && isText([]) && end == m - |Encoded(v)|
    ensures Skip(Cut(Put(v, rest), m), t, isText) == After(TextLeft(v, m, isText), Cut(rest, end))
    decreases v, 1
  {
    match v
    case Scalar(raw) => CutFront(raw, rest, m);
    case Str(text) => StrLeft(text, rest, m);
    case Arr(elem, items) => ArrayLeft(elem, items, rest, m, end, isText);
  }

  lemma {:induction false} ArrayLeft(elem: nat, items: seq<Val>, rest: Bytes, m: int, end: int, isText: Bytes -> bool)
    requires elem < U32 && |items| < U64 && AllTyped(items, elem) && isText([]) && end == m - 12 - |EncodedAll(items)|
    ensures Skip(Cut(Put(Arr(elem, items), rest), m), TYPE_ARRAY, isText) ==
            After(TextLeftAll(items, m - 12, isText), Cut(rest, end))
    decreases items, 1
  {
    var some := PutAll(items, rest);
    var counted := LE(|items|, 8) + some;
    NumLeft(elem, 4, counted, m);
    NumLeft(|items|, 8, some, m - 4);
    ArrayTurn(Cut(Put(Arr(elem, items), rest), m), CutNum(elem, 4, m), Cut(counted, m - 4), CutNum(|items|, 8, m - 4),
              Cut(some, m - 12), isText);
    if m >= 12 {
      WholeNums(elem, |items|, m);
      SkipsLeftAll(items, elem, rest, m - 12, end, isText);
    } else {
      TextGoneAll(items, m - 12, isText);
      NoneLeft(elem, items, m, isText);
    }
  }

  lemma WholeNums(elem: nat, count: nat, m: int)
    requires elem < U32 && count < U64 && m >= 12
    ensures CutNum(elem, 4, m) == elem && CutNum(count, 8, m - 4) == count
  {
    Widths();
    NumWhole(elem, 4, m);
    NumWhole(count, 8, m - 4);
  }

  lemma ArrayTurn(b: Bytes, elem: nat, counted: Bytes, n: nat, some: Bytes, isText: Bytes -> bool)
    requires RdNum(b, 4) == (elem, counted) && RdNum(counted, 8) == (n, some)
    ensures Skip(b, TYPE_ARRAY, isText) == SkipMany(some, elem, n, isText)
  {
  }

  /** The count of an array short of bytes: as many empty items of its type. */
  lemma NoneLeft(elem: nat, items: seq<Val>, m: int, isText: Bytes -> bool)
    requires elem < U32 && AllTyped(items, elem) && isText([]) && m < 12
    ensures SkipMany([], CutNum(elem, 4, m), CutNum(|items|, 8, m - 4), isText) == Some([])
  {
    var n := CutNum(|items|, 8, m - 4);
    if m <= 4 {
      NumNone(|items|, 8, m - 4);
    } else if items == [] {
      CutZero(8, m - 4);
    } else {
      Widths();
      NumWhole(elem, 4, m);
      SkipsNothings(items[0], elem, n, isText);
    }
  }

  lemma ItemTurn(b: Bytes, t: nat, n: nat, texts: bool, next: Bytes, isText: Bytes -> bool)
    requires n > 0 && Skip(b, t, isText) == After(texts, next)
    ensures SkipMany(b, t, n, isText) == if texts then SkipMany(next, t, n - 1, isText) else None
  {
  }

  /** One item, then the others. */
  lemma Joined(whole: Option<Bytes>, here: bool, more: bool, all: bool, behind: Option<Bytes>, rest: Bytes)
    requires whole == (if here then behind else None) && behind == After(more, rest) && (all <==> here && more)
    ensures whole == After(all, rest)
  {
  }

  lemma {:induction false} SkipsLeftAll(items: seq<Val>, t: nat, rest: Bytes, m: int, end: int, isText: Bytes -> bool)
    requires AllTyped(items, t) && isText([]) && end == m - |EncodedAll(items)|
    ensures SkipMany(Cut(PutAll(items, rest), m), t, |items|, isText) == After(TextLeftAll(items, m, isText), Cut(rest, end))
    decreases items, 0
  {
    if items != [] {
      var b, more, m' := Cut(PutAll(items, rest), m), PutAll(items[1..], rest), m - |Encoded(items[0])|;
      SkipsLeft(items[0], t, more, m, m', isText);
      ItemTurn(b, t, |items|, TextLeft(items[0], m, isText), Cut(more, m'), isText);
      SkipsLeftAll(items[1..], t, rest, m', end, isText);
      Joined(SkipMany(b, t, |items|, isText), TextLeft(items[0], m, isText), TextLeftAll(items[1..], m', isText),
             TextLeftAll(items, m, isText), SkipMany(Cut(more, m'), t, |items| - 1, isText), Cut(rest, end));
    }
  }

  predicate TextKvLeft(kv: Kv, m: int, isText: Bytes -> bool) {
    isText(Cut(kv.key, m - 8)) && TextLeft(kv.value, m - 8 - |kv.key| - 4, isText)
  }

  predicate TextKvsLeft(kvs: seq<Kv>, m: int, isText: Bytes -> bool) {
    kvs == [] || (TextKvLeft(kvs[0], m, isText) && TextKvsLeft(kvs[1..], m - |KvBytes(kvs[0])|, isText))
  }

  /** The type and the value of a key-value. */
  lemma TypedLeft(v: Val, t: nat, rest: Bytes, m: int, end: int, isText: Bytes -> bool)
    requires Typed(v, t) && t < U32 && isText([]) && end == m - 4 - |Encoded(v)|
    ensures var ty := RdNum(Cut(LE(t, 4) + Put(v, rest), m), 4);
            Skip(ty.1, ty.0, isText) == After(TextLeft(v, m - 4, isText), Cut(rest, end))
  {
    NumLeft(t, 4, Put(v, rest), m);
    if m > 0 {
      ByteWhole(t, 4, m);
      SkipsLeft(v, t, rest, m - 4, end, isText);
    } else {
      NumNone(t, 4, m);
      TextGone(v, m - 4, isText);
      SkipsNothing(Scalar([0]), 0, isText);
    }
  }

  lemma KvLength(kv: Kv)
    ensures |KvBytes(kv)| == 12 + |kv.key| + |Encoded(kv.value)|
  {
  }

  /** One turn of the key-value loop. */
  lemma KvTurn(b: Bytes, n: nat, key: Bytes, left: Bytes, texts: bool, next: Bytes, isText: Bytes -> bool)
    requires n > 0 && RdStr(b) == (key, left)
    requires Skip(RdNum(left, 4).1, RdNum(left, 4).0, isText) == After(texts, next)
    ensures SkipKvs(b, n, isText) == if isText(key) && texts then SkipKvs(next, n - 1, isText) else None
  {
  }

  lemma KvsApart(kvs: seq<Kv>, rest: Bytes, m: int, isText: Bytes -> bool)
    requires kvs != []
    ensures PutKvs(kvs, rest) == PutKv(kvs[0], PutKvs(kvs[1..], rest)) && |kvs| == |kvs[1..]| + 1
    ensures |KvsBytes(kvs)| == |KvBytes(kvs[0])| + |KvsBytes(kvs[1..])|
    ensures TextKvsLeft(kvs, m, isText) ==
            (TextKvLeft(kvs[0], m, isText) && TextKvsLeft(kvs[1..], m - |KvBytes(kvs[0])|, isText))
  {
  }

  /** One key-value, then the others. */
  lemma KvStep(kv: Kv, more: Bytes, m: int, b: Bytes, n: nat, isText: Bytes -> bool)
    requires GoodKv(kv) && isText([]) && n > 0 && b == Cut(PutKv(kv, more), m)
    ensures SkipKvs(b, n, isText) ==
            if TextKvLeft(kv, m, isText) then SkipKvs(Cut(more, m - |KvBytes(kv)|), n - 1, isText) else None
  {
    var behind, at, end := LE(kv.ty, 4) + Put(kv.value, more), m - 8 - |kv.key|, m - |KvBytes(kv)|;
    StrLeft(kv.key, behind, m);
    KvLength(kv);
    TypedLeft(kv.value, kv.ty, more, at, end, isText);
    KvTurn(b, n, Cut(kv.key, m - 8), Cut(behind, at), TextLeft(kv.value, at - 4, isText), Cut(more, end), isText);
  }

  lemma {:induction false} KvsFine(kvs: seq<Kv>, rest: Bytes, m: int, b: Bytes, n: nat, end: int, isText: Bytes -> bool)
    requires (forall i :: 0 <= i < |kvs| ==> GoodKv(kvs[i])) && isText([]) && TextKvsLeft(kvs, m, isText)
    requires b == Cut(PutKvs(kvs, rest), m) && n == |kvs| && end == m - |KvsBytes(kvs)|
    ensures SkipKvs(b, n, isText) == Some(Cut(rest, end))
    decreases kvs
  {
    if kvs != [] {
      var more, m' := PutKvs(kvs[1..], rest), m - |KvBytes(kvs[0])|;
      KvsApart(kvs, rest, m, isText);
      KvStep(kvs[0], more, m, b, n, isText);
      KvsFine(kvs[1..], rest, m', Cut(more, m'), n - 1, end, isText);
    }
  }

  lemma {:induction false} KvsBad(kvs: seq<Kv>, rest: Bytes, m: int, isText: Bytes -> bool)
    requires (forall i :: 0 <= i < |kvs| ==> GoodKv(kvs[i])) && isText([]) && !TextKvsLeft(kvs, m, isText)
    ensures SkipKvs(Cut(PutKvs(kvs, rest), m), |kvs|, isText) == None
    decreases kvs
  {
    KvsApart(kvs, rest, m, isText);
    KvStep(kvs[0], PutKvs(kvs[1..], rest), m, Cut(PutKvs(kvs, rest), m), |kvs|, isText);
    if TextKvLeft(kvs[0], m, isText) {
      KvsBad(kvs[1..], rest, m - |KvBytes(kvs[0])|, isText);
    }
  }

  lemma KvsLeft(kvs: seq<Kv>, rest: Bytes, m: int, isText: Bytes -> bool)
    requires (forall i :: 0 <= i < |kvs| ==> GoodKv(kvs[i])) && isText([])
    ensures SkipKvs(Cut(PutKvs(kvs, rest), m), |kvs|, isText) ==
            After(TextKvsLeft(kvs, m, isText), Cut(rest, m - |KvsBytes(kvs)|))
  {
    if TextKvsLeft(kvs, m, isText) {
      KvsFine(kvs, rest, m, Cut(PutKvs(kvs, rest), m), |kvs|, m - |KvsBytes(kvs)|, isText);
    } else {
      KvsBad(kvs, rest, m, isText);
    }
  }

  lemma {:induction false} KvsGone(n: nat, isText: Bytes -> bool)
    requires isText([])
    ensures SkipKvs([], n, isText) == Some([])
  {
    if n > 0 {
      SkipsNothing(Scalar([0]), 0, isText);
      KvsGone(n - 1, isText);
    }
  }

  lemma {:induction false} TextKvsGone(kvs: seq<Kv>, m: int, isText: Bytes -> bool)
    requires m <= 0 && isText([])
    ensures TextKvsLeft(kvs, m, isText)
    decreases kvs
  {
    if kvs != [] {
      TextGone(kvs[0].value, m - 12 - |kvs[0].key|, isText);
      TextKvsGone(kvs[1..], m - |KvBytes(kvs[0])|, isText);
    }
  }

  // ---- cut records ----------------------------------------------------------------------------------

  function CutDims(dims: seq<nat>, m: int): (r: seq<nat>)
    ensures |r| == |dims|
  {
    if dims == [] then [] else [CutNum(dims[0], 8, m)] + CutDims(dims[1..], m - 8)
  }

  /** The record the check reads when `m` bytes are left from the record's start on. */
  function CutRecord(r: Record, m: int): Record {
    var at := m - 8 - |r.name|;
    var end := at - 4 - 8 * |r.dims|;
    Record(Cut(r.name, m - 8), CutNum(r.ty, 4, end), if at <= 0 then [] else CutDims(r.dims, at - 4), CutNum(r.off, 8, end - 4))
  }

  /** Bytes of a record, and of a table. */
  function RecordSize(r: Record): nat {
    24 + |r.name| + 8 * |r.dims|
  }

  function RecordsSize(rs: seq<Record>): nat {
    if rs == [] then 0 else RecordSize(rs[0]) + RecordsSize(rs[1..])
  }

  lemma {:induction false} RecordsLength(rs: seq<Record>)
    ensures |RecordsBytes(rs)| == RecordsSize(rs)
  {
    if rs != [] {
      RecordsLength(rs[1..]);
    }
  }

  /** The table the check reads when `m` bytes are left from the table's start on. */
  function CutRecords(rs: seq<Record>, m: int): (r: seq<Record>)
    ensures |r| == |rs|
  {
    if rs == [] then [] else [CutRecord(rs[0], m)] + CutRecords(rs[1..], m - RecordSize(rs[0]))
  }

  lemma {:induction false} DimsLeft(dims: seq<nat>, rest: Bytes, m: int)
    ensures RdDims(Cut(PutDims(dims, rest), m), |dims|) == (CutDims(dims, m), Cut(rest, m - 8 * |dims|))
    decreases dims
  {
    if dims != [] {
      NumLeft(dims[0], 8, PutDims(dims[1..], rest), m);
      DimsLeft(dims[1..], rest, m - 8);
    }
  }

  /** Count and dimensions of a record. */
  lemma ShapeLeft(dims: seq<nat>, rest: Bytes, m: int)
    requires |dims| <= 4
    ensures var nd := RdNum(Cut(LE(|dims|, 4) + PutDims(dims, rest), m), 4);
            RdDims(nd.1, nd.0) == (if m <= 0 then [] else CutDims(dims, m - 4), Cut(rest, m - 4 - 8 * |dims|))
  {
    NumLeft(|dims|, 4, PutDims(dims, rest), m);
    if m > 0 {
      ByteWhole(|dims|, 4, m);
      DimsLeft(dims, rest, m - 4);
    } else {
      NumNone(|dims|, 4, m);
    }
  }

  /** One record, from what its fields read as. */
  lemma TensorTurn(b: Bytes, r: Record, shape: Bytes, ty: Bytes, off: Bytes, next: Bytes, isText: Bytes -> bool)
    requires RdStr(b) == (r.name, shape) && RdDims(RdNum(shape, 4).1, RdNum(shape, 4).0) == (r.dims, ty)
    requires RdNum(ty, 4) == (r.ty, off) && RdNum(off, 8) == (r.off, next)
    ensures RdTensor(b, isText) ==
            if !isText(r.name) then None
            else match Reach(r.ty, r.dims, r.off) case None => None case Some(reach) => Some((reach, next))
  {
  }

  lemma TensorLeft(r: Record, rest: Bytes, m: int, isText: Bytes -> bool)
    requires GoodRecord(r)
    ensures var cut := CutRecord(r, m);
            RdTensor(Cut(PutRecord(r, rest), m), isText) ==
            if !isText(cut.name) then None
            else
              match Reach(cut.ty, cut.dims, cut.off)
              case None => None
              case Some(reach) => Some((reach, Cut(rest, m - RecordSize(r))))
  {
    var off := LE(r.off, 8) + rest;
    var ty := LE(r.ty, 4) + off;
    var shape := LE(|r.dims|, 4) + PutDims(r.dims, ty);
    var at := m - 8 - |r.name|;
    var end := at - 4 - 8 * |r.dims|;
    StrLeft(r.name, shape, m);
    ShapeLeft(r.dims, ty, at);
    NumLeft(r.ty, 4, off, end);
    NumLeft(r.off, 8, rest, end - 4);
    TensorTurn(Cut(PutRecord(r, rest), m), CutRecord(r, m), Cut(shape, at), Cut(ty, end), Cut(off, end - 4),
               Cut(rest, end - 12), isText);
  }

  predicate NamesDecode(rs: seq<Record>, isText: Bytes -> bool) {
    rs == [] || (isText(rs[0].name) && NamesDecode(rs[1..], isText))
  }

  lemma {:induction false} TensorsLeft(rs: seq<Record>, rest: Bytes, m: int, total: nat, isText: Bytes -> bool)
    requires forall i :: 0 <= i < |rs| ==> GoodRecord(rs[i])
    ensures RdTensors(Cut(PutRecords(rs, rest), m), |rs|, total, isText) ==
            if NamesDecode(CutRecords(rs, m), isText) then Wanted(CutRecords(rs, m), total) else None
    decreases rs
  {
    if rs != [] {
      var cut, m' := CutRecord(rs[0], m), m - RecordSize(rs[0]);
      TensorLeft(rs[0], PutRecords(rs[1..], rest), m, isText);
      assert CutRecords(rs, m)[1..] == CutRecords(rs[1..], m');
      match Reach(cut.ty, cut.dims, cut.off)
      case None =>
      case Some(reach) => TensorsLeft(rs[1..], rest, m', Max(total, reach), isText);
    }
  }

  /** A record of which nothing is left reaches one byte. */
  const NO_RECORD: Record := Record([], 0, [], 0)

  lemma RecordGone(r: Record, m: int)
    requires m <= 0
    ensures CutRecord(r, m) == NO_RECORD && Reach(0, [], 0) == Some(1)
  {
    NumNone(r.ty, 4, m - 12 - |r.name| - 8 * |r.dims|);
    NumNone(r.off, 8, m - 16 - |r.name| - 8 * |r.dims|);
  }

  lemma {:induction false} RecordsGone(rs: seq<Record>, m: int, total: nat, isText: Bytes -> bool)
    requires m <= 0 && isText([])
    ensures NamesDecode(CutRecords(rs, m), isText)
    ensures Wanted(CutRecords(rs, m), total) == Some(if rs == [] then total else Max(total, 1))
    decreases rs
  {
    if rs != [] {
      RecordGone(rs[0], m);
      RecordsGone(rs[1..], m - RecordSize(rs[0]), Max(total, 1), isText);
      assert CutRecords(rs, m)[1..] == CutRecords(rs[1..], m - RecordSize(rs[0]));
    }
  }

  lemma {:induction false} TensorsGone(n: nat, total: nat, isText: Bytes -> bool)
    requires isText([])
    ensures RdTensors([], n, total, isText) == Some(if n == 0 then total else Max(total, 1))
    decreases n
  {
    if n > 0 {
      TensorsGone(n - 1, Max(total, 1), isText);
    }
  }

  // ---- a cut file -------------------------------------------------------------------------------------

  lemma PreambleLeft(tensors: nat, kvs: nat, rest: Bytes, n: int)
    ensures var magic := Rd(Cut(PutPreamble(tensors, kvs, rest), n), 4);
            var version := RdNum(magic.1, 4);
            var t := RdNum(version.1, 8);
            && magic.0 == Cut(MAGIC, n) && version.0 == CutNum(VERSION, 4, n - 4) && t.0 == CutNum(tensors, 8, n - 8)
            && RdNum(t.1, 8) == (CutNum(kvs, 8, n - 16), Cut(rest, n - 24))
  {
    var counts := LE(tensors, 8) + (LE(kvs, 8) + rest);
    CutFront(MAGIC, LE(VERSION, 4) + counts, n);
    NumLeft(VERSION, 4, counts, n - 4);
    NumLeft(tensors, 8, LE(kvs, 8) + rest, n - 8);
    NumLeft(kvs, 8, rest, n - 16);
  }

  /** The magic and enough of the version are left. */
  lemma VersionLeft(n: int)
    ensures Cut(MAGIC, n) == MAGIC && CutNum(VERSION, 4, n - 4) >= 2 <==> n >= 5
  {
    if n >= 5 {
      ByteWhole(VERSION, 4, n - 4);
    } else {
      NumNone(VERSION, 4, n - 4);
    }
  }

  /** The key-values and the table of a cut file. */
  ghost predicate BodyPasses(kvs: seq<Kv>, rs: seq<Record>, n: nat, isText: Bytes -> bool) {
    var seen := CutRecords(rs, n - 24 - |KvsBytes(kvs)|);
    && TextKvsLeft(kvs, n - 24, isText) && NamesDecode(seen, isText)
    && Wanted(seen, 0).Some? && Wanted(seen, 0).value <= n
  }

  /**
   When a header cut to `n` bytes passes: the version is left, the count read is enough, what is left of every
   string decodes, and the records as read ask for no more than `n` bytes.
   */
  ghost predicate CutChecks(kvs: seq<Kv>, rs: seq<Record>, n: nat, minTensors: nat, isText: Bytes -> bool) {
    n >= 5 && minTensors <= CutNum(|rs|, 8, n - 8) && BodyPasses(kvs, rs, n, isText)
  }

  /** The check behind the preamble. */
  function Body(rest: Bytes, tensors: nat, kvs: nat, n: nat, isText: Bytes -> bool): bool {
    match SkipKvs(rest, kvs, isText)
    case None => false
    case Some(table) =>
      match RdTensors(table, tensors, 0, isText) case None => false case Some(total) => total <= n
  }

  lemma BodyWhole(kvs: seq<Kv>, rs: seq<Record>, rest: Bytes, n: nat, isText: Bytes -> bool)
    requires GoodHeader(kvs, rs) && isText([])
    ensures Body(Cut(PutKvs(kvs, PutRecords(rs, rest)), n - 24), |rs|, |kvs|, n, isText) <==> BodyPasses(kvs, rs, n, isText)
  {
    KvsLeft(kvs, PutRecords(rs, rest), n - 24, isText);
    TensorsLeft(rs, rest, n - 24 - |KvsBytes(kvs)|, 0, isText);
  }

  lemma BodyGone(kvs: seq<Kv>, rs: seq<Record>, tensors: nat, some: nat, n: nat, isText: Bytes -> bool)
    requires isText([]) && 1 <= n <= 24
    ensures Body([], tensors, some, n, isText) && BodyPasses(kvs, rs, n, isText)
  {
    KvsGone(some, isText);
    TensorsGone(tensors, 0, isText);
    TextKvsGone(kvs, n - 24, isText);
    RecordsGone(rs, n - 24 - |KvsBytes(kvs)|, 0, isText);
  }

  lemma BodyLeft(kvs: seq<Kv>, rs: seq<Record>, rest: Bytes, n: nat, isText: Bytes -> bool)
    requires GoodHeader(kvs, rs) && isText([]) && n >= 1
    ensures Body(Cut(PutKvs(kvs, PutRecords(rs, rest)), n - 24), CutNum(|rs|, 8, n - 8), CutNum(|kvs|, 8, n - 16), n, isText)
            <==> BodyPasses(kvs, rs, n, isText)
  {
    if n >= 24 {
      Widths();
      NumWhole(|rs|, 8, n - 8);
      NumWhole(|kvs|, 8, n - 16);
      BodyWhole(kvs, rs, rest, n, isText);
    } else {
      BodyGone(kvs, rs, CutNum(|rs|, 8, n - 8), CutNum(|kvs|, 8, n - 16), n, isText);
    }
  }

  lemma CheckIs(b: Bytes, minTensors: nat, isText: Bytes -> bool)
    ensures var magic := Rd(b, 4);
            var version := RdNum(magic.1, 4);
            var tensors := RdNum(version.1, 8);
            var kvs := RdNum(tensors.1, 8);
            Check(b, minTensors, isText) ==
            if magic.0 == MAGIC && version.0 >= 2 && minTensors <= tensors.0 && Body(kvs.1, tensors.0, kvs.0, |b|, isText)
            then Some((tensors.0, kvs.0)) else None
  {
  }

  lemma PutCut(kvs: seq<Kv>, rs: seq<Record>, rest: Bytes, b: Bytes, n: nat, minTensors: nat, isText: Bytes -> bool)
    requires GoodHeader(kvs, rs) && isText([]) && b == Cut(PutHeader(kvs, rs, rest), n) && |b| == n
    ensures Check(b, minTensors, isText) ==
            if CutChecks(kvs, rs, n, minTensors, isText) then Some((CutNum(|rs|, 8, n - 8), CutNum(|kvs|, 8, n - 16))) else None
  {
    PreambleLeft(|rs|, |kvs|, PutKvs(kvs, PutRecords(rs, rest)), n);
    VersionLeft(n);
    CheckIs(b, minTensors, isText);
    if n >= 5 {
      BodyLeft(kvs, rs, rest, n, isText);
    }
  }

  /** What the check makes of any header followed by anything, cut anywhere. */
  lemma ChecksCut(kvs: seq<Kv>, rs: seq<Record>, rest: Bytes, n: nat, minTensors: nat, isText: Bytes -> bool)
    requires GoodHeader(kvs, rs) && isText([]) && n <= |HeaderBytes(kvs, rs) + rest|
    ensures Check((HeaderBytes(kvs, rs) + rest)[..n], minTensors, isText) ==
            if CutChecks(kvs, rs, n, minTensors, isText) then Some((CutNum(|rs|, 8, n - 8), CutNum(|kvs|, 8, n - 16))) else None
  {
    PutHeaderIs(kvs, rs, rest);
    PutCut(kvs, rs, rest, (HeaderBytes(kvs, rs) + rest)[..n], n, minTensors, isText);
  }

  // ---- what that means ----------------------------------------------------------------------------------

  lemma BehindPreamble(kvs: seq<Kv>, rs: seq<Record>, rest: Bytes, n: nat, minTensors: nat, isText: Bytes -> bool)
    requires GoodHeader(kvs, rs) && isText([]) && 24 <= n <= |HeaderBytes(kvs, rs) + rest|
    ensures Check((HeaderBytes(kvs, rs) + rest)[..n], minTensors, isText) ==
            if minTensors <= |rs| && BodyPasses(kvs, rs, n, isText) then Some((|rs|, |kvs|)) else None
  {
    ChecksCut(kvs, rs, rest, n, minTensors, isText);
    Widths();
    NumWhole(|rs|, 8, n - 8);
    NumWhole(|kvs|, 8, n - 16);
  }

  /** Cut inside the key-values, the whole table and all data gone: it passes when the strings left decode. */
  lemma KvCut(kvs: seq<Kv>, rs: seq<Record>, rest: Bytes, n: nat, minTensors: nat, isText: Bytes -> bool)
    requires GoodHeader(kvs, rs) && isText([]) && 24 <= n <= 24 + |KvsBytes(kvs)| && n <= |HeaderBytes(kvs, rs) + rest|
    ensures Check((HeaderBytes(kvs, rs) + rest)[..n], minTensors, isText) ==
            if minTensors <= |rs| && TextKvsLeft(kvs, n - 24, isText) then Some((|rs|, |kvs|)) else None
  {
    BehindPreamble(kvs, rs, rest, n, minTensors, isText);
    NoTable(kvs, rs, n, n - 24 - |KvsBytes(kvs)|, isText);
  }

  lemma NoTable(kvs: seq<Kv>, rs: seq<Record>, n: nat, m: int, isText: Bytes -> bool)
    requires isText([]) && n > 0 && m == n - 24 - |KvsBytes(kvs)| <= 0
    ensures BodyPasses(kvs, rs, n, isText) <==> TextKvsLeft(kvs, n - 24, isText)
  {
    RecordsGone(rs, m, 0, isText);
  }

  /** The 24 bytes of the preamble alone pass, whatever number of tensors they promise. */
  lemma PreambleAlone(kvs: seq<Kv>, rs: seq<Record>, rest: Bytes, minTensors: nat, isText: Bytes -> bool)
    requires GoodHeader(kvs, rs) && isText([]) && minTensors <= |rs|
    ensures 24 <= |HeaderBytes(kvs, rs) + rest|
    ensures Check((HeaderBytes(kvs, rs) + rest)[..24], minTensors, isText) == Some((|rs|, |kvs|))
  {
    KvCut(kvs, rs, rest, 24, minTensors, isText);
    TextKvsGone(kvs, 0, isText);
  }

  lemma {:induction false} TextWhole(v: Val, t: nat, m: int, isText: Bytes -> bool)
    requires Typed(v, t) && TextIn(v, isText) && m >= |Encoded(v)|
    ensures TextLeft(v, m, isText)
    decreases v
  {
    match v
    case Scalar(_) =>
    case Str(text) => assert Cut(text, m - 8) == text;
    case Arr(elem, items) => TextWholeAll(items, elem, m - 12, isText);
  }

  lemma {:induction false} TextWholeAll(items: seq<Val>, t: nat, m: int, isText: Bytes -> bool)
    requires AllTyped(items, t) && TextInAll(items, isText) && m >= |EncodedAll(items)|
    ensures TextLeftAll(items, m, isText)
    decreases items
  {
    if items != [] {
      TextWhole(items[0], t, m, isText);
      TextWholeAll(items[1..], t, m - |Encoded(items[0])|, isText);
    }
  }

  lemma {:induction false} TextKvsWhole(kvs: seq<Kv>, m: int, isText: Bytes -> bool)
    requires (forall i :: 0 <= i < |kvs| ==> GoodKv(kvs[i]) && TextKv(kvs[i], isText)) && m >= |KvsBytes(kvs)|
    ensures TextKvsLeft(kvs, m, isText)
    decreases kvs
  {
    if kvs != [] {
      var kv := kvs[0];
      KvLength(kv);
      assert Cut(kv.key, m - 8) == kv.key;
      TextWhole(kv.value, kv.ty, m - 8 - |kv.key| - 4, isText);
      TextKvsWhole(kvs[1..], m - |KvBytes(kv)|, isText);
    }
  }

  lemma {:induction false} DimsWhole(dims: seq<nat>, m: int)
    requires (forall i :: 0 <= i < |dims| ==> dims[i] < U64) && m >= 8 * |dims|
    ensures CutDims(dims, m) == dims
    decreases dims
  {
    if dims != [] {
      Widths();
      NumWhole(dims[0], 8, m);
      DimsWhole(dims[1..], m - 8);
    }
  }

  lemma RecordWhole(r: Record, m: int)
    requires GoodRecord(r) && m >= RecordSize(r)
    ensures CutRecord(r, m) == r
  {
    var end := m - 12 - |r.name| - 8 * |r.dims|;
    Widths();
    DimsWhole(r.dims, m - 12 - |r.name|);
    NumWhole(r.ty, 4, end);
    NumWhole(r.off, 8, end - 4);
    assert Cut(r.name, m - 8) == r.name;
  }

  /** The length asked for is there. */
  predicate Fits(wanted: Option<nat>, n: nat) {
    wanted.Some? && wanted.value <= n
  }

  lemma NamesNext(r: Record, others: seq<Record>, isText: Bytes -> bool)
    ensures NamesDecode([r] + others, isText) <==> isText(r.name) && NamesDecode(others, isText)
  {
    assert ([r] + others)[1..] == others;
  }

  lemma WantedNext(r: Record, others: seq<Record>, total: nat)
    ensures Wanted([r] + others, total) ==
            match Reach(r.ty, r.dims, r.off) case None => None case Some(reach) => Wanted(others, Max(total, reach))
  {
    assert ([r] + others)[1..] == others;
  }

  /** Of the records behind the cut nothing counts. */
  lemma FirstCounts(rs: seq<Record>, j: nat, total: nat, n: nat, isText: Bytes -> bool)
    requires rs != [] && j < RecordSize(rs[0]) && n > 0 && isText([])
    ensures NamesDecode(CutRecords(rs, j), isText) <==> isText(CutRecord(rs[0], j).name)
    ensures Fits(Wanted(CutRecords(rs, j), total), n) <==> Fits(Wanted([CutRecord(rs[0], j)], total), n)
  {
    var cut, m' := CutRecord(rs[0], j), j - RecordSize(rs[0]);
    var reach := Reach(cut.ty, cut.dims, cut.off);
    NamesNext(cut, CutRecords(rs[1..], m'), isText);
    WantedNext(cut, CutRecords(rs[1..], m'), total);
    WantedNext(cut, [], total);
    RecordsGone(rs[1..], m', if reach.Some? then Max(total, reach.value) else 0, isText);
    assert [cut] + [] == [cut];
  }

  /** One record and the others in front of the cut. */
  lemma FrontNext(rs: seq<Record>, i: nat, last: Record)
    requires 0 < i < |rs|
    ensures RecordsSize(rs[..i]) == RecordSize(rs[0]) + RecordsSize(rs[1..][..i - 1])
    ensures rs[..i] + [last] == [rs[0]] + (rs[1..][..i - 1] + [last]) && rs[i] == rs[1..][i - 1]
  {
    assert rs[..i][1..] == rs[1..][..i - 1];
  }

  lemma CutsNext(rs: seq<Record>, m: int)
    requires rs != [] && GoodRecord(rs[0]) && m >= RecordSize(rs[0])
    ensures CutRecords(rs, m) == [rs[0]] + CutRecords(rs[1..], m - RecordSize(rs[0]))
  {
    RecordWhole(rs[0], m);
  }

  /** Behind `i` whole records and `j` bytes of the next, `last` as it reads, no name counts. */
  lemma {:induction false} NamesCount(rs: seq<Record>, i: nat, j: nat, m: int, last: Record, isText: Bytes -> bool)
    requires i < |rs| && j < RecordSize(rs[i]) && m == RecordsSize(rs[..i]) + j && isText([])
    requires last == CutRecord(rs[i], j) && forall k :: 0 <= k < |rs| ==> GoodRecord(rs[k]) && isText(rs[k].name)
    ensures NamesDecode(CutRecords(rs, m), isText) <==> isText(last.name)
    decreases i
  {
    if i == 0 {
      FirstCounts(rs, j, 0, 1, isText);
    } else {
      var m' := m - RecordSize(rs[0]);
      FrontNext(rs, i, last);
      CutsNext(rs, m);
      NamesNext(rs[0], CutRecords(rs[1..], m'), isText);
      NamesCount(rs[1..], i - 1, j, m', last, isText);
    }
  }

  /** Nor does any reach. */
  lemma {:induction false} ReachCounts(rs: seq<Record>, i: nat, j: nat, m: int, last: Record, total: nat, n: nat, isText: Bytes -> bool)
    requires i < |rs| && j < RecordSize(rs[i]) && m == RecordsSize(rs[..i]) + j && n > 0 && isText([])
    requires last == CutRecord(rs[i], j) && forall k :: 0 <= k < |rs| ==> GoodRecord(rs[k])
    ensures Fits(Wanted(CutRecords(rs, m), total), n) <==> Fits(Wanted(rs[..i] + [last], total), n)
    decreases i
  {
    if i == 0 {
      FirstCounts(rs, j, total, n, isText);
      assert rs[..0] + [last] == [last];
    } else {
      var m' := m - RecordSize(rs[0]);
      FrontNext(rs, i, last);
      CutsNext(rs, m);
      WantedNext(rs[0], CutRecords(rs[1..], m'), total);
      WantedNext(rs[0], rs[1..][..i - 1] + [last], total);
      var reach := Reach(rs[0].ty, rs[0].dims, rs[0].off);
      if reach.Some? {
        ReachCounts(rs[1..], i - 1, j, m', last, Max(total, reach.value), n, isText);
      }
    }
  }

  lemma TableBody(kvs: seq<Kv>, rs: seq<Record>, i: nat, j: nat, m: nat, n: nat, isText: Bytes -> bool)
    requires GoodHeader(kvs, rs) && TextHeader(kvs, rs, isText) && isText([])
    requires i < |rs| && j < RecordSize(rs[i]) && m == RecordsSize(rs[..i]) + j && m == n - 24 - |KvsBytes(kvs)|
    ensures BodyPasses(kvs, rs, n, isText) <==>
            isText(CutRecord(rs[i], j).name) && Fits(Wanted(rs[..i] + [CutRecord(rs[i], j)], 0), n)
  {
    TextKvsWhole(kvs, n - 24, isText);
    var last := CutRecord(rs[i], j);
    NamesCount(rs, i, j, m, last, isText);
    ReachCounts(rs, i, j, m, last, 0, n, isText);
  }

  /**
   Cut after `i` whole records and `j` bytes of the next: it passes when what is left of that record's name
   decodes and no whole record, nor that one as it reads, reaches past the cut.
   */
  lemma TableCut(kvs: seq<Kv>, rs: seq<Record>, rest: Bytes, i: nat, j: nat, n: nat, minTensors: nat, isText: Bytes -> bool)
    requires GoodHeader(kvs, rs) && TextHeader(kvs, rs, isText) && isText([])
    requires i < |rs| && j < RecordSize(rs[i]) && n == 24 + |KvsBytes(kvs)| + (|RecordsBytes(rs[..i])| + j)
    requires n <= |HeaderBytes(kvs, rs) + rest|
    ensures Check((HeaderBytes(kvs, rs) + rest)[..n], minTensors, isText).Some? <==>
            minTensors <= |rs| && isText(CutRecord(rs[i], j).name) && Fits(Wanted(rs[..i] + [CutRecord(rs[i], j)], 0), n)
  {
    BehindPreamble(kvs, rs, rest, n, minTensors, isText);
    RecordsLength(rs[..i]);
    TableBody(kvs, rs, i, j, RecordsSize(rs[..i]) + j, n, isText);
  }
}

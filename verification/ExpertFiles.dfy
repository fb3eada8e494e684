/**
 Routed experts on disk: `pack` of ios/tools/repack_experts.py writes one block an expert, and
 `read`, `readLayer` of ios/Sources/Edge0MLX/Edge035B/RepackedExperts.swift read blocks back with reads
 that may come up short.
 */
module ExpertFiles {
  import opened Common
  import opened Indexing

  type Bytes = seq<byte>

  const PARTS: nat := 9
  const EXPERTS: nat := 256
  const BLOCK: nat := 1_769_472

  /** `Part.byteCount`: weights, scales and biases of gate, up and down. */
  function PartBytes(p: nat): nat {
    if p % 3 == 0 then 524_288 else 32_768
  }

  /** `Part.offset`: the parts before it. */
  function PartOffset(p: nat): nat {
    if p == 0 then 0 else PartOffset(p - 1) + PartBytes(p - 1)
  }

  lemma BlockIsParts()
    ensures PartOffset(PARTS) == BLOCK
  {
    assert PartOffset(3) == 589_824;
    assert PartOffset(6) == PartOffset(3) + 589_824;
    assert PartOffset(9) == PartOffset(6) + 589_824;
  }

  lemma {:induction false} PartsFit(p: nat, q: nat)
    requires p < q
    ensures PartOffset(p) + PartBytes(p) <= PartOffset(q)
  {
    if p < q - 1 {
      PartsFit(p, q - 1);
    }
  }

  // ---- the source tensors ---------------------------------------------------------------------

  /** One layer's nine stacked tensors, experts along the leading axis. */
  type Stacked = seq<Bytes>

  predicate ValidStacked(t: Stacked) {
    |t| == PARTS && forall p :: 0 <= p < PARTS ==> |t[p]| == EXPERTS * PartBytes(p)
  }

  /** `slice_of`: part `p` of expert `e`. */
  function Slice(t: Stacked, p: nat, e: nat): (r: Bytes)
    requires ValidStacked(t) && p < PARTS && e < EXPERTS
    ensures |r| == PartBytes(p)
  {
    var per := PartBytes(p);
    t[p][e * per..e * per + per]
  }

  /** One tensor's slices of the first `n` experts. */
  function Gathered(t: Stacked, p: nat, n: nat): Bytes
    requires ValidStacked(t) && p < PARTS && n <= EXPERTS
  {
    if n == 0 then [] else Gathered(t, p, n - 1) + Slice(t, p, n - 1)
  }

  lemma {:induction false} GatheredIs(t: Stacked, p: nat, n: nat)
    requires ValidStacked(t) && p < PARTS && n <= EXPERTS
    ensures 0 <= n * PartBytes(p) <= |t[p]| && Gathered(t, p, n) == t[p][..n * PartBytes(p)]
  {
    if n > 0 {
      GatheredIs(t, p, n - 1);
      Within(n - 1, EXPERTS, PartBytes(p));
    }
  }

  /** The slices of all experts, in order, are the whole tensor: nothing is lost, repeated or moved. */
  lemma SlicesCover(t: Stacked, p: nat)
    requires ValidStacked(t) && p < PARTS
    ensures Gathered(t, p, EXPERTS) == t[p]
  {
    GatheredIs(t, p, EXPERTS);
  }

  // ---- the packed layer -----------------------------------------------------------------------------

  /** The first `n` parts of a block. */
  function Block(t: Stacked, e: nat, n: nat): (r: Bytes)
    requires ValidStacked(t) && e < EXPERTS && n <= PARTS
    ensures |r| == PartOffset(n)
  {
    if n == 0 then [] else Block(t, e, n - 1) + Slice(t, n - 1, e)
  }

  /** The first `n` blocks of the layer file. */
  function Layer(t: Stacked, n: nat): (r: Bytes)
    requires ValidStacked(t) && n <= EXPERTS
    ensures |r| == n * BLOCK
  {
    BlockIsParts();
    if n == 0 then [] else Layer(t, n - 1) + Block(t, n - 1, PARTS)
  }

  /** The write loop of `pack` for one expert: its nine slices in order. */
  method PackBlock(t: Stacked, e: nat) returns (out: Bytes, written: nat)
    requires ValidStacked(t) && e < EXPERTS
    ensures out == Block(t, e, PARTS) && written == |out|
  {
    out, written := [], 0;
    for p := 0 to PARTS
      invariant out == Block(t, e, p) && written == |out|
    {
      var per := |t[p]| / EXPERTS;
      assert per == PartBytes(p);
      Within(e, EXPERTS, per);
      Product(e, per);
      var start := e * per;
      assert t[p][start..start + per] == Slice(t, p, e);
      out := out + t[p][start..start + per];
      written := written + per;
    }
  }

  /** The write loops of `pack` for one layer; `None` if the file did not come out as long as it should. */
  method PackLayer(t: Stacked) returns (file: Option<Bytes>)
    requires ValidStacked(t)
    ensures file == Some(Layer(t, EXPERTS))
  {
    var out: Bytes, layerWritten := [], 0;
    for e := 0 to EXPERTS
      invariant out == Layer(t, e) && layerWritten == |out|
    {
      var block, written := PackBlock(t, e);
      out := out + block;
      layerWritten := layerWritten + written;
    }
    if layerWritten != EXPERTS * BLOCK { return None; }
    file := Some(out);
  }

  lemma {:induction false} BlockAt(t: Stacked, e: nat, n: nat, p: nat)
    requires ValidStacked(t) && e < EXPERTS && p < n <= PARTS
    ensures PartOffset(p) + PartBytes(p) <= PartOffset(n)
    ensures Block(t, e, n)[PartOffset(p)..PartOffset(p) + PartBytes(p)] == Slice(t, p, e)
  {
    PartsFit(p, n);
    if p < n - 1 {
      BlockAt(t, e, n - 1, p);
      Before(Block(t, e, n - 1), Slice(t, n - 1, e), PartOffset(p), PartBytes(p));
    } else {
      After(Block(t, e, p), Slice(t, p, e));
    }
  }

  lemma After(a: Bytes, b: Bytes)
    ensures (a + b)[|a|..|a| + |b|] == b
  {
  }

  lemma Before(a: Bytes, b: Bytes, at: nat, n: nat)
    requires at + n <= |a|
    ensures (a + b)[at..at + n] == a[at..at + n]
  {
  }

  lemma {:induction false} LayerAt(t: Stacked, n: nat, e: nat)
    requires ValidStacked(t) && e < n <= EXPERTS
    ensures e * BLOCK + BLOCK <= n * BLOCK
    ensures Layer(t, n)[e * BLOCK..e * BLOCK + BLOCK] == Block(t, e, PARTS)
  {
    BlockIsParts();
    if e < n - 1 {
      LayerAt(t, n - 1, e);
      Before(Layer(t, n - 1), Block(t, n - 1, PARTS), e * BLOCK, BLOCK);
    } else {
      After(Layer(t, e), Block(t, e, PARTS));
    }
  }

  /** Part `p` of expert `e` stands at its offset inside block `e`. */
  lemma PartAt(t: Stacked, e: nat, p: nat)
    requires ValidStacked(t) && e < EXPERTS && p < PARTS
    ensures PartOffset(p) + PartBytes(p) <= BLOCK && e * BLOCK + BLOCK <= EXPERTS * BLOCK
    ensures var at := e * BLOCK + PartOffset(p);
            Layer(t, EXPERTS)[at..at + PartBytes(p)] == Slice(t, p, e)
  {
    BlockIsParts();
    PartsFit(p, PARTS);
    LayerAt(t, EXPERTS, e);
    BlockAt(t, e, PARTS, p);
    var file := Layer(t, EXPERTS);
    Inside(file, e * BLOCK, BLOCK, PartOffset(p), PartBytes(p));
  }

  lemma Inside(file: Bytes, base: nat, len: nat, at: nat, n: nat)
    requires base + len <= |file| && at + n <= len
    ensures file[base + at..base + at + n] == file[base..base + len][at..at + n]
  {
    var inner := file[base..base + len][at..at + n];
    assert forall i :: 0 <= i < n ==> inner[i] == file[base + at + i];
  }

  // ---- reading ------------------------------------------------------------------------------------

  /** What the successive reads of one loop are ready to give: bytes, or none or an error. */
  type Answers = nat -> int

  /** `pread`: no more than the answer, what is asked for, and what is there. */
  function Given(size: nat, offset: nat, count: nat, answer: int): int {
    if answer <= 0 then answer
    else if offset >= size then 0
    else if answer <= count && answer <= size - offset then answer
    else if count <= size - offset then count
    else size - offset
  }

  method Pread(file: Bytes, offset: nat, count: nat, buffer: array<byte>, at: nat, answer: int) returns (got: int)
    requires at + count <= buffer.Length
    modifies buffer
    ensures got == Given(|file|, offset, count, answer)
    ensures got > 0 ==> buffer[at..at + got] == file[offset..offset + got]
    ensures buffer[..at] == old(buffer[..at])
  {
    got := Given(|file|, offset, count, answer);
    if got > 0 {
      forall i | 0 <= i < got {
        buffer[at + i] := file[offset + i];
      }
    }
  }

  /** The first `n` answers give something, */
  predicate AllGive(answers: Answers, n: nat) {
    forall k: nat :: k < n ==> answers(k) > 0
  }

  /** and this much together. */
  function Sum(answers: Answers, n: nat): int {
    if n == 0 then 0 else Sum(answers, n - 1) + answers(n - 1)
  }

  /** Enough answers in a row give something to make up `len` bytes. */
  ghost predicate Delivers(answers: Answers, len: nat) {
    exists n: nat :: AllGive(answers, n) && Sum(answers, n) >= len
  }

  lemma {:induction false} SumGrows(answers: Answers, m: nat, n: nat)
    requires m <= n && AllGive(answers, n)
    ensures Sum(answers, m) <= Sum(answers, n)
    decreases n
  {
    if m < n {
      SumGrows(answers, m, n - 1);
    }
  }

  /** Reads that always give something deliver any length. */
  lemma AlwaysDelivers(answers: Answers, len: nat)
    requires forall k: nat :: answers(k) > 0
    ensures Delivers(answers, len)
  {
    SumAtLeast(answers, len);
    assert AllGive(answers, len);
  }

  lemma {:induction false} SumAtLeast(answers: Answers, n: nat)
    requires forall k: nat :: answers(k) > 0
    ensures Sum(answers, n) >= n
  {
    if n > 0 {
      SumAtLeast(answers, n - 1);
    }
  }

  /** An answer of nothing ends the loop short. */
  lemma Stops(answers: Answers, k: nat, len: nat)
    requires AllGive(answers, k) && Sum(answers, k) < len && answers(k) <= 0
    ensures !Delivers(answers, len)
  {
    forall n: nat | AllGive(answers, n) ensures Sum(answers, n) < len {
      assert n <= k;
      SumGrows(answers, n, k);
    }
  }

  lemma Adjacent(file: Bytes, base: nat, moved: nat, got: nat)
    requires base + moved + got <= |file|
    ensures file[base..base + moved] + file[base + moved..base + moved + got] == file[base..base + (moved + got)]
  {
  }

  /** So much the first answers have moved. */
  ghost predicate Moved(answers: Answers, n: nat, size: nat, base: nat, len: nat, moved: nat) {
    && AllGive(answers, n) && moved <= len && (moved > 0 ==> base + moved <= size)
    && (moved == Sum(answers, n) || (moved < Sum(answers, n) && (moved == len || base + moved >= size)))
  }

  /** The loop of `read` and `readLayer`: exactly the wanted bytes, or failure, and it fails only if it must. */
  method ReadFully(file: Bytes, base: nat, len: nat, buffer: array<byte>, answers: Answers) returns (ok: bool)
    requires buffer.Length == len > 0
    modifies buffer
    ensures ok ==> base + len <= |file| && buffer[..] == file[base..base + len]
    ensures ok <==> base + len <= |file| && Delivers(answers, len)
  {
    var moved, n := 0, 0;
    while moved < len
      invariant Moved(answers, n, |file|, base, len, moved)
      invariant buffer[..moved] == if moved == 0 then [] else file[base..base + moved]
      decreases len - moved
    {
      var got := Pread(file, base + moved, len - moved, buffer, moved, answers(n));
      if got <= 0 {
        if answers(n) <= 0 && base + len <= |file| { Stops(answers, n, len); }
        return false;
      }
      assert buffer[..moved + got] == buffer[..moved] + buffer[moved..moved + got];
      Adjacent(file, base, moved, got);
      moved, n := moved + got, n + 1;
    }
    ok := true;
  }
}

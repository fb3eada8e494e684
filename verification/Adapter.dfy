/**
 The block-diagonal `ssm_ba` merge of windows/tools/lora_mlx_to_gguf.py over the row interleave of
 windows/tools/repack_r3.py (`ssm_ba_perm`, `load_ba`).
 */
module Adapter {
  import opened Common
  import opened Vectors

  datatype Tag = InB | InA

  /** A row of one of the two source projections. */
  datatype Source = Source(tag: Tag, row: nat)

  // ---- the interleave -----------------------------------------------------------------------

  /** Group `g`: b 2g, b 2g+1, a 2g, a 2g+1. */
  function Group(g: nat): seq<Source> {
    [Source(InB, 2 * g), Source(InB, 2 * g + 1), Source(InA, 2 * g), Source(InA, 2 * g + 1)]
  }

  function Interleave(n_k: nat): (order: seq<Source>)
    ensures |order| == 4 * n_k
  {
    if n_k == 0 then [] else Interleave(n_k - 1) + Group(n_k - 1)
  }

  /** `ssm_ba_perm` */
  method SsmBaPerm(n_k: nat) returns (order: seq<Source>)
    ensures order == Interleave(n_k)
  {
    order := [];
    for g := 0 to n_k
      invariant order == Interleave(g)
    {
      order := order + [Source(InB, 2 * g), Source(InB, 2 * g + 1), Source(InA, 2 * g), Source(InA, 2 * g + 1)];
    }
  }

  /** Where a source row goes. */
  function PlaceOf(s: Source): nat {
    4 * (s.row / 2) + (if s.tag == InB then 0 else 2) + s.row % 2
  }

  lemma {:induction false} InterleaveAt(n_k: nat, i: nat)
    requires i < 4 * n_k
    ensures Interleave(n_k)[i] == Source(if i % 4 < 2 then InB else InA, 2 * (i / 4) + i % 2)
  {
    if i < 4 * (n_k - 1) {
      InterleaveAt(n_k - 1, i);
    }
  }

  /** Row `i` of the interleave comes from the one source whose place is `i`. */
  lemma Placed(n_k: nat, i: nat)
    requires i < 4 * n_k
    ensures PlaceOf(Interleave(n_k)[i]) == i && Interleave(n_k)[i].row < 2 * n_k
  {
    InterleaveAt(n_k, i);
  }

  lemma Placing(n_k: nat, s: Source)
    requires s.row < 2 * n_k
    ensures PlaceOf(s) < 4 * n_k && Interleave(n_k)[PlaceOf(s)] == s
  {
    InterleaveAt(n_k, PlaceOf(s));
  }

  /** Every source row of either projection is used by exactly one of the 2 n_v rows, and nothing else is. */
  ghost predicate UsesEachOnce(order: seq<Source>, n_v: nat) {
    && |order| == 2 * n_v
    && (forall i :: 0 <= i < |order| ==> order[i].row < n_v)
    && (forall s: Source :: s.row < n_v ==> s in order)
    && (forall i, j :: 0 <= i < j < |order| ==> order[i] != order[j])
  }

  lemma InterleaveExactly(n_k: nat, n_v: nat)
    ensures UsesEachOnce(Interleave(n_k), n_v) <==> n_v == 2 * n_k
  {
    if n_v == 2 * n_k {
      forall i | 0 <= i < 4 * n_k ensures PlaceOf(Interleave(n_k)[i]) == i && Interleave(n_k)[i].row < n_v {
        Placed(n_k, i);
      }
      forall s: Source | s.row < n_v ensures s in Interleave(n_k) {
        Placing(n_k, s);
      }
    }
  }

  // ---- the base rows ------------------------------------------------------------------------------

  /** One quantised row: codes, scales and biases. */
  datatype QRow = QRow(q: seq<nat>, s: Row, b: Row)

  function Picked<T>(inB: seq<T>, inA: seq<T>, s: Source): T
    requires s.row < |inB| == |inA|
  {
    match s.tag case InB => inB[s.row] case InA => inA[s.row]
  }

  /** `load_ba` after the two tensors are read: row by row in interleave order. */
  method LoadBa(inB: seq<QRow>, inA: seq<QRow>, n_k: nat) returns (rows: seq<QRow>)
    requires |inB| == |inA| == 2 * n_k
    ensures |rows| == 4 * n_k
    ensures forall i :: 0 <= i < |rows| ==>
              Interleave(n_k)[i].row < |inB| && rows[i] == Picked(inB, inA, Interleave(n_k)[i])
    ensures forall i :: 0 <= i < |rows| ==>
              var s := Interleave(n_k)[i];
              (s.tag == InB ==> rows[i] == inB[s.row]) && (s.tag == InA ==> rows[i] == inA[s.row])
  {
    var order := SsmBaPerm(n_k);
    rows := [];
    for r := 0 to |order|
      invariant |rows| == r
      invariant forall i :: 0 <= i < r ==> order[i].row < |inB| && rows[i] == Picked(inB, inA, order[i])
    {
      Placed(n_k, r);
      rows := rows + [Picked(inB, inA, order[r])];
    }
  }

  // ---- the merged adapter ---------------------------------------------------------------------------

  /** An adapter of rank `r`: A has r rows over the input, B has r columns. */
  datatype Lora = Lora(A: seq<Row>, B: seq<Row>)

  predicate Shaped(l: Lora, r: nat, rows: nat, width: nat) {
    && |l.A| == r && (forall c :: 0 <= c < r ==> |l.A[c]| == width)
    && |l.B| == rows && (forall i :: 0 <= i < rows ==> |l.B[i]| == r)
  }

  const COMPENSATION: real := 2.0

  /** Entry of the merged B: the source row, doubled, in the columns of its own half; zero elsewhere. */
  function Entry(b: Lora, a: Lora, r: nat, s: Source, c: nat): real
    requires s.row < |b.B| == |a.B| && |b.B[s.row]| == |a.B[s.row]| == r && c < 2 * r
  {
    match s.tag
    case InB => if c < r then b.B[s.row][c] * COMPENSATION else 0.0
    case InA => if c >= r then a.B[s.row][c - r] * COMPENSATION else 0.0
  }

  /** `B[out, first:first + |src|] = src * comp` */
  method FillRow(B: array2<real>, out: nat, first: nat, src: Row)
    requires out < B.Length0 && first + |src| <= B.Length1
    modifies B
    ensures forall i, k :: 0 <= i < B.Length0 && 0 <= k < B.Length1 ==>
              B[i, k] == if i == out && first <= k < first + |src| then src[k - first] * COMPENSATION else old(B[i, k])
  {
    for c := 0 to |src|
      invariant forall i, k :: 0 <= i < B.Length0 && 0 <= k < B.Length1 ==>
                  B[i, k] == if i == out && first <= k < first + c then src[k - first] * COMPENSATION else old(B[i, k])
    {
      B[out, first + c] := src[c] * COMPENSATION;
    }
  }

  /** Row `i` of B is the merged row of the source at `i` of the interleave. */
  ghost predicate RowDone(B: array2<real>, b: Lora, a: Lora, r: nat, n_k: nat, i: nat)
    reads B
  {
    && i < B.Length0 && B.Length1 == 2 * r && i < 4 * n_k
    && var s := Interleave(n_k)[i];
       && s.row < |b.B| == |a.B| && |b.B[s.row]| == |a.B[s.row]| == r
       && forall c :: 0 <= c < 2 * r ==> B[i, c] == Entry(b, a, r, s, c)
  }

  /** The merge loop of `main`: B filled one row at a time over zeros. */
  method MergeB(b: Lora, a: Lora, r: nat, n_k: nat, n_v: nat, ghost width: nat) returns (B: array2<real>)
    requires n_v == 2 * n_k && Shaped(b, r, n_v, width) && Shaped(a, r, n_v, width)
    ensures fresh(B) && B.Length0 == 2 * n_v && B.Length1 == 2 * r
    ensures forall i :: 0 <= i < 2 * n_v ==> RowDone(B, b, a, r, n_k, i)
  {
    B := new real[2 * n_v, 2 * r]((i, c) => 0.0);
    var order := SsmBaPerm(n_k);
    for out := 0 to |order|
      invariant fresh(B) && B.Length0 == 2 * n_v && B.Length1 == 2 * r
      invariant forall i :: 0 <= i < out ==> RowDone(B, b, a, r, n_k, i)
      invariant forall i, c :: out <= i < 2 * n_v && 0 <= c < 2 * r ==> B[i, c] == 0.0
    {
      Placed(n_k, out);
      MergeRow(B, b, a, r, n_k, order[out], out, width);
    }
  }

  /** One turn of the merge loop. */
  method MergeRow(B: array2<real>, b: Lora, a: Lora, r: nat, ghost n_k: nat, s: Source, out: nat, ghost width: nat)
    requires B.Length0 == 4 * n_k && B.Length1 == 2 * r && out < 4 * n_k && s == Interleave(n_k)[out]
    requires Shaped(b, r, 2 * n_k, width) && Shaped(a, r, 2 * n_k, width) && s.row < 2 * n_k
    requires forall c :: 0 <= c < 2 * r ==> B[out, c] == 0.0
    modifies B
    ensures RowDone(B, b, a, r, n_k, out)
    ensures forall i, c :: 0 <= i < B.Length0 && i != out && 0 <= c < 2 * r ==> B[i, c] == old(B[i, c])
    ensures forall i :: 0 <= i < B.Length0 && i != out && old(RowDone(B, b, a, r, n_k, i)) ==> RowDone(B, b, a, r, n_k, i)
  {
    if s.tag == InB {
      FillRow(B, out, 0, b.B[s.row]);
    } else {
      FillRow(B, out, r, a.B[s.row]);
    }
  }

  // ---- what the merge computes --------------------------------------------------------------------

  function LoraTerm(row: Row, A: seq<Row>, x: Row): int -> real {
    c => if 0 <= c < |row| && c < |A| && |A[c]| == |x| then row[c] * Dot(A[c], x) else 0.0
  }

  /** A base row with an adapter row at a given scale: `W x + scale B (A x)`. */
  function Adapted(base: Row, row: Row, A: seq<Row>, scale: real, x: Row): real
    requires |base| == |x|
  {
    Dot(base, x) + scale * Sum(|row|, LoraTerm(row, A, x))
  }

  lemma {:induction false} SumScaled(n: nat, f: int -> real, g: int -> real, k: real)
    requires forall i :: 0 <= i < n ==> f(i) == k * g(i)
    ensures Sum(n, f) == k * Sum(n, g)
  {
    if n > 0 {
      SumScaled(n - 1, f, g, k);
    }
  }

  /** A sum over a second half, the first being zero. */
  lemma {:induction false} SumShifted(n: nat, m: nat, f: int -> real, g: int -> real)
    requires forall i :: 0 <= i < n ==> f(i) == 0.0
    requires forall i :: 0 <= i < m ==> f(n + i) == g(i)
    ensures Sum(n + m, f) == Sum(m, g)
  {
    if m > 0 {
      SumShifted(n, m - 1, f, g);
    } else {
      SumTail(0, n, g, f);
    }
  }

  function MergedRow(b: Lora, a: Lora, r: nat, s: Source): Row
    requires s.row < |b.B| == |a.B| && |b.B[s.row]| == |a.B[s.row]| == r
  {
    seq(2 * r, c requires 0 <= c < 2 * r => Entry(b, a, r, s, c))
  }

  lemma TermInB(b: Lora, a: Lora, r: nat, rows: nat, s: Source, x: Row, c: nat)
    requires Shaped(b, r, rows, |x|) && Shaped(a, r, rows, |x|) && s.row < rows && s.tag == InB && c < 2 * r
    ensures LoraTerm(MergedRow(b, a, r, s), b.A + a.A, x)(c) ==
            if c < r then COMPENSATION * LoraTerm(b.B[s.row], b.A, x)(c) else 0.0
  {
    var d := Dot((b.A + a.A)[c], x);
    if c < r {
      assert (b.A + a.A)[c] == b.A[c];
      Swap(b.B[s.row][c], d);
    }
  }

  lemma TermInA(b: Lora, a: Lora, r: nat, rows: nat, s: Source, x: Row, c: nat)
    requires Shaped(b, r, rows, |x|) && Shaped(a, r, rows, |x|) && s.row < rows && s.tag == InA && c < 2 * r
    ensures LoraTerm(MergedRow(b, a, r, s), b.A + a.A, x)(c) ==
            if c >= r then COMPENSATION * LoraTerm(a.B[s.row], a.A, x)(c - r) else 0.0
  {
    var d := Dot((b.A + a.A)[c], x);
    if c >= r {
      assert (b.A + a.A)[c] == a.A[c - r];
      Swap(a.B[s.row][c - r], d);
    }
  }

  lemma Swap(u: real, d: real)
    ensures u * COMPENSATION * d == COMPENSATION * (u * d)
  {
  }

  function Twice(f: int -> real): int -> real {
    i => COMPENSATION * f(i)
  }

  lemma TwiceInB(b: Lora, a: Lora, r: nat, rows: nat, s: Source, x: Row)
    requires Shaped(b, r, rows, |x|) && Shaped(a, r, rows, |x|) && s.row < rows && s.tag == InB
    ensures Sum(2 * r, LoraTerm(MergedRow(b, a, r, s), b.A + a.A, x)) == Sum(r, Twice(LoraTerm(b.B[s.row], b.A, x)))
  {
    var merged, plain := LoraTerm(MergedRow(b, a, r, s), b.A + a.A, x), LoraTerm(b.B[s.row], b.A, x);
    forall c | 0 <= c < 2 * r ensures merged(c) == if c < r then Twice(plain)(c) else 0.0 {
      TermInB(b, a, r, rows, s, x, c);
    }
    SumTail(r, 2 * r, Twice(plain), merged);
  }

  lemma TwiceInA(b: Lora, a: Lora, r: nat, rows: nat, s: Source, x: Row)
    requires Shaped(b, r, rows, |x|) && Shaped(a, r, rows, |x|) && s.row < rows && s.tag == InA
    ensures Sum(2 * r, LoraTerm(MergedRow(b, a, r, s), b.A + a.A, x)) == Sum(r, Twice(LoraTerm(a.B[s.row], a.A, x)))
  {
    var merged, plain := LoraTerm(MergedRow(b, a, r, s), b.A + a.A, x), LoraTerm(a.B[s.row], a.A, x);
    forall c | 0 <= c < r ensures merged(c) == 0.0 {
      TermInA(b, a, r, rows, s, x, c);
    }
    forall i | 0 <= i < r ensures merged(r + i) == Twice(plain)(i) {
      TermInA(b, a, r, rows, s, x, r + i);
      assert r + i - r == i;
    }
    SumShifted(r, r, merged, Twice(plain));
  }

  /** Along a merged row the stacked A gives twice what the source's own adapter gives. */
  lemma MergedTwice(b: Lora, a: Lora, r: nat, rows: nat, s: Source, x: Row)
    requires Shaped(b, r, rows, |x|) && Shaped(a, r, rows, |x|) && s.row < rows
    ensures var own := if s.tag == InB then b else a;
            Sum(2 * r, LoraTerm(MergedRow(b, a, r, s), b.A + a.A, x)) ==
            COMPENSATION * Sum(r, LoraTerm(own.B[s.row], own.A, x))
  {
    var own := if s.tag == InB then b else a;
    if s.tag == InB {
      TwiceInB(b, a, r, rows, s, x);
    } else {
      TwiceInA(b, a, r, rows, s, x);
    }
    var plain := LoraTerm(own.B[s.row], own.A, x);
    SumScaled(r, Twice(plain), plain, COMPENSATION);
  }

  lemma SameAdapted(base: Row, merged: Row, both: seq<Row>, row: Row, own: seq<Row>, r: nat, alpha: real, x: Row)
    requires |base| == |x| && r > 0 && |merged| == 2 * r && |row| == r
    requires Sum(2 * r, LoraTerm(merged, both, x)) == COMPENSATION * Sum(r, LoraTerm(row, own, x))
    ensures Adapted(base, merged, both, alpha / (2 * r) as real, x) == Adapted(base, row, own, alpha / r as real, x)
  {
    HalfScale(alpha, r, Sum(r, LoraTerm(row, own, x)));
  }

  /**
   Row `i` of the interleaved base with the merged adapter at scale alpha / 2r is the source row that goes
   there with its own adapter at scale alpha / r, on every input.
   */
  lemma MergeCommutes(b: Lora, a: Lora, baseB: seq<Row>, baseA: seq<Row>, r: nat, n_k: nat, alpha: real, i: nat, x: Row)
    requires r > 0 && i < 4 * n_k && |baseB| == |baseA| == 2 * n_k
    requires Shaped(b, r, 2 * n_k, |x|) && Shaped(a, r, 2 * n_k, |x|)
    requires forall j :: 0 <= j < 2 * n_k ==> |baseB[j]| == |baseA[j]| == |x|
    ensures var s := Interleave(n_k)[i];
            && s.row < 2 * n_k
            && var own := if s.tag == InB then b else a;
               Adapted(Picked(baseB, baseA, s), MergedRow(b, a, r, s), b.A + a.A, alpha / (2 * r) as real, x) ==
               Adapted(Picked(baseB, baseA, s), own.B[s.row], own.A, alpha / r as real, x)
  {
    var s := Interleave(n_k)[i];
    Placed(n_k, i);
    var own := if s.tag == InB then b else a;
    MergedTwice(b, a, r, 2 * n_k, s, x);
    SameAdapted(Picked(baseB, baseA, s), MergedRow(b, a, r, s), b.A + a.A, own.B[s.row], own.A, r, alpha, x);
  }

  lemma HalfScale(alpha: real, r: nat, y: real)
    requires r > 0
    ensures alpha / (2 * r) as real * (COMPENSATION * y) == alpha / r as real * y
  {
    var k := r as real;
    assert (2 * r) as real == 2.0 * k;
    assert alpha / (2.0 * k) * 2.0 == alpha / k;
  }
}

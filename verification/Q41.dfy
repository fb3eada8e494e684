/**
 The Q4_1 repack of windows/tools/repack_mlx_to_gguf.py: `mlx_q_bytes`, `pack_q41_rows`,
 `deq_mlx_side` and `deq_gguf_side`. Scales are exact reals; `half` is the rounding to 16 bits, for
 scales inside its finite range.
 */
module Q41 {
  import opened Common
  import opened Vectors

  const QK: nat := 32
  const GROUP: nat := 64

  type Code = bv8

  // ---- eight codes a word -------------------------------------------------------------------

  /** `(word >> shift) & 0xF` */
  function Bits(word: bv32, shift: bv6): (r: bv32)
    requires shift < 32
    ensures r < 16
  {
    (word >> shift) & 0xF
  }

  /** Code `k` of a word: the shift is `4 * k`. */
  function Nibble(word: bv32, k: nat): (c: Code)
    requires k < 8
    ensures c < 16
  {
    (if k == 0 then Bits(word, 0) else if k == 1 then Bits(word, 4) else if k == 2 then Bits(word, 8)
     else if k == 3 then Bits(word, 12) else if k == 4 then Bits(word, 16) else if k == 5 then Bits(word, 20)
     else if k == 6 then Bits(word, 24) else Bits(word, 28)) as bv8
  }

  /** `mlx_q_bytes` of one row. */
  function Codes(words: seq<bv32>): (r: seq<Code>)
    ensures |r| == 8 * |words| && forall j :: 0 <= j < |r| ==> r[j] < 16
  {
    seq(8 * |words|, j requires 0 <= j < 8 * |words| => Nibble(words[j / 8], j % 8))
  }

  /** Code `8 i + k` of a row is code `k` of word `i`. */
  lemma CodesAt(words: seq<bv32>, i: nat, k: nat)
    requires i < |words| && k < 8
    ensures Codes(words)[8 * i + k] == Nibble(words[i], k)
  {
  }

  /** Eight codes, the first in the lowest bits. */
  function Word(codes: seq<Code>): bv32
    requires |codes| == 8
  {
    codes[0] as bv32 | (codes[1] as bv32 << 4) | (codes[2] as bv32 << 8) | (codes[3] as bv32 << 12)
    | (codes[4] as bv32 << 16) | (codes[5] as bv32 << 20) | (codes[6] as bv32 << 24) | (codes[7] as bv32 << 28)
  }

  lemma BitsRebuild(w: bv32)
    ensures w == Bits(w, 0) | (Bits(w, 4) << 4) | (Bits(w, 8) << 8) | (Bits(w, 12) << 12)
               | (Bits(w, 16) << 16) | (Bits(w, 20) << 20) | (Bits(w, 24) << 24) | (Bits(w, 28) << 28)
  {
  }

  lemma NarrowWide(b: bv32, c: Code)
    requires b < 16 && c == b as bv8
    ensures c as bv32 == b
  {
  }

  lemma WideLow(w: bv32, codes: seq<Code>)
    requires |codes| == 8 && forall k :: 0 <= k < 8 ==> codes[k] == Nibble(w, k)
    ensures codes[0] as bv32 == Bits(w, 0) && codes[1] as bv32 == Bits(w, 4)
    ensures codes[2] as bv32 == Bits(w, 8) && codes[3] as bv32 == Bits(w, 12)
  {
    NarrowWide(Bits(w, 0), codes[0]);
    NarrowWide(Bits(w, 4), codes[1]);
    NarrowWide(Bits(w, 8), codes[2]);
    NarrowWide(Bits(w, 12), codes[3]);
  }

  lemma WideHigh(w: bv32, codes: seq<Code>)
    requires |codes| == 8 && forall k :: 0 <= k < 8 ==> codes[k] == Nibble(w, k)
    ensures codes[4] as bv32 == Bits(w, 16) && codes[5] as bv32 == Bits(w, 20)
    ensures codes[6] as bv32 == Bits(w, 24) && codes[7] as bv32 == Bits(w, 28)
  {
    NarrowWide(Bits(w, 16), codes[4]);
    NarrowWide(Bits(w, 20), codes[5]);
    NarrowWide(Bits(w, 24), codes[6]);
    NarrowWide(Bits(w, 28), codes[7]);
  }

  lemma WordOfNibbles(w: bv32, codes: seq<Code>)
    requires |codes| == 8 && forall k :: 0 <= k < 8 ==> codes[k] == Nibble(w, k)
    ensures Word(codes) == w
  {
    WideLow(w, codes);
    WideHigh(w, codes);
    BitsRebuild(w);
  }

  // ---- blocks ---------------------------------------------------------------------------------

  /** One 32-code block: scale, minimum, and 16 bytes holding code `j` below and code `j + 16` above. */
  datatype Block = Block(d: real, m: real, qs: seq<Code>)

  /** `q[j] | (q[j + 16] << 4)` */
  function Joined(low: Code, high: Code): Code {
    low | (high << 4)
  }

  lemma Halves(low: Code, high: Code)
    requires low < 16 && high < 16
    ensures Joined(low, high) & 0xF == low && Joined(low, high) >> 4 == high
  {
  }

  predicate Small(q: seq<Code>) {
    forall j :: 0 <= j < |q| ==> q[j] < 16
  }

  function Packed(q: seq<Code>): (qs: seq<Code>)
    requires |q| == QK
    ensures |qs| == QK / 2
  {
    seq(QK / 2, j requires 0 <= j < QK / 2 => Joined(q[j], q[j + QK / 2]))
  }

  /** What `deq_gguf_side` reads at place `j` of a block. */
  function Unpacked(qs: seq<Code>, j: nat): Code
    requires |qs| == QK / 2 && j < QK
  {
    if j < QK / 2 then qs[j] & 0xF else qs[j - QK / 2] >> 4
  }

  /** Unpacking a packed block gives back its codes, in order. */
  lemma UnpackPack(q: seq<Code>, j: nat)
    requires |q| == QK && Small(q) && j < QK
    ensures Unpacked(Packed(q), j) == q[j]
  {
    if j < QK / 2 {
      Halves(q[j], q[j + QK / 2]);
    } else {
      Halves(q[j - QK / 2], q[j]);
    }
  }

  // ---- one row ------------------------------------------------------------------------------------

  /** A quantised row: its codes, and a scale and a bias for each 64 of them. */
  predicate RowShaped(q: seq<Code>, s: Row, b: Row) {
    |q| == GROUP * |s| && |b| == |s| && Small(q)
  }

  function BlockOf(q: seq<Code>, s: Row, b: Row, half: real -> real, bb: nat): Block
    requires RowShaped(q, s, b) && bb < 2 * |s|
  {
    Block(half(s[bb / 2]), half(b[bb / 2]), Packed(q[QK * bb..QK * bb + QK]))
  }

  function PackRow(q: seq<Code>, s: Row, b: Row, half: real -> real): (blocks: seq<Block>)
    requires RowShaped(q, s, b)
    ensures |blocks| == 2 * |s|
  {
    seq(2 * |s|, bb requires 0 <= bb < 2 * |s| => BlockOf(q, s, b, half, bb))
  }

  function Real(c: Code): real {
    (c as int) as real
  }

  /** `deq_mlx_side` */
  function DeqMlx(q: seq<Code>, s: Row, b: Row, j: nat): real
    requires RowShaped(q, s, b) && j < |q|
  {
    Real(q[j]) * s[j / GROUP] + b[j / GROUP]
  }

  /** `deq_gguf_side` */
  function DeqGguf(blocks: seq<Block>, j: nat): real
    requires j < QK * |blocks| && |blocks[j / QK].qs| == QK / 2
  {
    Real(Unpacked(blocks[j / QK].qs, j % QK)) * blocks[j / QK].d + blocks[j / QK].m
  }

  /** Every code of group `g` is zero. */
  predicate Silent(q: seq<Code>, g: nat)
    requires GROUP * g + GROUP <= |q|
  {
    forall j :: GROUP * g <= j < GROUP * g + GROUP ==> q[j] == 0
  }

  /** A scale that rounds off while some code uses it. */
  predicate BadScale(q: seq<Code>, s: Row, half: real -> real, g: nat)
    requires |q| == GROUP * |s| && g < |s|
  {
    half(s[g]) != s[g] && !Silent(q, g)
  }

  predicate BadBias(b: Row, half: real -> real, g: nat)
    requires g < |b|
  {
    half(b[g]) != b[g]
  }

  lemma BlockCodes(q: seq<Code>, s: Row, b: Row, half: real -> real, j: nat)
    requires RowShaped(q, s, b) && j < |q|
    ensures var block := PackRow(q, s, b, half)[j / QK];
            && |block.qs| == QK / 2 && Unpacked(block.qs, j % QK) == q[j]
            && block.d == half(s[j / GROUP]) && block.m == half(b[j / GROUP])
  {
    var bb := j / QK;
    var codes := q[QK * bb..QK * bb + QK];
    assert Small(codes);
    UnpackPack(codes, j % QK);
    assert codes[j % QK] == q[j] && bb / 2 == j / GROUP;
  }

  predicate Full(blocks: seq<Block>) {
    forall bb :: 0 <= bb < |blocks| ==> |blocks[bb].qs| == QK / 2
  }

  /** Code `at` of a row of packed blocks. */
  function CodeIn(blocks: seq<Block>, at: nat): Code
    requires Full(blocks) && at < QK * |blocks|
  {
    Unpacked(blocks[at / QK].qs, at % QK)
  }

  /** The packed blocks of a row hold its codes, in order. */
  lemma RowCodes(q: seq<Code>, s: Row, b: Row, half: real -> real, at: nat)
    requires RowShaped(q, s, b) && at < |q|
    ensures Full(PackRow(q, s, b, half)) && |q| == QK * |PackRow(q, s, b, half)|
    ensures CodeIn(PackRow(q, s, b, half), at) == q[at]
  {
    BlockCodes(q, s, b, half, at);
  }

  /** What packed blocks hold at codes `8 i` to `8 i + 7`. */
  function Reread(blocks: seq<Block>, i: nat): (codes: seq<Code>)
    requires Full(blocks) && 8 * i + 8 <= QK * |blocks|
    ensures |codes| == 8
  {
    seq(8, k requires 0 <= k < 8 => CodeIn(blocks, 8 * i + k))
  }

  lemma RereadIs(words: seq<bv32>, blocks: seq<Block>, i: nat)
    requires i < |words| && Full(blocks) && 8 * |words| == QK * |blocks|
    requires forall at :: 0 <= at < 8 * |words| ==> CodeIn(blocks, at) == Codes(words)[at]
    ensures Word(Reread(blocks, i)) == words[i]
  {
    var codes := Reread(blocks, i);
    forall k | 0 <= k < 8 ensures codes[k] == Nibble(words[i], k) {
      CodesAt(words, i, k);
      assert codes[k] == CodeIn(blocks, 8 * i + k);
    }
    WordOfNibbles(words[i], codes);
  }

  /** From the words of a row to its packed blocks and back: every word is what it was, in its place. */
  lemma RowSurvives(words: seq<bv32>, s: Row, b: Row, half: real -> real, i: nat)
    requires |words| == 8 * |s| && |b| == |s| && i < |words|
    ensures Full(PackRow(Codes(words), s, b, half)) && 8 * |words| == QK * |PackRow(Codes(words), s, b, half)|
    ensures Word(Reread(PackRow(Codes(words), s, b, half), i)) == words[i]
  {
    var q := Codes(words);
    var blocks := PackRow(q, s, b, half);
    RowCodes(q, s, b, half, 0);
    forall at | 0 <= at < 8 * |words| ensures CodeIn(blocks, at) == q[at] {
      RowCodes(q, s, b, half, at);
    }
    RereadIs(words, blocks, i);
  }

  /**
   Outside groups whose bias rounds off, or whose scale does with some code nonzero, both sides dequantise
   every element alike; a scale that rounds badly over all-zero codes changes nothing.
   */
  lemma SidesAgree(q: seq<Code>, s: Row, b: Row, half: real -> real, j: nat)
    requires RowShaped(q, s, b) && j < |q|
    requires !BadScale(q, s, half, j / GROUP) && !BadBias(b, half, j / GROUP)
    ensures |PackRow(q, s, b, half)[j / QK].qs| == QK / 2
    ensures DeqGguf(PackRow(q, s, b, half), j) == DeqMlx(q, s, b, j)
  {
    BlockCodes(q, s, b, half, j);
    var g := j / GROUP;
    if half(s[g]) != s[g] {
      assert Silent(q, g) && q[j] == 0;
      assert Real(q[j]) == 0.0;
    }
  }

  ghost predicate SameAt(q: seq<Code>, s: Row, b: Row, half: real -> real, j: nat)
    requires RowShaped(q, s, b) && j < |q|
  {
    var blocks := PackRow(q, s, b, half);
    |blocks[j / QK].qs| == QK / 2 && DeqGguf(blocks, j) == DeqMlx(q, s, b, j)
  }

  /** Code `x` with scale and bias rounded on the left and exact on the right. */
  predicate SameValue(x: real, u: real, v: real, m: real, n: real) {
    x * u + m == x * v + n
  }

  lemma SameMeans(q: seq<Code>, s: Row, b: Row, half: real -> real, g: nat, j: nat)
    requires RowShaped(q, s, b) && g < |s| && GROUP * g <= j < GROUP * g + GROUP
    ensures j < |q| && (SameAt(q, s, b, half, j) <==> SameValue(Real(q[j]), half(s[g]), s[g], half(b[g]), b[g]))
  {
    assert j / GROUP == g;
    BlockCodes(q, s, b, half, j);
  }

  /** Both sides agree at two codes only with the same scale and the same bias. */
  lemma TwoCodes(x: real, y: real, u: real, v: real, m: real, n: real)
    requires x != y && SameValue(x, u, v, m, n) && SameValue(y, u, v, m, n)
    ensures u == v && m == n
  {
    assert (x - y) * (u - v) == 0.0;
  }

  lemma CodesApart(c: Code, d: Code)
    requires c != d
    ensures Real(c) != Real(d)
  {
  }

  ghost predicate SameOver(q: seq<Code>, s: Row, b: Row, half: real -> real, g: nat)
    requires RowShaped(q, s, b) && g < |s|
  {
    forall k :: GROUP * g <= k < GROUP * g + GROUP ==> SameAt(q, s, b, half, k)
  }

  lemma DifferentShow(q: seq<Code>, s: Row, b: Row, half: real -> real, g: nat, i: nat, j: nat)
    requires RowShaped(q, s, b) && g < |s|
    requires GROUP * g <= i < GROUP * g + GROUP && GROUP * g <= j < GROUP * g + GROUP && q[i] != q[j]
    requires SameAt(q, s, b, half, i) && SameAt(q, s, b, half, j)
    ensures !BadScale(q, s, half, g) && !BadBias(b, half, g)
  {
    SameMeans(q, s, b, half, g, i);
    SameMeans(q, s, b, half, g, j);
    CodesApart(q[i], q[j]);
    TwoCodes(Real(q[i]), Real(q[j]), half(s[g]), s[g], half(b[g]), b[g]);
  }

  /** All codes of the group are the same. */
  predicate Uniform(q: seq<Code>, g: nat)
    requires GROUP * g + GROUP <= |q|
  {
    forall k :: GROUP * g <= k < GROUP * g + GROUP ==> q[k] == q[GROUP * g]
  }

  /** The roundings of scale and bias cancel at the one code of the group. */
  predicate Cancels(q: seq<Code>, s: Row, b: Row, half: real -> real, g: nat)
    requires RowShaped(q, s, b) && g < |s|
  {
    Uniform(q, g) && SameValue(Real(q[GROUP * g]), half(s[g]), s[g], half(b[g]), b[g])
  }

  lemma UniformSame(q: seq<Code>, s: Row, b: Row, half: real -> real, g: nat)
    requires RowShaped(q, s, b) && g < |s| && Uniform(q, g)
    ensures SameOver(q, s, b, half, g) <==> Cancels(q, s, b, half, g)
  {
    forall k | GROUP * g <= k < GROUP * g + GROUP
      ensures SameAt(q, s, b, half, k) <==> Cancels(q, s, b, half, g)
    {
      SameMeans(q, s, b, half, g, k);
    }
    assert SameOver(q, s, b, half, g) ==> SameAt(q, s, b, half, GROUP * g);
  }

  lemma GoodSame(q: seq<Code>, s: Row, b: Row, half: real -> real, g: nat)
    requires RowShaped(q, s, b) && g < |s| && !BadScale(q, s, half, g) && !BadBias(b, half, g)
    ensures SameOver(q, s, b, half, g)
  {
    forall k | GROUP * g <= k < GROUP * g + GROUP ensures SameAt(q, s, b, half, k) {
      assert k / GROUP == g;
      SidesAgree(q, s, b, half, k);
    }
  }

  /**
   Both sides differ somewhere in a group exactly when it is exempt, but for a group of one code at which the
   roundings cancel.
   */
  lemma ExemptExactly(q: seq<Code>, s: Row, b: Row, half: real -> real, g: nat)
    requires RowShaped(q, s, b) && g < |s|
    ensures !SameOver(q, s, b, half, g) <==>
            (BadScale(q, s, half, g) || BadBias(b, half, g)) && !Cancels(q, s, b, half, g)
  {
    if !BadScale(q, s, half, g) && !BadBias(b, half, g) {
      GoodSame(q, s, b, half, g);
    } else if Uniform(q, g) {
      UniformSame(q, s, b, half, g);
    } else if SameOver(q, s, b, half, g) {
      var k :| GROUP * g <= k < GROUP * g + GROUP && q[k] != q[GROUP * g];
      DifferentShow(q, s, b, half, g, k, GROUP * g);
    }
  }

  // ---- a matrix -------------------------------------------------------------------------------------

  datatype Matrix = Matrix(q: seq<seq<Code>>, s: seq<Row>, b: seq<Row>)

  predicate Shaped(x: Matrix, groups: nat) {
    && |x.q| == |x.s| == |x.b|
    && forall r :: 0 <= r < |x.q| ==> |x.s[r]| == groups && RowShaped(x.q[r], x.s[r], x.b[r])
  }

  predicate Bad(x: Matrix, groups: nat, half: real -> real, r: nat, g: nat)
    requires Shaped(x, groups) && r < |x.q| && g < groups
  {
    BadScale(x.q[r], x.s[r], half, g) || BadBias(x.b[r], half, g)
  }

  /** Group `g` of row `r` comes before group `g'` of row `r'` in the scan. */
  predicate Before(r: nat, g: nat, r': nat, g': nat) {
    r < r' || (r == r' && g < g')
  }

  /** The blocks exempted once the scan has reached group `gs` of row `rs`. */
  ghost predicate ExemptSoFar(x: Matrix, groups: nat, half: real -> real, exempt: set<(nat, nat)>, rs: nat, gs: nat)
    requires Shaped(x, groups)
  {
    forall r: nat, bb: nat ::
      (r, bb) in exempt <==>
      r < |x.q| && bb < 2 * groups && Before(r, bb / 2, rs, gs) && Bad(x, groups, half, r, bb / 2)
  }

  /** Add both blocks of a bad group. */
  method Exempt(x: Matrix, groups: nat, half: real -> real, exempt: set<(nat, nat)>, r: nat, g: nat)
    returns (more: set<(nat, nat)>)
    requires Shaped(x, groups) && r < |x.q| && g < groups && ExemptSoFar(x, groups, half, exempt, r, g)
    ensures ExemptSoFar(x, groups, half, more, r, g + 1)
  {
    more := exempt;
    if Bad(x, groups, half, r, g) {
      for bb := 2 * g to 2 * g + 2
        invariant forall p: (nat, nat) :: p in more <==> p in exempt || (p.0 == r && 2 * g <= p.1 < bb)
      {
        more := more + {(r, bb)};
      }
    }
  }

  /** `pack_q41_rows`: the blocks of every row, and the exempt blocks, two for each bad group and no other. */
  method PackQ41Rows(x: Matrix, groups: nat, half: real -> real) returns (blocks: seq<seq<Block>>, exempt: set<(nat, nat)>)
    requires Shaped(x, groups)
    ensures |blocks| == |x.q|
    ensures forall r :: 0 <= r < |x.q| ==> blocks[r] == PackRow(x.q[r], x.s[r], x.b[r], half)
    ensures forall r: nat, bb: nat ::
              (r, bb) in exempt <==> r < |x.q| && bb < 2 * groups && Bad(x, groups, half, r, bb / 2)
  {
    exempt, blocks := {}, [];
    for r := 0 to |x.q|
      invariant |blocks| == r && ExemptSoFar(x, groups, half, exempt, r, 0)
      invariant forall i :: 0 <= i < r ==> blocks[i] == PackRow(x.q[i], x.s[i], x.b[i], half)
    {
      blocks := blocks + [PackRow(x.q[r], x.s[r], x.b[r], half)];
      for g := 0 to groups
        invariant ExemptSoFar(x, groups, half, exempt, r, g)
      {
        exempt := Exempt(x, groups, half, exempt, r, g);
      }
    }
  }

  /** Outside the exempt blocks every element dequantises alike on both sides. */
  lemma AgreeOutsideExempt(x: Matrix, groups: nat, half: real -> real, exempt: set<(nat, nat)>, r: nat, j: nat)
    requires Shaped(x, groups) && r < |x.q| && j < |x.q[r]| && (r, j / QK) !in exempt
    requires forall i: nat, bb: nat ::
               (i, bb) in exempt <==> i < |x.q| && bb < 2 * groups && Bad(x, groups, half, i, bb / 2)
    ensures |PackRow(x.q[r], x.s[r], x.b[r], half)[j / QK].qs| == QK / 2
    ensures DeqGguf(PackRow(x.q[r], x.s[r], x.b[r], half), j) == DeqMlx(x.q[r], x.s[r], x.b[r], j)
  {
    var bb := j / QK;
    assert bb / 2 == j / GROUP;
    SidesAgree(x.q[r], x.s[r], x.b[r], half, j);
  }
}

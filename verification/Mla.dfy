/**
 The MLA attention of ios/Sources/Edge0MLX/StreamingMLADecoderBlock.swift: `selfAttention` for one
 token and `selfAttentionPrefill` for a chunk, over the growing key/value cache.
 Scores and projections of a single row are left uninterpreted; `weigh` stands for the exponential
 of the scaled query-key product, and softmax is the quotient of two sums.
 */
module Mla {
  import opened Common
  import opened Vectors
  import opened Machines

  datatype MlaBlock = MlaBlock(
    hidden: nat, heads: nat, valueDim: nat,
    qNope: Row -> Row, qRope: Row -> Row, kNope: Row -> Row, kRope: Row -> Row, valueOf: Row -> Row,
    rope: (Row, nat) -> Row, weigh: (nat, Row, Row) -> real, finish: (Row, seq<Row>) -> Row)

  /** Keys and values of every position so far; `None` before the first. */
  datatype MlaValue = MlaValue(keys: Option<seq<Row>>, values: Option<seq<Row>>, count: nat)

  ghost predicate ValidBlock(b: MlaBlock) {
    && (forall x :: |x| == b.hidden ==> |b.valueOf(x)| == b.heads * b.valueDim)
    && (forall x, r :: |x| == b.hidden ==> |b.finish(x, r)| == b.hidden)
  }

  predicate Widths(rows: seq<Row>, width: nat) {
    forall i :: 0 <= i < |rows| ==> |rows[i]| == width
  }

  predicate ValidValue(b: MlaBlock, s: MlaValue) {
    && (s.keys.Some? <==> s.values.Some?)
    && (s.keys.Some? ==> |s.keys.value| == |s.values.value| == s.count && Widths(s.values.value, b.heads * b.valueDim))
    && (s.keys.None? ==> s.count == 0)
  }

  function Rows(o: Option<seq<Row>>): seq<Row> {
    match o case Some(rows) => rows case None => []
  }

  function Query(b: MlaBlock, x: Row, position: nat): Row {
    b.qNope(x) + b.rope(b.qRope(x), position)
  }

  function Key(b: MlaBlock, x: Row, position: nat): Row {
    b.kNope(x) + b.rope(b.kRope(x), position)
  }

  // ---- attention over the first `n` positions -------------------------------------------------

  function Quotient(a: real, b: real): real {
    if b == 0.0 then 0.0 else a / b
  }

  function Weight(b: MlaBlock, h: nat, query: Row, keys: seq<Row>): int -> real {
    i => if 0 <= i < |keys| then b.weigh(h, query, keys[i]) else 0.0
  }

  function Weighted(b: MlaBlock, h: nat, query: Row, keys: seq<Row>, values: seq<Row>, c: nat): int -> real {
    i => if 0 <= i < |keys| && i < |values| && c < |values[i]| then b.weigh(h, query, keys[i]) * values[i][c] else 0.0
  }

  /** Softmax attention of one query with no mask, head by head. */
  function Attention(b: MlaBlock, query: Row, keys: seq<Row>, values: seq<Row>): seq<Row> {
    seq(b.heads, h requires 0 <= h < b.heads =>
          seq(b.valueDim, j requires 0 <= j < b.valueDim =>
                Quotient(Sum(|keys|, Weighted(b, h, query, keys, values, Channel(b, h, j))),
                         Sum(|keys|, Weight(b, h, query, keys)))))
  }

  function Channel(b: MlaBlock, h: nat, j: nat): (c: nat) {
    assert 0 <= h * b.valueDim by { if h > 0 && b.valueDim > 0 { assert h * b.valueDim >= 0; } }
    h * b.valueDim + j
  }

  lemma WeightedAt(b: MlaBlock, h: nat, query: Row, keys: seq<Row>, values: seq<Row>, c: nat, i: nat, score: real, x: real)
    requires i < |keys| == |values| && c < |values[i]| && score == b.weigh(h, query, keys[i]) && x == values[i][c]
    ensures Weighted(b, h, query, keys, values, c)(i) == score * x
  {
  }

  lemma WeightedTotal(b: MlaBlock, h: nat, query: Row, keys: seq<Row>, values: seq<Row>, c: nat, scores: Row, terms: Row)
    requires |keys| == |values| == |scores| == |terms|
    requires forall i :: 0 <= i < |keys| ==> scores[i] == b.weigh(h, query, keys[i])
    requires forall i :: 0 <= i < |keys| ==> c < |values[i]| && terms[i] == scores[i] * values[i][c]
    ensures Sum(|keys|, Weighted(b, h, query, keys, values, c)) == Total(terms)
  {
    forall i | 0 <= i < |keys| ensures terms[i] == Weighted(b, h, query, keys, values, c)(i) {
      WeightedAt(b, h, query, keys, values, c, i, scores[i], values[i][c]);
    }
    SumIsTotal(Weighted(b, h, query, keys, values, c), terms);
  }

  /** An entry of head `h` is the mean of its channel of the values, each weighed by its own key's score. */
  lemma AttentionIs(b: MlaBlock, query: Row, keys: seq<Row>, values: seq<Row>, h: nat, j: nat, c: nat, scores: Row, terms: Row)
    requires h < b.heads && j < b.valueDim && c == h * b.valueDim + j && |keys| == |values| == |scores| == |terms|
    requires forall i :: 0 <= i < |keys| ==> scores[i] == b.weigh(h, query, keys[i])
    requires forall i :: 0 <= i < |keys| ==> c < |values[i]| && terms[i] == scores[i] * values[i][c]
    ensures Attention(b, query, keys, values)[h][j] == if Total(scores) == 0.0 then 0.0 else Total(terms) / Total(scores)
  {
    assert Channel(b, h, j) == c;
    SumIsTotal(Weight(b, h, query, keys), scores);
    WeightedTotal(b, h, query, keys, values, c, scores, terms);
  }

  /** A masked position weighs nothing. */
  function Masked(visible: nat, f: int -> real): int -> real {
    i => if i < visible then f(i) else 0.0
  }

  /** Row `t` of `.causal` attention, aligned to the lower right: it sees all but the last T-1-t keys. */
  function CausalRow(b: MlaBlock, query: Row, keys: seq<Row>, values: seq<Row>, visible: nat): seq<Row> {
    seq(b.heads, h requires 0 <= h < b.heads =>
          seq(b.valueDim, j requires 0 <= j < b.valueDim =>
                Quotient(Sum(|keys|, Masked(visible, Weighted(b, h, query, keys, values, Channel(b, h, j)))),
                         Sum(|keys|, Masked(visible, Weight(b, h, query, keys))))))
  }

  /** The mask leaves exactly the attention a single token would have had at its turn. */
  lemma CausalIsPrefix(b: MlaBlock, query: Row, keys: seq<Row>, values: seq<Row>, visible: nat)
    requires visible <= |keys| == |values|
    ensures CausalRow(b, query, keys, values, visible) == Attention(b, query, keys[..visible], values[..visible])
  {
    var causal := CausalRow(b, query, keys, values, visible);
    var prefix := Attention(b, query, keys[..visible], values[..visible]);
    forall h | 0 <= h < b.heads ensures causal[h] == prefix[h] {
      forall j | 0 <= j < b.valueDim ensures causal[h][j] == prefix[h][j] {
        MaskedSums(b, h, query, keys, values, Channel(b, h, j), visible);
      }
      assert causal[h] == prefix[h];
    }
  }

  lemma MaskedSums(b: MlaBlock, h: nat, query: Row, keys: seq<Row>, values: seq<Row>, c: nat, visible: nat)
    requires visible <= |keys| == |values|
    ensures Sum(|keys|, Masked(visible, Weighted(b, h, query, keys, values, c))) ==
            Sum(visible, Weighted(b, h, query, keys[..visible], values[..visible], c))
    ensures Sum(|keys|, Masked(visible, Weight(b, h, query, keys))) == Sum(visible, Weight(b, h, query, keys[..visible]))
  {
    SumTail(visible, |keys|, Weighted(b, h, query, keys[..visible], values[..visible], c),
            Masked(visible, Weighted(b, h, query, keys, values, c)));
    SumTail(visible, |keys|, Weight(b, h, query, keys[..visible]), Masked(visible, Weight(b, h, query, keys)));
  }

  // ---- one token, and a chunk ---------------------------------------------------------------------

  /** `selfAttention` */
  function MlaStep(b: MlaBlock, s: MlaValue, x: Row): (r: (Row, MlaValue)) {
    var position := s.count;
    var keys := Rows(s.keys) + [Key(b, x, position)];
    var values := Rows(s.values) + [b.valueOf(x)];
    (b.finish(x, Attention(b, Query(b, x, position), keys, values)), MlaValue(Some(keys), Some(values), s.count + 1))
  }

  function MlaMachine(b: MlaBlock): Machine<MlaValue, Row, Row> {
    (s: MlaValue, x: Row) => (MlaStep(b, s, x).1, MlaStep(b, s, x).0)
  }

  function NewKeys(b: MlaBlock, xs: seq<Row>, start: nat): (r: seq<Row>)
    ensures |r| == |xs|
  {
    seq(|xs|, t requires 0 <= t < |xs| => Key(b, xs[t], start + t))
  }

  function NewValues(b: MlaBlock, xs: seq<Row>): (r: seq<Row>)
    ensures |r| == |xs|
  {
    seq(|xs|, t requires 0 <= t < |xs| => b.valueOf(xs[t]))
  }

  /** The cache after `t` tokens of a chunk. */
  function CacheAt(b: MlaBlock, s: MlaValue, xs: seq<Row>, t: nat): MlaValue
    requires t <= |xs|
  {
    if t == 0 then s
    else MlaValue(Some(Rows(s.keys) + NewKeys(b, xs, s.count)[..t]), Some(Rows(s.values) + NewValues(b, xs)[..t]),
                  s.count + t)
  }

  /** Row `t` of `selfAttentionPrefill`, over the cache already holding the whole chunk. */
  function CausalOut(b: MlaBlock, xs: seq<Row>, start: nat, keys: seq<Row>, values: seq<Row>, t: nat): Row
    requires t < |xs| <= |keys|
  {
    b.finish(xs[t], CausalRow(b, Query(b, xs[t], start + t), keys, values, |keys| - |xs| + t + 1))
  }

  function CausalOuts(b: MlaBlock, xs: seq<Row>, start: nat, keys: seq<Row>, values: seq<Row>): (r: seq<Row>)
    requires |xs| <= |keys|
    ensures |r| == |xs|
  {
    seq(|xs|, t requires 0 <= t < |xs| => CausalOut(b, xs, start, keys, values, t))
  }

  function ChunkRows(b: MlaBlock, s: MlaValue, xs: seq<Row>): (r: seq<Row>)
    ensures |r| == |xs|
  {
    CausalOuts(b, xs, s.count, Rows(s.keys) + NewKeys(b, xs, s.count), Rows(s.values) + NewValues(b, xs))
  }

  lemma ChunkTrace(b: MlaBlock, s: MlaValue, xs: seq<Row>, t: nat)
    requires ValidValue(b, s) && t < |xs|
    ensures MlaMachine(b)(CacheAt(b, s, xs, t), xs[t]) == (CacheAt(b, s, xs, t + 1), ChunkRows(b, s, xs)[t])
  {
    var keys, values := Rows(s.keys) + NewKeys(b, xs, s.count), Rows(s.values) + NewValues(b, xs);
    var before := CacheAt(b, s, xs, t);
    var visible := s.count + t + 1;
    assert Rows(before.keys) + [Key(b, xs[t], s.count + t)] == keys[..visible]
           == Rows(s.keys) + NewKeys(b, xs, s.count)[..t + 1];
    assert Rows(before.values) + [b.valueOf(xs[t])] == values[..visible]
           == Rows(s.values) + NewValues(b, xs)[..t + 1];
    CausalIsPrefix(b, Query(b, xs[t], s.count + t), keys, values, visible);
  }

  /** A chunk taken whole under the causal mask is the chunk taken token by token. */
  lemma ChunkIsSteps(b: MlaBlock, s: MlaValue, xs: seq<Row>)
    requires ValidValue(b, s)
    ensures Run(MlaMachine(b), s, xs) == (CacheAt(b, s, xs, |xs|), ChunkRows(b, s, xs))
  {
    var states := seq(|xs| + 1, t requires 0 <= t <= |xs| => CacheAt(b, s, xs, t));
    forall t | 0 <= t < |xs| ensures MlaMachine(b)(states[t], xs[t]) == (states[t + 1], ChunkRows(b, s, xs)[t]) {
      ChunkTrace(b, s, xs, t);
    }
    RunTraced(MlaMachine(b), xs, states, ChunkRows(b, s, xs));
  }

  // ---- the cache object -----------------------------------------------------------------------------

  class MlaKvCache {
    var keys: Option<seq<Row>>
    var values: Option<seq<Row>>
    var count: nat

    function Value(): MlaValue reads this {
      MlaValue(keys, values, count)
    }

    constructor ()
      ensures Value() == MlaValue(None, None, 0)
    {
      keys, values, count := None, None, 0;
    }

    method Reset()
      modifies this
      ensures Value() == MlaValue(None, None, 0)
    {
      keys, values, count := None, None, 0;
    }

    /** `append`: the caller gets all keys and values, old and new. */
    method Append(newKeys: seq<Row>, newValues: seq<Row>) returns (allKeys: seq<Row>, allValues: seq<Row>)
      requires |newKeys| == |newValues| && (keys.Some? <==> values.Some?)
      modifies this
      ensures allKeys == Rows(old(keys)) + newKeys && allValues == Rows(old(values)) + newValues
      ensures Value() == MlaValue(Some(allKeys), Some(allValues), old(count) + |newKeys|)
    {
      if keys.Some? && values.Some? {
        allKeys, allValues := keys.value + newKeys, values.value + newValues;
      } else {
        allKeys, allValues := newKeys, newValues;
      }
      keys, values := Some(allKeys), Some(allValues);
      count := count + |newKeys|;
    }

    method Attend(b: MlaBlock, x: Row, position: nat) returns (y: Row)
      requires ValidBlock(b) && ValidValue(b, Value()) && |x| == b.hidden && position == count
      modifies this
      ensures (Value(), y) == MlaMachine(b)(old(Value()), x)
      ensures keys == Some(Rows(old(keys)) + [b.kNope(x) + b.rope(b.kRope(x), position)])
      ensures values == Some(Rows(old(values)) + [b.valueOf(x)]) && count == old(count) + 1
      ensures y == b.finish(x, Attention(b, b.qNope(x) + b.rope(b.qRope(x), position), Rows(keys), Rows(values)))
      ensures |y| == b.hidden && ValidValue(b, Value())
    {
      var allKeys, allValues := Append([Key(b, x, position)], [b.valueOf(x)]);
      y := b.finish(x, Attention(b, Query(b, x, position), allKeys, allValues));
    }

    method AttendChunk(b: MlaBlock, xs: seq<Row>, position: nat) returns (ys: seq<Row>)
      requires ValidBlock(b) && ValidValue(b, Value()) && Widths(xs, b.hidden) && |xs| > 1 && position == count
      modifies this
      ensures (Value(), ys) == Run(MlaMachine(b), old(Value()), xs)
      ensures |ys| == |xs| && Widths(ys, b.hidden) && ValidValue(b, Value())
    {
      ghost var was := Value();
      ChunkIsSteps(b, was, xs);
      var newKeys, newValues := NewKeys(b, xs, position), NewValues(b, xs);
      assert newKeys[..|xs|] == newKeys && newValues[..|xs|] == newValues;
      var allKeys, allValues := Append(newKeys, newValues);
      ys := CausalOuts(b, xs, position, allKeys, allValues);
    }
  }
}

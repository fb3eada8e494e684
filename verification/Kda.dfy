/**
 The KDA attention of ios/Sources/Edge0MLX/StreamingKDADecoderBlock.swift: one token at a time
 (`convStep`, `kda`) and a whole chunk at a time (`convPrefill`, `kdaPrefill`).
 Projections, norms and gates act on each token's row alone and are left uninterpreted.
 */
module Kda {
  import opened Common
  import opened Indexing
  import opened Vectors
  import opened GatedDelta
  import opened Machines

  const KERNEL: nat := 4

  datatype KdaBlock = KdaBlock(
    heads: nat, dim: nat, hidden: nat,
    qProj: Row -> Row, kProj: Row -> Row, vProj: Row -> Row,
    qWeight: seq<Row>, kWeight: seq<Row>, vWeight: seq<Row>,
    sigmoid: real -> real, qScale: Row -> Row, kScale: Row -> Row,
    decay: Row -> Row, beta: Row -> Row, finish: (Row, Row) -> Row)

  /** The persistent part of a KDA layer; `None` stands for zeros not yet allocated. */
  datatype KdaValue = KdaValue(conv: Histories, recurrent: Option<seq<Row>>, count: nat)

  /** The last three projected rows of q, k and v. */
  datatype Histories = Histories(q: Option<seq<Row>>, k: Option<seq<Row>>, v: Option<seq<Row>>)

  function Channels(b: KdaBlock): nat {
    b.heads * b.dim
  }

  predicate Rows(rows: seq<Row>, n: nat, width: nat) {
    |rows| == n && forall i :: 0 <= i < n ==> |rows[i]| == width
  }

  ghost predicate ValidBlock(b: KdaBlock) {
    && b.heads > 0 && b.dim > 0 && b.dim % 32 == 0
    && Rows(b.qWeight, Channels(b), KERNEL) && Rows(b.kWeight, Channels(b), KERNEL)
    && Rows(b.vWeight, Channels(b), KERNEL)
    && (forall x :: |x| == b.hidden ==> |b.qProj(x)| == Channels(b))
    && (forall x :: |x| == b.hidden ==> |b.kProj(x)| == Channels(b))
    && (forall x :: |x| == b.hidden ==> |b.vProj(x)| == Channels(b))
    && (forall x :: |x| == b.hidden ==> |b.decay(x)| == Channels(b))
    && (forall x :: |x| == b.hidden ==> |b.beta(x)| == b.heads)
    && (forall r :: |r| == Channels(b) ==> |b.qScale(r)| == Channels(b))
    && (forall r :: |r| == Channels(b) ==> |b.kScale(r)| == Channels(b))
    && (forall x, r :: |x| == b.hidden && |r| == Channels(b) ==> |b.finish(x, r)| == b.hidden)
  }

  predicate ValidHistory(h: Option<seq<Row>>, channels: nat) {
    h.Some? ==> Rows(h.value, KERNEL - 1, channels)
  }

  predicate ValidHistories(b: KdaBlock, h: Histories) {
    ValidHistory(h.q, Channels(b)) && ValidHistory(h.k, Channels(b)) && ValidHistory(h.v, Channels(b))
  }

  predicate ValidValue(b: KdaBlock, s: KdaValue) {
    && ValidHistories(b, s.conv)
    && (s.recurrent.Some? ==> Rows(s.recurrent.value, Channels(b), b.dim))
  }

  function Zeros(n: nat, width: nat): (r: seq<Row>)
    ensures Rows(r, n, width)
  {
    seq(n, i requires 0 <= i < n => seq(width, j requires 0 <= j < width => 0.0))
  }

  function History(h: Option<seq<Row>>, channels: nat): (r: seq<Row>)
    requires ValidHistory(h, channels)
    ensures Rows(r, KERNEL - 1, channels)
  {
    match h case Some(rows) => rows case None => Zeros(KERNEL - 1, channels)
  }

  function Cells(b: KdaBlock, s: KdaValue): (r: seq<Row>)
    requires ValidValue(b, s)
    ensures Rows(r, Channels(b), b.dim)
  {
    match s.recurrent case Some(cells) => cells case None => Zeros(Channels(b), b.dim)
  }

  // ---- the short convolution --------------------------------------------------------------

  function Activated(b: KdaBlock, row: Row): (r: Row)
    ensures |r| == |row|
  {
    seq(|row|, c requires 0 <= c < |row| => row[c] * b.sigmoid(row[c]))
  }

  /** `(window * kernel).sum(axis: 0)`. */
  function WindowSum(window: seq<Row>, weight: seq<Row>, channels: nat): (r: Row)
    requires Rows(window, KERNEL, channels) && Rows(weight, channels, KERNEL)
    ensures |r| == channels
  {
    seq(channels, c requires 0 <= c < channels =>
          window[0][c] * weight[c][0] + window[1][c] * weight[c][1] + window[2][c] * weight[c][2]
          + window[3][c] * weight[c][3])
  }

  function ConvStep(b: KdaBlock, x: Row, weight: seq<Row>, h: Option<seq<Row>>): (r: (Row, Option<seq<Row>>))
    requires Rows(weight, Channels(b), KERNEL) && ValidHistory(h, Channels(b)) && |x| == Channels(b)
    ensures |r.0| == Channels(b) && r.1.Some? && ValidHistory(r.1, Channels(b))
  {
    var window := History(h, Channels(b)) + [x];
    (Activated(b, WindowSum(window, weight, Channels(b))), Some(window[1..]))
  }

  /** An entry is the gated sum down its own channel of the remembered rows and the new one; the window slides by one. */
  lemma ConvStepIs(b: KdaBlock, x: Row, weight: seq<Row>, h: Option<seq<Row>>, window: seq<Row>, c: nat,
                   terms: Row, total: real)
    requires Rows(weight, Channels(b), KERNEL) && ValidHistory(h, Channels(b)) && |x| == Channels(b) && c < Channels(b)
    requires Rows(window, KERNEL, Channels(b)) && window == History(h, Channels(b)) + [x] && |terms| == KERNEL
    requires forall j :: 0 <= j < KERNEL ==> terms[j] == window[j][c] * weight[c][j]
    requires total == Total(terms)
    ensures ConvStep(b, x, weight, h).0[c] == total * b.sigmoid(total)
    ensures ConvStep(b, x, weight, h).1 == Some(window[1..])
  {
    TotalOfFour(terms);
    WindowSumAt(window, weight, Channels(b), c, terms);
    ActivatedAt(b, WindowSum(window, weight, Channels(b)), c, total);
  }

  lemma WindowSumAt(window: seq<Row>, weight: seq<Row>, channels: nat, c: nat, terms: Row)
    requires Rows(window, KERNEL, channels) && Rows(weight, channels, KERNEL) && c < channels && |terms| == KERNEL
    requires forall j :: 0 <= j < KERNEL ==> terms[j] == window[j][c] * weight[c][j]
    ensures WindowSum(window, weight, channels)[c] == terms[0] + terms[1] + terms[2] + terms[3]
  {
  }

  lemma ActivatedAt(b: KdaBlock, row: Row, c: nat, x: real)
    requires c < |row| && x == row[c]
    ensures Activated(b, row)[c] == x * b.sigmoid(x)
  {
  }

  lemma TotalOfFour(terms: Row)
    requires |terms| == 4
    ensures Total(terms) == terms[0] + terms[1] + terms[2] + terms[3]
  {
    assert terms[3..] == [terms[3]] && Total([]) == 0.0;
    assert terms[2..][1..] == terms[3..];
    assert terms[1..][1..] == terms[2..];
    assert Total(terms[3..]) == terms[3];
    assert Total(terms[2..]) == terms[2] + terms[3];
  }

  function ConvTerm(input: seq<Row>, weight: seq<Row>, t: nat, c: nat): int -> real {
    j => if 0 <= j < KERNEL && t + j < |input| && c < |input[t + j]| && c < |weight| && j < |weight[c]|
         then input[t + j][c] * weight[c][j] else 0.0
  }

  /** Row `t` of `conv1d` with one group per channel and no padding. */
  function Conv1dRow(input: seq<Row>, weight: seq<Row>, channels: nat, t: nat): (r: Row)
    ensures |r| == channels
  {
    seq(channels, c requires 0 <= c < channels => Sum(KERNEL, ConvTerm(input, weight, t, c)))
  }

  /** All rows of a chunk at once, and the last three rows of the input for the next one. */
  function ConvPrefill(b: KdaBlock, xs: seq<Row>, weight: seq<Row>, h: Option<seq<Row>>)
    : (r: (seq<Row>, Option<seq<Row>>))
    requires Rows(weight, Channels(b), KERNEL) && ValidHistory(h, Channels(b)) && Rows(xs, |xs|, Channels(b))
    ensures Rows(r.0, |xs|, Channels(b)) && r.1.Some? && ValidHistory(r.1, Channels(b))
  {
    var input := History(h, Channels(b)) + xs;
    (seq(|xs|, t requires 0 <= t < |xs| => Activated(b, Conv1dRow(input, weight, Channels(b), t))),
     Some(input[|input| - (KERNEL - 1)..]))
  }

  /** The history after stepping through `xs`. */
  function ConvSteps(b: KdaBlock, xs: seq<Row>, weight: seq<Row>, h: Option<seq<Row>>): (r: Option<seq<Row>>)
    requires Rows(weight, Channels(b), KERNEL) && ValidHistory(h, Channels(b)) && Rows(xs, |xs|, Channels(b))
    ensures ValidHistory(r, Channels(b))
  {
    if xs == [] then h
    else ConvStep(b, xs[|xs| - 1], weight, ConvSteps(b, xs[..|xs| - 1], weight, h)).1
  }

  lemma WindowSumIsConv(input: seq<Row>, weight: seq<Row>, channels: nat, t: nat)
    requires t + KERNEL <= |input| && Rows(input, |input|, channels) && Rows(weight, channels, KERNEL)
    ensures WindowSum(input[t..t + KERNEL], weight, channels) == Conv1dRow(input, weight, channels, t)
  {
    forall c | 0 <= c < channels
      ensures WindowSum(input[t..t + KERNEL], weight, channels)[c] == Sum(KERNEL, ConvTerm(input, weight, t, c))
    {
      var f := ConvTerm(input, weight, t, c);
      assert Sum(KERNEL, f) == f(0) + f(1) + f(2) + f(3) by {
        assert Sum(1, f) == f(0);
        assert Sum(2, f) == Sum(1, f) + f(1);
        assert Sum(3, f) == Sum(2, f) + f(2);
      }
    }
  }

  lemma {:induction false} HistorySlides(b: KdaBlock, xs: seq<Row>, weight: seq<Row>, h: Option<seq<Row>>)
    requires Rows(weight, Channels(b), KERNEL) && ValidHistory(h, Channels(b)) && Rows(xs, |xs|, Channels(b))
    ensures var input := History(h, Channels(b)) + xs;
            History(ConvSteps(b, xs, weight, h), Channels(b)) == input[|xs|..]
  {
    if xs != [] {
      var n := |xs| - 1;
      HistorySlides(b, xs[..n], weight, h);
      var input, before := History(h, Channels(b)) + xs, History(h, Channels(b)) + xs[..n];
      assert before[n..] + [xs[n]] == input[n..];
      assert input[n..][1..] == input[n + 1..];
    }
  }

  lemma ConvRowIsStep(b: KdaBlock, xs: seq<Row>, weight: seq<Row>, h: Option<seq<Row>>, t: nat)
    requires Rows(weight, Channels(b), KERNEL) && ValidHistory(h, Channels(b)) && Rows(xs, |xs|, Channels(b)) && t < |xs|
    ensures Conv1dRow(History(h, Channels(b)) + xs, weight, Channels(b), t) ==
            WindowSum(History(ConvSteps(b, xs[..t], weight, h), Channels(b)) + [xs[t]], weight, Channels(b))
  {
    var input := History(h, Channels(b)) + xs;
    HistorySlides(b, xs[..t], weight, h);
    assert (History(h, Channels(b)) + xs[..t])[t..] + [xs[t]] == input[t..t + KERNEL];
    WindowSumIsConv(input, weight, Channels(b), t);
  }

  /** A chunk convolved at once is the chunk convolved token by token: every row, and the history. */
  lemma ConvPrefillIsSteps(b: KdaBlock, xs: seq<Row>, weight: seq<Row>, h: Option<seq<Row>>)
    requires Rows(weight, Channels(b), KERNEL) && ValidHistory(h, Channels(b)) && Rows(xs, |xs|, Channels(b))
    ensures forall t :: 0 <= t < |xs| ==>
              ConvPrefill(b, xs, weight, h).0[t] == ConvStep(b, xs[t], weight, ConvSteps(b, xs[..t], weight, h)).0
    ensures xs != [] ==> ConvPrefill(b, xs, weight, h).1 == ConvSteps(b, xs, weight, h)
  {
    forall t | 0 <= t < |xs|
      ensures ConvPrefill(b, xs, weight, h).0[t] == ConvStep(b, xs[t], weight, ConvSteps(b, xs[..t], weight, h)).0
    {
      ConvRowIsStep(b, xs, weight, h, t);
    }
    HistorySlides(b, xs, weight, h);
  }

  // ---- the recurrence, over the cells of the state --------------------------------------------

  /** What the convolutions and gates make of one token: rows over channels, and one beta a head. */
  datatype Token = Token(q: Row, k: Row, v: Row, g: Row, beta: Row)

  predicate ValidToken(tok: Token, heads: nat, dim: nat) {
    && |tok.q| == |tok.k| == |tok.v| == |tok.g| == heads * dim && |tok.beta| == heads
  }

  predicate ValidTokens(toks: seq<Token>, heads: nat, dim: nat) {
    forall t :: 0 <= t < |toks| ==> ValidToken(toks[t], heads, dim)
  }

  /** The head a state cell belongs to. */
  function HeadOf(c: nat, heads: nat, dim: nat): (h: nat)
    requires dim > 0 && c < heads * dim
    ensures h < heads && h * dim <= c < h * dim + dim <= heads * dim
  {
    var h := c / dim;
    assert h < heads by {
      if h >= heads {
        Within(heads - 1, heads, dim);
        assert h * dim == heads * dim + (h - heads) * dim;
        Product(h - heads, dim);
        assert false;
      }
    }
    Within(h, heads, dim);
    h
  }

  function TokenFeed(tok: Token, heads: nat, dim: nat, c: nat): (f: Feed)
    requires dim > 0 && ValidToken(tok, heads, dim) && c < heads * dim
    ensures Fits(f, dim)
  {
    var h := HeadOf(c, heads, dim);
    Feed(tok.q[h * dim..h * dim + dim], tok.k[h * dim..h * dim + dim], tok.g[h * dim..h * dim + dim],
         tok.v[c], tok.beta[h])
  }

  function Moved(cells: seq<Row>, tok: Token, heads: nat, dim: nat): (r: seq<Row>)
    requires dim > 0 && ValidToken(tok, heads, dim) && Rows(cells, heads * dim, dim)
    ensures Rows(r, heads * dim, dim)
  {
    seq(|cells|, c requires 0 <= c < |cells| => RowState(cells[c], TokenFeed(tok, heads, dim, c)))
  }

  function Outputs(cells: seq<Row>, tok: Token, heads: nat, dim: nat): (r: Row)
    requires dim > 0 && ValidToken(tok, heads, dim) && Rows(cells, heads * dim, dim)
    ensures |r| == heads * dim
  {
    seq(|cells|, c requires 0 <= c < |cells| => RowOutput(cells[c], TokenFeed(tok, heads, dim, c)))
  }

  function MovedAll(cells: seq<Row>, toks: seq<Token>, heads: nat, dim: nat): (r: seq<Row>)
    requires dim > 0 && ValidTokens(toks, heads, dim) && Rows(cells, heads * dim, dim)
    ensures Rows(r, heads * dim, dim)
  {
    if toks == [] then cells
    else Moved(MovedAll(cells, toks[..|toks| - 1], heads, dim), toks[|toks| - 1], heads, dim)
  }

  function CellFeeds(toks: seq<Token>, heads: nat, dim: nat, c: nat): (fs: seq<Feed>)
    requires dim > 0 && ValidTokens(toks, heads, dim) && c < heads * dim
    ensures |fs| == |toks| && AllFit(fs, dim)
  {
    seq(|toks|, t requires 0 <= t < |toks| => TokenFeed(toks[t], heads, dim, c))
  }

  /** All cells token by token is each cell over all tokens. */
  lemma {:induction false} CellsApart(cells: seq<Row>, toks: seq<Token>, heads: nat, dim: nat, c: nat)
    requires dim > 0 && ValidTokens(toks, heads, dim) && Rows(cells, heads * dim, dim) && c < heads * dim
    ensures MovedAll(cells, toks, heads, dim)[c] == RunState(cells[c], CellFeeds(toks, heads, dim, c))
  {
    if toks != [] {
      var front := toks[..|toks| - 1];
      CellsApart(cells, front, heads, dim, c);
      assert CellFeeds(toks, heads, dim, c)[..|toks| - 1] == CellFeeds(front, heads, dim, c);
    }
  }

  lemma OutputsApart(cells: seq<Row>, toks: seq<Token>, heads: nat, dim: nat, c: nat, t: nat)
    requires dim > 0 && ValidTokens(toks, heads, dim) && Rows(cells, heads * dim, dim) && c < heads * dim && t < |toks|
    ensures Outputs(MovedAll(cells, toks[..t], heads, dim), toks[t], heads, dim)[c] ==
            RunOutput(cells[c], CellFeeds(toks, heads, dim, c), t)
  {
    CellsApart(cells, toks[..t], heads, dim, c);
    assert CellFeeds(toks, heads, dim, c)[..t] == CellFeeds(toks[..t], heads, dim, c);
  }

  // ---- the tensors handed to the kernel ---------------------------------------------------------

  function Flat(rows: seq<Row>, width: nat): (r: Row)
    requires width > 0 && Rows(rows, |rows|, width)
    ensures |r| == |rows| * width
  {
    Product(|rows|, width);
    seq(|rows| * width, i requires 0 <= i < |rows| * width => rows[HeadOf(i, |rows|, width)][i % width])
  }

  lemma FlatAt(rows: seq<Row>, width: nat, t: nat, r: nat)
    requires width > 0 && Rows(rows, |rows|, width) && t < |rows| && r < width
    ensures 0 <= t * width + r < |Flat(rows, width)| && Flat(rows, width)[t * width + r] == rows[t][r]
  {
    Within(t, |rows|, width);
    Split(t, r, width);
  }

  function Packed(toks: seq<Token>, cells: seq<Row>, heads: nat, dim: nat): Tensors
    requires heads > 0 && dim > 0 && heads * dim > 0 && ValidTokens(toks, heads, dim) && Rows(cells, heads * dim, dim)
  {
    var n := |toks|;
    var channels := heads * dim;
    Tensors(1, n, heads, heads, dim, dim,
            Flat(seq(n, t requires 0 <= t < n => toks[t].q), channels),
            Flat(seq(n, t requires 0 <= t < n => toks[t].k), channels),
            Flat(seq(n, t requires 0 <= t < n => toks[t].g), channels),
            Flat(seq(n, t requires 0 <= t < n => toks[t].v), channels),
            Flat(seq(n, t requires 0 <= t < n => toks[t].beta), heads),
            Flat(cells, dim))
  }

  lemma HeadStart(t: nat, h: nat, heads: nat, dim: nat)
    ensures (t * heads + h) * dim == t * (heads * dim) + h * dim
    ensures t * (heads * dim) == t * heads * dim
  {
    assert (t * heads + h) * dim == t * heads * dim + h * dim;
  }

  lemma FlatSlice(rows: seq<Row>, heads: nat, dim: nat, t: nat, h: nat)
    requires heads > 0 && dim > 0 && heads * dim > 0 && Rows(rows, |rows|, heads * dim) && t < |rows| && h < heads
    ensures var flat := Flat(rows, heads * dim);
            && |flat| == |rows| * heads * dim && At(t, h, |rows|, heads) < |rows| * heads
            && 0 <= h * dim && h * dim + dim <= heads * dim
            && Slice(flat, At(t, h, |rows|, heads), |rows| * heads, dim) == rows[t][h * dim..h * dim + dim]
  {
    var flat := Flat(rows, heads * dim);
    HeadStart(|rows|, h, heads, dim);
    HeadStart(t, h, heads, dim);
    Within(h, heads, dim);
    Product(h, dim);
    var at := At(t, h, |rows|, heads);
    Within(at, |rows| * heads, dim);
    forall j | 0 <= j < dim
      ensures Slice(flat, at, |rows| * heads, dim)[j] == rows[t][h * dim + j]
    {
      FlatAt(rows, heads * dim, t, h * dim + j);
    }
  }

  lemma KeyHeadSame(x: Tensors, h: nat)
    requires Shaped(x) && h < x.Hv && x.Hk == x.Hv
    ensures KeyHead(x, h) == h
  {
  }

  lemma PackedShaped(toks: seq<Token>, cells: seq<Row>, heads: nat, dim: nat)
    requires heads > 0 && dim > 0 && dim % 32 == 0 && heads * dim > 0
    requires ValidTokens(toks, heads, dim) && Rows(cells, heads * dim, dim)
    ensures Shaped(Packed(toks, cells, heads, dim))
  {
    HeadStart(|toks|, 0, heads, dim);
  }

  /** The kernel's flat reads for a cell are that cell's share of the token rows. */
  lemma PackedFeed(toks: seq<Token>, cells: seq<Row>, heads: nat, dim: nat, h: nat, dv: nat, t: nat)
    requires heads > 0 && dim > 0 && dim % 32 == 0 && heads * dim > 0
    requires ValidTokens(toks, heads, dim) && Rows(cells, heads * dim, dim)
    requires h < heads && dv < dim && t < |toks|
    ensures Shaped(Packed(toks, cells, heads, dim))
    ensures At(h, dv, heads, dim) < heads * dim
    ensures FeedAt(Packed(toks, cells, heads, dim), 0, h, dv, t) == TokenFeed(toks[t], heads, dim, At(h, dv, heads, dim))
  {
    PackedShaped(toks, cells, heads, dim);
    var x := Packed(toks, cells, heads, dim);
    var n, c := |toks|, At(h, dv, heads, dim);
    Split(h, dv, dim);
    assert HeadOf(c, heads, dim) == h;
    KeyHeadSame(x, h);
    assert KeyAt(x, 0, h, t) == ValueAt(x, 0, h, t) == At(t, h, n, heads);
    FlatSlice(seq(n, i requires 0 <= i < n => toks[i].q), heads, dim, t, h);
    FlatSlice(seq(n, i requires 0 <= i < n => toks[i].k), heads, dim, t, h);
    FlatSlice(seq(n, i requires 0 <= i < n => toks[i].g), heads, dim, t, h);
    FlatAt(seq(n, i requires 0 <= i < n => toks[i].beta), heads, t, h);
    HeadStart(t, h, heads, dim);
    FlatAt(seq(n, i requires 0 <= i < n => toks[i].v), heads * dim, t, c);
  }

  lemma FlatRow(rows: seq<Row>, width: nat, i: nat)
    requires width > 0 && Rows(rows, |rows|, width) && i < |rows|
    ensures Slice(Flat(rows, width), i, |rows|, width) == rows[i]
  {
    forall j | 0 <= j < width ensures Slice(Flat(rows, width), i, |rows|, width)[j] == rows[i][j] {
      Within(i, |rows|, width);
      FlatAt(rows, width, i, j);
    }
  }

  lemma PackedState(toks: seq<Token>, cells: seq<Row>, heads: nat, dim: nat, h: nat, dv: nat)
    requires heads > 0 && dim > 0 && dim % 32 == 0 && heads * dim > 0
    requires ValidTokens(toks, heads, dim) && Rows(cells, heads * dim, dim) && h < heads && dv < dim
    ensures Shaped(Packed(toks, cells, heads, dim))
    ensures At(h, dv, heads, dim) < heads * dim
    ensures StateRow(Packed(toks, cells, heads, dim), 0, h, dv) == cells[At(h, dv, heads, dim)]
  {
    PackedShaped(toks, cells, heads, dim);
    var x := Packed(toks, cells, heads, dim);
    var c := At(h, dv, heads, dim);
    assert At(At(0, h, 1, heads), dv, heads, dim) == c;
    FlatRow(cells, dim, c);
  }

  // ---- one token ------------------------------------------------------------------------------

  function Prepared(b: KdaBlock, q: Row, k: Row, v: Row, x: Row): Token {
    Token(b.qScale(q), b.kScale(k), v, b.decay(x), b.beta(x))
  }

  /** The three convolutions of one token. */
  function ConvToken(b: KdaBlock, h: Histories, x: Row): (r: (Token, Histories))
    requires ValidBlock(b) && ValidHistories(b, h) && |x| == b.hidden
    ensures ValidToken(r.0, b.heads, b.dim) && ValidHistories(b, r.1)
  {
    var q := ConvStep(b, b.qProj(x), b.qWeight, h.q);
    var k := ConvStep(b, b.kProj(x), b.kWeight, h.k);
    var v := ConvStep(b, b.vProj(x), b.vWeight, h.v);
    (Prepared(b, q.0, k.0, v.0, x), Histories(q.1, k.1, v.1))
  }

  /** `kda`: attention of one token, and the value the cache is left with. */
  function KdaStep(b: KdaBlock, s: KdaValue, x: Row): (r: (Row, KdaValue))
    requires ValidBlock(b) && ValidValue(b, s) && |x| == b.hidden
    ensures |r.0| == b.hidden && ValidValue(b, r.1)
  {
    var c := ConvToken(b, s.conv, x);
    (b.finish(x, Outputs(Cells(b, s), c.0, b.heads, b.dim)),
     KdaValue(c.1, Some(Moved(Cells(b, s), c.0, b.heads, b.dim)), s.count + 1))
  }

  /** Cell `d` of head `h` is fed its head's stretch of q, k and the decay, its own v, and its head's beta. */
  lemma FeedIs(tok: Token, heads: nat, dim: nat, h: nat, d: nat, c: nat)
    requires dim > 0 && ValidToken(tok, heads, dim) && h < heads && d < dim && c == h * dim + d
    ensures c < heads * dim && 0 <= h * dim <= h * dim + dim <= heads * dim
    ensures TokenFeed(tok, heads, dim, c) ==
            Feed(tok.q[h * dim..h * dim + dim], tok.k[h * dim..h * dim + dim], tok.g[h * dim..h * dim + dim],
                 tok.v[c], tok.beta[h])
  {
    Within(h, heads, dim);
    Split(h, d, dim);
  }

  /**
   One token: q and k are convolved, then scaled, v only convolved; every cell moves by the gated delta rule
   and is read out for the final projection, and the three windows slide.
   */
  lemma KdaStepIs(b: KdaBlock, s: KdaValue, x: Row, tok: Token, outputs: Row)
    requires ValidBlock(b) && ValidValue(b, s) && |x| == b.hidden
    requires tok.q == b.qScale(ConvStep(b, b.qProj(x), b.qWeight, s.conv.q).0)
    requires tok.k == b.kScale(ConvStep(b, b.kProj(x), b.kWeight, s.conv.k).0)
    requires tok.v == ConvStep(b, b.vProj(x), b.vWeight, s.conv.v).0
    requires tok.g == b.decay(x) && tok.beta == b.beta(x) && |outputs| == Channels(b)
    requires forall c :: 0 <= c < Channels(b) ==>
               outputs[c] == RowOutput(Cells(b, s)[c], TokenFeed(tok, b.heads, b.dim, c))
    ensures KdaStep(b, s, x).0 == b.finish(x, outputs)
    ensures var after := KdaStep(b, s, x).1;
            && after.recurrent.Some? && |after.recurrent.value| == Channels(b) && after.count == s.count + 1
            && (forall c :: 0 <= c < Channels(b) ==>
                  after.recurrent.value[c] == RowState(Cells(b, s)[c], TokenFeed(tok, b.heads, b.dim, c)))
            && after.conv.q == ConvStep(b, b.qProj(x), b.qWeight, s.conv.q).1
            && after.conv.k == ConvStep(b, b.kProj(x), b.kWeight, s.conv.k).1
            && after.conv.v == ConvStep(b, b.vProj(x), b.vWeight, s.conv.v).1
  {
    assert Outputs(Cells(b, s), tok, b.heads, b.dim) == outputs;
  }

  /** The layer's attention as a machine over tokens. */
  ghost function KdaMachine(b: KdaBlock): Machine<KdaValue, Row, Row> {
    (s: KdaValue, x: Row) =>
      if ValidBlock(b) && ValidValue(b, s) && |x| == b.hidden then (KdaStep(b, s, x).1, KdaStep(b, s, x).0) else (s, x)
  }

  // ---- a chunk of tokens ----------------------------------------------------------------------

  function Projected(f: Row -> Row, xs: seq<Row>): (r: seq<Row>)
    ensures |r| == |xs|
  {
    seq(|xs|, t requires 0 <= t < |xs| => f(xs[t]))
  }

  ghost predicate Widens(f: Row -> Row, from: nat, to: nat) {
    forall x :: |x| == from ==> |f(x)| == to
  }

  /** One convolution over a chunk, from the rows before projection. */
  function ChunkConv(b: KdaBlock, f: Row -> Row, weight: seq<Row>, h: Option<seq<Row>>, xs: seq<Row>)
    : (r: (seq<Row>, Option<seq<Row>>))
    requires Rows(weight, Channels(b), KERNEL) && ValidHistory(h, Channels(b))
    requires Widens(f, b.hidden, Channels(b)) && Rows(xs, |xs|, b.hidden)
    ensures Rows(r.0, |xs|, Channels(b)) && r.1.Some? && ValidHistory(r.1, Channels(b))
  {
    ConvPrefill(b, Projected(f, xs), weight, h)
  }

  /** The tokens of a chunk as the three chunk-wide convolutions prepare them, and the histories left. */
  function Chunk(b: KdaBlock, h: Histories, xs: seq<Row>): (r: (seq<Token>, Histories))
    requires ValidBlock(b) && ValidHistories(b, h) && Rows(xs, |xs|, b.hidden)
    ensures |r.0| == |xs| && ValidTokens(r.0, b.heads, b.dim) && ValidHistories(b, r.1)
  {
    var q := ChunkConv(b, b.qProj, b.qWeight, h.q, xs);
    var k := ChunkConv(b, b.kProj, b.kWeight, h.k, xs);
    var v := ChunkConv(b, b.vProj, b.vWeight, h.v, xs);
    (seq(|xs|, t requires 0 <= t < |xs| => Prepared(b, q.0[t], k.0[t], v.0[t], xs[t])),
     Histories(q.1, k.1, v.1))
  }

  function HistorySteps(b: KdaBlock, f: Row -> Row, weight: seq<Row>, h: Option<seq<Row>>, xs: seq<Row>)
    : (r: Option<seq<Row>>)
    requires Rows(weight, Channels(b), KERNEL) && ValidHistory(h, Channels(b))
    requires Widens(f, b.hidden, Channels(b)) && Rows(xs, |xs|, b.hidden)
    ensures ValidHistory(r, Channels(b))
  {
    ConvSteps(b, Projected(f, xs), weight, h)
  }

  lemma ChunkConvIsSteps(b: KdaBlock, f: Row -> Row, weight: seq<Row>, h: Option<seq<Row>>, xs: seq<Row>, t: nat)
    requires Rows(weight, Channels(b), KERNEL) && ValidHistory(h, Channels(b))
    requires Widens(f, b.hidden, Channels(b)) && Rows(xs, |xs|, b.hidden) && t < |xs|
    ensures ChunkConv(b, f, weight, h, xs).0[t] ==
            ConvStep(b, f(xs[t]), weight, HistorySteps(b, f, weight, h, xs[..t])).0
    ensures ChunkConv(b, f, weight, h, xs).1 == HistorySteps(b, f, weight, h, xs)
  {
    assert Projected(f, xs[..t]) == Projected(f, xs)[..t];
    ConvPrefillIsSteps(b, Projected(f, xs), weight, h);
  }

  lemma HistoryStep(b: KdaBlock, f: Row -> Row, weight: seq<Row>, h: Option<seq<Row>>, xs: seq<Row>)
    requires Rows(weight, Channels(b), KERNEL) && ValidHistory(h, Channels(b))
    requires Widens(f, b.hidden, Channels(b)) && Rows(xs, |xs|, b.hidden)
    ensures xs == [] ==> HistorySteps(b, f, weight, h, xs) == h
    ensures var n := |xs| - 1;
            n >= 0 ==> HistorySteps(b, f, weight, h, xs) ==
                       ConvStep(b, f(xs[n]), weight, HistorySteps(b, f, weight, h, xs[..n])).1
  {
    if xs != [] {
      assert Projected(f, xs[..|xs| - 1]) == Projected(f, xs)[..|xs| - 1];
    }
  }

  /** The three histories after stepping through `xs`. */
  function After(b: KdaBlock, h: Histories, xs: seq<Row>): (r: Histories)
    requires ValidBlock(b) && ValidHistories(b, h) && Rows(xs, |xs|, b.hidden)
    ensures ValidHistories(b, r)
  {
    Histories(HistorySteps(b, b.qProj, b.qWeight, h.q, xs), HistorySteps(b, b.kProj, b.kWeight, h.k, xs),
              HistorySteps(b, b.vProj, b.vWeight, h.v, xs))
  }

  lemma AfterStep(b: KdaBlock, h: Histories, xs: seq<Row>)
    requires ValidBlock(b) && ValidHistories(b, h) && Rows(xs, |xs|, b.hidden)
    ensures xs == [] ==> After(b, h, xs) == h
    ensures var n := |xs| - 1; n >= 0 ==> After(b, h, xs) == ConvToken(b, After(b, h, xs[..n]), xs[n]).1
  {
    HistoryStep(b, b.qProj, b.qWeight, h.q, xs);
    HistoryStep(b, b.kProj, b.kWeight, h.k, xs);
    HistoryStep(b, b.vProj, b.vWeight, h.v, xs);
  }

  lemma ChunkToken(b: KdaBlock, h: Histories, xs: seq<Row>, t: nat)
    requires ValidBlock(b) && ValidHistories(b, h) && Rows(xs, |xs|, b.hidden) && t < |xs|
    ensures Chunk(b, h, xs).0[t] == ConvToken(b, After(b, h, xs[..t]), xs[t]).0
    ensures Chunk(b, h, xs).1 == After(b, h, xs)
  {
    ChunkConvIsSteps(b, b.qProj, b.qWeight, h.q, xs, t);
    ChunkConvIsSteps(b, b.kProj, b.kWeight, h.k, xs, t);
    ChunkConvIsSteps(b, b.vProj, b.vWeight, h.v, xs, t);
  }

  lemma StepIs(b: KdaBlock, s: KdaValue, x: Row, cells: seq<Row>, tok: Token, conv: Histories)
    requires ValidBlock(b) && ValidValue(b, s) && |x| == b.hidden
    requires cells == Cells(b, s) && (tok, conv) == ConvToken(b, s.conv, x)
    ensures KdaStep(b, s, x).0 == b.finish(x, Outputs(cells, tok, b.heads, b.dim))
    ensures KdaStep(b, s, x).1 == KdaValue(conv, Some(Moved(cells, tok, b.heads, b.dim)), s.count + 1)
  {
  }

  lemma MovedAllNext(cells: seq<Row>, front: seq<Token>, tok: Token, heads: nat, dim: nat)
    requires dim > 0 && ValidTokens(front, heads, dim) && ValidToken(tok, heads, dim) && Rows(cells, heads * dim, dim)
    ensures ValidTokens(front + [tok], heads, dim)
    ensures MovedAll(cells, front + [tok], heads, dim) == Moved(MovedAll(cells, front, heads, dim), tok, heads, dim)
  {
    assert (front + [tok])[..|front|] == front;
  }

  /** One step from where the tokens so far have led. */
  lemma StepFrom(b: KdaBlock, before: KdaValue, cells: seq<Row>, front: seq<Token>, x: Row, tok: Token, conv: Histories)
    requires ValidBlock(b) && ValidValue(b, before) && |x| == b.hidden
    requires ValidToken(tok, b.heads, b.dim) && ValidTokens(front, b.heads, b.dim) && Rows(cells, Channels(b), b.dim)
    requires Cells(b, before) == MovedAll(cells, front, b.heads, b.dim)
    requires (tok, conv) == ConvToken(b, before.conv, x)
    ensures ValidTokens(front + [tok], b.heads, b.dim)
    ensures KdaMachine(b)(before, x) ==
            (KdaValue(conv, Some(MovedAll(cells, front + [tok], b.heads, b.dim)), before.count + 1),
             b.finish(x, Outputs(MovedAll(cells, front, b.heads, b.dim), tok, b.heads, b.dim)))
  {
    StepIs(b, before, x, MovedAll(cells, front, b.heads, b.dim), tok, conv);
    MovedAllNext(cells, front, tok, b.heads, b.dim);
  }

  /** The cache once the prepared tokens `front` have moved the state. */
  function Reached(b: KdaBlock, cells: seq<Row>, count: nat, front: seq<Token>, conv: Histories): KdaValue
    requires ValidBlock(b) && Rows(cells, Channels(b), b.dim) && ValidTokens(front, b.heads, b.dim)
  {
    KdaValue(conv, Some(MovedAll(cells, front, b.heads, b.dim)), count + |front|)
  }

  /** The cache after `t` tokens, given what the convolutions make of each token. */
  function CacheAt(b: KdaBlock, s: KdaValue, toks: seq<Token>, convs: seq<Histories>, t: nat): KdaValue
    requires ValidBlock(b) && ValidValue(b, s) && ValidTokens(toks, b.heads, b.dim) && t <= |toks| && t < |convs|
  {
    if t == 0 then s else Reached(b, Cells(b, s), s.count, toks[..t], convs[t])
  }

  /** Attention of token `t`, seeing the state its predecessors left. */
  function RowAt(b: KdaBlock, cells: seq<Row>, xs: seq<Row>, toks: seq<Token>, t: nat): (r: Row)
    requires ValidBlock(b) && Rows(cells, Channels(b), b.dim) && Rows(xs, |xs|, b.hidden)
    requires |toks| == |xs| && ValidTokens(toks, b.heads, b.dim) && t < |xs|
    ensures |r| == b.hidden
  {
    b.finish(xs[t], Outputs(MovedAll(cells, toks[..t], b.heads, b.dim), toks[t], b.heads, b.dim))
  }

  function RowsOf(b: KdaBlock, cells: seq<Row>, xs: seq<Row>, toks: seq<Token>): (r: seq<Row>)
    requires ValidBlock(b) && Rows(cells, Channels(b), b.dim) && Rows(xs, |xs|, b.hidden)
    requires |toks| == |xs| && ValidTokens(toks, b.heads, b.dim)
    ensures Rows(r, |xs|, b.hidden)
  {
    seq(|xs|, t requires 0 <= t < |xs| => RowAt(b, cells, xs, toks, t))
  }

  lemma TraceOne(b: KdaBlock, s: KdaValue, xs: seq<Row>, toks: seq<Token>, convs: seq<Histories>, t: nat)
    requires ValidBlock(b) && ValidValue(b, s) && t < |xs| == |toks| && |convs| == |xs| + 1 && Rows(xs, |xs|, b.hidden)
    requires ValidTokens(toks, b.heads, b.dim) && convs[0] == s.conv && ValidHistories(b, convs[t])
    requires (toks[t], convs[t + 1]) == ConvToken(b, convs[t], xs[t])
    ensures KdaMachine(b)(CacheAt(b, s, toks, convs, t), xs[t]) ==
            (CacheAt(b, s, toks, convs, t + 1), RowAt(b, Cells(b, s), xs, toks, t))
  {
    assert toks[..t + 1] == toks[..t] + [toks[t]];
    StepFrom(b, CacheAt(b, s, toks, convs, t), Cells(b, s), toks[..t], xs[t], toks[t], convs[t + 1]);
  }

  /** Stepping through a chunk whose tokens the convolutions prepare one after the other. */
  lemma StepsAre(b: KdaBlock, s: KdaValue, xs: seq<Row>, toks: seq<Token>, convs: seq<Histories>)
    requires ValidBlock(b) && ValidValue(b, s) && |xs| == |toks| && |convs| == |xs| + 1 && Rows(xs, |xs|, b.hidden)
    requires ValidTokens(toks, b.heads, b.dim) && convs[0] == s.conv
    requires forall t :: 0 <= t < |xs| ==> ValidHistories(b, convs[t])
    requires forall t :: 0 <= t < |xs| ==> (toks[t], convs[t + 1]) == ConvToken(b, convs[t], xs[t])
    ensures Run(KdaMachine(b), s, xs) == (CacheAt(b, s, toks, convs, |xs|), RowsOf(b, Cells(b, s), xs, toks))
  {
    var states := seq(|xs| + 1, t requires 0 <= t <= |xs| => CacheAt(b, s, toks, convs, t));
    var rows, machine := RowsOf(b, Cells(b, s), xs, toks), KdaMachine(b);
    forall t | 0 <= t < |xs| ensures machine(states[t], xs[t]) == (states[t + 1], rows[t]) {
      TraceOne(b, s, xs, toks, convs, t);
    }
    RunTraced(machine, xs, states, rows);
  }

  lemma ChunkTraceOne(b: KdaBlock, h: Histories, xs: seq<Row>, t: nat)
    requires ValidBlock(b) && ValidHistories(b, h) && Rows(xs, |xs|, b.hidden) && t < |xs|
    ensures (Chunk(b, h, xs).0[t], After(b, h, xs[..t + 1])) == ConvToken(b, After(b, h, xs[..t]), xs[t])
  {
    ChunkToken(b, h, xs, t);
    var upTo := xs[..t + 1];
    PrefixOfPrefix(xs, t, t + 1);
    AfterStep(b, h, upTo);
  }

  /** The histories before every token of the chunk, and after the last. */
  function Afters(b: KdaBlock, h: Histories, xs: seq<Row>): (r: seq<Histories>)
    requires ValidBlock(b) && ValidHistories(b, h) && Rows(xs, |xs|, b.hidden)
    ensures |r| == |xs| + 1
    ensures forall t :: 0 <= t <= |xs| ==> r[t] == After(b, h, xs[..t]) && ValidHistories(b, r[t])
  {
    seq(|xs| + 1, t requires 0 <= t <= |xs| => After(b, h, xs[..t]))
  }

  /** The chunk-wide convolutions prepare the tokens one after the other. */
  lemma ChunkTrace(b: KdaBlock, h: Histories, xs: seq<Row>, toks: seq<Token>, convs: seq<Histories>)
    requires ValidBlock(b) && ValidHistories(b, h) && Rows(xs, |xs|, b.hidden)
    requires toks == Chunk(b, h, xs).0 && convs == Afters(b, h, xs)
    ensures forall t :: 0 <= t < |xs| ==> (toks[t], convs[t + 1]) == ConvToken(b, convs[t], xs[t])
  {
    forall t | 0 <= t < |xs| ensures (toks[t], convs[t + 1]) == ConvToken(b, convs[t], xs[t]) {
      ChunkTraceOne(b, h, xs, t);
    }
  }

  lemma AfterEnds(b: KdaBlock, h: Histories, xs: seq<Row>)
    requires ValidBlock(b) && ValidHistories(b, h) && Rows(xs, |xs|, b.hidden) && xs != []
    ensures Afters(b, h, xs)[0] == h && Afters(b, h, xs)[|xs|] == Chunk(b, h, xs).1
  {
    AfterStep(b, h, []);
    ChunkToken(b, h, xs, 0);
    WholePrefix(xs);
    assert xs[..0] == [];
  }

  lemma CacheAtEnd(b: KdaBlock, s: KdaValue, toks: seq<Token>, convs: seq<Histories>)
    requires ValidBlock(b) && ValidValue(b, s) && ValidTokens(toks, b.heads, b.dim) && toks != [] && |toks| < |convs|
    ensures CacheAt(b, s, toks, convs, |toks|) == Reached(b, Cells(b, s), s.count, toks, convs[|toks|])
  {
    WholePrefix(toks);
  }

  /** Where stepping through `xs` leads, in terms of the prepared tokens and the histories left. */
  ghost predicate StepsTo(b: KdaBlock, s: KdaValue, xs: seq<Row>, toks: seq<Token>, conv: Histories)
    requires ValidBlock(b) && ValidValue(b, s) && Rows(xs, |xs|, b.hidden)
    requires |toks| == |xs| && ValidTokens(toks, b.heads, b.dim)
  {
    Run(KdaMachine(b), s, xs) ==
    (Reached(b, Cells(b, s), s.count, toks, conv), RowsOf(b, Cells(b, s), xs, toks))
  }

  lemma StepsToTraced(b: KdaBlock, s: KdaValue, xs: seq<Row>, toks: seq<Token>, convs: seq<Histories>)
    requires ValidBlock(b) && ValidValue(b, s) && |xs| == |toks| && |convs| == |xs| + 1 && Rows(xs, |xs|, b.hidden)
    requires ValidTokens(toks, b.heads, b.dim) && convs[0] == s.conv && xs != []
    requires forall t :: 0 <= t < |xs| ==> ValidHistories(b, convs[t])
    requires forall t :: 0 <= t < |xs| ==> (toks[t], convs[t + 1]) == ConvToken(b, convs[t], xs[t])
    ensures StepsTo(b, s, xs, toks, convs[|xs|])
  {
    StepsAre(b, s, xs, toks, convs);
    CacheAtEnd(b, s, toks, convs);
  }

  /** A chunk taken whole is the chunk taken token by token: every row, and everything the cache keeps. */
  lemma ChunkIsSteps(b: KdaBlock, s: KdaValue, xs: seq<Row>)
    requires ValidBlock(b) && ValidValue(b, s) && Rows(xs, |xs|, b.hidden) && xs != []
    ensures StepsTo(b, s, xs, Chunk(b, s.conv, xs).0, Chunk(b, s.conv, xs).1)
  {
    var convs := Afters(b, s.conv, xs);
    ChunkTrace(b, s.conv, xs, Chunk(b, s.conv, xs).0, convs);
    AfterEnds(b, s.conv, xs);
    StepsToTraced(b, s, xs, Chunk(b, s.conv, xs).0, convs);
  }

  // ---- the cache object ---------------------------------------------------------------------------

  /** The cell of the state that grid cell (dv, n) of the kernel works on. */
  lemma GridCell(toks: seq<Token>, cells: seq<Row>, heads: nat, dim: nat, c: nat)
    requires heads > 0 && dim > 0 && dim % 32 == 0 && heads * dim > 0
    requires ValidTokens(toks, heads, dim) && Rows(cells, heads * dim, dim) && c < heads * dim
    ensures var x, h, dv := Packed(toks, cells, heads, dim), HeadOf(c, heads, dim), c % dim;
            && Shaped(x) && StateRow(x, 0, h, dv) == cells[c]
            && Feeds(x, 0, h, dv, |toks|) == CellFeeds(toks, heads, dim, c)
  {
    var x, h, dv := Packed(toks, cells, heads, dim), HeadOf(c, heads, dim), c % dim;
    PackedState(toks, cells, heads, dim, h, dv);
    assert At(h, dv, heads, dim) == c;
    forall t | 0 <= t < |toks| ensures FeedAt(x, 0, h, dv, t) == TokenFeed(toks[t], heads, dim, c) {
      PackedFeed(toks, cells, heads, dim, h, dv, t);
    }
  }

  /** Cell `c` of every output row of a run over `toks`. */
  function Column(toks: seq<Token>, cells: seq<Row>, heads: nat, dim: nat, c: nat): (r: seq<real>)
    requires dim > 0 && ValidTokens(toks, heads, dim) && Rows(cells, heads * dim, dim) && c < heads * dim
    ensures |r| == |toks|
  {
    seq(|toks|, t requires 0 <= t < |toks| => Outputs(MovedAll(cells, toks[..t], heads, dim), toks[t], heads, dim)[c])
  }

  /** One thread group of the kernel launch. */
  method LaunchCell(toks: seq<Token>, cells: seq<Row>, heads: nat, dim: nat, c: nat) returns (column: seq<real>, row: Row)
    requires heads > 0 && dim > 0 && dim % 32 == 0 && heads * dim > 0
    requires ValidTokens(toks, heads, dim) && Rows(cells, heads * dim, dim) && c < heads * dim
    ensures row == MovedAll(cells, toks, heads, dim)[c] && column == Column(toks, cells, heads, dim, c)
  {
    GridCell(toks, cells, heads, dim, c);
    column, row := KernelCell(Packed(toks, cells, heads, dim), 0, HeadOf(c, heads, dim), c % dim);
    CellsApart(cells, toks, heads, dim, c);
    forall t | 0 <= t < |toks| ensures column[t] == Column(toks, cells, heads, dim, c)[t] {
      OutputsApart(cells, toks, heads, dim, c, t);
    }
  }

  /** The first `n` thread groups have left their columns and rows. */
  ghost predicate Launched(columns: seq<seq<real>>, moved: seq<Row>, n: nat,
                           toks: seq<Token>, cells: seq<Row>, heads: nat, dim: nat)
    requires dim > 0 && ValidTokens(toks, heads, dim) && Rows(cells, heads * dim, dim) && n <= heads * dim
  {
    && |moved| == |columns| == n
    && (forall i :: 0 <= i < n ==> moved[i] == MovedAll(cells, toks, heads, dim)[i])
    && (forall i :: 0 <= i < n ==> columns[i] == Column(toks, cells, heads, dim, i))
  }

  lemma LaunchedMore(columns: seq<seq<real>>, moved: seq<Row>, n: nat, column: seq<real>, row: Row,
                     toks: seq<Token>, cells: seq<Row>, heads: nat, dim: nat)
    requires dim > 0 && ValidTokens(toks, heads, dim) && Rows(cells, heads * dim, dim) && n < heads * dim
    requires Launched(columns, moved, n, toks, cells, heads, dim)
    requires row == MovedAll(cells, toks, heads, dim)[n] && column == Column(toks, cells, heads, dim, n)
    ensures Launched(columns + [column], moved + [row], n + 1, toks, cells, heads, dim)
  {
    var all := MovedAll(cells, toks, heads, dim);
    forall i | 0 <= i < n + 1 ensures (moved + [row])[i] == all[i] {
      assert i < n ==> moved[i] == all[i];
    }
    forall i | 0 <= i < n + 1 ensures (columns + [column])[i] == Column(toks, cells, heads, dim, i) {
      assert i < n ==> columns[i] == Column(toks, cells, heads, dim, i);
    }
  }

  /** The kernel launch over the whole grid: every thread group's column of the output and row of the state. */
  method Launch(toks: seq<Token>, cells: seq<Row>, heads: nat, dim: nat) returns (columns: seq<seq<real>>, moved: seq<Row>)
    requires heads > 0 && dim > 0 && dim % 32 == 0 && heads * dim > 0
    requires ValidTokens(toks, heads, dim) && Rows(cells, heads * dim, dim)
    ensures Launched(columns, moved, heads * dim, toks, cells, heads, dim)
    ensures moved == MovedAll(cells, toks, heads, dim)
  {
    moved, columns := [], [];
    for c := 0 to heads * dim
      invariant Launched(columns, moved, c, toks, cells, heads, dim)
    {
      var column, row := LaunchCell(toks, cells, heads, dim, c);
      LaunchedMore(columns, moved, c, column, row, toks, cells, heads, dim);
      columns, moved := columns + [column], moved + [row];
    }
  }

  /** Row `t` of the output tensor, gathered from the columns of the grid. */
  method Across(columns: seq<seq<real>>, t: nat, ghost toks: seq<Token>, ghost cells: seq<Row>, heads: nat, dim: nat)
    returns (row: Row)
    requires dim > 0 && ValidTokens(toks, heads, dim) && Rows(cells, heads * dim, dim) && t < |toks|
    requires |columns| == heads * dim
    requires forall c :: 0 <= c < heads * dim ==> columns[c] == Column(toks, cells, heads, dim, c)
    ensures row == Outputs(MovedAll(cells, toks[..t], heads, dim), toks[t], heads, dim)
  {
    assert forall c :: 0 <= c < heads * dim ==> |columns[c]| == |toks|;
    row := seq(|columns|, c requires 0 <= c < |columns| => columns[c][t]);
    ghost var out := Outputs(MovedAll(cells, toks[..t], heads, dim), toks[t], heads, dim);
    forall c | 0 <= c < heads * dim ensures row[c] == out[c] {
      assert columns[c] == Column(toks, cells, heads, dim, c);
    }
  }

  /** The three chunk-wide convolutions: the prepared tokens, and the histories kept for the next call. */
  method ConvChunk(b: KdaBlock, h: Histories, xs: seq<Row>) returns (toks: seq<Token>, conv: Histories)
    requires ValidBlock(b) && ValidHistories(b, h) && Rows(xs, |xs|, b.hidden)
    ensures toks == Chunk(b, h, xs).0 && conv == Chunk(b, h, xs).1
  {
    var q := ConvPrefill(b, Projected(b.qProj, xs), b.qWeight, h.q);
    var k := ConvPrefill(b, Projected(b.kProj, xs), b.kWeight, h.k);
    var v := ConvPrefill(b, Projected(b.vProj, xs), b.vWeight, h.v);
    toks := seq(|xs|, t requires 0 <= t < |xs| => Prepared(b, q.0[t], k.0[t], v.0[t], xs[t]));
    conv := Histories(q.1, k.1, v.1);
  }

  method PrepareChunk(b: KdaBlock, s: KdaValue, xs: seq<Row>) returns (toks: seq<Token>, conv: Histories)
    requires ValidBlock(b) && ValidValue(b, s) && Rows(xs, |xs|, b.hidden) && xs != []
    ensures |toks| == |xs| && ValidTokens(toks, b.heads, b.dim) && ValidHistories(b, conv)
    ensures StepsTo(b, s, xs, toks, conv)
  {
    toks, conv := ConvChunk(b, s.conv, xs);
    ChunkIsSteps(b, s, xs);
  }

  class KdaStateCache {
    var qConv: Option<seq<Row>>
    var kConv: Option<seq<Row>>
    var vConv: Option<seq<Row>>
    var recurrent: Option<seq<Row>>
    var count: nat

    function Value(): KdaValue reads this {
      KdaValue(Histories(qConv, kConv, vConv), recurrent, count)
    }

    constructor ()
      ensures Value() == KdaValue(Histories(None, None, None), None, 0)
    {
      qConv, kConv, vConv, recurrent, count := None, None, None, None, 0;
    }

    method Reset()
      modifies this
      ensures Value() == KdaValue(Histories(None, None, None), None, 0)
    {
      qConv, kConv, vConv, recurrent, count := None, None, None, None, 0;
    }

    /** `kda`, with the count its caller keeps. */
    method Attend(b: KdaBlock, x: Row) returns (y: Row)
      requires ValidBlock(b) && ValidValue(b, Value()) && |x| == b.hidden
      modifies this
      ensures (Value(), y) == KdaMachine(b)(old(Value()), x)
      ensures |y| == b.hidden && ValidValue(b, Value())
    {
      ghost var was := Value();
      var q := ConvStep(b, b.qProj(x), b.qWeight, qConv);
      var k := ConvStep(b, b.kProj(x), b.kWeight, kConv);
      var v := ConvStep(b, b.vProj(x), b.vWeight, vConv);
      var tok := Prepared(b, q.0, k.0, v.0, x);
      var cells := Cells(b, Value());
      y := b.finish(x, Outputs(cells, tok, b.heads, b.dim));
      qConv, kConv, vConv := q.1, k.1, v.1;
      recurrent := Some(Moved(cells, tok, b.heads, b.dim));
      count := count + 1;
      assert (tok, Histories(q.1, k.1, v.1)) == ConvToken(b, was.conv, x);
    }

    /** `kdaPrefill`, with the count its caller keeps. */
    method AttendChunk(b: KdaBlock, xs: seq<Row>) returns (ys: seq<Row>)
      requires ValidBlock(b) && ValidValue(b, Value()) && Rows(xs, |xs|, b.hidden) && |xs| > 1
      modifies this
      ensures (Value(), ys) == Run(KdaMachine(b), old(Value()), xs)
      ensures Rows(ys, |xs|, b.hidden) && ValidValue(b, Value())
    {
      var cells := Cells(b, Value());
      var toks, conv := PrepareChunk(b, Value(), xs);
      qConv, kConv, vConv := conv.q, conv.k, conv.v;
      var moved;
      ys, moved := RunKernel(b, toks, cells, xs);
      recurrent := Some(moved);
      count := count + |xs|;
    }
  }

  /** The kernel over the prepared tokens, then norm, gate and output projection a row. */
  method RunKernel(b: KdaBlock, toks: seq<Token>, cells: seq<Row>, xs: seq<Row>) returns (ys: seq<Row>, moved: seq<Row>)
    requires ValidBlock(b) && |toks| == |xs| && ValidTokens(toks, b.heads, b.dim)
    requires Rows(cells, Channels(b), b.dim) && Rows(xs, |xs|, b.hidden)
    ensures moved == MovedAll(cells, toks, b.heads, b.dim)
    ensures ys == RowsOf(b, cells, xs, toks)
  {
    Within(0, b.heads, b.dim);
    var columns;
    columns, moved := Launch(toks, cells, b.heads, b.dim);
    ys := [];
    for t := 0 to |xs|
      invariant |ys| == t && forall i :: 0 <= i < t ==> ys[i] == RowAt(b, cells, xs, toks, i)
    {
      var row := Across(columns, t, toks, cells, b.heads, b.dim);
      ys := ys + [b.finish(xs[t], row)];
    }
  }
}

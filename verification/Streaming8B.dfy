/**
 The layers and the model of ios/Sources/Edge0MLX/StreamingEdge0Model8B.swift without a prerouter:
 a token through all layers (`callAsFunction`), a chunk through one layer after the other with that
 layer's full expert stack in memory (`prefill`), and the prompt loop of
 ios/Sources/Edge0MLX/Edge0ChatEngine.swift.
 */
module Streaming8B {
  import opened Common
  import opened Vectors
  import opened Machines
  import K = Kda
  import M = Mla
  import opened Routing

  datatype FeedForward = Dense(mlp: Row -> Row) | Sparse(moe: MoeBlock)

  /** Everything a layer keeps between tokens. */
  datatype CacheValue = KdaState(kda: K.KdaValue) | MlaState(mla: M.MlaValue)

  /** A layer's weights with the cache object it updates. */
  datatype StreamingLayer =
    | KdaLayer(inputNorm: Row -> Row, postNorm: Row -> Row, kda: K.KdaBlock, ff: FeedForward, kdaCache: K.KdaStateCache)
    | MlaLayer(inputNorm: Row -> Row, postNorm: Row -> Row, mla: M.MlaBlock, moe: MoeBlock, mlaCache: M.MlaKvCache)
  {
    function Cache(): object {
      match this case KdaLayer(_, _, _, _, c) => c case MlaLayer(_, _, _, _, c) => c
    }

    function Value(): CacheValue reads Cache() {
      match this
      case KdaLayer(_, _, _, _, c) => KdaState(c.Value())
      case MlaLayer(_, _, _, _, c) => MlaState(c.Value())
    }

    function Feed(): FeedForward {
      match this case KdaLayer(_, _, _, ff, _) => ff case MlaLayer(_, _, _, moe, _) => Sparse(moe)
    }
  }

  function Forward(ff: FeedForward, x: Row): Row {
    match ff case Dense(mlp) => mlp(x) case Sparse(moe) => Mixture(moe, x)
  }

  /** Residual, norm, feed-forward and second residual around one token's attention row. */
  function Finished(postNorm: Row -> Row, ff: FeedForward): (Row, Row) -> Row {
    (x: Row, attention: Row) =>
      var residual := Plus(x, attention);
      Plus(residual, Forward(ff, postNorm(residual)))
  }

  ghost function KdaWhole(l: StreamingLayer): Machine<K.KdaValue, Row, Row>
    requires l.KdaLayer?
  {
    Around(l.inputNorm, K.KdaMachine(l.kda), Finished(l.postNorm, l.ff))
  }

  ghost function MlaWhole(l: StreamingLayer): Machine<M.MlaValue, Row, Row>
    requires l.MlaLayer?
  {
    Around(l.inputNorm, M.MlaMachine(l.mla), Finished(l.postNorm, Sparse(l.moe)))
  }

  /** A layer as a machine over tokens. */
  ghost function LayerMachine(l: StreamingLayer): Machine<CacheValue, Row, Row> {
    (s: CacheValue, x: Row) =>
      if l.KdaLayer? && s.KdaState? then (KdaState(KdaWhole(l)(s.kda, x).0), KdaWhole(l)(s.kda, x).1)
      else if l.MlaLayer? && s.MlaState? then (MlaState(MlaWhole(l)(s.mla, x).0), MlaWhole(l)(s.mla, x).1)
      else (s, x)
  }

  lemma {:induction false} RunKda(l: StreamingLayer, s: K.KdaValue, xs: seq<Row>)
    requires l.KdaLayer?
    ensures var r := Run(KdaWhole(l), s, xs); Run(LayerMachine(l), KdaState(s), xs) == (KdaState(r.0), r.1)
  {
    if xs != [] {
      RunKda(l, s, xs[..|xs| - 1]);
    }
  }

  lemma {:induction false} RunMla(l: StreamingLayer, s: M.MlaValue, xs: seq<Row>)
    requires l.MlaLayer?
    ensures var r := Run(MlaWhole(l), s, xs); Run(LayerMachine(l), MlaState(s), xs) == (MlaState(r.0), r.1)
  {
    if xs != [] {
      RunMla(l, s, xs[..|xs| - 1]);
    }
  }

  // ---- what a layer expects -----------------------------------------------------------------

  predicate Wide(xs: seq<Row>, hidden: nat) {
    forall t :: 0 <= t < |xs| ==> |xs[t]| == hidden
  }

  ghost predicate Keeps(f: Row -> Row, hidden: nat) {
    forall x :: |x| == hidden ==> |f(x)| == hidden
  }

  ghost predicate ValidLayer(l: StreamingLayer, hidden: nat) {
    && Keeps(l.inputNorm, hidden) && Keeps(l.postNorm, hidden)
    && match l
       case KdaLayer(_, _, kda, ff, _) =>
         && K.ValidBlock(kda) && kda.hidden == hidden
         && (ff.Dense? ==> Keeps(ff.mlp, hidden))
         && (ff.Sparse? ==> ValidMoe(ff.moe) && ff.moe.hidden == hidden)
       case MlaLayer(_, _, mla, moe, _) =>
         && M.ValidBlock(mla) && mla.hidden == hidden && ValidMoe(moe) && moe.hidden == hidden
  }

  ghost predicate ValidCache(l: StreamingLayer)
    reads l.Cache()
  {
    match l
    case KdaLayer(_, _, kda, _, c) => K.ValidValue(kda, c.Value())
    case MlaLayer(_, _, mla, _, c) => M.ValidValue(mla, c.Value())
  }

  ghost predicate ValidState(l: StreamingLayer, s: CacheValue) {
    match l
    case KdaLayer(_, _, kda, _, _) => s.KdaState? && K.ValidValue(kda, s.kda)
    case MlaLayer(_, _, mla, _, _) => s.MlaState? && M.ValidValue(mla, s.mla)
  }

  // ---- what a layer adds ----------------------------------------------------------------------

  /** The attention's own row for a token. */
  ghost function AttentionRow(l: StreamingLayer, s: CacheValue, x: Row): Row
    requires ValidState(l, s)
  {
    match l
    case KdaLayer(_, _, kda, _, _) => K.KdaMachine(kda)(s.kda, l.inputNorm(x)).1
    case MlaLayer(_, _, mla, _, _) => M.MlaMachine(mla)(s.mla, l.inputNorm(x)).1
  }

  /** Element by element: the token's row and its attention, then that and its feed-forward. */
  ghost predicate AddsBoth(postNorm: Row -> Row, ff: FeedForward, x: Row, attention: Row, y: Row) {
    exists residual :: Sums(x, attention, residual) && Sums(residual, Forward(ff, postNorm(residual)), y)
  }

  /** What a layer passes up for a token. */
  ghost predicate LayerRow(l: StreamingLayer, s: CacheValue, x: Row, y: Row) {
    ValidState(l, s) && AddsBoth(l.postNorm, l.Feed(), x, AttentionRow(l, s, x), y)
  }

  ghost predicate KeepsWidth(ff: FeedForward, hidden: nat) {
    forall x :: |x| == hidden ==> |Forward(ff, x)| == hidden
  }

  lemma FinishedAdds(postNorm: Row -> Row, ff: FeedForward, hidden: nat, x: Row, attention: Row)
    requires |x| == |attention| == hidden && Keeps(postNorm, hidden) && KeepsWidth(ff, hidden)
    ensures AddsBoth(postNorm, ff, x, attention, Finished(postNorm, ff)(x, attention))
  {
    assert Sums(x, attention, Plus(x, attention));
  }

  lemma FeedWidth(l: StreamingLayer, hidden: nat)
    requires ValidLayer(l, hidden)
    ensures KeepsWidth(l.Feed(), hidden)
  {
  }

  lemma KdaStepIs(l: StreamingLayer, s: K.KdaValue, x: Row, next: K.KdaValue, attention: Row)
    requires l.KdaLayer? && (next, attention) == K.KdaMachine(l.kda)(s, l.inputNorm(x))
    ensures LayerMachine(l)(KdaState(s), x) == (KdaState(next), Finished(l.postNorm, l.ff)(x, attention))
  {
    AroundIs(l.inputNorm, K.KdaMachine(l.kda), Finished(l.postNorm, l.ff), s, x, next, attention);
    var whole := KdaWhole(l);
    assert LayerMachine(l)(KdaState(s), x) == (KdaState(whole(s, x).0), whole(s, x).1);
  }

  lemma MlaStepIs(l: StreamingLayer, s: M.MlaValue, x: Row, next: M.MlaValue, attention: Row)
    requires l.MlaLayer? && (next, attention) == M.MlaMachine(l.mla)(s, l.inputNorm(x))
    ensures LayerMachine(l)(MlaState(s), x) == (MlaState(next), Finished(l.postNorm, Sparse(l.moe))(x, attention))
  {
    AroundIs(l.inputNorm, M.MlaMachine(l.mla), Finished(l.postNorm, Sparse(l.moe)), s, x, next, attention);
    var whole := MlaWhole(l);
    assert LayerMachine(l)(MlaState(s), x) == (MlaState(whole(s, x).0), whole(s, x).1);
  }

  lemma KdaRow(l: StreamingLayer, hidden: nat, s: K.KdaValue, x: Row)
    requires l.KdaLayer? && ValidLayer(l, hidden) && K.ValidValue(l.kda, s) && |x| == hidden
    ensures LayerRow(l, KdaState(s), x, LayerMachine(l)(KdaState(s), x).1)
    ensures ValidState(l, LayerMachine(l)(KdaState(s), x).0)
  {
    var (next, attention) := K.KdaMachine(l.kda)(s, l.inputNorm(x));
    KdaStepIs(l, s, x, next, attention);
    FeedWidth(l, hidden);
    FinishedAdds(l.postNorm, l.ff, hidden, x, attention);
  }

  lemma MlaRow(l: StreamingLayer, hidden: nat, s: M.MlaValue, x: Row)
    requires l.MlaLayer? && ValidLayer(l, hidden) && M.ValidValue(l.mla, s) && |x| == hidden
    ensures LayerRow(l, MlaState(s), x, LayerMachine(l)(MlaState(s), x).1)
    ensures ValidState(l, LayerMachine(l)(MlaState(s), x).0)
  {
    var (next, attention) := M.MlaMachine(l.mla)(s, l.inputNorm(x));
    MlaStepIs(l, s, x, next, attention);
    FeedWidth(l, hidden);
    FinishedAdds(l.postNorm, Sparse(l.moe), hidden, x, attention);
  }

  /** One step of a layer adds attention and feed-forward, and leaves a state of its kind. */
  lemma MachineRow(l: StreamingLayer, hidden: nat, s: CacheValue, x: Row)
    requires ValidLayer(l, hidden) && ValidState(l, s) && |x| == hidden
    ensures LayerRow(l, s, x, LayerMachine(l)(s, x).1) && ValidState(l, LayerMachine(l)(s, x).0)
  {
    match s
    case KdaState(kda) => KdaRow(l, hidden, kda, x);
    case MlaState(mla) => MlaRow(l, hidden, mla, x);
  }

  lemma {:induction false} RunValid(l: StreamingLayer, hidden: nat, s: CacheValue, xs: seq<Row>)
    requires ValidLayer(l, hidden) && ValidState(l, s) && Wide(xs, hidden)
    ensures ValidState(l, Run(LayerMachine(l), s, xs).0)
  {
    if xs != [] {
      var front := xs[..|xs| - 1];
      RunValid(l, hidden, s, front);
      MachineRow(l, hidden, Run(LayerMachine(l), s, front).0, xs[|xs| - 1]);
    }
  }

  /** Row `t` of a run is what the layer passes up from the state the rows before it left. */
  lemma RunRows(l: StreamingLayer, hidden: nat, s: CacheValue, xs: seq<Row>, t: nat)
    requires ValidLayer(l, hidden) && ValidState(l, s) && Wide(xs, hidden) && t < |xs|
    ensures LayerRow(l, Run(LayerMachine(l), s, xs[..t]).0, xs[t], Run(LayerMachine(l), s, xs).1[t])
  {
    RunValid(l, hidden, s, xs[..t]);
    MachineRow(l, hidden, Run(LayerMachine(l), s, xs[..t]).0, xs[t]);
    OutputAt(LayerMachine(l), s, xs, t);
  }

  // ---- one layer, one token -------------------------------------------------------------------

  /** The block after its attention: two sums, element by element. */
  method Finish(postNorm: Row -> Row, ff: FeedForward, x: Row, attention: Row) returns (y: Row, ghost residual: Row)
    requires |attention| == |x| && Keeps(postNorm, |x|) && KeepsWidth(ff, |x|)
    ensures |residual| == |x| && forall i :: 0 <= i < |x| ==> residual[i] == x[i] + attention[i]
    ensures |y| == |x| && forall i :: 0 <= i < |x| ==> y[i] == residual[i] + Forward(ff, postNorm(residual))[i]
    ensures y == Finished(postNorm, ff)(x, attention)
  {
    var sum := Plus(x, attention);
    residual := sum;
    y := Plus(sum, Forward(ff, postNorm(sum)));
  }

  method StepLayer(l: StreamingLayer, hidden: nat, x: Row) returns (y: Row)
    requires ValidLayer(l, hidden) && ValidCache(l) && |x| == hidden
    modifies l.Cache()
    ensures (l.Value(), y) == LayerMachine(l)(old(l.Value()), x)
    ensures LayerRow(l, old(l.Value()), x, y)
    ensures ValidCache(l) && |y| == hidden
  {
    MachineRow(l, hidden, l.Value(), x);
    FeedWidth(l, hidden);
    ghost var residual;
    match l {
      case KdaLayer(inputNorm, postNorm, kda, ff, cache) =>
        ghost var was := cache.Value();
        var attention := cache.Attend(kda, inputNorm(x));
        y, residual := Finish(postNorm, ff, x, attention);
        KdaStepIs(l, was, x, cache.Value(), attention);
      case MlaLayer(inputNorm, postNorm, mla, moe, cache) =>
        ghost var was := cache.Value();
        var attention := cache.Attend(mla, inputNorm(x), cache.count);
        y, residual := Finish(postNorm, Sparse(moe), x, attention);
        MlaStepIs(l, was, x, cache.Value(), attention);
    }
  }

  // ---- one layer, a chunk -----------------------------------------------------------------------

  lemma KdaChunkIs(l: StreamingLayer, s: K.KdaValue, xs: seq<Row>, next: K.KdaValue, attention: seq<Row>)
    requires l.KdaLayer? && (next, attention) == Run(K.KdaMachine(l.kda), s, Mapped(l.inputNorm, xs))
    ensures |attention| == |xs|
    ensures Run(LayerMachine(l), KdaState(s), xs) == (KdaState(next), Zipped(Finished(l.postNorm, l.ff), xs, attention))
  {
    RunAround(l.inputNorm, K.KdaMachine(l.kda), Finished(l.postNorm, l.ff), s, xs);
    RunKda(l, s, xs);
  }

  lemma MlaChunkIs(l: StreamingLayer, s: M.MlaValue, xs: seq<Row>, next: M.MlaValue, attention: seq<Row>)
    requires l.MlaLayer? && (next, attention) == Run(M.MlaMachine(l.mla), s, Mapped(l.inputNorm, xs))
    ensures |attention| == |xs|
    ensures Run(LayerMachine(l), MlaState(s), xs) ==
            (MlaState(next), Zipped(Finished(l.postNorm, Sparse(l.moe)), xs, attention))
  {
    RunAround(l.inputNorm, M.MlaMachine(l.mla), Finished(l.postNorm, Sparse(l.moe)), s, xs);
    RunMla(l, s, xs);
  }

  /** The full expert stack of a sparse layer, as `loadFullExpertLayer` reads it from the store. */
  function StoredStack(moe: MoeBlock): (r: seq<Expert>)
    ensures |r| == moe.experts && forall e :: 0 <= e < |r| ==> r[e] == moe.bank(e)
  {
    seq(moe.experts, e requires 0 <= e < moe.experts => moe.bank(e))
  }

  /** The block after its attention, for a whole chunk: the sparse layers need their stack loaded. */
  method FinishChunk(postNorm: Row -> Row, ff: FeedForward, full: Option<seq<Expert>>, hidden: nat,
                     xs: seq<Row>, attention: seq<Row>)
    returns (ys: seq<Row>)
    requires |attention| == |xs| > 1 && Wide(xs, hidden) && Keeps(postNorm, hidden)
    requires ff.Sparse? ==> ValidMoe(ff.moe) && ff.moe.hidden == hidden && full == Some(StoredStack(ff.moe))
    ensures ys == Zipped(Finished(postNorm, ff), xs, attention) && Wide(ys, hidden)
  {
    var residual := Zipped((x: Row, y: Row) => Plus(x, y), xs, attention);
    var moeInput := Mapped(postNorm, residual);
    var fed: seq<Row>;
    match ff {
      case Dense(mlp) => fed := Mapped(mlp, moeInput);
      case Sparse(moe) => fed := FullLayerPrefill(moe, full.value, moeInput);
    }
    ys := Zipped((x: Row, y: Row) => Plus(x, y), residual, fed);
    assert forall t :: 0 <= t < |xs| ==> fed[t] == Forward(ff, moeInput[t]);
    assert ys == Zipped(Finished(postNorm, ff), xs, attention);
  }

  method PrefillLayer(l: StreamingLayer, full: Option<seq<Expert>>, hidden: nat, xs: seq<Row>) returns (ys: seq<Row>)
    requires ValidLayer(l, hidden) && ValidCache(l) && |xs| > 1 && Wide(xs, hidden)
    requires l.Feed().Sparse? ==> full == Some(StoredStack(l.Feed().moe))
    modifies l.Cache()
    ensures (l.Value(), ys) == Run(LayerMachine(l), old(l.Value()), xs)
    ensures |ys| == |xs| && forall t :: 0 <= t < |xs| ==>
              LayerRow(l, Run(LayerMachine(l), old(l.Value()), xs[..t]).0, xs[t], ys[t])
    ensures ValidCache(l) && Wide(ys, hidden)
  {
    ghost var before := l.Value();
    forall t | 0 <= t < |xs| ensures LayerRow(l, Run(LayerMachine(l), before, xs[..t]).0, xs[t], Run(LayerMachine(l), before, xs).1[t]) {
      RunRows(l, hidden, before, xs, t);
    }
    match l {
      case KdaLayer(inputNorm, postNorm, kda, ff, cache) =>
        ghost var was := cache.Value();
        var attention := cache.AttendChunk(kda, Mapped(inputNorm, xs));
        ys := FinishChunk(postNorm, ff, full, hidden, xs, attention);
        KdaChunkIs(l, was, xs, cache.Value(), attention);
      case MlaLayer(inputNorm, postNorm, mla, moe, cache) =>
        ghost var was := cache.Value();
        var attention := cache.AttendChunk(mla, Mapped(inputNorm, xs), cache.count);
        ys := FinishChunk(postNorm, Sparse(moe), full, hidden, xs, attention);
        MlaChunkIs(l, was, xs, cache.Value(), attention);
    }
  }

  // ---- the model ----------------------------------------------------------------------------------

  class StreamingModel {
    const hidden: nat
    const vocabulary: nat
    const layers: seq<StreamingLayer>
    const embed: nat -> Row
    const head: Row -> Row

    /** The full expert stacks in memory, by layer. */
    var full: map<nat, seq<Expert>>

    /** The most stacks ever in memory at once. */
    ghost var peak: nat

    constructor (hidden: nat, vocabulary: nat, layers: seq<StreamingLayer>, embed: nat -> Row, head: Row -> Row)
      ensures this.hidden == hidden && this.vocabulary == vocabulary && this.layers == layers
      ensures this.embed == embed && this.head == head && full == map[] && peak == 0
    {
      this.hidden, this.vocabulary, this.layers, this.embed, this.head := hidden, vocabulary, layers, embed, head;
      full, peak := map[], 0;
    }

    ghost function Caches(): set<object> {
      set i | 0 <= i < |layers| :: layers[i].Cache()
    }

    /** Layers own their caches, and everything has the width of the hidden state. */
    ghost predicate Formed() {
      && this !in Caches()
      && (forall i, j :: 0 <= i < j < |layers| ==> layers[i].Cache() != layers[j].Cache())
      && (forall i :: 0 <= i < |layers| ==> ValidLayer(layers[i], hidden))
      && (forall id :: 0 <= id < vocabulary ==> |embed(id)| == hidden)
    }

    ghost predicate CachesValid()
      reads Caches()
    {
      forall i :: 0 <= i < |layers| ==> ValidCache(layers[i])
    }

    /** Between calls no full stack is in memory, and there never was more than one. */
    ghost predicate Valid()
      reads this, Caches()
    {
      Formed() && CachesValid() && full == map[] && peak <= 1
    }

    ghost function Values(): (r: seq<CacheValue>)
      reads Caches()
      ensures |r| == |layers| && forall i :: 0 <= i < |r| ==> r[i] == layers[i].Value()
    {
      seq(|layers|, i requires 0 <= i < |layers| reads Caches() => layers[i].Value())
    }

    ghost function LayerMachines(): (r: seq<Machine<CacheValue, Row, Row>>)
      ensures |r| == |layers|
    {
      seq(|layers|, i requires 0 <= i < |layers| => LayerMachine(layers[i]))
    }

    /** The whole model as a machine from token ids to logits: one token through all layers. */
    ghost function TokenMachine(): Machine<seq<CacheValue>, nat, Row> {
      Around(embed, Stack(LayerMachines()), (id: nat, h: Row) => head(h))
    }

    /** The first `k` layers have taken the token: their caches moved on, `h` is what they passed up. */
    ghost predicate Risen(k: nat, h: Row, before: seq<CacheValue>, x: Row)
      reads Caches()
      requires k <= |layers| == |before|
    {
      && |h| == hidden && CachesValid()
      && (Values()[..k], h) == Through(LayerMachines()[..k], before[..k], x)
      && Values()[k..] == before[k..]
    }

    method DecodeLayer(index: nat, h: Row, ghost before: seq<CacheValue>, ghost x: Row) returns (next: Row)
      requires Formed() && index < |layers| == |before| && Risen(index, h, before, x)
      modifies layers[index].Cache()
      ensures Risen(index + 1, next, before, x)
    {
      ghost var values := Values();
      next := StepLayer(layers[index], hidden, h);
      OthersKept(index);
      ThroughNext(LayerMachines(), before, x, index);
      assert Values()[..index] == values[..index];
      assert values[index] == values[index..][0] == before[index];
      assert Values()[..index + 1] == values[..index] + [layers[index].Value()];
      assert Values()[index + 1..] == values[index..][1..];
    }

    /** `callAsFunction` */
    method Decode(id: nat) returns (logits: Option<Row>)
      requires Valid()
      modifies Caches()
      ensures Valid() && unchanged(this)
      ensures id < vocabulary ==>
                logits.Some? && (Values(), logits.value) == TokenMachine()(old(Values()), id)
      ensures id >= vocabulary ==> logits == None && Values() == old(Values())
    {
      if id >= vocabulary { return None; }
      ghost var before := Values();
      var x := embed(id);
      var h := x;
      for index := 0 to |layers|
        invariant Risen(index, h, before, x)
      {
        h := DecodeLayer(index, h, before, x);
      }
      assert LayerMachines()[..|layers|] == LayerMachines() && before[..|layers|] == before;
      assert Values()[..|layers|] == Values();
      logits := Some(head(h));
    }

    /** Updating one layer's cache leaves the other layers' values alone. */
    twostate lemma OthersKept(index: nat)
      requires Formed() && index < |layers|
      requires forall o :: o in Caches() && o != layers[index].Cache() ==> unchanged(o)
      ensures forall i :: 0 <= i < |layers| && i != index ==> layers[i].Value() == old(layers[i].Value())
      ensures forall i :: 0 <= i < |layers| && i != index && old(ValidCache(layers[i])) ==> ValidCache(layers[i])
    {
      forall i | 0 <= i < |layers| && i != index
        ensures layers[i].Value() == old(layers[i].Value()) && (old(ValidCache(layers[i])) ==> ValidCache(layers[i]))
      {
        assert layers[i].Cache() in Caches();
      }
    }

    // ---- whole-layer prefill ------------------------------------------------------------------

    /** `loadFullExpertLayer` of one layer; a dense layer has nothing to load. */
    method Load(index: nat)
      requires index < |layers|
      modifies this
      ensures full == if layers[index].Feed().Sparse? && index !in old(full)
                      then old(full)[index := StoredStack(layers[index].Feed().moe)] else old(full)
      ensures peak == if |full| > old(peak) then |full| else old(peak)
    {
      var feed := layers[index].Feed();
      if feed.Sparse? && index !in full {
        full := full[index := StoredStack(feed.moe)];
      }
      peak := if |full| > peak then |full| else peak;
    }

    method Clear(index: nat)
      modifies this
      ensures full == old(full) - {index} && peak == old(peak)
    {
      full := full - {index};
    }

    /** Every full stack in memory is the layer's own. */
    ghost predicate OnlyFull(index: int)
      reads this
    {
      && full.Keys <= {index}
      && forall i :: i in full ==> 0 <= i < |layers| && layers[i].Feed().Sparse? && full[i] == StoredStack(layers[i].Feed().moe)
    }

    /** The first `k` layers have taken the whole chunk. */
    ghost predicate Washed(k: nat, hs: seq<Row>, before: seq<CacheValue>, xs: seq<Row>)
      reads Caches()
      requires k <= |layers| == |before|
    {
      && |hs| == |xs| && Wide(hs, hidden) && CachesValid()
      && (Values()[..k], hs) == Swept(LayerMachines()[..k], before[..k], xs)
      && Values()[k..] == before[k..]
    }

    /** Swap the full stacks: drop the previous layer's, load this one's. */
    method Swap(index: nat)
      requires index < |layers| && peak <= 1 && OnlyFull(index - 1)
      modifies this
      ensures peak <= 1 && OnlyFull(index)
      ensures layers[index].Feed().Sparse? ==> index in full
    {
      if index > 0 { Clear(index - 1); }
      assert full.Keys == {};
      assert full == map[];
      Load(index);
      assert |full| <= 1 by {
        if layers[index].Feed().Sparse? {
          assert full == map[index := StoredStack(layers[index].Feed().moe)];
        }
      }
    }

    lemma WashedNext(index: nat, hs: seq<Row>, next: seq<Row>, values: seq<CacheValue>, before: seq<CacheValue>, xs: seq<Row>)
      requires index < |layers| == |before| == |values|
      requires (values[..index], hs) == Swept(LayerMachines()[..index], before[..index], xs)
      requires values[index..] == before[index..]
      requires (Values()[index], next) == Run(LayerMachine(layers[index]), values[index], hs)
      requires forall i :: 0 <= i < |layers| && i != index ==> Values()[i] == values[i]
      ensures (Values()[..index + 1], next) == Swept(LayerMachines()[..index + 1], before[..index + 1], xs)
      ensures Values()[index + 1..] == before[index + 1..]
    {
      SweptNext(LayerMachines(), before, xs, index);
      assert values[index] == values[index..][0] == before[index];
      assert Values()[..index + 1] == values[..index] + [Values()[index]];
      assert Values()[index + 1..] == values[index..][1..];
    }

    /** The whole chunk through one layer. */
    method PrefillAt(index: nat, stack: Option<seq<Expert>>, hs: seq<Row>) returns (next: seq<Row>)
      requires index < |layers| && ValidLayer(layers[index], hidden) && ValidCache(layers[index])
      requires |hs| > 1 && Wide(hs, hidden)
      requires layers[index].Feed().Sparse? ==> stack == Some(StoredStack(layers[index].Feed().moe))
      modifies layers[index].Cache()
      ensures (layers[index].Value(), next) == Run(LayerMachine(layers[index]), old(layers[index].Value()), hs)
      ensures ValidCache(layers[index]) && Wide(next, hidden)
    {
      next := PrefillLayer(layers[index], stack, hidden, hs);
    }

    method SweepLayer(index: nat, stack: Option<seq<Expert>>, hs: seq<Row>, ghost before: seq<CacheValue>, ghost xs: seq<Row>)
      returns (next: seq<Row>)
      requires Formed() && index < |layers| == |before| && Washed(index, hs, before, xs) && |xs| > 1
      requires layers[index].Feed().Sparse? ==> stack == Some(StoredStack(layers[index].Feed().moe))
      modifies layers[index].Cache()
      ensures Washed(index + 1, next, before, xs)
    {
      ghost var values := Values();
      next := PrefillAt(index, stack, hs);
      OthersKept(index);
      WashedNext(index, hs, next, values, before, xs);
    }

    /** One turn of the layer loop. */
    method TakeLayer(index: nat, hs: seq<Row>, ghost before: seq<CacheValue>, ghost xs: seq<Row>)
      returns (next: seq<Row>)
      requires Formed() && index < |layers| == |before| && Washed(index, hs, before, xs) && |xs| > 1
      requires peak <= 1 && OnlyFull(index - 1)
      modifies this, layers[index].Cache()
      ensures Washed(index + 1, next, before, xs) && peak <= 1 && OnlyFull(index)
    {
      assert layers[index].Cache() in Caches();
      Swap(index);
      var stack := if index in full then Some(full[index]) else None;
      next := SweepLayer(index, stack, hs, before, xs);
    }

    /** Layer after layer over the whole chunk, one full stack at a time. */
    method SweepLayers(xs: seq<Row>) returns (hs: seq<Row>)
      requires Valid() && |xs| > 1 && Wide(xs, hidden)
      modifies this, Caches()
      ensures Valid() && |hs| == |xs|
      ensures (Values(), hs) == Run(Stack(LayerMachines()), old(Values()), xs)
    {
      ghost var before := Values();
      hs := xs;
      for index := 0 to |layers|
        invariant Washed(index, hs, before, xs) && peak <= 1 && OnlyFull(index - 1)
      {
        hs := TakeLayer(index, hs, before, xs);
      }
      assert LayerMachines()[..|layers|] == LayerMachines() && before[..|layers|] == before;
      assert Values()[..|layers|] == Values();
      Interchange(LayerMachines(), before, xs);
      DropAll();
    }

    method DropAll()
      requires OnlyFull(|layers| - 1)
      modifies this
      ensures full == map[] && peak == old(peak)
    {
      for index := 0 to |layers|
        invariant peak == old(peak) && OnlyFull(|layers| - 1) && forall i :: i in full ==> i >= index
      {
        Clear(index);
      }
      assert full == map[];
    }

    /** Logits of the last token, and everything kept, as feeding the tokens one at a time gives them. */
    ghost predicate Led(before: seq<CacheValue>, ids: seq<nat>, logits: Row)
      reads Caches()
    {
      && ids != []
      && Values() == Run(TokenMachine(), before, ids).0
      && logits == Run(TokenMachine(), before, ids).1[|ids| - 1]
    }

    /** `prefill` */
    method Prefill(ids: seq<nat>) returns (logits: Option<Row>)
      requires Valid()
      modifies this, Caches()
      ensures Valid()
      ensures |ids| > 1 && (forall i :: 0 <= i < |ids| ==> ids[i] < vocabulary) ==>
                logits.Some? && Led(old(Values()), ids, logits.value)
      ensures |ids| <= 1 || (exists i :: 0 <= i < |ids| && ids[i] >= vocabulary) ==>
                logits == None && Values() == old(Values())
    {
      if |ids| <= 1 || exists i :: 0 <= i < |ids| && ids[i] >= vocabulary { return None; }
      ghost var before := Values();
      var hs := SweepLayers(Mapped(embed, ids));
      RunAround(embed, Stack(LayerMachines()), (id: nat, h: Row) => head(h), before, ids);
      logits := Some(head(hs[|hs| - 1]));
    }

    /** What the layer keeps before its first token. */
    function Fresh(l: StreamingLayer): CacheValue {
      match l
      case KdaLayer(_, _, _, _, _) => KdaState(K.KdaValue(K.Histories(None, None, None), None, 0))
      case MlaLayer(_, _, _, _, _) => MlaState(M.MlaValue(None, None, 0))
    }

    method ResetLayer(index: nat)
      requires Formed() && index < |layers|
      modifies layers[index].Cache()
      ensures layers[index].Value() == Fresh(layers[index]) && ValidCache(layers[index])
    {
      match layers[index]
      case KdaLayer(_, _, _, _, cache) => cache.Reset();
      case MlaLayer(_, _, _, _, cache) => cache.Reset();
    }

    /** `reset` */
    method Reset()
      requires Valid()
      modifies this, Caches()
      ensures Valid() && forall i :: 0 <= i < |layers| ==> Values()[i] == Fresh(layers[i])
    {
      for index := 0 to |layers|
        invariant CachesValid() && unchanged(this)
        invariant forall i :: 0 <= i < index ==> Values()[i] == Fresh(layers[i])
      {
        label Layer:
        ResetLayer(index);
        OthersKept@Layer(index);
      }
      full := map[];
    }
  }

  // ---- the prompt loop ---------------------------------------------------------------------------------

  const FULL_LAYER_PREFILL_MINIMUM: nat := 128
  const PREFILL_CHUNK: nat := 2048

  datatype Fed = Logits(logits: Row) | Cancelled | Failed | Refused

  /** After feeding the first `n` ids one by one the model stands where it stands now. */
  ghost predicate FedUpTo(model: StreamingModel, before: seq<CacheValue>, ids: seq<nat>, n: nat, output: Option<Row>)
    requires n <= |ids|
    reads model.Caches()
  {
    && model.Values() == Run(model.TokenMachine(), before, ids[..n]).0
    && (n > 0 ==> output == Some(Run(model.TokenMachine(), before, ids[..n]).1[n - 1]))
  }

  lemma FedMore(model: StreamingModel, before: seq<CacheValue>, ids: seq<nat>, n: nat, m: nat,
                middle: seq<CacheValue>, logits: Row)
    requires n < m <= |ids|
    requires middle == Run(model.TokenMachine(), before, ids[..n]).0
    requires model.Led(middle, ids[n..m], logits)
    ensures FedUpTo(model, before, ids, m, Some(logits))
  {
    var step := model.TokenMachine();
    assert ids[..m] == ids[..n] + ids[n..m];
    RunSplit(step, before, ids[..n], ids[n..m]);
  }

  ghost predicate AllKnown(model: StreamingModel, ids: seq<nat>) {
    forall i :: 0 <= i < |ids| ==> ids[i] < model.vocabulary
  }

  lemma UnknownWithin(model: StreamingModel, ids: seq<nat>, n: nat, m: nat)
    requires n <= m <= |ids| && !AllKnown(model, ids[n..m])
    ensures !AllKnown(model, ids)
  {
    var i :| 0 <= i < m - n && ids[n..m][i] >= model.vocabulary;
    assert ids[n + i] >= model.vocabulary;
  }

  lemma OneLeads(model: StreamingModel, before: seq<CacheValue>, id: nat, logits: Row)
    requires (model.Values(), logits) == model.TokenMachine()(before, id)
    ensures model.Led(before, [id], logits)
  {
    RunLast(model.TokenMachine(), before, [], id);
    assert [] + [id] == [id];
  }

  /** A chunk of several tokens is prefilled; a last chunk of one token is decoded. */
  method TakeChunk(model: StreamingModel, chunk: seq<nat>) returns (output: Option<Row>)
    requires model.Valid() && chunk != []
    modifies model, model.Caches()
    ensures model.Valid() && (output.Some? <==> AllKnown(model, chunk))
    ensures output.Some? ==> model.Led(old(model.Values()), chunk, output.value)
    ensures output.None? ==> model.Values() == old(model.Values())
  {
    if |chunk| > 1 {
      output := model.Prefill(chunk);
    } else {
      output := model.Decode(chunk[0]);
      assert chunk == [chunk[0]];
      if output.Some? {
        OneLeads(model, old(model.Values()), chunk[0], output.value);
      }
    }
  }

  /** Feed ids `n` to `m` as one chunk. */
  method FeedChunk(model: StreamingModel, ghost before: seq<CacheValue>, ids: seq<nat>, n: nat, m: nat, output: Option<Row>)
    returns (next: Option<Row>)
    requires model.Valid() && n < m <= |ids| && FedUpTo(model, before, ids, n, output)
    modifies model, model.Caches()
    ensures model.Valid()
    ensures next.Some? ==> FedUpTo(model, before, ids, m, next)
    ensures next.None? ==> FedUpTo(model, before, ids, n, output) && !AllKnown(model, ids)
  {
    ghost var middle := model.Values();
    next := TakeChunk(model, ids[n..m]);
    if next.Some? {
      FedMore(model, before, ids, n, m, middle, next.value);
    } else {
      UnknownWithin(model, ids, n, m);
    }
  }

  lemma FedNone(model: StreamingModel, ids: seq<nat>)
    ensures FedUpTo(model, model.Values(), ids, 0, None)
  {
    assert ids[..0] == [];
  }

  lemma FedAll(model: StreamingModel, before: seq<CacheValue>, ids: seq<nat>, output: Option<Row>)
    requires ids != [] && FedUpTo(model, before, ids, |ids|, output)
    ensures output.Some? && model.Led(before, ids, output.value)
  {
    assert ids[..|ids|] == ids;
  }

  ghost predicate Emptied(model: StreamingModel)
    reads model.Caches()
  {
    forall i :: 0 <= i < |model.layers| ==> model.Values()[i] == model.Fresh(model.layers[i])
  }

  method Empty(model: StreamingModel)
    requires model.Valid()
    modifies model, model.Caches()
    ensures model.Valid() && Emptied(model)
  {
    model.Reset();
  }

  /**
   The prompt part of `generateReply`: short prompts token by token, long ones in chunks. `goOn` answers
   the calls of `shouldContinue`, in order. However the prompt is cut, the model ends where feeding it
   token by token would have ended.
   */
  method FeedPrompt(model: StreamingModel, ids: seq<nat>, goOn: nat -> bool) returns (fed: Fed, ghost taken: nat)
    requires model.Valid()
    modifies model, model.Caches()
    ensures model.Valid() && taken <= |ids|
    ensures fed.Refused? <==> ids == []
    ensures fed.Refused? ==> model.Values() == old(model.Values())
    ensures fed.Logits? ==> model.Led(old(model.Values()), ids, fed.logits)
    ensures fed.Failed? ==> !AllKnown(model, ids) &&
                            model.Values() == Run(model.TokenMachine(), old(model.Values()), ids[..taken]).0
    ensures fed.Cancelled? ==> (exists call :: !goOn(call)) && Emptied(model)
  {
    if ids == [] { return Refused, 0; }
    if goOn(0) {
      FedNone(model, ids);
      fed, taken := FeedChunks(model, model.Values(), ids, goOn);
    } else {
      Empty(model);
      fed, taken := Cancelled, 0;
    }
  }

  method FeedChunks(model: StreamingModel, ghost before: seq<CacheValue>, ids: seq<nat>, goOn: nat -> bool)
    returns (fed: Fed, ghost taken: nat)
    requires model.Valid() && ids != [] && FedUpTo(model, before, ids, 0, None)
    modifies model, model.Caches()
    ensures model.Valid() && taken <= |ids|
    ensures fed.Logits? ==> model.Led(before, ids, fed.logits)
    ensures fed.Failed? ==> !AllKnown(model, ids) && model.Values() == Run(model.TokenMachine(), before, ids[..taken]).0
    ensures fed.Cancelled? ==> (exists call :: !goOn(call)) && Emptied(model)
    ensures !fed.Refused?
  {
    var output, start, calls := None, 0, 1;
    var step := if |ids| < FULL_LAYER_PREFILL_MINIMUM then 1 else PREFILL_CHUNK;
    while start < |ids| && goOn(calls)
      invariant 0 <= start <= |ids|
      invariant model.Valid() && FedUpTo(model, before, ids, start, output)
    {
      var end := if start + step < |ids| then start + step else |ids|;
      output := FeedChunk(model, before, ids, start, end, output);
      if output.None? { return Failed, start; }
      start, calls := end, calls + 1;
    }
    taken := start;
    if start < |ids| {
      Empty(model);
      fed := Cancelled;
    } else {
      FedAll(model, before, ids, output);
      fed := Logits(output.value);
    }
  }
}

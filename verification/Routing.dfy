/**
 What a routed feed-forward block computes, and the two ways
 ios/Sources/Edge0MLX/StreamingMoE.swift computes it: one token through a stack of its own experts
 (`executeGathered`, `executeStacked`) and a whole chunk sorted by expert (`fullLayerPrefill`).
 An expert is an uninterpreted function of one row; routing is a function of the token's row.
 */
module Routing {
  import opened Common
  import opened Indexing
  import opened Vectors

  type Expert = Row -> Row

  /** The chosen experts of one token and their weights. */
  datatype Route = Route(ids: seq<nat>, weights: seq<real>)

  function Term(outs: seq<Row>, weights: seq<real>, j: nat): int -> real {
    i => if 0 <= i < |outs| && i < |weights| && j < |outs[i]| then outs[i][j] * weights[i] else 0.0
  }

  /** `(outputs * weights).sum + shared` */
  function Mixed(outs: seq<Row>, weights: seq<real>, shared: Row): (r: Row)
    ensures |r| == |shared|
  {
    seq(|shared|, j requires 0 <= j < |shared| => Sum(|outs|, Term(outs, weights, j)) + shared[j])
  }

  function BankOutputs(bank: nat -> Expert, ids: seq<nat>, x: Row): (r: seq<Row>)
    ensures |r| == |ids|
  {
    seq(|ids|, i requires 0 <= i < |ids| => bank(ids[i])(x))
  }

  function StackOutputs(stack: seq<Expert>, ids: seq<nat>, x: Row): (r: seq<Row>)
    requires forall i :: 0 <= i < |ids| ==> ids[i] < |stack|
    ensures |r| == |ids|
  {
    seq(|ids|, i requires 0 <= i < |ids| => stack[ids[i]](x))
  }

  /** The weighted sum of the experts the route names, plus the shared expert. */
  function Routed(bank: nat -> Expert, shared: Expert, x: Row, route: Route): Row {
    Mixed(BankOutputs(bank, route.ids, x), route.weights, shared(x))
  }

  lemma TermAt(outs: seq<Row>, weights: seq<real>, j: nat, i: nat, x: real, weight: real)
    requires i < |outs| && i < |weights| && j < |outs[i]| && x == outs[i][j] && weight == weights[i]
    ensures Term(outs, weights, j)(i) == x * weight
  {
  }

  lemma TermsTotal(outs: seq<Row>, weights: seq<real>, j: nat, terms: Row)
    requires |terms| == |outs| == |weights|
    requires forall i :: 0 <= i < |terms| ==> j < |outs[i]| && terms[i] == outs[i][j] * weights[i]
    ensures Sum(|outs|, Term(outs, weights, j)) == Total(terms)
  {
    forall i | 0 <= i < |terms| ensures terms[i] == Term(outs, weights, j)(i) {
      TermAt(outs, weights, j, i, outs[i][j], weights[i]);
    }
    SumIsTotal(Term(outs, weights, j), terms);
  }

  lemma MixedAt(outs: seq<Row>, weights: seq<real>, shared: Row, j: nat, terms: Row)
    requires |terms| == |outs| == |weights| && j < |shared|
    requires forall i :: 0 <= i < |terms| ==> j < |outs[i]| && terms[i] == outs[i][j] * weights[i]
    ensures Mixed(outs, weights, shared)[j] == Total(terms) + shared[j]
  {
    TermsTotal(outs, weights, j, terms);
  }

  lemma OutputsAre(bank: nat -> Expert, ids: seq<nat>, x: Row, outs: seq<Row>)
    requires |outs| == |ids| && forall i :: 0 <= i < |outs| ==> outs[i] == bank(ids[i])(x)
    ensures BankOutputs(bank, ids, x) == outs
  {
  }

  /** Entry by entry: each named expert's output times its own weight, added up, plus the shared expert's. */
  lemma RoutedIs(bank: nat -> Expert, shared: Expert, x: Row, route: Route, outs: seq<Row>, j: nat, terms: Row)
    requires |terms| == |outs| == |route.ids| == |route.weights| && j < |shared(x)|
    requires forall i :: 0 <= i < |outs| ==> outs[i] == bank(route.ids[i])(x)
    requires forall i :: 0 <= i < |terms| ==> j < |outs[i]| && terms[i] == outs[i][j] * route.weights[i]
    ensures |Routed(bank, shared, x, route)| == |shared(x)|
    ensures Routed(bank, shared, x, route)[j] == Total(terms) + shared(x)[j]
  {
    OutputsAre(bank, route.ids, x, outs);
    MixedAt(outs, route.weights, shared(x), j, terms);
  }

  // ---- one token through a stack ----------------------------------------------------------------

  /** `executeStacked`: the route in terms of stack slots; an empty or unfitting route is an error. */
  function Stacked(stack: seq<Expert>, shared: Expert, x: Row, local: seq<nat>, weights: seq<real>): Option<Row> {
    if |local| == |weights| && local != [] && (forall i :: 0 <= i < |local| ==> local[i] < |stack|)
    then Some(Mixed(StackOutputs(stack, local, x), weights, shared(x)))
    else None
  }

  /** Slots that lead to the experts the route names give the routed sum. */
  lemma StackedIsRouted(bank: nat -> Expert, shared: Expert, x: Row, route: Route, stack: seq<Expert>, local: seq<nat>)
    requires |route.ids| == |route.weights| == |local| > 0
    requires forall i :: 0 <= i < |local| ==> local[i] < |stack| && stack[local[i]] == bank(route.ids[i])
    ensures Stacked(stack, shared, x, local, route.weights) == Some(Routed(bank, shared, x, route))
  {
    assert StackOutputs(stack, local, x) == BankOutputs(bank, route.ids, x);
  }

  // ---- sorting --------------------------------------------------------------------------------------

  predicate Permutes(order: seq<nat>, n: nat) {
    && |order| == n
    && (forall p :: 0 <= p < n ==> order[p] < n)
    && (forall p, q :: 0 <= p < q < n ==> order[p] != order[q])
  }

  /** `order` lists the positions of `keys` in ascending order of key, ties in any order. */
  predicate IsArgSort(order: seq<nat>, keys: seq<nat>) {
    && Permutes(order, |keys|)
    && forall p, q :: 0 <= p < q < |keys| ==> keys[order[p]] <= keys[order[q]]
  }

  function Taken<T>(s: seq<T>, order: seq<nat>): (r: seq<T>)
    requires forall p :: 0 <= p < |order| ==> order[p] < |s|
    ensures |r| == |order|
  {
    seq(|order|, p requires 0 <= p < |order| => s[order[p]])
  }

  lemma {:induction false} AtLeastIndex(s: seq<nat>, p: nat)
    requires forall i, j :: 0 <= i < j < |s| ==> s[i] < s[j]
    requires p < |s|
    ensures p <= s[p]
  {
    if p > 0 {
      AtLeastIndex(s, p - 1);
    }
  }

  lemma {:induction false} AtMostIndex(s: seq<nat>, p: nat)
    requires forall i, j :: 0 <= i < j < |s| ==> s[i] < s[j]
    requires forall i :: 0 <= i < |s| ==> s[i] < |s|
    requires p < |s|
    ensures s[p] <= p
    decreases |s| - p
  {
    if p + 1 < |s| {
      AtMostIndex(s, p + 1);
    }
  }

  /** Sorting the positions of a permutation inverts it. */
  lemma ArgSortInverts(order: seq<nat>, inverse: seq<nat>, p: nat)
    requires Permutes(order, |order|) && IsArgSort(inverse, order) && p < |order|
    ensures order[inverse[p]] == p
    ensures inverse[order[p]] == p
  {
    var s := Taken(order, inverse);
    forall i, j | 0 <= i < j < |s| ensures s[i] < s[j] {
      assert inverse[i] != inverse[j];
    }
    AtLeastIndex(s, p);
    AtMostIndex(s, p);
    AtLeastIndex(s, order[p]);
    AtMostIndex(s, order[p]);
    assert order[inverse[order[p]]] == order[p];
  }

  // ---- a chunk, sorted by expert ------------------------------------------------------------------------

  /** `order / topK`: the token of each sorted position. */
  function TokenRows(order: seq<nat>, topK: nat): (r: seq<nat>)
    requires topK > 0
    ensures |r| == |order|
  {
    seq(|order|, p requires 0 <= p < |order| => order[p] / topK)
  }

  /** Position `t * topK + i` of the flattened routes. */
  function Flattened(routes: seq<Route>, topK: nat): (r: seq<nat>)
    requires topK > 0 && forall t :: 0 <= t < |routes| ==> |routes[t].ids| == topK
    ensures |r| == |routes| * topK
  {
    if routes == [] then []
    else
      assert |routes| * topK == (|routes| - 1) * topK + topK;
      Flattened(routes[..|routes| - 1], topK) + routes[|routes| - 1].ids
  }

  lemma {:induction false} FlattenedAt(routes: seq<Route>, topK: nat, t: nat, i: nat)
    requires topK > 0 && forall t :: 0 <= t < |routes| ==> |routes[t].ids| == topK
    requires t < |routes| && i < topK
    ensures 0 <= t * topK + i < |routes| * topK
    ensures Flattened(routes, topK)[t * topK + i] == routes[t].ids[i]
    ensures (t * topK + i) / topK == t
  {
    var n := |routes| - 1;
    assert |routes| * topK == n * topK + topK;
    Split(t, i, topK);
    if t < n {
      FlattenedAt(routes[..n], topK, t, i);
    }
  }

  /** One sparse layer: its router, experts, shared expert, and the library's argsort. */
  datatype MoeBlock = MoeBlock(hidden: nat, experts: nat, topK: nat, route: Row -> Route,
                               bank: nat -> Expert, shared: Expert, argSort: seq<nat> -> seq<nat>)

  ghost predicate ValidMoe(b: MoeBlock) {
    && b.topK > 0
    && (forall x :: |x| == b.hidden ==> |b.route(x).ids| == |b.route(x).weights| == b.topK)
    && (forall x, i :: |x| == b.hidden && 0 <= i < b.topK ==> b.route(x).ids[i] < b.experts)
    && (forall x :: |x| == b.hidden ==> |b.shared(x)| == b.hidden)
    && (forall keys :: IsArgSort(b.argSort(keys), keys))
  }

  /** What the layer's exact path computes for one token. */
  function Mixture(b: MoeBlock, x: Row): Row {
    Routed(b.bank, b.shared, x, b.route(x))
  }

  function Routes(b: MoeBlock, xs: seq<Row>): (r: seq<Route>)
    ensures |r| == |xs|
  {
    seq(|xs|, t requires 0 <= t < |xs| => b.route(xs[t]))
  }

  /** Every entry of the flattened routes belongs to a token and names one of the layer's experts. */
  lemma {:induction false} FlattenedFits(routes: seq<Route>, topK: nat, experts: nat, p: nat)
    requires topK > 0 && forall t :: 0 <= t < |routes| ==> |routes[t].ids| == topK
    requires forall t, i :: 0 <= t < |routes| && 0 <= i < topK ==> routes[t].ids[i] < experts
    requires p < |routes| * topK
    ensures Flattened(routes, topK)[p] < experts && p / topK < |routes|
  {
    var n := |routes| - 1;
    assert |routes| * topK == n * topK + topK;
    if p < n * topK {
      FlattenedFits(routes[..n], topK, experts, p);
    } else {
      Split(n, p - n * topK, topK);
      assert Flattened(routes, topK)[p] == routes[n].ids[p - n * topK];
    }
  }

  /** The sorted gather: what each sorted position computes. */
  function SortedOutput(stack: seq<Expert>, xs: seq<Row>, flat: seq<nat>, order: seq<nat>, topK: nat): (r: seq<Row>)
    requires topK > 0
    requires forall p :: 0 <= p < |order| ==> order[p] < |flat| && order[p] / topK < |xs| && flat[order[p]] < |stack|
    ensures |r| == |order|
  {
    var inputs, experts := Taken(xs, TokenRows(order, topK)), Taken(flat, order);
    seq(|order|, p requires 0 <= p < |order| => stack[experts[p]](inputs[p]))
  }

  /** The experts handed to the kernel never descend. */
  lemma SortedExpertsAscend(flat: seq<nat>, order: seq<nat>, p: nat, q: nat)
    requires IsArgSort(order, flat) && p <= q < |flat|
    ensures Taken(flat, order)[p] <= Taken(flat, order)[q]
  {
  }

  /** Unsorting puts every output back at the position that asked for it. */
  lemma Unsorted(stack: seq<Expert>, xs: seq<Row>, flat: seq<nat>, order: seq<nat>, inverse: seq<nat>, topK: nat, p: nat)
    requires topK > 0 && IsArgSort(order, flat) && IsArgSort(inverse, order) && p < |flat|
    requires forall i :: 0 <= i < |flat| ==> i / topK < |xs| && flat[i] < |stack|
    ensures Taken(SortedOutput(stack, xs, flat, order, topK), inverse)[p] == stack[flat[p]](xs[p / topK])
  {
    ArgSortInverts(order, inverse, p);
  }

  /** A chunk's flattened routes: every entry belongs to a token and names an expert of the stack. */
  ghost predicate Gathered(stack: seq<Expert>, xs: seq<Row>, routes: seq<Route>, topK: nat, flat: seq<nat>) {
    && topK > 0 && |routes| == |xs| && (forall j :: 0 <= j < |routes| ==> |routes[j].ids| == topK)
    && flat == Flattened(routes, topK)
    && (forall p :: 0 <= p < |flat| ==> flat[p] < |stack| && p / topK < |xs|)
  }

  /** The `i`th output token `t` gets back is its own `i`th expert on its own row. */
  lemma OwnOutput(stack: seq<Expert>, xs: seq<Row>, routes: seq<Route>, topK: nat,
                  flat: seq<nat>, order: seq<nat>, inverse: seq<nat>, t: nat, i: nat)
    requires Gathered(stack, xs, routes, topK, flat) && IsArgSort(order, flat) && IsArgSort(inverse, order)
    requires t < |xs| && i < topK
    ensures 0 <= t * topK <= t * topK + i < |flat| && routes[t].ids[i] < |stack|
    ensures Taken(SortedOutput(stack, xs, flat, order, topK), inverse)[t * topK + i] == stack[routes[t].ids[i]](xs[t])
  {
    Product(t, topK);
    FlattenedAt(routes, topK, t, i);
    Unsorted(stack, xs, flat, order, inverse, topK, t * topK + i);
  }

  /** Row `t` of the unsorted outputs reshaped to tokens by top-k, weighted, summed, with the shared expert added. */
  method TokenMixture(expertOutput: seq<Row>, b: MoeBlock, stack: seq<Expert>, xs: seq<Row>, routes: seq<Route>,
                      flat: seq<nat>, order: seq<nat>, inverse: seq<nat>, t: nat)
    returns (row: Row)
    requires Gathered(stack, xs, routes, b.topK, flat) && IsArgSort(order, flat) && IsArgSort(inverse, order)
    requires expertOutput == Taken(SortedOutput(stack, xs, flat, order, b.topK), inverse)
    requires t < |xs|
    ensures forall i :: 0 <= i < |routes[t].ids| ==> routes[t].ids[i] < |stack|
    ensures row == Mixed(StackOutputs(stack, routes[t].ids, xs[t]), routes[t].weights, b.shared(xs[t]))
  {
    var outs := [];
    for i := 0 to b.topK
      invariant |outs| == i
      invariant forall j :: 0 <= j < i ==> routes[t].ids[j] < |stack| && outs[j] == stack[routes[t].ids[j]](xs[t])
    {
      OwnOutput(stack, xs, routes, b.topK, flat, order, inverse, t, i);
      outs := outs + [expertOutput[t * b.topK + i]];
    }
    assert outs == StackOutputs(stack, routes[t].ids, xs[t]);
    row := Mixed(outs, routes[t].weights, b.shared(xs[t]));
  }

  lemma ChunkGathers(b: MoeBlock, stack: seq<Expert>, xs: seq<Row>)
    requires ValidMoe(b) && (forall t :: 0 <= t < |xs| ==> |xs[t]| == b.hidden) && |stack| == b.experts
    ensures forall t :: 0 <= t < |xs| ==> |Routes(b, xs)[t].ids| == b.topK
    ensures Gathered(stack, xs, Routes(b, xs), b.topK, Flattened(Routes(b, xs), b.topK))
  {
    var routes := Routes(b, xs);
    var flat := Flattened(routes, b.topK);
    forall p | 0 <= p < |flat| ensures flat[p] < b.experts && p / b.topK < |xs| {
      FlattenedFits(routes, b.topK, b.experts, p);
    }
  }

  lemma SameMixture(b: MoeBlock, stack: seq<Expert>, x: Row)
    requires ValidMoe(b) && |x| == b.hidden
    requires |stack| == b.experts && forall e :: 0 <= e < |stack| ==> stack[e] == b.bank(e)
    ensures Mixed(StackOutputs(stack, b.route(x).ids, x), b.route(x).weights, b.shared(x)) == Mixture(b, x)
  {
    assert StackOutputs(stack, b.route(x).ids, x) == BankOutputs(b.bank, b.route(x).ids, x);
  }

  /** `fullLayerPrefill` gives every token the routed sum its own turn would have given. */
  method FullLayerPrefill(b: MoeBlock, stack: seq<Expert>, xs: seq<Row>) returns (rows: seq<Row>)
    requires ValidMoe(b) && |xs| > 1 && forall t :: 0 <= t < |xs| ==> |xs[t]| == b.hidden
    requires |stack| == b.experts && forall e :: 0 <= e < |stack| ==> stack[e] == b.bank(e)
    ensures |rows| == |xs| && forall t :: 0 <= t < |xs| ==> rows[t] == Mixture(b, xs[t])
  {
    ChunkGathers(b, stack, xs);
    var routes := Routes(b, xs);
    var flat := Flattened(routes, b.topK);
    var order := b.argSort(flat);
    var inverse := b.argSort(order);
    var expertOutput := Taken(SortedOutput(stack, xs, flat, order, b.topK), inverse);
    rows := [];
    for t := 0 to |xs|
      invariant |rows| == t && forall i :: 0 <= i < t ==> rows[i] == Mixture(b, xs[i])
    {
      var row := TokenMixture(expertOutput, b, stack, xs, routes, flat, order, inverse, t);
      SameMixture(b, stack, xs[t]);
      rows := rows + [row];
    }
  }
}

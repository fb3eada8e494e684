/**
 The decode side of one sparse layer in ios/Sources/Edge0MLX/StreamingMoE.swift: the exact path, the
 staging of a predicted expert set (pending, then active), and the predicted path over it.
 `store(key)` is what the store hands out for an expert it can load.
 */
module Staging {
  import opened Common
  import opened Vectors
  import opened Routing
  import opened Recency
  import opened BundleCache

  datatype Outcome<+T> = Ok(value: T) | Failed

  // ---- `Array(Set(ids)).sorted()` -----------------------------------------------------------

  predicate Ascending(s: seq<nat>) {
    forall i, j :: 0 <= i < j < |s| ==> s[i] < s[j]
  }

  function Inserted(s: seq<nat>, x: nat): (r: seq<nat>)
    requires Ascending(s)
    ensures Ascending(r) && r != [] && forall y :: y in r <==> y in s || y == x
  {
    if s == [] then [x]
    else if s[|s| - 1] < x then s + [x]
    else if s[|s| - 1] == x then s
    else
      var front := Inserted(s[..|s| - 1], x);
      assert s == s[..|s| - 1] + [s[|s| - 1]];
      assert forall i :: 0 <= i < |front| ==> front[i] in front;
      front + [s[|s| - 1]]
  }

  /** The distinct ids in ascending order. */
  function Canonical(ids: seq<nat>): (r: seq<nat>)
    ensures Ascending(r) && (r == [] <==> ids == []) && forall y :: y in r <==> y in ids
  {
    if ids == [] then []
    else
      assert ids == ids[..|ids| - 1] + [ids[|ids| - 1]];
      Inserted(Canonical(ids[..|ids| - 1]), ids[|ids| - 1])
  }

  // ---- bundles that are what the store would hand out --------------------------------------------

  ghost predicate Genuine(bundles: map<nat, Expert>, bank: nat -> Expert) {
    forall id :: id in bundles ==> bundles[id] == bank(id)
  }

  /** Slot `i` of the stack holds expert `order[i]`. */
  ghost predicate StackOf(stack: seq<Expert>, order: seq<nat>, bank: nat -> Expert) {
    |stack| == |order| && forall i :: 0 <= i < |order| ==> stack[i] == bank(order[i])
  }

  /** Everything the cache all layers share was given came from the store. */
  ghost predicate GenuineCache(latest: map<Key, Expert>, store: Key -> Expert) {
    forall key :: key in latest ==> latest[key] == store(key)
  }

  /** `Dictionary(uniqueKeysWithValues: zip(order, bundles))` */
  function Zip(order: seq<nat>, bundles: seq<Expert>): (m: map<nat, Expert>)
    requires |order| == |bundles|
    ensures forall id :: id in m <==> id in order
  {
    if order == [] then map[]
    else
      assert order == order[..|order| - 1] + [order[|order| - 1]];
      Zip(order[..|order| - 1], bundles[..|bundles| - 1])[order[|order| - 1] := bundles[|bundles| - 1]]
  }

  lemma {:induction false} ZipGenuine(order: seq<nat>, bundles: seq<Expert>, bank: nat -> Expert)
    requires StackOf(bundles, order, bank)
    ensures Genuine(Zip(order, bundles), bank)
  {
    if order != [] {
      ZipGenuine(order[..|order| - 1], bundles[..|order| - 1], bank);
    }
  }

  /** `QuantizedExpertStack(experts:)` refuses an empty list. */
  function Stack(experts: seq<Expert>): Outcome<seq<Expert>> {
    if experts == [] then Failed else Ok(experts)
  }

  /** The slot of an id in an order list, as the dictionaries `localByID` and `slotByID` give it. */
  function SlotOf(order: seq<nat>, id: nat): (slot: nat)
    requires id in order
    ensures slot < |order| && order[slot] == id
  {
    if order[|order| - 1] == id then |order| - 1
    else
      assert order == order[..|order| - 1] + [order[|order| - 1]];
      SlotOf(order[..|order| - 1], id)
  }

  function Slots(order: seq<nat>, ids: seq<nat>): (r: seq<nat>)
    requires forall id :: id in ids ==> id in order
    ensures |r| == |ids|
  {
    seq(|ids|, i requires 0 <= i < |ids| => SlotOf(order, ids[i]))
  }

  /** A stack in any order that has all the route's experts gives the routed sum. */
  lemma AnyStackServes(stack: seq<Expert>, order: seq<nat>, bank: nat -> Expert, shared: Expert, x: Row, route: Route)
    requires StackOf(stack, order, bank) && forall id :: id in route.ids ==> id in order
    ensures Stacked(stack, shared, x, Slots(order, route.ids), route.weights) ==
            if |route.ids| == |route.weights| && route.ids != [] then Some(Routed(bank, shared, x, route)) else None
  {
    var local := Slots(order, route.ids);
    if |route.ids| == |route.weights| && route.ids != [] {
      forall i | 0 <= i < |local| ensures local[i] < |stack| && stack[local[i]] == bank(route.ids[i]) {
        assert route.ids[i] in route.ids;
      }
      StackedIsRouted(bank, shared, x, route, stack, local);
    }
  }

  // ---- workers of a parallel resolve -------------------------------------------------------------

  /** A worker has not looked the expert up yet, has missed it and is loading, or is finished. */
  datatype Progress = Waiting | Loading | Resolved(expert: Expert) | Refused

  function Left(workers: seq<Progress>): nat {
    if workers == [] then 0
    else
      Left(workers[..|workers| - 1])
      + match workers[|workers| - 1] case Waiting => 2 case Loading => 1 case Resolved(_) => 0 case Refused => 0
  }

  predicate Finished(p: Progress) {
    p.Resolved? || p.Refused?
  }

  lemma {:induction false} LeftDrops(workers: seq<Progress>, i: nat, next: Progress)
    requires i < |workers| && !Finished(workers[i]) && (next.Loading? ==> workers[i].Waiting?) && !next.Waiting?
    ensures Left(workers[i := next]) < Left(workers)
  {
    var n := |workers| - 1;
    if i == n {
      assert workers[i := next][..n] == workers[..n];
    } else {
      assert workers[i := next][..n] == workers[..n][i := next];
      LeftDrops(workers[..n], i, next);
    }
  }

  /** What each worker has so far is genuine, and only an expert that cannot be loaded is refused. */
  ghost predicate SoFar(workers: seq<Progress>, ids: seq<nat>, bank: nat -> Expert, loadable: nat -> bool) {
    && |workers| == |ids|
    && (forall i :: 0 <= i < |ids| && workers[i].Resolved? ==> workers[i].expert == bank(ids[i]))
    && (forall i :: 0 <= i < |ids| && workers[i].Refused? ==> !loadable(ids[i]))
  }

  // ---- the layer ---------------------------------------------------------------------------------------

  class StreamingMoE {
    const layer: nat
    const store: Key -> Expert
    const bank: nat -> Expert
    const loadable: nat -> bool
    const shared: Expert
    const teacher: Row -> Route
    const cache: ExpertBundleCache<Expert>

    var stagedBundles: map<nat, Expert>
    var stagedStack: Option<seq<Expert>>
    var stagedOrder: seq<nat>
    var pendingOrder: seq<nat>
    var pendingBundles: Option<seq<Expert>>
    var calls: nat
    var stagedUsed: nat
    var stagedFallback: nat

    /** Whatever is staged or pending is what the store would hand out. */
    ghost predicate Own()
      reads this
    {
      && (forall id :: bank(id) == store(Key(layer, id)))
      && Genuine(stagedBundles, bank)
      && (stagedStack.Some? ==> StackOf(stagedStack.value, stagedOrder, bank))
      && (pendingBundles.Some? ==> StackOf(pendingBundles.value, pendingOrder, bank))
    }

    ghost predicate Valid()
      reads this, cache
    {
      Own() && cache.Valid() && GenuineCache(cache.latest, store)
    }

    constructor (layer: nat, store: Key -> Expert, loadable: nat -> bool, shared: Expert, teacher: Row -> Route,
                 cache: ExpertBundleCache<Expert>)
      requires cache.Valid() && GenuineCache(cache.latest, store)
      ensures Valid() && this.layer == layer && this.store == store && this.loadable == loadable
      ensures this.shared == shared && this.teacher == teacher && this.cache == cache
      ensures stagedStack == None && pendingBundles == None && stagedFallback == 0
    {
      this.layer, this.store, this.loadable, this.shared := layer, store, loadable, shared;
      this.bank, this.teacher, this.cache := (id: nat) => store(Key(layer, id)), teacher, cache;
      stagedBundles, stagedStack, stagedOrder, pendingOrder, pendingBundles := map[], None, [], [], None;
      calls, stagedUsed, stagedFallback := 0, 0, 0;
    }

    /** `activatePendingStage`: promote the pending set if it is the set now wanted. */
    method Activate(expected: seq<nat>) returns (ok: bool)
      requires Valid()
      modifies `stagedBundles, `stagedStack, `stagedOrder, `pendingOrder, `pendingBundles
      ensures Valid()
      ensures !ok ==> Canonical(expected) == []
      ensures old(pendingBundles.Some?) && old(pendingOrder) == Canonical(expected) != [] ==>
                ok && stagedOrder == Canonical(expected) && stagedStack.Some? && pendingBundles == None
      ensures !(old(pendingBundles.Some?) && old(pendingOrder) == Canonical(expected)) ==>
                ok && stagedOrder == old(stagedOrder) && stagedStack == old(stagedStack)
                && pendingOrder == old(pendingOrder) && pendingBundles == old(pendingBundles)
    {
      if pendingOrder != Canonical(expected) || pendingBundles.None? { return true; }
      ok := Promote(pendingBundles.value);
    }

    /** The pending set becomes the staged one; what is staged already is not stacked again. */
    method Promote(bundles: seq<Expert>) returns (ok: bool)
      requires Valid() && pendingBundles == Some(bundles)
      modifies `stagedBundles, `stagedStack, `stagedOrder, `pendingOrder, `pendingBundles
      ensures Valid()
      ensures ok <==> old(pendingOrder) != [] || (old(stagedOrder) == [] && old(stagedStack).Some?)
      ensures ok ==> stagedOrder == old(pendingOrder) && stagedStack.Some? && pendingBundles == None
    {
      if pendingOrder == stagedOrder && stagedStack.Some? {
        pendingBundles, pendingOrder := None, [];
        return true;
      }
      ZipGenuine(pendingOrder, bundles, bank);
      stagedBundles := Zip(pendingOrder, bundles);
      match Stack(bundles) {
        case Failed => return false;
        case Ok(stack) =>
          stagedStack := Some(stack);
          stagedOrder := pendingOrder;
          pendingBundles, pendingOrder := None, [];
          ok := true;
      }
    }

    /** `resetStaging` */
    method ResetStaging()
      requires Valid()
      modifies `stagedBundles, `stagedStack, `stagedOrder, `pendingOrder, `pendingBundles
      ensures Valid() && stagedStack == None && pendingBundles == None && stagedOrder == [] && pendingOrder == []
    {
      pendingBundles, pendingOrder := None, [];
      stagedBundles, stagedStack, stagedOrder := map[], None, [];
    }

    // ---- resolving experts ---------------------------------------------------------------------

    /** One atomic step of worker `i`: a lookup under the cache's lock, or a load with its put. */
    method StepWorker(ids: seq<nat>, workers: seq<Progress>, i: nat) returns (next: Progress)
      requires Valid() && SoFar(workers, ids, bank, loadable) && i < |workers| && !Finished(workers[i])
      modifies cache
      ensures Valid() && SoFar(workers[i := next], ids, bank, loadable)
      ensures Left(workers[i := next]) < Left(workers)
    {
      next := Advance(ids[i], workers[i]);
      LeftDrops(workers, i, next);
    }

    method Advance(id: nat, worker: Progress) returns (next: Progress)
      requires Valid() && !Finished(worker)
      modifies cache
      ensures Valid() && !next.Waiting? && (next.Loading? ==> worker.Waiting?)
      ensures (next.Resolved? ==> next.expert == bank(id)) && (next.Refused? ==> !loadable(id))
    {
      if worker.Waiting? {
        if id in stagedBundles {
          next := Resolved(stagedBundles[id]);
        } else {
          var found := cache.Get(Key(layer, id));
          next := if found.Some? then Resolved(found.value) else Loading;
        }
      } else if loadable(id) {
        next := Resolved(bank(id));
        cache.Put(Key(layer, id), bank(id));
      } else {
        next := Refused;
      }
    }

    /** `resolveExperts`: one worker an id, their steps interleaved in any order. */
    method ResolveExperts(ids: seq<nat>) returns (experts: Outcome<seq<Expert>>)
      requires Valid()
      modifies cache
      ensures Valid()
      ensures experts.Ok? ==> StackOf(experts.value, ids, bank)
      ensures experts.Ok? || exists id :: id in ids && !loadable(id)
    {
      var workers := seq(|ids|, i requires 0 <= i < |ids| => Waiting);
      while exists i :: 0 <= i < |workers| && !Finished(workers[i])
        invariant Valid() && SoFar(workers, ids, bank, loadable)
        decreases Left(workers)
      {
        var i :| 0 <= i < |workers| && !Finished(workers[i]);
        var next := StepWorker(ids, workers, i);
        workers := workers[i := next];
      }
      if exists i :: 0 <= i < |workers| && workers[i].Refused? {
        var i :| 0 <= i < |workers| && workers[i].Refused?;
        assert ids[i] in ids;
        experts := Failed;
      } else {
        assert forall i :: 0 <= i < |workers| ==> Finished(workers[i]);
        experts := Ok(seq(|workers|, i requires 0 <= i < |workers| => workers[i].expert));
      }
    }

    /** `executeGathered` */
    method ExecuteGathered(x: Row, ids: seq<nat>, weights: seq<real>) returns (row: Outcome<Row>)
      requires Valid()
      modifies cache
      ensures Valid()
      ensures row.Ok? ==> row.value == Routed(bank, shared, x, Route(ids, weights))
      ensures row.Ok? || ids == [] || |ids| != |weights| || exists id :: id in ids && !loadable(id)
    {
      if |ids| != |weights| { return Failed; }
      var unique := Canonical(ids);
      var experts := ResolveExperts(unique);
      if experts.Failed? { return Failed; }
      match Stack(experts.value) {
        case Failed => return Failed;
        case Ok(stack) =>
          AnyStackServes(stack, unique, bank, shared, x, Route(ids, weights));
          var result := Stacked(stack, shared, x, Slots(unique, ids), weights);
          row := if result.Some? then Ok(result.value) else Failed;
      }
    }

    /** `callAsFunction`: the exact path. */
    method Exact(x: Row) returns (row: Outcome<Row>)
      requires Valid()
      modifies this, cache
      ensures Valid() && calls == old(calls) + 1
      ensures stagedStack == old(stagedStack) && stagedOrder == old(stagedOrder)
      ensures pendingOrder == old(pendingOrder) && pendingBundles == old(pendingBundles)
      ensures stagedFallback == old(stagedFallback)
      ensures row.Ok? ==> row.value == Routed(bank, shared, x, teacher(x))
      ensures row.Ok? || teacher(x).ids == [] || |teacher(x).ids| != |teacher(x).weights|
              || exists id :: id in teacher(x).ids && !loadable(id)
    {
      calls := calls + 1;
      row := ExecuteGathered(x, teacher(x).ids, teacher(x).weights);
    }

    /** `predicted`: whatever path it takes, the result is the routed sum of the route it was given. */
    method Predicted(x: Row, route: Route) returns (row: Outcome<Row>)
      requires Valid()
      modifies this, cache
      ensures Valid()
      ensures row.Ok? ==> row.value == Routed(bank, shared, x, route)
      ensures row.Ok? || route.ids == [] || |route.ids| != |route.weights| || exists id :: id in route.ids && !loadable(id)
      ensures old(pendingBundles.Some?) && old(pendingOrder) == Canonical(route.ids) && route.ids != [] ==>
                stagedFallback == old(stagedFallback) && pendingBundles == None
    {
      calls := calls + 1;
      var ok := Activate(route.ids);
      if !ok { return Failed; }
      if Members(route.ids) == Members(stagedOrder) && stagedStack.Some? {
        assert forall id :: id in route.ids ==> id in Members(route.ids);
        stagedUsed := stagedUsed + |route.ids|;
        row := ExecuteStaged(x, stagedStack.value, route);
      } else {
        stagedFallback := stagedFallback + 1;
        row := ExecuteGathered(x, route.ids, route.weights);
      }
    }

    /** `executeStaged` */
    method ExecuteStaged(x: Row, stack: seq<Expert>, route: Route) returns (row: Outcome<Row>)
      requires StackOf(stack, stagedOrder, bank) && forall id :: id in route.ids ==> id in stagedOrder
      ensures row == if |route.ids| == |route.weights| && route.ids != [] then Ok(Routed(bank, shared, x, route)) else Failed
    {
      if |route.ids| != |route.weights| || |stagedOrder| != |stack| { return Failed; }
      AnyStackServes(stack, stagedOrder, bank, shared, x, route);
      var result := Stacked(stack, shared, x, Slots(stagedOrder, route.ids), route.weights);
      row := if result.Some? then Ok(result.value) else Failed;
    }

    // ---- staging ------------------------------------------------------------------------------------

    /** `loadExpertsFromStore`: reads of the store in any order, all or nothing. */
    method LoadFromStore(ids: seq<nat>) returns (loaded: Outcome<seq<Expert>>)
      ensures loaded.Ok? ==> StackOf(loaded.value, ids, bank)
      ensures loaded.Ok? || exists id :: id in ids && !loadable(id)
    {
      if exists i :: 0 <= i < |ids| && !loadable(ids[i]) { return Failed; }
      loaded := Ok(seq(|ids|, i requires 0 <= i < |ids| => bank(ids[i])));
    }

    /** Every position is either found already or listed as missing, in order. */
    ghost predicate Sifted(ordered: seq<nat>, n: nat, bundles: seq<Option<Expert>>, missing: seq<nat>) {
      && n <= |ordered| == |bundles|
      && (forall p :: 0 <= p < |ordered| && bundles[p].Some? ==> bundles[p].value == bank(ordered[p]))
      && (forall p :: 0 <= p < n ==> bundles[p].Some? || p in missing)
      && (forall k :: 0 <= k < |missing| ==> missing[k] < n)
    }

    /** The first loop of `stage`: what is already staged or cached, and the positions that are not. */
    method Sift(ordered: seq<nat>) returns (bundles: seq<Option<Expert>>, missing: seq<nat>)
      requires Valid()
      modifies cache
      ensures Valid() && Sifted(ordered, |ordered|, bundles, missing)
    {
      bundles, missing := seq(|ordered|, i requires 0 <= i < |ordered| => None), [];
      for position := 0 to |ordered|
        invariant Valid() && Sifted(ordered, position, bundles, missing)
      {
        var id := ordered[position];
        if id in stagedBundles {
          bundles := bundles[position := Some(stagedBundles[id])];
        } else {
          var cached := cache.Get(Key(layer, id));
          if cached.Some? {
            bundles := bundles[position := cached];
          } else {
            missing := missing + [position];
          }
        }
      }
    }

    /** The second loop of `stage`: loaded bundles into their positions and into the cache. */
    method Fill(ordered: seq<nat>, found: seq<Option<Expert>>, missing: seq<nat>, loaded: seq<Expert>)
      returns (bundles: seq<Expert>)
      requires Valid() && Sifted(ordered, |ordered|, found, missing)
      requires |loaded| == |missing| && forall i :: 0 <= i < |missing| ==> loaded[i] == bank(ordered[missing[i]])
      modifies cache
      ensures Valid() && StackOf(bundles, ordered, bank)
    {
      var slots := found;
      for i := 0 to |missing|
        invariant Valid() && Sifted(ordered, |ordered|, slots, missing[i..])
      {
        assert missing[i] == missing[i..][0] && missing[i..] == [missing[i]] + missing[i + 1..];
        slots := slots[missing[i] := Some(loaded[i])];
        cache.Put(Key(layer, ordered[missing[i]]), loaded[i]);
      }
      bundles := seq(|ordered|, p requires 0 <= p < |ordered| => slots[p].value);
    }

    /** `stage`: the next set, complete or not at all; what is active stays active. */
    method Stage(experts: seq<nat>) returns (ok: bool)
      requires Valid()
      modifies `pendingOrder, `pendingBundles, cache
      ensures Valid()
      ensures ok ==> pendingOrder == Canonical(experts) && pendingBundles.Some?
      ensures !ok ==> pendingOrder == old(pendingOrder) && pendingBundles == old(pendingBundles)
      ensures ok || exists id :: id in experts && !loadable(id)
    {
      var ordered := Canonical(experts);
      var found, missing := Sift(ordered);
      var ids := seq(|missing|, i requires 0 <= i < |missing| => ordered[missing[i]]);
      var loaded := LoadFromStore(ids);
      if loaded.Failed? {
        var id :| id in ids && !loadable(id);
        var i :| 0 <= i < |ids| && ids[i] == id;
        assert ordered[missing[i]] in ordered;
        return false;
      }
      var bundles := Fill(ordered, found, missing, loaded.value);
      pendingOrder, pendingBundles := ordered, Some(bundles);
      ok := true;
    }
  }

  /** The exact path computes what the layer of the whole-model refinement takes its feed-forward to be. */
  method ExactMixture(m: StreamingMoE, b: MoeBlock, x: Row) returns (row: Outcome<Row>)
    requires m.Valid() && m.bank == b.bank && m.shared == b.shared && m.teacher == b.route
    modifies m, m.cache
    ensures m.Valid() && (row.Ok? ==> row.value == Mixture(b, x))
  {
    row := m.Exact(x);
  }
}

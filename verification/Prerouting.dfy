/**
 Predicted routes from one step to the next: `LingPrerouter.predict` of
 ios/Sources/Edge0MLX/LingPrerouter.swift and the step boundary of
 ios/Sources/Edge0MLX/StreamingEdge0Model8B.swift (`callAsFunction`, `prefill`, `updateStagedRoutes`,
 `reset`). The rows that reach each layer are arbitrary, and so is the prediction head.
 */
module Prerouting {
  import opened Common
  import opened Vectors
  import opened Routing
  import opened BundleCache
  import opened Staging

  const FIRST_OWNER: nat := 7
  const LAST_OWNER: nat := 22
  const LAYERS: nat := 24

  /** What an owner layer saw in one step: its last input row, and the experts each row was routed to. */
  datatype Feature = Feature(input: Row, executed: seq<seq<nat>>)

  type Features = map<nat, Feature>

  ghost predicate AllOwners(features: Features) {
    forall owner :: FIRST_OWNER <= owner <= LAST_OWNER ==> owner in features && features[owner].executed != []
  }

  /** The learned head of an owner: a route for the layer above it. */
  type Head = (nat, Row, seq<nat>, Option<seq<nat>>) -> Route

  ghost predicate Predicts(head: Head) {
    forall owner, input, current, previous ::
      head(owner, input, current, previous).ids != [] &&
      |head(owner, input, current, previous).ids| == |head(owner, input, current, previous).weights|
  }

  /**
   A route is the head's on what its owner saw: its last input row, the experts its last row was routed to, and
   the row before that one, which is the remembered one, else the chunk's last but one, else nothing.
   */
  ghost predicate OwnerRoute(head: Head, owner: nat, f: Feature, previous: map<nat, seq<nat>>, route: Route) {
    && f.executed != []
    && var n := |f.executed|;
      && (owner in previous ==> route == head(owner, f.input, f.executed[n - 1], Some(previous[owner])))
      && (owner !in previous && n > 1 ==> route == head(owner, f.input, f.executed[n - 1], Some(f.executed[n - 2])))
      && (owner !in previous && n == 1 ==> route == head(owner, f.input, f.executed[n - 1], None))
  }

  /** The layers above the owners, and no others, have routes: their owners' heads' on these features. */
  ghost predicate RoutesOf(head: Head, features: Features, previous: map<nat, seq<nat>>, routes: map<nat, Route>) {
    && (forall c :: c in routes <==> FIRST_OWNER < c <= LAST_OWNER + 1)
    && (forall owner :: FIRST_OWNER <= owner <= LAST_OWNER ==>
          owner in features && OwnerRoute(head, owner, features[owner], previous, routes[owner + 1]))
  }

  /** The owners' last rows take the place of those remembered before; nothing else changes. */
  ghost predicate Remembered(features: Features, before: map<nat, seq<nat>>, after: map<nat, seq<nat>>)
    requires AllOwners(features)
  {
    && (forall owner :: FIRST_OWNER <= owner <= LAST_OWNER ==>
          owner in after && after[owner] == features[owner].executed[|features[owner].executed| - 1])
    && (forall o :: !(FIRST_OWNER <= o <= LAST_OWNER) ==>
          (o in after <==> o in before) && (o in before ==> after[o] == before[o]))
  }

  class LingPrerouter {
    const head: Head
    var previousIndices: map<nat, seq<nat>>

    constructor (head: Head)
      ensures this.head == head && previousIndices == map[]
    {
      this.head, previousIndices := head, map[];
    }

    /** One turn of the loop of `predict`. */
    method PredictOne(owner: nat, f: Feature) returns (route: Route, row: seq<nat>)
      requires f.executed != []
      ensures OwnerRoute(head, owner, f, previousIndices, route)
      ensures row == f.executed[|f.executed| - 1]
      ensures Predicts(head) ==> route.ids != [] && |route.ids| == |route.weights|
    {
      var rows := |f.executed|;
      row := f.executed[rows - 1];
      var previous := if owner in previousIndices then Some(previousIndices[owner])
                      else if rows > 1 then Some(f.executed[rows - 2]) else None;
      route := head(owner, f.input, row, previous);
    }

    /** Owners in order; any owner missing means no prediction at all, and nothing is remembered. */
    method Predict(features: Features) returns (next: map<nat, Route>)
      modifies this
      ensures AllOwners(features) ==> RoutesOf(head, features, old(previousIndices), next)
      ensures AllOwners(features) ==> Remembered(features, old(previousIndices), previousIndices)
      ensures Predicts(head) ==> forall c :: c in next ==> next[c].ids != [] && |next[c].ids| == |next[c].weights|
      ensures !AllOwners(features) ==> next == map[] && previousIndices == old(previousIndices)
    {
      next := map[];
      var current: map<nat, seq<nat>> := map[];
      for owner := FIRST_OWNER to LAST_OWNER + 1
        invariant previousIndices == old(previousIndices)
        invariant forall c :: c in next <==> FIRST_OWNER < c <= owner
        invariant Predicts(head) ==> forall c :: c in next ==> next[c].ids != [] && |next[c].ids| == |next[c].weights|
        invariant forall o :: o in current <==> FIRST_OWNER <= o < owner
        invariant forall o :: FIRST_OWNER <= o < owner ==>
                    && o in features && OwnerRoute(head, o, features[o], previousIndices, next[o + 1])
                    && current[o] == features[o].executed[|features[o].executed| - 1]
      {
        if owner !in features || features[owner].executed == [] {
          next := map[];
          return;
        }
        var f := features[owner];
        var route, row := PredictOne(owner, f);
        next := next[owner + 1 := route];
        current := current[owner := row];
      }
      previousIndices := previousIndices + current;
    }

    method Reset()
      modifies this
      ensures previousIndices == map[]
    {
      previousIndices := map[];
    }
  }

  // ---- the model's step boundary --------------------------------------------------------------

  datatype Step = Decode(inputs: seq<Row>) | Prefill(features: Features) | Reset

  class RoutedModel {
    /** The sparse feed-forward of each layer; those below `firstSparse` are dense and have none in use. */
    const moes: seq<StreamingMoE>
    const firstSparse: nat
    const cache: ExpertBundleCache<Expert>
    const store: Key -> Expert
    const prerouter: LingPrerouter

    var predictedRoutes: map<nat, Route>

    /** What the last step's owners saw, and what the prerouter remembered before it. */
    ghost var seen: Features
    ghost var recalled: map<nat, seq<nat>>

    constructor (moes: seq<StreamingMoE>, firstSparse: nat, cache: ExpertBundleCache<Expert>, store: Key -> Expert,
                 prerouter: LingPrerouter)
      ensures this.moes == moes && this.firstSparse == firstSparse && this.cache == cache && this.store == store
      ensures this.prerouter == prerouter && predictedRoutes == map[]
    {
      this.moes, this.firstSparse, this.cache, this.store := moes, firstSparse, cache, store;
      this.prerouter, predictedRoutes, seen, recalled := prerouter, map[], map[], map[];
    }

    ghost function Moes(): set<StreamingMoE> {
      set m | m in moes
    }

    ghost predicate Formed() {
      && |moes| == LAYERS
      && (forall i :: 0 <= i < |moes| ==> moes[i].cache == cache && moes[i].store == store)
      && (forall i, j :: 0 <= i < j < |moes| ==> moes[i] != moes[j])
      && Predicts(prerouter.head)
    }

    ghost predicate CacheGood()
      reads cache
    {
      cache.Valid() && GenuineCache(cache.latest, store)
    }

    /** If layer `i` has a predicted route, exactly that set is pending. */
    ghost predicate Ready(i: nat, routes: map<nat, Route>)
      requires i < |moes|
      reads moes[i]
    {
      i in routes && i >= firstSparse ==>
        && routes[i].ids != [] && |routes[i].ids| == |routes[i].weights|
        && moes[i].pendingBundles.Some? && moes[i].pendingOrder == Canonical(routes[i].ids)
    }

    /** Every expert of the layer can be loaded, and its teacher always routes somewhere. */
    ghost predicate Loads(m: StreamingMoE) {
      && (forall id :: m.loadable(id))
      && (forall x :: m.teacher(x).ids != [] && |m.teacher(x).ids| == |m.teacher(x).weights|)
    }

    ghost predicate AllLoad() {
      forall i :: 0 <= i < |moes| ==> Loads(moes[i])
    }

    /** Every layer holds only genuine bundles and has never fallen back. */
    ghost predicate AllSound()
      reads Moes()
    {
      forall i :: 0 <= i < |moes| ==> moes[i].Own() && moes[i].stagedFallback == 0
    }

    /** Layers below `index` are done with their routes; the others still have their sets pending. */
    ghost predicate ReadyFrom(index: nat, routes: map<nat, Route>)
      reads Moes()
    {
      forall i :: index <= i < |moes| ==> Ready(i, routes)
    }

    /** Routes in use are the heads' on what the owners saw in the step before, and their sets are pending. */
    ghost predicate Valid()
      reads this, cache, Moes()
    {
      && Formed() && CacheGood() && AllSound() && ReadyFrom(0, predictedRoutes)
      && (predictedRoutes != map[] ==> AllOwners(seen) && RoutesOf(prerouter.head, seen, recalled, predictedRoutes))
    }

    /** The experts layer `index` runs: the predicted ones, where there is a route for it, else its teacher's. */
    ghost function RanAt(index: nat, x: Row, routes: map<nat, Route>): seq<nat>
      requires index < |moes|
    {
      if index in routes then routes[index].ids else moes[index].teacher(x).ids
    }

    /** One layer of a decode step: the predicted path where there is a route for it. */
    method DecodeLayer(index: nat, x: Row) returns (row: Outcome<Row>, executed: seq<nat>)
      requires index < |moes| && Formed() && CacheGood()
      requires moes[index].Own() && moes[index].stagedFallback == 0
      requires index >= firstSparse && Ready(index, predictedRoutes)
      modifies moes[index], cache
      ensures CacheGood() && moes[index].Own() && moes[index].stagedFallback == 0
      ensures row.Ok? && index in predictedRoutes ==>
                executed == predictedRoutes[index].ids &&
                row.value == Routed(moes[index].bank, moes[index].shared, x, predictedRoutes[index])
      ensures executed == RanAt(index, x, predictedRoutes)
      ensures AllLoad() ==> row.Ok?
    {
      var moe := moes[index];
      if index in predictedRoutes {
        executed := predictedRoutes[index].ids;
        row := moe.Predicted(x, predictedRoutes[index]);
      } else {
        executed := moe.teacher(x).ids;
        row := moe.Exact(x);
      }
    }

    method DecodeOne(index: nat, x: Row) returns (ok: bool, executed: seq<nat>)
      requires Formed() && index < |moes| && CacheGood() && AllSound() && ReadyFrom(index, predictedRoutes)
      modifies moes[index], cache
      ensures CacheGood() && AllSound() && ReadyFrom(index + 1, predictedRoutes)
      ensures ok && index >= firstSparse ==> executed == RanAt(index, x, predictedRoutes)
      ensures AllLoad() ==> ok
    {
      if index < firstSparse { return true, []; }
      var row;
      row, executed := DecodeLayer(index, x);
      ok := row.Ok?;
    }

    /** A decode step's features: each sparse owner's own input row, and the one row of experts it ran. */
    ghost predicate DecodeFeatures(inputs: seq<Row>, features: Features, routes: map<nat, Route>)
      requires |inputs| == |moes| == LAYERS
    {
      forall o :: FIRST_OWNER <= o <= LAST_OWNER && firstSparse <= o ==>
        && o in features && features[o].input == inputs[o] && |features[o].executed| == 1
        && (o in routes ==> features[o].executed[0] == routes[o].ids)
        && (o !in routes ==> features[o].executed[0] == moes[o].teacher(inputs[o]).ids)
    }

    /** `callAsFunction` up to the step boundary. */
    method DecodeLayers(inputs: seq<Row>) returns (ok: bool, features: Features)
      requires Formed() && CacheGood() && AllSound() && ReadyFrom(0, predictedRoutes) && |inputs| == LAYERS
      modifies Moes(), cache
      ensures CacheGood() && AllSound()
      ensures ok ==> DecodeFeatures(inputs, features, predictedRoutes)
      ensures AllLoad() ==> ok
    {
      features, ok := map[], true;
      for index := 0 to |moes|
        invariant ok && CacheGood() && AllSound() && ReadyFrom(index, predictedRoutes)
        invariant forall o :: FIRST_OWNER <= o <= LAST_OWNER && firstSparse <= o < index ==>
                    o in features && features[o] == Feature(inputs[o], [RanAt(o, inputs[o], predictedRoutes)])
      {
        var executed;
        assert moes[index] in Moes();
        ok, executed := DecodeOne(index, inputs[index]);
        if !ok { return false, map[]; }
        if firstSparse <= index && FIRST_OWNER <= index <= LAST_OWNER {
          features := features[index := Feature(inputs[index], [executed])];
        }
      }
    }

    // ---- the boundary --------------------------------------------------------------------------

    method StageOne(consumer: nat, route: Route) returns (ok: bool)
      requires Formed() && CacheGood() && AllSound() && consumer < |moes| && route.ids != []
      modifies moes[consumer], cache
      ensures CacheGood() && AllSound()
      ensures ok && consumer >= firstSparse ==>
                moes[consumer].pendingBundles.Some? && moes[consumer].pendingOrder == Canonical(route.ids)
      ensures AllLoad() ==> ok
    {
      ok := true;
      if consumer >= firstSparse {
        ok := moes[consumer].Stage(route.ids);
      }
    }

    /** Stage every predicted consumer; a dictionary gives them in any order. */
    method StageAll(next: map<nat, Route>) returns (ok: bool)
      requires Formed() && CacheGood() && AllSound()
      requires forall c :: c in next ==> c < |moes| && next[c].ids != [] && |next[c].ids| == |next[c].weights|
      modifies Moes(), cache
      ensures CacheGood() && AllSound() && (ok ==> ReadyFrom(0, next)) && (AllLoad() ==> ok)
    {
      var left := next.Keys;
      while left != {}
        invariant CacheGood() && AllSound() && left <= next.Keys
        invariant forall i :: 0 <= i < |moes| && i !in left ==> Ready(i, next)
        decreases left
      {
        var consumer :| consumer in left;
        assert moes[consumer] in Moes();
        ok := StageOne(consumer, next[consumer]);
        if !ok { return; }
        left := left - {consumer};
      }
      ok := true;
    }

    /** `updateStagedRoutes`: the routes of exactly these features, with the indices remembered before the call. */
    method UpdateStagedRoutes(features: Features) returns (ok: bool)
      requires Formed() && CacheGood() && AllSound()
      modifies `predictedRoutes, prerouter, Moes(), cache
      ensures CacheGood() && AllSound()
      ensures ok ==> ReadyFrom(0, predictedRoutes) && (predictedRoutes != map[] <==> AllOwners(features))
      ensures ok && AllOwners(features) ==>
                && RoutesOf(prerouter.head, features, old(prerouter.previousIndices), predictedRoutes)
                && Remembered(features, old(prerouter.previousIndices), prerouter.previousIndices)
      ensures ok && !AllOwners(features) ==>
                predictedRoutes == map[] && prerouter.previousIndices == old(prerouter.previousIndices)
      ensures AllLoad() ==> ok
    {
      var next := prerouter.Predict(features);
      ok := StageAll(next);
      if !ok { return; }
      if AllOwners(features) { assert FIRST_OWNER + 1 in next; }
      predictedRoutes := next;
    }

    /** `reset` of every layer's staging. */
    method ResetLayers()
      requires Formed() && CacheGood() && AllSound()
      modifies Moes()
      ensures CacheGood() && AllSound()
    {
      for index := 0 to |moes|
        invariant CacheGood() && AllSound()
      {
        assert moes[index] in Moes();
        moes[index].ResetStaging();
      }
    }

    /**
     One step of a run. A step that throws no error leaves the routes of what its own owners saw, or none, with
     their sets pending: after a decode, what each owner was given and the experts it ran; after a prefill, its
     features. Nothing ever falls back, and a reset forgets all predictions.
     */
    method Take(step: Step) returns (ok: bool)
      requires Valid() && (step.Decode? ==> |step.inputs| == LAYERS)
      modifies this, prerouter, Moes(), cache
      ensures ok ==> Valid()
      ensures ok && !step.Reset? ==>
                && recalled == old(prerouter.previousIndices)
                && (predictedRoutes != map[] <==> AllOwners(seen))
                && (AllOwners(seen) ==> RoutesOf(prerouter.head, seen, recalled, predictedRoutes))
                && (AllOwners(seen) ==> Remembered(seen, recalled, prerouter.previousIndices))
                && (!AllOwners(seen) ==> prerouter.previousIndices == recalled)
      ensures ok && step.Decode? ==> DecodeFeatures(step.inputs, seen, old(predictedRoutes))
      ensures ok && step.Decode? && firstSparse <= FIRST_OWNER ==> predictedRoutes != map[]
      ensures ok && step.Prefill? ==> seen == step.features
      ensures ok && step.Reset? ==> predictedRoutes == map[] && prerouter.previousIndices == map[]
      ensures AllLoad() ==> ok
    {
      recalled := prerouter.previousIndices;
      match step {
        case Decode(inputs) =>
          var features;
          ok, features := DecodeLayers(inputs);
          if ok { ok := UpdateStagedRoutes(features); }
          seen := features;
        case Prefill(features) =>
          ok := UpdateStagedRoutes(features);
          seen := features;
        case Reset =>
          ResetLayers();
          predictedRoutes := map[];
          prerouter.Reset();
          ok := true;
      }
    }

    /** In every run free of errors no layer ever falls back, and with every expert there to load there is no error. */
    method TakeAll(run: seq<Step>) returns (ok: bool)
      requires Valid() && forall k :: 0 <= k < |run| && run[k].Decode? ==> |run[k].inputs| == LAYERS
      modifies this, prerouter, Moes(), cache
      ensures ok ==> Valid() && forall i :: 0 <= i < |moes| ==> moes[i].stagedFallback == 0
      ensures AllLoad() ==> ok
    {
      ok := true;
      for k := 0 to |run|
        invariant ok && Valid()
      {
        ok := Take(run[k]);
        if !ok { return; }
      }
    }
  }
}
